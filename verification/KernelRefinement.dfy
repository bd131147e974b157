/**
 * The verdict precommitted to the kernel before a destination exists, against the packet path
 * that decides each flow: a process refused in the kernel would have every flow refused.
 */
module KernelRefinement {
  import opened CoreTypes
  import opened Scopes
  import opened RuleSets
  import opened Engines

  /** Every rule passed on the way is a generic Allow with a legacy hostname. */
  ghost predicate OnlyHostAllows(passed: seq<Rule>) {
    forall r | r in passed :: IsGenericAllow(r) && r.scope.dstHost.Some?
  }

  /** What one rule contributes to an outbound lookup once the process-wide walk has passed it. */
  lemma PassedProcessWide(r: Rule, c: Connection, p: Process, q: Process, now: int)
    requires Extends(p, q) && c.direction == Outbound
    requires Live(r, now) && r.scope.direction != Some(Inbound) ==> !UndecidableFor(r.scope, p)
    ensures var s := StatusOf(r, c, q, now);
            if Live(r, now) && r.scope.direction != Some(Inbound) && MatchesProcess(r.scope, p) then
              (s.Maybe? ==> r.scope.dstHost.Some?) && (!ConstrainsDestination(r.scope) ==> s.Yes?)
            else s.No?
  {
    if Live(r, now) {
      if r.scope.direction != Some(Inbound) {
        DecidedIsStable(r.scope, p, q);
      }
    }
  }

  lemma {:induction false} ProcessWideWalk(rules: seq<Rule>, c: Connection, p: Process, q: Process, now: int, saw: bool)
    requires Extends(p, q) && c.direction == Outbound && ProcessWideRule(rules, p, now, saw).Some?
    ensures var k := ProcessWideRule(rules, p, now, saw).value;
            var w := Visit(Candidates(rules, c, q, now));
            w.winner == Some(k) && OnlyHostAllows(w.passed) && k in rules && (!Refuses(k) ==> w.passed == [])
    ensures saw ==> var k := ProcessWideRule(rules, p, now, saw).value;
                    IsProgramRefusal(k) && VisitPrograms(Candidates(rules, c, q, now)) == Walk(Some(k), [])
  {
    var r := rules[0];
    var cs := Candidates(rules, c, q, now);
    assert cs[0] == Candidate(r, StatusOf(r, c, q, now));
    assert cs[1..] == Candidates(rules[1..], c, q, now);
    PassedProcessWide(r, c, p, q, now);
    if !Live(r, now) || r.scope.direction == Some(Inbound) || !MatchesProcess(r.scope, p) {
      ProcessWideWalk(rules[1..], c, p, q, now, saw);
    } else if IsGenericAllow(r) {
      ProcessWideWalk(rules[1..], c, p, q, now, true);
    }
  }

  /**
   * A process the kernel refuses is one the packet path refuses: for every process that keeps
   * what was known and may fill in what was missing, and every outbound flow, the decision is a
   * refusal, by that very rule or by policy where a legacy hostname Allow ranks above it.
   */
  lemma KernelRefusalIsRefusedByThePacketPath(
    rules: seq<Rule>, policy: Policy, c: Connection, p: Process, q: Process, now: int, d: Decision)
    requires c.direction == Outbound && Extends(p, q) && Decides(rules, policy, c, q, now, d)
    requires ProcessWideRule(rules, p, now, false).Some? && Refuses(ProcessWideRule(rules, p, now, false).value)
    ensures d.Resolved? && d.verdict.action != Allow
    ensures var k := ProcessWideRule(rules, p, now, false).value;
            d.verdict == Verdict(k.action, FromRule(k.id)) || d.verdict == Verdict(Deny, DefaultPolicy)
  {
    ProcessWideWalk(rules, c, p, q, now, false);
    var w := Visit(Candidates(rules, c, q, now));
    var m :| LooksUp(rules, c, q, now, m) && d == DecisionFor(m, policy);
    if m.Undecidable? {
      assert m.rule in w.passed;
    }
  }

  /** A process-wide Allow is always a program rule, and it is exactly what every lookup answers. */
  lemma KernelAllowIsTheAnswer(rules: seq<Rule>, c: Connection, p: Process, q: Process, now: int, m: Match)
    requires c.direction == Outbound && Extends(p, q) && LooksUp(rules, c, q, now, m)
    requires ProcessWideRule(rules, p, now, false).Some? && !Refuses(ProcessWideRule(rules, p, now, false).value)
    ensures m == Answer(ProcessWideRule(rules, p, now, false).value) && NamesProgram(m.rule.scope)
  {
    ProcessWideWalk(rules, c, p, q, now, false);
    ProcessWideAllowNamesProgram(rules, p, now, false);
    assert forall x :: x in Visit(Candidates(rules, c, q, now)).passed ==> false;
  }

  lemma {:induction false} ProcessWideAllowNamesProgram(rules: seq<Rule>, p: Process, now: int, saw: bool)
    requires ProcessWideRule(rules, p, now, saw).Some?
    ensures !IsGenericAllow(ProcessWideRule(rules, p, now, saw).value)
  {
    var r := rules[0];
    if !Live(r, now) || r.scope.direction == Some(Inbound) || !MatchesProcess(r.scope, p) {
      ProcessWideAllowNamesProgram(rules[1..], p, now, saw);
    } else if IsGenericAllow(r) {
      ProcessWideAllowNamesProgram(rules[1..], p, now, true);
    }
  }

  // ---- The executable table -----------------------------------------------------------

  /** The process the table writer makes up: an executable and nothing else. */
  function ExeOnly(path: string): Process {
    Process(path, None, None)
  }

  /** No user-scoped rule is about a compilable executable, so the user changes no status. */
  lemma CompilableIgnoresUser(rules: seq<Rule>, r: Rule, c: Connection, path: string, sha: Option<string>,
                              u: Option<u32>, v: Option<u32>, now: int)
    requires path != UNKNOWN_EXE && Compilable(rules, now, path) && r in rules
    ensures StatusOf(r, c, Process(path, u, sha), now) == StatusOf(r, c, Process(path, v, sha), now)
    ensures Live(r, now) ==>
              && UndecidableFor(r.scope, Process(path, u, sha)) == UndecidableFor(r.scope, Process(path, v, sha))
              && MatchesProcess(r.scope, Process(path, u, sha)) == MatchesProcess(r.scope, Process(path, v, sha))
  {
    if Live(r, now) && r.scope.uid.Some? {
      assert r.scope.exePath.Some? && r.scope.exePath.value != path;
    }
  }

  lemma {:induction false} ProcessWideIgnoresUser(all: seq<Rule>, rules: seq<Rule>, path: string, sha: Option<string>,
                                                  u: Option<u32>, v: Option<u32>, now: int, saw: bool)
    requires path != UNKNOWN_EXE && Compilable(all, now, path) && forall r | r in rules :: r in all
    ensures ProcessWideRule(rules, Process(path, u, sha), now, saw)
            == ProcessWideRule(rules, Process(path, v, sha), now, saw)
  {
    if rules == [] {
    } else {
      var c := Connection(Tcp, Outbound, V4([0, 0, 0, 0]), 0, V4([0, 0, 0, 0]), 0);
      CompilableIgnoresUser(all, rules[0], c, path, sha, u, v, now);
      ProcessWideIgnoresUser(all, rules[1..], path, sha, u, v, now, saw);
      ProcessWideIgnoresUser(all, rules[1..], path, sha, u, v, now, true);
    }
  }

  /**
   * Compiling an executable into the kernel table loses no per-user decision: the made-up
   * process is answered as every user's process would be, and a refusal of it is a refusal of
   * every outbound flow of every user running it, whatever its digest.
   */
  lemma CompiledRefusalHoldsForEveryUser(rules: seq<Rule>, policy: Policy, path: string, u: Option<u32>,
                                         sha: Option<string>, c: Connection, now: int, d: Decision)
    requires path != UNKNOWN_EXE && Compilable(rules, now, path) && c.direction == Outbound
    requires Decides(rules, policy, c, Process(path, u, sha), now, d)
    ensures ProcessWideRule(rules, Process(path, u, None), now, false)
            == ProcessWideRule(rules, ExeOnly(path), now, false)
    ensures var k := ProcessWideRule(rules, ExeOnly(path), now, false);
            k.Some? && Refuses(k.value) ==> d.Resolved? && d.verdict.action != Allow
  {
    ProcessWideIgnoresUser(rules, rules, path, None, u, None, now, false);
    var k := ProcessWideRule(rules, ExeOnly(path), now, false);
    if k.Some? && Refuses(k.value) {
      KernelRefusalIsRefusedByThePacketPath(rules, policy, c, ExeOnly(path), Process(path, u, sha), now, d);
    }
  }
}
