/**
 * What a three-valued lookup promises: it answers only when every way the undecided rules could
 * resolve agrees, learning more never flips an answer, and abstention is exact up to one case.
 */
module ThreeValued {
  import opened CoreTypes
  import opened Scopes
  import opened RuleSets

  // ---- The two-valued contract -------------------------------------------------

  /** First rule of a list that names a program. */
  function FirstProgram(matching: seq<Rule>): Option<Rule> {
    if matching == [] then None
    else if NamesProgram(matching[0].scope) then Some(matching[0])
    else FirstProgram(matching[1..])
  }

  /** Who wins among rules that all match, in order: the documented precedence. */
  function Precedence(matching: seq<Rule>): Option<Rule> {
    if matching == [] then None
    else if IsGenericAllow(matching[0]) && FirstProgram(matching[1..]).Some? then FirstProgram(matching[1..])
    else Some(matching[0])
  }

  function Matching(cs: seq<Candidate>): seq<Rule> {
    if cs == [] then []
    else if cs[0].status.Yes? then [cs[0].rule] + Matching(cs[1..])
    else Matching(cs[1..])
  }

  ghost predicate Decided(cs: seq<Candidate>) {
    forall i | 0 <= i < |cs| :: !cs[i].status.Maybe?
  }

  /** `ds` knows at least as much as `cs`: an undecided rule may have become anything. */
  ghost predicate Refines(cs: seq<Candidate>, ds: seq<Candidate>) {
    && |cs| == |ds|
    && forall i | 0 <= i < |cs| ::
         cs[i].rule == ds[i].rule && (!cs[i].status.Maybe? ==> ds[i].status == cs[i].status)
  }

  /** `ds` is one way all the undecided rules of `cs` could resolve. */
  ghost predicate Resolves(cs: seq<Candidate>, ds: seq<Candidate>) {
    Refines(cs, ds) && Decided(ds)
  }

  datatype Outcome = Unmatched | Allowed | Refused

  function ClassOf(winner: Option<Rule>): Outcome {
    if winner.None? then Unmatched else if Refuses(winner.value) then Refused else Allowed
  }

  /** What a fully decided rule list decides. */
  function OutcomeOf(ds: seq<Candidate>): Outcome {
    ClassOf(Precedence(Matching(ds)))
  }

  /** With nothing undecided the walk is the documented precedence. */
  lemma {:induction false} DecidedPrograms(ds: seq<Candidate>)
    requires Decided(ds)
    ensures VisitPrograms(ds) == Walk(FirstProgram(Matching(ds)), [])
  {
    if ds == [] {
    } else {
      DecidedPrograms(ds[1..]);
      if ds[0].status.Yes? {
        assert Matching(ds)[1..] == Matching(ds[1..]);
      }
    }
  }

  lemma {:induction false} DecidedWalk(ds: seq<Candidate>)
    requires Decided(ds)
    ensures Visit(ds) == Walk(Precedence(Matching(ds)), [])
  {
    if ds == [] {
    } else {
      DecidedWalk(ds[1..]);
      DecidedPrograms(ds[1..]);
      if ds[0].status.Yes? {
        assert Matching(ds)[1..] == Matching(ds[1..]);
      }
    }
  }

  // ---- Refinement ----------------------------------------------------------------

  /** Nothing this walk met can refuse. */
  ghost predicate Permits(w: Walk) {
    (w.winner.Some? ==> !Refuses(w.winner.value)) && !AnyRefusal(w.passed)
  }

  /** This walk refuses, and nothing it met can allow. */
  ghost predicate Forbids(w: Walk) {
    w.winner.Some? && Refuses(w.winner.value) && !AnyAllow(w.passed)
  }

  lemma PassedOneMore(r: Rule, passed: seq<Rule>)
    ensures AnyAllow([r] + passed) <==> !Refuses(r) || AnyAllow(passed)
    ensures AnyRefusal([r] + passed) <==> Refuses(r) || AnyRefusal(passed)
  {
    forall x ensures x in [r] + passed <==> x == r || x in passed {
    }
    assert ([r] + passed)[0] == r;
    assert r in [r] + passed;
    if x :| x in passed && !Refuses(x) {
      assert x in [r] + passed;
    }
    if x :| x in passed && Refuses(x) {
      assert x in [r] + passed;
    }
  }

  lemma {:induction false} ProgramsRefine(cs: seq<Candidate>, ds: seq<Candidate>)
    requires Refines(cs, ds)
    ensures Permits(VisitPrograms(cs)) ==> Permits(VisitPrograms(ds))
    ensures Forbids(VisitPrograms(cs)) ==> Forbids(VisitPrograms(ds))
    ensures VisitPrograms(cs) == Walk(None, []) ==> VisitPrograms(ds) == Walk(None, [])
    ensures VisitPrograms(cs).winner.Some? ==> VisitPrograms(ds).winner.Some?
  {
    if cs == [] {
    } else {
      ProgramsRefine(cs[1..], ds[1..]);
      PassedOneMore(cs[0].rule, VisitPrograms(cs[1..]).passed);
      PassedOneMore(cs[0].rule, VisitPrograms(ds[1..]).passed);
    }
  }

  /** If nothing on the full walk can refuse, no program rule can either. */
  lemma {:induction false} ProgramsStayPermitted(cs: seq<Candidate>, ds: seq<Candidate>)
    requires Refines(cs, ds) && Permits(Visit(cs)) && Visit(cs).winner.Some?
    ensures Permits(VisitPrograms(ds))
  {
    var c := cs[0];
    PassedOneMore(c.rule, Visit(cs[1..]).passed);
    PassedOneMore(c.rule, VisitPrograms(ds[1..]).passed);
    if c.status.Yes? {
      ProgramsRefine(cs[1..], ds[1..]);
    } else {
      ProgramsStayPermitted(cs[1..], ds[1..]);
    }
  }

  /** A settled walk stays settled on the same class when more becomes known. */
  lemma {:induction false} WalkRefines(cs: seq<Candidate>, ds: seq<Candidate>)
    requires Refines(cs, ds)
    ensures Permits(Visit(cs)) && Visit(cs).winner.Some? ==> Permits(Visit(ds)) && Visit(ds).winner.Some?
    ensures Forbids(Visit(cs)) ==> Forbids(Visit(ds))
    ensures Visit(cs) == Walk(None, []) ==> Visit(ds) == Walk(None, [])
  {
    if cs == [] {
    } else {
      if cs[0].status.Yes? {
        ProgramsRefine(cs[1..], ds[1..]);
      } else {
        WalkRefines(cs[1..], ds[1..]);
        if cs[0].status.Maybe? {
          PassedOneMore(cs[0].rule, Visit(cs[1..]).passed);
          if ds[0].status.Maybe? {
            PassedOneMore(cs[0].rule, Visit(ds[1..]).passed);
          } else if Permits(Visit(cs)) && Visit(cs).winner.Some? {
            ProgramsStayPermitted(cs[1..], ds[1..]);
          }
        }
      }
    }
  }

  // ---- Soundness -------------------------------------------------------------------

  /** A lookup answers only if every resolution of the undecided rules gives its class. */
  lemma LookupIsSound(rules: seq<Rule>, c: Connection, p: Process, now: int, m: Match, ds: seq<Candidate>)
    requires LooksUp(rules, c, p, now, m) && Resolves(Candidates(rules, c, p, now), ds)
    ensures m.Answer? ==> OutcomeOf(ds) == ClassOf(Some(m.rule))
    ensures m.NoMatch? ==> OutcomeOf(ds) == Unmatched
  {
    WalkRefines(Candidates(rules, c, p, now), ds);
    DecidedWalk(ds);
  }

  lemma CandidatesRefine(rules: seq<Rule>, c: Connection, p: Process, q: Process, now: int)
    requires Extends(p, q)
    ensures Refines(Candidates(rules, c, p, now), Candidates(rules, c, q, now))
  {
    forall i | 0 <= i < |rules|
      ensures var s := StatusOf(rules[i], c, p, now); !s.Maybe? ==> StatusOf(rules[i], c, q, now) == s
    {
      DecidedIsStable(rules[i].scope, p, q);
    }
  }

  /** Knowing more about the process never flips an answer, and never turns one into a prompt. */
  lemma KnowingMoreNeverFlips(rules: seq<Rule>, c: Connection, p: Process, q: Process, now: int, m: Match, n: Match)
    requires Extends(p, q) && LooksUp(rules, c, p, now, m) && LooksUp(rules, c, q, now, n)
    ensures m.Answer? ==> n.Answer? && (Refuses(n.rule) <==> Refuses(m.rule))
    ensures m.NoMatch? ==> n.NoMatch?
  {
    CandidatesRefine(rules, c, p, q, now);
    WalkRefines(Candidates(rules, c, p, now), Candidates(rules, c, q, now));
  }

  // ---- Abstention ------------------------------------------------------------------

  /** The resolution in which no undecided rule matches. */
  function NoneMatch(cs: seq<Candidate>): (ds: seq<Candidate>)
    ensures |ds| == |cs|
  {
    seq(|cs|, i requires 0 <= i < |cs| => if cs[i].status.Maybe? then Candidate(cs[i].rule, No) else cs[i])
  }

  lemma {:induction false} NoneMatchWalk(cs: seq<Candidate>)
    ensures Resolves(cs, NoneMatch(cs))
    ensures Visit(NoneMatch(cs)) == Walk(Visit(cs).winner, [])
    ensures VisitPrograms(NoneMatch(cs)) == Walk(VisitPrograms(cs).winner, [])
  {
    if cs == [] {
    } else {
      assert NoneMatch(cs)[1..] == NoneMatch(cs[1..]);
      NoneMatchWalk(cs[1..]);
    }
  }

  /** Any passed program rule is the program winner of some resolution. */
  lemma {:induction false} PickProgram(cs: seq<Candidate>, r: Rule) returns (ds: seq<Candidate>)
    requires r in VisitPrograms(cs).passed
    ensures Resolves(cs, ds) && VisitPrograms(ds) == Walk(Some(r), [])
  {
    var c := cs[0];
    if c.status.Maybe? && NamesProgram(c.rule.scope) && c.rule == r {
      NoneMatchWalk(cs[1..]);
      ds := [Candidate(r, Yes)] + NoneMatch(cs[1..]);
      assert ds[1..] == NoneMatch(cs[1..]);
    } else {
      var rest := PickProgram(cs[1..], r);
      ds := [if c.status.Maybe? then Candidate(c.rule, No) else c] + rest;
      assert ds[1..] == rest;
    }
  }

  /** Any passed rule but a generic Allow is the winner of some resolution. */
  lemma {:induction false} PickRule(cs: seq<Candidate>, r: Rule) returns (ds: seq<Candidate>)
    requires r in Visit(cs).passed && !IsGenericAllow(r)
    ensures Resolves(cs, ds) && Visit(ds).winner == Some(r)
  {
    var c := cs[0];
    var rest: seq<Candidate>;
    if c.status.Maybe? && c.rule == r {
      NoneMatchWalk(cs[1..]);
      rest := NoneMatch(cs[1..]);
      ds := [Candidate(r, Yes)] + rest;
    } else if c.status.Yes? {
      rest := PickProgram(cs[1..], r);
      ds := [c] + rest;
    } else {
      rest := PickRule(cs[1..], r);
      ds := [Candidate(c.rule, No)] + rest;
    }
    assert ds[1..] == rest;
  }

  /** Whether some resolution of the program rules alone lets a generic Allow stand. */
  lemma PickLeniently(cs: seq<Candidate>) returns (ds: seq<Candidate>)
    requires !Forbids(VisitPrograms(cs))
    ensures Resolves(cs, ds)
    ensures VisitPrograms(ds).winner.Some? ==> !Refuses(VisitPrograms(ds).winner.value)
  {
    NoneMatchWalk(cs);
    if r :| r in VisitPrograms(cs).passed && !Refuses(r) {
      ds := PickProgram(cs, r);
    } else {
      ds := NoneMatch(cs);
    }
  }

  /** A passed Allow wins in some resolution unless the program rules settle on refusing. */
  lemma {:induction false} PickAllow(cs: seq<Candidate>) returns (ds: seq<Candidate>)
    requires AnyAllow(Visit(cs).passed) && !Forbids(VisitPrograms(cs))
    ensures Resolves(cs, ds) && Visit(ds).winner.Some? && !Refuses(Visit(ds).winner.value)
  {
    var c := cs[0];
    if r :| r in Visit(cs).passed && !Refuses(r) && NamesProgram(r.scope) {
      ds := PickRule(cs, r);
    } else {
      var r :| r in Visit(cs).passed && !Refuses(r);
      var rest: seq<Candidate>;
      if c.status.Yes? {
        PassedProgramsNameOne(cs[1..], r);
        assert false;
      } else if c.status.Maybe? && !Refuses(c.rule) {
        rest := PickLeniently(cs[1..]);
        ds := [Candidate(c.rule, Yes)] + rest;
        assert ds[1..] == rest;
      } else {
        if c.status.Maybe? {
          PassedOneMore(c.rule, Visit(cs[1..]).passed);
          PassedOneMore(c.rule, VisitPrograms(cs[1..]).passed);
        }
        rest := PickAllow(cs[1..]);
        ds := [Candidate(c.rule, No)] + rest;
        assert ds[1..] == rest;
      }
    }
  }

  lemma {:induction false} PassedProgramsNameOne(cs: seq<Candidate>, r: Rule)
    requires r in VisitPrograms(cs).passed
    ensures NamesProgram(r.scope)
  {
    if !(cs[0].status.Maybe? && NamesProgram(cs[0].rule.scope) && cs[0].rule == r) {
      PassedProgramsNameOne(cs[1..], r);
    }
  }

  /** Program rules that settle on refusing leave no resolution that allows. */
  lemma {:induction false} ProgramRefusalPrevails(ds: seq<Candidate>)
    requires Decided(ds) && VisitPrograms(ds).winner.Some? && Refuses(VisitPrograms(ds).winner.value)
    ensures Visit(ds).winner.Some? && Refuses(Visit(ds).winner.value)
  {
    if ds[0].status.No? {
      ProgramRefusalPrevails(ds[1..]);
    }
  }

  ghost predicate ResolutionsAgree(cs: seq<Candidate>) {
    forall ds, es | Resolves(cs, ds) && Resolves(cs, es) :: OutcomeOf(ds) == OutcomeOf(es)
  }

  /**
   * Abstention is exact but for one case. A lookup that abstains although every resolution
   * agrees does so exactly when the program rules alone settle on refusing (every resolution
   * then refuses); in every other abstention two resolutions disagree.
   * Resolutions decide each rule on its own; what a process can turn out to be may leave fewer of them.
   */
  lemma AbstentionIsExact(rules: seq<Rule>, c: Connection, p: Process, now: int, m: Match)
    requires LooksUp(rules, c, p, now, m) && m.Undecidable?
    ensures ResolutionsAgree(Candidates(rules, c, p, now))
            <==> Forbids(VisitPrograms(Candidates(rules, c, p, now)))
    ensures Forbids(VisitPrograms(Candidates(rules, c, p, now))) ==>
              forall ds | Resolves(Candidates(rules, c, p, now), ds) :: OutcomeOf(ds) == Refused
  {
    var cs := Candidates(rules, c, p, now);
    var w := Visit(cs);
    if Forbids(VisitPrograms(cs)) {
      forall ds | Resolves(cs, ds) ensures OutcomeOf(ds) == Refused {
        ProgramsRefine(cs, ds);
        ProgramRefusalPrevails(ds);
        DecidedWalk(ds);
      }
    } else {
      var none := NoneMatch(cs);
      NoneMatchWalk(cs);
      DecidedWalk(none);
      var other: seq<Candidate>;
      if w.winner.Some? && Refuses(w.winner.value) {
        other := PickAllow(cs);
      } else if w.winner.Some? {
        var r :| r in w.passed && Refuses(r);
        other := PickRule(cs, r);
      } else if !IsGenericAllow(w.passed[0]) {
        other := PickRule(cs, w.passed[0]);
      } else {
        assert w.passed[0] in w.passed && !Refuses(w.passed[0]);
        other := PickAllow(cs);
      }
      DecidedWalk(other);
      assert OutcomeOf(none) != OutcomeOf(other);
    }
  }

  /** A legacy hostname Allow on port 443 above a program Deny, and a process known to be that program. */
  const HOST_ALLOW: Rule :=
    Rule(1, "", true, Allow, Always,
         RuleScope(None, None, None, None, None, Some("h"), None, Some(443), None, None, None), 0, 0)
  const PROGRAM_DENY: Rule :=
    Rule(2, "", true, Deny, Always,
         RuleScope(None, Some("/x"), None, None, None, None, None, None, None, None, None), 0, 0)

  /** The exception is real: this lookup abstains although every resolution refuses. */
  lemma AbstentionCanBeNeedless()
    ensures var rules, p := [HOST_ALLOW, PROGRAM_DENY], Process("/x", Some(0), Some(""));
            var c := Connection(Tcp, Outbound, V4([0, 0, 0, 0]), 0, V4([0, 0, 0, 0]), 443);
            && Sorted(rules) && UniqueIds(rules) && FullyKnown(p)
            && LooksUp(rules, c, p, 0, Undecidable(HOST_ALLOW))
            && ResolutionsAgree(Candidates(rules, c, p, 0))
  {
    var rules, p := [HOST_ALLOW, PROGRAM_DENY], Process("/x", Some(0), Some(""));
    var c := Connection(Tcp, Outbound, V4([0, 0, 0, 0]), 0, V4([0, 0, 0, 0]), 443);
    var cs := Candidates(rules, c, p, 0);
    assert cs == [Candidate(HOST_ALLOW, Maybe), Candidate(PROGRAM_DENY, Yes)];
    assert cs[1..] == [Candidate(PROGRAM_DENY, Yes)];
    assert Visit(cs[1..]) == VisitPrograms(cs[1..]) == Walk(Some(PROGRAM_DENY), []);
    assert Visit(cs) == Walk(Some(PROGRAM_DENY), [HOST_ALLOW]);
    assert HOST_ALLOW in Visit(cs).passed && IsReported([HOST_ALLOW], [HOST_ALLOW][0]);
    AbstentionIsExact(rules, c, p, 0, Undecidable(HOST_ALLOW));
  }

  // ---- Fully known processes -----------------------------------------------------

  ghost predicate IsMatch(rules: seq<Rule>, c: Connection, p: Process, now: int, i: int) {
    0 <= i < |rules| && StatusOf(rules[i], c, p, now).Yes?
  }

  ghost predicate IsProgramMatch(rules: seq<Rule>, c: Connection, p: Process, now: int, i: int) {
    IsMatch(rules, c, p, now, i) && NamesProgram(rules[i].scope)
  }

  lemma {:induction false} FirstOfMatching(cs: seq<Candidate>) returns (k: int)
    ensures 0 <= k <= |cs|
    ensures Matching(cs) == [] ==> k == |cs| && forall i | 0 <= i < k :: !cs[i].status.Yes?
    ensures Matching(cs) != [] ==>
              && 0 <= k < |cs| && cs[k].status.Yes? && (forall i | 0 <= i < k :: !cs[i].status.Yes?)
              && Matching(cs) == [cs[k].rule] + Matching(cs[k + 1..])
  {
    if cs == [] || cs[0].status.Yes? {
      k := 0;
    } else {
      var rest := FirstOfMatching(cs[1..]);
      k := rest + 1;
      if rest < |cs| - 1 {
        assert cs[1..][rest + 1..] == cs[k + 1..];
      }
      assert forall i | 0 < i < k :: cs[i] == cs[1..][i - 1];
    }
  }

  lemma {:induction false} FirstProgramAt(cs: seq<Candidate>) returns (k: int)
    ensures 0 <= k <= |cs|
    ensures FirstProgram(Matching(cs)).None? ==>
              k == |cs| && forall i | 0 <= i < k :: cs[i].status.Yes? ==> !NamesProgram(cs[i].rule.scope)
    ensures FirstProgram(Matching(cs)).Some? ==>
              && 0 <= k < |cs| && cs[k].status.Yes? && FirstProgram(Matching(cs)) == Some(cs[k].rule)
              && NamesProgram(cs[k].rule.scope)
              && forall i | 0 <= i < k :: cs[i].status.Yes? ==> !NamesProgram(cs[i].rule.scope)
  {
    if cs == [] {
      k := 0;
    } else if cs[0].status.Yes? && NamesProgram(cs[0].rule.scope) {
      k := 0;
      assert Matching(cs)[0] == cs[0].rule;
    } else {
      if cs[0].status.Yes? {
        assert Matching(cs)[1..] == Matching(cs[1..]);
      }
      var rest := FirstProgramAt(cs[1..]);
      k := rest + 1;
      assert forall i | 0 < i < k :: cs[i] == cs[1..][i - 1];
    }
  }

  /** `k` is the index the precedence contract selects. */
  ghost predicate WinsAt(rules: seq<Rule>, c: Connection, p: Process, now: int, k: int) {
    && IsMatch(rules, c, p, now, k)
    && if IsGenericAllow(rules[k]) then
         // the highest-ranked match, and no match anywhere names a program
         forall i :: (IsMatch(rules, c, p, now, i) ==> k <= i) && !IsProgramMatch(rules, c, p, now, i)
       else if NamesProgram(rules[k].scope) then
         // the highest-ranked program match, beaten by no generic refusal ahead of it
         (forall i :: IsProgramMatch(rules, c, p, now, i) ==> k <= i)
         && (forall i :: IsMatch(rules, c, p, now, i) && i < k ==>
               exists g :: IsMatch(rules, c, p, now, g) && g <= i && IsGenericAllow(rules[g]))
       else
         // a generic refusal answers only as the highest-ranked match of all
         forall i :: IsMatch(rules, c, p, now, i) ==> k <= i
  }

  /**
   * A fully known process with no hostname rules gets a definite answer: a generic Allow only
   * if no matching rule names a program, a program rule only if it is the highest-ranked one
   * that matches. So a matching program refusal is never overridden by a generic Allow.
   */
  lemma WinnerOfKnownProcess(rules: seq<Rule>, c: Connection, p: Process, now: int, m: Match)
    requires LooksUp(rules, c, p, now, m) && FullyKnown(p)
    requires forall r | r in rules :: r.scope.dstHost.None?
    ensures !m.Undecidable?
    ensures m.NoMatch? <==> forall i :: !IsMatch(rules, c, p, now, i)
    ensures m.Answer? ==> exists k :: WinsAt(rules, c, p, now, k) && rules[k] == m.rule
  {
    var cs := Candidates(rules, c, p, now);
    assert Decided(cs);
    DecidedWalk(cs);
    var f := FirstOfMatching(cs);
    var g := FirstProgramAt(cs);
    if Matching(cs) == [] {
      forall i ensures !IsMatch(rules, c, p, now, i) {
        assert 0 <= i < |rules| ==> !cs[i].status.Yes?;
      }
    } else {
      assert IsMatch(rules, c, p, now, f);
      assert Matching(cs)[0] == rules[f] && Matching(cs)[1..] == Matching(cs[f + 1..]);
      forall i | IsMatch(rules, c, p, now, i) ensures f <= i {
        assert cs[i].status.Yes?;
      }
      forall i | IsProgramMatch(rules, c, p, now, i) ensures g <= i {
        assert cs[i].status.Yes?;
      }
      if IsGenericAllow(rules[f]) && FirstProgram(Matching(cs)[1..]).Some? {
        assert WinsAt(rules, c, p, now, g);
      } else {
        assert WinsAt(rules, c, p, now, f);
      }
    }
  }

  // ---- Why precedence is not a sort key --------------------------------------------

  /** `a` answers when it and `b` are the only rules and both match. */
  predicate Beats(a: Rule, b: Rule) {
    Precedence(SortDeterministic([a, b])) == Some(a)
  }

  lemma SortOfTwo(a: Rule, b: Rule)
    ensures SortDeterministic([a, b]) == if Before(b, a) then [b, a] else [a, b]
  {
    assert [a, b][1..] == [b] && [b][1..] == [];
    assert SortDeterministic([b]) == Insert(b, []) == [b];
    if Before(b, a) {
      assert Insert(a, [b]) == [b] + Insert(a, []);
    }
  }

  lemma PrecedenceOfTwo(x: Rule, y: Rule)
    ensures Precedence([x, y]) == Some(if IsGenericAllow(x) && NamesProgram(y.scope) then y else x)
  {
    assert [x, y][1..] == [y] && [y][1..] == [];
    assert FirstProgram([y]) == (if NamesProgram(y.scope) then Some(y) else FirstProgram([]));
  }

  /** The documented contract between two rules that both match. */
  lemma PairwisePrecedence(a: Rule, b: Rule)
    requires a.id != b.id
    ensures Beats(a, b) <==>
              if Before(b, a) then IsGenericAllow(b) && NamesProgram(a.scope)
              else !(IsGenericAllow(a) && NamesProgram(b.scope))
  {
    SortOfTwo(a, b);
    PrecedenceOfTwo(a, b);
    PrecedenceOfTwo(b, a);
  }

  /** Any such four rules beat each other in a circle. */
  lemma PrecedenceCycle(a: Rule, b: Rule, c: Rule, d: Rule)
    requires a.id != b.id && b.id != c.id && c.id != d.id && d.id != a.id
    requires NamesProgram(a.scope) && !Refuses(a) && IsProgramRefusal(b)
    requires IsGenericAllow(c) && Refuses(d) && !NamesProgram(d.scope)
    requires Specificity(c.scope) > Specificity(d.scope) > Specificity(a.scope) > Specificity(b.scope)
    ensures Beats(a, b) && Beats(b, c) && Beats(c, d) && Beats(d, a)
  {
    PairwisePrecedence(a, b);
    PairwisePrecedence(b, c);
    PairwisePrecedence(c, d);
    PairwisePrecedence(d, a);
  }

  function Example(id: RuleId, action: Action, exe: Option<string>, dstPort: Option<u16>, srcPort: Option<u16>,
                   uid: Option<u32>, protocol: Option<Protocol>): Rule {
    Rule(id, "", true, action, Always,
         RuleScope(None, exe, None, None, uid, None, None, dstPort, None, srcPort, protocol), 0, 0)
  }

  /** Pairwise precedence is cyclic, so no ranking of rules expresses it. */
  lemma NoRankingExpressesPrecedence(rank: Rule -> int)
    ensures exists a, b :: Beats(a, b) && rank(a) <= rank(b)
  {
    var a := Example(1, Allow, Some("/x"), Some(443), None, None, None);
    var b := Example(2, Deny, Some("/x"), None, None, None, None);
    var c := Example(3, Allow, None, Some(443), Some(9), Some(0), Some(Tcp));
    var d := Example(4, Deny, None, Some(443), Some(9), Some(0), None);
    PrecedenceCycle(a, b, c, d);
    if rank(a) <= rank(b) {
    } else if rank(b) <= rank(c) {
    } else if rank(c) <= rank(d) {
    } else {
      assert rank(d) <= rank(a);
    }
  }
}
