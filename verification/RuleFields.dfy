/** What rules, ranks and lookups do, stated on the fields of rules, flows and processes alone. */
module RuleFields {
  import opened CoreTypes
  import opened Networks
  import opened Scopes
  import opened RuleSets

  // ---- Conditions on fields -----------------------------------------------------------

  /** Switched off, or `secs` seconds old by the millisecond clock. */
  predicate IsOff(r: Rule, now: int) {
    !r.enabled || (r.duration.Seconds? && r.createdAt / 1_000_000 + r.duration.secs * 1000 <= now)
  }

  ghost predicate LiesIn(net: Option<IpNet>, ip: IpAddr) {
    net.None? || (net.value.addr.V4? == ip.V4? && SameBits(net.value.addr.Octets(), ip.Octets(), net.value.prefix))
  }

  /** The flow half of a scope: outbound unless it says otherwise, and every field named agrees. */
  ghost predicate FlowFits(s: RuleScope, c: Connection) {
    && (s.direction == Some(c.direction) || (s.direction.None? && c.direction.Outbound?))
    && LiesIn(s.srcNet, c.srcIp) && LiesIn(s.dstNet, c.dstIp)
    && (s.srcPort == None || s.srcPort == Some(c.srcPort))
    && (s.dstPort == None || s.dstPort == Some(c.dstPort))
    && (s.protocol == None || s.protocol == Some(c.protocol) || (s.dstHost != None && s.protocol.value.Other?))
  }

  /** Every identity named is known and agrees. */
  predicate IdentityFits(s: RuleScope, p: Process) {
    && (s.exePath == None || (p.exe != "<unknown>" && s.exePath == Some(p.exe)))
    && (s.exeSha256 == None || s.exeSha256 == p.sha256)
    && (s.uid == None || s.uid == p.uid)
  }

  /** No identity named is known to differ, and one is not known. */
  predicate IdentityOpen(s: RuleScope, p: Process) {
    && (s.exePath == None || p.exe == "<unknown>" || s.exePath == Some(p.exe))
    && (s.exeSha256 == None || p.sha256 == None || s.exeSha256 == p.sha256)
    && (s.uid == None || p.uid == None || s.uid == p.uid)
    && ((s.exePath != None && p.exe == "<unknown>") || (s.exeSha256 != None && p.sha256 == None)
        || (s.uid != None && p.uid == None))
  }

  predicate NamesNone(s: RuleScope) {
    s.exePath == None && s.exeSha256 == None
  }

  /** An Allow that names neither an executable nor a digest. */
  predicate IsOpenAllow(r: Rule) {
    r.action == Allow && NamesNone(r.scope)
  }

  lemma FieldsDecide(r: Rule, c: Connection, p: Process, now: int)
    ensures Live(r, now) <==> !IsOff(r, now)
    ensures IsExpired(r, now) <==> r.duration.Seconds? && r.createdAt / 1_000_000 + r.duration.secs * 1000 <= now
    ensures MatchesKnownConnection(r.scope, c) <==> FlowFits(r.scope, c)
    ensures MatchesProcess(r.scope, p) <==> IdentityFits(r.scope, p)
    ensures UndecidableFor(r.scope, p) <==> IdentityOpen(r.scope, p)
    ensures IsGenericAllow(r) <==> IsOpenAllow(r)
    ensures NamesProgram(r.scope) <==> !NamesNone(r.scope)
  {
    hide SameBits;
    if r.scope.srcNet.Some? {
      NetContainsBits(r.scope.srcNet.value, c.srcIp);
    }
    if r.scope.dstNet.Some? {
      NetContainsBits(r.scope.dstNet.value, c.dstIp);
    }
  }

  // ---- Ranks --------------------------------------------------------------------------------

  /** A scope naming nothing has rank zero, and a direction adds none. */
  lemma DirectionAddsNothing(s: RuleScope, d: Option<Direction>)
    ensures Specificity(RuleScope(d, None, None, None, None, None, None, None, None, None, None)) == 0
    ensures Specificity(s.(direction := d)) == Specificity(s)
  {
  }

  /** Each identity a scope gains adds one to its rank. */
  lemma EachIdentityAddsOne(s: RuleScope, text: string, id: u32)
    ensures s.exePath.None? ==> Specificity(s.(exePath := Some(text))) == Specificity(s) + 1
    ensures s.exeSha256.None? ==> Specificity(s.(exeSha256 := Some(text))) == Specificity(s) + 1
    ensures s.parentExe.None? ==> Specificity(s.(parentExe := Some(text))) == Specificity(s) + 1
    ensures s.uid.None? ==> Specificity(s.(uid := Some(id))) == Specificity(s) + 1
  {
  }

  /** So does each port, protocol or hostname. */
  lemma EachFlowFieldAddsOne(s: RuleScope, host: string, port: u16, protocol: Protocol)
    ensures s.dstHost.None? ==> Specificity(s.(dstHost := Some(host))) == Specificity(s) + 1
    ensures s.dstPort.None? ==> Specificity(s.(dstPort := Some(port))) == Specificity(s) + 1
    ensures s.srcPort.None? ==> Specificity(s.(srcPort := Some(port))) == Specificity(s) + 1
    ensures s.protocol.None? ==> Specificity(s.(protocol := Some(protocol))) == Specificity(s) + 1
  {
  }

  /** And so does each network, unless its prefix is empty. */
  lemma EachNetworkAddsOne(s: RuleScope, net: IpNet)
    ensures s.dstNet.None? ==> Specificity(s.(dstNet := Some(net))) == Specificity(s) + if net.prefix == 0 then 0 else 1
    ensures s.srcNet.None? ==> Specificity(s.(srcNet := Some(net))) == Specificity(s) + if net.prefix == 0 then 0 else 1
  {
  }

  /** Denies before rejects before allows. */
  predicate Stricter(a: Action, b: Action) {
    (a == Deny && b != Deny) || (a == Reject && b == Allow)
  }

  /** Which of two rules sorts first, whichever was first: the higher rank, the stricter, the older, the smaller id. */
  lemma TwoRulesSort(a: Rule, b: Rule)
    requires a.id != b.id
    ensures SortDeterministic([a, b]) == [a, b] || SortDeterministic([a, b]) == [b, a]
    ensures SortDeterministic([a, b]) == SortDeterministic([b, a])
    ensures SortDeterministic([a, b]) == [a, b] <==>
              || Specificity(a.scope) > Specificity(b.scope)
              || (Specificity(a.scope) == Specificity(b.scope)
                  && (|| Stricter(a.action, b.action)
                      || (a.action == b.action
                          && (a.createdAt < b.createdAt || (a.createdAt == b.createdAt && a.id < b.id)))))
  {
    hide Specificity;
    PairSorts(a, b);
    PairSorts(b, a);
    assert [a, b][0] == a && [b, a][0] == b;
  }

  lemma PairSorts(a: Rule, b: Rule)
    ensures SortDeterministic([a, b]) == if Before(b, a) then [b, a] else [a, b]
  {
    hide Before;
    assert [a, b][1..] == [b] && [b][1..] == [];
    assert SortDeterministic([b]) == Insert(b, []) == [b];
    if Before(b, a) {
      assert Insert(a, [b]) == [b] + Insert(a, []);
    }
  }

  // ---- Lookups ----------------------------------------------------------------------------

  lemma {:induction false} VisitSkips(cs: seq<Candidate>, k: nat)
    requires k < |cs| && cs[k].status.No?
    ensures Visit(cs[..k] + cs[k + 1..]) == Visit(cs)
    ensures VisitPrograms(cs[..k] + cs[k + 1..]) == VisitPrograms(cs)
  {
    var less := cs[..k] + cs[k + 1..];
    if k == 0 {
      assert less == cs[1..];
    } else {
      VisitSkips(cs[1..], k - 1);
      assert less[0] == cs[0];
      assert less[1..] == cs[1..][..k - 1] + cs[1..][k..];
    }
  }

  /**
   * A rule that is off, or whose flow half or identity does not fit, can be dropped from the set
   * without changing what a lookup answers.
   */
  lemma LookupIgnores(rules: seq<Rule>, k: nat, c: Connection, p: Process, now: int, m: Match)
    requires k < |rules|
    requires || IsOff(rules[k], now) || !FlowFits(rules[k].scope, c)
             || (!IdentityFits(rules[k].scope, p) && !IdentityOpen(rules[k].scope, p))
    ensures LooksUp(rules[..k] + rules[k + 1..], c, p, now, m) <==> LooksUp(rules, c, p, now, m)
  {
    hide Settles, Visit, IsOff, FlowFits, IdentityFits, IdentityOpen, Live, MatchesKnownConnection, UndecidableFor,
         MatchesProcess;
    FieldsDecide(rules[k], c, p, now);
    var cs := Candidates(rules, c, p, now);
    VisitSkips(cs, k);
    assert Candidates(rules[..k] + rules[k + 1..], c, p, now) == cs[..k] + cs[k + 1..];
  }

  lemma {:induction false} VisitsCandidates(cs: seq<Candidate>, r: Rule)
    ensures r in Visit(cs).passed || r in VisitPrograms(cs).passed ==> Candidate(r, Maybe) in cs
    ensures Visit(cs).winner == Some(r) || VisitPrograms(cs).winner == Some(r) ==> Candidate(r, Yes) in cs
  {
    if cs == [] {
    } else {
      VisitsCandidates(cs[1..], r);
      assert cs[0] in cs;
      assert forall x | x in cs[1..] :: x in cs;
    }
  }

  /** Whatever a lookup answers is a rule of the set that is on and about this flow and process. */
  lemma AnswersAreAboutTheFlow(rules: seq<Rule>, c: Connection, p: Process, now: int, m: Match)
    requires LooksUp(rules, c, p, now, m) && !m.NoMatch?
    ensures m.rule in rules && !IsOff(m.rule, now) && FlowFits(m.rule.scope, c)
    ensures m.Answer? ==> IdentityFits(m.rule.scope, p) && m.rule.scope.dstHost == None
    ensures m.Undecidable? ==>
              IdentityOpen(m.rule.scope, p) || (IdentityFits(m.rule.scope, p) && m.rule.scope.dstHost != None)
  {
    hide Visit, IsOff, FlowFits, IdentityFits, IdentityOpen, Live, MatchesKnownConnection, UndecidableFor,
         MatchesProcess;
    VisitsCandidates(Candidates(rules, c, p, now), m.rule);
    var status := if m.Answer? then Yes else Maybe;
    assert Candidate(m.rule, status) in Candidates(rules, c, p, now);
    FieldsDecide(m.rule, c, p, now);
  }

  lemma {:induction false} EmptyVisit(cs: seq<Candidate>)
    ensures Visit(cs) == Walk(None, []) <==> forall i | 0 <= i < |cs| :: cs[i].status.No?
  {
    if cs == [] {
    } else {
      EmptyVisit(cs[1..]);
      assert forall i {:trigger cs[i]} | 1 <= i < |cs| :: cs[i] == cs[1..][i - 1];
      assert forall i {:trigger cs[1..][i]} | 0 <= i < |cs| - 1 :: cs[1..][i] == cs[i + 1];
    }
  }

  /** A lookup finds nothing exactly when no rule is on, about the flow, and fits the process or may still fit it. */
  lemma SilenceIsExact(rules: seq<Rule>, c: Connection, p: Process, now: int)
    ensures LooksUp(rules, c, p, now, NoMatch) <==>
              forall i | 0 <= i < |rules| ::
                || IsOff(rules[i], now) || !FlowFits(rules[i].scope, c)
                || (!IdentityFits(rules[i].scope, p) && !IdentityOpen(rules[i].scope, p))
  {
    hide IsOff, FlowFits, IdentityFits, IdentityOpen, Live, MatchesKnownConnection, UndecidableFor, MatchesProcess,
         Visit;
    var cs := Candidates(rules, c, p, now);
    EmptyVisit(cs);
    forall i | 0 <= i < |rules|
      ensures cs[i].status.No? <==>
                || IsOff(rules[i], now) || !FlowFits(rules[i].scope, c)
                || (!IdentityFits(rules[i].scope, p) && !IdentityOpen(rules[i].scope, p))
    {
      FieldsDecide(rules[i], c, p, now);
    }
  }

  /** With a single rule the lookup is decided by its fields. */
  lemma OneRuleDecides(r: Rule, c: Connection, p: Process, now: int, m: Match)
    requires LooksUp([r], c, p, now, m)
    ensures var about := !IsOff(r, now) && FlowFits(r.scope, c);
            && (m == Answer(r) <==> about && IdentityFits(r.scope, p) && r.scope.dstHost == None)
            && (m == Undecidable(r) <==>
                about && (IdentityOpen(r.scope, p) || (IdentityFits(r.scope, p) && r.scope.dstHost != None)))
            && (m != Answer(r) && m != Undecidable(r) ==> m == NoMatch)
  {
    hide IsOff, FlowFits, IdentityFits, IdentityOpen, Live, MatchesKnownConnection, UndecidableFor, MatchesProcess;
    FieldsDecide(r, c, p, now);
    FitIsNotOpen(r.scope, p);
    OneVisit(Candidate(r, StatusOf(r, c, p, now)));
    assert Candidates([r], c, p, now) == [Candidate(r, StatusOf(r, c, p, now))];
    assert [r] != [] && [r][0] == r;
  }

  lemma FitIsNotOpen(s: RuleScope, p: Process)
    ensures !(IdentityFits(s, p) && IdentityOpen(s, p))
  {
  }

  lemma OneVisit(c: Candidate)
    ensures Visit([c]) == if c.status.No? then Walk(None, []) else if c.status.Maybe? then Walk(None, [c.rule])
                          else Walk(Some(c.rule), [])
    ensures VisitPrograms([c]) == if c.status.No? || NamesNone(c.rule.scope) then Walk(None, [])
                                  else if c.status.Maybe? then Walk(None, [c.rule]) else Walk(Some(c.rule), [])
  {
    assert [c][1..] == [];
    assert Visit([]) == VisitPrograms([]) == Walk(None, []);
  }

  /** The rule is on, about the flow, and fits the process without any hostname to settle. */
  ghost predicate Certain(r: Rule, c: Connection, p: Process, now: int) {
    !IsOff(r, now) && FlowFits(r.scope, c) && IdentityFits(r.scope, p) && r.scope.dstHost == None
  }

  /** Of two certain rules the first answers, unless it is an Allow naming no program and the second names one. */
  lemma TwoRulesDecide(a: Rule, b: Rule, c: Connection, p: Process, now: int, m: Match)
    requires Certain(a, c, p, now) && Certain(b, c, p, now) && LooksUp([a, b], c, p, now, m)
    ensures m == Answer(if a.action == Allow && NamesNone(a.scope) && !NamesNone(b.scope) then b else a)
  {
    hide IsOff, FlowFits, IdentityFits, IdentityOpen, Live, MatchesKnownConnection, UndecidableFor, MatchesProcess;
    FieldsDecide(a, c, p, now);
    FieldsDecide(b, c, p, now);
    FitIsNotOpen(a.scope, p);
    FitIsNotOpen(b.scope, p);
    var cs := Candidates([a, b], c, p, now);
    assert cs == [Candidate(a, Yes), Candidate(b, Yes)];
    assert cs[1..] == [Candidate(b, Yes)];
    OneVisit(Candidate(b, Yes));
    assert [a] + [] == [a];
  }

  // ---- Before any destination exists ------------------------------------------------------

  /** On, and able to apply to a flow this machine opens. */
  predicate CanApply(r: Rule, now: int) {
    !IsOff(r, now) && r.scope.direction != Some(Inbound)
  }

  predicate NamesNoFlow(s: RuleScope) {
    && s.direction != Some(Inbound) && s.dstHost == None && s.dstNet == None && s.dstPort == None
    && s.protocol == None && s.srcNet == None && s.srcPort == None
  }

  /** A rule on the way that settles nothing by itself. */
  predicate IsPassed(r: Rule, p: Process, now: int) {
    CanApply(r, now) ==> !IdentityOpen(r.scope, p) && (IdentityFits(r.scope, p) ==> IsOpenAllow(r))
  }

  /**
   * Rule `k` decides for the process whatever its flows turn out to be: every rule before it is
   * passed, and once one of those fitted (or `fitted` says one already had), only a refusal that
   * names a program can still decide.
   */
  ghost predicate Precommits(rules: seq<Rule>, p: Process, now: int, fitted: bool, k: int) {
    && 0 <= k < |rules|
    && CanApply(rules[k], now) && IdentityFits(rules[k].scope, p) && NamesNoFlow(rules[k].scope)
    && !IsOpenAllow(rules[k])
    && (forall j | 0 <= j < k :: IsPassed(rules[j], p, now))
    && (fitted || (exists j | 0 <= j < k :: CanApply(rules[j], now) && IdentityFits(rules[j].scope, p)) ==>
          rules[k].action != Allow && !NamesNone(rules[k].scope))
  }
}
