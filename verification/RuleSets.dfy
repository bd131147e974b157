/** Precedence order and the three-valued lookup over a rule set. */
module RuleSets {
  import opened CoreTypes
  import opened Scopes

  // ---- Order -----------------------------------------------------------------

  /** Restrictive actions first on specificity ties. */
  function ActionRank(a: Action): nat {
    match a case Deny => 0 case Reject => 1 case Allow => 2
  }

  /** `a` sorts strictly ahead of `b`: specificity descending, severity, age, id. */
  predicate Before(a: Rule, b: Rule) {
    var sa, sb := Specificity(a.scope), Specificity(b.scope);
    var ra, rb := ActionRank(a.action), ActionRank(b.action);
    if sa != sb then sa > sb
    else if ra != rb then ra < rb
    else if a.createdAt != b.createdAt then a.createdAt < b.createdAt
    else a.id < b.id
  }

  ghost predicate Sorted(rules: seq<Rule>) {
    forall i, j | 0 <= i < j < |rules| :: !Before(rules[j], rules[i])
  }

  ghost predicate UniqueIds(rules: seq<Rule>) {
    forall i, j | 0 <= i < j < |rules| :: rules[i].id != rules[j].id
  }

  /** Stable insertion: `r` goes in front of everything it does not follow. */
  function Insert(r: Rule, rules: seq<Rule>): (s: seq<Rule>)
    ensures multiset(s) == multiset{r} + multiset(rules)
  {
    if rules == [] || !Before(rules[0], r) then [r] + rules
    else
      assert rules == [rules[0]] + rules[1..];
      [rules[0]] + Insert(r, rules[1..])
  }

  /** The stable sort by precedence key. */
  function SortDeterministic(rules: seq<Rule>): (s: seq<Rule>)
    ensures multiset(s) == multiset(rules)
  {
    if rules == [] then []
    else
      assert rules == [rules[0]] + rules[1..];
      Insert(rules[0], SortDeterministic(rules[1..]))
  }

  lemma BeforeIsStrictOrder(a: Rule, b: Rule, c: Rule)
    ensures !(Before(a, b) && Before(b, a))
    ensures !Before(b, a) && !Before(c, b) ==> !Before(c, a)
    ensures !Before(a, b) && !Before(b, a) ==> a.id == b.id
  {
  }

  lemma {:induction false} InsertKeepsSorted(r: Rule, rules: seq<Rule>)
    requires Sorted(rules)
    ensures Sorted(Insert(r, rules))
  {
    if rules != [] && Before(rules[0], r) {
      var tail := Insert(r, rules[1..]);
      InsertKeepsSorted(r, rules[1..]);
      forall j | 0 <= j < |tail| ensures !Before(tail[j], rules[0]) {
        assert tail[j] in multiset(tail);
        assert tail[j] == r || tail[j] in rules[1..];
        BeforeIsStrictOrder(rules[0], r, r);
      }
    } else if rules != [] {
      forall j | 0 <= j < |rules| ensures !Before(rules[j], r) {
        BeforeIsStrictOrder(r, rules[0], rules[j]);
      }
    }
  }

  /** Sorting yields precedence order and loses or invents no rule. */
  lemma {:induction false} SortSorts(rules: seq<Rule>)
    ensures Sorted(SortDeterministic(rules))
    ensures multiset(SortDeterministic(rules)) == multiset(rules)
    ensures UniqueIds(rules) ==> UniqueIds(SortDeterministic(rules))
  {
    if rules == [] {
    } else {
      SortSorts(rules[1..]);
      InsertKeepsSorted(rules[0], SortDeterministic(rules[1..]));
    }
    if UniqueIds(rules) {
      UniqueIdsIsAboutContents(rules, SortDeterministic(rules));
    }
  }

  lemma IdOccursOnce(rules: seq<Rule>, k: nat, r: Rule)
    requires UniqueIds(rules) && k < |rules| && rules[k].id == r.id && r in multiset(rules)
    ensures rules[k] == r && multiset(rules)[r] == 1
  {
    assert rules == rules[..k] + [rules[k]] + rules[k + 1..];
    assert rules[k] !in rules[..k] && rules[k] !in rules[k + 1..];
  }

  lemma RepeatsCount(rules: seq<Rule>, i: nat, j: nat)
    requires i < j < |rules| && rules[i] == rules[j]
    ensures multiset(rules)[rules[i]] >= 2
  {
    assert rules == rules[..i] + [rules[i]] + rules[i + 1..j] + [rules[j]] + rules[j + 1..];
  }

  /** Id uniqueness does not depend on the order of the rules. */
  lemma UniqueIdsIsAboutContents(a: seq<Rule>, b: seq<Rule>)
    requires UniqueIds(a) && multiset(a) == multiset(b)
    ensures UniqueIds(b)
  {
    forall i, j | 0 <= i < j < |b| ensures b[i].id != b[j].id {
      assert b[i] in multiset(a) && b[j] in multiset(a);
      var k :| 0 <= k < |a| && a[k] == b[i];
      IdOccursOnce(a, k, b[i]);
      if b[j].id == b[i].id {
        IdOccursOnce(a, k, b[j]);
        RepeatsCount(b, i, j);
      }
    }
  }

  // ---- Lookup ------------------------------------------------------------------

  /** What a lookup found. */
  datatype Match = Answer(rule: Rule) | Undecidable(rule: Rule) | NoMatch

  /** Whether one rule is about a flow: certainly not, possibly, or certainly. */
  datatype Status = No | Maybe | Yes

  function StatusOf(r: Rule, c: Connection, p: Process, now: int): Status {
    if !Live(r, now) || !MatchesKnownConnection(r.scope, c) then No
    else if UndecidableFor(r.scope, p) then Maybe
    else if !MatchesProcess(r.scope, p) then No
    else if r.scope.dstHost.Some? then Maybe
    else Yes
  }

  datatype Candidate = Candidate(rule: Rule, status: Status)

  function Candidates(rules: seq<Rule>, c: Connection, p: Process, now: int): (cs: seq<Candidate>)
    ensures |cs| == |rules|
  {
    seq(|rules|, i requires 0 <= i < |rules| => Candidate(rules[i], StatusOf(rules[i], c, p, now)))
  }

  /** The definite winner of a walk and the undecided rules passed on the way to it. */
  datatype Walk = Walk(winner: Option<Rule>, passed: seq<Rule>)

  /** The walk below a held generic Allow: only rules naming a program are looked at. */
  function VisitPrograms(cs: seq<Candidate>): Walk {
    if cs == [] then Walk(None, [])
    else
      var c := cs[0];
      if !NamesProgram(c.rule.scope) || c.status.No? then VisitPrograms(cs[1..])
      else if c.status.Maybe? then
        var w := VisitPrograms(cs[1..]);
        Walk(w.winner, [c.rule] + w.passed)
      else Walk(Some(c.rule), [])
  }

  function Visit(cs: seq<Candidate>): Walk {
    if cs == [] then Walk(None, [])
    else
      var c := cs[0];
      if c.status.No? then Visit(cs[1..])
      else if c.status.Maybe? then
        var w := Visit(cs[1..]);
        Walk(w.winner, [c.rule] + w.passed)
      else if IsGenericAllow(c.rule) then
        var w := VisitPrograms(cs[1..]);
        Walk(if w.winner.Some? then w.winner else Some(c.rule), w.passed)
      else Walk(Some(c.rule), [])
  }

  ghost predicate AnyAllow(passed: seq<Rule>) {
    exists r :: r in passed && !Refuses(r)
  }

  ghost predicate AnyRefusal(passed: seq<Rule>) {
    exists r :: r in passed && Refuses(r)
  }

  /** `r` is the undecided rule an abstention reports: the first hostname rule, else the first. */
  ghost predicate IsReported(passed: seq<Rule>, r: Rule) {
    exists i :: 0 <= i < |passed| && passed[i] == r
      && (if r.scope.dstHost.Some? then forall j | 0 <= j < i :: passed[j].scope.dstHost.None?
          else i == 0 && forall j | 0 <= j < |passed| :: passed[j].scope.dstHost.None?)
  }

  /** Every resolution of the passed rules keeps the winner's class. */
  ghost predicate Settled(winner: Rule, passed: seq<Rule>) {
    if Refuses(winner) then !AnyAllow(passed) else !AnyRefusal(passed)
  }

  /** `m` is what a lookup answers after walk `w`. */
  ghost predicate Settles(w: Walk, m: Match) {
    match w.winner
    case None => if w.passed == [] then m == NoMatch else m.Undecidable? && IsReported(w.passed, m.rule)
    case Some(r) =>
      if Settled(r, w.passed) then m == Answer(r) else m.Undecidable? && IsReported(w.passed, m.rule)
  }

  /** The specification of a lookup: the winner answers only if no passed rule can change its class. */
  ghost predicate LooksUp(rules: seq<Rule>, c: Connection, p: Process, now: int, m: Match) {
    Settles(Visit(Candidates(rules, c, p, now)), m)
  }

  lemma ReportedIsUnique(passed: seq<Rule>, a: Rule, b: Rule)
    requires IsReported(passed, a) && IsReported(passed, b)
    ensures a == b
  {
  }

  /** A lookup has exactly one answer. */
  lemma LookupIsFunctional(rules: seq<Rule>, c: Connection, p: Process, now: int, m: Match, n: Match)
    requires LooksUp(rules, c, p, now, m) && LooksUp(rules, c, p, now, n)
    ensures m == n
  {
    var w := Visit(Candidates(rules, c, p, now));
    if m.Undecidable? {
      ReportedIsUnique(w.passed, m.rule, n.rule);
    }
  }

  /** What the walk over the rules not yet visited contributes, given whether an Allow is held. */
  ghost predicate Continues(whole: Walk, rest: seq<Candidate>, held: Option<Rule>, passed: seq<Rule>) {
    if held.None? then
      var w := Visit(rest);
      whole == Walk(w.winner, passed + w.passed)
    else
      var w := VisitPrograms(rest);
      whole == Walk(if w.winner.Some? then w.winner else held, passed + w.passed)
  }

  /** One rule more of the walk. */
  lemma WalkStep(whole: Walk, rest: seq<Candidate>, held: Option<Rule>, passed: seq<Rule>)
    requires rest != [] && Continues(whole, rest, held, passed)
    ensures var c := rest[0];
            if c.status.No? || (held.Some? && !NamesProgram(c.rule.scope)) then
              Continues(whole, rest[1..], held, passed)
            else if c.status.Maybe? then Continues(whole, rest[1..], held, passed + [c.rule])
            else if held.None? && IsGenericAllow(c.rule) then Continues(whole, rest[1..], Some(c.rule), passed)
            else whole == Walk(Some(c.rule), passed)
  {
  }

  ghost predicate Remembers(passed: seq<Rule>, undecided: Option<Rule>, maybeAllow: bool, maybeClosed: bool) {
    && (undecided.None? <==> passed == [])
    && (undecided.Some? ==> IsReported(passed, undecided.value))
    && (maybeAllow <==> AnyAllow(passed))
    && (maybeClosed <==> AnyRefusal(passed))
  }

  lemma RememberOneMore(passed: seq<Rule>, undecided: Option<Rule>, maybeAllow: bool, maybeClosed: bool, r: Rule)
    requires Remembers(passed, undecided, maybeAllow, maybeClosed)
    ensures Remembers(passed + [r],
                      if undecided.None? || (undecided.value.scope.dstHost.None? && r.scope.dstHost.Some?)
                      then Some(r) else undecided,
                      maybeAllow || !Refuses(r), maybeClosed || Refuses(r))
  {
    var more := passed + [r];
    assert forall x :: x in more <==> x in passed || x == r;
    if undecided.None? || (undecided.value.scope.dstHost.None? && r.scope.dstHost.Some?) {
      assert more[|passed|] == r;
      assert IsReported(more, r);
    } else {
      var i :| 0 <= i < |passed| && passed[i] == undecided.value
        && (if undecided.value.scope.dstHost.Some? then forall j | 0 <= j < i :: passed[j].scope.dstHost.None?
            else i == 0 && forall j | 0 <= j < |passed| :: passed[j].scope.dstHost.None?);
      assert more[i] == undecided.value;
    }
  }

  /** Find the winning live rule for one flow of one process. */
  method Lookup(rules: seq<Rule>, c: Connection, p: Process, now: int) returns (m: Match)
    ensures LooksUp(rules, c, p, now, m)
  {
    var undecided: Option<Rule> := None;
    var maybeAllow, maybeClosed := false, false;
    var genericAllow: Option<Rule> := None;
    var winner: Option<Rule> := None;
    ghost var cs := Candidates(rules, c, p, now);
    ghost var whole := Visit(cs);
    ghost var passed: seq<Rule> := [];
    var i := 0;
    assert cs[0..] == cs;
    while i < |rules| && winner.None?
      invariant 0 <= i <= |rules|
      invariant winner.None? ==> Continues(whole, cs[i..], genericAllow, passed)
      invariant winner.Some? ==> whole == Walk(winner, passed)
      invariant Remembers(passed, undecided, maybeAllow, maybeClosed)
      decreases |rules| - i
    {
      var rule := rules[i];
      WalkStep(whole, cs[i..], genericAllow, passed);
      i := i + 1;
      if !Live(rule, now) {
        continue;
      }
      if genericAllow.Some? && !NamesProgram(rule.scope) {
        continue;
      }
      if !MatchesKnownConnection(rule.scope, c) {
        continue;
      }
      var missingProcess := UndecidableFor(rule.scope, p);
      if !missingProcess && !MatchesProcess(rule.scope, p) {
        continue;
      }
      if missingProcess || rule.scope.dstHost.Some? {
        RememberOneMore(passed, undecided, maybeAllow, maybeClosed, rule);
        if undecided.None? || (undecided.value.scope.dstHost.None? && rule.scope.dstHost.Some?) {
          undecided := Some(rule);
        }
        if rule.action == Allow {
          maybeAllow := true;
        } else {
          maybeClosed := true;
        }
        passed := passed + [rule];
        continue;
      }
      if genericAllow.None? && rule.action == Allow && !NamesProgram(rule.scope) {
        genericAllow := Some(rule);
        continue;
      }
      winner := Some(rule);
    }
    var answering := if winner.Some? then winner else genericAllow;
    assert whole == Walk(answering, passed);
    if answering.None? {
      return if undecided.Some? then Undecidable(undecided.value) else NoMatch;
    }
    var settled := if answering.value.action == Allow then !maybeClosed else !maybeAllow;
    if undecided.Some? && !settled {
      return Undecidable(undecided.value);
    }
    return Answer(answering.value);
  }
}
