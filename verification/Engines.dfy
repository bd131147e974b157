/** The decision engine: the sorted rules, the unflushed hit deltas, and the verdicts they give. */
module Engines {
  import opened CoreTypes
  import opened Scopes
  import opened RuleSets
  import opened RuleFields

  // ---- Rules as a map ------------------------------------------------------------

  type RuleMap = map<RuleId, Rule>

  /** The rules an engine holds, without their order. */
  ghost function ById(rules: seq<Rule>): RuleMap
    requires UniqueIds(rules)
  {
    map r | r in rules :: r.id := r
  }

  /** A list and a map hold the same rules. */
  lemma ByIdIs(rules: seq<Rule>, m: RuleMap)
    requires UniqueIds(rules)
    requires forall i | 0 <= i < |rules| :: rules[i].id in m && m[rules[i].id] == rules[i]
    requires forall id | id in m :: exists i :: 0 <= i < |rules| && rules[i].id == id
    ensures ById(rules) == m
  {
    forall id | id in m ensures id in ById(rules) && ById(rules)[id] == m[id] {
      var i :| 0 <= i < |rules| && rules[i].id == id;
      assert rules[i] in rules;
    }
  }

  /** Lists that agree on ids position by position. */
  lemma SameIds(a: seq<Rule>, b: seq<Rule>)
    requires UniqueIds(a) && |a| == |b| && forall i | 0 <= i < |a| :: a[i].id == b[i].id
    ensures UniqueIds(b)
    ensures forall id | id in ById(a) :: exists i :: 0 <= i < |b| && b[i].id == id
  {
    forall id | id in ById(a) ensures exists i :: 0 <= i < |b| && b[i].id == id {
      var i :| 0 <= i < |a| && a[i].id == id;
      assert b[i].id == id;
    }
  }

  lemma ByIdHolds(rules: seq<Rule>, i: int)
    requires UniqueIds(rules) && 0 <= i < |rules|
    ensures rules[i].id in ById(rules) && ById(rules)[rules[i].id] == rules[i]
  {
    assert rules[i] in rules;
  }

  lemma ByIdIsAboutContents(a: seq<Rule>, b: seq<Rule>)
    requires UniqueIds(a) && multiset(a) == multiset(b)
    ensures UniqueIds(b) && ById(a) == ById(b)
  {
    UniqueIdsIsAboutContents(a, b);
    forall r ensures r in a <==> r in b {
      assert r in multiset(a) <==> r in multiset(b);
    }
  }

  function WithCount(r: Rule, n: u64): Rule {
    r.(hitCount := n)
  }

  type Deltas = map<RuleId, u64>

  /** A rule as callers see it: the base count plus the delta not yet flushed. */
  function WithDelta(r: Rule, deltas: Deltas): Rule {
    if r.id in deltas then WithCount(r, SaturatingAdd(r.hitCount, deltas[r.id])) else r
  }

  function WithDeltas(rules: RuleMap, deltas: Deltas): RuleMap {
    map id | id in rules ::
      if id in deltas then WithCount(rules[id], SaturatingAdd(rules[id].hitCount, deltas[id])) else rules[id]
  }

  /** `incoming` with the fields the daemon owns taken from the rule already held. */
  function Restored(current: RuleMap, incoming: Rule): Rule {
    if incoming.id in current
    then incoming.(hitCount := current[incoming.id].hitCount, createdAt := current[incoming.id].createdAt)
    else incoming
  }

  function ReplacedBy(current: RuleMap, incoming: RuleMap): RuleMap {
    map id | id in incoming :: Restored(current, incoming[id])
  }

  function Unexpired(rules: RuleMap, now: int): RuleMap {
    map id | id in rules && !IsExpired(rules[id], now) :: rules[id]
  }

  /** Counting one match: a 64-bit counter, so it wraps. */
  function Counted(hits: Deltas, id: RuleId): Deltas {
    hits[id := ((if id in hits then hits[id] else 0) + 1) % U64_LIMIT]
  }

  function Retained(hits: Deltas, ids: set<RuleId>): Deltas {
    map id | id in hits && id in ids :: hits[id]
  }

  lemma KeysOf(rules: seq<Rule>)
    requires UniqueIds(rules)
    ensures ById(rules).Keys == set r | r in rules :: r.id
  {
  }

  // ---- Decisions ------------------------------------------------------------------

  datatype Decision = Resolved(verdict: Verdict) | NeedsPrompt(fallback: Verdict, undecided: Option<RuleId>)

  /** What the packet path makes of a lookup. */
  function DecisionFor(m: Match, policy: Policy): Decision {
    match m
    case Answer(r) => Resolved(Verdict(r.action, FromRule(r.id)))
    case Undecidable(r) =>
      if r.scope.dstHost.Some? then Resolved(Verdict(Deny, DefaultPolicy))
      else NeedsPrompt(Verdict(policy.noUiAction, DefaultPolicy), Some(r.id))
    case NoMatch => NeedsPrompt(Verdict(policy.noUiAction, DefaultPolicy), None)
  }

  ghost predicate Decides(rules: seq<Rule>, policy: Policy, c: Connection, p: Process, now: int, d: Decision) {
    exists m :: LooksUp(rules, c, p, now, m) && d == DecisionFor(m, policy)
  }

  /**
   * What a decision says of the rules: a verdict in a rule's name is the action of that rule, which is
   * on and about the flow and process; any other verdict is a refusal by policy over a hostname rule;
   * a prompt names the rule whose identity is open, if any rule is on and about the flow.
   */
  lemma DecisionsOnFields(rules: seq<Rule>, policy: Policy, c: Connection, p: Process, now: int, m: Match, d: Decision)
    requires Decides(rules, policy, c, p, now, d) && LooksUp(rules, c, p, now, m)
    ensures m.Answer? ==>
              && m.rule in rules && !IsOff(m.rule, now) && FlowFits(m.rule.scope, c) && IdentityFits(m.rule.scope, p)
              && d == Resolved(Verdict(m.rule.action, FromRule(m.rule.id)))
    ensures m.Undecidable? && m.rule.scope.dstHost != None ==>
              && m.rule in rules && !IsOff(m.rule, now) && FlowFits(m.rule.scope, c)
              && d == Resolved(Verdict(Deny, DefaultPolicy))
    ensures m.Undecidable? && m.rule.scope.dstHost == None ==>
              && m.rule in rules && !IsOff(m.rule, now) && FlowFits(m.rule.scope, c) && IdentityOpen(m.rule.scope, p)
              && d == NeedsPrompt(Verdict(policy.noUiAction, DefaultPolicy), Some(m.rule.id))
    ensures m.NoMatch? ==> d == NeedsPrompt(Verdict(policy.noUiAction, DefaultPolicy), None)
  {
    hide LooksUp, IsOff, FlowFits, IdentityFits, IdentityOpen;
    var n :| LooksUp(rules, c, p, now, n) && d == DecisionFor(n, policy);
    LookupIsFunctional(rules, c, p, now, m, n);
    if !m.NoMatch? {
      AnswersAreAboutTheFlow(rules, c, p, now, m);
    }
  }

  /** The rule that answers for a process before any destination exists. */
  function ProcessWideRule(rules: seq<Rule>, p: Process, now: int, sawGenericAllow: bool): Option<Rule> {
    if rules == [] then None
    else
      var r := rules[0];
      if !Live(r, now) || r.scope.direction == Some(Inbound) then ProcessWideRule(rules[1..], p, now, sawGenericAllow)
      else if UndecidableFor(r.scope, p) then None
      else if !MatchesProcess(r.scope, p) then ProcessWideRule(rules[1..], p, now, sawGenericAllow)
      else if IsGenericAllow(r) then ProcessWideRule(rules[1..], p, now, true)
      else if sawGenericAllow && !IsProgramRefusal(r) then None
      else if ConstrainsDestination(r.scope) then None
      else Some(r)
  }

  /** One step of the walk, on the fields of the rule it looks at. */
  lemma PrecommitsStep(rules: seq<Rule>, p: Process, now: int, fitted: bool, k: int)
    requires rules != [] && k >= 0
    ensures var r := rules[0];
            var fits := CanApply(r, now) && IdentityFits(r.scope, p);
            Precommits(rules, p, now, fitted, k + 1) <==>
              IsPassed(r, p, now) && Precommits(rules[1..], p, now, fitted || fits, k)
  {
    hide CanApply, IdentityFits, IsPassed, IsOpenAllow, NamesNoFlow, NamesNone;
    var rest := rules[1..];
    assert forall j {:trigger rules[j]} | 1 <= j < |rules| :: rules[j] == rest[j - 1];
    assert forall j {:trigger rest[j]} | 0 <= j < |rest| :: rest[j] == rules[j + 1];
  }

  lemma PrecommitsHere(rules: seq<Rule>, p: Process, now: int, fitted: bool)
    ensures Precommits(rules, p, now, fitted, 0) <==>
              && rules != []
              && CanApply(rules[0], now) && IdentityFits(rules[0].scope, p) && NamesNoFlow(rules[0].scope)
              && !IsOpenAllow(rules[0])
              && (fitted ==> rules[0].action != Allow && !NamesNone(rules[0].scope))
    ensures rules == [] ==> forall k :: !Precommits(rules, p, now, fitted, k)
  {
  }

  /** What the walk asks of a rule, on its fields. */
  lemma WalkOnFields(r: Rule, p: Process, now: int)
    ensures CanApply(r, now) <==> Live(r, now) && r.scope.direction != Some(Inbound)
    ensures IdentityFits(r.scope, p) <==> MatchesProcess(r.scope, p)
    ensures IdentityOpen(r.scope, p) <==> UndecidableFor(r.scope, p)
    ensures IsOpenAllow(r) <==> IsGenericAllow(r)
    ensures r.action != Allow && !NamesNone(r.scope) <==> IsProgramRefusal(r)
    ensures NamesNoFlow(r.scope) <==> !ConstrainsDestination(r.scope)
    ensures !(IdentityFits(r.scope, p) && IdentityOpen(r.scope, p))
  {
  }

  /** The process-wide walk finds a rule exactly when one precommits, and then that one. */
  lemma {:induction false} ProcessWideIsExact(rules: seq<Rule>, p: Process, now: int, fitted: bool)
    ensures var found := ProcessWideRule(rules, p, now, fitted);
            && (forall k | 0 <= k < |rules| && Precommits(rules, p, now, fitted, k) :: found == Some(rules[k]))
            && (found.Some? ==> exists k :: 0 <= k < |rules| && Precommits(rules, p, now, fitted, k))
  {
    hide Precommits, CanApply, MatchesProcess, UndecidableFor, Live, IsOpenAllow, IsGenericAllow, IsProgramRefusal,
         NamesNone, NamesNoFlow, ConstrainsDestination, IdentityFits, IdentityOpen;
    PrecommitsHere(rules, p, now, fitted);
    if rules != [] {
      var r, rest := rules[0], rules[1..];
      WalkOnFields(r, p, now);
      var nowFitted := fitted || (CanApply(r, now) && IdentityFits(r.scope, p));
      forall k | k >= 0 ensures Precommits(rules, p, now, fitted, k + 1) <==>
                              IsPassed(r, p, now) && Precommits(rest, p, now, nowFitted, k) {
        PrecommitsStep(rules, p, now, fitted, k);
      }
      ProcessWideIsExact(rest, p, now, nowFitted);
      var found := ProcessWideRule(rules, p, now, fitted);
      forall k | 0 <= k < |rules| && Precommits(rules, p, now, fitted, k) ensures found == Some(rules[k]) {
        if k > 0 {
          assert Precommits(rest, p, now, nowFitted, k - 1);
          assert rest[k - 1] == rules[k];
        }
      }
      if found.Some? && !Precommits(rules, p, now, fitted, 0) {
        assert IsPassed(r, p, now);
        var k :| 0 <= k < |rest| && Precommits(rest, p, now, nowFitted, k);
        assert Precommits(rules, p, now, fitted, k + 1);
      }
    }
  }

  /** The paths that may be compiled into the kernel table: no live user-scoped rule can be about them. */
  ghost predicate Compilable(rules: seq<Rule>, now: int, path: string) {
    && (exists r :: r in rules && Live(r, now) && r.scope.exePath == Some(path))
    && forall r :: r in rules && Live(r, now) && r.scope.uid.Some? ==>
         r.scope.exePath.Some? && r.scope.exePath != Some(path)
  }

  /** Restoring stored creation times swaps no two rules tied on specificity and severity. */
  ghost predicate RestoringKeepsOrder(current: RuleMap, incoming: seq<Rule>) {
    forall x, y | x in incoming && y in incoming && Tied(x, y) && Older(x, y) ::
      Older(Restored(current, x), Restored(current, y))
  }

  predicate Tied(x: Rule, y: Rule) {
    Specificity(x.scope) == Specificity(y.scope) && x.action == y.action
  }

  predicate Older(x: Rule, y: Rule) {
    x.createdAt < y.createdAt || (x.createdAt == y.createdAt && x.id < y.id)
  }

  /** What every caller of a batch replacement establishes first. */
  ghost predicate CarriesStoredTimes(current: RuleMap, incoming: seq<Rule>) {
    forall r | r in incoming && r.id in current :: r.createdAt == current[r.id].createdAt
  }

  // ---- The engine -------------------------------------------------------------------

  class Engine {
    var rules: seq<Rule>
    var hits: Deltas
    var policy: Policy

    ghost predicate Valid() reads this {
      UniqueIds(rules) && Sorted(rules)
    }

    constructor (initial: seq<Rule>, policy: Policy)
      requires UniqueIds(initial)
      ensures Valid() && ById(rules) == ById(initial) && hits == map[] && this.policy == policy
    {
      rules := SortDeterministic(initial);
      hits := map[];
      this.policy := policy;
      SortSorts(initial);
      ByIdIsAboutContents(initial, SortDeterministic(initial));
    }

    method CountHit(id: RuleId)
      modifies `hits
      ensures hits == Counted(old(hits), id)
    {
      var n := if id in hits then hits[id] else 0;
      hits := hits[id := (n + 1) % U64_LIMIT];
    }

    method Peek(c: Connection, p: Process, now: int) returns (d: Decision)
      ensures Decides(rules, policy, c, p, now, d)
    {
      var m := Lookup(rules, c, p, now);
      match m {
        case Answer(r) => d := Resolved(Verdict(r.action, FromRule(r.id)));
        case Undecidable(r) =>
          if r.scope.dstHost.Some? {
            d := Resolved(Verdict(Deny, DefaultPolicy));
          } else {
            d := NeedsPrompt(Verdict(policy.noUiAction, DefaultPolicy), Some(r.id));
          }
        case NoMatch => d := NeedsPrompt(Verdict(policy.noUiAction, DefaultPolicy), None);
      }
    }

    method Evaluate(c: Connection, p: Process, now: int) returns (d: Decision)
      modifies `hits
      ensures Decides(rules, policy, c, p, now, d)
      ensures hits == if d.Resolved? && d.verdict.source.FromRule? then Counted(old(hits), d.verdict.source.id)
                      else old(hits)
    {
      d := Peek(c, p, now);
      if d.Resolved? && d.verdict.source.FromRule? {
        CountHit(d.verdict.source.id);
      }
    }

    method ProcessWideAction(p: Process, now: int) returns (a: Option<Action>)
      ensures var r := ProcessWideRule(rules, p, now, false);
              a == if r.Some? then Some(r.value.action) else None
      ensures forall k | 0 <= k < |rules| && Precommits(rules, p, now, false, k) :: a == Some(rules[k].action)
      ensures a.Some? ==> exists k :: 0 <= k < |rules| && Precommits(rules, p, now, false, k)
    {
      ProcessWideIsExact(rules, p, now, false);
      var sawGenericAllow := false;
      var i := 0;
      assert rules[0..] == rules;
      while i < |rules|
        invariant 0 <= i <= |rules|
        invariant ProcessWideRule(rules, p, now, false) == ProcessWideRule(rules[i..], p, now, sawGenericAllow)
      {
        var rule := rules[i];
        assert rules[i..][0] == rule && rules[i..][1..] == rules[i + 1..];
        i := i + 1;
        if !Live(rule, now) || rule.scope.direction == Some(Inbound) {
          continue;
        }
        if UndecidableFor(rule.scope, p) {
          return None;
        }
        if !MatchesProcess(rule.scope, p) {
          continue;
        }
        if IsGenericAllow(rule) {
          sawGenericAllow := true;
          continue;
        }
        if sawGenericAllow && !IsProgramRefusal(rule) {
          return None;
        }
        return if ConstrainsDestination(rule.scope) then None else Some(rule.action);
      }
      return None;
    }

    method DeniesProcessWide(p: Process, now: int) returns (denies: bool)
      ensures denies <==> var r := ProcessWideRule(rules, p, now, false); r.Some? && Refuses(r.value)
      ensures denies <==>
                exists k :: 0 <= k < |rules| && Precommits(rules, p, now, false, k) && rules[k].action != Allow
    {
      ProcessWideIsExact(rules, p, now, false);
      var a := ProcessWideAction(p, now);
      denies := a == Some(Deny) || a == Some(Reject);
    }

    method CompilableExePaths(now: int) returns (paths: Option<set<string>>)
      ensures paths.Some? ==> forall path :: path in paths.value <==> Compilable(rules, now, path)
      ensures paths.None? ==> forall path :: !Compilable(rules, now, path)
    {
      var all, uidScoped: set<string> := {}, {};
      var i := 0;
      while i < |rules|
        invariant 0 <= i <= |rules|
        invariant forall path :: path in all <==>
                    exists r :: r in rules[..i] && Live(r, now) && r.scope.exePath == Some(path)
        invariant forall path :: path in uidScoped <==>
                    exists r :: r in rules[..i] && Live(r, now) && r.scope.uid.Some? && r.scope.exePath == Some(path)
        invariant forall r :: r in rules[..i] && Live(r, now) && r.scope.uid.Some? ==> r.scope.exePath.Some?
      {
        var rule := rules[i];
        assert rules[..i + 1] == rules[..i] + [rule];
        assert forall r :: r in rules[..i + 1] <==> r in rules[..i] || r == rule;
        i := i + 1;
        if !Live(rule, now) {
          continue;
        }
        if rule.scope.uid.Some? && rule.scope.exePath.None? {
          assert rule in rules;
          return None;
        }
        if rule.scope.exePath.Some? {
          all := all + {rule.scope.exePath.value};
          if rule.scope.uid.Some? {
            uidScoped := uidScoped + {rule.scope.exePath.value};
          }
        }
      }
      assert rules[..i] == rules;
      return Some(all - uidScoped);
    }

    /** A rule from outside, with count and creation time as the engine holds them. */
    method PreserveServerOwned(rule: Rule) returns (r: Rule)
      requires UniqueIds(rules)
      ensures r == Restored(ById(rules), rule)
    {
      var i := 0;
      while i < |rules|
        invariant 0 <= i <= |rules|
        invariant forall j | 0 <= j < i :: rules[j].id != rule.id
      {
        if rules[i].id == rule.id {
          assert rules[i] in rules;
          return rule.(hitCount := rules[i].hitCount, createdAt := rules[i].createdAt);
        }
        i := i + 1;
      }
      return rule;
    }

    method UpsertRule(rule: Rule)
      requires Valid()
      modifies `rules
      ensures Valid() && ById(rules) == old(ById(rules))[rule.id := rule]
    {
      ghost var before := rules;
      var i := 0;
      while i < |rules| && rules[i].id != rule.id
        invariant 0 <= i <= |rules|
        invariant forall j | 0 <= j < i :: rules[j].id != rule.id
      {
        i := i + 1;
      }
      if i < |rules| {
        rules := rules[i := rule];
      } else {
        rules := rules + [rule];
      }
      UpsertInPlace(before, rules, i, rule);
      SortSorts(rules);
      ByIdIsAboutContents(rules, SortDeterministic(rules));
      rules := SortDeterministic(rules);
    }

    method RemoveRule(id: RuleId)
      requires Valid()
      modifies `rules
      ensures Valid() && ById(rules) == old(ById(rules)) - {id}
    {
      ghost var m := ById(rules) - {id};
      KeptFacts(rules, (r: Rule) => r.id != id, m);
      rules := Kept(rules, (r: Rule) => r.id != id);
    }

    /** Drops the rules whose deadline has passed. */
    method NotifyRulesExpired(now: int)
      requires Valid()
      modifies `rules
      ensures Valid() && ById(rules) == Unexpired(old(ById(rules)), now)
    {
      ghost var m := Unexpired(ById(rules), now);
      KeptFacts(rules, (r: Rule) => !IsExpired(r, now), m);
      rules := Kept(rules, (r: Rule) => !IsExpired(r, now));
    }

    /**
     * Publishes a committed batch. The batch is sorted before the stored creation times are
     * put back, so it comes out in precedence order exactly when putting them back swaps no
     * two tied rules.
     */
    method ReplaceRules(incoming: seq<Rule>)
      requires UniqueIds(rules) && UniqueIds(incoming)
      modifies `rules, `hits
      ensures UniqueIds(rules) && ById(rules) == ReplacedBy(old(ById(rules)), ById(incoming))
      ensures Sorted(rules) <==> RestoringKeepsOrder(old(ById(rules)), incoming)
      ensures hits == Retained(old(hits), ById(rules).Keys)
    {
      hide SortDeterministic, Sorted, RestoringKeepsOrder, Restored, ReplacedBy, Retained;
      ghost var current := ById(rules);
      var replacement := RestoreBatch(SortDeterministic(incoming));
      Republished(current, incoming, replacement);
      hits := Retained(hits, set r | r in replacement :: r.id);
      rules := replacement;
      KeysOf(rules);
    }

    /** Overwrites the daemon's own fields of each rule that is already held. */
    method RestoreBatch(batch: seq<Rule>) returns (after: seq<Rule>)
      requires UniqueIds(rules)
      ensures |after| == |batch| && forall i | 0 <= i < |batch| :: after[i] == Restored(ById(rules), batch[i])
    {
      after := batch;
      var i := 0;
      while i < |after|
        invariant 0 <= i <= |after| == |batch|
        invariant forall j | 0 <= j < i :: after[j] == Restored(ById(rules), batch[j])
        invariant forall j | i <= j < |batch| :: after[j] == batch[j]
      {
        var rule := PreserveServerOwned(after[i]);
        after := after[i := rule];
        i := i + 1;
      }
    }

    method Snapshot() returns (rs: seq<Rule>)
      ensures |rs| == |rules| && forall i | 0 <= i < |rs| :: rs[i] == WithDelta(rules[i], hits)
      ensures UniqueIds(rules) ==> UniqueIds(rs) && ById(rs) == WithDeltas(ById(rules), hits)
    {
      rs := rules;
      var i := 0;
      while i < |rs|
        invariant 0 <= i <= |rs| == |rules|
        invariant forall j | 0 <= j < i :: rs[j] == WithDelta(rules[j], hits)
        invariant forall j | i <= j < |rs| :: rs[j] == rules[j]
      {
        if rs[i].id in hits {
          rs := rs[i := rs[i].(hitCount := SaturatingAdd(rs[i].hitCount, hits[rs[i].id]))];
        }
        i := i + 1;
      }
      if UniqueIds(rules) {
        WithDeltaFacts(rules, hits, rs);
      }
    }

    /** Hands the deltas to the flush and folds them into the rules. */
    method DrainHits() returns (deltas: Deltas)
      requires Valid()
      modifies `rules, `hits
      ensures deltas == old(hits) && hits == map[]
      ensures Valid() && ById(rules) == WithDeltas(old(ById(rules)), deltas)
    {
      deltas := hits;
      hits := map[];
      var i := 0;
      while i < |rules|
        invariant 0 <= i <= |rules| == |old(rules)|
        invariant forall j | 0 <= j < i :: rules[j] == WithDelta(old(rules[j]), deltas)
        invariant forall j | i <= j < |rules| :: rules[j] == old(rules[j])
        invariant hits == map[]
      {
        if rules[i].id in deltas {
          rules := rules[i := rules[i].(hitCount := SaturatingAdd(rules[i].hitCount, deltas[rules[i].id]))];
        }
        i := i + 1;
      }
      WithDeltaFacts(old(rules), deltas, rules);
      DeltasKeepOrder(old(rules), deltas, rules);
    }
  }

  // ---- Facts about the updates --------------------------------------------------------

  lemma UpsertInPlace(before: seq<Rule>, after: seq<Rule>, i: nat, rule: Rule)
    requires UniqueIds(before) && i <= |before|
    requires forall j | 0 <= j < i :: before[j].id != rule.id
    requires i < |before| ==> before[i].id == rule.id && after == before[i := rule]
    requires i == |before| ==> after == before + [rule]
    ensures UniqueIds(after) && ById(after) == ById(before)[rule.id := rule]
  {
    forall r ensures r in after <==> r == rule || (r in before && r.id != rule.id) {
      if r in before && r.id != rule.id {
        var j :| 0 <= j < |before| && before[j] == r;
        assert after[j] == r;
      }
      assert after[i] == rule;
    }
  }

  /** The rules that satisfy `keep`, in order. */
  function Kept(rules: seq<Rule>, keep: Rule -> bool): seq<Rule> {
    if rules == [] then []
    else if keep(rules[0]) then [rules[0]] + Kept(rules[1..], keep)
    else Kept(rules[1..], keep)
  }

  lemma {:induction false} KeptInOrder(rules: seq<Rule>, keep: Rule -> bool)
    requires UniqueIds(rules) && Sorted(rules)
    ensures UniqueIds(Kept(rules, keep)) && Sorted(Kept(rules, keep))
    ensures forall r :: r in Kept(rules, keep) <==> r in rules && keep(r)
  {
    if rules == [] {
    } else {
      KeptInOrder(rules[1..], keep);
      forall j | 0 <= j < |Kept(rules[1..], keep)|
        ensures Kept(rules[1..], keep)[j].id != rules[0].id && !Before(Kept(rules[1..], keep)[j], rules[0])
      {
        assert Kept(rules[1..], keep)[j] in rules[1..];
      }
    }
  }

  lemma KeptFacts(rules: seq<Rule>, keep: Rule -> bool, m: RuleMap)
    requires UniqueIds(rules) && Sorted(rules)
    requires forall r | r in rules :: (keep(r) <==> r.id in m) && (keep(r) ==> m[r.id] == r)
    requires forall id | id in m :: id in ById(rules)
    ensures UniqueIds(Kept(rules, keep)) && Sorted(Kept(rules, keep)) && ById(Kept(rules, keep)) == m
  {
    KeptInOrder(rules, keep);
    var kept := Kept(rules, keep);
    forall id | id in m ensures exists i :: 0 <= i < |kept| && kept[i].id == id {
      var r :| r in rules && r.id == id;
      assert r in kept;
    }
    forall i | 0 <= i < |kept| ensures kept[i].id in m && m[kept[i].id] == kept[i] {
      assert kept[i] in kept;
    }
    ByIdIs(kept, m);
  }

  /** The sort key of a rule leaves its hit count out. */
  lemma BeforeIgnoresCounts(x: Rule, y: Rule, m: u64, n: u64)
    ensures Before(WithCount(x, m), WithCount(y, n)) <==> Before(x, y)
  {
  }

  lemma DeltasKeepOrder(rules: seq<Rule>, deltas: Deltas, after: seq<Rule>)
    requires |after| == |rules| && forall i | 0 <= i < |rules| :: after[i] == WithDelta(rules[i], deltas)
    requires Sorted(rules)
    ensures Sorted(after)
  {
    forall i, j | 0 <= i < j < |after| ensures !Before(after[j], after[i]) {
      assert !Before(rules[j], rules[i]);
      BeforeIgnoresCounts(rules[j], rules[i], after[j].hitCount, after[i].hitCount);
    }
  }

  lemma WithDeltaAt(rules: seq<Rule>, deltas: Deltas, i: int)
    requires UniqueIds(rules) && 0 <= i < |rules|
    ensures var m := WithDeltas(ById(rules), deltas);
            rules[i].id in m && m[rules[i].id] == WithDelta(rules[i], deltas)
  {
    ByIdHolds(rules, i);
  }

  lemma WithDeltaFacts(rules: seq<Rule>, deltas: Deltas, after: seq<Rule>)
    requires UniqueIds(rules) && |after| == |rules|
    requires forall i | 0 <= i < |rules| :: after[i] == WithDelta(rules[i], deltas)
    ensures UniqueIds(after) && ById(after) == WithDeltas(ById(rules), deltas)
  {
    SameIds(rules, after);
    var m := WithDeltas(ById(rules), deltas);
    forall i | 0 <= i < |after| ensures after[i].id in m && m[after[i].id] == after[i] {
      WithDeltaAt(rules, deltas, i);
    }
    assert m.Keys == ById(rules).Keys;
    ByIdIs(after, m);
  }

  lemma RestoredAt(current: RuleMap, rules: seq<Rule>, i: int)
    requires UniqueIds(rules) && 0 <= i < |rules|
    ensures var m := ReplacedBy(current, ById(rules));
            rules[i].id in m && m[rules[i].id] == Restored(current, rules[i])
  {
    ByIdHolds(rules, i);
  }

  lemma RestoredFacts(current: RuleMap, sorted: seq<Rule>, after: seq<Rule>)
    requires UniqueIds(sorted)
    requires |after| == |sorted| && forall i | 0 <= i < |sorted| :: after[i] == Restored(current, sorted[i])
    ensures UniqueIds(after) && ById(after) == ReplacedBy(current, ById(sorted))
  {
    SameIds(sorted, after);
    var m := ReplacedBy(current, ById(sorted));
    forall i | 0 <= i < |after| ensures after[i].id in m && m[after[i].id] == after[i] {
      RestoredAt(current, sorted, i);
    }
    assert m.Keys == ById(sorted).Keys;
    ByIdIs(after, m);
  }

  /** Two rules that change nothing in their sort keys but their ages. */
  lemma RetimedPair(x: Rule, y: Rule, x': Rule, y': Rule)
    requires x.scope == x'.scope && x.action == x'.action && x.id == x'.id
    requires y.scope == y'.scope && y.action == y'.action && y.id == y'.id
    requires x.id != y.id && !Before(y, x)
    ensures Tied(x, y) ==> Older(x, y)
    ensures Before(y', x') <==> Tied(x, y) && !Older(x', y')
  {
  }

  /** The effect of restoring two rules on the order between them. */
  lemma RestoredPair(current: RuleMap, x: Rule, y: Rule)
    requires x.id != y.id && !Before(y, x)
    ensures Tied(x, y) ==> Older(x, y)
    ensures Before(Restored(current, y), Restored(current, x))
            <==> Tied(x, y) && !Older(Restored(current, x), Restored(current, y))
  {
    RetimedPair(x, y, Restored(current, x), Restored(current, y));
  }

  lemma TiedAndOlderIsBefore(x: Rule, y: Rule)
    requires Tied(x, y) && Older(x, y)
    ensures Before(x, y) && !Before(y, x)
  {
  }

  lemma SortedAfterRestoring(current: RuleMap, incoming: seq<Rule>, sorted: seq<Rule>, after: seq<Rule>)
    requires UniqueIds(sorted) && Sorted(sorted) && multiset(sorted) == multiset(incoming)
    requires |after| == |sorted| && forall i | 0 <= i < |sorted| :: after[i] == Restored(current, sorted[i])
    requires RestoringKeepsOrder(current, incoming)
    ensures Sorted(after)
  {
    forall i, j | 0 <= i < j < |after| ensures !Before(after[j], after[i]) {
      assert sorted[i] in multiset(incoming) && sorted[j] in multiset(incoming);
      RestoredPair(current, sorted[i], sorted[j]);
    }
  }

  lemma OrderKeptByRestoring(current: RuleMap, incoming: seq<Rule>, sorted: seq<Rule>, after: seq<Rule>)
    requires UniqueIds(sorted) && Sorted(sorted) && multiset(sorted) == multiset(incoming)
    requires |after| == |sorted| && forall i | 0 <= i < |sorted| :: after[i] == Restored(current, sorted[i])
    requires Sorted(after)
    ensures RestoringKeepsOrder(current, incoming)
  {
    forall x, y | x in incoming && y in incoming && Tied(x, y) && Older(x, y)
      ensures Older(Restored(current, x), Restored(current, y))
    {
      TiedAndOlderIsBefore(x, y);
      assert x in multiset(sorted) && y in multiset(sorted);
      var i :| 0 <= i < |sorted| && sorted[i] == x;
      var j :| 0 <= j < |sorted| && sorted[j] == y;
      assert i < j;
      RestoredPair(current, x, y);
    }
  }

  lemma Republished(current: RuleMap, incoming: seq<Rule>, after: seq<Rule>)
    requires UniqueIds(incoming)
    requires var sorted := SortDeterministic(incoming);
             |after| == |sorted| && forall i | 0 <= i < |sorted| :: after[i] == Restored(current, sorted[i])
    ensures UniqueIds(after) && ById(after) == ReplacedBy(current, ById(incoming))
    ensures Sorted(after) <==> RestoringKeepsOrder(current, incoming)
  {
    var sorted := SortDeterministic(incoming);
    SortSorts(incoming);
    ByIdIsAboutContents(incoming, sorted);
    RestoredFacts(current, sorted, after);
    if RestoringKeepsOrder(current, incoming) {
      SortedAfterRestoring(current, incoming, sorted, after);
    } else if Sorted(after) {
      OrderKeptByRestoring(current, incoming, sorted, after);
    }
  }

  /** Callers that hand back the stored creation times always get a sorted set. */
  lemma CallersKeepOrder(current: RuleMap, incoming: seq<Rule>)
    requires CarriesStoredTimes(current, incoming)
    ensures RestoringKeepsOrder(current, incoming)
  {
  }
}
