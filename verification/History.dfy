/** The rules an engine ends with decide alike, however it came to hold them. */
module History {
  import opened CoreTypes
  import opened RuleSets
  import opened Engines

  /** Two rules that differ in nothing but their hit counts. */
  predicate SameButCounts(a: Rule, b: Rule) {
    a == b.(hitCount := a.hitCount)
  }

  ghost predicate SameRules(a: RuleMap, b: RuleMap) {
    a.Keys == b.Keys && forall id | id in a :: SameButCounts(a[id], b[id])
  }

  ghost predicate SameLists(a: seq<Rule>, b: seq<Rule>) {
    |a| == |b| && forall i | 0 <= i < |a| :: SameButCounts(a[i], b[i])
  }

  lemma HeadIsFirst(rules: seq<Rule>, r: Rule)
    requires Sorted(rules) && r in rules
    ensures r == rules[0] || !Before(r, rules[0])
  {
  }

  lemma CountsDoNotRank(a: Rule, b: Rule, x: Rule, y: Rule)
    requires SameButCounts(a, x) && SameButCounts(b, y)
    ensures Before(a, b) <==> Before(x, y)
  {
  }

  lemma TailById(rules: seq<Rule>)
    requires UniqueIds(rules) && rules != []
    ensures UniqueIds(rules[1..]) && ById(rules[1..]) == ById(rules) - {rules[0].id}
    ensures rules[0].id in ById(rules) && ById(rules)[rules[0].id] == rules[0]
  {
    var tail, m := rules[1..], ById(rules) - {rules[0].id};
    ByIdHolds(rules, 0);
    forall i | 0 <= i < |tail| ensures tail[i].id in m && m[tail[i].id] == tail[i] {
      ByIdHolds(rules, i + 1);
    }
    forall id | id in m ensures exists i :: 0 <= i < |tail| && tail[i].id == id {
      var i :| 0 <= i < |rules| && rules[i].id == id;
      assert tail[i - 1].id == id;
    }
    ByIdIs(tail, m);
  }

  /** Both lists put the same rule first. */
  lemma SameHead(a: seq<Rule>, b: seq<Rule>)
    requires UniqueIds(a) && UniqueIds(b) && Sorted(a) && Sorted(b) && a != [] && b != []
    requires SameRules(ById(a), ById(b))
    ensures SameButCounts(a[0], b[0])
  {
    TailById(a);
    TailById(b);
    var a0 := ById(b)[a[0].id];
    var b0 := ById(a)[b[0].id];
    HeadIsFirst(a, b0);
    HeadIsFirst(b, a0);
    if a[0].id != b[0].id {
      CountsDoNotRank(a[0], b0, a0, b[0]);
      CountsDoNotRank(b0, a[0], b[0], a0);
      BeforeIsStrictOrder(a[0], b0, b0);
    }
  }

  lemma NoRulesNoContents(rules: seq<Rule>)
    requires UniqueIds(rules)
    ensures rules == [] <==> ById(rules).Keys == {}
  {
    if rules != [] {
      TailById(rules);
      assert rules[0].id in ById(rules).Keys;
    }
  }

  lemma SameTails(a: seq<Rule>, b: seq<Rule>)
    requires UniqueIds(a) && UniqueIds(b) && Sorted(a) && Sorted(b) && a != [] && b != []
    requires SameRules(ById(a), ById(b))
    ensures UniqueIds(a[1..]) && UniqueIds(b[1..]) && SameRules(ById(a[1..]), ById(b[1..]))
  {
    hide Sorted, Before, ById;
    SameHead(a, b);
    TailById(a);
    TailById(b);
  }

  /** Precedence order is total on distinct ids, so the contents fix the list. */
  lemma {:induction false} ContentsFixTheOrder(a: seq<Rule>, b: seq<Rule>)
    requires UniqueIds(a) && UniqueIds(b) && Sorted(a) && Sorted(b)
    requires SameRules(ById(a), ById(b))
    ensures SameLists(a, b)
  {
    hide ById, Before, UniqueIds, SameButCounts;
    NoRulesNoContents(a);
    NoRulesNoContents(b);
    if a == [] {
    } else {
      SameHead(a, b);
      SameTails(a, b);
      ContentsFixTheOrder(a[1..], b[1..]);
      assert forall i | 1 <= i < |a| :: a[i] == a[1..][i - 1] && b[i] == b[1..][i - 1];
    }
  }

  ghost predicate SameWalks(a: Walk, b: Walk) {
    && SameLists(a.passed, b.passed)
    && a.winner.Some? == b.winner.Some?
    && (a.winner.Some? ==> SameButCounts(a.winner.value, b.winner.value))
  }

  lemma {:induction false} SameVisits(a: seq<Rule>, b: seq<Rule>, c: Connection, p: Process, now: int)
    requires SameLists(a, b)
    ensures SameWalks(Visit(Candidates(a, c, p, now)), Visit(Candidates(b, c, p, now)))
    ensures SameWalks(VisitPrograms(Candidates(a, c, p, now)), VisitPrograms(Candidates(b, c, p, now)))
  {
    if a == [] {
    } else {
      assert Candidates(a, c, p, now)[1..] == Candidates(a[1..], c, p, now);
      assert Candidates(b, c, p, now)[1..] == Candidates(b[1..], c, p, now);
      SameVisits(a[1..], b[1..], c, p, now);
      assert StatusOf(a[0], c, p, now) == StatusOf(b[0], c, p, now);
    }
  }

  lemma SameSettlements(v: Walk, w: Walk, m: Match, n: Match)
    requires SameWalks(v, w) && Settles(v, m) && Settles(w, n)
    ensures if m.NoMatch? then n.NoMatch?
            else (m.Answer? <==> n.Answer?) && !n.NoMatch? && SameButCounts(m.rule, n.rule)
  {
    assert AnyAllow(v.passed) <==> AnyAllow(w.passed) by {
      if r :| r in v.passed && !Refuses(r) {
        var i :| 0 <= i < |v.passed| && v.passed[i] == r;
        assert w.passed[i] in w.passed;
      }
      if r :| r in w.passed && !Refuses(r) {
        var i :| 0 <= i < |w.passed| && w.passed[i] == r;
        assert v.passed[i] in v.passed;
      }
    }
    assert AnyRefusal(v.passed) <==> AnyRefusal(w.passed) by {
      if r :| r in v.passed && Refuses(r) {
        var i :| 0 <= i < |v.passed| && v.passed[i] == r;
        assert w.passed[i] in w.passed;
      }
      if r :| r in w.passed && Refuses(r) {
        var i :| 0 <= i < |w.passed| && w.passed[i] == r;
        assert v.passed[i] in v.passed;
      }
    }
    if m.Undecidable? {
      assert IsReported(v.passed, m.rule) && IsReported(w.passed, n.rule);
    }
  }

  /**
   * Two engines that hold the same rules, hit counts aside, answer every flow of every process
   * alike at every moment, whatever runs of edits led to them.
   */
  lemma DecisionsIgnoreHistory(a: seq<Rule>, b: seq<Rule>, c: Connection, p: Process, now: int, m: Match, n: Match)
    requires UniqueIds(a) && UniqueIds(b) && Sorted(a) && Sorted(b)
    requires SameRules(ById(a), ById(b))
    requires LooksUp(a, c, p, now, m) && LooksUp(b, c, p, now, n)
    ensures if m.NoMatch? then n.NoMatch?
            else (m.Answer? <==> n.Answer?) && !n.NoMatch? && SameButCounts(m.rule, n.rule)
  {
    ContentsFixTheOrder(a, b);
    SameVisits(a, b, c, p, now);
    SameSettlements(Visit(Candidates(a, c, p, now)), Visit(Candidates(b, c, p, now)), m, n);
  }

  // ---- Whole runs -----------------------------------------------------------------------

  datatype Edit =
    | Upsert(rule: Rule)
    | Remove(id: RuleId)
    | Replace(batch: seq<Rule>)
    | Expire(now: int)
    | Count(id: RuleId)
    | Drain

  /** What an engine holds, whatever the order it holds it in. */
  datatype Book = Book(rules: RuleMap, hits: Deltas)

  ghost function Edited(b: Book, e: Edit): Book {
    match e
    case Upsert(rule) => b.(rules := b.rules[rule.id := rule])
    case Remove(id) => b.(rules := b.rules - {id})
    case Replace(batch) =>
      var rules := if UniqueIds(batch) then ReplacedBy(b.rules, ById(batch)) else b.rules;
      Book(rules, Retained(b.hits, rules.Keys))
    case Expire(now) => b.(rules := Unexpired(b.rules, now))
    case Count(id) => b.(hits := Counted(b.hits, id))
    case Drain => Book(WithDeltas(b.rules, b.hits), map[])
  }

  ghost function EditedBy(b: Book, run: seq<Edit>): Book
    decreases |run|
  {
    if run == [] then b else EditedBy(Edited(b, run[0]), run[1..])
  }

  /** Batches have distinct ids and hand back creation times in the order stored. */
  ghost predicate Orderly(b: Book, run: seq<Edit>)
    decreases |run|
  {
    run == [] ||
    ((run[0].Replace? ==> UniqueIds(run[0].batch) && RestoringKeepsOrder(b.rules, run[0].batch))
     && Orderly(Edited(b, run[0]), run[1..]))
  }

  ghost function BookOf(e: Engine): Book
    reads e
    requires UniqueIds(e.rules)
  {
    Book(ById(e.rules), e.hits)
  }

  method Apply(engine: Engine, edit: Edit)
    requires engine.Valid()
    requires edit.Replace? ==> UniqueIds(edit.batch) && RestoringKeepsOrder(ById(engine.rules), edit.batch)
    modifies engine
    ensures engine.Valid() && BookOf(engine) == Edited(old(BookOf(engine)), edit)
    ensures engine.policy == old(engine.policy)
  {
    hide ById, Sorted, RestoringKeepsOrder, ReplacedBy, Unexpired, Retained, Counted, WithDeltas, UniqueIds;
    match edit {
      case Upsert(rule) => engine.UpsertRule(rule);
      case Remove(id) => engine.RemoveRule(id);
      case Replace(batch) => engine.ReplaceRules(batch);
      case Expire(now) => engine.NotifyRulesExpired(now);
      case Count(id) => engine.CountHit(id);
      case Drain => var drained := engine.DrainHits();
    }
  }

  /** Any orderly run of edits leaves the rules sorted and id-unique, with the contents the edits add up to. */
  method Replay(engine: Engine, run: seq<Edit>)
    requires engine.Valid() && Orderly(BookOf(engine), run)
    modifies engine
    ensures engine.Valid() && BookOf(engine) == EditedBy(old(BookOf(engine)), run)
  {
    hide ById, Sorted, RestoringKeepsOrder, Edited, UniqueIds;
    var i := 0;
    assert run[0..] == run;
    while i < |run|
      invariant 0 <= i <= |run| && engine.Valid()
      invariant EditedBy(BookOf(engine), run[i..]) == EditedBy(old(BookOf(engine)), run)
      invariant Orderly(BookOf(engine), run[i..])
    {
      assert run[i..][0] == run[i] && run[i..][1..] == run[i + 1..];
      Apply(engine, run[i]);
      i := i + 1;
    }
  }

  /** Two runs of edits that add up to the same rules, hit counts aside, decide every flow alike. */
  lemma RunsDecideAlike(start: Book, first: seq<Edit>, second: seq<Edit>, a: seq<Rule>, b: seq<Rule>,
                        policy: Policy, c: Connection, p: Process, now: int, d: Decision, e: Decision)
    requires UniqueIds(a) && Sorted(a) && ById(a) == EditedBy(start, first).rules
    requires UniqueIds(b) && Sorted(b) && ById(b) == EditedBy(start, second).rules
    requires SameRules(EditedBy(start, first).rules, EditedBy(start, second).rules)
    requires Decides(a, policy, c, p, now, d) && Decides(b, policy, c, p, now, e)
    ensures d == e
  {
    hide Sorted, UniqueIds, ById, LooksUp, SameRules, EditedBy;
    var m :| LooksUp(a, c, p, now, m) && d == DecisionFor(m, policy);
    var n :| LooksUp(b, c, p, now, n) && e == DecisionFor(n, policy);
    DecisionsIgnoreHistory(a, b, c, p, now, m, n);
  }

  /**
   * A batch that claims an earlier creation time than the stored one is published out of order:
   * it is sorted by the claimed time, and the stored time is put back afterwards.
   */
  lemma ClaimedTimesBreakOrder(held: Rule, newcomer: Rule, after: seq<Rule>)
    requires held.id == 1 && held.createdAt == 10 && newcomer == held.(id := 2, createdAt := 5)
    requires var sorted := SortDeterministic([held.(createdAt := 0), newcomer]);
             |after| == |sorted| && forall i | 0 <= i < |sorted| :: after[i] == Restored(map[1 := held], sorted[i])
    ensures UniqueIds(after) && !Sorted(after)
  {
    hide SortDeterministic, Sorted;
    var current, incoming := map[1 := held], [held.(createdAt := 0), newcomer];
    var x, y := incoming[0], incoming[1];
    assert x in incoming && y in incoming && Tied(x, y) && Older(x, y);
    assert !Older(Restored(current, x), Restored(current, y));
    Republished(current, incoming, after);
  }
}
