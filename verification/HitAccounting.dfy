/**
 * Two copies of the rules, the engine's and the store's, and the hits counted on them: a state
 * machine whose steps interleave counting with flushes, upserts, batches and deletions, each of
 * which holds the mutation lock over several steps.
 */
module HitAccounting {
  import opened CoreTypes
  import opened Engines
  import opened RuleSets

  // ---- The store -----------------------------------------------------------------

  /** A row is written only for a rule without a hostname scope, and only if the transaction commits. */
  predicate Writes(rule: Rule, commits: bool) {
    commits && rule.scope.dstHost.None?
  }

  function Written(rows: RuleMap, rule: Rule, commits: bool): RuleMap {
    if Writes(rule, commits) then rows[rule.id := rule] else rows
  }

  function Purged(rows: RuleMap, asOf: int, commits: bool): RuleMap {
    if commits then Unexpired(rows, asOf) else rows
  }

  lemma BatchWrites(batch: seq<Rule>, commits: bool)
    requires UniqueIds(batch)
    ensures WritesBatch(ById(batch), commits) <==>
              commits && forall i | 0 <= i < |batch| :: batch[i].scope.dstHost == None
  {
    forall i | 0 <= i < |batch| ensures batch[i].id in ById(batch) && ById(batch)[batch[i].id] == batch[i] {
      ByIdHolds(batch, i);
    }
  }

  lemma ByIdOfNone()
    ensures ById([]) == map[]
  {
  }

  lemma ByIdGrows(rules: seq<Rule>, i: nat)
    requires UniqueIds(rules) && i < |rules|
    ensures ById(rules[..i + 1]) == ById(rules[..i])[rules[i].id := rules[i]]
  {
    assert rules[..i + 1] == rules[..i] + [rules[i]];
  }

  /** The persisted rules. `commits` says whether the transaction goes through. */
  class RuleStore {
    var rows: RuleMap

    constructor (rows: RuleMap)
      ensures this.rows == rows
    {
      this.rows := rows;
    }

    method Upsert(rule: Rule, commits: bool) returns (ok: bool)
      modifies this
      ensures ok <==> Writes(rule, commits)
      ensures rows == Written(old(rows), rule, commits)
    {
      ok := rule.scope.dstHost.None? && commits;
      if ok {
        rows := rows[rule.id := rule];
      }
    }

    /** Stores a batch over what is there or in its place, and says how many rows went; or changes nothing. */
    method ApplyRules(batch: seq<Rule>, replace: bool, commits: bool) returns (removed: Option<nat>)
      requires UniqueIds(batch)
      modifies this
      ensures removed.Some? <==> commits && forall i | 0 <= i < |batch| :: batch[i].scope.dstHost == None
      ensures removed.Some? <==> WritesBatch(ById(batch), commits)
      ensures removed.None? ==> rows == old(rows)
      ensures removed.Some? ==>
                && rows == (if replace then map[] else old(rows)) + ById(batch) == Over(old(rows), ById(batch), replace)
                && removed.value == if replace then |old(rows).Keys - ById(batch).Keys| else 0
    {
      BatchWrites(batch, commits);
      hide ById, UniqueIds, WritesBatch;
      var i := 0;
      while i < |batch|
        invariant 0 <= i <= |batch|
        invariant forall j | 0 <= j < i :: batch[j].scope.dstHost == None
      {
        if batch[i].scope.dstHost.Some? {
          return None;
        }
        i := i + 1;
      }
      if !commits {
        return None;
      }
      rows, removed := Replaced(batch, replace);
    }

    method Replaced(batch: seq<Rule>, replace: bool) returns (updated: RuleMap, removed: Option<nat>)
      requires UniqueIds(batch)
      ensures updated == (if replace then map[] else rows) + ById(batch)
      ensures removed == Some(if replace then |rows.Keys - ById(batch).Keys| else 0)
    {
      hide ById;
      updated := if replace then map[] else rows;
      var i := 0;
      KeysOf(batch);
      ByIdOfNone();
      while i < |batch|
        invariant 0 <= i <= |batch|
        invariant updated == (if replace then map[] else rows) + ById(batch[..i])
      {
        ByIdGrows(batch, i);
        updated := updated[batch[i].id := batch[i]];
        i := i + 1;
      }
      assert batch[..i] == batch;
      removed := Some(if replace then |rows.Keys - (set r | r in batch :: r.id)| else 0);
    }

    /** Adds each increment to its stored row; rows deleted meanwhile are skipped. */
    method MergeHitCounts(increments: Deltas, commits: bool) returns (ok: bool)
      modifies this
      ensures ok <==> commits || increments == map[]
      ensures rows == if ok then WithDeltas(old(rows), increments) else old(rows)
    {
      if increments == map[] {
        assert WithDeltas(rows, increments) == rows;
        return true;
      }
      var updated := rows;
      var todo := increments.Keys;
      while todo != {}
        invariant todo <= increments.Keys
        invariant updated == WithDeltas(rows, map id | id in increments && id !in todo :: increments[id])
        decreases |todo|
      {
        var id :| id in todo;
        todo := todo - {id};
        if id in updated {
          updated := updated[id := WithCount(updated[id], SaturatingAdd(updated[id].hitCount, increments[id]))];
        }
      }
      assert (map id | id in increments && id !in todo :: increments[id]) == increments;
      if commits {
        rows := updated;
      }
      ok := commits;
    }

    method PurgeExpired(now: int, commits: bool) returns (ok: bool)
      modifies this
      ensures ok == commits
      ensures rows == Purged(old(rows), now, commits)
    {
      ok := commits;
      if ok {
        var doomed := set id | id in rows && IsExpired(rows[id], now);
        rows := rows - doomed;
      }
    }
  }

  /** One flush: drain the engine's deltas and add them to the stored rows. */
  method Flush(engine: Engine, store: RuleStore, commits: bool) returns (ok: bool)
    requires engine.Valid()
    modifies engine`rules, engine`hits, store
    ensures engine.Valid() && engine.hits == map[]
    ensures ById(engine.rules) == WithDeltas(old(ById(engine.rules)), old(engine.hits))
    ensures ok <==> commits || old(engine.hits) == map[]
    ensures store.rows == if ok then WithDeltas(old(store.rows), old(engine.hits)) else old(store.rows)
  {
    var deltas := engine.DrainHits();
    ok := store.MergeHitCounts(deltas, commits);
  }

  /** An upsert by the control service: owned fields restored, then the store, then the engine. */
  method UpsertChecked(engine: Engine, store: RuleStore, rule: Rule, commits: bool) returns (ok: bool)
    requires engine.Valid()
    modifies engine`rules, store
    ensures engine.Valid()
    ensures var kept := Restored(old(ById(engine.rules)), rule);
            && (ok <==> Writes(kept, commits))
            && store.rows == Written(old(store.rows), kept, commits)
            && ById(engine.rules) == Written(old(ById(engine.rules)), kept, commits)
  {
    hide ById, Sorted, UniqueIds;
    var kept := engine.PreserveServerOwned(rule);
    ok := store.Upsert(kept, commits);
    if ok {
      engine.UpsertRule(kept);
    }
  }

  method AnyExpired(rules: seq<Rule>, now: int) returns (found: bool)
    requires UniqueIds(rules)
    ensures found <==> exists id :: id in ById(rules) && IsExpired(ById(rules)[id], now)
  {
    hide IsExpired;
    var i := 0;
    while i < |rules|
      invariant 0 <= i <= |rules|
      invariant forall j | 0 <= j < i :: !IsExpired(rules[j], now)
    {
      if IsExpired(rules[i], now) {
        ByIdHolds(rules, i);
        return true;
      }
      i := i + 1;
    }
    return false;
  }

  /** What one tick of the flush task leaves in the engine and in the store. */
  ghost function Ticked(rules: RuleMap, hits: Deltas, rows: RuleMap, checkedAt: int, droppedAt: int,
                        merges: bool, purges: bool): (RuleMap, RuleMap)
  {
    var drained := WithDeltas(rules, hits);
    var merged := if merges || hits == map[] then WithDeltas(rows, hits) else rows;
    if exists id :: id in drained && IsExpired(drained[id], checkedAt)
    then (Unexpired(drained, droppedAt), Purged(merged, checkedAt, purges))
    else (drained, merged)
  }

  /** The whole tick: flush, and if a deadline has passed, drop and purge. */
  method FlushTick(engine: Engine, store: RuleStore, checkedAt: int, droppedAt: int, merges: bool, purges: bool)
    requires engine.Valid()
    modifies engine`rules, engine`hits, store
    ensures engine.Valid() && engine.hits == map[]
    ensures (ById(engine.rules), store.rows)
         == old(Ticked(ById(engine.rules), engine.hits, store.rows, checkedAt, droppedAt, merges, purges))
  {
    hide Sorted, WithDeltas, IsExpired;
    var flushed := Flush(engine, store, merges);
    var snapshot := engine.Snapshot();
    NoDeltasNoChange(ById(engine.rules));
    var any := AnyExpired(snapshot, checkedAt);
    if any {
      engine.NotifyRulesExpired(droppedAt);
      var purged := store.PurgeExpired(checkedAt, purges);
    }
  }

  lemma NoDeltasNoChange(rules: RuleMap)
    ensures WithDeltas(rules, map[]) == rules
  {
  }

  // ---- The machine -----------------------------------------------------------------

  /** Where the holder of the mutation lock is. */
  datatype Phase =
    | Idle
    | FlushLocked
    | FlushDrained(deltas: Deltas)
    | FlushMerged
    | FlushExpired(asOf: int)
    | UpsertLocked(rule: Rule)
    | UpsertPrepared(rule: Rule)
    | UpsertStored(rule: Rule)
    | BatchLocked(batch: RuleMap, replace: bool)
    | BatchPrepared(batch: RuleMap, replace: bool)
    | BatchStored(batch: RuleMap, replace: bool)
    | BatchRead(final: RuleMap)
    | DeleteLocked(id: RuleId)
    | DeleteStored(id: RuleId, found: bool)

  /** Where the shutdown flush is. It drains and merges as a tick does, but without the mutation lock. */
  datatype Shutdown = Running | Drained(deltas: Deltas) | Flushed

  /** `lost` records a failed merge or purge, `clock` the latest time read so far. */
  datatype World = World(rules: RuleMap, hits: Deltas, store: RuleMap, phase: Phase, shutdown: Shutdown, lost: bool,
                         clock: int)

  datatype Step =
    | CountHit(id: RuleId)
    | BeginFlush
    | Drain
    | Merge(commits: bool)
    | Expire(checkedAt: int, droppedAt: int)
    | Purge(commits: bool)
    | BeginUpsert(rule: Rule)
    | BeginPersist(rule: Rule)
    | BeginBatch(batch: RuleMap, replace: bool)
    | Prepare
    | Store(commits: bool)
    | ReadBatch
    | Publish
    | BeginDelete(id: RuleId)
    | FinalDrain
    | FinalMerge(commits: bool)

  ghost predicate KeyedById(m: RuleMap) {
    forall id | id in m :: m[id].id == id
  }

  /** Steps begin when the lock is free and continue the phase that holds it; counting and shutdown ask for no lock. */
  ghost predicate Enabled(w: World, s: Step) {
    match s
    case CountHit(_) => true
    case BeginFlush => w.phase.Idle?
    case Drain => w.phase.FlushLocked?
    case Merge(_) => w.phase.FlushDrained?
    case Expire(_, _) => w.phase.FlushMerged?
    case Purge(_) => w.phase.FlushExpired?
    case BeginUpsert(_) => w.phase.Idle?
    case BeginPersist(rule) => w.phase.Idle? && rule.id !in w.rules && rule.id !in w.store  // a fresh id
    case BeginBatch(batch, _) => w.phase.Idle? && KeyedById(batch)
    case Prepare => w.phase.UpsertLocked? || w.phase.BatchLocked?
    case Store(_) => w.phase.UpsertPrepared? || w.phase.BatchPrepared? || w.phase.DeleteLocked?
    case ReadBatch => w.phase.BatchStored?
    case Publish => w.phase.UpsertStored? || w.phase.BatchRead? || w.phase.DeleteStored?
    case BeginDelete(_) => w.phase.Idle?
    case FinalDrain => w.shutdown.Running?
    case FinalMerge(_) => w.shutdown.Drained?
  }

  function Later(clock: int, t: int): int {
    if t > clock then t else clock
  }

  /** A batch put over a map, or in its place. */
  function Over(m: RuleMap, batch: RuleMap, replace: bool): RuleMap {
    if replace then batch else m + batch
  }

  /** A batch is written as a whole or not at all. */
  predicate WritesBatch(batch: RuleMap, commits: bool) {
    commits && forall id | id in batch :: batch[id].scope.dstHost.None?
  }

  function StoreStep(w: World, commits: bool): World {
    match w.phase
    case UpsertPrepared(rule) =>
      w.(store := Written(w.store, rule, commits), phase := if Writes(rule, commits) then UpsertStored(rule) else Idle)
    case BatchPrepared(batch, replace) =>
      if WritesBatch(batch, commits)
      then w.(store := Over(w.store, batch, replace), phase := BatchStored(batch, replace))
      else w.(phase := Idle)
    case DeleteLocked(id) =>
      if commits then w.(store := w.store - {id}, phase := DeleteStored(id, id in w.store))
      else w.(phase := Idle)
    case _ => w
  }

  function PublishStep(w: World): World {
    match w.phase
    case UpsertStored(rule) => w.(rules := w.rules[rule.id := rule], phase := Idle)
    case BatchRead(final) =>
      w.(rules := ReplacedBy(w.rules, final), hits := Retained(w.hits, final.Keys), phase := Idle)
    case DeleteStored(id, found) => w.(rules := if found then w.rules - {id} else w.rules, phase := Idle)
    case _ => w
  }

  function Next(w: World, s: Step): World {
    match s
    case CountHit(id) => w.(hits := Counted(w.hits, id))
    case BeginFlush => w.(phase := FlushLocked)
    case Drain => w.(rules := WithDeltas(w.rules, w.hits), hits := map[], phase := FlushDrained(w.hits))
    case Merge(commits) =>
      if w.phase.FlushDrained? then
        if commits || w.phase.deltas == map[]
        then w.(store := WithDeltas(w.store, w.phase.deltas), phase := FlushMerged)
        else w.(lost := true, phase := FlushMerged)
      else w
    case Expire(checkedAt, droppedAt) =>
      if exists id :: id in w.rules && IsExpired(w.rules[id], checkedAt)
      then w.(rules := Unexpired(w.rules, droppedAt), phase := FlushExpired(checkedAt),
              clock := Later(Later(w.clock, checkedAt), droppedAt))
      else w.(phase := Idle, clock := Later(w.clock, checkedAt))
    case Purge(commits) =>
      if w.phase.FlushExpired?
      then w.(store := Purged(w.store, w.phase.asOf, commits), lost := w.lost || !commits, phase := Idle)
      else w
    case BeginUpsert(rule) => w.(phase := UpsertLocked(rule))
    case BeginPersist(rule) => w.(phase := UpsertPrepared(rule))
    case BeginBatch(batch, replace) => w.(phase := BatchLocked(batch, replace))
    case Prepare =>
      if w.phase.UpsertLocked? then w.(phase := UpsertPrepared(Restored(w.rules, w.phase.rule)))
      else if w.phase.BatchLocked? then w.(phase := BatchPrepared(ReplacedBy(w.rules, w.phase.batch), w.phase.replace))
      else w
    case Store(commits) => StoreStep(w, commits)
    case ReadBatch =>
      if w.phase.BatchStored? then
        // a merge keeps what a snapshot shows of the other rules, counts included
        var others := if w.phase.replace then map[] else WithDeltas(w.rules, w.hits) - w.phase.batch.Keys;
        w.(phase := BatchRead(others + w.phase.batch))
      else w
    case Publish => PublishStep(w)
    case BeginDelete(id) => w.(phase := DeleteLocked(id))
    case FinalDrain => w.(rules := WithDeltas(w.rules, w.hits), hits := map[], shutdown := Drained(w.hits))
    case FinalMerge(commits) =>
      if w.shutdown.Drained? then
        if commits || w.shutdown.deltas == map[]
        then w.(store := WithDeltas(w.store, w.shutdown.deltas), shutdown := Flushed)
        else w.(lost := true, shutdown := Flushed)
      else w
  }

  // ---- The two copies agree ----------------------------------------------------------

  /** Every rule both maps hold is the same rule, count included, whatever its deadline. */
  ghost predicate Common(a: RuleMap, b: RuleMap) {
    forall id | id in a && id in b :: a[id] == b[id]
  }

  /** Shared rules are the same, and only rules past their deadline may be missing on one side. */
  ghost predicate Agree(a: RuleMap, b: RuleMap, clock: int) {
    Common(a, b) && Unexpired(a, clock) == Unexpired(b, clock)
  }

  /** A rule in flight already carries what the engine owns of it. */
  ghost predicate Carries(rules: RuleMap, m: RuleMap) {
    KeyedById(m) && forall id | id in m :: Restored(rules, m[id]) == m[id]
  }

  /** The engine's and the store's rules as they will stand once the lock holder is done. */
  ghost function Settling(w: World): (RuleMap, RuleMap) {
    match w.phase
    case FlushDrained(deltas) => (w.rules, WithDeltas(w.store, deltas))
    case UpsertStored(rule) => (w.rules[rule.id := rule], w.store)
    case BatchStored(batch, replace) => (Over(w.rules, batch, replace), w.store)
    case BatchRead(final) => (ReplacedBy(w.rules, final), w.store)
    case DeleteStored(id, found) => (if found then w.rules - {id} else w.rules, w.store)
    case _ => (w.rules, w.store)
  }

  /** Stored rules with what the shutdown flush has still to add to them. */
  ghost function Owed(w: World, rows: RuleMap): RuleMap {
    if w.shutdown.Drained? then WithDeltas(rows, w.shutdown.deltas) else rows
  }

  ghost predicate Consistent(w: World) {
    Agree(Settling(w).0, Owed(w, Settling(w).1), w.clock)
  }

  /** The rules a lock holder is about to write or publish as it read them. */
  ghost function Held(w: World): RuleMap {
    match w.phase
    case UpsertPrepared(rule) => map[rule.id := rule]
    case UpsertStored(rule) => map[rule.id := rule]
    case BatchPrepared(batch, _) => batch
    case BatchStored(batch, _) => batch
    case BatchRead(final) => final - w.rules.Keys
    case _ => map[]
  }

  ghost predicate Untouched(m: RuleMap, deltas: Deltas) {
    WithDeltas(m, deltas) == m
  }

  /**
   * The shutdown flush and a rule write keep out of each other's way: what is drained changes no
   * rule a lock holder has in hand, and what is written meanwhile is no rule still owed a count.
   */
  ghost predicate Apart(w: World, s: Step) {
    && (s.FinalDrain? ==> Untouched(Held(w), w.hits))
    && (s == Store(true) && w.shutdown.Drained? ==> Untouched(Held(w), w.shutdown.deltas))
  }

  ghost predicate InFlight(w: World) {
    match w.phase
    case UpsertPrepared(rule) => Restored(w.rules, rule) == rule
    case UpsertStored(rule) => Restored(w.rules, rule) == rule
    case BatchLocked(batch, _) => KeyedById(batch)
    case BatchPrepared(batch, _) => Carries(w.rules, batch)
    case BatchStored(batch, _) => Carries(w.rules, batch)
    case BatchRead(final) => KeyedById(final)
    case FlushExpired(asOf) => asOf <= w.clock
    case _ => true
  }

  ghost predicate Inv(w: World) {
    KeyedById(w.rules) && KeyedById(w.store) && InFlight(w) && (!w.lost ==> Consistent(w))
  }

  /** They keep apart when no write is prepared at the drain and none is stored before the merge. */
  lemma QuietIsApart(w: World, s: Step)
    requires s.FinalDrain? ==>
               || w.phase.Idle? || w.phase.FlushLocked? || w.phase.FlushDrained? || w.phase.FlushMerged?
               || w.phase.FlushExpired? || w.phase.UpsertLocked? || w.phase.BatchLocked? || w.phase.DeleteLocked?
               || w.phase.DeleteStored?
    requires s == Store(true) ==> !w.shutdown.Drained?
    ensures Apart(w, s)
  {
  }

  lemma AgreesWithItself(a: RuleMap, now: int)
    ensures Agree(a, a, now)
  {
  }

  lemma AgreeSwaps(a: RuleMap, b: RuleMap, now: int)
    requires Agree(a, b, now)
    ensures Agree(b, a, now)
  {
  }

  lemma UnexpiredTwice(m: RuleMap, early: int, late: int)
    requires early <= late
    ensures Unexpired(Unexpired(m, early), late) == Unexpired(m, late)
  {
  }

  lemma AgreeLater(a: RuleMap, b: RuleMap, early: int, late: int)
    requires early <= late && Agree(a, b, early)
    ensures Agree(a, b, late)
  {
    UnexpiredTwice(a, early, late);
    UnexpiredTwice(b, early, late);
  }

  lemma UnexpiredWithDeltas(m: RuleMap, deltas: Deltas, now: int)
    ensures Unexpired(WithDeltas(m, deltas), now) == WithDeltas(Unexpired(m, now), deltas)
  {
  }

  lemma UnexpiredUnion(a: RuleMap, b: RuleMap, now: int)
    ensures Unexpired(a + b, now) == Unexpired(a - b.Keys, now) + Unexpired(b, now)
  {
  }

  lemma AgreeMinus(a: RuleMap, b: RuleMap, ids: set<RuleId>, now: int)
    requires Agree(a, b, now)
    ensures Agree(a - ids, b - ids, now)
  {
    assert Unexpired(a - ids, now) == Unexpired(a, now) - ids;
    assert Unexpired(b - ids, now) == Unexpired(b, now) - ids;
  }

  lemma AgreePlus(a: RuleMap, b: RuleMap, m: RuleMap, now: int)
    requires Agree(a, b, now)
    ensures Agree(a + m, b + m, now)
  {
    AgreeMinus(a, b, m.Keys, now);
    UnexpiredUnion(a, m, now);
    UnexpiredUnion(b, m, now);
  }

  lemma AgreeUpdate(a: RuleMap, b: RuleMap, rule: Rule, now: int)
    requires Agree(a, b, now)
    ensures Agree(a[rule.id := rule], b[rule.id := rule], now)
  {
    AgreePlus(a, b, map[rule.id := rule], now);
    assert a + map[rule.id := rule] == a[rule.id := rule];
    assert b + map[rule.id := rule] == b[rule.id := rule];
  }

  lemma AgreeDeltas(a: RuleMap, b: RuleMap, deltas: Deltas, now: int)
    requires Agree(a, b, now)
    ensures Agree(WithDeltas(a, deltas), WithDeltas(b, deltas), now)
  {
    UnexpiredWithDeltas(a, deltas, now);
    UnexpiredWithDeltas(b, deltas, now);
  }

  /** Saturating counts can be added in either order. */
  lemma DeltasCommute(m: RuleMap, a: Deltas, b: Deltas)
    ensures WithDeltas(WithDeltas(m, a), b) == WithDeltas(WithDeltas(m, b), a)
  {
  }

  lemma DeltasOfUnion(a: RuleMap, b: RuleMap, deltas: Deltas)
    ensures WithDeltas(a + b, deltas) == WithDeltas(a, deltas) + WithDeltas(b, deltas)
  {
  }

  lemma DeltasOfUpdate(a: RuleMap, rule: Rule, deltas: Deltas)
    requires Untouched(map[rule.id := rule], deltas)
    ensures WithDeltas(a[rule.id := rule], deltas) == WithDeltas(a, deltas)[rule.id := rule]
  {
    hide WithDeltas;
    DeltasOfUnion(a, map[rule.id := rule], deltas);
    assert a[rule.id := rule] == a + map[rule.id := rule];
  }

  lemma DeltasOfRest(a: RuleMap, ids: set<RuleId>, deltas: Deltas)
    ensures WithDeltas(a - ids, deltas) == WithDeltas(a, deltas) - ids
  {
  }

  lemma DeltasKeepKeys(m: RuleMap, deltas: Deltas)
    ensures WithDeltas(m, deltas).Keys == m.Keys
    ensures KeyedById(m) ==> KeyedById(WithDeltas(m, deltas))
  {
  }

  /** Removing a row the store did not have removes nothing unexpired from the engine either. */
  lemma AgreeWithoutAbsent(a: RuleMap, b: RuleMap, id: RuleId, now: int)
    requires Agree(a, b, now) && id !in b
    ensures Agree(a, b - {id}, now)
  {
    assert b - {id} == b;
  }

  /** Restoring a published batch gives back each rule as it was prepared or is held. */
  lemma PublishedBatch(rules: RuleMap, hits: Deltas, batch: RuleMap, replace: bool)
    requires KeyedById(rules) && Carries(rules, batch)
    ensures var others := if replace then map[] else WithDeltas(rules, hits) - batch.Keys;
            KeyedById(others + batch)
            && ReplacedBy(rules, others + batch) == Over(rules, batch, replace)
  {
  }

  lemma KeyedOver(m: RuleMap, batch: RuleMap, replace: bool)
    requires KeyedById(m) && KeyedById(batch)
    ensures KeyedById(Over(m, batch, replace))
  {
  }

  lemma CarriesKeyed(rules: RuleMap, m: RuleMap)
    requires Carries(rules, m)
    ensures KeyedById(m)
  {
  }

  lemma AgreeOver(a: RuleMap, b: RuleMap, batch: RuleMap, replace: bool, now: int)
    requires Agree(a, b, now)
    ensures Agree(Over(a, batch, replace), Over(b, batch, replace), now)
  {
    hide Agree;
    AgreesWithItself(batch, now);
    AgreePlus(a, b, batch, now);
  }

  lemma DeltasOver(m: RuleMap, batch: RuleMap, replace: bool, deltas: Deltas)
    requires Untouched(batch, deltas)
    ensures WithDeltas(Over(m, batch, replace), deltas) == Over(WithDeltas(m, deltas), batch, replace)
  {
    hide WithDeltas;
    DeltasOfUnion(m, batch, deltas);
  }

  lemma BatchStoreStep(w: World, commits: bool)
    requires w.phase.BatchPrepared?
    ensures var batch, replace := w.phase.batch, w.phase.replace;
            StoreStep(w, commits)
            == if WritesBatch(batch, commits)
               then w.(store := Over(w.store, batch, replace), phase := BatchStored(batch, replace))
               else w.(phase := Idle)
    ensures WritesBatch(w.phase.batch, commits) ==> commits
  {
    hide Over;
  }

  /** A batch no owed count touches is owed nothing more once stored. */
  lemma BatchIsOwedNothing(w: World)
    requires w.phase.BatchPrepared? && Apart(w, Store(true))
    ensures var batch, replace := w.phase.batch, w.phase.replace;
            Owed(w, Over(w.store, batch, replace)) == Over(Owed(w, w.store), batch, replace)
  {
    hide WithDeltas, Over, Untouched;
    if w.shutdown.Drained? {
      DeltasOver(w.store, w.phase.batch, w.phase.replace, w.shutdown.deltas);
    }
  }

  lemma StoreBatchKeepsInv(w: World, commits: bool)
    requires Inv(w) && w.phase.BatchPrepared? && Apart(w, Store(commits))
    ensures Inv(StoreStep(w, commits))
  {
    hide Agree, KeyedById, Carries, Over, Apart, StoreStep, WritesBatch, WithDeltas;
    BatchStoreStep(w, commits);
    if WritesBatch(w.phase.batch, commits) {
      CarriesKeyed(w.rules, w.phase.batch);
      KeyedOver(w.store, w.phase.batch, w.phase.replace);
      BatchIsOwedNothing(w);
      if !w.lost {
        AgreeOver(w.rules, Owed(w, w.store), w.phase.batch, w.phase.replace, w.clock);
      }
    }
  }

  lemma StoreUpsertKeepsInv(w: World, commits: bool)
    requires Inv(w) && w.phase.UpsertPrepared? && Apart(w, Store(commits))
    ensures Inv(StoreStep(w, commits))
  {
    hide Agree, Restored, WithDeltas;
    var rule := w.phase.rule;
    if !w.lost {
      AgreeUpdate(w.rules, Owed(w, w.store), rule, w.clock);
      if w.shutdown.Drained? && commits {
        DeltasOfUpdate(w.store, rule, w.shutdown.deltas);
      }
    }
  }

  lemma StoreDeleteKeepsInv(w: World, commits: bool)
    requires Inv(w) && w.phase.DeleteLocked?
    ensures Inv(StoreStep(w, commits))
  {
    hide Agree, Restored, WithDeltas;
    var id, owed := w.phase.id, Owed(w, w.store);
    if w.shutdown.Drained? {
      DeltasOfRest(w.store, {id}, w.shutdown.deltas);
      DeltasKeepKeys(w.store, w.shutdown.deltas);
    }
    if !w.lost {
      AgreeMinus(w.rules, owed, {id}, w.clock);
      if id !in w.store {
        assert id !in owed.Keys;
        AgreeWithoutAbsent(w.rules, owed, id, w.clock);
      }
    }
  }

  /** Dropping what is past its deadline, at any moment up to the clock, keeps the two in agreement. */
  lemma AgreeDropped(a: RuleMap, b: RuleMap, at: int, clock: int)
    requires Agree(a, b, clock) && at <= clock
    ensures Agree(Unexpired(a, at), b, clock)
  {
    UnexpiredTwice(a, at, clock);
  }

  lemma KeyedUnexpired(m: RuleMap, now: int)
    requires KeyedById(m)
    ensures KeyedById(Unexpired(m, now))
  {
  }

  lemma ExpireKeepsInv(w: World, checkedAt: int, droppedAt: int)
    requires Inv(w) && w.phase.FlushMerged?
    ensures Inv(Next(w, Expire(checkedAt, droppedAt)))
  {
    hide WithDeltas, Agree, KeyedById, Unexpired, IsExpired;
    KeyedUnexpired(w.rules, droppedAt);
    if !w.lost {
      var owed, both := Owed(w, w.store), Later(Later(w.clock, checkedAt), droppedAt);
      AgreeLater(w.rules, owed, w.clock, Later(w.clock, checkedAt));
      AgreeLater(w.rules, owed, w.clock, both);
      AgreeDropped(w.rules, owed, droppedAt, both);
    }
  }

  lemma DrainKeepsInv(w: World)
    requires Inv(w) && w.phase.FlushLocked?
    ensures Inv(Next(w, Drain))
  {
    hide Agree, KeyedById, WithDeltas;
    DeltasKeepKeys(w.rules, w.hits);
    if !w.lost {
      AgreeDeltas(w.rules, Owed(w, w.store), w.hits, w.clock);
      if w.shutdown.Drained? {
        DeltasCommute(w.store, w.shutdown.deltas, w.hits);
      }
    }
  }

  lemma MergeKeepsInv(w: World, commits: bool)
    requires Inv(w) && w.phase.FlushDrained?
    ensures Inv(Next(w, Merge(commits)))
  {
    hide Agree, KeyedById, WithDeltas;
    DeltasKeepKeys(w.store, w.phase.deltas);
  }

  lemma PurgeKeepsInv(w: World, commits: bool)
    requires Inv(w) && w.phase.FlushExpired?
    ensures Inv(Next(w, Purge(commits)))
  {
    hide WithDeltas, Agree, KeyedById, Unexpired;
    var asOf, owed := w.phase.asOf, Owed(w, w.store);
    KeyedUnexpired(w.store, asOf);
    if !w.lost {
      AgreeSwaps(w.rules, owed, w.clock);
      AgreeDropped(owed, w.rules, asOf, w.clock);
      AgreeSwaps(Unexpired(owed, asOf), w.rules, w.clock);
      if w.shutdown.Drained? {
        UnexpiredWithDeltas(w.store, w.shutdown.deltas, asOf);
      }
    }
  }

  lemma PublishKeepsInv(w: World)
    requires Inv(w) && Enabled(w, Publish)
    ensures Inv(Next(w, Publish))
  {
    hide Agree, WithDeltas;
  }

  lemma PrepareKeepsInv(w: World)
    requires Inv(w) && Enabled(w, Prepare)
    ensures Inv(Next(w, Prepare))
  {
    hide Agree, WithDeltas;
  }

  lemma ReadBatchKeepsInv(w: World)
    requires Inv(w) && Enabled(w, ReadBatch)
    ensures Inv(Next(w, ReadBatch))
  {
    hide Agree, Carries, ReplacedBy, WithDeltas;
    PublishedBatch(w.rules, w.hits, w.phase.batch, w.phase.replace);
  }

  // ---- The shutdown flush -----------------------------------------------------------------

  /** A rule in hand that no delta touches carries the drained counts as it carried the old ones. */
  lemma StillRestored(rules: RuleMap, rule: Rule, deltas: Deltas)
    requires Restored(rules, rule) == rule && Untouched(map[rule.id := rule], deltas)
    ensures Restored(WithDeltas(rules, deltas), rule) == rule
  {
    var m := map[rule.id := rule];
    assert WithDeltas(m, deltas)[rule.id] == rule;
  }

  lemma StillCarried(rules: RuleMap, batch: RuleMap, deltas: Deltas)
    requires Carries(rules, batch) && Untouched(batch, deltas)
    ensures Carries(WithDeltas(rules, deltas), batch)
  {
    forall id | id in batch ensures Restored(WithDeltas(rules, deltas), batch[id]) == batch[id] {
      assert WithDeltas(batch, deltas)[id] == batch[id];
    }
  }

  /** Draining commutes with restoring: the counts come from the rules held, drained or not. */
  lemma DrainedBatch(rules: RuleMap, final: RuleMap, deltas: Deltas)
    requires KeyedById(final) && Untouched(final - rules.Keys, deltas)
    ensures ReplacedBy(WithDeltas(rules, deltas), final) == WithDeltas(ReplacedBy(rules, final), deltas)
  {
    var added, drained := final - rules.Keys, WithDeltas(rules, deltas);
    forall id | id in final
      ensures ReplacedBy(drained, final)[id] == WithDeltas(ReplacedBy(rules, final), deltas)[id]
    {
      if id !in rules {
        assert WithDeltas(added, deltas)[id] == final[id];
      }
    }
  }

  /** The engine's side of the settlement is drained along with the engine's rules. */
  lemma DrainSettles(w: World)
    requires InFlight(w) && Apart(w, FinalDrain) && Enabled(w, FinalDrain)
    ensures Settling(Next(w, FinalDrain)).0 == WithDeltas(Settling(w).0, w.hits)
    ensures !w.phase.FlushDrained? ==> Settling(Next(w, FinalDrain)).1 == Settling(w).1
  {
    hide WithDeltas, ReplacedBy, Restored, Over;
    match w.phase {
      case UpsertStored(rule) => DeltasOfUpdate(w.rules, rule, w.hits);
      case BatchStored(batch, replace) => DeltasOver(w.rules, batch, replace, w.hits);
      case BatchRead(final) => DrainedBatch(w.rules, final, w.hits);
      case DeleteStored(id, found) => DeltasOfRest(w.rules, {id}, w.hits);
      case _ =>
    }
  }

  lemma DrainKeepsInFlight(w: World)
    requires InFlight(w) && Apart(w, FinalDrain) && Enabled(w, FinalDrain)
    ensures InFlight(Next(w, FinalDrain))
  {
    hide WithDeltas, ReplacedBy, Restored, Carries;
    match w.phase {
      case UpsertPrepared(rule) => StillRestored(w.rules, rule, w.hits);
      case UpsertStored(rule) => StillRestored(w.rules, rule, w.hits);
      case BatchPrepared(batch, _) => StillCarried(w.rules, batch, w.hits);
      case BatchStored(batch, _) => StillCarried(w.rules, batch, w.hits);
      case _ =>
    }
  }

  lemma FinalDrainKeepsInv(w: World)
    requires Inv(w) && Enabled(w, FinalDrain) && Apart(w, FinalDrain)
    ensures Inv(Next(w, FinalDrain))
  {
    hide Agree, KeyedById, WithDeltas, InFlight, Settling;
    DeltasKeepKeys(w.rules, w.hits);
    DrainSettles(w);
    DrainKeepsInFlight(w);
    StoreSideStays(w);
    if !w.lost {
      AgreeDeltas(Settling(w).0, Settling(w).1, w.hits, w.clock);
    }
  }

  lemma StoreSideStays(w: World)
    ensures Settling(Next(w, FinalDrain)).1 == Settling(w).1
  {
  }

  /** Merging what is owed changes the store and not what it will come to. */
  lemma MergeSettles(w: World)
    requires w.shutdown.Drained?
    ensures var n := w.(store := WithDeltas(w.store, w.shutdown.deltas), shutdown := Flushed);
            Settling(n).0 == Settling(w).0 && Settling(n).1 == Owed(w, Settling(w).1)
  {
    hide WithDeltas, ReplacedBy;
    if w.phase.FlushDrained? {
      DeltasCommute(w.store, w.shutdown.deltas, w.phase.deltas);
    }
  }

  lemma FinalMergeKeepsInv(w: World, commits: bool)
    requires Inv(w) && Enabled(w, FinalMerge(commits))
    ensures Inv(Next(w, FinalMerge(commits)))
  {
    hide Agree, KeyedById, WithDeltas, Settling;
    DeltasKeepKeys(w.store, w.shutdown.deltas);
    MergeSettles(w);
  }

  /** Every step keeps the two copies in the relation its phase and the shutdown call for. */
  lemma StepKeepsInv(w: World, s: Step)
    requires Inv(w) && Enabled(w, s) && Apart(w, s)
    ensures Inv(Next(w, s))
  {
    hide Agree, StoreStep, PublishStep, ReplacedBy, Carries, KeyedById, Unexpired, WithDeltas, Untouched;
    match s {
      case Drain => DrainKeepsInv(w);
      case Merge(commits) => MergeKeepsInv(w, commits);
      case Purge(commits) => PurgeKeepsInv(w, commits);
      case Expire(checkedAt, droppedAt) => ExpireKeepsInv(w, checkedAt, droppedAt);
      case Prepare => PrepareKeepsInv(w);
      case Store(commits) =>
        if w.phase.UpsertPrepared? {
          StoreUpsertKeepsInv(w, commits);
        } else if w.phase.BatchPrepared? {
          StoreBatchKeepsInv(w, commits);
        } else {
          StoreDeleteKeepsInv(w, commits);
        }
      case ReadBatch => ReadBatchKeepsInv(w);
      case Publish => PublishKeepsInv(w);
      case FinalDrain => FinalDrainKeepsInv(w);
      case FinalMerge(commits) => FinalMergeKeepsInv(w, commits);
      case _ =>
    }
  }

  // ---- Runs ---------------------------------------------------------------------------

  ghost predicate Executable(w: World, run: seq<Step>)
    decreases |run|
  {
    run == [] || (Enabled(w, run[0]) && Executable(Next(w, run[0]), run[1..]))
  }

  function After(w: World, run: seq<Step>): World
    decreases |run|
  {
    if run == [] then w else After(Next(w, run[0]), run[1..])
  }

  /** Shutdown and rule writes keep apart throughout. */
  ghost predicate AllApart(w: World, run: seq<Step>)
    decreases |run|
  {
    run == [] || (Apart(w, run[0]) && AllApart(Next(w, run[0]), run[1..]))
  }

  /** The daemon as it starts: both copies loaded from the store. */
  ghost predicate Initial(w: World) {
    && w.rules == w.store && KeyedById(w.rules) && w.hits == map[] && w.phase.Idle? && w.shutdown.Running? && !w.lost
  }

  /** Nobody holds the mutation lock, the shutdown flush is not under way, and no flush was lost. */
  predicate AtRest(w: World) {
    w.phase.Idle? && !w.shutdown.Drained? && !w.lost
  }

  lemma {:induction false} RunKeepsInv(w: World, run: seq<Step>)
    requires Inv(w) && Executable(w, run) && AllApart(w, run)
    ensures Inv(After(w, run))
    decreases |run|
  {
    if run == [] {
    } else {
      StepKeepsInv(w, run[0]);
      RunKeepsInv(Next(w, run[0]), run[1..]);
    }
  }

  /**
   * Whenever nobody holds the mutation lock, the shutdown flush is not under way and no flush was
   * lost, every rule that store and engine both hold is the same in both, its count included,
   * whatever its deadline; and a rule held by one alone is past its deadline. Such a rule may
   * linger: the engine drops and the store purges by two different clock reads. The shutdown flush
   * takes no lock, so it must have kept apart from rule writes.
   */
  lemma StoreAgreesWithEngine(w: World, run: seq<Step>)
    requires Initial(w) && Executable(w, run) && AllApart(w, run)
    ensures var end := After(w, run);
            AtRest(end) ==>
              && (forall id | id in end.rules && id in end.store :: end.rules[id] == end.store[id])
              && Unexpired(end.rules, end.clock) == Unexpired(end.store, end.clock)
  {
    RunKeepsInv(w, run);
  }

  // ---- When the two copies are equal -----------------------------------------------------

  /** No deadline of a rule still held lies between the two clock reads of an expiry that drops anything. */
  ghost predicate Clean(rules: RuleMap, checkedAt: int, droppedAt: int) {
    (exists id :: id in rules && IsExpired(rules[id], checkedAt)) ==>
      forall id | id in rules :: IsExpired(rules[id], checkedAt) <==> IsExpired(rules[id], droppedAt)
  }

  ghost predicate CleanExpiries(w: World, run: seq<Step>)
    decreases |run|
  {
    run == [] ||
    ((run[0].Expire? ==> Clean(w.rules, run[0].checkedAt, run[0].droppedAt))
     && CleanExpiries(Next(w, run[0]), run[1..]))
  }

  /** Both copies will be the same map. */
  ghost predicate Equal(w: World) {
    if w.phase.FlushExpired? then w.rules == Unexpired(Owed(w, w.store), w.phase.asOf)
    else Settling(w).0 == Owed(w, Settling(w).1)
  }

  lemma ExpireKeepsEqual(w: World, s: Step)
    requires Equal(w) && s.Expire? && Enabled(w, s) && Clean(w.rules, s.checkedAt, s.droppedAt)
    ensures Equal(Next(w, s))
  {
    hide WithDeltas;
    if exists id :: id in w.rules && IsExpired(w.rules[id], s.checkedAt) {
      assert Unexpired(w.rules, s.droppedAt) == Unexpired(w.rules, s.checkedAt);
    }
  }

  lemma StepKeepsEqual(w: World, s: Step)
    requires Inv(w) && Equal(w) && Enabled(w, s) && Apart(w, s) && !Next(w, s).lost
    requires s.Expire? ==> Clean(w.rules, s.checkedAt, s.droppedAt)
    ensures Equal(Next(w, s))
  {
    hide Inv, Equal, Unexpired, WithDeltas, ReplacedBy, Clean, StoreStep, PublishStep, Untouched;
    match s {
      case Expire(_, _) => ExpireKeepsEqual(w, s);
      case Drain => DrainKeepsEqual(w);
      case Purge(commits) => PurgeKeepsEqual(w);
      case ReadBatch => ReadBatchKeepsEqual(w);
      case Store(commits) => StoreKeepsEqual(w, commits);
      case FinalDrain => FinalDrainKeepsEqual(w);
      case FinalMerge(_) => FinalMergeKeepsEqual(w);
      case _ => OthersKeepEqual(w, s);
    }
  }

  /** Steps that settle nothing new. */
  predicate SettlesNothing(s: Step) {
    || s.CountHit? || s.BeginFlush? || s.Merge? || s.BeginUpsert? || s.BeginPersist? || s.BeginBatch?
    || s.Prepare? || s.BeginDelete? || s.Publish?
  }

  lemma OthersSettleAlike(w: World, s: Step)
    requires Enabled(w, s) && SettlesNothing(s) && !Next(w, s).lost
    ensures Settling(Next(w, s)) == Settling(w) && Next(w, s).shutdown == w.shutdown
    ensures !w.phase.FlushExpired? ==> !Next(w, s).phase.FlushExpired?
  {
    hide Unexpired, WithDeltas, ReplacedBy, Restored, Over;
  }

  lemma OthersKeepEqual(w: World, s: Step)
    requires Equal(w) && Enabled(w, s) && SettlesNothing(s) && !Next(w, s).lost
    ensures Equal(Next(w, s))
  {
    hide Settling, Unexpired, WithDeltas, ReplacedBy, Restored, PublishStep;
    OthersSettleAlike(w, s);
  }

  lemma DrainKeepsEqual(w: World)
    requires Equal(w) && w.phase.FlushLocked?
    ensures Equal(Next(w, Drain))
  {
    hide WithDeltas;
    if w.shutdown.Drained? {
      DeltasCommute(w.store, w.shutdown.deltas, w.hits);
    }
  }

  lemma PurgeKeepsEqual(w: World)
    requires Equal(w) && w.phase.FlushExpired?
    ensures Equal(Next(w, Purge(true)))
  {
    hide WithDeltas, Unexpired;
    if w.shutdown.Drained? {
      UnexpiredWithDeltas(w.store, w.shutdown.deltas, w.phase.asOf);
    }
  }

  lemma ReadBatchKeepsEqual(w: World)
    requires Inv(w) && Equal(w) && Enabled(w, ReadBatch)
    ensures Equal(Next(w, ReadBatch))
  {
    hide Agree, Unexpired, WithDeltas, ReplacedBy, Carries;
    PublishedBatch(w.rules, w.hits, w.phase.batch, w.phase.replace);
  }

  lemma StoreKeepsEqual(w: World, commits: bool)
    requires Equal(w) && Enabled(w, Store(commits)) && Apart(w, Store(commits))
    ensures Equal(StoreStep(w, commits))
  {
    hide Apart, StoreStep, Equal;
    match w.phase {
      case UpsertPrepared(_) => StoreUpsertKeepsEqual(w, commits);
      case BatchPrepared(_, _) => StoreBatchKeepsEqual(w, commits);
      case DeleteLocked(_) => StoreDeleteKeepsEqual(w, commits);
    }
  }

  lemma StoreUpsertKeepsEqual(w: World, commits: bool)
    requires Equal(w) && w.phase.UpsertPrepared? && Apart(w, Store(commits))
    ensures Equal(StoreStep(w, commits))
  {
    hide Unexpired, WithDeltas, ReplacedBy;
    if w.shutdown.Drained? && commits {
      DeltasOfUpdate(w.store, w.phase.rule, w.shutdown.deltas);
    }
  }

  lemma StoreBatchKeepsEqual(w: World, commits: bool)
    requires Equal(w) && w.phase.BatchPrepared? && Apart(w, Store(commits))
    ensures Equal(StoreStep(w, commits))
  {
    hide WithDeltas, ReplacedBy, Unexpired, Over, Apart, StoreStep, WritesBatch;
    BatchStoreStep(w, commits);
    if WritesBatch(w.phase.batch, commits) {
      BatchIsOwedNothing(w);
    }
  }

  lemma StoreDeleteKeepsEqual(w: World, commits: bool)
    requires Equal(w) && w.phase.DeleteLocked?
    ensures Equal(StoreStep(w, commits))
  {
    hide Unexpired, WithDeltas, ReplacedBy;
    var id, owed := w.phase.id, Owed(w, w.store);
    if w.shutdown.Drained? {
      DeltasOfRest(w.store, {id}, w.shutdown.deltas);
      DeltasKeepKeys(w.store, w.shutdown.deltas);
    }
    if id !in w.store {
      assert id !in owed.Keys;
      assert w.store - {id} == w.store && owed - {id} == owed;
    }
  }

  lemma FinalDrainKeepsEqual(w: World)
    requires Inv(w) && Equal(w) && Enabled(w, FinalDrain) && Apart(w, FinalDrain)
    ensures Equal(Next(w, FinalDrain))
  {
    hide WithDeltas, Unexpired, ReplacedBy, Settling;
    if w.phase.FlushExpired? {
      UnexpiredWithDeltas(w.store, w.hits, w.phase.asOf);
    } else {
      DrainSettles(w);
      StoreSideStays(w);
    }
  }

  lemma FinalMergeKeepsEqual(w: World)
    requires Equal(w) && w.shutdown.Drained?
    ensures Equal(Next(w, FinalMerge(true)))
  {
    hide WithDeltas, Unexpired, ReplacedBy, Settling;
    MergeSettles(w);
  }

  lemma LostStaysLost(w: World, run: seq<Step>)
    requires w.lost
    ensures After(w, run).lost
    decreases |run|
  {
    if run == [] {
    } else {
      assert Next(w, run[0]).lost by {
        LossIsKept(w, run[0]);
      }
      LostStaysLost(Next(w, run[0]), run[1..]);
    }
  }

  lemma LossIsKept(w: World, s: Step)
    requires w.lost
    ensures Next(w, s).lost
  {
  }

  lemma {:induction false} RunKeepsEqual(w: World, run: seq<Step>)
    requires Inv(w) && Equal(w) && Executable(w, run) && AllApart(w, run) && CleanExpiries(w, run)
    requires !After(w, run).lost
    ensures Equal(After(w, run))
    decreases |run|
  {
    hide Inv, Equal, Next, Apart;
    if run == [] {
    } else {
      if Next(w, run[0]).lost {
        LostStaysLost(Next(w, run[0]), run[1..]);
      }
      StepKeepsInv(w, run[0]);
      StepKeepsEqual(w, run[0]);
      RunKeepsEqual(Next(w, run[0]), run[1..]);
    }
  }

  /** As long as no deadline falls between the two clock reads of a flush, store and engine hold the very same rules. */
  lemma StoreEqualsEngine(w: World, run: seq<Step>)
    requires Initial(w) && Executable(w, run) && AllApart(w, run) && CleanExpiries(w, run)
    ensures AtRest(After(w, run)) ==> After(w, run).rules == After(w, run).store
  {
    if !After(w, run).lost {
      RunKeepsEqual(w, run);
    }
  }

  // ---- Counts, whatever else the two copies hold ------------------------------------------------

  /** Rules both maps hold have the same count and creation time. */
  ghost predicate SameTally(a: RuleMap, b: RuleMap) {
    forall id | id in a && id in b :: a[id].hitCount == b[id].hitCount && a[id].createdAt == b[id].createdAt
  }

  ghost predicate Tallied(w: World) {
    SameTally(Settling(w).0, Owed(w, Settling(w).1))
  }

  lemma TallyMaps(a: RuleMap, b: RuleMap, deltas: Deltas, ids: set<RuleId>, at: int)
    requires SameTally(a, b)
    ensures SameTally(WithDeltas(a, deltas), WithDeltas(b, deltas))
    ensures SameTally(a - ids, b - ids) && SameTally(a, b - ids)
    ensures SameTally(Unexpired(a, at), b) && SameTally(a, Unexpired(b, at))
  {
  }

  lemma TallyOver(a: RuleMap, b: RuleMap, batch: RuleMap, replace: bool)
    requires SameTally(a, b)
    ensures SameTally(Over(a, batch, replace), Over(b, batch, replace))
  {
  }

  lemma TallyUpdate(a: RuleMap, b: RuleMap, rule: Rule)
    requires SameTally(a, b)
    ensures SameTally(a[rule.id := rule], b[rule.id := rule])
  {
  }

  lemma StoreKeepsTally(w: World, commits: bool)
    requires Tallied(w) && Enabled(w, Store(commits)) && Apart(w, Store(commits))
    ensures Tallied(StoreStep(w, commits))
  {
    hide Apart, StoreStep, Tallied;
    match w.phase {
      case UpsertPrepared(_) => StoreUpsertKeepsTally(w, commits);
      case BatchPrepared(_, _) => StoreBatchKeepsTally(w, commits);
      case DeleteLocked(_) => StoreDeleteKeepsTally(w, commits);
    }
  }

  lemma StoreUpsertKeepsTally(w: World, commits: bool)
    requires Tallied(w) && w.phase.UpsertPrepared? && Apart(w, Store(commits))
    ensures Tallied(StoreStep(w, commits))
  {
    hide WithDeltas, ReplacedBy, SameTally, Untouched;
    TallyUpdate(w.rules, Owed(w, w.store), w.phase.rule);
    if w.shutdown.Drained? && commits {
      DeltasOfUpdate(w.store, w.phase.rule, w.shutdown.deltas);
    }
  }

  lemma StoreBatchKeepsTally(w: World, commits: bool)
    requires Tallied(w) && w.phase.BatchPrepared? && Apart(w, Store(commits))
    ensures Tallied(StoreStep(w, commits))
  {
    hide WithDeltas, ReplacedBy, SameTally, Over, Apart, StoreStep, WritesBatch;
    BatchStoreStep(w, commits);
    if WritesBatch(w.phase.batch, commits) {
      TallyOver(w.rules, Owed(w, w.store), w.phase.batch, w.phase.replace);
      BatchIsOwedNothing(w);
    }
  }

  lemma StoreDeleteKeepsTally(w: World, commits: bool)
    requires Tallied(w) && w.phase.DeleteLocked?
    ensures Tallied(StoreStep(w, commits))
  {
    hide WithDeltas, ReplacedBy, SameTally, Unexpired;
    TallyMaps(w.rules, Owed(w, w.store), map[], {w.phase.id}, 0);
    if w.shutdown.Drained? {
      DeltasOfRest(w.store, {w.phase.id}, w.shutdown.deltas);
    }
  }

  lemma FlushKeepsTally(w: World, s: Step)
    requires Tallied(w) && Enabled(w, s) && (s.Drain? || s.Expire? || s == Purge(true))
    ensures Tallied(Next(w, s))
  {
    hide WithDeltas, ReplacedBy, SameTally, Unexpired, IsExpired;
    var owed := Owed(w, w.store);
    match s {
      case Drain =>
        TallyMaps(w.rules, owed, w.hits, {}, 0);
        if w.shutdown.Drained? {
          DeltasCommute(w.store, w.shutdown.deltas, w.hits);
        }
      case Expire(_, droppedAt) => TallyMaps(w.rules, owed, map[], {}, droppedAt);
      case Purge(_) =>
        TallyMaps(w.rules, owed, map[], {}, w.phase.asOf);
        if w.shutdown.Drained? {
          UnexpiredWithDeltas(w.store, w.shutdown.deltas, w.phase.asOf);
        }
    }
  }

  lemma ShutdownKeepsTally(w: World, s: Step)
    requires InFlight(w) && Tallied(w) && Enabled(w, s) && Apart(w, s) && (s.FinalDrain? || s == FinalMerge(true))
    ensures Tallied(Next(w, s))
  {
    hide WithDeltas, ReplacedBy, SameTally, Settling, InFlight;
    if s.FinalDrain? {
      DrainSettles(w);
      StoreSideStays(w);
      TallyMaps(Settling(w).0, Settling(w).1, w.hits, {}, 0);
    } else {
      MergeSettles(w);
    }
  }

  lemma OthersKeepTally(w: World, s: Step)
    requires Tallied(w) && Enabled(w, s) && SettlesNothing(s) && !Next(w, s).lost
    ensures Tallied(Next(w, s))
  {
    hide Settling, SameTally, Next, Enabled, WithDeltas;
    OthersSettleAlike(w, s);
  }

  lemma ReadBatchKeepsTally(w: World)
    requires InFlight(w) && KeyedById(w.rules) && Tallied(w) && Enabled(w, ReadBatch)
    ensures Tallied(Next(w, ReadBatch))
  {
    hide WithDeltas, ReplacedBy, Carries, SameTally, KeyedById;
    PublishedBatch(w.rules, w.hits, w.phase.batch, w.phase.replace);
  }

  /** What is sound of a world even when the copies already differ. */
  ghost predicate Sound(w: World) {
    KeyedById(w.rules) && KeyedById(w.store) && InFlight(w)
  }

  lemma StepKeepsSound(w: World, s: Step)
    requires Sound(w) && Enabled(w, s) && Apart(w, s)
    ensures Sound(Next(w, s))
  {
    hide KeyedById, InFlight, Next, Enabled, Apart, Consistent;
    NextAside(w, s);
    GuardsAside(w, s);
    InFlightAside(w);
    StepKeepsInv(w.(lost := true), s);
    InFlightAside(Next(w, s));
  }

  // The machine never looks at what was lost.

  lemma StoreAside(w: World, commits: bool)
    ensures StoreStep(w.(lost := true), commits) == StoreStep(w, commits).(lost := true)
  {
    hide Writes, Written, WritesBatch, Over;
  }

  lemma PublishAside(w: World)
    ensures PublishStep(w.(lost := true)) == PublishStep(w).(lost := true)
  {
    hide ReplacedBy, Retained;
  }

  lemma NextAside(w: World, s: Step)
    ensures Next(w.(lost := true), s) == Next(w, s).(lost := true)
  {
    hide WithDeltas, Unexpired, ReplacedBy, Restored, StoreStep, PublishStep, IsExpired, Counted, Purged;
    match s {
      case Store(commits) => StoreAside(w, commits);
      case Publish => PublishAside(w);
      case _ =>
    }
  }

  lemma GuardsAside(w: World, s: Step)
    ensures Enabled(w.(lost := true), s) == Enabled(w, s) && Apart(w.(lost := true), s) == Apart(w, s)
  {
    hide KeyedById, Untouched;
  }

  lemma InFlightAside(w: World)
    ensures InFlight(w.(lost := true)) == InFlight(w)
  {
    hide KeyedById, Carries, Restored;
  }

  lemma StepKeepsTally(w: World, s: Step)
    requires Sound(w) && Tallied(w) && Enabled(w, s) && Apart(w, s) && !Next(w, s).lost
    ensures Tallied(Next(w, s))
  {
    hide Tallied, Unexpired, WithDeltas, ReplacedBy, StoreStep, PublishStep, Untouched, Apart;
    match s {
      case Drain => FlushKeepsTally(w, s);
      case Expire(_, _) => FlushKeepsTally(w, s);
      case Purge(_) => FlushKeepsTally(w, s);
      case Store(commits) => StoreKeepsTally(w, commits);
      case ReadBatch => ReadBatchKeepsTally(w);
      case FinalDrain => ShutdownKeepsTally(w, s);
      case FinalMerge(_) => MergeKeepsTally(w, s);
      case _ => OthersKeepTally(w, s);
    }
  }

  lemma MergeKeepsTally(w: World, s: Step)
    requires InFlight(w) && Tallied(w) && s.FinalMerge? && Enabled(w, s) && !Next(w, s).lost
    ensures Tallied(Next(w, s))
  {
    hide Tallied, WithDeltas, InFlight;
    assert Next(w, s) == Next(w, FinalMerge(true));
    ShutdownKeepsTally(w, FinalMerge(true));
  }

  lemma {:induction false} RunKeepsTally(w: World, run: seq<Step>)
    requires Sound(w) && Tallied(w) && Executable(w, run) && AllApart(w, run) && !After(w, run).lost
    ensures Tallied(After(w, run))
    decreases |run|
  {
    hide Sound, Tallied, Next, Apart, Enabled;
    if run == [] {
    } else {
      if Next(w, run[0]).lost {
        LostStaysLost(Next(w, run[0]), run[1..]);
      }
      StepKeepsSound(w, run[0]);
      StepKeepsTally(w, run[0]);
      RunKeepsTally(Next(w, run[0]), run[1..]);
    }
  }

  /**
   * Counts agree from any start in which they do: also where rows were set aside at load, or a
   * rule was mended in memory and its row left as it was. Every rule both copies hold then has the
   * same count and creation time in both, whenever the two are at rest.
   */
  lemma CountsAgree(w: World, run: seq<Step>)
    requires KeyedById(w.rules) && KeyedById(w.store) && SameTally(w.rules, w.store)
    requires w.phase.Idle? && w.shutdown.Running? && Executable(w, run) && AllApart(w, run)
    ensures AtRest(After(w, run)) ==> SameTally(After(w, run).rules, After(w, run).store)
  {
    hide KeyedById, SameTally;
    if AtRest(After(w, run)) {
      RunKeepsTally(w, run);
    }
  }

  /** A deadline between the two clock reads of one flush leaves the stored row behind. */
  lemma PurgeCanLeaveARowBehind(dying: Rule, dead: Rule)
    requires dying.id == 1 && dead.id == 2 && dying.duration == Seconds(2) && dead.duration == Seconds(1)
    requires dying.createdAt == 0 && dead.createdAt == 0
    ensures var both := map[1 := dying, 2 := dead];
            var w := World(both, map[], both, Idle, Running, false, 0);
            var run := [BeginFlush, Drain, Merge(true), Expire(1999, 2000), Purge(true)];
            Initial(w) && Executable(w, run) && After(w, run).phase.Idle? && !After(w, run).lost
            && After(w, run).rules == map[] && After(w, run).store == map[1 := dying]
  {
    var both := map[1 := dying, 2 := dead];
    var w := World(both, map[], both, Idle, Running, false, 0);
    var w1 := Next(w, BeginFlush);
    var w2 := Next(w1, Drain);
    assert WithDeltas(both, map[]) == both;
    var w3 := Next(w2, Merge(true));
    assert 2 in w3.rules && IsExpired(w3.rules[2], 1999);
    var w4 := Next(w3, Expire(1999, 2000));
    assert w4.rules == map[];
    var w5 := Next(w4, Purge(true));
    assert w5.store == map[1 := dying];
    var run := [BeginFlush, Drain, Merge(true), Expire(1999, 2000), Purge(true)];
    assert run[1..] == [Drain, Merge(true), Expire(1999, 2000), Purge(true)];
    assert run[1..][1..] == [Merge(true), Expire(1999, 2000), Purge(true)];
    assert run[1..][1..][1..] == [Expire(1999, 2000), Purge(true)];
    assert run[1..][1..][1..][1..] == [Purge(true)];
    assert After(w4, [Purge(true)]) == After(w5, []);
    assert Executable(w4, [Purge(true)]);
    assert Executable(w3, run[1..][1..][1..]);
    assert Executable(w2, run[1..][1..]);
    assert Executable(w1, run[1..]);
  }

  /** Equal copies stay equal through an expiry exactly when no deadline lies between the two clock reads. */
  lemma ExpiryPartsTheCopies(w: World, checkedAt: int, droppedAt: int)
    requires w.phase.FlushMerged? && w.rules == w.store
    requires exists id :: id in w.rules && IsExpired(w.rules[id], checkedAt)
    ensures var end := Next(Next(w, Expire(checkedAt, droppedAt)), Purge(true));
            end.phase.Idle? && (end.lost <==> w.lost)
            && (end.rules == end.store <==>
                forall id | id in w.rules :: IsExpired(w.rules[id], checkedAt) <==> IsExpired(w.rules[id], droppedAt))
  {
    var dropped, purged := Unexpired(w.rules, droppedAt), Unexpired(w.store, checkedAt);
    forall id | id in w.rules && dropped == purged
      ensures IsExpired(w.rules[id], checkedAt) <==> IsExpired(w.rules[id], droppedAt)
    {
      assert id in dropped <==> id in purged;
    }
  }

  // ---- Where shutdown and a rule write meet ------------------------------------------------

  /** Some hits of the rule are pending and there is room to count them. */
  predicate Owes(rule: Rule, hits: Deltas) {
    rule.id in hits && hits[rule.id] > 0 && rule.hitCount < U64_MAX
  }

  /** Between the shutdown's drain and its merge the copies differ, unless there was nothing to drain. */
  lemma DrainAloneParts(w: World)
    requires w.phase.Idle? && w.shutdown.Running? && w.rules == w.store && KeyedById(w.rules)
    ensures var n := Next(w, FinalDrain);
            n.rules == n.store <==> forall id | id in w.rules :: !Owes(w.rules[id], w.hits)
  {
    var drained := WithDeltas(w.rules, w.hits);
    forall id | id in w.rules ensures drained[id] == w.rules[id] <==> !Owes(w.rules[id], w.hits) {
    }
    assert drained == w.rules <==> forall id | id in w.rules :: drained[id] == w.rules[id];
  }

  lemma RestoringKeepsScope(rules: RuleMap, rule: Rule)
    ensures Restored(rules, rule).scope == rule.scope && Restored(rules, rule).id == rule.id
  {
  }

  lemma OneStep(w: World, s: Step, rest: seq<Step>)
    ensures After(w, [s] + rest) == After(Next(w, s), rest)
    ensures Executable(w, [s] + rest) <==> Enabled(w, s) && Executable(Next(w, s), rest)
  {
    assert ([s] + rest)[1..] == rest;
  }

  lemma SixSteps(w: World, a: Step, b: Step, c: Step, d: Step, e: Step, f: Step)
    ensures var run := [a, b, c, d, e, f];
            var w1 := Next(w, a); var w2 := Next(w1, b); var w3 := Next(w2, c);
            var w4 := Next(w3, d); var w5 := Next(w4, e);
            && After(w, run) == Next(w5, f)
            && (Executable(w, run) <==>
                && Enabled(w, a) && Enabled(w1, b) && Enabled(w2, c)
                && Enabled(w3, d) && Enabled(w4, e) && Enabled(w5, f))
  {
    hide Next, Enabled;
    var w1 := Next(w, a); var w2 := Next(w1, b); var w3 := Next(w2, c);
    var w4 := Next(w3, d); var w5 := Next(w4, e);
    assert [a, b, c, d, e, f] == [a] + ([b] + ([c] + ([d] + ([e] + ([f] + [])))));
    OneStep(w, a, [b] + ([c] + ([d] + ([e] + ([f] + [])))));
    OneStep(w1, b, [c] + ([d] + ([e] + ([f] + []))));
    OneStep(w2, c, [d] + ([e] + ([f] + [])));
    OneStep(w3, d, [e] + ([f] + []));
    OneStep(w4, e, [f] + []);
    OneStep(w5, f, []);
  }

  // What pairs of steps amount to.

  lemma UpsertBegins(w: World, rule: Rule)
    requires w.phase.Idle?
    ensures Enabled(w, BeginUpsert(rule)) && Enabled(Next(w, BeginUpsert(rule)), Prepare)
    ensures Next(Next(w, BeginUpsert(rule)), Prepare) == w.(phase := UpsertPrepared(Restored(w.rules, rule)))
  {
    hide Restored;
  }

  lemma UpsertEnds(w: World)
    requires w.phase.UpsertPrepared? && w.phase.rule.scope.dstHost.None?
    ensures Enabled(w, Store(true)) && Enabled(Next(w, Store(true)), Publish)
    ensures var rule := w.phase.rule;
            Next(Next(w, Store(true)), Publish)
            == w.(rules := w.rules[rule.id := rule], store := w.store[rule.id := rule], phase := Idle)
  {
  }

  lemma ShutdownDrains(w: World)
    requires w.shutdown.Running?
    ensures Enabled(w, FinalDrain)
    ensures Next(w, FinalDrain) == w.(rules := WithDeltas(w.rules, w.hits), hits := map[], shutdown := Drained(w.hits))
  {
    hide WithDeltas;
  }

  lemma ShutdownMerges(w: World)
    requires w.shutdown.Drained?
    ensures Enabled(w, FinalMerge(true))
    ensures Next(w, FinalMerge(true)) == w.(store := WithDeltas(w.store, w.shutdown.deltas), shutdown := Flushed)
  {
    hide WithDeltas;
  }

  /** An upsert begun and finished between the shutdown's drain and its merge. */
  function UpsertInBetween(w: World, rule: Rule): World {
    var drained := Next(w, FinalDrain);
    var stored := Next(Next(Next(drained, BeginUpsert(rule)), Prepare), Store(true));
    Next(Next(stored, Publish), FinalMerge(true))
  }

  lemma UpsertInBetweenIs(w: World, rule: Rule)
    requires w.phase.Idle? && w.shutdown.Running? && rule.scope.dstHost.None?
    ensures var kept := Restored(WithDeltas(w.rules, w.hits), rule);
            UpsertInBetween(w, rule)
            == w.(rules := WithDeltas(w.rules, w.hits)[rule.id := kept], hits := map[],
                  store := WithDeltas(w.store[rule.id := kept], w.hits), shutdown := Flushed)
    ensures var run := [FinalDrain, BeginUpsert(rule), Prepare, Store(true), Publish, FinalMerge(true)];
            Executable(w, run) && After(w, run) == UpsertInBetween(w, rule)
  {
    hide WithDeltas, Restored, Next, Enabled, Executable, After;
    RestoringKeepsScope(WithDeltas(w.rules, w.hits), rule);
    var drained := Next(w, FinalDrain);
    var prepared := Next(Next(drained, BeginUpsert(rule)), Prepare);
    var published := Next(Next(prepared, Store(true)), Publish);
    ShutdownDrains(w);
    UpsertBegins(drained, rule);
    UpsertEnds(prepared);
    ShutdownMerges(published);
    SixSteps(w, FinalDrain, BeginUpsert(rule), Prepare, Store(true), Publish, FinalMerge(true));
  }

  lemma TwiceIff(rules: RuleMap, kept: Rule, hits: Deltas)
    ensures WithDeltas(rules, hits)[kept.id := kept] == WithDeltas(rules[kept.id := kept], hits) <==> !Owes(kept, hits)
  {
    if Owes(kept, hits) {
      assert WithDeltas(rules[kept.id := kept], hits)[kept.id] != kept;
    } else {
      DeltasOfUpdate(rules, kept, hits);
    }
  }

  /** It leaves the copies equal exactly when none of its rule's hits were drained; else the store counts them twice. */
  lemma UpsertInBetweenParts(w: World, rule: Rule)
    requires w.phase.Idle? && w.shutdown.Running? && w.rules == w.store && rule.scope.dstHost.None?
    ensures var end := UpsertInBetween(w, rule);
            var kept := Restored(WithDeltas(w.rules, w.hits), rule);
            && end.phase.Idle? && end.shutdown.Flushed? && end.lost == w.lost
            && (end.rules == end.store <==> !Owes(kept, w.hits))
  {
    hide WithDeltas, Restored, Owes, UpsertInBetween;
    RestoringKeepsScope(WithDeltas(w.rules, w.hits), rule);
    UpsertInBetweenIs(w, rule);
    TwiceIff(w.rules, Restored(WithDeltas(w.rules, w.hits), rule), w.hits);
  }

  /** The shutdown's drain and merge, both between an upsert's reading of the counts and its write. */
  function ShutdownInBetween(w: World, rule: Rule): World {
    var prepared := Next(Next(w, BeginUpsert(rule)), Prepare);
    var flushed := Next(Next(prepared, FinalDrain), FinalMerge(true));
    Next(Next(flushed, Store(true)), Publish)
  }

  lemma ShutdownInBetweenIs(w: World, rule: Rule)
    requires w.phase.Idle? && w.shutdown.Running? && rule.scope.dstHost.None?
    ensures var kept := Restored(w.rules, rule);
            ShutdownInBetween(w, rule)
            == w.(rules := WithDeltas(w.rules, w.hits)[rule.id := kept], hits := map[],
                  store := WithDeltas(w.store, w.hits)[rule.id := kept], shutdown := Flushed)
    ensures var run := [BeginUpsert(rule), Prepare, FinalDrain, FinalMerge(true), Store(true), Publish];
            Executable(w, run) && After(w, run) == ShutdownInBetween(w, rule)
  {
    hide WithDeltas, Restored, Next, Enabled, Executable, After;
    RestoringKeepsScope(w.rules, rule);
    var prepared := Next(Next(w, BeginUpsert(rule)), Prepare);
    var drained := Next(prepared, FinalDrain);
    UpsertBegins(w, rule);
    ShutdownDrains(prepared);
    ShutdownMerges(drained);
    UpsertEnds(Next(drained, FinalMerge(true)));
    SixSteps(w, BeginUpsert(rule), Prepare, FinalDrain, FinalMerge(true), Store(true), Publish);
  }

  /** The copies stay equal; the rule keeps its visible count exactly when none of its hits were drained. */
  lemma ShutdownInBetweenLoses(w: World, rule: Rule)
    requires w.phase.Idle? && w.shutdown.Running? && w.rules == w.store && rule.scope.dstHost.None?
    requires rule.id in w.rules && w.rules[rule.id].id == rule.id
    ensures var end := ShutdownInBetween(w, rule);
            && end.phase.Idle? && end.shutdown.Flushed? && end.lost == w.lost && end.rules == end.store
            && rule.id in end.rules && Visible(end, rule.id) == w.rules[rule.id].hitCount
            && (Visible(end, rule.id) == Visible(w, rule.id) <==> !Owes(w.rules[rule.id], w.hits))
  {
    hide WithDeltas, ShutdownInBetween;
    ShutdownInBetweenIs(w, rule);
  }

  /** The daemon with one rule and one hit on it not yet flushed. */
  function OneHit(rule: Rule): World {
    World(map[1 := rule], map[1 := 1], map[1 := rule], Idle, Running, false, 0)
  }

  /** One hit, one upsert, one shutdown: the engine counts it once and the store twice. */
  lemma ShutdownCanCountTwice(rule: Rule)
    requires rule.id == 1 && rule.hitCount == 0 && rule.scope.dstHost.None?
    ensures var run := [FinalDrain, BeginUpsert(rule), Prepare, Store(true), Publish, FinalMerge(true)];
            var end := After(OneHit(rule), run);
            && Executable(OneHit(rule), run) && AtRest(end)
            && 1 in end.rules && end.rules[1].hitCount == 1 && 1 in end.store && end.store[1].hitCount == 2
  {
    hide Executable, After, UpsertInBetween;
    UpsertInBetweenIs(OneHit(rule), rule);
  }

  /** The same three, interleaved otherwise: the hit is lost in both copies. */
  lemma ShutdownCanLoseAHit(rule: Rule)
    requires rule.id == 1 && rule.hitCount == 0 && rule.scope.dstHost.None?
    ensures var run := [BeginUpsert(rule), Prepare, FinalDrain, FinalMerge(true), Store(true), Publish];
            var end := After(OneHit(rule), run);
            && Executable(OneHit(rule), run) && AtRest(end) && end.rules == end.store
            && Visible(OneHit(rule), 1) == 1 && 1 in end.rules && Visible(end, 1) == 0
  {
    hide Executable, After, ShutdownInBetween;
    ShutdownInBetweenIs(OneHit(rule), rule);
    ShutdownInBetweenLoses(OneHit(rule), rule);
  }

  /** That world is reached by one count from the start. */
  lemma OneHitIsReached(rule: Rule)
    requires rule.id == 1
    ensures var start := World(map[1 := rule], map[], map[1 := rule], Idle, Running, false, 0);
            Initial(start) && Executable(start, [CountHit(1)]) && After(start, [CountHit(1)]) == OneHit(rule)
  {
    var start := World(map[1 := rule], map[], map[1 := rule], Idle, Running, false, 0);
    assert [CountHit(1)] == [CountHit(1)] + [];
    OneStep(start, CountHit(1), []);
    assert Counted(map[], 1) == map[1 := 1];
  }

  // ---- The whole tick in one go ------------------------------------------------------------

  /** Uninterrupted, the machine's steps of a flush add up to the tick. */
  lemma TickInOneGo(w: World, checkedAt: int, droppedAt: int, merges: bool, purges: bool)
    requires w.phase.Idle?
    ensures var merged := Next(Next(Next(w, BeginFlush), Drain), Merge(merges));
            var expired := Next(merged, Expire(checkedAt, droppedAt));
            var end := if expired.phase.Idle? then expired else Next(expired, Purge(purges));
            end.phase.Idle? && end.hits == map[]
            && (end.rules, end.store) == Ticked(w.rules, w.hits, w.store, checkedAt, droppedAt, merges, purges)
  {
    hide WithDeltas, Unexpired, IsExpired;
  }

  /** An upsert nobody interrupts writes the rule, as restored, to both copies, or changes nothing. */
  lemma UpsertInOneGo(w: World, rule: Rule, commits: bool)
    requires w.phase.Idle?
    ensures Enabled(w, BeginUpsert(rule)) && Enabled(Next(w, BeginUpsert(rule)), Prepare)
    ensures var prepared := Next(Next(w, BeginUpsert(rule)), Prepare);
            var held := Restored(w.rules, rule);
            && Enabled(prepared, Store(commits))
            && (commits && rule.scope.dstHost == None ==>
                  && Enabled(Next(prepared, Store(commits)), Publish)
                  && Next(Next(prepared, Store(commits)), Publish)
                     == w.(rules := w.rules[rule.id := held], store := w.store[rule.id := held]))
            && (!(commits && rule.scope.dstHost == None) ==> Next(prepared, Store(commits)) == w)
  {
  }

  /** A deletion removes the row and, if there was one, the rule. */
  lemma DeleteInOneGo(w: World, id: RuleId, commits: bool)
    requires w.phase.Idle?
    ensures var asked := Next(w, BeginDelete(id));
            && Enabled(w, BeginDelete(id)) && Enabled(asked, Store(commits))
            && (commits ==>
                  && Enabled(Next(asked, Store(commits)), Publish)
                  && Next(Next(asked, Store(commits)), Publish)
                     == w.(store := w.store - {id}, rules := if id in w.store then w.rules - {id} else w.rules))
            && (!commits ==> Next(asked, Store(commits)) == w)
  {
  }

  /** The shutdown flush adds every pending delta to the rules and, if it commits or adds nothing, to the rows. */
  lemma ShutdownInOneGo(w: World, commits: bool)
    requires w.shutdown.Running?
    ensures var drained := Next(w, FinalDrain);
            && Enabled(w, FinalDrain) && Enabled(drained, FinalMerge(commits))
            && Next(drained, FinalMerge(commits))
               == if commits || w.hits == map[]
                  then w.(rules := WithDeltas(w.rules, w.hits), store := WithDeltas(w.store, w.hits), hits := map[],
                          shutdown := Flushed)
                  else w.(rules := WithDeltas(w.rules, w.hits), hits := map[], shutdown := Flushed, lost := true)
  {
    hide WithDeltas;
  }

  lemma RestoringAgain(rules: RuleMap, batch: RuleMap, replace: bool, hits: Deltas)
    requires KeyedById(rules) && KeyedById(batch)
    ensures var held := ReplacedBy(rules, batch);
            var others := if replace then map[] else WithDeltas(rules, hits) - held.Keys;
            ReplacedBy(rules, others + held) == Over(rules, held, replace)
  {
  }

  /**
   * A batch goes over both copies, or in their place, with count and creation time as held, and other
   * rules keep theirs; pending deltas of rules that are gone go too. Or nothing changes.
   */
  lemma BatchInOneGo(w: World, batch: RuleMap, replace: bool, commits: bool)
    requires w.phase.Idle? && KeyedById(batch) && KeyedById(w.rules)
    ensures Enabled(w, BeginBatch(batch, replace)) && Enabled(Next(w, BeginBatch(batch, replace)), Prepare)
    ensures var prepared := Next(Next(w, BeginBatch(batch, replace)), Prepare);
            var held := ReplacedBy(w.rules, batch);
            var writes := commits && forall id | id in batch :: batch[id].scope.dstHost == None;
            && Enabled(prepared, Store(commits))
            && (!writes ==> Next(prepared, Store(commits)) == w)
            && (writes ==>
                  && Enabled(Next(prepared, Store(commits)), ReadBatch)
                  && Enabled(Next(Next(prepared, Store(commits)), ReadBatch), Publish)
                  && var end := Next(Next(Next(prepared, Store(commits)), ReadBatch), Publish);
                     && end.store == (if replace then map[] else w.store) + held
                     && end.rules == (if replace then map[] else w.rules) + held
                     && end.hits == (map id | id in w.hits && id in end.rules :: w.hits[id])
                     && end == w.(store := end.store, rules := end.rules, hits := end.hits))
  {
    hide WithDeltas, ReplacedBy, KeyedById, WritesBatch, Over, Next, Enabled;
    BatchIsPrepared(w, batch, replace);
    BatchIsStored(w, batch, replace, commits);
    if commits && forall id | id in batch :: batch[id].scope.dstHost == None {
      BatchIsPublished(w, batch, replace);
    }
  }

  lemma BatchIsPrepared(w: World, batch: RuleMap, replace: bool)
    requires w.phase.Idle? && KeyedById(batch)
    ensures Enabled(w, BeginBatch(batch, replace)) && Enabled(Next(w, BeginBatch(batch, replace)), Prepare)
    ensures Next(Next(w, BeginBatch(batch, replace)), Prepare)
            == w.(phase := BatchPrepared(ReplacedBy(w.rules, batch), replace))
  {
    hide ReplacedBy, KeyedById;
  }

  lemma BatchIsStored(w: World, batch: RuleMap, replace: bool, commits: bool)
    requires w.phase.Idle?
    ensures var held := ReplacedBy(w.rules, batch);
            var prepared := w.(phase := BatchPrepared(held, replace));
            && Enabled(prepared, Store(commits))
            && Next(prepared, Store(commits))
               == if commits && forall id | id in batch :: batch[id].scope.dstHost == None
                  then w.(store := (if replace then map[] else w.store) + held, phase := BatchStored(held, replace))
                  else w
  {
    BatchHeld(w.rules, batch, commits);
    hide ReplacedBy, WritesBatch;
  }

  lemma BatchIsPublished(w: World, batch: RuleMap, replace: bool)
    requires w.phase.Idle? && KeyedById(batch) && KeyedById(w.rules)
    ensures var held := ReplacedBy(w.rules, batch);
            var rules := (if replace then map[] else w.rules) + held;
            var stored := w.(store := (if replace then map[] else w.store) + held, phase := BatchStored(held, replace));
            && Enabled(stored, ReadBatch) && Enabled(Next(stored, ReadBatch), Publish)
            && Next(Next(stored, ReadBatch), Publish)
               == w.(store := stored.store, rules := rules,
                     hits := map id | id in w.hits && id in rules :: w.hits[id])
  {
    var held := ReplacedBy(w.rules, batch);
    var stored := w.(store := (if replace then map[] else w.store) + held, phase := BatchStored(held, replace));
    RestoringAgain(w.rules, batch, replace, w.hits);
    BatchIsRead(stored);
    var others := if replace then map[] else WithDeltas(w.rules, w.hits) - held.Keys;
    FinalIsPublished(stored, others + held);
    SameKeys(w.rules, others + held);
    hide Next, Enabled, WithDeltas, ReplacedBy, KeyedById;
    Retains(w.hits, (others + held).Keys);
  }

  lemma Retains(hits: Deltas, ids: set<RuleId>)
    ensures Retained(hits, ids) == map id | id in hits && id in ids :: hits[id]
  {
  }

  lemma BatchIsRead(w: World)
    requires w.phase.BatchStored?
    ensures Enabled(w, ReadBatch)
    ensures Next(w, ReadBatch)
            == w.(phase := BatchRead((if w.phase.replace then map[]
                                      else WithDeltas(w.rules, w.hits) - w.phase.batch.Keys) + w.phase.batch))
  {
    hide WithDeltas;
  }

  lemma FinalIsPublished(w: World, final: RuleMap)
    ensures var read := w.(phase := BatchRead(final));
            && Enabled(read, Publish)
            && Next(read, Publish)
               == w.(rules := ReplacedBy(w.rules, final), hits := Retained(w.hits, final.Keys), phase := Idle)
  {
    hide ReplacedBy, Retained;
  }

  lemma BatchHeld(rules: RuleMap, batch: RuleMap, commits: bool)
    ensures WritesBatch(ReplacedBy(rules, batch), commits) <==>
              commits && forall id | id in batch :: batch[id].scope.dstHost == None
  {
    var held := ReplacedBy(rules, batch);
    forall id | id in batch ensures id in held && held[id].scope == batch[id].scope {
    }
  }

  lemma SameKeys(rules: RuleMap, batch: RuleMap)
    ensures ReplacedBy(rules, batch).Keys == batch.Keys
  {
  }

  // ---- Conservation ---------------------------------------------------------------------

  function Pending(w: World, id: RuleId): nat {
    if id in w.hits then w.hits[id] else 0
  }

  /** The count a snapshot shows for a rule. */
  function Visible(w: World, id: RuleId): u64
    requires id in w.rules
  {
    SaturatingAdd(w.rules[id].hitCount, Pending(w, id))
  }

  /** A snapshot shows exactly these counts. */
  lemma SnapshotShowsVisible(w: World, id: RuleId)
    requires id in w.rules
    ensures WithDeltas(w.rules, w.hits)[id].hitCount == Visible(w, id)
  {
  }

  function Hits(run: seq<Step>, id: RuleId): nat {
    if run == [] then 0 else (if run[0] == CountHit(id) then 1 else 0) + Hits(run[1..], id)
  }

  ghost predicate LiveThroughout(w: World, run: seq<Step>, id: RuleId)
    decreases |run|
  {
    id in w.rules && (run == [] || LiveThroughout(Next(w, run[0]), run[1..], id))
  }

  /** One count adds exactly one, saturating, unless the 64-bit delta wraps over it. */
  lemma CountAddsOne(w: World, id: RuleId)
    requires id in w.rules
    ensures Visible(Next(w, CountHit(id)), id) == SaturatingAdd(Visible(w, id), 1)
            <==> Pending(w, id) < 0xffff_ffff_ffff_ffff || w.rules[id].hitCount == 0xffff_ffff_ffff_ffff
  {
  }

  /** At that width a count is not added but resets what was pending. */
  lemma CountCanWrap(w: World, id: RuleId)
    requires id in w.rules && w.rules[id].hitCount == 0 && id in w.hits && w.hits[id] == 0xffff_ffff_ffff_ffff
    ensures Visible(w, id) == 0xffff_ffff_ffff_ffff && Visible(Next(w, CountHit(id)), id) == 0
  {
  }

  // Counts are the engine's alone: these results ask nothing of the store.

  /** What is about to be published is keyed by id. */
  ghost predicate Keyed(w: World) {
    && KeyedById(w.rules)
    && match w.phase
       case BatchLocked(batch, _) => KeyedById(batch)
       case BatchPrepared(batch, _) => KeyedById(batch)
       case BatchStored(batch, _) => KeyedById(batch)
       case BatchRead(final) => KeyedById(final)
       case _ => true
  }

  lemma KeyedMaps(m: RuleMap, deltas: Deltas, now: int, ids: set<RuleId>, batch: RuleMap)
    requires KeyedById(m) && KeyedById(batch)
    ensures KeyedById(WithDeltas(m, deltas)) && KeyedById(Unexpired(m, now)) && KeyedById(m - ids)
    ensures KeyedById(m + batch) && KeyedById(ReplacedBy(m, batch))
  {
  }

  lemma KeyedUpdate(m: RuleMap, rule: Rule)
    requires KeyedById(m)
    ensures KeyedById(m[rule.id := rule])
  {
  }

  lemma StepKeepsKeyed(w: World, s: Step)
    requires Keyed(w) && Enabled(w, s)
    ensures Keyed(Next(w, s))
  {
    hide KeyedById, WithDeltas, Unexpired, ReplacedBy, Over;
    NothingIsKeyed();
    match s {
      case Drain => KeyedMaps(w.rules, w.hits, 0, {}, map[]);
      case FinalDrain => KeyedMaps(w.rules, w.hits, 0, {}, map[]);
      case Expire(_, droppedAt) => KeyedMaps(w.rules, map[], droppedAt, {}, map[]);
      case Prepare => PrepareKeepsKeyed(w);
      case ReadBatch =>
        var seen := WithDeltas(w.rules, w.hits);
        KeyedMaps(w.rules, w.hits, 0, {}, map[]);
        KeyedMaps(seen, map[], 0, w.phase.batch.Keys, map[]);
        KeyedMaps(if w.phase.replace then map[] else seen - w.phase.batch.Keys, map[], 0, {}, w.phase.batch);
      case Publish => PublishKeepsKeyed(w);
      case _ =>
    }
  }

  lemma NothingIsKeyed()
    ensures KeyedById(map[])
  {
  }

  lemma PrepareKeepsKeyed(w: World)
    requires Keyed(w) && Enabled(w, Prepare)
    ensures Keyed(Next(w, Prepare))
  {
    hide KeyedById, ReplacedBy;
    if w.phase.BatchLocked? {
      KeyedMaps(w.rules, map[], 0, {}, w.phase.batch);
    }
  }

  lemma PublishKeepsKeyed(w: World)
    requires Keyed(w) && Enabled(w, Publish)
    ensures Keyed(PublishStep(w))
  {
    hide KeyedById, ReplacedBy;
    NothingIsKeyed();
    match w.phase {
      case UpsertStored(rule) => KeyedUpdate(w.rules, rule);
      case BatchRead(final) => KeyedMaps(w.rules, map[], 0, {}, final);
      case DeleteStored(id, _) => KeyedMaps(w.rules, map[], 0, {id}, map[]);
    }
  }

  /** A lock holder has an upsert of this very rule in hand. */
  predicate Upserting(w: World, id: RuleId) {
    (w.phase.UpsertPrepared? || w.phase.UpsertStored?) && w.phase.rule.id == id
  }

  /** An upsert in hand still carries the count and creation time its rule has. */
  predicate Current(w: World, id: RuleId) {
    Upserting(w, id) && id in w.rules ==>
      w.phase.rule.hitCount == w.rules[id].hitCount && w.phase.rule.createdAt == w.rules[id].createdAt
  }

  /** The shutdown flush drains no hits of a rule while an upsert of it is in hand. */
  predicate DrainsBeside(w: World, s: Step, id: RuleId) {
    s.FinalDrain? && Upserting(w, id) ==> SaturatingAdd(w.phase.rule.hitCount, Pending(w, id)) == w.phase.rule.hitCount
  }

  ghost predicate AllBeside(w: World, run: seq<Step>, id: RuleId)
    decreases |run|
  {
    run == [] || (DrainsBeside(w, run[0], id) && AllBeside(Next(w, run[0]), run[1..], id))
  }

  lemma StepKeepsCurrent(w: World, s: Step, id: RuleId)
    requires Keyed(w) && Current(w, id) && Enabled(w, s) && DrainsBeside(w, s, id)
    requires id in w.rules && id in Next(w, s).rules
    ensures Current(Next(w, s), id)
  {
    hide Unexpired, ReplacedBy, KeyedById;
  }

  /** No other step changes the visible count or the creation time of a rule that stays. */
  lemma OtherStepsKeepCounts(w: World, s: Step, id: RuleId)
    requires Keyed(w) && Current(w, id) && Enabled(w, s) && s != CountHit(id)
    requires id in w.rules && id in Next(w, s).rules
    ensures Visible(Next(w, s), id) == Visible(w, id)
    ensures Next(w, s).rules[id].createdAt == w.rules[id].createdAt
    ensures Pending(Next(w, s), id) <= Pending(w, id)
  {
    hide StoreStep, PublishStep, KeyedById;
    if s.Publish? {
      PublishKeepsCount(w, id);
    } else if s.Store? {
      StoreKeepsCount(w, s.commits);
    }
  }

  lemma PublishKeepsCount(w: World, id: RuleId)
    requires Keyed(w) && Current(w, id) && Enabled(w, Publish)
    requires id in w.rules && id in PublishStep(w).rules
    ensures Visible(PublishStep(w), id) == Visible(w, id)
    ensures PublishStep(w).rules[id].createdAt == w.rules[id].createdAt
    ensures Pending(PublishStep(w), id) <= Pending(w, id)
  {
  }

  lemma StoreKeepsCount(w: World, commits: bool)
    ensures StoreStep(w, commits).rules == w.rules && StoreStep(w, commits).hits == w.hits
  {
  }

  /**
   * Hits are conserved. Over any interleaving of counting with flushes, upserts (whatever count
   * the client sends), batch replacements, deletions and the shutdown flush, a rule that stays live
   * shows its first count plus the hits counted on it, and keeps its creation time; provided the
   * shutdown flush drains no hits of it while an upsert of that rule is in hand.
   */
  lemma {:induction false} HitsAreConserved(w: World, run: seq<Step>, id: RuleId)
    requires Keyed(w) && Current(w, id) && Executable(w, run) && LiveThroughout(w, run, id) && AllBeside(w, run, id)
    requires Pending(w, id) + Hits(run, id) <= 0xffff_ffff_ffff_ffff
    ensures id in After(w, run).rules
    ensures Visible(After(w, run), id) == SaturatingAdd(Visible(w, id), Hits(run, id))
    ensures After(w, run).rules[id].createdAt == w.rules[id].createdAt
    decreases |run|
  {
    hide Keyed, Current, DrainsBeside;
    if run == [] {
    } else {
      StepKeepsKeyed(w, run[0]);
      StepKeepsCurrent(w, run[0], id);
      if run[0] == CountHit(id) {
        CountAddsOne(w, id);
      } else {
        OtherStepsKeepCounts(w, run[0], id);
      }
      HitsAreConserved(Next(w, run[0]), run[1..], id);
    }
  }
}
