/**
 * The prompt router as concurrent tasks over one `pending` map. A user's answer, the timeout
 * sweeper, the no-audience fast path and the vanished-receiver reclaim race for each prompt;
 * whoever takes the id out of the map is the one that sends its verdict.
 */
module PromptRouter {
  import opened CoreTypes

  type PromptId = u64
  type Uid = u32
  type SubId = nat

  /** Kept with a pending prompt: which image an Allow would be bound to. */
  datatype Binding = Binding(exe: Option<string>, hashExpected: bool, sha256: Option<string>)

  datatype PromptVerdict = PromptVerdict(promptId: PromptId, verdict: Verdict)

  /** Whether a subscriber may see prompts of this owner. */
  predicate ShouldDeliver(owner: Option<Uid>, subscriber: Uid) {
    subscriber == 0 || owner.None? || owner.value == subscriber
  }

  // ---- State -----------------------------------------------------------------------

  /** What the call that enqueues a prompt does next. */
  datatype Caller =
    | Start(owner: Option<Uid>, binding: Binding)
    | AnswerNoUi
    | Insert(binding: Binding)
    | CountUp
    | Broadcast
    | Reclaim
    | Arm

  /** A resolver that took an id out of `pending`: whether it has counted down, and what it will send. */
  datatype Holder = Holder(counted: bool, answer: Answer)

  /** A user's verdict is fixed; the policy paths read the policy when they send. */
  datatype Answer = ByUser(verdict: Verdict) | ByTimeout | ByNoUi

  datatype Subscription = Subscription(uid: Option<Uid>, registered: bool, receiving: bool)

  datatype RouterState = RouterState(
    pending: map<PromptId, Binding>,
    counter: u64,
    sent: seq<PromptVerdict>,
    callers: map<PromptId, Caller>,
    sweepers: set<PromptId>,
    holders: map<PromptId, Holder>,
    enqueued: set<PromptId>,
    subscribers: map<Uid, nat>,
    subscriptions: map<SubId, Subscription>,
    policy: Policy)

  function Initial(policy: Policy): RouterState {
    RouterState(map[], 0, [], map[], {}, map[], {}, map[], map[], policy)
  }

  function Incremented(counter: u64): u64 {
    (counter + 1) % U64_LIMIT
  }

  function Decremented(counter: u64): u64 {
    (counter + U64_LIMIT - 1) % U64_LIMIT
  }

  predicate HasAudience(subscribers: map<Uid, nat>, owner: Option<Uid>) {
    exists uid :: uid in subscribers && ShouldDeliver(owner, uid)
  }

  /** Only root and the owner may see an owned prompt; anyone may see one without an owner. */
  lemma AudienceIs(subscribers: map<Uid, nat>, owner: Uid)
    ensures HasAudience(subscribers, None) <==> subscribers != map[]
    ensures HasAudience(subscribers, Some(owner)) <==> 0 in subscribers || owner in subscribers
  {
    if subscribers != map[] {
      var uid :| uid in subscribers;
      assert ShouldDeliver(None, uid);
    }
    if uid :| uid in subscribers && (uid == 0 || uid == owner) {
      assert ShouldDeliver(Some(owner), uid);
    }
  }

  predicate HasReceiver(subscriptions: map<SubId, Subscription>) {
    exists s :: s in subscriptions && subscriptions[s].receiving
  }

  function Registered(subscribers: map<Uid, nat>, uid: Uid): map<Uid, nat> {
    subscribers[uid := (if uid in subscribers then subscribers[uid] else 0) + 1]
  }

  function Unregistered(subscribers: map<Uid, nat>, uid: Uid): map<Uid, nat> {
    if uid !in subscribers then subscribers
    else if subscribers[uid] <= 1 then subscribers - {uid}
    else subscribers[uid := subscribers[uid] - 1]
  }

  function PolicyVerdict(action: Action): Verdict {
    Verdict(action, DefaultPolicy)
  }

  // ---- Steps -----------------------------------------------------------------------

  datatype Step =
    | Enqueue(id: PromptId, owner: Option<Uid>, binding: Binding)
    | Advance(id: PromptId)                      // one atomic action of the enqueueing call
    | Submit(id: PromptId, verdict: Verdict)     // a user's answer reaches the map
    | Sweep(id: PromptId)                        // a sweeper's timer fires
    | CountDown(id: PromptId)                    // a resolver decrements the counter
    | Send(id: PromptId)                         // a resolver sends
    | Register(sub: SubId, uid: Option<Uid>)     // subscribe: census first
    | Attach(sub: SubId)                         // subscribe: broadcast receiver
    | Unregister(sub: SubId)                     // drop: census first
    | Detach(sub: SubId)                         // drop: broadcast receiver
    | Reload(policy: Policy)

  predicate Enabled(r: RouterState, s: Step) {
    match s
    case Enqueue(id, _, _) => id !in r.enqueued
    case Advance(id) => id in r.callers
    case Submit(_, _) => true
    case Sweep(id) => id in r.sweepers
    case CountDown(id) => id in r.holders && !r.holders[id].counted
    case Send(id) => id in r.holders && r.holders[id].counted
    case Register(sub, _) => sub !in r.subscriptions
    case Attach(sub) => sub in r.subscriptions
    case Unregister(sub) => sub in r.subscriptions && r.subscriptions[sub].registered
    case Detach(sub) => sub in r.subscriptions && !r.subscriptions[sub].registered
    case Reload(_) => true
  }

  /** Takes `id` out of the map if it is still there; only then is there anything to send. */
  function TakeOut(r: RouterState, id: PromptId, answer: Answer): RouterState {
    if id in r.pending
    then r.(pending := r.pending - {id}, holders := r.holders[id := Holder(false, answer)])
    else r
  }

  function AdvanceStep(r: RouterState, id: PromptId): RouterState
    requires id in r.callers
  {
    match r.callers[id]
    case Start(owner, binding) =>
      r.(callers := r.callers[id := if HasAudience(r.subscribers, owner) then Insert(binding) else AnswerNoUi])
    case AnswerNoUi =>
      r.(sent := r.sent + [PromptVerdict(id, PolicyVerdict(r.policy.noUiAction))], callers := r.callers - {id})
    case Insert(binding) =>
      r.(pending := r.pending[id := binding], callers := r.callers[id := CountUp])
    case CountUp =>
      r.(counter := Incremented(r.counter), callers := r.callers[id := Broadcast])
    case Broadcast =>
      r.(callers := r.callers[id := if HasReceiver(r.subscriptions) then Arm else Reclaim])
    case Reclaim =>
      TakeOut(r.(callers := r.callers - {id}), id, ByNoUi)
    case Arm =>
      r.(sweepers := r.sweepers + {id}, callers := r.callers - {id})
  }

  function AnswerOf(a: Answer, policy: Policy): Verdict {
    match a
    case ByUser(v) => v
    case ByTimeout => PolicyVerdict(policy.timeoutAction)
    case ByNoUi => PolicyVerdict(policy.noUiAction)
  }

  function Next(r: RouterState, s: Step): RouterState
    requires Enabled(r, s)
  {
    match s
    case Enqueue(id, owner, binding) =>
      r.(callers := r.callers[id := Start(owner, binding)], enqueued := r.enqueued + {id})
    case Advance(id) => AdvanceStep(r, id)
    case Submit(id, verdict) => TakeOut(r, id, ByUser(verdict))
    case Sweep(id) => TakeOut(r.(sweepers := r.sweepers - {id}), id, ByTimeout)
    case CountDown(id) =>
      r.(counter := Decremented(r.counter), holders := r.holders[id := r.holders[id].(counted := true)])
    case Send(id) =>
      r.(sent := r.sent + [PromptVerdict(id, AnswerOf(r.holders[id].answer, r.policy))], holders := r.holders - {id})
    case Register(sub, uid) =>
      r.(subscribers := if uid.Some? then Registered(r.subscribers, uid.value) else r.subscribers,
         subscriptions := r.subscriptions[sub := Subscription(uid, true, false)])
    case Attach(sub) =>
      r.(subscriptions := r.subscriptions[sub := r.subscriptions[sub].(receiving := true)])
    case Unregister(sub) =>
      var uid := r.subscriptions[sub].uid;
      r.(subscribers := if uid.Some? then Unregistered(r.subscribers, uid.value) else r.subscribers,
         subscriptions := r.subscriptions[sub := r.subscriptions[sub].(registered := false)])
    case Detach(sub) => r.(subscriptions := r.subscriptions - {sub})
    case Reload(policy) => r.(policy := policy)
  }

  predicate Executable(r: RouterState, run: seq<Step>)
    decreases |run|
  {
    run == [] || (Enabled(r, run[0]) && Executable(Next(r, run[0]), run[1..]))
  }

  function After(r: RouterState, run: seq<Step>): RouterState
    requires Executable(r, run)
    decreases |run|
  {
    if run == [] then r else After(Next(r, run[0]), run[1..])
  }

  // ---- Exactly once ------------------------------------------------------------------

  /** The caller has not yet shown the prompt to anyone. */
  predicate IsEarly(c: Caller) {
    c.Start? || c.AnswerNoUi? || c.Insert?
  }

  ghost function Early(callers: map<PromptId, Caller>): set<PromptId> {
    set id | id in callers && IsEarly(callers[id])
  }

  ghost function SentIds(sent: seq<PromptVerdict>): set<PromptId> {
    set v | v in sent :: v.promptId
  }

  ghost predicate SentOnce(sent: seq<PromptVerdict>) {
    forall i, j | 0 <= i < j < |sent| :: sent[i].promptId != sent[j].promptId
  }

  /** Every enqueued prompt is in exactly one place: in flight, pending, being resolved, or answered. */
  ghost predicate Placed(r: RouterState) {
    Partition(r.enqueued, Early(r.callers), r.pending.Keys, r.holders.Keys, r.sent)
  }

  ghost predicate Partition(all: set<PromptId>, early: set<PromptId>, pending: set<PromptId>, held: set<PromptId>,
                            sent: seq<PromptVerdict>)
  {
    && all == early + pending + held + SentIds(sent)
    && early !! pending !! held !! SentIds(sent)
    && SentOnce(sent)
  }

  ghost predicate AttendedTo(r: RouterState, id: PromptId) {
    && (id in r.callers || id in r.sweepers ==> id in r.enqueued)
    && (id in r.callers && IsEarly(r.callers[id]) ==> id !in r.sweepers)
    && (id in r.pending ==> id in r.callers || id in r.sweepers)
  }

  /** Only enqueued prompts have tasks, and no prompt is pending without a task to resolve it. */
  ghost predicate Attended(r: RouterState) {
    forall id: PromptId :: AttendedTo(r, id)
  }

  lemma SendOne(sent: seq<PromptVerdict>, v: PromptVerdict)
    ensures SentIds(sent + [v]) == SentIds(sent) + {v.promptId}
    ensures SentOnce(sent) && v.promptId !in SentIds(sent) ==> SentOnce(sent + [v])
  {
    var more := sent + [v];
    forall x ensures x in more <==> x in sent || x == v {
      assert more[|sent|] == v;
      if x in sent {
        var i :| 0 <= i < |sent| && sent[i] == x;
        assert more[i] == x;
      }
    }
    if SentOnce(sent) && v.promptId !in SentIds(sent) {
      forall i | 0 <= i < |sent| ensures sent[i].promptId != v.promptId {
        assert sent[i] in sent;
      }
    }
  }

  lemma KeysChange<V>(m: map<PromptId, V>, id: PromptId, v: V)
    ensures m[id := v].Keys == m.Keys + {id}
    ensures (m - {id}).Keys == m.Keys - {id}
  {
  }

  lemma EarlyChange(callers: map<PromptId, Caller>, id: PromptId, to: Caller)
    ensures Early(callers[id := to]) == if IsEarly(to) then Early(callers) + {id} else Early(callers) - {id}
    ensures Early(callers - {id}) == Early(callers) - {id}
  {
  }

  lemma SendMovesPlace(all: set<PromptId>, early: set<PromptId>, pending: set<PromptId>, held: set<PromptId>,
                       sent: seq<PromptVerdict>, v: PromptVerdict)
    requires Partition(all, early, pending, held, sent)
    requires v.promptId in early || v.promptId in held
    ensures Partition(all, early - {v.promptId}, pending, held - {v.promptId}, sent + [v])
  {
    hide SentOnce, SentIds;
    SendOne(sent, v);
  }

  lemma TakeOutKeepsPlaces(r: RouterState, id: PromptId, answer: Answer)
    requires Placed(r)
    ensures Placed(TakeOut(r, id, answer))
  {
    hide SentOnce, SentIds, Early;
    KeysChange(r.pending, id, Binding(None, false, None));
    KeysChange(r.holders, id, Holder(false, answer));
  }

  lemma AdvanceKeepsPlaces(r: RouterState, id: PromptId)
    requires Placed(r) && id in r.callers
    ensures Placed(AdvanceStep(r, id))
  {
    hide SentOnce, SentIds, HasAudience, HasReceiver, TakeOut, Early;
    var caller := r.callers[id];
    var n := AdvanceStep(r, id);
    EarlyChange(r.callers, id, if id in n.callers then n.callers[id] else Arm);
    EarlyMember(r.callers, id);
    match caller {
      case AnswerNoUi =>
        NotHeld(r, id);
        SendMovesPlace(r.enqueued, Early(r.callers), r.pending.Keys, r.holders.Keys, r.sent,
                       PromptVerdict(id, PolicyVerdict(r.policy.noUiAction)));
      case Insert(binding) =>
        KeysChange(r.pending, id, binding);
      case Reclaim =>
        assert Early(r.callers) - {id} == Early(r.callers);
        TakeOutKeepsPlaces(r.(callers := r.callers - {id}), id, ByNoUi);
      case _ =>
        assert n.enqueued == r.enqueued && n.pending == r.pending && n.holders == r.holders && n.sent == r.sent;
        assert Early(n.callers) == Early(r.callers);
    }
  }

  lemma EarlyMember(callers: map<PromptId, Caller>, id: PromptId)
    ensures id in Early(callers) <==> id in callers && IsEarly(callers[id])
  {
  }

  lemma NotHeld(r: RouterState, id: PromptId)
    requires Placed(r) && id in Early(r.callers)
    ensures r.holders.Keys - {id} == r.holders.Keys
  {
    hide SentOnce, SentIds, Early;
  }

  lemma StepKeepsPlaces(r: RouterState, s: Step)
    requires Placed(r) && Attended(r) && Enabled(r, s)
    ensures Placed(Next(r, s))
  {
    hide SentOnce, SentIds, TakeOut, AdvanceStep, Early;
    match s {
      case Enqueue(id, owner, binding) => EnqueueKeepsPlaces(r, id, Start(owner, binding));
      case Advance(id) => AdvanceKeepsPlaces(r, id);
      case Submit(id, verdict) => TakeOutKeepsPlaces(r, id, ByUser(verdict));
      case Sweep(id) => TakeOutKeepsPlaces(r.(sweepers := r.sweepers - {id}), id, ByTimeout);
      case CountDown(id) =>
        KeysChange(r.holders, id, r.holders[id].(counted := true));
        assert r.holders.Keys + {id} == r.holders.Keys;
      case Send(id) => SendKeepsPlaces(r, id);
      case _ =>
    }
  }

  lemma EnqueueKeepsPlaces(r: RouterState, id: PromptId, caller: Caller)
    requires Placed(r) && id !in r.enqueued && IsEarly(caller)
    ensures Placed(r.(callers := r.callers[id := caller], enqueued := r.enqueued + {id}))
  {
    hide SentOnce, SentIds, Early;
    EarlyChange(r.callers, id, caller);
  }

  lemma SendKeepsPlaces(r: RouterState, id: PromptId)
    requires Placed(r) && id in r.holders && r.holders[id].counted
    ensures Placed(Next(r, Send(id)))
  {
    hide SentOnce, SentIds, Early;
    KeysChange(r.holders, id, r.holders[id]);
    assert Early(r.callers) - {id} == Early(r.callers);
    SendMovesPlace(r.enqueued, Early(r.callers), r.pending.Keys, r.holders.Keys, r.sent,
                   PromptVerdict(id, AnswerOf(r.holders[id].answer, r.policy)));
  }

  /** A pending prompt is neither early nor held. */
  ghost predicate Apart(r: RouterState) {
    forall id | id in r.pending :: id !in r.holders && !(id in r.callers && IsEarly(r.callers[id]))
  }

  lemma PlacedApart(r: RouterState)
    requires Placed(r)
    ensures Apart(r)
  {
    forall id | id in r.pending ensures id !in r.holders && !(id in r.callers && IsEarly(r.callers[id])) {
      assert id in r.pending.Keys && id !in Early(r.callers);
    }
  }

  lemma AdvanceKeepsOne(r: RouterState, id: PromptId, p: PromptId)
    requires id in r.callers && AttendedTo(r, id) && AttendedTo(r, p)
    requires IsEarly(r.callers[id]) ==> id !in r.pending
    ensures AttendedTo(AdvanceStep(r, id), p)
  {
    hide HasAudience, HasReceiver, AnswerOf;
    if p != id {
      AdvanceLeavesOthers(r, id, p);
    }
  }

  ghost predicate SameFor(r: RouterState, n: RouterState, p: PromptId) {
    && (p in n.callers <==> p in r.callers) && (p in n.callers ==> n.callers[p] == r.callers[p])
    && (p in n.pending <==> p in r.pending) && (p in n.sweepers <==> p in r.sweepers)
    && n.enqueued == r.enqueued
  }

  lemma TakeOutLeavesOthers(r: RouterState, id: PromptId, answer: Answer, p: PromptId)
    requires p != id
    ensures SameFor(r, TakeOut(r, id, answer), p)
  {
  }

  lemma AdvanceLeavesOthers(r: RouterState, id: PromptId, p: PromptId)
    requires id in r.callers && p != id
    ensures SameFor(r, AdvanceStep(r, id), p)
  {
    hide HasAudience, HasReceiver, AnswerOf, TakeOut, Incremented;
    if r.callers[id].Reclaim? {
      TakeOutLeavesOthers(r.(callers := r.callers - {id}), id, ByNoUi, p);
    }
  }

  lemma AdvanceKeepsAttendance(r: RouterState, id: PromptId)
    requires Apart(r) && Attended(r) && id in r.callers
    ensures Attended(AdvanceStep(r, id))
  {
    forall p: PromptId ensures AttendedTo(AdvanceStep(r, id), p) {
      assert AttendedTo(r, p) && AttendedTo(r, id);
      AdvanceKeepsOne(r, id, p);
    }
  }

  lemma StepKeepsAttendance(r: RouterState, s: Step)
    requires Apart(r) && Attended(r) && Enabled(r, s)
    requires forall id | id in r.pending :: id in r.enqueued
    ensures Attended(Next(r, s))
  {
    if s.Advance? {
      AdvanceKeepsAttendance(r, s.id);
    } else {
      forall p: PromptId ensures AttendedTo(Next(r, s), p) {
        assert AttendedTo(r, p);
      }
    }
  }

  // ---- The pending counter ---------------------------------------------------------------

  ghost function Uncounted(callers: map<PromptId, Caller>): set<PromptId> {
    set id | id in callers && callers[id].CountUp?
  }

  ghost function Undiscounted(holders: map<PromptId, Holder>): set<PromptId> {
    set id | id in holders && !holders[id].counted
  }

  /** The size of the map, adjusted for tasks between touching it and touching the counter. */
  ghost function Balance(r: RouterState): int {
    |r.pending| - |Uncounted(r.callers)| + |Undiscounted(r.holders)|
  }

  ghost predicate CounterInStep(r: RouterState) {
    r.counter == Balance(r) % U64_LIMIT
  }

  lemma HoldersChange(holders: map<PromptId, Holder>, id: PromptId, h: Holder)
    ensures Undiscounted(holders[id := h])
         == if h.counted then Undiscounted(holders) - {id} else Undiscounted(holders) + {id}
    ensures Undiscounted(holders - {id}) == Undiscounted(holders) - {id}
    ensures id in Undiscounted(holders) <==> id in holders && !holders[id].counted
  {
  }

  lemma CallersChange(callers: map<PromptId, Caller>, id: PromptId, to: Caller)
    ensures Uncounted(callers[id := to]) == if to.CountUp? then Uncounted(callers) + {id} else Uncounted(callers) - {id}
    ensures Uncounted(callers - {id}) == Uncounted(callers) - {id}
    ensures id in Uncounted(callers) <==> id in callers && callers[id].CountUp?
  {
  }

  lemma TakeOutKeepsBalance(r: RouterState, id: PromptId, answer: Answer)
    requires id in r.pending ==> id !in r.holders
    ensures Balance(TakeOut(r, id, answer)) == Balance(r)
  {
    hide Uncounted, Undiscounted;
    KeysChange(r.pending, id, Binding(None, false, None));
    HoldersChange(r.holders, id, Holder(false, answer));
    if id in r.pending {
      assert |r.pending - {id}| == |r.pending.Keys - {id}|;
    }
  }

  lemma MoveCaller(r: RouterState, id: PromptId, to: Caller)
    requires id in r.callers && !r.callers[id].CountUp? && !to.CountUp?
    ensures Balance(r.(callers := r.callers[id := to])) == Balance(r)
    ensures Balance(r.(callers := r.callers - {id})) == Balance(r)
  {
    hide Uncounted, Undiscounted;
    CallersChange(r.callers, id, to);
    assert Uncounted(r.callers) - {id} == Uncounted(r.callers);
  }

  lemma InsertKeepsBalance(r: RouterState, id: PromptId, binding: Binding)
    requires id in r.callers && !r.callers[id].CountUp? && id !in r.pending
    ensures Balance(r.(pending := r.pending[id := binding], callers := r.callers[id := CountUp])) == Balance(r)
  {
    hide Uncounted, Undiscounted;
    CallersChange(r.callers, id, CountUp);
    KeysChange(r.pending, id, binding);
    assert |r.pending[id := binding]| == |r.pending.Keys + {id}|;
  }

  lemma CountUpMovesBalance(r: RouterState, id: PromptId)
    requires id in r.callers && r.callers[id].CountUp?
    ensures Balance(r.(callers := r.callers[id := Broadcast])) == Balance(r) + 1
  {
    hide Uncounted, Undiscounted;
    CallersChange(r.callers, id, Broadcast);
  }

  lemma AdvanceMovesBalance(r: RouterState, id: PromptId)
    requires id in r.callers && (r.callers[id].Insert? ==> id !in r.pending)
    requires id in r.pending ==> id !in r.holders
    ensures Balance(AdvanceStep(r, id)) == Balance(r) + if r.callers[id].CountUp? then 1 else 0
  {
    hide Uncounted, Undiscounted, HasAudience, HasReceiver, TakeOut;
    match r.callers[id] {
      case Insert(binding) => InsertKeepsBalance(r, id, binding);
      case CountUp => CountUpMovesBalance(r, id);
      case Reclaim =>
        MoveCaller(r, id, Arm);
        TakeOutKeepsBalance(r.(callers := r.callers - {id}), id, ByNoUi);
      case AnswerNoUi => MoveCaller(r, id, Arm);
      case Arm => MoveCaller(r, id, Arm);
      case _ => MoveCaller(r, id, AdvanceStep(r, id).callers[id]);
    }
  }

  lemma ResolverMovesBalance(r: RouterState, id: PromptId)
    requires id in r.holders
    ensures !r.holders[id].counted ==>
              Balance(r.(holders := r.holders[id := r.holders[id].(counted := true)])) == Balance(r) - 1
    ensures r.holders[id].counted ==> Balance(r.(holders := r.holders - {id})) == Balance(r)
  {
    hide Uncounted, Undiscounted;
    HoldersChange(r.holders, id, r.holders[id].(counted := true));
    if r.holders[id].counted {
      assert Undiscounted(r.holders) - {id} == Undiscounted(r.holders);
    }
  }

  lemma EnqueueKeepsBalance(r: RouterState, id: PromptId, caller: Caller)
    requires id !in r.callers && caller.Start?
    ensures Balance(r.(callers := r.callers[id := caller])) == Balance(r)
  {
    hide Uncounted, Undiscounted;
    CallersChange(r.callers, id, caller);
    assert Uncounted(r.callers) - {id} == Uncounted(r.callers);
  }

  /** The counter moves exactly with the balance. */
  ghost predicate MovesTogether(r: RouterState, n: RouterState) {
    || (n.counter == r.counter && Balance(n) == Balance(r))
    || (n.counter == Incremented(r.counter) && Balance(n) == Balance(r) + 1)
    || (n.counter == Decremented(r.counter) && Balance(n) == Balance(r) - 1)
  }

  lemma TakeOutLeavesCounter(r: RouterState, id: PromptId, answer: Answer)
    ensures TakeOut(r, id, answer).counter == r.counter
  {
  }

  lemma AdvanceMovesCounter(r: RouterState, id: PromptId)
    requires id in r.callers
    ensures AdvanceStep(r, id).counter == if r.callers[id].CountUp? then Incremented(r.counter) else r.counter
  {
    hide HasAudience, HasReceiver, Incremented;
  }

  /** Nothing but the tasks and the map enters the balance. */
  lemma BalanceLooksAt(r: RouterState, n: RouterState)
    requires n.pending == r.pending && n.callers == r.callers && n.holders == r.holders
    ensures Balance(n) == Balance(r)
  {
  }

  lemma ResolverMovesTogether(r: RouterState, s: Step)
    requires Enabled(r, s) && (s.CountDown? || s.Send?)
    ensures MovesTogether(r, Next(r, s))
  {
    hide Balance, Decremented, Incremented;
    ResolverMovesBalance(r, s.id);
    if s.CountDown? {
      BalanceLooksAt(r.(holders := r.holders[s.id := r.holders[s.id].(counted := true)]), Next(r, s));
    } else {
      BalanceLooksAt(r.(holders := r.holders - {s.id}), Next(r, s));
    }
  }

  lemma StepMovesTogether(r: RouterState, s: Step)
    requires Apart(r) && Enabled(r, s) && (s.Enqueue? ==> s.id !in r.callers)
    ensures MovesTogether(r, Next(r, s))
  {
    hide Balance, TakeOut, AdvanceStep, Registered, Unregistered, Incremented, Decremented;
    match s {
      case Enqueue(id, owner, binding) =>
        EnqueueKeepsBalance(r, id, Start(owner, binding));
        BalanceLooksAt(r.(callers := r.callers[id := Start(owner, binding)]), Next(r, s));
      case Advance(id) =>
        AdvanceMovesBalance(r, id);
        AdvanceMovesCounter(r, id);
      case Submit(id, verdict) =>
        TakeOutKeepsBalance(r, id, ByUser(verdict));
        TakeOutLeavesCounter(r, id, ByUser(verdict));
      case Sweep(id) =>
        var m := r.(sweepers := r.sweepers - {id});
        BalanceLooksAt(r, m);
        TakeOutKeepsBalance(m, id, ByTimeout);
        TakeOutLeavesCounter(m, id, ByTimeout);
      case CountDown(_) => ResolverMovesTogether(r, s);
      case Send(_) => ResolverMovesTogether(r, s);
      case _ => BalanceLooksAt(r, Next(r, s));
    }
  }

  lemma CounterFollows(c: u64, b: int, c': u64, b': int)
    requires c == b % U64_LIMIT
    requires (c' == c && b' == b) || (c' == Incremented(c) && b' == b + 1) || (c' == Decremented(c) && b' == b - 1)
    ensures c' == b' % U64_LIMIT
  {
  }

  lemma StepKeepsCounter(r: RouterState, s: Step)
    requires CounterInStep(r) && Apart(r) && Enabled(r, s) && (s.Enqueue? ==> s.id !in r.callers)
    ensures CounterInStep(Next(r, s))
  {
    var n := Next(r, s);
    StepMovesTogether(r, s);
    CounterFollows(r.counter, Balance(r), n.counter, Balance(n));
  }

  // ---- The census --------------------------------------------------------------------------

  /** The live answering subscriptions of a user. */
  ghost function Answering(subscriptions: map<SubId, Subscription>, uid: Uid): set<SubId> {
    set s | s in subscriptions && subscriptions[s].registered && subscriptions[s].uid == Some(uid)
  }

  /** The census is exactly the multiset of live answering subscriptions, with no zero entry. */
  ghost predicate CensusExact(r: RouterState) {
    forall uid: Uid :: CensusExactFor(r, uid)
  }

  ghost predicate CensusExactFor(r: RouterState, uid: Uid) {
    var n := |Answering(r.subscriptions, uid)|;
    if n == 0 then uid !in r.subscribers else uid in r.subscribers && r.subscribers[uid] == n
  }

  lemma AnsweringChange(subscriptions: map<SubId, Subscription>, sub: SubId, to: Subscription, uid: Uid)
    ensures Answering(subscriptions[sub := to], uid)
         == if to.registered && to.uid == Some(uid) then Answering(subscriptions, uid) + {sub}
            else Answering(subscriptions, uid) - {sub}
    ensures sub in Answering(subscriptions, uid)
       <==> sub in subscriptions && subscriptions[sub].registered && subscriptions[sub].uid == Some(uid)
  {
  }

  lemma RegisterKeepsCensus(r: RouterState, sub: SubId, u: Option<Uid>, uid: Uid)
    requires CensusExactFor(r, uid) && sub !in r.subscriptions
    ensures CensusExactFor(Next(r, Register(sub, u)), uid)
  {
    hide Answering;
    AnsweringChange(r.subscriptions, sub, Subscription(u, true, false), uid);
    assert sub !in Answering(r.subscriptions, uid);
    assert Answering(r.subscriptions, uid) - {sub} == Answering(r.subscriptions, uid);
  }

  lemma UnregisterKeepsCensus(r: RouterState, sub: SubId, uid: Uid)
    requires CensusExactFor(r, uid) && Enabled(r, Unregister(sub))
    ensures CensusExactFor(Next(r, Unregister(sub)), uid)
  {
    hide Answering;
    var before := Answering(r.subscriptions, uid);
    AnsweringChange(r.subscriptions, sub, r.subscriptions[sub].(registered := false), uid);
    if r.subscriptions[sub].uid == Some(uid) {
      assert |before - {sub}| == |before| - 1;
    } else {
      assert before - {sub} == before;
    }
  }

  lemma ReceiverKeepsCensus(r: RouterState, s: Step, uid: Uid)
    requires CensusExactFor(r, uid) && Enabled(r, s) && (s.Attach? || s.Detach?)
    ensures CensusExactFor(Next(r, s), uid)
  {
    assert Answering(Next(r, s).subscriptions, uid) == Answering(r.subscriptions, uid);
  }

  lemma StepKeepsCensus(r: RouterState, s: Step)
    requires CensusExact(r) && Enabled(r, s)
    ensures CensusExact(Next(r, s))
  {
    forall uid: Uid ensures CensusExactFor(Next(r, s), uid) {
      assert CensusExactFor(r, uid);
      match s {
        case Register(sub, u) => RegisterKeepsCensus(r, sub, u, uid);
        case Unregister(sub) => UnregisterKeepsCensus(r, sub, uid);
        case Attach(_) => ReceiverKeepsCensus(r, s, uid);
        case Detach(_) => ReceiverKeepsCensus(r, s, uid);
        case _ =>
      }
    }
  }

  /**
   * The census finds an audience exactly when a live answering subscription may see the prompt: any
   * for a prompt without an owner, else one of root's or of the owner's.
   */
  lemma AudienceIsTruthful(r: RouterState, owner: Option<Uid>)
    requires CensusExact(r)
    ensures HasAudience(r.subscribers, owner) <==>
              exists s :: s in r.subscriptions && r.subscriptions[s].registered && r.subscriptions[s].uid.Some?
                          && (owner == None || r.subscriptions[s].uid == Some(0) || r.subscriptions[s].uid == owner)
  {
    if HasAudience(r.subscribers, owner) {
      var uid :| uid in r.subscribers && ShouldDeliver(owner, uid);
      assert CensusExactFor(r, uid);
      var s :| s in Answering(r.subscriptions, uid);
      assert r.subscriptions[s].registered;
    }
    if s :| s in r.subscriptions && r.subscriptions[s].registered && r.subscriptions[s].uid.Some?
            && (owner == None || r.subscriptions[s].uid == Some(0) || r.subscriptions[s].uid == owner)
    {
      var uid := r.subscriptions[s].uid.value;
      assert s in Answering(r.subscriptions, uid) && CensusExactFor(r, uid);
      assert uid in r.subscribers && ShouldDeliver(owner, uid);
    }
  }

  // ---- Whole runs ----------------------------------------------------------------------------

  ghost predicate Inv(r: RouterState) {
    Placed(r) && Attended(r) && CounterInStep(r) && CensusExact(r)
  }

  lemma InitialInv(policy: Policy)
    ensures Inv(Initial(policy))
  {
    var r := Initial(policy);
    assert Early(r.callers) == {} && Uncounted(r.callers) == {} && Undiscounted(r.holders) == {};
    assert SentIds(r.sent) == {};
    forall uid: Uid ensures Answering(r.subscriptions, uid) == {} {
    }
  }

  lemma StepKeepsInv(r: RouterState, s: Step)
    requires Inv(r) && Enabled(r, s)
    ensures Inv(Next(r, s))
  {
    PlacedApart(r);
    PlacedEnqueued(r);
    StepKeepsPlaces(r, s);
    StepKeepsAttendance(r, s);
    if s.Enqueue? {
      assert AttendedTo(r, s.id);
    }
    StepKeepsCounter(r, s);
    StepKeepsCensus(r, s);
  }

  lemma PlacedEnqueued(r: RouterState)
    requires Placed(r)
    ensures forall id | id in r.pending :: id in r.enqueued
  {
    assert r.pending.Keys <= r.enqueued;
  }

  /** Under any interleaving of every path, each atomic step keeps the whole invariant. */
  lemma {:induction false} RunKeepsInv(r: RouterState, run: seq<Step>)
    requires Inv(r) && Executable(r, run)
    ensures Inv(After(r, run))
    decreases |run|
  {
    if run == [] {
    } else {
      StepKeepsInv(r, run[0]);
      RunKeepsInv(Next(r, run[0]), run[1..]);
    }
  }

  /** No task is left that could still act on a prompt. */
  predicate Quiescent(r: RouterState) {
    r.callers == map[] && r.sweepers == {} && r.holders == map[]
  }

  lemma ReachableInv(policy: Policy, run: seq<Step>)
    requires Executable(Initial(policy), run)
    ensures Inv(After(Initial(policy), run))
  {
    InitialInv(policy);
    RunKeepsInv(Initial(policy), run);
  }

  lemma NothingLeftOver(r: RouterState)
    requires Placed(r) && Attended(r) && CounterInStep(r) && Quiescent(r)
    ensures SentIds(r.sent) == r.enqueued && r.pending == map[] && r.counter == 0
  {
    assert forall id: PromptId :: AttendedTo(r, id) ==> id !in r.pending;
    assert r.pending.Keys == {};
    assert Early(r.callers) == {} && Uncounted(r.callers) == {} && Undiscounted(r.holders) == {};
  }

  /**
   * Exactly-once resolution. At every point of every run each enqueued prompt has been answered
   * at most once and is in exactly one place, and a pending one always has its enqueueing call
   * or a sweeper left to resolve it. When the tasks are done every prompt has been answered,
   * exactly once, and the counter reads zero.
   */
  lemma EveryPromptResolvesOnce(policy: Policy, run: seq<Step>)
    requires Executable(Initial(policy), run)
    ensures var r := After(Initial(policy), run);
            && SentOnce(r.sent) && SentIds(r.sent) <= r.enqueued
            && (forall id | id in r.pending :: id in r.enqueued && id !in SentIds(r.sent)
                                               && (id in r.callers || id in r.sweepers))
            && (Quiescent(r) ==> SentIds(r.sent) == r.enqueued && r.pending == map[] && r.counter == 0)
  {
    ReachableInv(policy, run);
    var r := After(Initial(policy), run);
    forall id | id in r.pending
      ensures id in r.enqueued && id !in SentIds(r.sent) && (id in r.callers || id in r.sweepers)
    {
      assert AttendedTo(r, id) && id in r.pending.Keys;
    }
    if Quiescent(r) {
      NothingLeftOver(r);
    }
  }

  /**
   * Enqueued prompts are conserved: answered, pending, being resolved, or still in flight. The
   * counter is the size of the map, adjusted for the tasks between touching one and the other.
   */
  lemma PromptsAreConserved(policy: Policy, run: seq<Step>)
    requires Executable(Initial(policy), run)
    ensures var r := After(Initial(policy), run);
            && |r.enqueued| == |r.sent| + |r.pending| + |r.holders| + |Early(r.callers)|
            && r.counter == Balance(r) % 0x1_0000_0000_0000_0000
  {
    ReachableInv(policy, run);
    PlacesAddUp(After(Initial(policy), run));
  }

  lemma PlacesAddUp(r: RouterState)
    requires Placed(r)
    ensures |r.enqueued| == |r.sent| + |r.pending| + |r.holders| + |Early(r.callers)|
  {
    SentIdsCount(r.sent);
    DisjointSizes(Early(r.callers), r.pending.Keys, r.holders.Keys, SentIds(r.sent));
  }

  lemma DisjointSizes(a: set<PromptId>, b: set<PromptId>, c: set<PromptId>, d: set<PromptId>)
    requires a !! b !! c !! d
    ensures |a + b + c + d| == |a| + |b| + |c| + |d|
  {
    assert (a + b) !! c && (a + b + c) !! d;
  }

  lemma {:induction false} SentIdsCount(sent: seq<PromptVerdict>)
    requires SentOnce(sent)
    ensures |SentIds(sent)| == |sent|
  {
    hide SentOnce, SentIds;
    if sent == [] {
      assert SentIds(sent) == {} by {
        NothingSent();
      }
    } else {
      var front, last := sent[..|sent| - 1], sent[|sent| - 1];
      LastIsNew(sent);
      SentIdsCount(front);
      SendOne(front, last);
      assert front + [last] == sent;
    }
  }

  lemma NothingSent()
    ensures SentIds([]) == {}
  {
  }

  lemma LastIsNew(sent: seq<PromptVerdict>)
    requires sent != [] && SentOnce(sent)
    ensures SentOnce(sent[..|sent| - 1]) && sent[|sent| - 1].promptId !in SentIds(sent[..|sent| - 1])
  {
    var front := sent[..|sent| - 1];
    forall v | v in front ensures v.promptId != sent[|sent| - 1].promptId {
      var i :| 0 <= i < |front| && front[i] == v;
      assert sent[i] == v;
    }
  }

  // ---- Where verdicts come from -------------------------------------------------------------

  /** A step as it was taken, with the state it was taken in. */
  datatype Event = Event(state: RouterState, step: Step)

  ghost function TraceOf(r: RouterState, run: seq<Step>): set<Event>
    requires Executable(r, run)
    decreases |run|
  {
    if run == [] then {} else {Event(r, run[0])} + TraceOf(Next(r, run[0]), run[1..])
  }

  /** A user's answer found the prompt still pending. */
  ghost predicate Answered(id: PromptId, verdict: Verdict, trace: set<Event>) {
    exists r :: Event(r, Submit(id, verdict)) in trace && id in r.pending
  }

  /** The sweeper found the prompt still pending. */
  ghost predicate TimedOut(id: PromptId, trace: set<Event>) {
    exists r :: Event(r, Sweep(id)) in trace && id in r.pending
  }

  /** The census check found nobody who may see the prompt. */
  ghost predicate FoundNoAudience(id: PromptId, trace: set<Event>) {
    exists r :: Event(r, Advance(id)) in trace && id in r.callers && r.callers[id].Start?
                && !HasAudience(r.subscribers, r.callers[id].owner)
  }

  /** The broadcast found no receiver at all. */
  ghost predicate FoundNoReceiver(id: PromptId, trace: set<Event>) {
    exists r :: Event(r, Advance(id)) in trace && id in r.callers && r.callers[id].Broadcast?
                && !HasReceiver(r.subscriptions)
  }

  ghost predicate AnswerSourced(id: PromptId, answer: Answer, trace: set<Event>) {
    match answer
    case ByUser(v) => Answered(id, v, trace)
    case ByTimeout => TimedOut(id, trace)
    case ByNoUi => FoundNoReceiver(id, trace)
  }

  ghost predicate CallerSourced(id: PromptId, caller: Caller, trace: set<Event>) {
    && (caller.AnswerNoUi? ==> FoundNoAudience(id, trace))
    && (caller.Reclaim? ==> FoundNoReceiver(id, trace))
  }

  /** A resolver sent this: what its answer comes to under the policy in force at that moment. */
  ghost predicate SentByResolver(v: PromptVerdict, trace: set<Event>) {
    exists r, answer :: Event(r, Send(v.promptId)) in trace && AnswerSourced(v.promptId, answer, trace)
                        && v.verdict == AnswerOf(answer, r.policy)
  }

  /** The enqueueing call sent this at once: the no-UI action in force at that moment. */
  ghost predicate SentAtOnce(v: PromptVerdict, trace: set<Event>) {
    exists r :: Event(r, Advance(v.promptId)) in trace && FoundNoAudience(v.promptId, trace)
                && v.promptId in r.callers && r.callers[v.promptId].AnswerNoUi?
                && v.verdict == PolicyVerdict(r.policy.noUiAction)
  }

  ghost predicate VerdictSourced(v: PromptVerdict, trace: set<Event>) {
    SentByResolver(v, trace) || SentAtOnce(v, trace)
  }

  ghost predicate Sourced(r: RouterState, trace: set<Event>) {
    && (forall id | id in r.callers :: CallerSourced(id, r.callers[id], trace))
    && (forall id | id in r.holders :: AnswerSourced(id, r.holders[id].answer, trace))
    && forall i | 0 <= i < |r.sent| :: VerdictSourced(r.sent[i], trace)
  }

  lemma SourcesGrow(id: PromptId, trace: set<Event>, more: set<Event>)
    requires trace <= more
    ensures FoundNoAudience(id, trace) ==> FoundNoAudience(id, more)
    ensures FoundNoReceiver(id, trace) ==> FoundNoReceiver(id, more)
    ensures TimedOut(id, trace) ==> TimedOut(id, more)
    ensures forall v :: Answered(id, v, trace) ==> Answered(id, v, more)
  {
    hide HasAudience, HasReceiver;
  }

  lemma VerdictStaysSourced(v: PromptVerdict, trace: set<Event>, more: set<Event>)
    requires trace <= more && VerdictSourced(v, trace)
    ensures VerdictSourced(v, more)
  {
    hide Answered, TimedOut, FoundNoAudience, FoundNoReceiver, AnswerOf;
    SourcesGrow(v.promptId, trace, more);
    if SentByResolver(v, trace) {
      var r, answer :| Event(r, Send(v.promptId)) in trace && AnswerSourced(v.promptId, answer, trace)
                       && v.verdict == AnswerOf(answer, r.policy);
      assert Event(r, Send(v.promptId)) in more && AnswerSourced(v.promptId, answer, more);
    } else {
      var r :| Event(r, Advance(v.promptId)) in trace && FoundNoAudience(v.promptId, trace)
               && v.promptId in r.callers && r.callers[v.promptId].AnswerNoUi?
               && v.verdict == PolicyVerdict(r.policy.noUiAction);
      assert Event(r, Advance(v.promptId)) in more;
    }
  }

  lemma StaysSourced(r: RouterState, trace: set<Event>, more: set<Event>)
    requires trace <= more && Sourced(r, trace)
    ensures Sourced(r, more)
  {
    hide Answered, TimedOut, FoundNoAudience, FoundNoReceiver, VerdictSourced;
    forall id | id in r.callers ensures CallerSourced(id, r.callers[id], more) {
      SourcesGrow(id, trace, more);
    }
    forall id | id in r.holders ensures AnswerSourced(id, r.holders[id].answer, more) {
      SourcesGrow(id, trace, more);
    }
    forall i | 0 <= i < |r.sent| ensures VerdictSourced(r.sent[i], more) {
      VerdictStaysSourced(r.sent[i], trace, more);
    }
  }

  lemma TakeOutKeepsSourced(r: RouterState, id: PromptId, answer: Answer, trace: set<Event>)
    requires Sourced(r, trace) && (id in r.pending ==> AnswerSourced(id, answer, trace))
    ensures Sourced(TakeOut(r, id, answer), trace)
  {
    hide AnswerSourced, CallerSourced, VerdictSourced;
  }

  lemma ForgettingKeepsSourced(r: RouterState, id: PromptId, trace: set<Event>)
    requires Sourced(r, trace)
    ensures Sourced(r.(callers := r.callers - {id}), trace)
    ensures Sourced(r.(sweepers := r.sweepers - {id}), trace)
  {
    hide AnswerSourced, CallerSourced, VerdictSourced;
  }

  /** The caller's own step is the evidence for what it does next. */
  lemma CallerLearns(r: RouterState, id: PromptId, trace: set<Event>)
    requires id in r.callers && Event(r, Advance(id)) in trace
    ensures r.callers[id].Start? && !HasAudience(r.subscribers, r.callers[id].owner) ==> FoundNoAudience(id, trace)
    ensures r.callers[id].Broadcast? && !HasReceiver(r.subscriptions) ==> FoundNoReceiver(id, trace)
  {
    hide HasAudience, HasReceiver;
  }

  lemma AdvanceKeepsSourced(r: RouterState, id: PromptId, trace: set<Event>)
    requires id in r.callers && Sourced(r, trace) && Event(r, Advance(id)) in trace
    ensures Sourced(AdvanceStep(r, id), trace)
  {
    hide AnswerSourced, VerdictSourced, HasAudience, HasReceiver, FoundNoAudience, FoundNoReceiver, TakeOut;
    CallerLearns(r, id, trace);
    match r.callers[id] {
      case Reclaim =>
        ForgettingKeepsSourced(r, id, trace);
        assert AnswerSourced(id, ByNoUi, trace) by {
          assert CallerSourced(id, r.callers[id], trace);
          NoReceiverSources(id, trace);
        }
        TakeOutKeepsSourced(r.(callers := r.callers - {id}), id, ByNoUi, trace);
      case AnswerNoUi =>
        var v := PromptVerdict(id, PolicyVerdict(r.policy.noUiAction));
        AtOnceSources(r, v, trace);
        SendingKeepsSourced(r.(callers := r.callers - {id}), v, trace);
      case _ =>
    }
  }

  lemma NoReceiverSources(id: PromptId, trace: set<Event>)
    requires FoundNoReceiver(id, trace)
    ensures AnswerSourced(id, ByNoUi, trace)
  {
    hide FoundNoReceiver;
  }

  lemma AtOnceSources(r: RouterState, v: PromptVerdict, trace: set<Event>)
    requires Event(r, Advance(v.promptId)) in trace && FoundNoAudience(v.promptId, trace)
    requires v.promptId in r.callers && r.callers[v.promptId].AnswerNoUi?
    requires v.verdict == PolicyVerdict(r.policy.noUiAction)
    ensures VerdictSourced(v, trace)
  {
    hide FoundNoAudience;
    assert SentAtOnce(v, trace);
  }

  lemma ResolverSources(r: RouterState, id: PromptId, answer: Answer, trace: set<Event>)
    requires Event(r, Send(id)) in trace && AnswerSourced(id, answer, trace)
    ensures VerdictSourced(PromptVerdict(id, AnswerOf(answer, r.policy)), trace)
  {
    hide AnswerSourced, AnswerOf;
    assert SentByResolver(PromptVerdict(id, AnswerOf(answer, r.policy)), trace);
  }

  lemma SendingKeepsSourced(r: RouterState, v: PromptVerdict, trace: set<Event>)
    requires Sourced(r, trace) && VerdictSourced(v, trace)
    ensures Sourced(r.(sent := r.sent + [v]), trace)
  {
    hide AnswerSourced, CallerSourced, VerdictSourced;
  }

  lemma TakenBy(r: RouterState, s: Step, trace: set<Event>)
    requires Event(r, s) in trace && (s.Submit? || s.Sweep?) && s.id in r.pending
    ensures s.Submit? ==> AnswerSourced(s.id, ByUser(s.verdict), trace)
    ensures s.Sweep? ==> AnswerSourced(s.id, ByTimeout, trace)
  {
  }

  lemma StepKeepsSourced(r: RouterState, s: Step, trace: set<Event>)
    requires Enabled(r, s) && Sourced(r, trace)
    ensures Sourced(Next(r, s), trace + {Event(r, s)})
  {
    hide VerdictSourced, AnswerSourced, AdvanceStep, TakeOut, Registered, Unregistered;
    var more := trace + {Event(r, s)};
    StaysSourced(r, trace, more);
    match s {
      case Advance(id) => AdvanceKeepsSourced(r, id, more);
      case Submit(id, verdict) =>
        if id in r.pending {
          TakenBy(r, s, more);
        }
        TakeOutKeepsSourced(r, id, ByUser(verdict), more);
      case Sweep(id) =>
        if id in r.pending {
          TakenBy(r, s, more);
        }
        ForgettingKeepsSourced(r, id, more);
        TakeOutKeepsSourced(r.(sweepers := r.sweepers - {id}), id, ByTimeout, more);
      case Send(id) =>
        ResolverSources(r, id, r.holders[id].answer, more);
        var v := PromptVerdict(id, AnswerOf(r.holders[id].answer, r.policy));
        SendingKeepsSourced(r, v, more);
      case _ =>
    }
  }

  /**
   * No verdict is made up. Each one sent is a user's answer that found that very prompt pending; or,
   * under the policy in force when it was sent, the timeout action for a prompt a sweeper found
   * pending, or the no-UI action for a prompt whose census check found no audience or whose broadcast
   * found no receiver.
   */
  lemma {:induction false} VerdictsAreSourced(r: RouterState, run: seq<Step>, trace: set<Event>)
    requires Executable(r, run) && Sourced(r, trace)
    ensures Sourced(After(r, run), trace + TraceOf(r, run))
    decreases |run|
  {
    hide Sourced, Next, Enabled;
    if run == [] {
      assert trace + TraceOf(r, run) == trace;
    } else {
      StepKeepsSourced(r, run[0], trace);
      VerdictsAreSourced(Next(r, run[0]), run[1..], trace + {Event(r, run[0])});
      assert trace + {Event(r, run[0])} + TraceOf(Next(r, run[0]), run[1..]) == trace + TraceOf(r, run);
    }
  }

  /** Nobody who may see the prompt had a census entry, or no subscription was receiving. */
  ghost predicate Unseen(id: PromptId, trace: set<Event>) {
    exists r :: Event(r, Advance(id)) in trace && id in r.callers
      && (|| (match r.callers[id]
              case Start(Some(uid), _) => 0 !in r.subscribers && uid !in r.subscribers
              case Start(None, _) => r.subscribers == map[]
              case _ => false)
          || (r.callers[id].Broadcast? && forall s | s in r.subscriptions :: !r.subscriptions[s].receiving))
  }

  /** The verdict by its fields: what a user sent, or what the policy said when it was sent. */
  ghost predicate Explained(v: PromptVerdict, trace: set<Event>) {
    || (exists r :: Event(r, Submit(v.promptId, v.verdict)) in trace && v.promptId in r.pending)
    || (&& (exists r :: Event(r, Sweep(v.promptId)) in trace && v.promptId in r.pending)
        && exists r :: Event(r, Send(v.promptId)) in trace
                       && v.verdict == Verdict(r.policy.timeoutAction, DefaultPolicy))
    || (&& Unseen(v.promptId, trace)
        && exists r, s :: Event(r, s) in trace && (s == Send(v.promptId) || s == Advance(v.promptId))
                          && v.verdict == Verdict(r.policy.noUiAction, DefaultPolicy))
  }

  lemma UnseenEither(id: PromptId, trace: set<Event>)
    requires FoundNoAudience(id, trace) || FoundNoReceiver(id, trace)
    ensures Unseen(id, trace)
  {
    hide HasAudience;
    if FoundNoAudience(id, trace) {
      var r :| Event(r, Advance(id)) in trace && id in r.callers && r.callers[id].Start?
               && !HasAudience(r.subscribers, r.callers[id].owner);
      var owner := r.callers[id].owner;
      AudienceIs(r.subscribers, if owner.Some? then owner.value else 0);
    } else {
      var r :| Event(r, Advance(id)) in trace && id in r.callers && r.callers[id].Broadcast?
               && !HasReceiver(r.subscriptions);
      assert forall s | s in r.subscriptions :: !r.subscriptions[s].receiving;
    }
  }

  lemma SourcesExplain(v: PromptVerdict, trace: set<Event>)
    requires VerdictSourced(v, trace)
    ensures Explained(v, trace)
  {
    hide FoundNoAudience, FoundNoReceiver, Unseen;
    if SentByResolver(v, trace) {
      var r, answer :| Event(r, Send(v.promptId)) in trace && AnswerSourced(v.promptId, answer, trace)
                       && v.verdict == AnswerOf(answer, r.policy);
      if answer.ByNoUi? {
        UnseenEither(v.promptId, trace);
        assert Event(r, Send(v.promptId)) in trace && v.verdict == Verdict(r.policy.noUiAction, DefaultPolicy);
      }
    } else {
      UnseenEither(v.promptId, trace);
      var r :| Event(r, Advance(v.promptId)) in trace && FoundNoAudience(v.promptId, trace)
               && v.promptId in r.callers && r.callers[v.promptId].AnswerNoUi?
               && v.verdict == PolicyVerdict(r.policy.noUiAction);
      assert Event(r, Advance(v.promptId)) in trace && v.verdict == Verdict(r.policy.noUiAction, DefaultPolicy);
    }
  }

  lemma EveryVerdictHasASource(policy: Policy, run: seq<Step>)
    requires Executable(Initial(policy), run)
    ensures var sent := After(Initial(policy), run).sent;
            forall i | 0 <= i < |sent| ::
              && VerdictSourced(sent[i], TraceOf(Initial(policy), run))
              && Explained(sent[i], TraceOf(Initial(policy), run))
  {
    hide VerdictSourced, Explained;
    VerdictsAreSourced(Initial(policy), run, {});
    assert {} + TraceOf(Initial(policy), run) == TraceOf(Initial(policy), run);
    var sent := After(Initial(policy), run).sent;
    forall i | 0 <= i < |sent| ensures Explained(sent[i], TraceOf(Initial(policy), run)) {
      SourcesExplain(sent[i], TraceOf(Initial(policy), run));
    }
  }

  // ---- Every prompt is answered in the end --------------------------------------------------------

  /** The steps the router's own tasks take, as opposed to what users, clients and reloads do. */
  predicate IsTaskStep(s: Step) {
    s.Advance? || s.Sweep? || s.CountDown? || s.Send?
  }

  /** At most how many task steps the enqueueing call still causes. */
  function CallWork(c: Caller): nat {
    match c
    case Start(_, _) => 8
    case Insert(_) => 7
    case CountUp => 6
    case Broadcast => 5
    case Arm => 4
    case Reclaim => 3
    case AnswerNoUi => 1
  }

  ghost function CallsWork(callers: map<PromptId, Caller>): nat
    decreases |callers|
  {
    if callers == map[] then 0
    else
      var id :| id in callers;
      KeysChange(callers, id, callers[id]);
      assert |callers - {id}| == |callers.Keys - {id}| < |callers.Keys| == |callers|;
      CallWork(callers[id]) + CallsWork(callers - {id})
  }

  lemma {:induction false} CallsWorkWithout(callers: map<PromptId, Caller>, id: PromptId)
    requires id in callers
    ensures CallsWork(callers) == CallWork(callers[id]) + CallsWork(callers - {id})
    decreases |callers|
  {
    hide CallWork;
    var other :| other in callers && CallsWork(callers) == CallWork(callers[other]) + CallsWork(callers - {other});
    if other == id {
    } else {
      var rest := callers - {other};
      assert |rest| < |callers| by {
        assert rest.Keys == callers.Keys - {other};
      }
      CallsWorkWithout(rest, id);
      assert |callers - {id}| < |callers| by {
        assert (callers - {id}).Keys == callers.Keys - {id};
      }
      CallsWorkWithout(callers - {id}, other);
      assert rest - {id} == callers - {id} - {other};
    }
  }

  lemma CallsWorkMoves(callers: map<PromptId, Caller>, id: PromptId, to: Caller)
    requires id in callers
    ensures CallsWork(callers[id := to]) == CallsWork(callers) - CallWork(callers[id]) + CallWork(to)
    ensures CallsWork(callers - {id}) == CallsWork(callers) - CallWork(callers[id])
  {
    hide CallsWork, CallWork;
    CallsWorkWithout(callers, id);
    CallsWorkWithout(callers[id := to], id);
    assert callers[id := to] - {id} == callers - {id};
  }

  /** At most how many task steps are left. */
  ghost function Work(r: RouterState): nat {
    CallsWork(r.callers) + 3 * |r.sweepers| + |r.holders| + |Undiscounted(r.holders)|
  }

  lemma TakeOutWork(r: RouterState, id: PromptId, answer: Answer)
    ensures Work(TakeOut(r, id, answer)) <= Work(r) + 2
  {
    hide CallsWork, Undiscounted;
    HoldersChange(r.holders, id, Holder(false, answer));
    KeysChange(r.holders, id, Holder(false, answer));
    assert |r.holders[id := Holder(false, answer)]| == |r.holders.Keys + {id}|;
  }

  lemma CallerMoves(r: RouterState, n: RouterState, id: PromptId)
    requires id in r.callers && n.holders == r.holders && n.sweepers == r.sweepers
    requires n.callers == r.callers - {id} || (id in n.callers && n.callers == r.callers[id := n.callers[id]])
    ensures Work(n) == Work(r) - CallWork(r.callers[id])
                       + if n.callers == r.callers - {id} then 0 else CallWork(n.callers[id])
  {
    hide CallsWork, CallWork, Undiscounted;
    CallsWorkMoves(r.callers, id, if n.callers == r.callers - {id} then Arm else n.callers[id]);
  }

  lemma ArmingWorks(r: RouterState, id: PromptId)
    ensures Work(r.(sweepers := r.sweepers + {id})) <= Work(r) + 3
  {
    hide CallsWork, Undiscounted;
    assert |r.sweepers + {id}| <= |r.sweepers| + 1;
  }

  lemma AdvanceWorks(r: RouterState, id: PromptId)
    requires id in r.callers
    ensures Work(AdvanceStep(r, id)) < Work(r)
  {
    hide Work, HasAudience, HasReceiver, TakeOut;
    var gone := r.(callers := r.callers - {id});
    match r.callers[id] {
      case Arm =>
        CallerMoves(r, gone, id);
        ArmingWorks(gone, id);
      case Reclaim =>
        CallerMoves(r, gone, id);
        TakeOutWork(gone, id, ByNoUi);
      case _ => CallerMoves(r, AdvanceStep(r, id), id);
    }
  }

  lemma ResolverWorks(r: RouterState, s: Step)
    requires Enabled(r, s) && (s.CountDown? || s.Send?)
    ensures Work(Next(r, s)) < Work(r)
  {
    hide CallsWork, Undiscounted;
    HoldersChange(r.holders, s.id, r.holders[s.id].(counted := true));
    KeysChange(r.holders, s.id, r.holders[s.id].(counted := true));
    if s.CountDown? {
      assert |Next(r, s).holders| == |r.holders.Keys + {s.id}| && r.holders.Keys + {s.id} == r.holders.Keys;
    } else {
      assert |Next(r, s).holders| == |r.holders.Keys - {s.id}|;
    }
  }

  /** Every step a task takes uses up work, however the tasks are interleaved. */
  lemma TaskStepsWork(r: RouterState, s: Step)
    requires Enabled(r, s) && IsTaskStep(s)
    ensures Work(Next(r, s)) < Work(r)
  {
    hide Work, AdvanceStep, TakeOut;
    match s {
      case Advance(id) => AdvanceWorks(r, id);
      case Sweep(id) => SweepWorks(r, id);
      case _ => ResolverWorks(r, s);
    }
  }

  lemma SweepWorks(r: RouterState, id: PromptId)
    requires id in r.sweepers
    ensures Work(Next(r, Sweep(id))) < Work(r)
  {
    hide CallsWork, Undiscounted, TakeOut;
    TakeOutWork(r.(sweepers := r.sweepers - {id}), id, ByTimeout);
  }

  ghost predicate TaskRun(run: seq<Step>) {
    forall i | 0 <= i < |run| :: IsTaskStep(run[i])
  }

  lemma {:induction false} TaskRunsAreShort(r: RouterState, run: seq<Step>)
    requires Executable(r, run) && TaskRun(run)
    ensures |run| <= Work(r)
    decreases |run|
  {
    hide Work, Next, Enabled, IsTaskStep;
    if run == [] {
    } else {
      assert IsTaskStep(run[0]);
      TaskStepsWork(r, run[0]);
      TaskRunsAreShort(Next(r, run[0]), run[1..]);
    }
  }

  /** How many task steps a run takes. */
  function TaskSteps(run: seq<Step>): nat {
    if run == [] then 0 else (if IsTaskStep(run[0]) then 1 else 0) + TaskSteps(run[1..])
  }

  /** It counts one for each move of a call, sweeper or resolver, and nothing else. */
  lemma {:induction false} TaskStepsCount(run: seq<Step>, more: seq<Step>, s: Step)
    ensures TaskSteps([s]) == if s.Advance? || s.Sweep? || s.CountDown? || s.Send? then 1 else 0
    ensures TaskSteps(run + more) == TaskSteps(run) + TaskSteps(more)
  {
    if run == [] {
      assert run + more == more;
    } else {
      TaskStepsCount(run[1..], more, s);
      assert (run + more)[1..] == run[1..] + more;
    }
  }

  /** What a run adds to the work from outside: eight for an enqueue, two for an answer to a pending prompt. */
  ghost function Caused(r: RouterState, run: seq<Step>): nat
    requires Executable(r, run)
    decreases |run|
  {
    if run == [] then 0
    else
      (if run[0].Enqueue? then 8 else if run[0].Submit? && run[0].id in r.pending then 2 else 0)
      + Caused(Next(r, run[0]), run[1..])
  }

  lemma OthersCauseWork(r: RouterState, s: Step)
    requires Enabled(r, s) && !IsTaskStep(s) && (s.Enqueue? ==> s.id !in r.callers)
    ensures Work(Next(r, s)) <= Work(r) + if s.Enqueue? then 8 else if s.Submit? && s.id in r.pending then 2 else 0
  {
    hide CallsWork, Undiscounted, Registered, Unregistered;
    match s {
      case Enqueue(id, owner, binding) =>
        CallsWorkWithout(r.callers[id := Start(owner, binding)], id);
        assert r.callers[id := Start(owner, binding)] - {id} == r.callers;
      case Submit(id, verdict) => TakeOutWork(r, id, ByUser(verdict));
      case _ =>
    }
  }

  lemma {:induction false} TaskStepsArePaidFor(r: RouterState, run: seq<Step>)
    requires Inv(r) && Executable(r, run)
    ensures TaskSteps(run) + Work(After(r, run)) <= Work(r) + Caused(r, run)
    decreases |run|
  {
    hide Work, Next, Enabled, IsTaskStep, Inv;
    if run == [] {
    } else {
      StepKeepsInv(r, run[0]);
      if IsTaskStep(run[0]) {
        TaskStepsWork(r, run[0]);
      } else {
        EnqueuesAreNew(r, run[0]);
        OthersCauseWork(r, run[0]);
      }
      TaskStepsArePaidFor(Next(r, run[0]), run[1..]);
    }
  }

  lemma EnqueuesAreNew(r: RouterState, s: Step)
    requires Inv(r) && Enabled(r, s)
    ensures s.Enqueue? ==> s.id !in r.callers
  {
    if s.Enqueue? {
      assert AttendedTo(r, s.id);
    }
  }

  /**
   * Whatever users, clients and reloads do meanwhile, a run from the start takes at most eight task
   * steps for each prompt enqueued and two for each answer that finds its prompt pending.
   */
  lemma TaskStepsAreBounded(policy: Policy, run: seq<Step>)
    requires Executable(Initial(policy), run)
    ensures TaskSteps(run) <= Caused(Initial(policy), run)
  {
    InitialInv(policy);
    assert Undiscounted(Initial(policy).holders) == {};
    TaskStepsArePaidFor(Initial(policy), run);
  }

  /** As long as tasks are left one of them can move. */
  lemma SomeTaskCanMove(r: RouterState) returns (s: Step)
    requires !Quiescent(r)
    ensures Enabled(r, s) && IsTaskStep(s)
  {
    if r.callers != map[] {
      var id :| id in r.callers;
      s := Advance(id);
    } else if r.sweepers != {} {
      var id :| id in r.sweepers;
      s := Sweep(id);
    } else {
      var id :| id in r.holders;
      s := if r.holders[id].counted then Send(id) else CountDown(id);
    }
  }

  /**
   * No prompt waits for ever. From any state reached, the tasks left can take no more than `Work`
   * steps before none is left, in whatever order they move; one can always move until then; and
   * when none is left every prompt enqueued has been answered exactly once.
   */
  lemma TasksRunOut(policy: Policy, history: seq<Step>, run: seq<Step>)
    requires Executable(Initial(policy), history) && TaskRun(run)
    requires Executable(After(Initial(policy), history), run)
    ensures var r := After(Initial(policy), history);
            var end := After(r, run);
            && |run| <= Work(r)
            && (Quiescent(end) || exists s :: Enabled(end, s) && IsTaskStep(s))
            && (Quiescent(end) ==>
                  SentIds(end.sent) == end.enqueued && SentOnce(end.sent) && end.enqueued == r.enqueued)
  {
    hide Work, Inv;
    var r := After(Initial(policy), history);
    var end := After(r, run);
    TaskRunsAreShort(r, run);
    TaskRunsEnqueueNothing(r, run);
    ReachableInv(policy, history);
    RunKeepsInv(r, run);
    if Quiescent(end) {
      InvParts(end);
      NothingLeftOver(end);
    } else {
      var s := SomeTaskCanMove(end);
    }
  }

  lemma InvParts(r: RouterState)
    requires Inv(r)
    ensures Placed(r) && Attended(r) && CounterInStep(r) && SentOnce(r.sent)
  {
  }

  lemma {:induction false} TaskRunsEnqueueNothing(r: RouterState, run: seq<Step>)
    requires Executable(r, run) && TaskRun(run)
    ensures After(r, run).enqueued == r.enqueued
    decreases |run|
  {
    if run == [] {
    } else {
      assert IsTaskStep(run[0]);
      assert Next(r, run[0]).enqueued == r.enqueued;
      TaskRunsEnqueueNothing(Next(r, run[0]), run[1..]);
    }
  }

  // ---- The router's own operations -----------------------------------------------------------

  /** An uninterrupted answer takes the three steps in a row and leaves no task behind. */
  lemma ResolutionInOneGo(r: RouterState, id: PromptId, verdict: Verdict)
    requires id in r.pending && id !in r.holders
    ensures var taken := Next(r, Submit(id, verdict));
            Enabled(taken, CountDown(id)) && Enabled(Next(taken, CountDown(id)), Send(id))
            && Next(Next(taken, CountDown(id)), Send(id))
               == r.(pending := r.pending - {id}, counter := Decremented(r.counter),
                     sent := r.sent + [PromptVerdict(id, verdict)])
  {
    var end := Next(Next(Next(r, Submit(id, verdict)), CountDown(id)), Send(id));
    assert end.holders == r.holders;
  }

  /** An uninterrupted enqueue whose prompt nobody may see is answered at once with the no-UI action. */
  lemma UnseenInOneGo(r: RouterState, id: PromptId, owner: Option<Uid>, binding: Binding)
    requires id !in r.enqueued && id !in r.callers
    requires if owner.None? then r.subscribers == map[] else 0 !in r.subscribers && owner.value !in r.subscribers
    ensures var checked := Next(Next(r, Enqueue(id, owner, binding)), Advance(id));
            Enabled(checked, Advance(id))
            && Next(checked, Advance(id))
               == r.(enqueued := r.enqueued + {id},
                     sent := r.sent + [PromptVerdict(id, Verdict(r.policy.noUiAction, DefaultPolicy))])
  {
    hide HasAudience;
    AudienceIs(r.subscribers, if owner.Some? then owner.value else 0);
    assert r.callers[id := Start(owner, binding)][id := AnswerNoUi] - {id} == r.callers;
  }

  /** With an audience the prompt goes pending and is counted, up to the broadcast. */
  lemma SeenInOneGo(r: RouterState, id: PromptId, owner: Option<Uid>, binding: Binding)
    requires id !in r.enqueued && id !in r.callers
    requires if owner.None? then r.subscribers != map[] else 0 in r.subscribers || owner.value in r.subscribers
    ensures var checked := Next(Next(r, Enqueue(id, owner, binding)), Advance(id));
            Enabled(checked, Advance(id)) && Enabled(Next(checked, Advance(id)), Advance(id))
            && Next(Next(checked, Advance(id)), Advance(id))
               == r.(enqueued := r.enqueued + {id}, pending := r.pending[id := binding],
                     counter := Incremented(r.counter), callers := r.callers[id := Broadcast])
  {
    hide HasAudience;
    AudienceIs(r.subscribers, if owner.Some? then owner.value else 0);
  }

  /** A broadcast that reaches some receiver leaves the prompt to a sweeper; else it is taken back. */
  lemma BroadcastInOneGo(r: RouterState, id: PromptId)
    requires id in r.callers && r.callers[id].Broadcast? && id in r.pending
    ensures var shown := Next(r, Advance(id));
            && Enabled(shown, Advance(id))
            && ((exists s :: s in r.subscriptions && r.subscriptions[s].receiving) ==>
                  Next(shown, Advance(id)) == r.(callers := r.callers - {id}, sweepers := r.sweepers + {id}))
            && ((forall s | s in r.subscriptions :: !r.subscriptions[s].receiving) ==>
                  Next(shown, Advance(id)) == r.(callers := r.callers - {id}, pending := r.pending - {id},
                                                 holders := r.holders[id := Holder(false, ByNoUi)]))
  {
    assert r.callers[id := Arm] - {id} == r.callers - {id};
    assert r.callers[id := Reclaim] - {id} == r.callers - {id};
  }

  /** A resolver counts down and sends: the user's own verdict, or the policy's at that moment. */
  lemma HolderInOneGo(r: RouterState, id: PromptId, answer: Answer)
    requires id !in r.holders
    ensures var taken := r.(holders := r.holders[id := Holder(false, answer)]);
            Enabled(taken, CountDown(id)) && Enabled(Next(taken, CountDown(id)), Send(id))
            && Next(Next(taken, CountDown(id)), Send(id))
               == r.(counter := Decremented(r.counter),
                     sent := r.sent + [PromptVerdict(id,
                               if answer.ByUser? then answer.verdict
                               else if answer.ByTimeout? then Verdict(r.policy.timeoutAction, DefaultPolicy)
                               else Verdict(r.policy.noUiAction, DefaultPolicy))])
  {
    assert r.holders[id := Holder(true, answer)] - {id} == r.holders;
  }

  /** A timer that fires takes a pending prompt out for the timeout action and leaves any other alone. */
  lemma SweepTakesOut(r: RouterState, id: PromptId)
    requires id in r.sweepers
    ensures id in r.pending ==>
              Next(r, Sweep(id)) == r.(sweepers := r.sweepers - {id}, pending := r.pending - {id},
                                       holders := r.holders[id := Holder(false, ByTimeout)])
    ensures id !in r.pending ==> Next(r, Sweep(id)) == r.(sweepers := r.sweepers - {id})
  {
  }

  /**
   * A client that subscribes is reached by broadcasts and, when it answers prompts, is an audience for
   * its user; once it is gone the subscriptions and the census are what they were.
   */
  lemma SubscribingRoundTrips(r: RouterState, sub: SubId, uid: Option<Uid>)
    requires sub !in r.subscriptions && CensusExact(r)
    ensures var up := Next(Next(r, Register(sub, uid)), Attach(sub));
            && Enabled(Next(r, Register(sub, uid)), Attach(sub))
            && HasReceiver(up.subscriptions) && (uid.Some? ==> HasAudience(up.subscribers, uid))
            && Enabled(up, Unregister(sub)) && Enabled(Next(up, Unregister(sub)), Detach(sub))
            && Next(Next(up, Unregister(sub)), Detach(sub)) == r
  {
    var up := Next(Next(r, Register(sub, uid)), Attach(sub));
    assert up.subscriptions[sub].receiving;
    if uid.Some? {
      assert CensusExactFor(r, uid.value);
      assert ShouldDeliver(uid, uid.value) && uid.value in up.subscribers;
    }
    var end := Next(Next(up, Unregister(sub)), Detach(sub));
    assert end.subscriptions == r.subscriptions;
    assert end.subscribers == r.subscribers;
  }

  /** The policy last loaded. */
  function PolicyAfter(policy: Policy, run: seq<Step>): Policy
    decreases |run|
  {
    if run == [] then policy
    else
      var now := if run[0].Reload? then run[0].policy else policy;
      PolicyAfter(now, run[1..])
  }

  lemma OnlyReloadsSetPolicy(r: RouterState, s: Step)
    requires Enabled(r, s)
    ensures Next(r, s).policy == if s.Reload? then s.policy else r.policy
  {
    hide HasAudience, HasReceiver, Registered, Unregistered, Incremented, Decremented;
  }

  /** A reload is always possible, and the policy a send reads is the last one loaded, or the first one given. */
  lemma {:induction false} ReloadsTakeEffect(r: RouterState, run: seq<Step>)
    requires Executable(r, run)
    ensures After(r, run).policy == PolicyAfter(r.policy, run)
    ensures forall loaded :: Enabled(r, Reload(loaded))
    decreases |run|
  {
    hide Next;
    if run == [] {
    } else {
      OnlyReloadsSetPolicy(r, run[0]);
      ReloadsTakeEffect(Next(r, run[0]), run[1..]);
    }
  }

  class Router {
    var pending: map<PromptId, Binding>
    var subscribers: map<Uid, nat>
    var counter: u64
    var sent: seq<PromptVerdict>
    var policy: Policy

    constructor (policy: Policy)
      ensures pending == map[] && subscribers == map[] && counter == 0 && sent == [] && this.policy == policy
    {
      pending, subscribers, counter, sent := map[], map[], 0, [];
      this.policy := policy;
    }

    method Register(uid: Uid)
      modifies `subscribers
      ensures subscribers == Registered(old(subscribers), uid)
    {
      var n := if uid in subscribers then subscribers[uid] else 0;
      subscribers := subscribers[uid := n + 1];
    }

    method Unregister(uid: Uid)
      requires uid in subscribers ==> subscribers[uid] > 0
      modifies `subscribers
      ensures subscribers == Unregistered(old(subscribers), uid)
    {
      if uid in subscribers {
        var n := subscribers[uid] - 1;
        subscribers := if n == 0 then subscribers - {uid} else subscribers[uid := n];
      }
    }

    method AnyAudience(owner: Option<Uid>) returns (found: bool)
      ensures found <==> HasAudience(subscribers, owner)
      ensures found <==> if owner == None then subscribers != map[] else 0 in subscribers || owner.value in subscribers
    {
      AudienceIs(subscribers, if owner.Some? then owner.value else 0);
      var uids := subscribers.Keys;
      while uids != {}
        invariant uids <= subscribers.Keys
        invariant forall uid :: uid in subscribers && uid !in uids ==> !ShouldDeliver(owner, uid)
        decreases |uids|
      {
        var uid :| uid in uids;
        if ShouldDeliver(owner, uid) {
          return true;
        }
        uids := uids - {uid};
      }
      return false;
    }

    /** Takes the prompt out of the map, counts it down and sends; a late resolver does nothing. */
    method Resolve(id: PromptId, verdict: Verdict) returns (binding: Option<Binding>)
      modifies `pending, `counter, `sent
      ensures id !in old(pending) ==>
                binding.None? && pending == old(pending) && counter == old(counter) && sent == old(sent)
      ensures id in old(pending) ==>
                && binding == Some(old(pending)[id]) && pending == old(pending) - {id}
                && counter == Decremented(old(counter)) && sent == old(sent) + [PromptVerdict(id, verdict)]
    {
      if id !in pending {
        return None;
      }
      binding := Some(pending[id]);
      pending := pending - {id};
      counter := (counter + U64_MAX) % U64_LIMIT;
      sent := sent + [PromptVerdict(id, verdict)];
    }

    /** The user's answer. `promptId` is the parsed id, if it parses. */
    method Submit(promptId: Option<PromptId>, verdict: Verdict) returns (binding: Option<Binding>)
      modifies `pending, `counter, `sent
      ensures binding.Some? <==> promptId.Some? && promptId.value in old(pending)
      ensures binding.None? ==> pending == old(pending) && counter == old(counter) && sent == old(sent)
      ensures binding.Some? ==>
                && binding.value == old(pending)[promptId.value] && pending == old(pending) - {promptId.value}
                && counter == Decremented(old(counter)) && sent == old(sent) + [PromptVerdict(promptId.value, verdict)]
    {
      if promptId.None? {
        return None;
      }
      binding := Resolve(promptId.value, verdict);
    }

    /**
     * Shows a prompt, or answers it at once when nobody may see it. `receiving` says whether the
     * broadcast reaches a receiver. The result says whether a sweeper was armed.
     */
    method Enqueue(id: PromptId, owner: Option<Uid>, binding: Binding, receiving: bool) returns (armed: bool)
      requires id !in pending
      modifies `pending, `counter, `sent
      ensures armed <==>
                receiving && if owner == None then subscribers != map[]
                             else 0 in subscribers || owner.value in subscribers
      ensures armed ==>
                && pending == old(pending)[id := binding] && counter == Incremented(old(counter)) && sent == old(sent)
      ensures !armed ==>
                && pending == old(pending) && counter == old(counter)
                && sent == old(sent) + [PromptVerdict(id, Verdict(policy.noUiAction, DefaultPolicy))]
    {
      var audience := AnyAudience(owner);
      if !audience {
        sent := sent + [PromptVerdict(id, PolicyVerdict(policy.noUiAction))];
        return false;
      }
      pending := pending[id := binding];
      counter := (counter + 1) % U64_LIMIT;
      if !receiving {
        var reclaimed := Resolve(id, PolicyVerdict(policy.noUiAction));
        return false;
      }
      return true;
    }

    /** What an armed sweeper does when its timer fires. */
    method Sweep(id: PromptId)
      modifies `pending, `counter, `sent
      ensures id !in old(pending) ==> pending == old(pending) && counter == old(counter) && sent == old(sent)
      ensures id in old(pending) ==>
                && pending == old(pending) - {id} && counter == Decremented(old(counter))
                && sent == old(sent) + [PromptVerdict(id, Verdict(policy.timeoutAction, DefaultPolicy))]
    {
      var swept := Resolve(id, PolicyVerdict(policy.timeoutAction));
    }
  }
}
