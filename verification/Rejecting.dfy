/** When a refusal is sent at all: unicast pairs only, and off the machine only within a budget. */
module Rejecting {
  import opened CoreTypes
  import opened Checksums
  import opened Packets
  import opened Refusals

  // ---- Addresses ---------------------------------------------------------------------

  predicate UnicastV4(a: Bytes)
    requires |a| == 4
  {
    && a[0] / 16 != 14                                  // multicast
    && !(forall i | 0 <= i < 4 :: a[i] == 255)          // limited broadcast
    && !(forall i | 0 <= i < 4 :: a[i] == 0)            // unspecified
  }

  /** An IPv4 address written as an IPv6 one. */
  predicate IsMapped(a: Octets16) {
    (forall i | 0 <= i < 10 :: a[i] == 0) && a[10] == 255 && a[11] == 255
  }

  /** Source and destination of a forged refusal must both be such addresses. */
  predicate UnicastAddressable(ip: IpAddr) {
    match ip
    case V4(a) => UnicastV4(a)
    case V6(a) =>
      if IsMapped(a) then UnicastV4(a[12..16])
      else a[0] != 255 && !(forall i | 0 <= i < 16 :: a[i] == 0)
  }

  /** On octets: no multicast, broadcast or unspecified address, and the IPv4 rule for a mapped one. */
  lemma UnicastOctets(v4: Octets4, v6: Octets16)
    ensures UnicastAddressable(V4(v4)) <==>
              !(224 <= v4[0] <= 239) && v4 != [255, 255, 255, 255] && v4 != [0, 0, 0, 0]
    ensures UnicastAddressable(V6(v6)) <==>
              if v6[..12] == [0, 0, 0, 0, 0, 0, 0, 0, 0, 0, 255, 255] then
                !(224 <= v6[12] <= 239) && v6[12..] != [255, 255, 255, 255] && v6[12..] != [0, 0, 0, 0]
              else v6[0] != 255 && v6 != [0, 0, 0, 0, 0, 0, 0, 0, 0, 0, 0, 0, 0, 0, 0, 0]
  {
    assert v6[12..16] == v6[12..];
    MappedOctets(v6);
  }

  lemma MappedOctets(v6: Octets16)
    ensures IsMapped(v6) <==> v6[..12] == [0, 0, 0, 0, 0, 0, 0, 0, 0, 0, 255, 255]
  {
    var front := v6[..12];
    assert forall i | 0 <= i < 12 :: v6[i] == front[i];
  }

  /** Writing an IPv4 address as an IPv6 one does not get it past the check. */
  lemma MappedIsJudgedAlike(a: Octets4)
    ensures var mapped := V6([0, 0, 0, 0, 0, 0, 0, 0, 0, 0, 255, 255] + a);
            UnicastAddressable(mapped) <==> UnicastAddressable(V4(a))
  {
    var mapped: Octets16 := [0, 0, 0, 0, 0, 0, 0, 0, 0, 0, 255, 255] + a;
    assert mapped[12..16] == a;
  }

  // ---- The budget ----------------------------------------------------------------------

  /** A token bucket's two variables. */
  datatype Bucket = Bucket(tokens: real, last: real)

  function LeastOf(a: real, b: real): real {
    if a < b then a else b
  }

  /** Time passed since `last`, never negative. */
  function Elapsed(last: real, now: real): real {
    if now > last then now - last else 0.0
  }

  /** Tokens earned over a stretch of time. */
  function Credit(rate: real, time: real): real {
    rate * time
  }

  lemma CreditAddsUp(rate: real, a: real, b: real)
    ensures Credit(rate, a + b) == Credit(rate, a) + Credit(rate, b)
    ensures Credit(rate, 0.0) == 0.0
    ensures rate >= 0.0 && a >= 0.0 ==> Credit(rate, a) >= 0.0
  {
  }

  lemma CreditIs(rate: real, time: real)
    ensures Credit(rate, time) == rate * time
  {
  }

  function Refilled(b: Bucket, now: real, rate: real, burst: real): Bucket {
    Bucket(LeastOf(b.tokens + Credit(rate, Elapsed(b.last, now)), burst), now)
  }

  /** One call: refill by the time passed, then spend a token if there is one. */
  function Taken(b: Bucket, now: real, rate: real, burst: real): (Bucket, bool) {
    var r := Refilled(b, now, rate, burst);
    if r.tokens >= 1.0 then (r.(tokens := r.tokens - 1.0), true) else (r, false)
  }

  function AfterTakes(b: Bucket, instants: seq<real>, rate: real, burst: real): Bucket
    decreases |instants|
  {
    if instants == [] then b else AfterTakes(Taken(b, instants[0], rate, burst).0, instants[1..], rate, burst)
  }

  function Grants(b: Bucket, instants: seq<real>, rate: real, burst: real): nat
    decreases |instants|
  {
    if instants == [] then 0
    else
      var t := Taken(b, instants[0], rate, burst);
      (if t.1 then 1 else 0) + Grants(t.0, instants[1..], rate, burst)
  }

  /** How far a sequence of instants climbs in total; instants going back add nothing. */
  function Climb(last: real, instants: seq<real>): real
    decreases |instants|
  {
    if instants == [] then 0.0 else Elapsed(last, instants[0]) + Climb(instants[0], instants[1..])
  }

  predicate Sound(b: Bucket, burst: real) {
    0.0 <= b.tokens <= burst
  }

  lemma TakeSpends(b: Bucket, now: real, rate: real, burst: real)
    requires Sound(b, burst) && rate >= 0.0
    ensures var t := Taken(b, now, rate, burst);
            Sound(t.0, burst) && t.0.last == now
            && t.0.tokens + (if t.1 then 1.0 else 0.0) <= b.tokens + Credit(rate, Elapsed(b.last, now))
  {
    hide Credit;
    CreditAddsUp(rate, Elapsed(b.last, now), 0.0);
  }

  /**
   * Over any run of calls, at any instants, tokens stay between zero and the burst, and grants
   * are paid for by the tokens there were and the time that passed.
   */
  lemma {:induction false} GrantsArePaidFor(b: Bucket, instants: seq<real>, rate: real, burst: real)
    requires Sound(b, burst) && rate >= 0.0
    ensures var end := AfterTakes(b, instants, rate, burst);
            Sound(end, burst)
            && Grants(b, instants, rate, burst) as real + end.tokens <= b.tokens + Credit(rate, Climb(b.last, instants))
    decreases |instants|
  {
    hide Credit, Taken;
    CreditAddsUp(rate, 0.0, 0.0);
    if instants == [] {
    } else {
      var t := Taken(b, instants[0], rate, burst);
      TakeSpends(b, instants[0], rate, burst);
      GrantsArePaidFor(t.0, instants[1..], rate, burst);
      CreditAddsUp(rate, Elapsed(b.last, instants[0]), Climb(instants[0], instants[1..]));
    }
  }

  ghost predicate NonDecreasing(instants: seq<real>) {
    forall i, j | 0 <= i < j < |instants| :: instants[i] <= instants[j]
  }

  ghost predicate OrderedFrom(last: real, instants: seq<real>)
    decreases |instants|
  {
    instants == [] || (last <= instants[0] && OrderedFrom(instants[0], instants[1..]))
  }

  lemma {:induction false} NonDecreasingIsOrdered(last: real, instants: seq<real>)
    requires NonDecreasing(instants) && (instants != [] ==> last <= instants[0])
    ensures OrderedFrom(last, instants)
    decreases |instants|
  {
    if instants == [] {
    } else {
      NonDecreasingIsOrdered(instants[0], instants[1..]);
    }
  }

  /** Instants climb by at least the time that passes between first and last, and by no more exactly when in order. */
  lemma {:induction false} ClimbOfOrdered(last: real, instants: seq<real>)
    requires instants != []
    ensures Climb(last, instants) >= instants[|instants| - 1] - last
    ensures Climb(last, instants) == instants[|instants| - 1] - last <==> OrderedFrom(last, instants)
    decreases |instants|
  {
    if |instants| == 1 {
      assert instants[1..] == [];
    } else {
      ClimbOfOrdered(instants[0], instants[1..]);
    }
  }

  /** In any order, a stretch of calls is granted at most the burst and what its climb from the first call earns. */
  lemma ClimbBound(b: Bucket, window: seq<real>, rate: real, burst: real)
    requires Sound(b, burst) && rate >= 0.0 && window != []
    ensures Grants(b, window, rate, burst) as real <= burst + Credit(rate, Climb(window[0], window[1..]))
  {
    hide Credit, Taken;
    var full := Refilled(b, window[0], rate, burst);
    TakeAtOnce(b, window[0], rate, burst);
    GrantsArePaidFor(full, window, rate, burst);
    assert Grants(full, window, rate, burst) == Grants(b, window, rate, burst);
    assert Climb(window[0], window) == Climb(window[0], window[1..]);
  }

  lemma EarnedInWindow(b: Bucket, window: seq<real>, start: real, end: real, rate: real, burst: real)
    requires Sound(b, burst) && rate >= 0.0
    requires NonDecreasing(window) && forall t | t in window :: start <= t <= end
    requires start <= end
    ensures Grants(b, window, rate, burst) as real <= burst + Credit(rate, end - start)
  {
    hide Credit, Grants;
    CreditAddsUp(rate, end - start, 0.0);
    if window == [] {
      assert Grants(b, window, rate, burst) == 0 by {
        NoCallsNoGrants(b, rate, burst);
      }
    } else {
      var first, last := window[0], window[|window| - 1];
      ClimbBound(b, window, rate, burst);
      ClimbOfOrdered(first, window);
      NonDecreasingIsOrdered(first, window);
      assert Climb(first, window) == Climb(first, window[1..]);
      assert first in window && last in window;
      CreditAddsUp(rate, last - first, (end - start) - (last - first));
      CreditAddsUp(rate, (end - start) - (last - first), 0.0);
    }
  }

  /**
   * The bound the budget is for: whatever happened before, the calls whose instants fall in a
   * window [start, end] are granted at most burst + rate * (end - start) times.
   */
  lemma WindowBound(b: Bucket, window: seq<real>, start: real, end: real, rate: real, burst: real)
    requires Sound(b, burst) && rate >= 0.0
    requires NonDecreasing(window) && forall t | t in window :: start <= t <= end
    requires start <= end
    ensures Grants(b, window, rate, burst) as real <= burst + rate * (end - start)
  {
    hide Grants;
    EarnedInWindow(b, window, start, end, rate, burst);
  }

  lemma NoCallsNoGrants(b: Bucket, rate: real, burst: real)
    ensures Grants(b, [], rate, burst) == 0
  {
  }

  /** A call finds the bucket as a refill at that very instant would leave it. */
  lemma TakeAtOnce(b: Bucket, now: real, rate: real, burst: real)
    requires Sound(b, burst) && rate >= 0.0
    ensures var full := Refilled(b, now, rate, burst);
            Sound(full, burst) && full.last == now && Taken(full, now, rate, burst) == Taken(b, now, rate, burst)
  {
    hide Credit;
    CreditAddsUp(rate, Elapsed(b.last, now), 0.0);
  }

  lemma TakeTwice(b: Bucket, a: real, c: real, more: seq<real>)
    ensures var t := Taken(b, a, 1.0, 1.0);
            var u := Taken(t.0, c, 1.0, 1.0);
            Grants(b, [a, c] + more, 1.0, 1.0)
            == (if t.1 then 1 else 0) + (if u.1 then 1 else 0) + Grants(u.0, more, 1.0, 1.0)
  {
    assert ([a, c] + more)[1..] == [c] + more && ([c] + more)[1..] == more;
  }

  /** The window bound does need its instants in order: an interval crossed again is credited again. */
  lemma UnorderedInstantsOverspend()
    ensures Grants(Bucket(0.0, 0.0), [1.0, 0.0, 1.0, 0.0, 1.0, 0.0], 1.0, 1.0) as real > 1.0 + 1.0 * (1.0 - 0.0)
  {
    var empty := Bucket(0.0, 0.0);
    assert Taken(empty, 1.0, 1.0, 1.0) == (Bucket(0.0, 1.0), true);
    assert Taken(Bucket(0.0, 1.0), 0.0, 1.0, 1.0) == (empty, false);
    TakeTwice(empty, 1.0, 0.0, [1.0, 0.0, 1.0, 0.0]);
    TakeTwice(empty, 1.0, 0.0, [1.0, 0.0]);
    TakeTwice(empty, 1.0, 0.0, []);
    assert [1.0, 0.0, 1.0, 0.0, 1.0, 0.0] == [1.0, 0.0] + [1.0, 0.0, 1.0, 0.0];
    assert [1.0, 0.0, 1.0, 0.0] == [1.0, 0.0] + [1.0, 0.0];
    assert [1.0, 0.0] == [1.0, 0.0] + [];
  }

  // ---- The granting side ----------------------------------------------------------------

  /** The bucket a run of calls leaves before its call `k`. */
  function Before(b: Bucket, instants: seq<real>, k: nat, rate: real, burst: real): Bucket
    requires k <= |instants|
  {
    AfterTakes(b, instants[..k], rate, burst)
  }

  /** From its `k`-th call on the run spent more than a full bucket less one token and what was earned up to `now`. */
  ghost predicate SpentSince(b: Bucket, instants: seq<real>, k: nat, now: real, rate: real, burst: real)
    requires k < |instants|
  {
    Grants(Before(b, instants, k, rate, burst), instants[k..], rate, burst) as real
    > burst - 1.0 + Credit(rate, Climb(instants[k], instants[k + 1..] + [now]))
  }

  lemma TurnedDown(b: Bucket, now: real, rate: real, burst: real)
    requires burst >= 1.0 && !Taken(b, now, rate, burst).1
    ensures b.tokens + Credit(rate, Elapsed(b.last, now)) < 1.0
  {
    hide Credit;
  }

  /** A call either fills the bucket or adds all the time earned. */
  lemma TakeExactly(b: Bucket, now: real, rate: real, burst: real)
    ensures var t := Taken(b, now, rate, burst);
            var held := t.0.tokens + if t.1 then 1.0 else 0.0;
            t.0.last == now && (held == burst || held == b.tokens + Credit(rate, Elapsed(b.last, now)))
  {
    hide Credit;
  }

  lemma LaterSpending(b: Bucket, instants: seq<real>, k: nat, now: real, rate: real, burst: real)
    requires instants != [] && k < |instants| - 1
    requires SpentSince(Taken(b, instants[0], rate, burst).0, instants[1..], k, now, rate, burst)
    ensures SpentSince(b, instants, k + 1, now, rate, burst)
  {
    hide Grants, Taken, Credit, Climb;
    var rest := instants[1..];
    assert instants[..k + 1][1..] == rest[..k];
    assert rest[k..] == instants[k + 1..] && rest[k + 1..] == instants[k + 2..];
  }

  /** If the call after a run is turned down, the run spent what it found, or filled the bucket and spent that. */
  lemma {:induction false} DeniedAfter(b: Bucket, instants: seq<real>, now: real, rate: real, burst: real)
    requires burst >= 1.0 && rate >= 0.0
    requires !Taken(AfterTakes(b, instants, rate, burst), now, rate, burst).1
    ensures || Grants(b, instants, rate, burst) as real > b.tokens - 1.0 + Credit(rate, Climb(b.last, instants + [now]))
            || exists k | 0 <= k < |instants| :: SpentSince(b, instants, k, now, rate, burst)
    decreases |instants|
  {
    hide Taken, Credit, SpentSince;
    if instants == [] {
      TurnedDown(b, now, rate, burst);
      assert Climb(b.last, [now]) == Elapsed(b.last, now) + Climb(now, []);
      assert instants + [now] == [now] && [now][1..] == [];
    } else {
      var t, rest := Taken(b, instants[0], rate, burst), instants[1..];
      TakeExactly(b, instants[0], rate, burst);
      DeniedAfter(t.0, rest, now, rate, burst);
      if k :| 0 <= k < |rest| && SpentSince(t.0, rest, k, now, rate, burst) {
        LaterSpending(b, instants, k, now, rate, burst);
      } else {
        assert (instants + [now])[1..] == rest + [now];
        CreditAddsUp(rate, Elapsed(b.last, instants[0]), Climb(instants[0], rest + [now]));
        SpentFromHere(b, instants, now, rate, burst);
      }
    }
  }

  lemma SpentFromHere(b: Bucket, instants: seq<real>, now: real, rate: real, burst: real)
    requires instants != []
    ensures SpentSince(b, instants, 0, now, rate, burst) <==>
              Grants(b, instants, rate, burst) as real
              > burst - 1.0 + Credit(rate, Climb(instants[0], instants[1..] + [now]))
  {
    assert instants[..0] == [] && instants[0..] == instants;
  }

  /**
   * The budget holds nothing back: from a full bucket, a call in order is turned down only if the calls
   * from some instant on were granted more than burst - 1 + rate * (time since that instant) times,
   * which is within one of the most a window may be granted.
   */
  lemma TurnedDownOnlyWhenSpent(b: Bucket, instants: seq<real>, now: real, rate: real, burst: real)
    requires burst >= 1.0 && rate >= 0.0 && b.tokens == burst && OrderedFrom(b.last, instants + [now])
    requires !Taken(AfterTakes(b, instants, rate, burst), now, rate, burst).1
    ensures exists k | 0 <= k < |instants| ::
              Grants(AfterTakes(b, instants[..k], rate, burst), instants[k..], rate, burst) as real
              > burst - 1.0 + rate * (now - instants[k])
  {
    hide Taken, Credit, SpentSince, Climb;
    DeniedAfter(b, instants, now, rate, burst);
    if instants == [] {
      NoCallsNoGrants(b, rate, burst);
      ClimbIsNoLoss(b.last, [now]);
      assert instants + [now] == [now];
      CreditAddsUp(rate, Climb(b.last, [now]), 0.0);
      assert false;
    }
    if !exists k | 0 <= k < |instants| :: SpentSince(b, instants, k, now, rate, burst) {
      FullAtFirst(b, instants, now, rate, burst);
    }
    var k :| 0 <= k < |instants| && SpentSince(b, instants, k, now, rate, burst);
    OrderedTail(b.last, instants, k, now);
    ClimbOfOrdered(instants[k], instants[k + 1..] + [now]);
    SpentInTime(b, instants, k, now, rate, burst);
  }

  lemma SpentInTime(b: Bucket, instants: seq<real>, k: nat, now: real, rate: real, burst: real)
    requires k < |instants| && SpentSince(b, instants, k, now, rate, burst)
    requires Climb(instants[k], instants[k + 1..] + [now]) == now - instants[k]
    ensures Grants(AfterTakes(b, instants[..k], rate, burst), instants[k..], rate, burst) as real
            > burst - 1.0 + rate * (now - instants[k])
  {
    hide Grants, AfterTakes;
    CreditIs(rate, now - instants[k]);
  }

  lemma FullAtFirst(b: Bucket, instants: seq<real>, now: real, rate: real, burst: real)
    requires instants != [] && rate >= 0.0 && b.tokens == burst
    requires Grants(b, instants, rate, burst) as real > burst - 1.0 + Credit(rate, Climb(b.last, instants + [now]))
    ensures SpentSince(b, instants, 0, now, rate, burst)
  {
    hide Grants, Credit, SpentSince;
    SpentFromHere(b, instants, now, rate, burst);
    assert (instants + [now])[1..] == instants[1..] + [now];
    CreditAddsUp(rate, Climb(instants[0], instants[1..] + [now]), Elapsed(b.last, instants[0]));
    CreditAddsUp(rate, Elapsed(b.last, instants[0]), 0.0);
  }

  lemma {:induction false} ClimbIsNoLoss(last: real, instants: seq<real>)
    ensures Climb(last, instants) >= 0.0
    decreases |instants|
  {
    if instants == [] {
    } else {
      ClimbIsNoLoss(instants[0], instants[1..]);
    }
  }

  lemma {:induction false} OrderedTail(last: real, instants: seq<real>, k: nat, now: real)
    requires k < |instants| && OrderedFrom(last, instants + [now])
    ensures OrderedFrom(instants[k], instants[k + 1..] + [now])
    decreases |instants|
  {
    assert (instants + [now])[1..] == instants[1..] + [now];
    if k > 0 {
      OrderedTail(instants[0], instants[1..], k - 1, now);
      assert instants[1..][k..] == instants[k + 1..];
    }
  }

  class Budget {
    var bucket: Bucket
    const perSec: real
    const burst: real

    constructor (perSec: nat, burst: nat, now: real)
      ensures bucket == Bucket(burst as real, now) && this.perSec == perSec as real && this.burst == burst as real
    {
      bucket := Bucket(burst as real, now);
      this.perSec := perSec as real;
      this.burst := burst as real;
    }

    /** Refills, then grants the call and charges it, or turns it down. */
    method TakeAt(now: real) returns (granted: bool)
      modifies this
      ensures (bucket, granted) == Taken(old(bucket), now, perSec, burst)
      ensures var earned := old(bucket).tokens
                            + perSec * (if now > old(bucket).last then now - old(bucket).last else 0.0);
              && (granted <==> earned >= 1.0 && burst >= 1.0)
              && bucket.last == now
              && bucket.tokens + (if granted then 1.0 else 0.0) == if earned < burst then earned else burst
    {
      var elapsed := if now > bucket.last then now - bucket.last else 0.0;
      var tokens := LeastOf(bucket.tokens + Credit(perSec, elapsed), burst);
      if tokens >= 1.0 {
        bucket := Bucket(tokens - 1.0, now);
        granted := true;
      } else {
        bucket := Bucket(tokens, now);
        granted := false;
      }
    }
  }

  // ---- The rejecter ------------------------------------------------------------------------

  datatype Outcome = Sent | Unavailable | Unsupported | SendFailed | RateLimited

  /** The reset a TCP flow's packet calls for. */
  function ResetFor(original: Bytes): Option<RstFields> {
    var at := L4OffsetOf(original);
    if at.None? then None else RstFieldsOf(original[at.value..])
  }

  /** There is something to answer the flow with. */
  predicate Answerable(conn: Connection, original: Bytes) {
    && conn.srcIp.V4? == conn.dstIp.V4?
    && match conn.protocol
       case Tcp => ResetFor(original).Some?
       case Udp => Quote(conn.srcIp.V4?, original).Some?
       case _ => false
  }

  /** The packet is laid out as a refusal of this very flow: from its destination to its source. */
  ghost predicate HasRefusalLayout(packet: Bytes, conn: Connection, original: Bytes) {
    && Answerable(conn, original)
    && (conn.protocol.Tcp? ==>
          HasResetLayout(packet, conn.dstIp, conn.dstPort, conn.srcIp, conn.srcPort, ResetFor(original).value))
    && (conn.protocol.Udp? ==>
          HasUnreachableLayout(packet, conn.dstIp, conn.srcIp, Quote(conn.srcIp.V4?, original).value))
  }

  /** Its checksums verify. */
  ghost predicate RefusalVerifies(packet: Bytes, conn: Connection)
    requires conn.srcIp.V4? == conn.dstIp.V4?
  {
    && (conn.protocol.Tcp? ==> ResetVerifies(packet, conn.dstIp, conn.srcIp))
    && (conn.protocol.Udp? ==> UnreachableVerifies(packet, conn.dstIp, conn.srcIp))
  }

  /** The refusal of a flow, complete. */
  ghost predicate IsRefusalOf(packet: Bytes, conn: Connection, original: Bytes) {
    HasRefusalLayout(packet, conn, original) && RefusalVerifies(packet, conn)
  }

  function Transmitted(socket: bool, sends: bool): Outcome {
    if !socket then Unavailable else if sends then Sent else SendFailed
  }

  /** One refusal asked for: `socket` and `sends` say whether there is one and whether the kernel takes the packet. */
  datatype Call = Call(conn: Connection, original: Bytes, now: real, socket: bool, sends: bool)

  predicate Addressable(conn: Connection) {
    UnicastAddressable(conn.srcIp) && UnicastAddressable(conn.dstIp)
  }

  /** What a refusal does to the bucket, and its outcome. */
  function Rejected(b: Bucket, call: Call, rate: real, burst: real): (Bucket, Outcome) {
    var answer := if Answerable(call.conn, call.original) then Transmitted(call.socket, call.sends) else Unsupported;
    if !Addressable(call.conn) then (b, Unsupported)
    else if call.conn.direction.Outbound? then (b, answer)
    else
      var t := Taken(b, call.now, rate, burst);
      (t.0, if t.1 then answer else RateLimited)
  }

  /** The instants of the calls the budget is asked about. */
  function Charged(calls: seq<Call>): seq<real> {
    if calls == [] then []
    else if Addressable(calls[0].conn) && calls[0].conn.direction.Inbound? then [calls[0].now] + Charged(calls[1..])
    else Charged(calls[1..])
  }

  /** How many refusals of inbound flows are sent over a run of calls. */
  function SentOffBox(b: Bucket, calls: seq<Call>, rate: real, burst: real): nat
    decreases |calls|
  {
    if calls == [] then 0
    else
      var r := Rejected(b, calls[0], rate, burst);
      (if calls[0].conn.direction.Inbound? && r.1.Sent? then 1 else 0) + SentOffBox(r.0, calls[1..], rate, burst)
  }

  lemma {:induction false} SentIsGranted(b: Bucket, calls: seq<Call>, rate: real, burst: real)
    ensures SentOffBox(b, calls, rate, burst) <= Grants(b, Charged(calls), rate, burst)
    decreases |calls|
  {
    hide Taken, Answerable, UnicastAddressable;
    if calls == [] {
    } else {
      var r := Rejected(b, calls[0], rate, burst);
      SentIsGranted(r.0, calls[1..], rate, burst);
      if Addressable(calls[0].conn) && calls[0].conn.direction.Inbound? {
        assert Charged(calls)[1..] == Charged(calls[1..]);
      }
    }
  }

  /** A refusal of an inbound flow that may be sent and that nothing but the budget can stop. */
  predicate IsSendable(call: Call) {
    && call.conn.direction.Inbound? && Addressable(call.conn) && Answerable(call.conn, call.original)
    && call.socket && call.sends
  }

  /** Of such refusals exactly those the budget grants are sent. */
  lemma {:induction false} EveryGrantIsSent(b: Bucket, calls: seq<Call>, rate: real, burst: real)
    requires forall i | 0 <= i < |calls| :: IsSendable(calls[i])
    ensures SentOffBox(b, calls, rate, burst)
            == Grants(b, seq(|calls|, i requires 0 <= i < |calls| => calls[i].now), rate, burst)
    decreases |calls|
  {
    hide Taken, Answerable, Addressable;
    var instants := seq(|calls|, i requires 0 <= i < |calls| => calls[i].now);
    if calls == [] {
    } else {
      assert IsSendable(calls[0]);
      var r, rest := Rejected(b, calls[0], rate, burst), calls[1..];
      assert forall i | 0 <= i < |rest| :: IsSendable(rest[i]);
      EveryGrantIsSent(r.0, rest, rate, burst);
      assert instants[1..] == seq(|rest|, i requires 0 <= i < |rest| => rest[i].now);
    }
  }

  ghost predicate Within(calls: seq<Call>, start: real, end: real) {
    && (forall i | 0 <= i < |calls| :: start <= calls[i].now <= end)
    && (forall i, j | 0 <= i < j < |calls| :: calls[i].now <= calls[j].now)
  }

  lemma {:induction false} ChargedWithin(calls: seq<Call>, start: real, end: real)
    requires Within(calls, start, end)
    ensures NonDecreasing(Charged(calls)) && forall t | t in Charged(calls) :: start <= t <= end
    ensures calls != [] ==> forall t | t in Charged(calls) :: calls[0].now <= t
  {
    hide UnicastAddressable;
    if calls == [] {
    } else {
      ChargedWithin(calls[1..], start, end);
      assert calls[1..] != [] ==> calls[1..][0] == calls[1];
      var rest := Charged(calls[1..]);
      assert forall i | 0 <= i < |rest| :: rest[i] in rest;
    }
  }

  /**
   * The bound end to end: whatever came before, and however inbound, outbound and unanswerable
   * flows are mixed, refusals of inbound flows leave the machine at most burst + rate * (end - start)
   * times in a window [start, end].
   */
  lemma OffBoxWindowBound(b: Bucket, calls: seq<Call>, start: real, end: real, rate: real, burst: real)
    requires Sound(b, burst) && rate >= 0.0 && start <= end && Within(calls, start, end)
    ensures SentOffBox(b, calls, rate, burst) as real <= burst + rate * (end - start)
  {
    hide Grants, SentOffBox, Charged;
    SentIsGranted(b, calls, rate, burst);
    ChargedWithin(calls, start, end);
    WindowBound(b, Charged(calls), start, end, rate, burst);
  }

  class Rejecter {
    const tcp4: bool
    const tcp6: bool
    const icmp4: bool
    const icmp6: bool
    const budget: Budget

    constructor (tcp4: bool, tcp6: bool, icmp4: bool, icmp6: bool, budget: Budget)
      ensures this.budget == budget
      ensures this.tcp4 == tcp4 && this.tcp6 == tcp6 && this.icmp4 == icmp4 && this.icmp6 == icmp6
    {
      this.tcp4, this.tcp6, this.icmp4, this.icmp6 := tcp4, tcp6, icmp4, icmp6;
      this.budget := budget;
    }

    predicate SocketFor(conn: Connection) {
      match conn.protocol
      case Tcp => if conn.srcIp.V4? then tcp4 else tcp6
      case _ => if conn.srcIp.V4? then icmp4 else icmp6
    }

    /**
     * Answers one refused flow, if it may and can. `sends` says whether the kernel takes the packet;
     * `emitted` is what left, if anything did.
     */
    method Reject(conn: Connection, original: Bytes, now: real, sends: bool)
      returns (outcome: Outcome, emitted: Option<Bytes>)
      modifies budget
      ensures emitted.Some? <==> outcome.Sent?
      ensures emitted.Some? ==>
                && UnicastAddressable(conn.srcIp) && UnicastAddressable(conn.dstIp)
                && IsRefusalOf(emitted.value, conn, original) && ReceiverAccepts(emitted.value)
      // a pair that is not unicast is never answered and costs nothing
      ensures !(UnicastAddressable(conn.srcIp) && UnicastAddressable(conn.dstIp)) ==>
                outcome.Unsupported? && budget.bucket == old(budget.bucket)
      // any other is answered whenever there is something to answer it with
      ensures UnicastAddressable(conn.srcIp) && UnicastAddressable(conn.dstIp) && !outcome.RateLimited? ==>
                outcome == if Answerable(conn, original) then Transmitted(SocketFor(conn), sends) else Unsupported
      // on-box refusals never spend a token
      ensures conn.direction.Outbound? ==> budget.bucket == old(budget.bucket) && !outcome.RateLimited?
      ensures (budget.bucket, outcome)
           == Rejected(old(budget.bucket), Call(conn, original, now, SocketFor(conn), sends),
                       budget.perSec, budget.burst)
      // off-box refusals are paid for, one call each
      ensures conn.direction.Inbound? && UnicastAddressable(conn.srcIp) && UnicastAddressable(conn.dstIp) ==>
                var t := Taken(old(budget.bucket), now, budget.perSec, budget.burst);
                budget.bucket == t.0 && (outcome.RateLimited? <==> !t.1)
    {
      if !UnicastAddressable(conn.srcIp) || !UnicastAddressable(conn.dstIp) {
        return Unsupported, None;
      }
      if conn.direction.Inbound? {
        var granted := budget.TakeAt(now);
        if !granted {
          return RateLimited, None;
        }
      }
      match conn.protocol {
        case Tcp => outcome, emitted := RejectTcp(conn, original, sends);
        case Udp => outcome, emitted := RejectUdp(conn, original, sends);
        case _ => return Unsupported, None;
      }
    }

    method RejectTcp(conn: Connection, original: Bytes, sends: bool) returns (outcome: Outcome, emitted: Option<Bytes>)
      requires conn.protocol.Tcp?
      ensures emitted.Some? <==> outcome.Sent?
      ensures emitted.Some? ==> IsRefusalOf(emitted.value, conn, original) && ReceiverAccepts(emitted.value)
      ensures outcome == if Answerable(conn, original) then Transmitted(SocketFor(conn), sends) else Unsupported
    {
      hide HasResetLayout, ResetVerifies, RstFieldsOf, L4OffsetOf, ReceiverAccepts;
      var at := L4Offset(original);
      if at.None? {
        return Unsupported, None;
      }
      var fields := RstFieldsOf(original[at.value..]);
      if fields.None? {
        return Unsupported, None;
      }
      var packet := BuildTcpRst(conn.dstIp, conn.dstPort, conn.srcIp, conn.srcPort, fields.value);
      if packet.None? {
        return Unsupported, None;
      }
      outcome, emitted := Emit(if conn.srcIp.V4? then tcp4 else tcp6, packet.value, sends);
    }

    method RejectUdp(conn: Connection, original: Bytes, sends: bool) returns (outcome: Outcome, emitted: Option<Bytes>)
      requires conn.protocol.Udp?
      ensures emitted.Some? <==> outcome.Sent?
      ensures emitted.Some? ==> IsRefusalOf(emitted.value, conn, original) && ReceiverAccepts(emitted.value)
      ensures outcome == if Answerable(conn, original) then Transmitted(SocketFor(conn), sends) else Unsupported
    {
      hide HasUnreachableLayout, UnreachableVerifies, Quote, ReceiverAccepts;
      var packet := BuildIcmpPortUnreachable(conn.dstIp, conn.srcIp, original);
      if packet.None? {
        return Unsupported, None;
      }
      outcome, emitted := Emit(if conn.srcIp.V4? then icmp4 else icmp6, packet.value, sends);
    }

    method Emit(socket: bool, packet: Bytes, sends: bool) returns (outcome: Outcome, emitted: Option<Bytes>)
      ensures outcome == Transmitted(socket, sends)
      ensures emitted == if outcome.Sent? then Some(packet) else None
    {
      if !socket {
        return Unavailable, None;
      }
      if sends {
        return Sent, Some(packet);
      }
      return SendFailed, None;
    }
  }

  /**
   * End to end: the refusal emitted for a parsed flow parses, at the receiver, as traffic from
   * the flow's destination back to its source, with TCP ports swapped.
   */
  lemma RefusalReturnsToSender(packet: Bytes, original: Bytes, conn: Connection, direction: Direction, r: Parsed)
    requires HasRefusalLayout(packet, conn, original) && ParsesTo(packet, direction, r)
    ensures r.Flow? && r.conn.srcIp == conn.dstIp && r.conn.dstIp == conn.srcIp
    ensures conn.protocol.Tcp? ==>
              r.conn.protocol.Tcp? && r.conn.srcPort == conn.dstPort && r.conn.dstPort == conn.srcPort
    ensures conn.protocol.Udp? ==> r.conn.protocol.Icmp?
  {
    hide HasResetLayout, HasUnreachableLayout, ParsesTo, ResetFor, Quote;
    if conn.protocol.Tcp? {
      var f := ResetFor(original).value;
      ResetRoundTrips(packet, conn.dstIp, conn.dstPort, conn.srcIp, conn.srcPort, f, direction, r);
    } else {
      UnreachableRoundTrips(packet, conn.dstIp, conn.srcIp, original, direction, r);
    }
  }

  // ---- When there is an answer --------------------------------------------------------------

  /**
   * A parsed TCP flow can be refused exactly when its whole fixed header is there and it is no
   * reset; a UDP flow over IPv4 exactly when eight bytes of it are there; one over IPv6 always.
   */
  lemma AnswerableExactly(original: Bytes, direction: Direction, r: Parsed)
    requires ParsesTo(original, direction, r) && r.Flow? && (r.conn.protocol.Tcp? || r.conn.protocol.Udp?)
    ensures L4OffsetOf(original).Some?
    ensures var at := L4OffsetOf(original).value;
            Answerable(r.conn, original) <==>
              if r.conn.protocol.Tcp? then
                |original| >= at + 20 && original[at + 13] / 4 % 2 == 0
              else r.conn.srcIp.V6? || |original| >= at + 8
  {
    var at := L4OffsetOf(original);
    if at.Some? && |original| >= at.value + 20 {
      FlagsAreBits(original[at.value + 13]);
    }
    hide L4OffsetOf, Walk, Word, HasFlag, U32At, SegmentLength;
    RefusalPathFindsThePorts(original, direction, r);
    FamilyIsVersion(original, direction, r);
    SameFamilies(original, direction, r);
  }

  lemma SameFamilies(original: Bytes, direction: Direction, r: Parsed)
    requires ParsesTo(original, direction, r) && r.Flow?
    ensures r.conn.srcIp.V4? == r.conn.dstIp.V4?
  {
    hide Walk, Word;
  }
}
