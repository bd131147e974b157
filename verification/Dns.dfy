/**
 * Hostnames for addresses, in two maps. `policy` holds only names a reverse lookup confirmed;
 * `cache` decorates flows and also takes names lifted out of uncorrelated DNS responses. Lookups
 * are concurrent tasks; `Observe` is the untrusted input.
 */
module Dns {
  import opened CoreTypes

  const SECOND: int := 1_000_000_000
  const CACHE_TTL: int := 300 * SECOND
  const NEGATIVE_TTL: int := 60 * SECOND
  const OBSERVED_MIN_TTL_SECS: int := 60
  const OBSERVED_MAX_TTL_SECS: int := 3600
  const CACHE_MAX_ENTRIES: nat := 4096
  const LOOKUP_MAX_IN_FLIGHT: nat := 8

  // ---- Entries -----------------------------------------------------------------------

  datatype Trust = Ptr | Observed {
    function Rank(): nat {
      if Ptr? then 0 else 1
    }
  }

  /** Instants and durations count nanoseconds. */
  datatype Entry = Entry(hostname: Option<string>, inserted: int, inFlight: bool, trust: Trust, ttl: int) {
    predicate IsFresh(now: int) {
      && !inFlight
      && (if now < inserted then 0 else now - inserted) <= ttl
    }

    /** May a new name of this trust replace the entry? */
    predicate Supersedes(newer: Trust, now: int) {
      newer.Rank() >= trust.Rank() || !IsFresh(now)
    }
  }

  /** No older than it may get; an entry from the future has no age. */
  ghost predicate IsCurrent(e: Entry, now: int) {
    (if now < e.inserted then 0 else now - e.inserted) <= e.ttl
  }

  lemma EntriesOnFields(e: Entry, newer: Trust, now: int)
    ensures e.IsFresh(now) <==> !e.inFlight && IsCurrent(e, now)
    ensures e.ttl >= 0 ==> (IsCurrent(e, now) <==> now <= e.inserted + e.ttl)
    ensures e.Supersedes(newer, now) <==> newer == e.trust || newer == Observed || e.inFlight || !IsCurrent(e, now)
  {
  }

  type Cache = map<IpAddr, Entry>

  function Shown(m: Cache, ip: IpAddr, now: int): Option<string> {
    if ip in m && m[ip].IsFresh(now) then m[ip].hostname else None
  }

  // ---- Names -------------------------------------------------------------------------

  function TrimDots(name: string): string {
    if name != "" && name[|name| - 1] == '.' then TrimDots(name[..|name| - 1]) else name
  }

  function Lower(c: char): char {
    if 'A' <= c <= 'Z' then (c as int + 32) as char else c
  }

  function LowerAll(name: string): string {
    seq(|name|, i requires 0 <= i < |name| => Lower(name[i]))
  }

  predicate IsHostChar(c: char) {
    'a' <= c <= 'z' || 'A' <= c <= 'Z' || '0' <= c <= '9' || c == '-' || c == '_' || c == '.'
  }

  /** The bare lowercase form of an observed name, or none if it is no hostname. */
  function Cleaned(name: string): Option<string> {
    var bare := LowerAll(TrimDots(name));
    if bare == "" || exists i | 0 <= i < |bare| :: !IsHostChar(bare[i]) then None else Some(bare)
  }

  lemma {:induction false} TrimDotsStops(name: string)
    ensures TrimDots(name) == "" || TrimDots(name)[|TrimDots(name)| - 1] != '.'
  {
    if name != "" && name[|name| - 1] == '.' {
      TrimDotsStops(name[..|name| - 1]);
    }
  }

  /**
   * A cleaned name is canonical: not empty, only lowercase hostname characters (so no space,
   * parenthesis or semicolon that could pose as a label), no final dot, and clean already. A
   * final dot on the wire makes no difference.
   */
  lemma CleanedIsCanonical(name: string)
    ensures Cleaned(name).Some? ==>
              var bare := Cleaned(name).value;
              && bare != "" && bare[|bare| - 1] != '.' && Cleaned(bare) == Some(bare)
              && forall i | 0 <= i < |bare| :: IsHostChar(bare[i]) && !('A' <= bare[i] <= 'Z')
    ensures Cleaned(name + ".") == Cleaned(name)
  {
    TrimDotsStops(name);
    assert (name + ".")[..|name|] == name;
    if Cleaned(name).Some? {
      var bare := Cleaned(name).value;
      assert forall i | 0 <= i < |bare| :: bare[i] == Lower(TrimDots(name)[i]);
      assert TrimDots(bare) == bare;
      assert LowerAll(bare) == bare;
    }
  }

  function Dots(n: nat): string {
    seq(n, _ => '.')
  }

  /** The core of a name, and how many dots end it. */
  lemma {:induction false} DotsApart(name: string) returns (core: string, n: nat)
    ensures name == core + Dots(n) && (core == "" || core[|core| - 1] != '.')
  {
    if name == "" || name[|name| - 1] != '.' {
      core, n := name, 0;
    } else {
      var m;
      core, m := DotsApart(name[..|name| - 1]);
      n := m + 1;
      assert name == name[..|name| - 1] + ".";
      assert Dots(n) == Dots(m) + ".";
    }
  }

  lemma {:induction false} TrimsDots(core: string, n: nat)
    requires core == "" || core[|core| - 1] != '.'
    ensures TrimDots(core + Dots(n)) == core
    decreases n
  {
    if n == 0 {
      assert core + Dots(0) == core;
    } else {
      var name := core + Dots(n);
      assert name[|name| - 1] == '.' && name[..|name| - 1] == core + Dots(n - 1);
      TrimsDots(core, n - 1);
    }
  }

  /**
   * Exactly what cleaning does, whatever dots end the name: a core of letters, digits, hyphens,
   * underscores and inner dots is taken, its capitals made small, and nothing else is.
   */
  lemma CleanedExactly(core: string, n: nat)
    requires core == "" || core[|core| - 1] != '.'
    ensures Cleaned(core + Dots(n)).Some? <==>
              && core != ""
              && forall i | 0 <= i < |core| ::
                   || 'a' <= core[i] <= 'z' || 'A' <= core[i] <= 'Z' || '0' <= core[i] <= '9'
                   || core[i] == '-' || core[i] == '_' || core[i] == '.'
    ensures Cleaned(core + Dots(n)).Some? ==>
              var bare := Cleaned(core + Dots(n)).value;
              && |bare| == |core|
              && forall i | 0 <= i < |core| ::
                   bare[i] == if 'A' <= core[i] <= 'Z' then (core[i] as int - 'A' as int + 'a' as int) as char
                              else core[i]
  {
    TrimsDots(core, n);
    hide TrimDots;
    var bare := LowerAll(core);
    assert forall i | 0 <= i < |core| :: bare[i] == Lower(core[i]) && (IsHostChar(bare[i]) <==> IsHostChar(core[i]));
  }

  function ObservedTtl(secs: u32): int {
    (if secs < OBSERVED_MIN_TTL_SECS then OBSERVED_MIN_TTL_SECS
     else if secs > OBSERVED_MAX_TTL_SECS then OBSERVED_MAX_TTL_SECS
     else secs) * SECOND
  }

  function ObservedEntry(bare: string, secs: u32, now: int): Entry {
    Entry(Some(bare), now, false, Observed, ObservedTtl(secs))
  }

  function Reservation(now: int): Entry {
    Entry(None, now, true, Ptr, NEGATIVE_TTL)
  }

  function PtrEntry(hostname: Option<string>, now: int): Entry {
    Entry(hostname, now, false, Ptr, if hostname.Some? then CACHE_TTL else NEGATIVE_TTL)
  }

  // ---- Forward confirmation ------------------------------------------------------------

  /** The IPv4 address a v4-mapped IPv6 address stands for. */
  function Canonical(ip: IpAddr): IpAddr {
    if ip.V6? && ip.v6[..12] == [0, 0, 0, 0, 0, 0, 0, 0, 0, 0, 255, 255] then V4(ip.v6[12..]) else ip
  }

  predicate Covers(forward: seq<IpAddr>, ip: IpAddr) {
    exists i | 0 <= i < |forward| :: Canonical(forward[i]) == Canonical(ip)
  }

  /** What a lookup job reports: the reverse name, if its own addresses lead back. */
  function Confirmed(ip: IpAddr, name: Option<string>, forward: seq<IpAddr>): Option<string> {
    if name.Some? && Covers(forward, ip) then name else None
  }

  /** `six` is the IPv4 address `four` in IPv6 clothes. */
  predicate Maps(six: IpAddr, four: IpAddr) {
    six.V6? && four.V4? && six.v6 == [0, 0, 0, 0, 0, 0, 0, 0, 0, 0, 255, 255] + four.v4
  }

  /** Equal, or one and the same IPv4 address in two forms. */
  predicate SameHost(a: IpAddr, b: IpAddr) {
    a == b || Maps(a, b) || Maps(b, a)
  }

  lemma CanonicalIs(a: IpAddr, b: IpAddr)
    ensures Canonical(a) == Canonical(b) <==> SameHost(a, b)
  {
    if a.V6? {
      assert a.v6 == a.v6[..12] + a.v6[12..];
    }
    if b.V6? {
      assert b.v6 == b.v6[..12] + b.v6[12..];
    }
  }

  /** A name is confirmed exactly when one of its addresses is the one asked about, in either form. */
  lemma ConfirmedExactly(ip: IpAddr, name: Option<string>, forward: seq<IpAddr>)
    ensures Confirmed(ip, name, forward)
            == if exists i | 0 <= i < |forward| :: SameHost(forward[i], ip) then name else None
  {
    hide Canonical;
    forall a ensures Canonical(a) == Canonical(ip) <==> SameHost(a, ip) {
      CanonicalIs(a, ip);
    }
  }

  // ---- Eviction ------------------------------------------------------------------------

  predicate IsOldest(m: Cache, ip: IpAddr) {
    ip in m && forall other | other in m :: m[ip].inserted <= m[other].inserted
  }

  /** `room` is `m` with its oldest entry dropped if it is full. */
  ghost predicate Evicts(m: Cache, room: Cache) {
    if |m| < 4096 then room == m
    else exists victim :: IsOldest(m, victim) && room == m - {victim}
  }

  lemma {:induction false} OldestExists(m: Cache)
    requires m != map[]
    ensures exists ip :: IsOldest(m, ip)
    decreases |m|
  {
    var some :| some in m;
    var rest := m - {some};
    if rest == map[] {
      assert forall other | other in m && other != some :: other in rest;
      assert IsOldest(m, some);
    } else {
      assert |rest| < |m| by {
        assert rest.Keys == m.Keys - {some};
      }
      OldestExists(rest);
      var ip :| IsOldest(rest, ip);
      var oldest := if m[some].inserted < m[ip].inserted then some else ip;
      forall other | other in m ensures m[oldest].inserted <= m[other].inserted {
        assert other == some || other in rest;
      }
      assert IsOldest(m, oldest);
    }
  }

  /** Which of several oldest entries goes depends on nothing but the map. */
  ghost function Oldest(m: Cache): (ip: IpAddr)
    requires m != map[]
    ensures IsOldest(m, ip)
  {
    OldestExists(m);
    var ip :| IsOldest(m, ip);
    ip
  }

  ghost function Evicted(m: Cache): (room: Cache)
    requires |m| <= CACHE_MAX_ENTRIES
    ensures Evicts(m, room) && |room| < CACHE_MAX_ENTRIES
  {
    if |m| < CACHE_MAX_ENTRIES then m
    else
      assert m != map[];
      RemovingShrinks(m, Oldest(m));
      m - {Oldest(m)}
  }

  lemma RemovingShrinks(m: Cache, ip: IpAddr)
    requires ip in m
    ensures |m - {ip}| == |m| - 1
  {
    assert (m - {ip}).Keys == m.Keys - {ip};
  }

  lemma InsertGrows(m: Cache, ip: IpAddr, e: Entry)
    ensures |m[ip := e]| == if ip in m then |m| else |m| + 1
  {
    assert m[ip := e].Keys == m.Keys + {ip};
  }

  // ---- The machine ------------------------------------------------------------------------

  datatype Finding = Finding(ip: IpAddr, hostname: Option<string>)
  datatype Filing = Filing(ip: IpAddr, entry: Entry)
  datatype Answer = Answer(ip: IpAddr, now: int, hostname: Option<string>)

  /**
   * A lookup task passed the first check (`checked`), took a permit (`admitted`), reserved and runs
   * (`resolving`), has a result (`recording`), and has filed it for policy but not for display
   * (`filing`). `answers` logs what policy reads returned.
   */
  datatype State = State(
    cache: Cache,
    policy: Cache,
    checked: multiset<IpAddr>,
    admitted: multiset<IpAddr>,
    resolving: multiset<IpAddr>,
    recording: multiset<Finding>,
    filing: multiset<Filing>,
    answers: seq<Answer>)

  const EMPTY: State :=
    State(map[], map[], multiset{}, multiset{}, multiset{}, multiset{}, multiset{}, [])

  datatype Step =
    | Observe(ip: IpAddr, name: string, secs: u32, now: int)
    | Check(ip: IpAddr, now: int)
    | Acquire(ip: IpAddr)
    | Reserve(ip: IpAddr, now: int)
    | Resolve(ip: IpAddr, reverse: Option<string>, forward: seq<IpAddr>)
    | RecordPolicy(finding: Finding, now: int)
    | RecordDisplay(filed: Filing)
    | ReadPolicy(ip: IpAddr, now: int)

  predicate Enabled(s: State, step: Step) {
    match step
    case Observe(_, _, _, _) => true
    case Check(_, _) => true
    case Acquire(ip) => ip in s.checked
    case Reserve(ip, _) => ip in s.admitted
    case Resolve(ip, _, _) => ip in s.resolving
    case RecordPolicy(finding, _) => finding in s.recording
    case RecordDisplay(filed) => filed in s.filing
    case ReadPolicy(_, _) => true
  }

  /** Is a lookup for `ip` needless, being under way or still answered? */
  predicate Settled(policy: Cache, ip: IpAddr, now: int) {
    ip in policy && (policy[ip].inFlight || policy[ip].IsFresh(now))
  }

  ghost function Observing(cache: Cache, ip: IpAddr, name: string, secs: u32, now: int): Cache
    requires |cache| <= CACHE_MAX_ENTRIES
  {
    var bare := Cleaned(name);
    if bare.None? || (ip in cache && !cache[ip].Supersedes(Observed, now)) then cache
    else Evicted(cache)[ip := ObservedEntry(bare.value, secs, now)]
  }

  ghost function Displaying(cache: Cache, ip: IpAddr, entry: Entry): Cache
    requires |cache| <= CACHE_MAX_ENTRIES
  {
    if ip in cache && !cache[ip].Supersedes(Ptr, entry.inserted) then cache
    else (if ip in cache then cache else Evicted(cache))[ip := entry]
  }

  ghost predicate Bounded(s: State) {
    && |s.cache| <= CACHE_MAX_ENTRIES && |s.policy| <= CACHE_MAX_ENTRIES
    && |s.admitted| + |s.resolving| <= LOOKUP_MAX_IN_FLIGHT
  }

  ghost function Next(s: State, step: Step): State
    requires Bounded(s) && Enabled(s, step)
  {
    match step
    case Observe(ip, name, secs, now) => s.(cache := Observing(s.cache, ip, name, secs, now))
    case Check(ip, now) => if Settled(s.policy, ip, now) then s else s.(checked := s.checked + multiset{ip})
    case Acquire(ip) =>
      var rest := s.checked - multiset{ip};
      if |s.admitted| + |s.resolving| < LOOKUP_MAX_IN_FLIGHT
      then s.(checked := rest, admitted := s.admitted + multiset{ip})
      else s.(checked := rest)
    case Reserve(ip, now) =>
      var rest := s.admitted - multiset{ip};
      if Settled(s.policy, ip, now) then s.(admitted := rest)
      else s.(admitted := rest, resolving := s.resolving + multiset{ip},
              policy := Evicted(s.policy)[ip := Reservation(now)])
    case Resolve(ip, reverse, forward) =>
      s.(resolving := s.resolving - multiset{ip},
         recording := s.recording + multiset{Finding(ip, Confirmed(ip, reverse, forward))})
    case RecordPolicy(finding, now) =>
      var rest := s.recording - multiset{finding};
      if finding.ip !in s.policy then s.(recording := rest)
      else
        var entry := PtrEntry(finding.hostname, now);
        s.(recording := rest, policy := s.policy[finding.ip := entry],
           filing := s.filing + multiset{Filing(finding.ip, entry)})
    case RecordDisplay(filed) =>
      s.(filing := s.filing - multiset{filed}, cache := Displaying(s.cache, filed.ip, filed.entry))
    case ReadPolicy(ip, now) => s.(answers := s.answers + [Answer(ip, now, Shown(s.policy, ip, now))])
  }

  // ---- Bounds, reservations, trust -----------------------------------------------------------

  /** A task that will still settle the reservation for `ip`. */
  ghost predicate Outstanding(s: State, ip: IpAddr) {
    ip in s.resolving || exists hostname :: Finding(ip, hostname) in s.recording
  }

  ghost predicate Reserved(s: State) {
    forall ip | ip in s.policy && s.policy[ip].inFlight :: Outstanding(s, ip)
  }

  ghost predicate Inv(s: State) {
    Bounded(s) && Reserved(s)
  }

  lemma ObservingStaysBounded(cache: Cache, ip: IpAddr, name: string, secs: u32, now: int)
    requires |cache| <= CACHE_MAX_ENTRIES
    ensures |Observing(cache, ip, name, secs, now)| <= CACHE_MAX_ENTRIES
  {
    var bare := Cleaned(name);
    if bare.Some? {
      InsertGrows(Evicted(cache), ip, ObservedEntry(bare.value, secs, now));
    }
  }

  lemma DisplayingStaysBounded(cache: Cache, ip: IpAddr, entry: Entry)
    requires |cache| <= CACHE_MAX_ENTRIES
    ensures |Displaying(cache, ip, entry)| <= CACHE_MAX_ENTRIES
  {
    InsertGrows(if ip in cache then cache else Evicted(cache), ip, entry);
  }

  lemma OneLess(m: multiset<IpAddr>, ip: IpAddr)
    requires ip in m
    ensures |m - multiset{ip}| == |m| - 1
  {
  }

  lemma StepKeepsPermits(s: State, step: Step)
    requires Bounded(s) && Enabled(s, step)
    ensures |Next(s, step).admitted| + |Next(s, step).resolving| <= LOOKUP_MAX_IN_FLIGHT
  {
    hide Observing, Displaying, Evicted, Shown, Settled, Confirmed, PtrEntry, Reservation;
    match step {
      case Reserve(ip, _) => OneLess(s.admitted, ip);
      case Resolve(ip, _, _) => OneLess(s.resolving, ip);
      case _ =>
    }
  }

  lemma StepKeepsMapsBounded(s: State, step: Step)
    requires Bounded(s) && Enabled(s, step)
    ensures |Next(s, step).cache| <= CACHE_MAX_ENTRIES && |Next(s, step).policy| <= CACHE_MAX_ENTRIES
  {
    hide Observing, Displaying, Evicted, Shown, Settled, Confirmed, PtrEntry, Reservation;
    match step {
      case Observe(ip, name, secs, now) => ObservingStaysBounded(s.cache, ip, name, secs, now);
      case Reserve(ip, now) => InsertGrows(Evicted(s.policy), ip, Reservation(now));
      case RecordPolicy(finding, now) => InsertGrows(s.policy, finding.ip, PtrEntry(finding.hostname, now));
      case RecordDisplay(filed) => DisplayingStaysBounded(s.cache, filed.ip, filed.entry);
      case _ =>
    }
  }

  lemma StepKeepsBounds(s: State, step: Step)
    requires Bounded(s) && Enabled(s, step)
    ensures Bounded(Next(s, step))
  {
    hide Next;
    StepKeepsPermits(s, step);
    StepKeepsMapsBounded(s, step);
  }

  lemma EvictedHolds(m: Cache, ip: IpAddr)
    requires |m| <= CACHE_MAX_ENTRIES && ip in Evicted(m)
    ensures ip in m && Evicted(m)[ip] == m[ip]
  {
  }

  /** Tasks that are neither started nor finished stay outstanding. */
  lemma StaysOutstanding(s: State, n: State, ip: IpAddr)
    requires Outstanding(s, ip)
    requires ip in s.resolving ==> ip in n.resolving
    requires forall f | f in s.recording :: f.ip == ip ==> f in n.recording
    ensures Outstanding(n, ip)
  {
    if ip !in s.resolving {
      var hostname :| Finding(ip, hostname) in s.recording;
      assert Finding(ip, hostname) in n.recording;
    }
  }

  lemma ReserveKeepsReservations(s: State, at: IpAddr, now: int)
    requires Inv(s) && at in s.admitted
    ensures Reserved(Next(s, Reserve(at, now)))
  {
    hide Evicted;
    var n := Next(s, Reserve(at, now));
    forall ip | ip in n.policy && n.policy[ip].inFlight && ip !in n.resolving ensures Outstanding(n, ip) {
      if n.policy != s.policy {
        EvictedHolds(s.policy, ip);
      }
      StaysOutstanding(s, n, ip);
    }
  }

  lemma ResolveKeepsReservations(s: State, at: IpAddr, reverse: Option<string>, forward: seq<IpAddr>)
    requires Inv(s) && at in s.resolving
    ensures Reserved(Next(s, Resolve(at, reverse, forward)))
  {
    hide Confirmed;
    var n := Next(s, Resolve(at, reverse, forward));
    assert Finding(at, Confirmed(at, reverse, forward)) in n.recording;
    forall ip | ip in n.policy && n.policy[ip].inFlight && ip != at ensures Outstanding(n, ip) {
      StaysOutstanding(s, n, ip);
    }
  }

  lemma RecordKeepsReservations(s: State, finding: Finding, now: int)
    requires Inv(s) && finding in s.recording
    ensures Reserved(Next(s, RecordPolicy(finding, now)))
  {
    var n := Next(s, RecordPolicy(finding, now));
    forall ip | ip in n.policy && n.policy[ip].inFlight ensures Outstanding(n, ip) {
      StaysOutstanding(s, n, ip);
    }
  }

  lemma StepKeepsReservations(s: State, step: Step)
    requires Inv(s) && Enabled(s, step)
    ensures Reserved(Next(s, step))
  {
    hide Observing, Displaying, Evicted, Shown, Confirmed, Settled, Outstanding;
    match step {
      case Reserve(ip, now) => ReserveKeepsReservations(s, ip, now);
      case Resolve(ip, reverse, forward) => ResolveKeepsReservations(s, ip, reverse, forward);
      case RecordPolicy(finding, now) => RecordKeepsReservations(s, finding, now);
      case _ =>
        var n := Next(s, step);
        forall ip | ip in n.policy && n.policy[ip].inFlight ensures Outstanding(n, ip) {
          assert Outstanding(s, ip);
          StaysOutstanding(s, n, ip);
        }
    }
  }

  // ---- Runs -----------------------------------------------------------------------------------

  ghost predicate Executable(s: State, run: seq<Step>)
    requires Bounded(s)
    decreases |run|
  {
    run == [] ||
    (Enabled(s, run[0]) && (StepKeepsBounds(s, run[0]); Executable(Next(s, run[0]), run[1..])))
  }

  ghost function After(s: State, run: seq<Step>): State
    requires Bounded(s) && Executable(s, run)
    decreases |run|
  {
    if run == [] then s else
      StepKeepsBounds(s, run[0]);
      After(Next(s, run[0]), run[1..])
  }

  lemma {:induction false} RunKeepsInv(s: State, run: seq<Step>)
    requires Inv(s) && Executable(s, run)
    ensures Inv(After(s, run))
    decreases |run|
  {
    if run == [] {
    } else {
      StepKeepsBounds(s, run[0]);
      StepKeepsReservations(s, run[0]);
      RunKeepsInv(Next(s, run[0]), run[1..]);
    }
  }

  /**
   * Over every run both maps stay within 4096 entries and at most eight lookups hold a permit; a
   * reservation always has a task that will settle it, so when all tasks are done none is left
   * to block further lookups of its address.
   */
  lemma ResourcesAreBounded(run: seq<Step>)
    requires Executable(EMPTY, run)
    ensures var s := After(EMPTY, run);
            && |s.cache| <= 4096 && |s.policy| <= 4096 && |s.admitted| + |s.resolving| <= 8
            && (forall ip | ip in s.policy && s.policy[ip].inFlight :: Outstanding(s, ip))
            && (s.resolving == multiset{} && s.recording == multiset{} ==>
                  forall ip | ip in s.policy :: !s.policy[ip].inFlight)
  {
    RunKeepsInv(EMPTY, run);
  }

  // ---- Non-interference -----------------------------------------------------------------------

  /** Everything but the display map. */
  function View(s: State): State {
    s.(cache := map[])
  }

  function WithoutObservations(run: seq<Step>): seq<Step> {
    if run == [] then []
    else if run[0].Observe? then WithoutObservations(run[1..])
    else [run[0]] + WithoutObservations(run[1..])
  }

  lemma ObservationIsInvisible(s: State, step: Step)
    requires Bounded(s) && step.Observe?
    ensures View(Next(s, step)) == View(s)
  {
  }

  lemma StepsLookAlike(s: State, t: State, step: Step)
    requires Bounded(s) && Bounded(t) && View(s) == View(t) && Enabled(s, step)
    ensures Enabled(t, step) && View(Next(s, step)) == View(Next(t, step))
  {
    hide Observing, Displaying, Evicted, Shown, Settled;
  }

  /**
   * Non-interference: leaving every observed response out of a run gives a run that ends with the
   * same policy names, the same lookups under way and the same answer to every policy read.
   */
  lemma {:induction false} ObservationsDoNotInterfere(s: State, t: State, run: seq<Step>)
    requires Bounded(s) && Bounded(t) && View(s) == View(t) && Executable(s, run)
    ensures Executable(t, WithoutObservations(run))
    ensures View(After(t, WithoutObservations(run))) == View(After(s, run))
    decreases |run|
  {
    if run == [] {
    } else {
      StepKeepsBounds(s, run[0]);
      if run[0].Observe? {
        ObservationIsInvisible(s, run[0]);
        ObservationsDoNotInterfere(Next(s, run[0]), t, run[1..]);
      } else {
        StepsLookAlike(s, t, run[0]);
        StepKeepsBounds(t, run[0]);
        ObservationsDoNotInterfere(Next(s, run[0]), Next(t, run[0]), run[1..]);
        assert WithoutObservations(run)[1..] == WithoutObservations(run[1..]);
      }
    }
  }

  lemma PolicyAnswersIgnoreObservations(run: seq<Step>)
    requires Executable(EMPTY, run)
    ensures Executable(EMPTY, WithoutObservations(run))
    ensures After(EMPTY, WithoutObservations(run)).answers == After(EMPTY, run).answers
    ensures After(EMPTY, WithoutObservations(run)).policy == After(EMPTY, run).policy
  {
    ObservationsDoNotInterfere(EMPTY, EMPTY, run);
    assert View(After(EMPTY, run)).answers == After(EMPTY, run).answers;
  }

  // ---- Where names come from --------------------------------------------------------------------

  /** Some lookup of `ip` was answered with this name, one of whose addresses is `ip` in either form. */
  ghost predicate Reported(history: set<Step>, ip: IpAddr, name: string) {
    exists forward, i :: Resolve(ip, Some(name), forward) in history
                         && 0 <= i < |forward| && SameHost(forward[i], ip)
  }

  ghost predicate PtrSourced(history: set<Step>, ip: IpAddr, e: Entry) {
    && e.trust.Ptr?
    && (e.hostname.Some? ==>
          && e.ttl == 300_000_000_000 && RecordPolicy(Finding(ip, e.hostname), e.inserted) in history
          && Reported(history, ip, e.hostname.value))
  }

  ghost predicate ObservedSourced(history: set<Step>, ip: IpAddr, e: Entry) {
    exists name, secs :: Observe(ip, name, secs, e.inserted) in history
                         && Cleaned(name).Some? && e == ObservedEntry(Cleaned(name).value, secs, e.inserted)
  }

  ghost predicate DisplaySourced(history: set<Step>, ip: IpAddr, e: Entry) {
    PtrSourced(history, ip, e) || ObservedSourced(history, ip, e)
  }

  ghost predicate FindingSourced(history: set<Step>, f: Finding) {
    f.hostname.Some? ==> Reported(history, f.ip, f.hostname.value)
  }

  ghost predicate AnswerSourced(history: set<Step>, a: Answer) {
    a.hostname.Some? ==>
      && Reported(history, a.ip, a.hostname.value)
      && exists t :: RecordPolicy(Finding(a.ip, a.hostname), t) in history && a.now - t <= 300_000_000_000
  }

  ghost predicate Sourced(s: State, history: set<Step>) {
    && (forall ip | ip in s.policy :: PtrSourced(history, ip, s.policy[ip]))
    && (forall ip | ip in s.cache :: DisplaySourced(history, ip, s.cache[ip]))
    && (forall f | f in s.recording :: FindingSourced(history, f))
    && (forall f | f in s.filing :: PtrSourced(history, f.ip, f.entry))
    && (forall i | 0 <= i < |s.answers| :: AnswerSourced(history, s.answers[i]))
  }

  lemma HistoryGrows(s: State, history: set<Step>, step: Step)
    requires Sourced(s, history)
    ensures Sourced(s, history + {step})
  {
    var more := history + {step};
    forall ip, name | Reported(history, ip, name) ensures Reported(more, ip, name) {
      var forward, i :| Resolve(ip, Some(name), forward) in history
                        && 0 <= i < |forward| && SameHost(forward[i], ip);
      assert Resolve(ip, Some(name), forward) in more;
    }
    forall ip, e | ObservedSourced(history, ip, e) ensures ObservedSourced(more, ip, e) {
      var name, secs :| Observe(ip, name, secs, e.inserted) in history
                        && Cleaned(name).Some? && e == ObservedEntry(Cleaned(name).value, secs, e.inserted);
      assert Observe(ip, name, secs, e.inserted) in more;
    }
    forall a | AnswerSourced(history, a) ensures AnswerSourced(more, a) {
      if a.hostname.Some? {
        var t :| RecordPolicy(Finding(a.ip, a.hostname), t) in history && a.now - t <= 300_000_000_000;
        assert RecordPolicy(Finding(a.ip, a.hostname), t) in more;
      }
    }
  }

  lemma ObserveKeepsSources(s: State, step: Step, history: set<Step>)
    requires Bounded(s) && step.Observe? && Sourced(s, history) && step in history
    ensures Sourced(Next(s, step), history)
  {
    hide PtrSourced, FindingSourced, AnswerSourced, Evicted, Cleaned, ObservedTtl;
    var n := Next(s, step);
    forall ip | ip in n.cache ensures DisplaySourced(history, ip, n.cache[ip]) {
      if ip in s.cache && n.cache[ip] == s.cache[ip] {
      } else if ip == step.ip {
        assert ObservedSourced(history, ip, n.cache[ip]);
      } else {
        EvictedHolds(s.cache, ip);
      }
    }
  }

  lemma DisplayKeepsSources(s: State, step: Step, history: set<Step>)
    requires Bounded(s) && step.RecordDisplay? && Enabled(s, step) && Sourced(s, history)
    ensures Sourced(Next(s, step), history)
  {
    hide PtrSourced, ObservedSourced, FindingSourced, AnswerSourced, Evicted;
    var n := Next(s, step);
    forall ip | ip in n.cache ensures DisplaySourced(history, ip, n.cache[ip]) {
      if ip != step.filed.ip && ip !in s.cache {
        EvictedHolds(s.cache, ip);
      } else if ip != step.filed.ip && n.cache[ip] != s.cache[ip] {
        EvictedHolds(s.cache, ip);
      }
    }
  }

  lemma ReserveKeepsSources(s: State, step: Step, history: set<Step>)
    requires Bounded(s) && step.Reserve? && Enabled(s, step) && Sourced(s, history)
    ensures Sourced(Next(s, step), history)
  {
    hide DisplaySourced, AnswerSourced, FindingSourced, Evicted, Settled, Reported;
    var n := Next(s, step);
    forall ip | ip in n.policy ensures PtrSourced(history, ip, n.policy[ip]) {
      if ip != step.ip && n.policy != s.policy {
        EvictedHolds(s.policy, ip);
      }
    }
  }

  lemma RecordKeepsSources(s: State, step: Step, history: set<Step>)
    requires Bounded(s) && step.RecordPolicy? && Enabled(s, step) && Sourced(s, history) && step in history
    ensures Sourced(Next(s, step), history)
  {
    hide DisplaySourced, AnswerSourced, Reported, PtrSourced;
    assert PtrSourced(history, step.finding.ip, PtrEntry(step.finding.hostname, step.now)) by {
      EntrySourced(history, step.finding, step.now);
    }
  }

  lemma EntrySourced(history: set<Step>, f: Finding, now: int)
    requires FindingSourced(history, f) && RecordPolicy(f, now) in history
    ensures PtrSourced(history, f.ip, PtrEntry(f.hostname, now))
  {
    hide Reported;
  }

  lemma ReadKeepsSources(s: State, step: Step, history: set<Step>)
    requires Bounded(s) && step.ReadPolicy? && Sourced(s, history)
    ensures Sourced(Next(s, step), history)
  {
    hide DisplaySourced, Reported, FindingSourced;
    var n := Next(s, step);
    var a := n.answers[|s.answers|];
    if a.hostname.Some? {
      assert PtrSourced(history, a.ip, s.policy[a.ip]);
    }
    assert AnswerSourced(history, a);
  }

  lemma ResolveKeepsSources(s: State, step: Step, history: set<Step>)
    requires Bounded(s) && step.Resolve? && Enabled(s, step) && Sourced(s, history) && step in history
    ensures Sourced(Next(s, step), history)
  {
    hide DisplaySourced, PtrSourced, AnswerSourced, Confirmed, SameHost;
    ConfirmedExactly(step.ip, step.reverse, step.forward);
    assert FindingSourced(history, Finding(step.ip, Confirmed(step.ip, step.reverse, step.forward)));
  }

  lemma StepKeepsSources(s: State, step: Step, history: set<Step>)
    requires Bounded(s) && Enabled(s, step) && Sourced(s, history)
    ensures Sourced(Next(s, step), history + {step})
  {
    hide Sourced;
    HistoryGrows(s, history, step);
    var more := history + {step};
    match step {
      case Observe(_, _, _, _) => ObserveKeepsSources(s, step, more);
      case Reserve(_, _) => ReserveKeepsSources(s, step, more);
      case RecordPolicy(_, _) => RecordKeepsSources(s, step, more);
      case RecordDisplay(_) => DisplayKeepsSources(s, step, more);
      case Resolve(_, _, _) => ResolveKeepsSources(s, step, more);
      case ReadPolicy(_, _) => ReadKeepsSources(s, step, more);
      case Check(_, _) => AdmissionKeepsSources(s, step, more);
      case Acquire(_) => AdmissionKeepsSources(s, step, more);
    }
  }

  lemma AdmissionKeepsSources(s: State, step: Step, history: set<Step>)
    requires Bounded(s) && (step.Check? || step.Acquire?) && Enabled(s, step) && Sourced(s, history)
    ensures Sourced(Next(s, step), history)
  {
    hide DisplaySourced, PtrSourced, AnswerSourced, FindingSourced, Settled;
  }

  ghost function StepsOf(run: seq<Step>): set<Step> {
    set step | step in run
  }

  lemma {:induction false} RunKeepsSources(s: State, run: seq<Step>, history: set<Step>)
    requires Bounded(s) && Executable(s, run) && Sourced(s, history)
    ensures Sourced(After(s, run), history + StepsOf(run))
    decreases |run|
  {
    hide Sourced;
    if run != [] {
      StepKeepsBounds(s, run[0]);
      StepKeepsSources(s, run[0], history);
      RunKeepsSources(Next(s, run[0]), run[1..], history + {run[0]});
      assert history + {run[0]} + StepsOf(run[1..]) == history + StepsOf(run);
    } else {
      assert history + StepsOf(run) == history;
    }
  }

  /**
   * Every name a policy read ever returned was reported by a lookup of that very address, which is
   * one of the name's own addresses, in IPv4 or mapped form, and was filed at most 300 seconds before
   * the read.
   */
  lemma PolicyNamesAreConfirmed(run: seq<Step>)
    requires Executable(EMPTY, run)
    ensures var history := StepsOf(run);
            forall i | 0 <= i < |After(EMPTY, run).answers| :: AnswerSourced(history, After(EMPTY, run).answers[i])
  {
    RunKeepsSources(EMPTY, run, {});
    assert {} + StepsOf(run) == StepsOf(run);
  }

  /**
   * And a name so confirmed is answered: once it is filed for an address still reserved, every policy
   * read up to 300 seconds later returns it.
   */
  lemma ConfirmedNamesAreAnswered(s: State, ip: IpAddr, name: string, forward: seq<IpAddr>, filed: int, read: int)
    requires Bounded(s) && ip in s.resolving && ip in s.policy && read <= filed + 300_000_000_000
    requires exists i :: 0 <= i < |forward| && SameHost(forward[i], ip)
    ensures var run := [Resolve(ip, Some(name), forward), RecordPolicy(Finding(ip, Some(name)), filed),
                        ReadPolicy(ip, read)];
            && Executable(s, run)
            && After(s, run).answers == s.answers + [Answer(ip, read, Some(name))]
  {
    hide Next, Executable, After, Bounded, Shown, Confirmed;
    var resolve, record := Resolve(ip, Some(name), forward), RecordPolicy(Finding(ip, Some(name)), filed);
    StepKeepsBounds(s, resolve);
    ResolvesTo(s, ip, name, forward);
    var found := Next(s, resolve);
    StepKeepsBounds(found, record);
    FilesAndReads(found, ip, name, filed, read);
    ThreeSteps(s, resolve, record, ReadPolicy(ip, read));
  }

  lemma ThreeSteps(s: State, a: Step, b: Step, c: Step)
    requires Bounded(s) && Enabled(s, a) && Bounded(Next(s, a)) && Enabled(Next(s, a), b)
    requires Bounded(Next(Next(s, a), b)) && Enabled(Next(Next(s, a), b), c)
    ensures Executable(s, [a, b, c]) && After(s, [a, b, c]) == Next(Next(Next(s, a), b), c)
  {
    hide Next, Enabled, Bounded;
    var end := Next(Next(s, a), b);
    StepKeepsBounds(end, c);
    assert [a, b, c][1..] == [b, c] && [b, c][1..] == [c] && [c][1..] == [];
    assert Executable(Next(end, c), []) && After(Next(end, c), []) == Next(end, c);
    assert Executable(end, [c]) && After(end, [c]) == Next(end, c);
    assert Executable(Next(s, a), [b, c]) && After(Next(s, a), [b, c]) == Next(end, c);
  }

  lemma ResolvesTo(s: State, ip: IpAddr, name: string, forward: seq<IpAddr>)
    requires Bounded(s) && ip in s.resolving
    requires exists i :: 0 <= i < |forward| && SameHost(forward[i], ip)
    ensures var found := Next(s, Resolve(ip, Some(name), forward));
            Finding(ip, Some(name)) in found.recording && found.policy == s.policy && found.answers == s.answers
  {
    hide Bounded, Confirmed, SameHost;
    ConfirmedExactly(ip, Some(name), forward);
  }

  lemma FilesAndReads(s: State, ip: IpAddr, name: string, filed: int, read: int)
    requires Bounded(s) && Finding(ip, Some(name)) in s.recording && ip in s.policy
    requires read <= filed + 300_000_000_000
    ensures var known := Next(s, RecordPolicy(Finding(ip, Some(name)), filed));
            Bounded(known) && Next(known, ReadPolicy(ip, read)).answers == s.answers + [Answer(ip, read, Some(name))]
  {
    hide Bounded;
    StepKeepsBounds(s, RecordPolicy(Finding(ip, Some(name)), filed));
  }

  /** Every displayed name is a confirmed one or the cleaned name of a response observed for that address. */
  lemma DisplayedNamesHaveASource(run: seq<Step>, ip: IpAddr)
    requires Executable(EMPTY, run) && ip in After(EMPTY, run).cache
    ensures DisplaySourced(StepsOf(run), ip, After(EMPTY, run).cache[ip])
  {
    RunKeepsSources(EMPTY, run, {});
    assert {} + StepsOf(run) == StepsOf(run);
  }

  /** Only a reservation puts an address into the policy map: no completion recreates an evicted one. */
  lemma OnlyReservationsAddAddresses(s: State, step: Step)
    requires Bounded(s) && Enabled(s, step)
    ensures forall ip | ip in Next(s, step).policy ::
              ip in s.policy || (step.Reserve? && step.ip == ip && !Settled(s.policy, ip, step.now))
    ensures step.RecordPolicy? && step.finding.ip !in s.policy ==>
              Next(s, step).policy == s.policy && Next(s, step).filing == s.filing
  {
    hide Observing, Displaying, Evicted, Shown;
    if step.Reserve? {
      forall ip | ip in Next(s, step).policy && ip != step.ip ensures ip in s.policy {
        if Next(s, step).policy != s.policy {
          EvictedHolds(s.policy, ip);
        }
      }
    }
  }

  // ---- Display preference ---------------------------------------------------------------------------

  /**
   * An observation always gets in, whatever is displayed for the address: it goes back in time
   * exactly when it arrives with an earlier instant than the entry it replaces.
   */
  lemma ObservationsAlwaysShow(cache: Cache, ip: IpAddr, name: string, secs: u32, now: int)
    requires |cache| <= CACHE_MAX_ENTRIES && Cleaned(name).Some?
    ensures var after := Observing(cache, ip, name, secs, now);
            && Shown(after, ip, now) == Cleaned(name)
            && (ip in cache ==> (after[ip].inserted < cache[ip].inserted <==> now < cache[ip].inserted))
  {
    hide Evicted, Cleaned;
  }

  /** The last clean observation of each address. */
  function Heard(known: Cache, step: Step): Cache {
    if step.Observe? && Cleaned(step.name).Some?
    then known[step.ip := ObservedEntry(Cleaned(step.name).value, step.secs, step.now)]
    else known
  }

  function HeardBy(known: Cache, run: seq<Step>): Cache
    decreases |run|
  {
    if run == [] then known else HeardBy(Heard(known, run[0]), run[1..])
  }

  ghost predicate ShowsLatest(cache: Cache, known: Cache) {
    forall ip | ip in cache && cache[ip].trust.Observed? :: ip in known && known[ip] == cache[ip]
  }

  ghost predicate FilesPtr(s: State) {
    forall f | f in s.filing :: f.entry.trust.Ptr?
  }

  lemma ObservingShowsLatest(cache: Cache, known: Cache, ip: IpAddr, name: string, secs: u32, now: int)
    requires |cache| <= CACHE_MAX_ENTRIES && ShowsLatest(cache, known)
    ensures ShowsLatest(Observing(cache, ip, name, secs, now), Heard(known, Observe(ip, name, secs, now)))
  {
    hide Evicted, Cleaned, ObservedTtl;
    forall at | at in Evicted(cache) {
      EvictedHolds(cache, at);
    }
  }

  lemma DisplayingShowsLatest(cache: Cache, known: Cache, ip: IpAddr, entry: Entry)
    requires |cache| <= CACHE_MAX_ENTRIES && ShowsLatest(cache, known) && entry.trust.Ptr?
    ensures ShowsLatest(Displaying(cache, ip, entry), known)
  {
    hide Evicted;
    forall at | at in Evicted(cache) {
      EvictedHolds(cache, at);
    }
  }

  lemma StepFilesPtr(s: State, step: Step)
    requires Bounded(s) && Enabled(s, step) && FilesPtr(s)
    ensures FilesPtr(Next(s, step))
  {
    hide Observing, Displaying, Evicted, Shown, Confirmed, Settled;
  }

  lemma StepShowsLatest(s: State, step: Step, known: Cache)
    requires Bounded(s) && Enabled(s, step) && FilesPtr(s) && ShowsLatest(s.cache, known)
    ensures ShowsLatest(Next(s, step).cache, Heard(known, step))
  {
    hide ShowsLatest, Observing, Displaying, Evicted, Cleaned, Shown, Confirmed, Settled;
    match step {
      case Observe(ip, name, secs, now) => ObservingShowsLatest(s.cache, known, ip, name, secs, now);
      case RecordDisplay(filed) => DisplayingShowsLatest(s.cache, known, filed.ip, filed.entry);
      case _ =>
    }
  }

  lemma {:induction false} RunShowsLatest(s: State, run: seq<Step>, known: Cache)
    requires Bounded(s) && Executable(s, run) && FilesPtr(s) && ShowsLatest(s.cache, known)
    ensures ShowsLatest(After(s, run).cache, HeardBy(known, run))
    decreases |run|
  {
    hide ShowsLatest, FilesPtr, Heard, Next;
    if run == [] {
    } else {
      StepKeepsBounds(s, run[0]);
      StepFilesPtr(s, run[0]);
      StepShowsLatest(s, run[0], known);
      RunShowsLatest(Next(s, run[0]), run[1..], Heard(known, run[0]));
    }
  }

  /** An observed name on display is the one heard last for its address. */
  lemma DisplayedObservationIsTheLatest(run: seq<Step>, ip: IpAddr)
    requires Executable(EMPTY, run) && ip in After(EMPTY, run).cache && After(EMPTY, run).cache[ip].trust.Observed?
    ensures ip in HeardBy(map[], run) && After(EMPTY, run).cache[ip] == HeardBy(map[], run)[ip]
  {
    RunShowsLatest(EMPTY, run, map[]);
  }

  /**
   * Filing a lookup's result never overwrites a fresh observed name. It can evict one: exactly when
   * the map is full, the filed address is new to it, and the observed entry is the oldest.
   */
  lemma FreshObservationsSurvive(cache: Cache, shown: IpAddr, ip: IpAddr, entry: Entry)
    requires |cache| <= CACHE_MAX_ENTRIES
    requires shown in cache && cache[shown].trust.Observed? && cache[shown].IsFresh(entry.inserted)
    ensures var after := Displaying(cache, ip, entry);
            (shown in after && after[shown] == cache[shown])
            <==> !(|cache| == CACHE_MAX_ENTRIES && ip !in cache && Oldest(cache) == shown)
  {
  }

  function Guest(k: nat): IpAddr
    requires k < 0x1_0000
  {
    V4([0, 0, k / 256, k % 256])
  }

  /** `n` observed addresses, each inserted a nanosecond after the one before. */
  function Crowd(n: nat): Cache
    requires n <= 0x1_0000
  {
    if n == 0 then map[] else Crowd(n - 1)[Guest(n - 1) := ObservedEntry("a", 3600, n)]
  }

  ghost predicate IsGuest(m: Cache, ip: IpAddr, n: nat)
    requires ip in m
  {
    && ip.V4? && ip.v4[0] == 0 && ip.v4[2] as int * 256 + ip.v4[3] < n
    && m[ip].inserted >= 1 && (m[ip].inserted == 1 ==> ip == Guest(0))
  }

  lemma {:induction false} CrowdFacts(n: nat)
    requires n <= 0x1_0000
    ensures |Crowd(n)| == n
    ensures forall ip | ip in Crowd(n) :: IsGuest(Crowd(n), ip, n)
    ensures n > 0 ==> Guest(0) in Crowd(n) && Crowd(n)[Guest(0)] == ObservedEntry("a", 3600, 1)
  {
    if n == 0 {
    } else {
      CrowdFacts(n - 1);
      var newest := Guest(n - 1);
      assert newest.v4[2] as int * 256 + newest.v4[3] == n - 1;
      assert newest !in Crowd(n - 1);
      InsertGrows(Crowd(n - 1), newest, ObservedEntry("a", 3600, n));
    }
  }

  /** So the preference does not protect a fresh observation in a full map. */
  lemma AFreshObservationCanBeEvicted()
    ensures var cache, ip, shown := Crowd(4096), V4([1, 0, 0, 0]), Guest(0);
            && |cache| == CACHE_MAX_ENTRIES && shown in cache
            && cache[shown].trust.Observed? && cache[shown].IsFresh(4097)
            && shown !in Displaying(cache, ip, PtrEntry(None, 4097))
  {
    hide Crowd;
    CrowdFacts(4096);
    var cache := Crowd(4096);
    assert IsGuest(cache, Oldest(cache), 4096);
    assert forall ip | ip in cache :: IsGuest(cache, ip, 4096) && ip.v4[0] == 0;
  }

  // ---- The cache's own operations ---------------------------------------------------------------------

  ghost predicate Inserts(m: Cache, ip: IpAddr, e: Entry, after: Cache) {
    exists room :: Evicts(m, room) && after == room[ip := e]
  }

  /** Under way, or answered and not too old. */
  ghost predicate IsNeedless(policy: Cache, ip: IpAddr, now: int) {
    ip in policy && (policy[ip].inFlight || IsCurrent(policy[ip], now))
  }

  /** An observed name lives between one minute and one hour, whatever the response says. */
  function HeardFor(secs: u32): int {
    if secs < 60 then 60_000_000_000 else if secs > 3600 then 3600_000_000_000 else secs * 1_000_000_000
  }

  lemma EntriesMade(bare: string, secs: u32, hostname: Option<string>, now: int)
    ensures ObservedEntry(bare, secs, now) == Entry(Some(bare), now, false, Observed, HeardFor(secs))
    ensures Reservation(now) == Entry(None, now, true, Ptr, 60_000_000_000)
    ensures PtrEntry(hostname, now)
            == Entry(hostname, now, false, Ptr, if hostname == None then 60_000_000_000 else 300_000_000_000)
  {
  }

  /** What the machine's steps do to the display map is what the operations below do. */
  lemma StepsAreOperations(cache: Cache, ip: IpAddr, name: string, secs: u32, now: int, entry: Entry)
    requires |cache| <= 4096
    ensures Cleaned(name).None? ==> Observing(cache, ip, name, secs, now) == cache
    ensures Cleaned(name).Some? ==>
              Inserts(cache, ip, Entry(Cleaned(name), now, false, Observed, HeardFor(secs)),
                      Observing(cache, ip, name, secs, now))
    ensures ip !in cache ==> Inserts(cache, ip, entry, Displaying(cache, ip, entry))
    ensures ip in cache ==>
              Displaying(cache, ip, entry)
              == if cache[ip].trust == Observed && !cache[ip].inFlight && IsCurrent(cache[ip], entry.inserted)
                 then cache else cache[ip := entry]
  {
    hide Evicts, Cleaned, ObservedTtl, IsCurrent;
    var room := Evicted(cache);
    assert Evicts(cache, room);
    if Cleaned(name).Some? {
      EntriesMade(Cleaned(name).value, secs, None, now);
    }
    if ip in cache {
      EntriesOnFields(cache[ip], Ptr, entry.inserted);
    }
  }

  /** What the machine's steps do to the policy map and the permits is what the operations below do. */
  lemma PolicyStepsAreOperations(s: State, step: Step)
    requires Bounded(s) && Enabled(s, step)
    ensures step.Check? ==>
              Next(s, step) == if IsNeedless(s.policy, step.ip, step.now) then s
                               else s.(checked := s.checked + multiset{step.ip})
    ensures step.Acquire? && |s.admitted| + |s.resolving| >= 8 ==>
              Next(s, step) == s.(checked := s.checked - multiset{step.ip})
    ensures step.Acquire? && |s.admitted| + |s.resolving| < 8 ==>
              Next(s, step) == s.(checked := s.checked - multiset{step.ip}, admitted := s.admitted + multiset{step.ip})
    ensures step.Reserve? && IsNeedless(s.policy, step.ip, step.now) ==>
              Next(s, step) == s.(admitted := s.admitted - multiset{step.ip})
    ensures step.Reserve? && !IsNeedless(s.policy, step.ip, step.now) ==>
              var n := Next(s, step);
              && n == s.(admitted := s.admitted - multiset{step.ip}, resolving := s.resolving + multiset{step.ip},
                         policy := n.policy)
              && Inserts(s.policy, step.ip, Entry(None, step.now, true, Ptr, 60_000_000_000), n.policy)
    ensures step.ReadPolicy? ==>
              var known := step.ip in s.policy && !s.policy[step.ip].inFlight && IsCurrent(s.policy[step.ip], step.now);
              Next(s, step) == s.(answers := s.answers + [Answer(step.ip, step.now,
                                                                 if known then s.policy[step.ip].hostname else None)])
  {
    hide Observing, Displaying, Evicts, IsCurrent, Confirmed;
    if (step.Check? || step.Reserve? || step.ReadPolicy?) && step.ip in s.policy {
      EntriesOnFields(s.policy[step.ip], Ptr, step.now);
    }
    if step.Reserve? {
      var room := Evicted(s.policy);
    }
  }

  /**
   * An address neither under way nor still answered gets its lookup started whenever one of the eight
   * permits is free; what becomes of it is `ConfirmedNamesAreAnswered`.
   */
  lemma LookupsAreStarted(s: State, ip: IpAddr, checkedAt: int, reservedAt: int)
    requires Bounded(s) && |s.admitted| + |s.resolving| < 8
    requires !IsNeedless(s.policy, ip, checkedAt) && !IsNeedless(s.policy, ip, reservedAt)
    ensures var run := [Check(ip, checkedAt), Acquire(ip), Reserve(ip, reservedAt)];
            && Executable(s, run)
            && ip in After(s, run).resolving && ip in After(s, run).policy && After(s, run).answers == s.answers
  {
    hide Next, Executable, After, Bounded, IsNeedless, Inserts;
    StepKeepsBounds(s, Check(ip, checkedAt));
    PolicyStepsAreOperations(s, Check(ip, checkedAt));
    var checked := Next(s, Check(ip, checkedAt));
    StepKeepsBounds(checked, Acquire(ip));
    PolicyStepsAreOperations(checked, Acquire(ip));
    var admitted := Next(checked, Acquire(ip));
    PolicyStepsAreOperations(admitted, Reserve(ip, reservedAt));
    ThreeSteps(s, Check(ip, checkedAt), Acquire(ip), Reserve(ip, reservedAt));
    InsertsHolds(admitted.policy, ip, Entry(None, reservedAt, true, Ptr, 60_000_000_000),
                 Next(admitted, Reserve(ip, reservedAt)).policy);
  }

  lemma InsertsHolds(m: Cache, ip: IpAddr, e: Entry, after: Cache)
    requires Inserts(m, ip, e, after)
    ensures ip in after && after[ip] == e
  {
  }

  /** A result is taken from the resolver if confirmed, and filed for policy and then display if still reserved. */
  lemma ResultStepsAreOperations(s: State, step: Step)
    requires Bounded(s) && Enabled(s, step)
    ensures step.Resolve? ==>
              var led := exists i :: 0 <= i < |step.forward| && SameHost(step.forward[i], step.ip);
              Next(s, step) == s.(resolving := s.resolving - multiset{step.ip},
                                  recording := s.recording
                                               + multiset{Finding(step.ip, if led then step.reverse else None)})
    ensures step.RecordPolicy? && step.finding.ip !in s.policy ==>
              Next(s, step) == s.(recording := s.recording - multiset{step.finding})
    ensures step.RecordPolicy? && step.finding.ip in s.policy ==>
              var Finding(ip, hostname) := step.finding;
              var entry := Entry(hostname, step.now, false, Ptr,
                                 if hostname == None then 60_000_000_000 else 300_000_000_000);
              Next(s, step) == s.(recording := s.recording - multiset{step.finding}, policy := s.policy[ip := entry],
                                  filing := s.filing + multiset{Filing(ip, entry)})
    ensures step.RecordDisplay? ==>
              Next(s, step) == s.(filing := s.filing - multiset{step.filed},
                                  cache := Displaying(s.cache, step.filed.ip, step.filed.entry))
    ensures step.Observe? ==>
              Next(s, step) == s.(cache := Observing(s.cache, step.ip, step.name, step.secs, step.now))
  {
    hide Observing, Displaying, Confirmed, SameHost;
    if step.Resolve? {
      ConfirmedExactly(step.ip, step.reverse, step.forward);
    } else if step.RecordPolicy? {
      EntriesMade("", 0, step.finding.hostname, step.now);
    }
  }

  /** Drops the oldest entry of a full map. */
  method EvictIfFull(m: Cache) returns (room: Cache)
    requires |m| <= 4096
    ensures Evicts(m, room) && |room| < 4096
  {
    if |m| < CACHE_MAX_ENTRIES {
      return m;
    }
    var todo := m.Keys;
    assert todo != {};
    var oldest :| oldest in todo;
    while todo != {}
      invariant todo <= m.Keys && oldest in m
      invariant forall ip | ip in m && ip !in todo :: m[oldest].inserted <= m[ip].inserted
      decreases |todo|
    {
      var ip :| ip in todo;
      todo := todo - {ip};
      if m[ip].inserted < m[oldest].inserted {
        oldest := ip;
      }
    }
    assert IsOldest(m, oldest);
    RemovingShrinks(m, oldest);
    room := m - {oldest};
  }

  class DnsCache {
    var cache: Cache
    var policy: Cache
    var permits: nat

    ghost predicate Valid()
      reads this
    {
      |cache| <= 4096 && |policy| <= 4096
    }

    constructor ()
      ensures Valid() && cache == map[] && policy == map[] && permits == 8
    {
      cache, policy, permits := map[], map[], LOOKUP_MAX_IN_FLIGHT;
    }

    method CachedNamed(ip: IpAddr, now: int) returns (name: Option<string>)
      ensures name == Shown(policy, ip, now)
      ensures name == if ip in policy && !policy[ip].inFlight && IsCurrent(policy[ip], now) then policy[ip].hostname
                      else None
    {
      if ip !in policy || !policy[ip].IsFresh(now) {
        return None;
      }
      name := policy[ip].hostname;
    }

    method LookupCached(ip: IpAddr, now: int) returns (name: Option<string>)
      ensures name == Shown(cache, ip, now)
      ensures name == if ip in cache && !cache[ip].inFlight && IsCurrent(cache[ip], now) then cache[ip].hostname
                      else None
    {
      if ip !in cache {
        return None;
      }
      name := if cache[ip].IsFresh(now) then cache[ip].hostname else None;
    }

    method ObserveAnswer(ip: IpAddr, name: string, secs: u32, now: int)
      requires Valid()
      modifies `cache
      ensures Valid()
      ensures Cleaned(name).None? ==> cache == old(cache)
      ensures Cleaned(name).Some? ==>
                Inserts(old(cache), ip, Entry(Cleaned(name), now, false, Observed, HeardFor(secs)), cache)
    {
      hide Cleaned, Evicts, ObservedTtl;
      var bare := Cleaned(name);
      if bare.None? || (ip in cache && !cache[ip].Supersedes(Observed, now)) {
        return;
      }
      EntriesMade(bare.value, secs, None, now);
      var room := EvictIfFull(cache);
      InsertGrows(room, ip, ObservedEntry(bare.value, secs, now));
      cache := room[ip := ObservedEntry(bare.value, secs, now)];
    }

    /** Takes a permit and reserves the slot, unless a lookup is needless or none is free. */
    method EnqueueLookup(ip: IpAddr, checkedAt: int, reservedAt: int) returns (spawned: bool)
      requires Valid()
      modifies `policy, `permits
      ensures Valid()
      ensures spawned <==>
                && old(permits) > 0
                && !IsNeedless(old(policy), ip, checkedAt) && !IsNeedless(old(policy), ip, reservedAt)
      ensures spawned ==>
                && permits == old(permits) - 1
                && Inserts(old(policy), ip, Entry(None, reservedAt, true, Ptr, 60_000_000_000), policy)
      ensures !spawned ==> permits == old(permits) && policy == old(policy)
    {
      hide Evicts;
      if ip in policy && (policy[ip].inFlight || policy[ip].IsFresh(checkedAt)) {
        return false;
      }
      if permits == 0 {
        return false;
      }
      permits := permits - 1;
      if ip in policy && (policy[ip].inFlight || policy[ip].IsFresh(reservedAt)) {
        permits := permits + 1;
        return false;
      }
      var room := EvictIfFull(policy);
      InsertGrows(room, ip, Reservation(reservedAt));
      policy := room[ip := Reservation(reservedAt)];
      spawned := true;
    }

    /** Files a finished lookup for policy, unless its reservation is gone, and then for display. */
    method RecordPtrResult(ip: IpAddr, hostname: Option<string>, now: int)
      requires Valid()
      modifies `cache, `policy
      ensures Valid()
      ensures ip !in old(policy) ==> policy == old(policy) && cache == old(cache)
      ensures ip in old(policy) ==>
                var entry := Entry(hostname, now, false, Ptr,
                                   if hostname == None then 60_000_000_000 else 300_000_000_000);
                && policy == old(policy)[ip := entry]
                && (ip in old(cache) ==>
                      var shown := old(cache)[ip];
                      cache == if shown.trust == Observed && !shown.inFlight && IsCurrent(shown, now) then old(cache)
                               else old(cache)[ip := entry])
                && (ip !in old(cache) ==> Inserts(old(cache), ip, entry, cache))
    {
      hide Evicts;
      EntriesMade("", 0, hostname, now);
      var entry := PtrEntry(hostname, now);
      if ip !in policy {
        return;
      }
      InsertGrows(policy, ip, entry);
      policy := policy[ip := entry];
      if ip in cache && !cache[ip].Supersedes(Ptr, now) {
        return;
      }
      var room := cache;
      if ip !in cache {
        room := EvictIfFull(cache);
      }
      InsertGrows(room, ip, entry);
      cache := room[ip := entry];
    }
  }
}
