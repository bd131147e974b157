/** Rule scopes against processes and flows, with the process only partly known. */
module Scopes {
  import opened CoreTypes

  predicate Narrows(net: Option<IpNet>) {
    net.Some? && net.value.prefix > 0
  }

  function Count(b: bool): nat {
    if b then 1 else 0
  }

  /** Rank of a scope: its populated predicates, without `direction` and `/0` networks. */
  function Specificity(s: RuleScope): nat {
    Count(Narrows(s.srcNet)) + Count(s.srcPort.Some?) + Count(s.exePath.Some?)
    + Count(s.exeSha256.Some?) + Count(s.parentExe.Some?) + Count(s.uid.Some?)
    + Count(s.dstHost.Some?) + Count(Narrows(s.dstNet)) + Count(s.dstPort.Some?)
    + Count(s.protocol.Some?)
  }

  predicate ConstrainsDestination(s: RuleScope) {
    || s.dstHost.Some? || s.dstNet.Some? || s.dstPort.Some? || s.protocol.Some?
    || s.srcNet.Some? || s.srcPort.Some?
    || s.direction == Some(Inbound)
  }

  /** The scope cannot be evaluated because some of the identity it needs is missing. */
  predicate UndecidableFor(s: RuleScope, p: Process) {
    if s.exePath.Some? && p.ExeIsKnown() && p.exe != s.exePath.value then false
    else if s.exeSha256.Some? && p.sha256.Some? && s.exeSha256 != p.sha256 then false
    else if s.uid.Some? && p.uid.Some? && s.uid != p.uid then false
    else
      || (s.exePath.Some? && !p.ExeIsKnown())
      || (s.exeSha256.Some? && p.sha256.None?)
      || (s.uid.Some? && p.uid.None?)
  }

  predicate MatchesProcess(s: RuleScope, p: Process) {
    && (s.exePath.Some? ==> p.ExeIsKnown() && p.exe == s.exePath.value)
    && (s.exeSha256.Some? ==> p.sha256 == s.exeSha256)
    && (s.uid.Some? ==> p.uid == s.uid)
  }

  /** The flow half of a match, with a legacy hostname left open. */
  predicate MatchesKnownConnection(s: RuleScope, c: Connection) {
    && (if s.direction.Some? then c.direction == s.direction.value else c.direction == Outbound)
    && (s.srcNet.Some? ==> NetContains(s.srcNet.value, c.srcIp))
    && (s.srcPort.Some? ==> c.srcPort == s.srcPort.value)
    && (s.dstNet.Some? ==> NetContains(s.dstNet.value, c.dstIp))
    && (s.dstPort.Some? ==> c.dstPort == s.dstPort.value)
    && (s.protocol.Some? ==>
          || (s.dstHost.Some? && s.protocol.value.Other?)
          || c.protocol == s.protocol.value)
  }

  // ---- Partial knowledge ---------------------------------------------------

  /** `q` keeps everything known about `p` and may fill in what is missing. */
  predicate Extends(p: Process, q: Process) {
    && (p.ExeIsKnown() ==> q.exe == p.exe)
    && (p.uid.Some? ==> q.uid == p.uid)
    && (p.sha256.Some? ==> q.sha256 == p.sha256)
  }

  predicate FullyKnown(p: Process) {
    p.ExeIsKnown() && p.uid.Some? && p.sha256.Some?
  }

  /** Deciding the process half is stable under learning more. */
  lemma DecidedIsStable(s: RuleScope, p: Process, q: Process)
    requires Extends(p, q)
    ensures !UndecidableFor(s, p) ==>
              !UndecidableFor(s, q) && (MatchesProcess(s, p) <==> MatchesProcess(s, q))
  {
  }

  /** A completion of `p` that matches `s` wherever `p` leaves it room. */
  function Fitting(s: RuleScope, p: Process): Process {
    Process(
      if p.ExeIsKnown() then p.exe
      else if s.exePath.Some? && s.exePath.value != UNKNOWN_EXE then s.exePath.value
      else "/",
      if p.uid.Some? then p.uid else if s.uid.Some? then s.uid else Some(0),
      if p.sha256.Some? then p.sha256 else if s.exeSha256.Some? then s.exeSha256 else Some(""))
  }

  /** A completion of `p` that misses `s` wherever `p` leaves it room. */
  function Missing(s: RuleScope, p: Process): Process {
    Process(
      if p.ExeIsKnown() then p.exe else if s.exePath == Some("/") then "/a" else "/",
      if p.uid.Some? then p.uid else if s.uid == Some(0) then Some(1) else Some(0),
      if p.sha256.Some? then p.sha256 else if s.exeSha256 == Some("") then Some("0") else Some(""))
  }

  ghost predicate Completes(p: Process, q: Process) {
    Extends(p, q) && FullyKnown(q)
  }

  /**
   * The two process predicates together are exactly three-valued: "matches" means every
   * completion of the identity matches, "does not match" means none does, and "undecidable"
   * means the completions disagree. "Does not match" is exact but for a scope naming the
   * placeholder as its executable: while undecidable it is not rejected, although no completion
   * can match it.
   */
  lemma ProcessHalfIsExact(s: RuleScope, p: Process)
    ensures !UndecidableFor(s, p) && MatchesProcess(s, p)
            <==> forall q | Completes(p, q) :: MatchesProcess(s, q)
    ensures (!UndecidableFor(s, p) && !MatchesProcess(s, p)
             <==> forall q | Completes(p, q) :: !MatchesProcess(s, q))
            <==> !(s.exePath == Some(UNKNOWN_EXE) && UndecidableFor(s, p))
    ensures s.exePath == Some(UNKNOWN_EXE) ==>
              forall q | Completes(p, q) :: !MatchesProcess(s, q)
  {
    assert Completes(p, Missing(s, p)) && Completes(p, Fitting(s, p));
    forall q | Completes(p, q) && !UndecidableFor(s, p)
      ensures MatchesProcess(s, p) <==> MatchesProcess(s, q)
    {
      DecidedIsStable(s, p, q);
    }
  }

  /** Such a scope is undecidable exactly for an unidentified executable that nothing else rules out. */
  lemma PlaceholderUndecidable(s: RuleScope, p: Process)
    requires s.exePath == Some(UNKNOWN_EXE)
    ensures UndecidableFor(s, p) <==>
              && !p.ExeIsKnown()
              && (s.exeSha256.Some? && p.sha256.Some? ==> s.exeSha256 == p.sha256)
              && (s.uid.Some? && p.uid.Some? ==> s.uid == p.uid)
    ensures !MatchesProcess(s, p)
  {
  }

  /** A legacy hostname rule on the placeholder: undecided, and nothing the process can turn out to be matches it. */
  lemma PlaceholderIsNeverRejected()
    ensures var s := RuleScope(None, Some(UNKNOWN_EXE), None, None, None, Some("h"), None, None, None, None, None);
            var p := Process(UNKNOWN_EXE, Some(0), None);
            UndecidableFor(s, p) && forall q | Completes(p, q) :: !MatchesProcess(s, q)
  {
  }

  /** Two spellings of "outbound" rank and match alike, and a `/0` network never adds rank. */
  lemma SpecificityCountsOnlyNarrowing(s: RuleScope, c: Connection, zero: IpNet)
    requires s.direction.None? && s.dstNet.None? && s.srcNet.None? && zero.prefix == 0
    ensures var explicit := s.(direction := Some(Outbound));
            Specificity(explicit) == Specificity(s)
            && (MatchesKnownConnection(explicit, c) <==> MatchesKnownConnection(s, c))
    ensures Specificity(s.(dstNet := Some(zero))) == Specificity(s) == Specificity(s.(srcNet := Some(zero)))
  {
  }
}
