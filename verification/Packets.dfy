/** The IP parser behind every decision, the two other header walkers, and their agreement. */
module Packets {
  import opened CoreTypes
  import opened Checksums

  const IPPROTO_HOPOPTS: byte := 0
  const IPPROTO_ICMP: byte := 1
  const IPPROTO_TCP: byte := 6
  const IPPROTO_UDP: byte := 17
  const IPPROTO_ROUTING: byte := 43
  const IPPROTO_FRAGMENT: byte := 44
  const IPPROTO_AH: byte := 51
  const IPPROTO_ICMPV6: byte := 58
  const IPPROTO_DSTOPTS: byte := 60

  const MAX_EXT_HEADERS: nat := 8
  const IPV4_HEADER_LEN: nat := 20
  const IPV6_HEADER_LEN: nat := 40
  const UDP_HEADER_LEN: nat := 8

  /** The part of a packet that a truncation cut. */
  datatype Part =
    | VersionByte
    | Ipv4Header
    | Ipv4Options
    | Ipv6Header
    | ExtensionHeader
    | AuthHeader
    | FragmentHeader
    | TcpPorts
    | UdpPorts

  datatype ParseError =
    | Truncated(part: Part)
    | UnsupportedVersion(version: byte)
    | BadIhl(ihl: nat)
    | TooManyExtensions

  datatype Parsed = Flow(conn: Connection) | Failed(error: ParseError)

  predicate IsOptionsHeader(next: byte) {
    next == IPPROTO_HOPOPTS || next == IPPROTO_ROUTING || next == IPPROTO_DSTOPTS
  }

  predicate IsExtension(next: byte) {
    IsOptionsHeader(next) || next == IPPROTO_AH || next == IPPROTO_FRAGMENT
  }

  /** Bytes an extension header takes: 8-octet units, 4-octet units for AH, fixed for a fragment. */
  function ExtLength(next: byte, units: byte): nat {
    if next == IPPROTO_FRAGMENT then 8
    else if next == IPPROTO_AH then (units as int + 2) * 4
    else (units as int + 1) * 8
  }

  /** The upper layer of a packet, once located. */
  function Finalize(src: IpAddr, dst: IpAddr, protocol: byte, l4: Bytes, direction: Direction): Parsed {
    if protocol == IPPROTO_TCP || protocol == IPPROTO_UDP then
      if |l4| < 4 then Failed(Truncated(if protocol == IPPROTO_TCP then TcpPorts else UdpPorts))
      else Flow(Connection(if protocol == IPPROTO_TCP then Tcp else Udp, direction,
                           src, Word(l4[0], l4[1]), dst, Word(l4[2], l4[3])))
    else
      Flow(Connection(if protocol == IPPROTO_ICMP || protocol == IPPROTO_ICMPV6 then Icmp else Other(protocol),
                      direction, src, 0, dst, 0))
  }

  function ParsedIpv4(buf: Bytes, direction: Direction): Parsed
    requires |buf| > 0
  {
    var ihl := buf[0] % 16 * 4;
    if |buf| < 20 then Failed(Truncated(Ipv4Header))
    else if ihl < 20 then Failed(BadIhl(ihl))
    else if |buf| < ihl then Failed(Truncated(Ipv4Options))
    else Finalize(V4(buf[12..16]), V4(buf[16..20]), buf[9], buf[ihl..], direction)
  }

  /** Where an extension-header walk ends. */
  datatype WalkEnd = Upper(protocol: byte, offset: nat) | LaterFragment | Short(part: Part) | TooLong

  /** At most `fuel` headers, the upper layer included, from `offset` on. */
  function Walk(buf: Bytes, next: byte, offset: nat, fuel: nat): WalkEnd
    decreases fuel
  {
    if fuel == 0 then TooLong
    else if IsOptionsHeader(next) || next == IPPROTO_AH then
      var part := if next == IPPROTO_AH then AuthHeader else ExtensionHeader;
      if |buf| < offset + 2 then Short(part)
      else
        var len := ExtLength(next, buf[offset + 1]);
        if |buf| < offset + len then Short(part) else Walk(buf, buf[offset], offset + len, fuel - 1)
    else if next == IPPROTO_FRAGMENT then
      if |buf| < offset + 8 then Short(FragmentHeader)
      else if Word(buf[offset + 2], buf[offset + 3]) / 8 != 0 then LaterFragment
      else Walk(buf, buf[offset], offset + 8, fuel - 1)
    else Upper(next, offset)
  }

  function AfterWalk(buf: Bytes, end: WalkEnd, direction: Direction): Parsed
    requires |buf| >= IPV6_HEADER_LEN && (end.Upper? ==> end.offset <= |buf|)
  {
    var src, dst := V6(buf[8..24]), V6(buf[24..40]);
    match end
    case Upper(protocol, offset) => Finalize(src, dst, protocol, buf[offset..], direction)
    case LaterFragment => Flow(Connection(Other(IPPROTO_FRAGMENT), direction, src, 0, dst, 0))
    case Short(part) => Failed(Truncated(part))
    case TooLong => Failed(TooManyExtensions)
  }

  /** The walk never reads past the buffer, so the upper layer it finds starts inside it. */
  lemma {:induction false} WalkStaysInside(buf: Bytes, next: byte, offset: nat, fuel: nat)
    requires offset <= |buf|
    ensures var end := Walk(buf, next, offset, fuel); end.Upper? ==> offset <= end.offset <= |buf|
    ensures var end := Walk(buf, next, offset, fuel); end.Upper? ==> end.offset <= offset + 2048 * fuel
    decreases fuel
  {
    if fuel == 0 || !IsExtension(next) || |buf| < offset + 2 {
    } else {
      var len := ExtLength(next, buf[offset + 1]);
      if offset + len <= |buf| {
        WalkStaysInside(buf, buf[offset], offset + len, fuel - 1);
      }
    }
  }

  /** One turn of the walk: on to another header, or the end. */
  datatype Turn = Onto(next: byte, offset: nat) | Ends(end: WalkEnd)

  /** Past a header of `len` bytes, if the packet holds it all. */
  function Past(buf: Bytes, offset: nat, len: nat, part: Part): Turn
    requires offset < |buf|
  {
    if |buf| < offset + len then Ends(Short(part)) else Onto(buf[offset], offset + len)
  }

  function TurnAt(buf: Bytes, next: byte, offset: nat): Turn {
    if IsOptionsHeader(next) || next == IPPROTO_AH then
      var part := if next == IPPROTO_AH then AuthHeader else ExtensionHeader;
      if |buf| < offset + 2 then Ends(Short(part)) else Past(buf, offset, ExtLength(next, buf[offset + 1]), part)
    else if next == IPPROTO_FRAGMENT then
      if |buf| < offset + 8 then Ends(Short(FragmentHeader))
      else if Word(buf[offset + 2], buf[offset + 3]) / 8 != 0 then Ends(LaterFragment)
      else Past(buf, offset, 8, FragmentHeader)
    else Ends(Upper(next, offset))
  }

  lemma WalkTurns(buf: Bytes, next: byte, offset: nat, fuel: nat)
    requires fuel > 0
    ensures Walk(buf, next, offset, fuel) ==
            match TurnAt(buf, next, offset)
            case Onto(n, o) => Walk(buf, n, o, fuel - 1)
            case Ends(end) => end
  {
  }

  lemma WalkEnds(buf: Bytes, next: byte, offset: nat, fuel: nat)
    ensures fuel == 0 ==> Walk(buf, next, offset, fuel) == TooLong
    ensures fuel > 0 && !IsExtension(next) ==> Walk(buf, next, offset, fuel) == Upper(next, offset)
  {
  }

  ghost predicate ParsesTo(buf: Bytes, direction: Direction, r: Parsed) {
    if |buf| == 0 then r == Failed(Truncated(VersionByte))
    else if buf[0] / 16 == 4 then r == ParsedIpv4(buf, direction)
    else if buf[0] / 16 == 6 then
      if |buf| < IPV6_HEADER_LEN then r == Failed(Truncated(Ipv6Header))
      else
        var end := Walk(buf, buf[6], IPV6_HEADER_LEN, MAX_EXT_HEADERS + 1);
        (end.Upper? ==> end.offset <= |buf|) && r == AfterWalk(buf, end, direction)
    else r == Failed(UnsupportedVersion(buf[0] / 16))
  }

  /**
   * What is reported of an upper layer, by its protocol number: ports for TCP and UDP, or too short
   * for them; ICMP for either family's number; any other number as it is.
   */
  ghost predicate Reports(r: Parsed, src: IpAddr, dst: IpAddr, number: byte, l4: Bytes, direction: Direction) {
    if number == 6 || number == 17 then
      if |l4| < 4 then r == Failed(Truncated(if number == 6 then TcpPorts else UdpPorts))
      else r == Flow(Connection(if number == 6 then Tcp else Udp, direction,
                                src, l4[0] as int * 256 + l4[1], dst, l4[2] as int * 256 + l4[3]))
    else r == Flow(Connection(if number == 1 || number == 58 then Icmp else Other(number), direction, src, 0, dst, 0))
  }

  /**
   * Extracts the 5-tuple of a queued packet. An IPv4 packet fails exactly when its header, by its
   * own length, or its ports do not fit; the ports are the four bytes behind the header.
   */
  method Parse(buf: Bytes, direction: Direction) returns (r: Parsed)
    ensures ParsesTo(buf, direction, r)
    ensures buf == [] ==> r == Failed(Truncated(VersionByte))
    ensures buf != [] && buf[0] / 16 != 4 && buf[0] / 16 != 6 ==> r == Failed(UnsupportedVersion(buf[0] / 16))
    ensures buf != [] && buf[0] / 16 == 6 && |buf| < 40 ==> r == Failed(Truncated(Ipv6Header))
    ensures buf != [] && buf[0] / 16 == 4 ==>
              var ihl := buf[0] % 16 * 4;
              if |buf| < 20 then r == Failed(Truncated(Ipv4Header))
              else if ihl < 20 then r == Failed(BadIhl(ihl))
              else if |buf| < ihl then r == Failed(Truncated(Ipv4Options))
              else Reports(r, V4(buf[12..16]), V4(buf[16..20]), buf[9], buf[ihl..], direction)
  {
    if |buf| == 0 {
      return Failed(Truncated(VersionByte));
    }
    var version := buf[0] / 16;
    if version == 4 {
      return ParsedIpv4(buf, direction);
    }
    if version != 6 {
      return Failed(UnsupportedVersion(version));
    }
    r := ParseIpv6(buf, direction);
  }

  /** Steps over one extension header, if this is one. */
  method TakeTurn(buf: Bytes, next: byte, offset: nat) returns (t: Turn)
    requires offset <= |buf|
    ensures t == TurnAt(buf, next, offset) && (t.Onto? ==> offset <= t.offset <= |buf|)
  {
    if IsOptionsHeader(next) {
      if |buf| < offset + 2 {
        return Ends(Short(ExtensionHeader));
      }
      var len: nat := (buf[offset + 1] as int + 1) * 8;
      if |buf| < offset + len {
        return Ends(Short(ExtensionHeader));
      }
      return Onto(buf[offset], offset + len);
    }
    if next == IPPROTO_AH {
      if |buf| < offset + 2 {
        return Ends(Short(AuthHeader));
      }
      var len: nat := (buf[offset + 1] as int + 2) * 4;
      if |buf| < offset + len {
        return Ends(Short(AuthHeader));
      }
      return Onto(buf[offset], offset + len);
    }
    if next == IPPROTO_FRAGMENT {
      if |buf| < offset + 8 {
        return Ends(Short(FragmentHeader));
      }
      var fragOffset := Word(buf[offset + 2], buf[offset + 3]) / 8;
      if fragOffset != 0 {
        return Ends(LaterFragment);
      }
      return Onto(buf[offset], offset + 8);
    }
    return Ends(Upper(next, offset));
  }

  /** Walks the extension headers until the upper layer is reached. */
  method ParseIpv6(buf: Bytes, direction: Direction) returns (r: Parsed)
    ensures |buf| < IPV6_HEADER_LEN ==> r == Failed(Truncated(Ipv6Header))
    ensures |buf| >= IPV6_HEADER_LEN ==>
              var end := Walk(buf, buf[6], IPV6_HEADER_LEN, MAX_EXT_HEADERS + 1);
              (end.Upper? ==> end.offset <= |buf|) && r == AfterWalk(buf, end, direction)
  {
    if |buf| < 40 {
      return Failed(Truncated(Ipv6Header));
    }
    hide Finalize, Walk, TurnAt;
    WalkStaysInside(buf, buf[6], IPV6_HEADER_LEN, MAX_EXT_HEADERS + 1);
    var src, dst := V6(buf[8..24]), V6(buf[24..40]);
    var next, offset := buf[6], IPV6_HEADER_LEN;
    ghost var whole := Walk(buf, buf[6], IPV6_HEADER_LEN, MAX_EXT_HEADERS + 1);
    for i := 0 to MAX_EXT_HEADERS + 1
      invariant IPV6_HEADER_LEN <= offset <= |buf|
      invariant whole == Walk(buf, next, offset, MAX_EXT_HEADERS + 1 - i)
    {
      WalkTurns(buf, next, offset, MAX_EXT_HEADERS + 1 - i);
      var t := TakeTurn(buf, next, offset);
      match t {
        case Onto(n, o) => next, offset := n, o;
        case Ends(Upper(protocol, at)) => return Finalize(src, dst, protocol, buf[at..], direction);
        case Ends(LaterFragment) => return Flow(Connection(Other(IPPROTO_FRAGMENT), direction, src, 0, dst, 0));
        case Ends(Short(part)) => return Failed(Truncated(part));
        case Ends(TooLong) => return Failed(TooManyExtensions);
      }
    }
    WalkEnds(buf, next, offset, 0);
    return Failed(TooManyExtensions);
  }

  // ---- The refusal path's own walk --------------------------------------------------

  function L4Walk(buf: Bytes, next: byte, offset: nat, fuel: nat): (r: Option<nat>)
    ensures offset <= |buf| && r.Some? ==> offset <= r.value <= |buf|
    decreases fuel
  {
    if fuel == 0 then None
    else if !IsExtension(next) then Some(offset)
    else if next != IPPROTO_FRAGMENT && |buf| <= offset + 1 then None
    else
      var len := ExtLength(next, if |buf| <= offset + 1 then 0 else buf[offset + 1]);
      if |buf| <= offset || |buf| < offset + len then None
      else L4Walk(buf, buf[offset], offset + len, fuel - 1)
  }

  /** The walk never ends past the packet. */
  function L4OffsetOf(buf: Bytes): (r: Option<nat>)
    ensures r.Some? ==> IPV4_HEADER_LEN <= r.value <= |buf|
  {
    if |buf| == 0 then None
    else if buf[0] / 16 == 4 then
      var ihl := buf[0] % 16 * 4;
      if |buf| < IPV4_HEADER_LEN || ihl < IPV4_HEADER_LEN || |buf| < ihl then None else Some(ihl)
    else if buf[0] / 16 == 6 then
      if |buf| < IPV6_HEADER_LEN then None else L4Walk(buf, buf[6], IPV6_HEADER_LEN, MAX_EXT_HEADERS + 1)
    else None
  }

  /** Where the refusal path takes the upper layer to begin. */
  method L4Offset(buf: Bytes) returns (r: Option<nat>)
    ensures r == L4OffsetOf(buf)
  {
    if |buf| == 0 {
      return None;
    }
    var version := buf[0] / 16;
    if version == 4 {
      if |buf| < IPV4_HEADER_LEN {
        return None;
      }
      var ihl := buf[0] % 16 * 4;
      return if ihl < IPV4_HEADER_LEN || |buf| < ihl then None else Some(ihl);
    }
    if version != 6 || |buf| < IPV6_HEADER_LEN {
      return None;
    }
    var next, offset := buf[6], IPV6_HEADER_LEN;
    for i := 0 to MAX_EXT_HEADERS + 1
      invariant IPV6_HEADER_LEN <= offset <= |buf|
      invariant L4OffsetOf(buf) == L4Walk(buf, next, offset, MAX_EXT_HEADERS + 1 - i)
    {
      var len: nat := 8;
      if IsOptionsHeader(next) {
        if |buf| <= offset + 1 {
          return None;
        }
        len := (buf[offset + 1] as int + 1) * 8;
      } else if next == IPPROTO_AH {
        if |buf| <= offset + 1 {
          return None;
        }
        len := (buf[offset + 1] as int + 2) * 4;
      } else if next != IPPROTO_FRAGMENT {
        return Some(offset);
      }
      if |buf| <= offset {
        return None;
      }
      next, offset := buf[offset], offset + len;
      if |buf| < offset {
        return None;
      }
    }
    return None;
  }

  // ---- The kernel program's walk ------------------------------------------------------

  datatype UdpPayload = UdpPayload(srcPort: u16, dstPort: u16, offset: nat, len: nat, declaredLen: nat)

  function ByteAt(buf: Bytes, valid: nat, off: nat): Option<byte> {
    if off >= valid || off >= |buf| then None else Some(buf[off])
  }

  function WordAt(buf: Bytes, valid: nat, off: nat): Option<u16> {
    var high, low := ByteAt(buf, valid, off), ByteAt(buf, valid, off + 1);
    if high.Some? && low.Some? then Some(Word(high.value, low.value)) else None
  }

  /** Where the UDP header starts in the first `valid` bytes, if this is a whole UDP datagram. */
  function UdpHeaderAt(buf: Bytes, valid: nat): Option<nat> {
    var first := ByteAt(buf, valid, 0);
    if first.None? then None
    else if first.value / 16 == 4 then
      var ihl := first.value % 16 * 4;
      var frag := WordAt(buf, valid, 6);
      if ihl < IPV4_HEADER_LEN || ByteAt(buf, valid, 9) != Some(IPPROTO_UDP) || frag.None? || frag.value % 8192 != 0
      then None else Some(ihl)
    else if first.value / 16 == 6 then
      if ByteAt(buf, valid, 6) != Some(IPPROTO_UDP) then None else Some(IPV6_HEADER_LEN)
    else None
  }

  function UdpPayloadFromL3(buf: Bytes, valid: nat): Option<UdpPayload> {
    var at := UdpHeaderAt(buf, valid);
    if at.None? then None
    else
      var src, dst := WordAt(buf, valid, at.value), WordAt(buf, valid, at.value + 2);
      var len := WordAt(buf, valid, at.value + 4);
      var offset := at.value + UDP_HEADER_LEN;
      if src.None? || dst.None? || len.None? || len.value < UDP_HEADER_LEN || offset > valid then None
      else
        var declared, available := len.value - UDP_HEADER_LEN, valid - offset;
        Some(UdpPayload(src.value, dst.value, offset, if declared < available then declared else available, declared))
  }

  // ---- Agreement -------------------------------------------------------------------------

  lemma {:induction false} WalksAgree(buf: Bytes, next: byte, offset: nat, fuel: nat)
    requires offset <= |buf| && Walk(buf, next, offset, fuel).Upper?
    ensures L4Walk(buf, next, offset, fuel) == Some(Walk(buf, next, offset, fuel).offset)
    decreases fuel
  {
    if IsExtension(next) {
      var len := ExtLength(next, buf[offset + 1]);
      WalksAgree(buf, buf[offset], offset + len, fuel - 1);
    }
  }

  /** Whatever flow the parser reports, the refusal path finds its ports where the parser read them. */
  lemma RefusalPathFindsThePorts(buf: Bytes, direction: Direction, r: Parsed)
    requires ParsesTo(buf, direction, r) && r.Flow? && (r.conn.protocol.Tcp? || r.conn.protocol.Udp?)
    ensures L4OffsetOf(buf).Some?
    ensures var o := L4OffsetOf(buf).value;
            && o + 4 <= |buf|
            && r.conn.srcPort == Word(buf[o], buf[o + 1]) && r.conn.dstPort == Word(buf[o + 2], buf[o + 3])
  {
    if buf[0] / 16 == 6 {
      var end := Walk(buf, buf[6], IPV6_HEADER_LEN, MAX_EXT_HEADERS + 1);
      assert end.Upper?;
      WalksAgree(buf, buf[6], IPV6_HEADER_LEN, MAX_EXT_HEADERS + 1);
    }
  }

  /**
   * Whatever datagram the kernel program recognises, the parser reports as UDP with the same
   * ports and the refusal path finds eight bytes before the payload, however much of the buffer
   * was declared valid; and the payload it hands out lies within the valid bytes.
   */
  lemma KernelWalkAgrees(buf: Bytes, valid: nat, direction: Direction, r: Parsed)
    requires UdpPayloadFromL3(buf, valid).Some? && ParsesTo(buf, direction, r)
    ensures var u := UdpPayloadFromL3(buf, valid).value;
            && r.Flow? && r.conn.protocol.Udp? && r.conn.srcPort == u.srcPort && r.conn.dstPort == u.dstPort
            && L4OffsetOf(buf) == Some(u.offset - UDP_HEADER_LEN)
            && u.offset + u.len <= valid && u.len <= u.declaredLen
            && (u.len == u.declaredLen || u.offset + u.len == valid)
  {
    var u := UdpPayloadFromL3(buf, valid).value;
    assert |buf| > u.offset - 3;
    if buf[0] / 16 == 6 {
      assert Walk(buf, IPPROTO_UDP, IPV6_HEADER_LEN, MAX_EXT_HEADERS + 1) == Upper(IPPROTO_UDP, IPV6_HEADER_LEN);
    }
  }

  // ---- Extension-header chains ---------------------------------------------------------------

  /** One extension header as a sender lays it out, without its next-header byte. */
  datatype ExtHeader =
    | Options(kind: byte, units: byte, body: Bytes)
    | Auth(units: byte, body: Bytes)
    | FirstFragment(reserved: byte, flags: byte, ident: Bytes)

  predicate Encodable(h: ExtHeader) {
    match h
    case Options(kind, units, body) => (kind == 0 || kind == 43 || kind == 60) && |body| == (units + 1) * 8 - 2
    case Auth(units, body) => |body| == (units + 2) * 4 - 2
    case FirstFragment(_, flags, ident) => flags < 8 && |ident| == 4
  }

  function NumberOf(h: ExtHeader): byte {
    match h
    case Options(kind, _, _) => kind
    case Auth(_, _) => 51
    case FirstFragment(_, _, _) => 44
  }

  function Encode(h: ExtHeader, next: byte): Bytes {
    match h
    case Options(_, units, body) => [next, units] + body
    case Auth(units, body) => [next, units] + body
    case FirstFragment(reserved, flags, ident) => [next, reserved, 0, flags] + ident
  }

  function FirstNumber(hs: seq<ExtHeader>, upper: byte): byte {
    if hs == [] then upper else NumberOf(hs[0])
  }

  function EncodeChain(hs: seq<ExtHeader>, upper: byte, l4: Bytes): Bytes {
    if hs == [] then l4 else Encode(hs[0], FirstNumber(hs[1..], upper)) + EncodeChain(hs[1..], upper, l4)
  }

  predicate AllEncodable(hs: seq<ExtHeader>) {
    hs == [] || (Encodable(hs[0]) && AllEncodable(hs[1..]))
  }

  /** A whole IPv6 packet: 40 fixed bytes, then the chain, then the upper layer. */
  function Ipv6Packet(lead: Bytes, hop: byte, src: Octets16, dst: Octets16, hs: seq<ExtHeader>, upper: byte,
                      l4: Bytes): Bytes
    requires |lead| == 6
  {
    lead + [FirstNumber(hs, upper), hop] + src + dst + EncodeChain(hs, upper, l4)
  }

  /** A turn at an encoded header leads exactly past it. */
  lemma EncodedTurn(buf: Bytes, offset: nat, h: ExtHeader, next: byte)
    requires Encodable(h) && offset + |Encode(h, next)| <= |buf|
    requires forall i | 0 <= i < |Encode(h, next)| :: buf[offset + i] == Encode(h, next)[i]
    ensures TurnAt(buf, NumberOf(h), offset) == Onto(next, offset + |Encode(h, next)|)
  {
    hide Word;
    var e := Encode(h, next);
    assert buf[offset] == e[0] && buf[offset + 1] == e[1];
    match h {
      case Options(kind, units, body) => assert e[0] == next && e[1] == units && |e| == ExtLength(kind, units);
      case Auth(units, body) => assert e[0] == next && e[1] == units && |e| == ExtLength(IPPROTO_AH, units);
      case FirstFragment(reserved, flags, ident) =>
        assert e[0] == next && e[2] == 0 && e[3] == flags && |e| == 8;
        assert buf[offset + 2] == e[2] && buf[offset + 3] == e[3];
        FirstFragmentWord(flags);
    }
  }

  lemma FirstFragmentWord(flags: byte)
    requires flags < 8
    ensures Word(0, flags) / 8 == 0
  {
  }

  /** One encoded header is stepped over exactly. */
  lemma WalkOneHeader(buf: Bytes, offset: nat, h: ExtHeader, next: byte, rest: Bytes, fuel: nat)
    requires Encodable(h) && offset <= |buf| && buf[offset..] == Encode(h, next) + rest && fuel > 0
    ensures var end := offset + |Encode(h, next)|;
            end <= |buf| && buf[end..] == rest && Walk(buf, NumberOf(h), offset, fuel) == Walk(buf, next, end, fuel - 1)
  {
    hide Walk, TurnAt, Encode, Encodable, NumberOf;
    EncodedBytes(buf, offset, Encode(h, next), rest);
    EncodedTurn(buf, offset, h, next);
    WalkTurns(buf, NumberOf(h), offset, fuel);
  }

  lemma EncodedBytes(buf: Bytes, offset: nat, e: Bytes, rest: Bytes)
    requires offset <= |buf| && buf[offset..] == e + rest
    ensures offset + |e| <= |buf| && buf[offset + |e|..] == rest
    ensures forall i | 0 <= i < |e| :: buf[offset + i] == e[i]
  {
    var tail := buf[offset..];
    assert buf[offset + |e|..] == tail[|e|..];
    forall i | 0 <= i < |e| ensures buf[offset + i] == e[i] {
      assert tail[i] == e[i];
    }
  }

  lemma SuffixOfConcat(a: Bytes, b: Bytes, k: nat)
    requires k <= |b|
    ensures (a + b)[|a + b| - k..] == b[|b| - k..]
  {
  }

  lemma {:induction false} ChainEndsWithUpper(hs: seq<ExtHeader>, upper: byte, l4: Bytes)
    ensures var b := EncodeChain(hs, upper, l4); |l4| <= |b| && b[|b| - |l4|..] == l4
  {
    hide Encode;
    if hs == [] {
    } else {
      ChainEndsWithUpper(hs[1..], upper, l4);
      SuffixOfConcat(Encode(hs[0], FirstNumber(hs[1..], upper)), EncodeChain(hs[1..], upper, l4), |l4|);
    }
  }

  /** A chain is stepped over header by header, whatever follows it. */
  lemma {:induction false} WalkChain(buf: Bytes, offset: nat, hs: seq<ExtHeader>, after: byte, rest: Bytes, fuel: nat)
    requires AllEncodable(hs) && |rest| <= |buf| && |hs| <= fuel
    requires offset <= |buf| && buf[offset..] == EncodeChain(hs, after, rest)
    ensures Walk(buf, FirstNumber(hs, after), offset, fuel) == Walk(buf, after, |buf| - |rest|, fuel - |hs|)
    decreases |hs|
  {
    hide Walk, Encode;
    if hs == [] {
      assert |buf[offset..]| == |rest|;
    } else {
      var next, more := FirstNumber(hs[1..], after), EncodeChain(hs[1..], after, rest);
      WalkOneHeader(buf, offset, hs[0], next, more, fuel);
      WalkChain(buf, offset + |Encode(hs[0], next)|, hs[1..], after, rest, fuel - 1);
    }
  }

  lemma {:induction false} WalkLongChain(buf: Bytes, offset: nat, hs: seq<ExtHeader>, after: byte, rest: Bytes,
                                         fuel: nat)
    requires AllEncodable(hs) && |hs| >= fuel && offset <= |buf| && buf[offset..] == EncodeChain(hs, after, rest)
    ensures Walk(buf, FirstNumber(hs, after), offset, fuel) == TooLong
    decreases fuel
  {
    hide Walk, Encode;
    if fuel == 0 {
      WalkEnds(buf, FirstNumber(hs, after), offset, fuel);
    } else {
      var next, more := FirstNumber(hs[1..], after), EncodeChain(hs[1..], after, rest);
      WalkOneHeader(buf, offset, hs[0], next, more, fuel);
      WalkLongChain(buf, offset + |Encode(hs[0], next)|, hs[1..], after, rest, fuel - 1);
    }
  }

  lemma PacketLayout(lead: Bytes, hop: byte, src: Octets16, dst: Octets16, hs: seq<ExtHeader>, upper: byte, l4: Bytes)
    requires |lead| == 6
    ensures var buf := Ipv6Packet(lead, hop, src, dst, hs, upper, l4);
            && 40 <= |buf| && |l4| <= |buf| && buf[0] == lead[0] && buf[6] == FirstNumber(hs, upper)
            && buf[8..24] == src && buf[24..40] == dst
            && buf[40..] == EncodeChain(hs, upper, l4) && buf[|buf| - |l4|..] == l4
  {
    hide Encode, FirstNumber;
    var chain := EncodeChain(hs, upper, l4);
    hide EncodeChain;
    var middle := [FirstNumber(hs, upper), hop];
    Ipv6PacketFields(lead, middle, src, dst, chain);
    ChainEndsWithUpper(hs, upper, l4);
    SuffixOfConcat(lead + middle + src + dst, chain, |l4|);
  }

  /** What the parser makes of a located upper layer. */
  lemma ParsedAfterWalk(buf: Bytes, direction: Direction, r: Parsed, upper: byte, l4: Bytes)
    requires |buf| >= 40 && buf[0] / 16 == 6 && |l4| <= |buf| && buf[|buf| - |l4|..] == l4
    requires ParsesTo(buf, direction, r)
    ensures var end := Walk(buf, buf[6], IPV6_HEADER_LEN, MAX_EXT_HEADERS + 1);
            && (end == TooLong ==> r == Failed(TooManyExtensions))
            && (end == Upper(upper, |buf| - |l4|) ==>
                  Reports(r, V6(buf[8..24]), V6(buf[24..40]), upper, l4, direction))
  {
    hide Walk;
  }

  lemma Ipv6PacketFields(lead: Bytes, middle: Bytes, src: Octets16, dst: Octets16, chain: Bytes)
    requires |lead| == 6 && |middle| == 2
    ensures var buf := lead + middle + src + dst + chain;
            && buf[0] == lead[0] && buf[6] == middle[0] && buf[8..24] == src && buf[24..40] == dst && buf[40..] == chain
  {
  }

  /**
   * Round trip: a packet laid out with any chain of at most eight extension headers of any
   * encodable length parses back to exactly its addresses and upper layer, which is also where the
   * refusal path looks; a longer chain is refused as too long.
   */
  lemma ChainRoundTrips(lead: Bytes, hop: byte, src: Octets16, dst: Octets16, hs: seq<ExtHeader>, upper: byte,
                        l4: Bytes, direction: Direction, r: Parsed)
    requires |lead| == 6 && lead[0] / 16 == 6 && AllEncodable(hs)
    requires upper != 0 && upper != 43 && upper != 44 && upper != 51 && upper != 60
    requires ParsesTo(Ipv6Packet(lead, hop, src, dst, hs, upper, l4), direction, r)
    ensures |hs| <= 8 ==> Reports(r, V6(src), V6(dst), upper, l4, direction)
    ensures |hs| <= 8 ==>
              var packet := Ipv6Packet(lead, hop, src, dst, hs, upper, l4);
              L4OffsetOf(packet) == Some(|packet| - |l4|)
    ensures |hs| > 8 ==> r == Failed(TooManyExtensions)
  {
    hide Ipv6Packet, Walk, L4Walk, Encode, EncodeChain, FirstNumber, ParsesTo, Reports;
    var buf := Ipv6Packet(lead, hop, src, dst, hs, upper, l4);
    PacketLayout(lead, hop, src, dst, hs, upper, l4);
    if |hs| <= MAX_EXT_HEADERS {
      WalkChain(buf, 40, hs, upper, l4, MAX_EXT_HEADERS + 1);
      WalkEnds(buf, upper, |buf| - |l4|, MAX_EXT_HEADERS + 1 - |hs|);
      WalksAgree(buf, buf[6], 40, MAX_EXT_HEADERS + 1);
    } else {
      WalkLongChain(buf, 40, hs, upper, l4, MAX_EXT_HEADERS + 1);
    }
    ParsedAfterWalk(buf, direction, r, upper, l4);
  }

  /** A later fragment, whatever chain leads to it, is reported without ports. */
  lemma LaterFragmentHasNoPorts(lead: Bytes, hop: byte, src: Octets16, dst: Octets16, hs: seq<ExtHeader>,
                                fragment: Bytes, direction: Direction, r: Parsed)
    requires |lead| == 6 && lead[0] / 16 == 6 && AllEncodable(hs) && |hs| <= 8
    requires |fragment| >= 8 && (fragment[2] != 0 || fragment[3] >= 8)
    requires ParsesTo(Ipv6Packet(lead, hop, src, dst, hs, 44, fragment), direction, r)
    ensures r == Flow(Connection(Other(44), direction, V6(src), 0, V6(dst), 0))
  {
    hide Ipv6Packet, Walk, Encode, EncodeChain, FirstNumber, Finalize, Word;
    var buf := Ipv6Packet(lead, hop, src, dst, hs, IPPROTO_FRAGMENT, fragment);
    PacketLayout(lead, hop, src, dst, hs, IPPROTO_FRAGMENT, fragment);
    WalkChain(buf, 40, hs, IPPROTO_FRAGMENT, fragment, MAX_EXT_HEADERS + 1);
    var at := |buf| - |fragment|;
    LaterFragmentWord(fragment[2], fragment[3]);
    assert buf[at + 2] == buf[at..][2] && buf[at + 3] == buf[at..][3];
    WalkTurns(buf, IPPROTO_FRAGMENT, at, MAX_EXT_HEADERS + 1 - |hs|);
  }

  lemma LaterFragmentWord(high: byte, low: byte)
    requires high != 0 || low >= 8
    ensures Word(high, low) / 8 != 0
  {
  }

  // ---- IPv4 headers --------------------------------------------------------------------------

  /**
   * An IPv4 header as its sender fills it in: `lead` is the service byte, total length and
   * identification, `frag` the flags and the fragment offset, `words` the length of the options.
   */
  datatype Ipv4Head = Ipv4Head(lead: Bytes, frag: Bytes, ttl: byte, check: Bytes, words: nat, options: Bytes)

  predicate Ipv4HeadOk(h: Ipv4Head) {
    |h.lead| == 5 && |h.frag| == 2 && |h.check| == 2 && h.words <= 10 && |h.options| == 4 * h.words
  }

  /** Where in its datagram a fragment belongs, in units of eight bytes. */
  function FragOffset(h: Ipv4Head): nat
    requires Ipv4HeadOk(h)
  {
    Word(h.frag[0], h.frag[1]) % 0x2000
  }

  function Ipv4Packet(h: Ipv4Head, protocol: byte, src: Octets4, dst: Octets4, l4: Bytes): (b: Bytes)
    requires Ipv4HeadOk(h)
    ensures |b| == IPV4_HEADER_LEN + |h.options| + |l4|
  {
    [0x45 + h.words] + h.lead + h.frag + [h.ttl, protocol] + h.check + src + dst + h.options + l4
  }

  lemma Ipv4Layout(h: Ipv4Head, protocol: byte, src: Octets4, dst: Octets4, l4: Bytes)
    requires Ipv4HeadOk(h)
    ensures var b := Ipv4Packet(h, protocol, src, dst, l4);
            && b[0] as int == 0x45 + h.words && b[9] == protocol && b[12..16] == src && b[16..20] == dst
            && b[IPV4_HEADER_LEN + |h.options|..] == l4
  {
    var front := [0x45 + h.words] + h.lead + h.frag + [h.ttl, protocol] + h.check;
    var b := Ipv4Packet(h, protocol, src, dst, l4);
    assert b == front + (src + dst + h.options + l4) && |front| == 12;
    assert b[9] == front[9];
    assert b[12..] == src + dst + h.options + l4;
    assert b[12..16] == b[12..][..4] && b[16..20] == b[12..][4..8];
    assert b[IPV4_HEADER_LEN + |h.options|..] == b[12..][8 + |h.options|..];
  }

  /**
   * Round trip: whatever its options, flags and fragment offset, an IPv4 packet parses to exactly
   * its addresses and upper layer, whose ports are the first four bytes behind the header; and that
   * is where the refusal path looks.
   */
  lemma Ipv4RoundTrips(h: Ipv4Head, protocol: byte, src: Octets4, dst: Octets4, l4: Bytes, direction: Direction,
                       r: Parsed)
    requires Ipv4HeadOk(h) && ParsesTo(Ipv4Packet(h, protocol, src, dst, l4), direction, r)
    ensures Reports(r, V4(src), V4(dst), protocol, l4, direction)
    ensures L4OffsetOf(Ipv4Packet(h, protocol, src, dst, l4)) == Some(20 + |h.options|)
  {
    hide Ipv4Packet, Walk, L4Walk;
    Ipv4Layout(h, protocol, src, dst, l4);
  }

  /** A UDP datagram as its sender lays it out, its length field free. */
  ghost predicate IsUdp(l4: Bytes, srcPort: u16, dstPort: u16, declared: u16) {
    && |l4| >= 8
    && l4[0] as int * 256 + l4[1] == srcPort && l4[2] as int * 256 + l4[3] == dstPort
    && l4[4] as int * 256 + l4[5] == declared
  }

  /** What the kernel program reads of a UDP datagram whose header starts at `at`. */
  lemma KernelReadsUdp(buf: Bytes, at: nat, srcPort: u16, dstPort: u16, declared: u16)
    requires at <= |buf| && IsUdp(buf[at..], srcPort, dstPort, declared)
    requires UdpHeaderAt(buf, |buf|) == Some(at)
    ensures UdpPayloadFromL3(buf, |buf|) ==
            if declared < 8 then None
            else Some(UdpPayload(srcPort, dstPort, at + 8,
                                 if declared - 8 < |buf| - at - 8 then declared - 8 else |buf| - at - 8, declared - 8))
  {
    hide UdpHeaderAt;
    var l4 := buf[at..];
    assert l4[0] == buf[at] && l4[1] == buf[at + 1] && l4[2] == buf[at + 2] && l4[3] == buf[at + 3];
    assert l4[4] == buf[at + 4] && l4[5] == buf[at + 5];
  }

  /**
   * The kernel program recognises every unfragmented or first-fragment IPv4 UDP packet whose own
   * length holds its header, and no later fragment.
   */
  lemma KernelReadsIpv4(h: Ipv4Head, src: Octets4, dst: Octets4, l4: Bytes, srcPort: u16, dstPort: u16, declared: u16)
    requires Ipv4HeadOk(h) && IsUdp(l4, srcPort, dstPort, declared)
    ensures var packet := Ipv4Packet(h, 17, src, dst, l4);
            UdpPayloadFromL3(packet, |packet|) ==
            if declared < 8 || FragOffset(h) != 0 then None
            else Some(UdpPayload(srcPort, dstPort, 28 + |h.options|,
                                 if declared - 8 < |l4| - 8 then declared - 8 else |l4| - 8, declared - 8))
  {
    hide Ipv4Packet, IsUdp, Word, UdpPayloadFromL3;
    var packet := Ipv4Packet(h, 17, src, dst, l4);
    Ipv4Layout(h, 17, src, dst, l4);
    Ipv4Frag(h, 17, src, dst, l4);
    KernelHeader(packet, 20 + |h.options|, Word(h.frag[0], h.frag[1]));
    if FragOffset(h) == 0 {
      KernelReadsUdp(packet, 20 + |h.options|, srcPort, dstPort, declared);
    } else {
      NoHeaderNoPayload(packet, |packet|);
    }
  }

  lemma NoHeaderNoPayload(buf: Bytes, valid: nat)
    requires UdpHeaderAt(buf, valid) == None
    ensures UdpPayloadFromL3(buf, valid) == None
  {
    hide UdpHeaderAt;
  }

  lemma Ipv4Frag(h: Ipv4Head, protocol: byte, src: Octets4, dst: Octets4, l4: Bytes)
    requires Ipv4HeadOk(h)
    ensures var b := Ipv4Packet(h, protocol, src, dst, l4); |b| >= 20 && b[6] == h.frag[0] && b[7] == h.frag[1]
  {
    var b := Ipv4Packet(h, protocol, src, dst, l4);
    var front := [0x45 + h.words] + h.lead + h.frag;
    assert |front| == 8 && front[6] == h.frag[0] && front[7] == h.frag[1];
    assert b[..8] == front;
    assert b[6] == b[..8][6] && b[7] == b[..8][7];
  }

  lemma KernelHeader(buf: Bytes, at: nat, frag: u16)
    requires |buf| >= 20 && buf[0] / 16 == 4 && buf[0] % 16 * 4 == at >= 20 && buf[9] == 17
    requires Word(buf[6], buf[7]) == frag
    ensures UdpHeaderAt(buf, |buf|) == if frag % 0x2000 != 0 then None else Some(at)
  {
    hide Word;
  }

  /** And every IPv6 UDP packet without extension headers. */
  lemma KernelReadsIpv6(lead: Bytes, hop: byte, src: Octets16, dst: Octets16, l4: Bytes,
                        srcPort: u16, dstPort: u16, declared: u16)
    requires |lead| == 6 && lead[0] / 16 == 6 && IsUdp(l4, srcPort, dstPort, declared)
    ensures var packet := Ipv6Packet(lead, hop, src, dst, [], 17, l4);
            UdpPayloadFromL3(packet, |packet|) ==
            if declared < 8 then None
            else Some(UdpPayload(srcPort, dstPort, 48,
                                 if declared - 8 < |l4| - 8 then declared - 8 else |l4| - 8, declared - 8))
  {
    hide Ipv6Packet, IsUdp, UdpPayloadFromL3, Word;
    PacketLayout(lead, hop, src, dst, [], 17, l4);
    KernelReadsUdp(Ipv6Packet(lead, hop, src, dst, [], 17, l4), 40, srcPort, dstPort, declared);
  }

  /** The parser reports the ports of the whole datagram for the fragment `h` describes. */
  ghost predicate ShowsPorts(h: Ipv4Head, protocol: byte, src: Octets4, dst: Octets4, direction: Direction,
                             whole: Bytes)
    requires Ipv4HeadOk(h) && |whole| >= 8 * FragOffset(h) + 4
  {
    forall r | ParsesTo(Ipv4Packet(h, protocol, src, dst, whole[8 * FragOffset(h)..]), direction, r) ::
      r.Flow? && r.conn.srcPort == Word(whole[0], whole[1]) && r.conn.dstPort == Word(whole[2], whole[3])
  }

  /**
   * In IPv4 the reported ports are those of the datagram exactly for a first fragment: the parser
   * does not look at the fragment offset, and reads the ports of a later one out of its payload.
   */
  lemma PortsNeedTheFirstFragment(h: Ipv4Head, protocol: byte, src: Octets4, dst: Octets4, direction: Direction)
    requires Ipv4HeadOk(h) && (protocol == 6 || protocol == 17)
    ensures (forall whole: Bytes | |whole| >= 8 * FragOffset(h) + 4 ::
               ShowsPorts(h, protocol, src, dst, direction, whole))
            <==> FragOffset(h) == 0
  {
    hide Ipv4Packet, ParsesTo;
    if FragOffset(h) == 0 {
      forall whole: Bytes, r | |whole| >= 4 && ParsesTo(Ipv4Packet(h, protocol, src, dst, whole[0..]), direction, r)
        ensures r.Flow? && r.conn.srcPort == Word(whole[0], whole[1]) && r.conn.dstPort == Word(whole[2], whole[3])
      {
        Ipv4RoundTrips(h, protocol, src, dst, whole[0..], direction, r);
      }
    } else {
      var whole: Bytes := seq(8 * FragOffset(h) + 4, i => if i == 8 * FragOffset(h) + 1 then 1 else 0);
      var packet := Ipv4Packet(h, protocol, src, dst, whole[8 * FragOffset(h)..]);
      Ipv4Layout(h, protocol, src, dst, whole[8 * FragOffset(h)..]);
      var r := SomeParse(packet, direction);
      Ipv4RoundTrips(h, protocol, src, dst, whole[8 * FragOffset(h)..], direction, r);
      assert !ShowsPorts(h, protocol, src, dst, direction, whole);
    }
  }

  lemma SomeParse(buf: Bytes, direction: Direction) returns (r: Parsed)
    requires |buf| > 0 && buf[0] / 16 == 4
    ensures ParsesTo(buf, direction, r)
  {
    r := ParsedIpv4(buf, direction);
  }

  /** A later fragment whose payload begins 0, 80, 0, 81 is reported as TCP between ports 80 and 81. */
  lemma LaterFragmentShowsPorts(r: Parsed)
    requires var h := Ipv4Head([0, 0, 24, 0, 0], [0, 1], 64, [0, 0], 0, []);
             ParsesTo(Ipv4Packet(h, IPPROTO_TCP, [10, 0, 0, 1], [10, 0, 0, 2], [0, 80, 0, 81]), Inbound, r)
    ensures r == Flow(Connection(Tcp, Inbound, V4([10, 0, 0, 1]), 80, V4([10, 0, 0, 2]), 81))
  {
    hide Ipv4Packet, ParsesTo;
    var h := Ipv4Head([0, 0, 24, 0, 0], [0, 1], 64, [0, 0], 0, []);
    Ipv4RoundTrips(h, IPPROTO_TCP, [10, 0, 0, 1], [10, 0, 0, 2], [0, 80, 0, 81], Inbound, r);
  }

  // ---- Prefixes ---------------------------------------------------------------------------------

  /** Cut off behind the upper layer's start a packet is walked as before; cut off earlier it is too short. */
  lemma {:induction false} PrefixWalk(buf: Bytes, n: nat, next: byte, offset: nat, fuel: nat)
    requires offset <= n <= |buf| && Walk(buf, next, offset, fuel).Upper?
    ensures var upper := Walk(buf, next, offset, fuel);
            var end := Walk(buf[..n], next, offset, fuel);
            if upper.offset <= n then end == upper else end.Short?
    decreases fuel
  {
    hide Word;
    if !IsExtension(next) {
    } else {
      var len := ExtLength(next, buf[offset + 1]);
      WalkStaysInside(buf, buf[offset], offset + len, fuel - 1);
      if offset + len <= n {
        PrefixWalk(buf, n, buf[offset], offset + len, fuel - 1);
      }
    }
  }

  /** A prefix that holds the ports of a TCP or UDP packet parses as the packet does; a shorter one fails. */
  lemma PrefixParses(buf: Bytes, n: nat, direction: Direction, r: Parsed, p: Parsed)
    requires ParsesTo(buf, direction, r) && r.Flow? && (r.conn.protocol.Tcp? || r.conn.protocol.Udp?)
    requires n <= |buf| && n >= (if buf[0] / 16 == 4 then IPV4_HEADER_LEN else IPV6_HEADER_LEN)
    requires ParsesTo(buf[..n], direction, p)
    ensures L4OffsetOf(buf).Some?
    ensures if L4OffsetOf(buf).value + 4 <= n then p == r else p.Failed?
  {
    RefusalPathFindsThePorts(buf, direction, r);
    var cut := buf[..n];
    if buf[0] / 16 == 4 {
      PrefixParsesIpv4(buf, n, direction);
    } else {
      PrefixParsesIpv6(buf, n, direction, r, p);
    }
  }

  lemma PrefixParsesIpv4(buf: Bytes, n: nat, direction: Direction)
    requires IPV4_HEADER_LEN <= n <= |buf| && buf[0] / 16 == 4
    requires var r := ParsedIpv4(buf, direction); r.Flow? && (r.conn.protocol.Tcp? || r.conn.protocol.Udp?)
    ensures var p := ParsedIpv4(buf[..n], direction);
            if buf[0] as int % 16 * 4 + 4 <= n then p == ParsedIpv4(buf, direction) else p.Failed?
  {
    hide Word;
    var cut := buf[..n];
    assert cut[12..16] == buf[12..16] && cut[16..20] == buf[16..20];
  }

  lemma PrefixParsesIpv6(buf: Bytes, n: nat, direction: Direction, r: Parsed, p: Parsed)
    requires IPV6_HEADER_LEN <= n <= |buf| && buf[0] / 16 == 6
    requires ParsesTo(buf, direction, r) && r.Flow? && (r.conn.protocol.Tcp? || r.conn.protocol.Udp?)
    requires ParsesTo(buf[..n], direction, p)
    ensures L4OffsetOf(buf).Some? && if L4OffsetOf(buf).value + 4 <= n then p == r else p.Failed?
  {
    hide Walk, L4Walk, Word;
    var cut := buf[..n];
    var end := Walk(buf, buf[6], IPV6_HEADER_LEN, MAX_EXT_HEADERS + 1);
    assert end.Upper?;
    WalksAgree(buf, buf[6], IPV6_HEADER_LEN, MAX_EXT_HEADERS + 1);
    PrefixWalk(buf, n, buf[6], IPV6_HEADER_LEN, MAX_EXT_HEADERS + 1);
    assert cut[8..24] == buf[8..24] && cut[24..40] == buf[24..40];
    if end.offset <= n {
      assert cut[end.offset..] == buf[end.offset..][..n - end.offset];
    }
  }
}
