/** Forged refusals: the reset or port-unreachable error sent in the name of the peer. */
module Refusals {
  import opened CoreTypes
  import opened Checksums
  import opened Packets

  const TCP_HEADER_LEN: nat := 20
  const ICMP_HEADER_LEN: nat := 8
  const ICMPV4_QUOTE_L4_BYTES: nat := 8
  const IPV6_MIN_MTU: nat := 1280
  const DEFAULT_TTL: byte := 64

  const TCP_FLAG_FIN: nat := 1
  const TCP_FLAG_SYN: nat := 2
  const TCP_FLAG_RST: nat := 4
  const TCP_FLAG_ACK: nat := 16

  predicate HasFlag(flags: byte, bit: nat)
    requires bit > 0
  {
    flags as int / bit % 2 == 1
  }

  function U32Bytes(n: u32): (b: Bytes)
    ensures |b| == 4 && U32At(b, 0) == n
  {
    U16Bytes(n / 0x1_0000) + U16Bytes(n % 0x1_0000)
  }

  function U32At(b: Bytes, i: nat): u32
    requires i + 4 <= |b|
  {
    Word(b[i], b[i + 1]) as int * 0x1_0000 + Word(b[i + 2], b[i + 3])
  }

  function Min(a: nat, b: nat): nat {
    if a < b then a else b
  }

  // ---- Reset generation ------------------------------------------------------------

  datatype RstFields = RstFields(seqNo: u32, ackNo: u32, ackFlag: bool)

  /** Octets of sequence space a segment takes: its data, and one each for SYN and FIN. */
  function SegmentLength(tcp: Bytes): nat
    requires |tcp| >= TCP_HEADER_LEN
  {
    var declared := tcp[12] as int / 16 * 4;
    var header := Min(|tcp|, if declared < TCP_HEADER_LEN then TCP_HEADER_LEN else declared);
    |tcp| - header
    + (if HasFlag(tcp[13], TCP_FLAG_SYN) then 1 else 0)
    + (if HasFlag(tcp[13], TCP_FLAG_FIN) then 1 else 0)
  }

  /** The reset that answers a segment, if one may (section 3.5.2 of RFC 9293). */
  function RstFieldsOf(tcp: Bytes): Option<RstFields> {
    if |tcp| < TCP_HEADER_LEN || HasFlag(tcp[13], TCP_FLAG_RST) then None
    else if HasFlag(tcp[13], TCP_FLAG_ACK) then Some(RstFields(U32At(tcp, 8), 0, false))
    else Some(RstFields(0, (U32At(tcp, 4) as int + SegmentLength(tcp)) % U32_LIMIT, true))
  }

  /** A TCP segment as its sender thinks of it. */
  datatype Segment = Segment(srcPort: u16, dstPort: u16, seqNo: u32, ackNo: u32, flags: byte,
                             rest: Bytes, options: Bytes, data: Bytes)

  predicate SegmentOk(s: Segment) {
    |s.rest| == 6 && |s.options| % 4 == 0 && |s.options| <= 40
  }

  function Encoded(s: Segment): Bytes
    requires SegmentOk(s)
  {
    U16Bytes(s.srcPort) + U16Bytes(s.dstPort) + U32Bytes(s.seqNo) + U32Bytes(s.ackNo)
    + [(TCP_HEADER_LEN + |s.options|) * 4, s.flags] + s.rest + s.options + s.data
  }

  lemma EncodedFields(s: Segment)
    requires SegmentOk(s)
    ensures var b := Encoded(s);
            && |b| == TCP_HEADER_LEN + |s.options| + |s.data|
            && b[4..8] == U32Bytes(s.seqNo) && b[8..12] == U32Bytes(s.ackNo)
            && b[12] as int == (TCP_HEADER_LEN + |s.options|) * 4 && b[13] == s.flags
  {
    hide U16Bytes, U32Bytes;
  }

  /**
   * The reset generated for a well-formed segment is the one section 3.5.2 of RFC 9293 asks for:
   * none for a reset; sequenced by the segment's ACK if it has one; otherwise acknowledging
   * everything the segment occupies in sequence space.
   */
  lemma ResetAnswersSegment(s: Segment)
    requires SegmentOk(s)
    ensures RstFieldsOf(Encoded(s)) ==
            if s.flags / 4 % 2 == 1 then None
            else if s.flags / 16 % 2 == 1 then Some(RstFields(s.ackNo, 0, false))
            else Some(RstFields(0, (s.seqNo + |s.data| + s.flags / 2 % 2 + s.flags % 2) % 0x1_0000_0000, true))
  {
    FlagsAreBits(s.flags);
    hide Encoded, HasFlag, U32Bytes, U32At, SegmentLength;
    EncodedFields(s);
    var b := Encoded(s);
    SliceReadsAlike(b, 4);
    SliceReadsAlike(b, 8);
    EncodedLength(s, b);
  }

  lemma FlagsAreBits(flags: byte)
    ensures HasFlag(flags, TCP_FLAG_FIN) <==> flags % 2 == 1
    ensures HasFlag(flags, TCP_FLAG_SYN) <==> flags / 2 % 2 == 1
    ensures HasFlag(flags, TCP_FLAG_RST) <==> flags / 4 % 2 == 1
    ensures HasFlag(flags, TCP_FLAG_ACK) <==> flags / 16 % 2 == 1
  {
  }

  /**
   * Of any bytes at all: a short or resetting segment gets none, and a data offset that points before
   * the ports' header or past the segment counts as the nearest that does not.
   */
  lemma ResetAnswersAnySegment(tcp: Bytes)
    ensures |tcp| < 20 ==> RstFieldsOf(tcp) == None
    ensures |tcp| >= 20 ==>
              var flags := tcp[13];
              var header := tcp[12] as int / 16 * 4;
              var occupied := (if header < 20 then |tcp| - 20 else if header > |tcp| then 0 else |tcp| - header)
                              + flags / 2 % 2 + flags % 2;
              RstFieldsOf(tcp) ==
              if flags / 4 % 2 == 1 then None
              else if flags / 16 % 2 == 1 then Some(RstFields(U32At(tcp, 8), 0, false))
              else Some(RstFields(0, (U32At(tcp, 4) as int + occupied) % 0x1_0000_0000, true))
  {
    if |tcp| >= 20 {
      FlagsAreBits(tcp[13]);
    }
    hide HasFlag, U32At;
  }

  /** The number four bytes denote is big-endian. */
  lemma U32IsBigEndian(b: Bytes, i: nat)
    requires i + 4 <= |b|
    ensures U32At(b, i) == b[i] as int * 0x100_0000 + b[i + 1] as int * 0x1_0000 + b[i + 2] as int * 0x100 + b[i + 3]
  {
  }

  lemma SliceReadsAlike(b: Bytes, i: nat)
    requires i + 4 <= |b|
    ensures U32At(b, i) == U32At(b[i..i + 4], 0)
  {
  }

  lemma EncodedLength(s: Segment, b: Bytes)
    requires SegmentOk(s) && |b| == TCP_HEADER_LEN + |s.options| + |s.data|
    requires b[12] as int == (TCP_HEADER_LEN + |s.options|) * 4 && b[13] == s.flags
    ensures SegmentLength(b) == |s.data| + (if HasFlag(s.flags, TCP_FLAG_SYN) then 1 else 0)
                                         + (if HasFlag(s.flags, TCP_FLAG_FIN) then 1 else 0)
  {
    hide HasFlag;
    assert b[12] as int / 16 * 4 == TCP_HEADER_LEN + |s.options|;
  }

  // ---- What the packets are, field by field -----------------------------------------

  ghost predicate IsReset(tcp: Bytes, srcPort: u16, dstPort: u16, f: RstFields) {
    && |tcp| == 20
    && Word(tcp[0], tcp[1]) == srcPort && Word(tcp[2], tcp[3]) == dstPort
    && U32At(tcp, 4) == f.seqNo && U32At(tcp, 8) == f.ackNo
    && tcp[12] == 0x50 && tcp[13] == (if f.ackFlag then 0x14 else 0x04)
    && tcp[14] == 0 && tcp[15] == 0 && tcp[18] == 0 && tcp[19] == 0
  }

  /** The fields of an IPv4 header between two addresses: no options, don't fragment. */
  ghost predicate HasIpv4Fields(ip: Bytes, src: Octets4, dst: Octets4, protocol: byte, payloadLen: nat) {
    && |ip| == 20 && ip[0] == 0x45 && ip[1] == 0
    && Word(ip[2], ip[3]) == (20 + payloadLen) % 0x1_0000
    && ip[4] == 0 && ip[5] == 0 && Word(ip[6], ip[7]) == 0x4000
    && ip[8] == 64 && ip[9] == protocol
    && ip[12..16] == src && ip[16..20] == dst
  }

  ghost predicate HasIpv6Fields(ip: Bytes, src: Octets16, dst: Octets16, next: byte, payloadLen: nat) {
    && |ip| == 40 && ip[0] == 0x60 && ip[1] == 0 && ip[2] == 0 && ip[3] == 0
    && Word(ip[4], ip[5]) == payloadLen % 0x1_0000
    && ip[6] == next && ip[7] == 64
    && ip[8..24] == src && ip[24..40] == dst
  }

  ghost predicate HasIpFields(ip: Bytes, src: IpAddr, dst: IpAddr, protocol: byte, payloadLen: nat)
    requires src.V4? == dst.V4?
  {
    if src.V4? then HasIpv4Fields(ip, src.v4, dst.v4, protocol, payloadLen)
    else HasIpv6Fields(ip, src.v6, dst.v6, protocol, payloadLen)
  }

  /** An IPv4 header carries a checksum of itself, an IPv6 header none. */
  ghost predicate HeaderVerifies(ip: Bytes, v4: bool) {
    v4 ==> Rfc1071(ip) == 0
  }

  function HeaderLen(ip: IpAddr): nat {
    if ip.V4? then 20 else 40
  }

  /** The pseudo-header an upper-layer checksum also covers. */
  function PseudoHeader(src: IpAddr, dst: IpAddr, protocol: byte, l4Len: nat): (b: Bytes)
    requires src.V4? == dst.V4?
    ensures |b| == if src.V4? then 12 else 40
  {
    if src.V4? then src.v4 + dst.v4 + [0, protocol] + U16Bytes(l4Len % U16_LIMIT)
    else src.v6 + dst.v6 + U32Bytes(l4Len % U32_LIMIT) + [0, 0, 0, protocol]
  }

  /** A whole packet that resets the connection, checksums aside. */
  ghost predicate HasResetLayout(packet: Bytes, src: IpAddr, srcPort: u16, dst: IpAddr, dstPort: u16, f: RstFields)
    requires src.V4? == dst.V4?
  {
    && |packet| == HeaderLen(src) + 20
    && HasIpFields(packet[..HeaderLen(src)], src, dst, 6, 20)
    && IsReset(packet[HeaderLen(src)..], srcPort, dstPort, f)
  }

  /** A whole packet that resets the connection, with checksums that verify. */
  ghost predicate IsResetPacket(packet: Bytes, src: IpAddr, srcPort: u16, dst: IpAddr, dstPort: u16, f: RstFields)
    requires src.V4? == dst.V4?
  {
    HasResetLayout(packet, src, srcPort, dst, dstPort, f) && ResetVerifies(packet, src, dst)
  }

  ghost predicate ResetVerifies(packet: Bytes, src: IpAddr, dst: IpAddr)
    requires src.V4? == dst.V4?
  {
    && |packet| >= HeaderLen(src)
    && HeaderVerifies(packet[..HeaderLen(src)], src.V4?)
    && Rfc1071(PseudoHeader(src, dst, IPPROTO_TCP, TCP_HEADER_LEN) + packet[HeaderLen(src)..]) == 0
  }

  /** How much of the offending datagram an error quotes: through its ports, or as much as fits. */
  function Quote(v4: bool, original: Bytes): Option<Bytes> {
    if v4 then
      var at := L4OffsetOf(original);
      if at.None? || |original| < at.value + ICMPV4_QUOTE_L4_BYTES then None
      else Some(original[..at.value + ICMPV4_QUOTE_L4_BYTES])
    else Some(original[..Min(|original|, IPV6_MIN_MTU - IPV6_HEADER_LEN - ICMP_HEADER_LEN)])
  }

  function IcmpProtocol(v4: bool): byte {
    if v4 then IPPROTO_ICMP else IPPROTO_ICMPV6
  }

  /** What an ICMP checksum covers besides the message: nothing for IPv4, the pseudo-header for IPv6. */
  function IcmpCovered(src: IpAddr, dst: IpAddr, len: nat): (b: Bytes)
    requires src.V4? == dst.V4?
    ensures |b| == if src.V4? then 0 else 40
  {
    if src.V4? then [] else PseudoHeader(src, dst, IPPROTO_ICMPV6, len)
  }

  ghost predicate IsPortUnreachable(icmp: Bytes, v4: bool, quote: Bytes) {
    && |icmp| == 8 + |quote|
    && icmp[0] == (if v4 then 3 else 1) && icmp[1] == (if v4 then 3 else 4)
    && icmp[4] == 0 && icmp[5] == 0 && icmp[6] == 0 && icmp[7] == 0
    && icmp[8..] == quote
  }

  /** A whole packet that reports the port unreachable, checksums aside. */
  ghost predicate HasUnreachableLayout(packet: Bytes, src: IpAddr, dst: IpAddr, quote: Bytes)
    requires src.V4? == dst.V4?
  {
    && |packet| == HeaderLen(src) + 8 + |quote|
    && HasIpFields(packet[..HeaderLen(src)], src, dst, if src.V4? then 1 else 58, 8 + |quote|)
    && IsPortUnreachable(packet[HeaderLen(src)..], src.V4?, quote)
  }

  /** A whole packet that reports the port unreachable, with checksums that verify. */
  ghost predicate IsUnreachablePacket(packet: Bytes, src: IpAddr, dst: IpAddr, quote: Bytes)
    requires src.V4? == dst.V4?
  {
    HasUnreachableLayout(packet, src, dst, quote) && UnreachableVerifies(packet, src, dst)
  }

  ghost predicate UnreachableVerifies(packet: Bytes, src: IpAddr, dst: IpAddr)
    requires src.V4? == dst.V4?
  {
    && |packet| >= HeaderLen(src)
    && HeaderVerifies(packet[..HeaderLen(src)], src.V4?)
    && var icmp := packet[HeaderLen(src)..];
       Rfc1071(IcmpCovered(src, dst, |icmp|) + icmp) == 0
  }

  // ---- What a receiver checks ----------------------------------------------------------

  /**
   * The checksums a receiver computes from the packet's own bytes: in IPv4 over the header and over
   * the message, for TCP with the addresses, the protocol number and the length; in IPv6 over the
   * message with the addresses, the length and the next-header number, for TCP and ICMP alike.
   */
  ghost predicate ReceiverAccepts(packet: Bytes) {
    if |packet| >= 20 && packet[0] / 16 == 4 then
      && Fold(WordSum(packet[..20])) == 0xffff
      && var l4 := packet[20..];
         if packet[9] == 1 then Fold(WordSum(l4)) == 0xffff
         else Fold(WordSum(packet[12..20]) + packet[9] as int + |l4| + WordSum(l4)) == 0xffff
    else
      && |packet| >= 40 && packet[0] / 16 == 6
      && var l4 := packet[40..];
         Fold(WordSum(packet[8..40]) + |l4| + packet[6] as int + WordSum(l4)) == 0xffff
  }

  lemma CoversWords(prefix: Bytes, l4: Bytes)
    requires |prefix| % 2 == 0 && Rfc1071(prefix + l4) == 0
    ensures Fold(WordSum(prefix) + WordSum(l4)) == 0xffff
  {
    hide WordSum, Fold;
    WordSumSplits(prefix, l4);
  }

  lemma FourBytes(a: byte, b: byte, c: byte, d: byte)
    ensures WordSum([a, b, c, d]) == a as int * 256 + b + c as int * 256 + d
  {
    SumsBigEndianWords(c, d, []);
    SumsBigEndianWords(a, b, [c, d]);
    assert [c, d] + [] == [c, d] && [a, b] + [c, d] == [a, b, c, d];
  }

  /** What follows the addresses in a pseudo-header. */
  lemma PseudoHeaderTail(src: IpAddr, dst: IpAddr, protocol: byte, l4Len: nat)
    requires src.V4? == dst.V4? && l4Len < 0x1_0000
    ensures PseudoHeader(src, dst, protocol, l4Len)
            == src.Octets() + dst.Octets()
               + if src.V4? then [0, protocol, l4Len / 256, l4Len % 256]
                 else [0, 0, l4Len / 256, l4Len % 256] + [0, 0, 0, protocol]
  {
    LengthBytes(l4Len);
    hide U16Bytes, U32Bytes;
    var high, low := l4Len / 256, l4Len % 256;
    if src.V4? {
      JoinsFlat(src.v4 + dst.v4, [0, protocol], [high, low]);
      assert [0, protocol] + [high, low] == [0, protocol, high, low];
    } else {
      JoinsFlat(src.v6 + dst.v6, [0, 0, high, low], [0, 0, 0, protocol]);
    }
  }

  lemma JoinsFlat(a: Bytes, b: Bytes, c: Bytes)
    ensures a + b + c == a + (b + c)
  {
  }

  lemma LengthBytes(n: nat)
    requires n < 0x1_0000
    ensures U16Bytes(n % U16_LIMIT) == [n / 256, n % 256]
    ensures U32Bytes(n % U32_LIMIT) == [0, 0, n / 256, n % 256]
  {
    assert n % U16_LIMIT == n && n % U32_LIMIT == n && n / 0x1_0000 == 0 && n % 0x1_0000 == n;
  }

  /** The pseudo-header adds the addresses, the protocol number and the length to the sum. */
  lemma PseudoHeaderSum(src: IpAddr, dst: IpAddr, protocol: byte, l4Len: nat)
    requires src.V4? == dst.V4? && l4Len < 0x1_0000
    ensures WordSum(PseudoHeader(src, dst, protocol, l4Len))
            == WordSum(src.Octets() + dst.Octets()) + protocol as int + l4Len
  {
    hide WordSum, PseudoHeader;
    PseudoHeaderTail(src, dst, protocol, l4Len);
    var addresses := src.Octets() + dst.Octets();
    if src.V4? {
      FourBytes(0, protocol, l4Len / 256, l4Len % 256);
      WordSumSplits(addresses, [0, protocol, l4Len / 256, l4Len % 256]);
    } else {
      FourBytes(0, 0, l4Len / 256, l4Len % 256);
      FourBytes(0, 0, 0, protocol);
      WordSumSplits([0, 0, l4Len / 256, l4Len % 256], [0, 0, 0, protocol]);
      WordSumSplits(addresses, [0, 0, l4Len / 256, l4Len % 256] + [0, 0, 0, protocol]);
    }
  }

  lemma AddressesOf(packet: Bytes, src: IpAddr, dst: IpAddr, protocol: byte, len: nat)
    requires src.V4? == dst.V4? && |packet| >= HeaderLen(src)
    requires HasIpFields(packet[..HeaderLen(src)], src, dst, protocol, len)
    ensures packet[0] / 16 == (if src.V4? then 4 else 6) && packet[if src.V4? then 9 else 6] == protocol
    ensures packet[if src.V4? then 12 else 8..HeaderLen(src)] == src.Octets() + dst.Octets()
  {
    hide Word;
    var ip := packet[..HeaderLen(src)];
    assert packet[0] == ip[0];
    if src.V4? {
      assert packet[9] == ip[9] && packet[12..20] == ip[12..16] + ip[16..20];
    } else {
      assert packet[6] == ip[6] && packet[8..40] == ip[8..24] + ip[24..40];
    }
  }

  /** A checksum over the pseudo-header is the one the receiver computes from the packet. */
  lemma ReceiverReadsPseudoHeader(packet: Bytes, src: IpAddr, dst: IpAddr, protocol: byte, len: nat)
    requires src.V4? == dst.V4? && |packet| >= HeaderLen(src) && protocol != 1
    requires HasIpFields(packet[..HeaderLen(src)], src, dst, protocol, len)
    requires HeaderVerifies(packet[..HeaderLen(src)], src.V4?)
    requires var l4 := packet[HeaderLen(src)..];
             |l4| < 0x1_0000 && Rfc1071(PseudoHeader(src, dst, protocol, |l4|) + l4) == 0
    ensures ReceiverAccepts(packet)
  {
    hide WordSum, Fold, HasIpFields, PseudoHeader;
    var l4 := packet[HeaderLen(src)..];
    AddressesOf(packet, src, dst, protocol, len);
    CoversWords(PseudoHeader(src, dst, protocol, |l4|), l4);
    PseudoHeaderSum(src, dst, protocol, |l4|);
  }

  lemma ReceiverReadsPlainly(packet: Bytes, src: IpAddr, dst: IpAddr, len: nat)
    requires src.V4? && dst.V4? && |packet| >= 20
    requires HasIpFields(packet[..20], src, dst, 1, len) && HeaderVerifies(packet[..20], true)
    requires Rfc1071(packet[20..]) == 0
    ensures ReceiverAccepts(packet)
  {
    hide WordSum, Fold, HasIpFields;
    AddressesOf(packet, src, dst, 1, len);
  }

  /** A reset's checksums are the ones its receiver computes. */
  lemma ResetIsAccepted(packet: Bytes, src: IpAddr, srcPort: u16, dst: IpAddr, dstPort: u16, f: RstFields)
    requires src.V4? == dst.V4? && IsResetPacket(packet, src, srcPort, dst, dstPort, f)
    ensures ReceiverAccepts(packet)
  {
    hide Rfc1071, HasIpFields, PseudoHeader, ReceiverAccepts, HeaderVerifies;
    ReceiverReadsPseudoHeader(packet, src, dst, 6, 20);
  }

  /** And so are an error's. */
  lemma UnreachableIsAccepted(packet: Bytes, src: IpAddr, dst: IpAddr, quote: Bytes)
    requires src.V4? == dst.V4? && IsUnreachablePacket(packet, src, dst, quote)
    requires |quote| < 0xfff0
    ensures ReceiverAccepts(packet)
  {
    hide Rfc1071, HasIpFields, PseudoHeader, ReceiverAccepts, HeaderVerifies;
    if src.V4? {
      assert [] + packet[20..] == packet[20..];
      ReceiverReadsPlainly(packet, src, dst, 8 + |quote|);
    } else {
      ReceiverReadsPseudoHeader(packet, src, dst, 58, 8 + |quote|);
    }
  }

  // ---- Builders ------------------------------------------------------------------------

  lemma ConcatOne(a: Bytes)
    ensures Concat([a]) == a
  {
    assert [a][..0] == [];
  }

  lemma ConcatTwo(a: Bytes, b: Bytes)
    ensures Concat([a, b]) == a + b
  {
    assert [a, b][..1] == [a];
    ConcatOne(a);
  }

  function Zeros(n: nat): (b: Bytes)
    ensures |b| == n && forall i | 0 <= i < n :: b[i] == 0
  {
    seq(n, _ => 0)
  }

  method TcpRstSegment(srcPort: u16, dstPort: u16, f: RstFields) returns (tcp: Bytes)
    ensures IsReset(tcp, srcPort, dstPort, f) && tcp[16] == 0 && tcp[17] == 0
  {
    hide U16Bytes, U32Bytes, Put;
    tcp := Zeros(TCP_HEADER_LEN);
    tcp := Put(tcp, 0, U16Bytes(srcPort));
    tcp := Put(tcp, 2, U16Bytes(dstPort));
    tcp := Put(tcp, 4, U32Bytes(f.seqNo));
    tcp := Put(tcp, 8, U32Bytes(f.ackNo));
    tcp := tcp[12 := 0x50];
    tcp := tcp[13 := if f.ackFlag then 0x14 else 0x04];
  }

  method Ipv4Header(src: Octets4, dst: Octets4, protocol: byte, payloadLen: nat) returns (ip: Bytes)
    ensures HasIpv4Fields(ip, src, dst, protocol, payloadLen) && Rfc1071(ip) == 0
  {
    hide U16Bytes, Put, Rfc1071;
    ip := Zeros(IPV4_HEADER_LEN);
    ip := ip[0 := 0x45];
    ip := Put(ip, 2, U16Bytes((IPV4_HEADER_LEN + payloadLen) % U16_LIMIT));
    ip := Put(ip, 6, U16Bytes(0x4000));
    ip := ip[8 := DEFAULT_TTL];
    ip := ip[9 := protocol];
    ip := Put(ip, 12, src);
    ip := Put(ip, 16, dst);
    assert ip[12..16] == src && ip[16..20] == dst;
    var blank := ip;
    ip := FillChecksum([], blank, 10);
    assert [] + ip == ip;
    HeaderAround(blank, ip, src, dst, protocol, payloadLen);
  }

  lemma HeaderAround(blank: Bytes, ip: Bytes, src: Octets4, dst: Octets4, protocol: byte, payloadLen: nat)
    requires HasIpv4Fields(blank, src, dst, protocol, payloadLen)
    requires |ip| == |blank| && ip[..10] == blank[..10] && ip[12..] == blank[12..]
    ensures HasIpv4Fields(ip, src, dst, protocol, payloadLen)
  {
    assert forall i | 0 <= i < 10 :: ip[i] == ip[..10][i] && blank[i] == blank[..10][i];
    assert ip[12..16] == ip[12..][..4] && blank[12..16] == blank[12..][..4];
    assert ip[16..20] == ip[12..][4..] && blank[16..20] == blank[12..][4..];
  }

  method Ipv6Header(src: Octets16, dst: Octets16, next: byte, payloadLen: nat) returns (ip: Bytes)
    ensures HasIpv6Fields(ip, src, dst, next, payloadLen)
  {
    hide U16Bytes, Put;
    ip := Zeros(IPV6_HEADER_LEN);
    ip := ip[0 := 0x60];
    ip := Put(ip, 4, U16Bytes(payloadLen % U16_LIMIT));
    ip := ip[6 := next];
    ip := ip[7 := DEFAULT_TTL];
    ip := Put(ip, 8, src);
    ip := Put(ip, 24, dst);
    assert ip[8..24] == src && ip[24..40] == dst;
  }

  method IpHeader(src: IpAddr, dst: IpAddr, protocol: byte, payloadLen: nat) returns (ip: Bytes)
    requires src.V4? == dst.V4?
    ensures |ip| == HeaderLen(src) && HasIpFields(ip, src, dst, protocol, payloadLen) && HeaderVerifies(ip, src.V4?)
  {
    hide Rfc1071, Word;
    if src.V4? {
      ip := Ipv4Header(src.v4, dst.v4, protocol, payloadLen);
    } else {
      ip := Ipv6Header(src.v6, dst.v6, protocol, payloadLen);
    }
  }

  /** Writes the checksum of everything, prefix included, into a blank field; everything then verifies. */
  method FillChecksum(prefix: Bytes, b: Bytes, at: nat) returns (r: Bytes)
    requires |prefix| % 2 == 0 && at % 2 == 0 && at + 2 <= |b| && b[at] == 0 && b[at + 1] == 0
    requires |prefix| + |b| <= 2 * 0x1_0001
    ensures |r| == |b| && r[..at] == b[..at] && r[at + 2..] == b[at + 2..]
    ensures Rfc1071(prefix + r) == 0
  {
    hide Rfc1071, U16Bytes, WordSum, Fold, Mod32;
    ConcatTwo(prefix, b);
    var sum := Checksum16([prefix, b]);
    r := Put(b, at, U16Bytes(sum));
    FilledChecksumVerifies(prefix + b, |prefix| + at);
    assert Put(prefix + b, |prefix| + at, U16Bytes(sum)) == prefix + r;
  }

  /** A complete packet resetting the connection, from `src` to `dst`. */
  method BuildTcpRst(src: IpAddr, srcPort: u16, dst: IpAddr, dstPort: u16, f: RstFields) returns (r: Option<Bytes>)
    ensures r.Some? <==> src.V4? == dst.V4?
    ensures r.Some? ==> IsResetPacket(r.value, src, srcPort, dst, dstPort, f) && ReceiverAccepts(r.value)
  {
    hide Rfc1071, PseudoHeader, HasIpFields, ReceiverAccepts;
    var blank := TcpRstSegment(srcPort, dstPort, f);
    if src.V4? != dst.V4? {
      return None;
    }
    var tcp := FillChecksum(PseudoHeader(src, dst, IPPROTO_TCP, |blank|), blank, 16);
    ResetAround(blank, tcp, srcPort, dstPort, f);
    var header := IpHeader(src, dst, IPPROTO_TCP, |tcp|);
    JoinsApart(header, tcp);
    ResetIsAccepted(header + tcp, src, srcPort, dst, dstPort, f);
    r := Some(header + tcp);
  }

  lemma ResetAround(blank: Bytes, tcp: Bytes, srcPort: u16, dstPort: u16, f: RstFields)
    requires IsReset(blank, srcPort, dstPort, f)
    requires |tcp| == |blank| && tcp[..16] == blank[..16] && tcp[18..] == blank[18..]
    ensures IsReset(tcp, srcPort, dstPort, f)
  {
    assert forall i | 0 <= i < 16 :: tcp[i] == tcp[..16][i] && blank[i] == blank[..16][i];
    assert tcp[18] == tcp[18..][0] && tcp[19] == tcp[18..][1];
  }

  lemma JoinsApart(a: Bytes, b: Bytes)
    ensures (a + b)[..|a|] == a && (a + b)[|a|..] == b
  {
  }

  /** A complete packet carrying a port-unreachable error that quotes `original`. */
  method BuildIcmpPortUnreachable(src: IpAddr, dst: IpAddr, original: Bytes) returns (r: Option<Bytes>)
    ensures r.Some? <==> src.V4? == dst.V4? && Quote(src.V4?, original).Some?
    ensures r.Some? ==>
              IsUnreachablePacket(r.value, src, dst, Quote(src.V4?, original).value) && ReceiverAccepts(r.value)
  {
    hide Rfc1071, PseudoHeader, HasIpFields, L4OffsetOf, ReceiverAccepts;
    if src.V4? != dst.V4? {
      return None;
    }
    var quote := original;
    if src.V4? {
      var at := L4Offset(original);
      if at.None? || |original| < at.value + ICMPV4_QUOTE_L4_BYTES {
        return None;
      }
      quote := original[..at.value + ICMPV4_QUOTE_L4_BYTES];
    } else {
      quote := original[..Min(|original|, IPV6_MIN_MTU - IPV6_HEADER_LEN - ICMP_HEADER_LEN)];
    }
    assert quote == Quote(src.V4?, original).value;
    QuoteIsShort(src.V4?, original);
    var blank := IcmpErrorHeader(if src.V4? then 3 else 1, if src.V4? then 3 else 4) + quote;
    var icmp := FillChecksum(IcmpCovered(src, dst, |blank|), blank, 2);
    UnreachableAround(blank, icmp, src.V4?, quote);
    var header := IpHeader(src, dst, IcmpProtocol(src.V4?), |icmp|);
    JoinsApart(header, icmp);
    UnreachableIsAccepted(header + icmp, src, dst, quote);
    r := Some(header + icmp);
  }

  function IcmpErrorHeader(icmpType: byte, code: byte): (b: Bytes)
    ensures |b| == ICMP_HEADER_LEN && b[0] == icmpType && b[1] == code
    ensures forall i | 2 <= i < ICMP_HEADER_LEN :: b[i] == 0
  {
    Zeros(ICMP_HEADER_LEN)[0 := icmpType][1 := code]
  }

  lemma UnreachableAround(blank: Bytes, icmp: Bytes, v4: bool, quote: Bytes)
    requires blank == IcmpErrorHeader(if v4 then 3 else 1, if v4 then 3 else 4) + quote
    requires |icmp| == |blank| && icmp[..2] == blank[..2] && icmp[4..] == blank[4..]
    ensures IsPortUnreachable(icmp, v4, quote)
  {
    assert icmp[0] == icmp[..2][0] && icmp[1] == icmp[..2][1];
    assert forall i | 4 <= i < |icmp| :: icmp[i] == icmp[4..][i - 4] && blank[i] == blank[4..][i - 4];
    assert icmp[ICMP_HEADER_LEN..] == quote;
  }

  lemma {:induction false} L4WalkIsShort(buf: Bytes, next: byte, offset: nat, fuel: nat)
    requires L4Walk(buf, next, offset, fuel).Some?
    ensures L4Walk(buf, next, offset, fuel).value <= offset + 2048 * (fuel - 1)
    decreases fuel
  {
    if IsExtension(next) {
      var len := ExtLength(next, if |buf| <= offset + 1 then 0 else buf[offset + 1]);
      L4WalkIsShort(buf, buf[offset], offset + len, fuel - 1);
    }
  }

  /** A quotation always fits the length fields of the packet that carries it. */
  lemma QuoteIsShort(v4: bool, original: Bytes)
    requires Quote(v4, original).Some?
    ensures |Quote(v4, original).value| <= if v4 then 0x4038 else 1232
  {
    if v4 && original[0] / 16 == 6 {
      L4WalkIsShort(original, original[6], IPV6_HEADER_LEN, MAX_EXT_HEADERS + 1);
    }
  }

  // ---- What the receiver sees -------------------------------------------------------------

  /** A packet behind a well-formed IP header parses as that header's protocol and addresses. */
  lemma HeaderParses(packet: Bytes, src: IpAddr, dst: IpAddr, protocol: byte, payloadLen: nat,
                     direction: Direction, r: Parsed)
    requires src.V4? == dst.V4? && !IsExtension(protocol) && |packet| >= HeaderLen(src)
    requires HasIpFields(packet[..HeaderLen(src)], src, dst, protocol, payloadLen)
    requires ParsesTo(packet, direction, r)
    ensures r == Finalize(src, dst, protocol, packet[HeaderLen(src)..], direction)
  {
    hide Rfc1071, Finalize, Walk;
    var ip := packet[..HeaderLen(src)];
    assert packet[0] == ip[0];
    if src.V4? {
      assert packet[9] == ip[9] && packet[12..16] == ip[12..16] && packet[16..20] == ip[16..20];
    } else {
      assert packet[6] == ip[6] && packet[8..24] == ip[8..24] && packet[24..40] == ip[24..40];
      WalkEnds(packet, protocol, IPV6_HEADER_LEN, MAX_EXT_HEADERS + 1);
    }
  }

  lemma ResetGetsNoReset(tcp: Bytes, srcPort: u16, dstPort: u16, f: RstFields)
    requires IsReset(tcp, srcPort, dstPort, f)
    ensures RstFieldsOf(tcp) == None
  {
    hide U32At, SegmentLength, Rfc1071;
  }

  /**
   * Round trip of a forged reset: it parses as TCP between exactly the given endpoints, and it is
   * itself a segment no reset may answer, so two such daemons never exchange resets.
   */
  lemma ResetRoundTrips(packet: Bytes, src: IpAddr, srcPort: u16, dst: IpAddr, dstPort: u16, f: RstFields,
                        direction: Direction, r: Parsed)
    requires src.V4? == dst.V4? && HasResetLayout(packet, src, srcPort, dst, dstPort, f)
    requires ParsesTo(packet, direction, r)
    ensures r == Flow(Connection(Tcp, direction, src, srcPort, dst, dstPort))
    ensures RstFieldsOf(packet[HeaderLen(src)..]) == None
  {
    hide Rfc1071, HasIpFields, ParsesTo, PseudoHeader, RstFieldsOf, U32At;
    HeaderParses(packet, src, dst, IPPROTO_TCP, TCP_HEADER_LEN, direction, r);
    ResetGetsNoReset(packet[HeaderLen(src)..], srcPort, dstPort, f);
  }

  /**
   * Round trip of a forged port-unreachable error: it parses as ICMP between exactly the given
   * addresses, its length field is right, what it quotes is a prefix of the offending datagram,
   * in IPv4 through eight bytes of its upper layer, and an IPv6 error never exceeds the minimum MTU.
   */
  lemma UnreachableRoundTrips(packet: Bytes, src: IpAddr, dst: IpAddr, original: Bytes, direction: Direction, r: Parsed)
    requires src.V4? == dst.V4? && Quote(src.V4?, original).Some?
    requires HasUnreachableLayout(packet, src, dst, Quote(src.V4?, original).value)
    requires ParsesTo(packet, direction, r)
    ensures r == Flow(Connection(Icmp, direction, src, 0, dst, 0))
    ensures var payload := packet[HeaderLen(src)..];
            && payload[ICMP_HEADER_LEN..] <= original
            && (src.V4? ==> |payload| == ICMP_HEADER_LEN + L4OffsetOf(original).value + ICMPV4_QUOTE_L4_BYTES)
            && (src.V4? ==> Word(packet[2], packet[3]) == |packet|)
            && (src.V6? ==> Word(packet[4], packet[5]) == |payload| && |packet| <= IPV6_MIN_MTU)
  {
    hide Rfc1071, ParsesTo, PseudoHeader, L4OffsetOf;
    var length := ICMP_HEADER_LEN + |Quote(src.V4?, original).value|;
    HeaderParses(packet, src, dst, IcmpProtocol(src.V4?), length, direction, r);
    QuoteIsShort(src.V4?, original);
    var ip := packet[..HeaderLen(src)];
    if src.V4? {
      assert packet[2] == ip[2] && packet[3] == ip[3];
    } else {
      assert packet[4] == ip[4] && packet[5] == ip[5];
    }
  }

  /**
   * Whom an error is about: the quotation of a refused TCP or UDP flow parses back to that very
   * flow, in IPv4 always, in IPv6 exactly when its ports lie within the 1232 bytes quoted.
   */
  lemma QuotationNamesTheFlow(original: Bytes, direction: Direction, r: Parsed, p: Parsed)
    requires ParsesTo(original, direction, r) && r.Flow? && (r.conn.protocol.Tcp? || r.conn.protocol.Udp?)
    requires Quote(r.conn.srcIp.V4?, original).Some?
    requires ParsesTo(Quote(r.conn.srcIp.V4?, original).value, direction, p)
    ensures r.conn.srcIp.V4? ==> p == r
    ensures r.conn.srcIp.V6? ==> L4OffsetOf(original).Some? && (p == r <==> L4OffsetOf(original).value + 4 <= 1232)
  {
    hide L4OffsetOf, Walk, Word;
    RefusalPathFindsThePorts(original, direction, r);
    FamilyIsVersion(original, direction, r);
    var quote := Quote(r.conn.srcIp.V4?, original).value;
    QuotedPrefix(r.conn.srcIp.V4?, original);
    PrefixParses(original, |quote|, direction, r, p);
  }

  lemma FamilyIsVersion(original: Bytes, direction: Direction, r: Parsed)
    requires ParsesTo(original, direction, r) && r.Flow?
    ensures original != [] && r.conn.srcIp.V4? == (original[0] / 16 == 4) && |original| >= HeaderLen(r.conn.srcIp)
  {
    hide Walk, Word;
  }

  lemma QuotedPrefix(v4: bool, original: Bytes)
    requires Quote(v4, original).Some?
    ensures var quote := Quote(v4, original).value;
            && |quote| <= |original| && quote == original[..|quote|]
            && (v4 ==> L4OffsetOf(original).Some? && |quote| == L4OffsetOf(original).value + 8)
            && (!v4 ==> |quote| == Min(|original|, 1232))
  {
    hide L4OffsetOf;
  }
}
