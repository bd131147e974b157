/** Values shared by every component: addresses, flows, processes and rules. */
module CoreTypes {

  datatype Option<+T> = None | Some(value: T)

  const U16_LIMIT: int := 0x1_0000
  const U32_LIMIT: int := 0x1_0000_0000
  const U64_LIMIT: int := 0x1_0000_0000_0000_0000
  const U64_MAX: int := U64_LIMIT - 1

  type byte = b: int | 0 <= b < 256
  type u16 = n: int | 0 <= n < U16_LIMIT
  type u32 = n: int | 0 <= n < U32_LIMIT
  type u64 = n: int | 0 <= n < U64_LIMIT

  type Octets4 = s: seq<byte> | |s| == 4 witness [0, 0, 0, 0]
  type Octets16 = s: seq<byte> | |s| == 16 witness seq(16, _ => 0)

  datatype IpAddr = V4(v4: Octets4) | V6(v6: Octets16) {
    function Octets(): seq<byte> {
      match this case V4(o) => o case V6(o) => o
    }

    /** Address width in bits. */
    function Width(): nat {
      if V4? then 32 else 128
    }
  }

  /** The number a big-endian octet string denotes. */
  function Big(octets: seq<byte>): nat {
    if octets == [] then 0 else Big(octets[..|octets| - 1]) * 256 + octets[|octets| - 1]
  }

  function Pow2(n: nat): (p: nat)
    ensures p > 0
  {
    if n == 0 then 1 else 2 * Pow2(n - 1)
  }

  /** A network in CIDR form; the host bits of `addr` are ignored. */
  datatype IpNetwork = IpNetwork(addr: IpAddr, prefix: nat)
  type IpNet = n: IpNetwork | n.prefix <= n.addr.Width() witness IpNetwork(V4([0, 0, 0, 0]), 0)

  predicate NetContains(net: IpNet, ip: IpAddr) {
    && net.addr.V4? == ip.V4?
    && var block := Pow2(net.addr.Width() - net.prefix);
       Big(net.addr.Octets()) / block == Big(ip.Octets()) / block
  }

  datatype Direction = Outbound | Inbound
  datatype Protocol = Tcp | Udp | Icmp | Other(number: byte)

  /** The 5-tuple and hook direction of one intercepted packet. */
  datatype Connection = Connection(
    protocol: Protocol,
    direction: Direction,
    srcIp: IpAddr,
    srcPort: u16,
    dstIp: IpAddr,
    dstPort: u16)

  /** Stands in `Process.exe` for "could not be identified"; it is not a path. */
  const UNKNOWN_EXE: string := "<unknown>"

  /** The identity half of a process: what rules can be scoped on. */
  datatype Process = Process(exe: string, uid: Option<u32>, sha256: Option<string>) {
    predicate ExeIsKnown() {
      exe != UNKNOWN_EXE
    }
  }

  datatype Action = Allow | Deny | Reject
  datatype Duration = Once | UntilRestart | Always | Seconds(secs: u32)

  datatype RuleScope = RuleScope(
    direction: Option<Direction>,
    exePath: Option<string>,
    exeSha256: Option<string>,
    parentExe: Option<string>,
    uid: Option<u32>,
    dstHost: Option<string>,
    dstNet: Option<IpNet>,
    dstPort: Option<u16>,
    srcNet: Option<IpNet>,
    srcPort: Option<u16>,
    protocol: Option<Protocol>)

  type RuleId = nat

  /** `createdAt` counts nanoseconds, so its millisecond timestamp is a floor. */
  datatype Rule = Rule(
    id: RuleId,
    name: string,
    enabled: bool,
    action: Action,
    duration: Duration,
    scope: RuleScope,
    createdAt: int,
    hitCount: u64)

  const NANOS_PER_MILLI: int := 1_000_000

  predicate IsExpired(rule: Rule, now: int) {
    rule.duration.Seconds? && rule.createdAt / NANOS_PER_MILLI + rule.duration.secs * 1000 <= now
  }

  /** The rules a walk considers at all. */
  predicate Live(rule: Rule, now: int) {
    rule.enabled && !IsExpired(rule, now)
  }

  /** An Allow that names no program; a program refusal overrides it at any rank. */
  predicate IsGenericAllow(rule: Rule) {
    rule.action == Allow && !NamesProgram(rule.scope)
  }

  predicate IsProgramRefusal(rule: Rule) {
    rule.action != Allow && NamesProgram(rule.scope)
  }

  predicate NamesProgram(scope: RuleScope) {
    scope.exePath.Some? || scope.exeSha256.Some?
  }

  /** Allow against Deny-or-Reject: the only distinction agreement is about. */
  predicate Refuses(rule: Rule) {
    rule.action != Allow
  }

  datatype VerdictSource = FromRule(id: RuleId) | UserPrompt | DefaultPolicy | Timeout
  datatype Verdict = Verdict(action: Action, source: VerdictSource)

  /** The policy actions a configuration reload can swap. */
  datatype Policy = Policy(noUiAction: Action, timeoutAction: Action, inboundAction: Action)

  function SaturatingAdd(a: u64, b: nat): (r: u64)
    ensures r == a + b || (a + b > 0xffff_ffff_ffff_ffff && r == 0xffff_ffff_ffff_ffff)
  {
    if a + b > U64_MAX then U64_MAX else a + b
  }
}
