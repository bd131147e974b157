/** The Internet checksum of RFC 1071, computed over slices and specified on their concatenation. */
module Checksums {
  import opened CoreTypes

  type Bytes = seq<byte>

  function Word(high: byte, low: byte): u16 {
    high * 256 + low
  }

  /** The big-endian octets of a 16-bit number. */
  function U16Bytes(n: u16): (b: Bytes)
    ensures |b| == 2 && Word(b[0], b[1]) == n
  {
    [n / 256, n % 256]
  }

  /** Sum of the 16-bit words of a byte string, an odd last byte padded with zero. */
  function WordSum(b: Bytes): nat {
    if |b| == 0 then 0
    else if |b| == 1 then Word(b[0], 0)
    else Word(b[0], b[1]) + WordSum(b[2..])
  }

  /** End-around carries until the sum fits 16 bits. */
  function Fold(sum: nat): u16
    decreases sum
  {
    if sum < 0x1_0000 then sum else Fold(sum % 0x1_0000 + sum / 0x1_0000)
  }

  /** The one's complement of the one's-complement sum of all words. */
  function Rfc1071(b: Bytes): u16 {
    0xffff - Fold(WordSum(b))
  }

  function Concat(parts: seq<Bytes>): Bytes {
    if parts == [] then [] else Concat(parts[..|parts| - 1]) + parts[|parts| - 1]
  }

  // ---- Arithmetic -----------------------------------------------------------------

  /** Folding keeps the residue modulo 65535, and only zero folds to zero. */
  lemma {:induction false} FoldIsResidue(sum: nat)
    ensures Fold(sum) == if sum == 0 then 0 else (sum - 1) % 0xffff + 1
    decreases sum
  {
    if sum < 0x1_0000 {
    } else {
      var q, r := sum / 0x1_0000, sum % 0x1_0000;
      FoldIsResidue(r + q);
      assert sum - 1 == (r + q - 1) + 0xffff * q;
      ResidueShift(r + q - 1, q);
    }
  }

  lemma ResidueShift(x: int, k: int)
    ensures (x + 0xffff * k) % 0xffff == x % 0xffff
  {
    var q := x / 0xffff;
    assert x + 0xffff * k == 0xffff * (q + k) + x % 0xffff;
  }

  /** What a 32-bit accumulator keeps of a sum. */
  function Mod32(n: int): u32 {
    n % U32_LIMIT
  }

  lemma Mod32Adds(a: int, b: int)
    ensures Mod32(Mod32(a) + b) == Mod32(a + b)
  {
    var q := a / U32_LIMIT;
    var x := a % U32_LIMIT + b;
    var k := x / U32_LIMIT;
    assert a + b == U32_LIMIT * (q + k) + x % U32_LIMIT;
  }

  lemma Mod32KeepsSmall(n: int)
    requires 0 <= n < U32_LIMIT
    ensures Mod32(n) == n
  {
  }

  /** Even-length pieces add up. */
  lemma {:induction false} WordSumSplits(a: Bytes, b: Bytes)
    requires |a| % 2 == 0
    ensures WordSum(a + b) == WordSum(a) + WordSum(b)
  {
    if a == [] {
      assert a + b == b;
    } else {
      assert (a + b)[2..] == a[2..] + b;
      WordSumSplits(a[2..], b);
    }
  }

  lemma {:induction false} WordSumBound(b: Bytes)
    ensures WordSum(b) <= 0xffff * ((|b| + 1) / 2)
    ensures WordSum(b) == 0 <==> forall i | 0 <= i < |b| :: b[i] == 0
  {
    if |b| < 2 {
    } else {
      WordSumBound(b[2..]);
      assert forall i | 2 <= i < |b| :: b[i] == b[2..][i - 2];
      assert WordSum(b[2..]) == 0 ==> forall i | 2 <= i < |b| :: b[i] == 0;
    }
  }

  lemma SumFits(b: Bytes)
    requires |b| <= 2 * 0x1_0001
    ensures Mod32(WordSum(b)) == WordSum(b)
  {
    hide WordSum, Mod32;
    WordSumBound(b);
    Mod32KeepsSmall(WordSum(b));
  }

  // ---- The routine -------------------------------------------------------------------

  /** What the accumulator and the carried byte hold once `done` has been read. */
  ghost predicate Absorbed(done: Bytes, sum: u32, pending: Option<byte>) {
    match pending
    case None => |done| % 2 == 0 && sum == Mod32(WordSum(done))
    case Some(high) => |done| % 2 == 1 && done[|done| - 1] == high && sum == Mod32(WordSum(done[..|done| - 1]))
  }

  lemma WordSumOfOne(high: byte, low: byte)
    ensures WordSum([high, low]) == Word(high, low) && WordSum([high]) == Word(high, 0)
  {
    assert WordSum([high, low]) == Word(high, low) + WordSum([high, low][2..]);
  }

  /** The sum is of big-endian 16-bit words, an odd last byte being the high half of its word. */
  lemma SumsBigEndianWords(high: byte, low: byte, rest: Bytes)
    ensures WordSum([]) == 0 && WordSum([high]) == high as int * 256
    ensures WordSum([high, low] + rest) == high as int * 256 + low + WordSum(rest)
  {
    assert ([high, low] + rest)[2..] == rest;
  }

  lemma AbsorbWord(done: Bytes, high: byte, low: byte, sum: u32)
    requires |done| % 2 == 0 && sum == Mod32(WordSum(done))
    ensures Mod32(sum + Word(high, low)) == Mod32(WordSum(done + [high, low]))
  {
    hide WordSum, Mod32, Word;
    WordSumSplits(done, [high, low]);
    WordSumOfOne(high, low);
    Mod32Adds(WordSum(done), Word(high, low));
  }

  lemma AbsorbLast(done: Bytes, high: byte, sum: u32)
    requires Absorbed(done, sum, Some(high))
    ensures Mod32(sum + Word(high, 0)) == Mod32(WordSum(done))
  {
    hide WordSum, Mod32, Word;
    var front := done[..|done| - 1];
    assert front + [high] == done;
    WordSumSplits(front, [high]);
    WordSumOfOne(high, 0);
    Mod32Adds(WordSum(front), Word(high, 0));
  }

  /** Joins a carried byte with the first byte of the next slice. */
  lemma AbsorbJoined(done: Bytes, low: byte, sum: u32, high: byte)
    requires Absorbed(done, sum, Some(high))
    ensures Absorbed(done + [low], Mod32(sum + Word(high, low)), None)
  {
    hide WordSum, Mod32, Word;
    AbsorbWord(done[..|done| - 1], high, low, sum);
    assert done + [low] == done[..|done| - 1] + [high, low];
  }

  /** Reads one slice into the accumulator, two bytes at a time. */
  method AbsorbPart(part: Bytes, sum0: u32, pending0: Option<byte>, ghost done: Bytes)
    returns (sum: u32, pending: Option<byte>)
    requires Absorbed(done, sum0, pending0)
    ensures Absorbed(done + part, sum, pending)
  {
    hide WordSum, Mod32, Word;
    sum, pending := sum0, pending0;
    var bytes := part;
    ghost var seen := done;
    if pending.Some? {
      if |part| == 0 {
        assert done + part == done;
        return;
      }
      AbsorbJoined(done, part[0], sum, pending.value);
      sum := Mod32(sum + Word(pending.value, part[0]));
      pending := None;
      bytes := part[1..];
      seen := done + [part[0]];
    }
    while |bytes| >= 2
      invariant pending.None? && Absorbed(seen, sum, None)
      invariant seen + bytes == done + part
    {
      AbsorbWord(seen, bytes[0], bytes[1], sum);
      sum := Mod32(sum + Word(bytes[0], bytes[1]));
      seen := seen + [bytes[0], bytes[1]];
      bytes := bytes[2..];
    }
    if |bytes| == 1 {
      pending := Some(bytes[0]);
      assert (seen + bytes)[..|seen|] == seen;
    } else {
      assert seen + bytes == seen;
    }
  }

  /**
   * The checksum of the concatenation of `parts`, however it is split. The accumulator is 32 bits
   * wide, so the sum is taken modulo 2^32.
   */
  method Checksum16(parts: seq<Bytes>) returns (c: u16)
    ensures c == 0xffff - Fold(Mod32(WordSum(Concat(parts))))
    ensures |Concat(parts)| <= 2 * 0x1_0001 ==> c == Rfc1071(Concat(parts))
  {
    hide Mod32, Word;
    var sum: u32 := 0;
    var pending: Option<byte> := None;
    Mod32KeepsSmall(0);
    var i := 0;
    while i < |parts|
      invariant 0 <= i <= |parts|
      invariant Absorbed(Concat(parts[..i]), sum, pending)
    {
      assert parts[..i + 1][..i] == parts[..i];
      sum, pending := AbsorbPart(parts[i], sum, pending, Concat(parts[..i]));
      i := i + 1;
    }
    assert parts[..i] == parts;
    ghost var all := Concat(parts);
    if |all| <= 2 * 0x1_0001 {
      SumFits(all);
    }
    if pending.Some? {
      AbsorbLast(all, pending.value, sum);
      sum := Mod32(sum + Word(pending.value, 0));
    }
    ghost var total := sum;
    while sum / 0x1_0000 != 0
      invariant Fold(sum) == Fold(total)
      decreases sum
    {
      sum := sum % 0x1_0000 + sum / 0x1_0000;
    }
    c := 0xffff - sum;
  }

  // ---- What a checksum is for -----------------------------------------------------------

  /** `b` with `src` copied over it from `at` on. */
  function Put(b: Bytes, at: nat, src: Bytes): (r: Bytes)
    requires at + |src| <= |b|
    ensures |r| == |b|
    ensures forall i | 0 <= i < |b| :: r[i] == if at <= i < at + |src| then src[i - at] else b[i]
  {
    b[..at] + src + b[at + |src|..]
  }

  /** `b` with a 16-bit field at `at` overwritten. */
  function WithField(b: Bytes, at: nat, n: u16): Bytes
    requires at + 2 <= |b|
  {
    Put(b, at, U16Bytes(n))
  }

  /**
   * Writing the checksum into its own zeroed, even-aligned field makes the whole sum to zero,
   * which is how a receiver verifies it.
   */
  lemma FilledChecksumVerifies(b: Bytes, at: nat)
    requires at % 2 == 0 && at + 2 <= |b| && b[at] == 0 && b[at + 1] == 0
    ensures Rfc1071(WithField(b, at, Rfc1071(b))) == 0
  {
    FieldAddsToSum(b, at, Rfc1071(b));
    ComplementFills(WordSum(b));
  }

  lemma FieldAddsToSum(b: Bytes, at: nat, n: int)
    requires at % 2 == 0 && at + 2 <= |b| && b[at] == 0 && b[at + 1] == 0 && 0 <= n < U16_LIMIT
    ensures WordSum(WithField(b, at, n)) == WordSum(b) + n
  {
    var front, back := b[..at], b[at + 2..];
    assert b == front + ([0, 0] + back);
    assert WithField(b, at, n) == front + (U16Bytes(n) + back);
    WordSumSplits(front, [0, 0] + back);
    WordSumSplits(front, U16Bytes(n) + back);
    assert ([0, 0] + back)[2..] == back && (U16Bytes(n) + back)[2..] == back;
  }

  lemma ComplementFills(s: nat)
    ensures Fold(s + (0xffff - Fold(s))) == 0xffff
  {
    FoldIsResidue(s);
    FoldIsResidue(s + (0xffff - Fold(s)));
    if s > 0 {
      var q := (s - 1) / 0xffff;
      assert s + (0xffff - Fold(s)) - 1 == 0xfffe + 0xffff * q;
      ResidueShift(0xfffe, q);
    }
  }

  /** The sum is all ones before complement, or the checksum all ones, only for all-zero input. */
  lemma OnlyZerosSumToZero(b: Bytes)
    ensures Rfc1071(b) == 0xffff <==> forall i | 0 <= i < |b| :: b[i] == 0
  {
    WordSumBound(b);
    FoldIsResidue(WordSum(b));
  }

  // ---- The accumulator's bound -----------------------------------------------------------

  /**
   * Past 2^32 the accumulator drops carries. The checksum is then wrong, except where the carries
   * dropped are a multiple of 65535 and something is left; no sum below 65535 * 2^32 gets there.
   */
  lemma OverflowGivesAWrongChecksum(sum: nat)
    ensures Fold(Mod32(sum)) == Fold(sum)
            <==> sum < U32_LIMIT || (sum / U32_LIMIT % 0xffff == 0 && sum % U32_LIMIT != 0)
    ensures sum < 0xffff * U32_LIMIT ==> (Fold(Mod32(sum)) == Fold(sum) <==> sum < U32_LIMIT)
  {
    hide Fold;
    FoldIsResidue(sum);
    FoldIsResidue(sum % U32_LIMIT);
    var q, r := sum / U32_LIMIT, sum % U32_LIMIT;
    if sum >= U32_LIMIT {
      assert sum - 1 == (r - 1 + q) + 0xffff * (0x1_0001 * q);
      ResidueShift(r - 1 + q, 0x1_0001 * q);
      if r > 0 {
        SameResidue(r - 1, q);
      }
    }
  }

  /** The first overflow that goes unnoticed. */
  lemma OverflowCanGoUnnoticed()
    ensures var sum := 0xffff * U32_LIMIT + 1; Mod32(sum) != sum && Fold(Mod32(sum)) == Fold(sum)
  {
    OverflowGivesAWrongChecksum(0xffff * U32_LIMIT + 1);
  }

  lemma SameResidue(x: nat, q: nat)
    ensures (x + q) % 0xffff == x % 0xffff <==> q % 0xffff == 0
  {
    var t := q % 0xffff;
    assert x + q == (x + t) + 0xffff * (q / 0xffff);
    ResidueShift(x + t, q / 0xffff);
    var d := x % 0xffff;
    assert x + t == (d + t) + 0xffff * (x / 0xffff);
    ResidueShift(d + t, x / 0xffff);
  }

  function Ones(n: nat): Bytes {
    seq(n, _ => 0xff)
  }

  lemma {:induction false} OnesSum(words: nat)
    ensures WordSum(Ones(2 * words)) == 0xffff * words
  {
    if words == 0 {
    } else {
      assert Ones(2 * words)[2..] == Ones(2 * (words - 1));
      OnesSum(words - 1);
    }
  }

  /** The bound of 65537 words is tight: one word more of all ones overflows. */
  lemma WordBoundIsTight()
    ensures WordSum(Ones(2 * 0x1_0001)) == U32_LIMIT - 1
    ensures var b := Ones(2 * 0x1_0002); Fold(Mod32(WordSum(b))) != Fold(WordSum(b))
  {
    OnesSum(0x1_0001);
    OnesSum(0x1_0002);
    OverflowGivesAWrongChecksum(WordSum(Ones(2 * 0x1_0002)));
  }
}
