/** What it means for an address to lie in a network, bit by bit. */
module Networks {
  import opened CoreTypes

  /** The divisor that brings a bit of an octet, counted from the left, to the units place. */
  function BitValue(i: nat): (d: nat)
    requires i < 8
    ensures d > 0
  {
    [128, 64, 32, 16, 8, 4, 2, 1][i]
  }

  /** Bit `i` of an octet string, counted from the left. */
  function BitAt(octets: seq<byte>, i: nat): bool
    requires i < 8 * |octets|
  {
    octets[i / 8] as int / BitValue(i % 8) % 2 == 1
  }

  ghost predicate SameBits(a: seq<byte>, b: seq<byte>, n: nat)
    requires |a| == |b| && n <= 8 * |a|
  {
    forall i | 0 <= i < n :: BitAt(a, i) == BitAt(b, i)
  }

  lemma {:induction false} Pow2Adds(a: nat, b: nat)
    ensures Pow2(a + b) == Pow2(a) * Pow2(b)
  {
    if a == 0 {
    } else {
      Pow2Adds(a - 1, b);
    }
  }

  lemma AtLeastOnce(d: nat, k: int)
    requires k >= 1
    ensures d * k >= d
  {
  }

  lemma Distribute(d: int, x: int, y: int)
    ensures d * (x + y) == d * x + d * y && d * (x - y) == d * x - d * y
  {
  }

  lemma Regroup(a: int, b: int, c: int)
    ensures a * (b * c) == (a * b) * c
  {
  }

  lemma QuotientIs(x: nat, d: nat, q: nat, r: nat)
    requires d > 0 && x == d * q + r && r < d
    ensures x / d == q
  {
    var s := x / d;
    Distribute(d, s, q);
    Distribute(d, q, s);
    if s < q {
      AtLeastOnce(d, q - s);
    } else if s > q {
      AtLeastOnce(d, s - q);
    }
  }

  lemma TwoRemainders(a: nat, b: nat, u: nat, v: nat, r: nat)
    requires v < b && r < a
    ensures a * (b * u + v) + r == (a * b) * u + (a * v + r) && a * v + r < a * b
  {
    Distribute(a, b * u, v);
    Regroup(a, b, u);
    Distribute(a, b, v);
    AtLeastOnce(a, b - v);
  }

  lemma DivDivIs(x: nat, a: nat, b: nat, q: nat, r: nat, u: nat, v: nat)
    requires x == a * q + r && r < a && q == b * u + v && v < b && a * b > 0
    ensures x / (a * b) == u
  {
    TwoRemainders(a, b, u, v, r);
    QuotientIs(x, a * b, u, a * v + r);
  }

  lemma DivMod(x: nat, d: nat) returns (q: nat, r: nat)
    requires d > 0
    ensures q == x / d && x == d * q + r && r < d
  {
    q, r := x / d, x % d;
  }

  lemma DivDiv(x: nat, a: nat, b: nat)
    requires a > 0 && b > 0 && a * b > 0
    ensures x / (a * b) == x / a / b
  {
    var q, r := DivMod(x, a);
    var u, v := DivMod(q, b);
    DivDivIs(x, a, b, q, r, u, v);
  }

  lemma SplitDiv(h: nat, l: nat, d: nat, e: nat)
    requires d > 0
    ensures (h * (d * e) + l) / d == h * e + l / d
  {
    Regroup(h, d, e);
    Regroup(d, h, e);
    assert h * d == d * h;
    Distribute(d, h * e, l / d);
    QuotientIs(h * (d * e) + l, d, h * e + l / d, l % d);
  }

  lemma {:induction false} BigFits(octets: seq<byte>)
    ensures Big(octets) < Pow2(8 * |octets|)
  {
    if octets == [] {
    } else {
      var front := octets[..|octets| - 1];
      BigFits(front);
      Pow2Adds(8 * |front|, 8);
      assert Pow2(8) == 256 by {
        EightBits();
      }
    }
  }

  lemma EightBits()
    ensures Pow2(8) == 256 && Pow2(7) == 128 && Pow2(6) == 64 && Pow2(5) == 32
    ensures Pow2(4) == 16 && Pow2(3) == 8 && Pow2(2) == 4 && Pow2(1) == 2 && Pow2(0) == 1
  {
    assert Pow2(1) == 2 * Pow2(0);
    assert Pow2(2) == 2 * Pow2(1);
    assert Pow2(3) == 2 * Pow2(2);
    assert Pow2(4) == 2 * Pow2(3);
    assert Pow2(5) == 2 * Pow2(4);
    assert Pow2(6) == 2 * Pow2(5);
    assert Pow2(7) == 2 * Pow2(6);
    assert Pow2(8) == 2 * Pow2(7);
  }

  lemma LastOctetBit(high: nat, low: byte, i: nat)
    requires i < 8
    ensures (high * 256 + low) / Pow2(7 - i) % 2 == low as int / BitValue(i) % 2
  {
    hide Pow2;
    EightBits();
    var d, e := Pow2(7 - i), Pow2(i);
    assert d == BitValue(i);
    assert d * (2 * e) == 256;
    SplitDiv(high, low, d, 2 * e);
    Regroup(2, high, e);
    assert high * (2 * e) == 2 * (high * e);
  }

  /** A bit of the number an octet string denotes is that bit of its octets. */
  lemma {:induction false} BitOfBig(octets: seq<byte>, i: nat)
    requires i < 8 * |octets|
    ensures Big(octets) / Pow2(8 * |octets| - 1 - i) % 2 == if BitAt(octets, i) then 1 else 0
  {
    var front, low := octets[..|octets| - 1], octets[|octets| - 1];
    if i >= 8 * |front| {
      LastOctetBit(Big(front), low, i - 8 * |front|);
      assert i / 8 == |front| && i % 8 == i - 8 * |front|;
    } else {
      BitOfBig(front, i);
      assert BitAt(front, i) == BitAt(octets, i);
      var k := 8 * |front| - 1 - i;
      EightBits();
      Pow2Adds(8, k);
      AtLeastOnce(256, Pow2(k));
      DivDiv(Big(octets), 256, Pow2(k));
      assert Big(octets) / 256 == Big(front);
    }
  }

  /** One bit more of a prefix. */
  lemma OneBitMore(octets: seq<byte>, n: nat)
    requires n < 8 * |octets|
    ensures var w := 8 * |octets|;
            Big(octets) / Pow2(w - n - 1) == 2 * (Big(octets) / Pow2(w - n)) + if BitAt(octets, n) then 1 else 0
  {
    var k := 8 * |octets| - n - 1;
    BitOfBig(octets, n);
    assert Pow2(k + 1) == Pow2(k) * 2;
    AtLeastOnce(Pow2(k), 2);
    DivDiv(Big(octets), Pow2(k), 2);
  }

  lemma {:induction false} PrefixIsItsBits(a: seq<byte>, b: seq<byte>, n: nat)
    requires |a| == |b| && n <= 8 * |a|
    ensures Big(a) / Pow2(8 * |a| - n) == Big(b) / Pow2(8 * |a| - n) <==> SameBits(a, b, n)
  {
    if n == 0 {
      BigFits(a);
      BigFits(b);
      QuotientIs(Big(a), Pow2(8 * |a|), 0, Big(a));
      QuotientIs(Big(b), Pow2(8 * |a|), 0, Big(b));
    } else {
      PrefixIsItsBits(a, b, n - 1);
      OneBitMore(a, n - 1);
      OneBitMore(b, n - 1);
      assert SameBits(a, b, n) <==> SameBits(a, b, n - 1) && BitAt(a, n - 1) == BitAt(b, n - 1);
    }
  }

  /** A network holds exactly the addresses of its family that share its first `prefix` bits, one by one. */
  lemma NetContainsBits(net: IpNet, ip: IpAddr)
    ensures NetContains(net, ip) <==>
              && net.addr.V4? == ip.V4?
              && SameBits(net.addr.Octets(), ip.Octets(), net.prefix)
  {
    if net.addr.V4? == ip.V4? {
      PrefixIsItsBits(net.addr.Octets(), ip.Octets(), net.prefix);
    }
  }
}
