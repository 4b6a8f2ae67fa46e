/** IPv6 subnets of the source-address pool (`simple-ipv6-proxy/src/subnet.rs`): cutting an
    address down to its prefix and filling the rest with random bits, octet by octet,
    against arithmetic on the whole 128-bit number. */
module Subnet {
  import opened Turns

  type Octet = n: nat | n < 256

  function Pow2(n: nat): (p: nat)
    ensures p > 0
  {
    if n == 0 then 1 else 2 * Pow2(n - 1)
  }

  function Remainder(a: nat, m: nat): (r: nat)
    requires m > 0
    ensures r <= a && r < m
  {
    a % m
  }

  /** The low `h` bits of a number. */
  function Low(a: nat, h: nat): (r: nat)
    ensures r <= a && r < Pow2(h)
  {
    Remainder(a, Pow2(h))
  }

  // ---- Bitwise operations, bit by bit ----

  function BitAnd(a: nat, b: nat): nat {
    if a == 0 || b == 0 then 0
    else 2 * BitAnd(a / 2, b / 2) + if a % 2 == 1 && b % 2 == 1 then 1 else 0
  }

  function BitOr(a: nat, b: nat): nat
    decreases a + b
  {
    if a == 0 && b == 0 then 0
    else 2 * BitOr(a / 2, b / 2) + if a % 2 == 1 || b % 2 == 1 then 1 else 0
  }

  /** The complement within eight bits. */
  function BitNot(a: Octet): Octet { 255 - a }

  // ---- Addresses as numbers ----

  /** The number the octets write, most significant first. */
  function Value(s: seq<Octet>): nat {
    if s == [] then 0 else 256 * Value(s[..|s| - 1]) + s[|s| - 1]
  }

  /** How many of the low bits of octet `i` lie beyond a prefix of `plen` bits. */
  function HostBits(i: nat, plen: nat): (h: nat)
    ensures h <= 8
  {
    if 8 * (i + 1) <= plen then 0 else if 8 * i >= plen then 8 else 8 * (i + 1) - plen
  }

  function Masked(s: seq<Octet>, plen: nat): (r: seq<Octet>)
    ensures |r| == |s|
  {
    if s == [] then []
    else
      var last := |s| - 1;
      Masked(s[..last], plen) + [s[last] - Low(s[last], HostBits(last, plen))]
  }

  function Filled(s: seq<Octet>, rnd: seq<Octet>, plen: nat): (r: seq<Octet>)
    requires |s| == |rnd|
    ensures |r| == |s|
  {
    if s == [] then []
    else
      var last := |s| - 1;
      FilledOctetFits(s[last], rnd[last], HostBits(last, plen));
      Filled(s[..last], rnd[..last], plen)
      + [s[last] - Low(s[last], HostBits(last, plen)) + Low(rnd[last], HostBits(last, plen))]
  }

  // ---- Arithmetic ----

  lemma {:induction false} PowAdd(a: nat, b: nat)
    ensures Pow2(a + b) == Pow2(a) * Pow2(b)
  {
    if a > 0 {
      PowAdd(a - 1, b);
      assert Pow2(a + b) == 2 * (Pow2(a - 1) * Pow2(b));
    }
  }

  lemma {:induction false} PowByte(n: nat)
    ensures Pow2(n + 8) == 256 * Pow2(n)
  {
    PowAdd(8, n);
    assert Pow2(8) == 256 by { assert Pow2(4) == 16; PowAdd(4, 4); }
  }

  lemma {:induction false} PowGrows(h: nat, k: nat)
    requires h <= k
    ensures Pow2(h) <= Pow2(k)
  {
    if h < k { PowGrows(h, k - 1); }
  }

  /** A number is a multiple of the power above its low bits. */
  lemma {:induction false} LowSplits(a: nat, h: nat) returns (q: nat)
    ensures a == Pow2(h) * q + Low(a, h)
  {
    hide Pow2;
    q := a / Pow2(h);
  }

  lemma {:induction false} LowWhole(a: nat, h: nat)
    requires a < Pow2(h)
    ensures Low(a, h) == a
  {
    hide Pow2;
    ModUnique(a, Pow2(h), 0, a);
  }

  lemma {:induction false} LowUnique(q: nat, r: nat, h: nat)
    requires r < Pow2(h)
    ensures Pow2(h) * q + r >= 0
    ensures Low(Pow2(h) * q + r, h) == r
  {
    Product(Pow2(h), q);
    ModUnique(Pow2(h) * q + r, Pow2(h), q, r);
  }

  lemma Product(a: nat, b: nat)
    ensures a * b >= 0
  {
  }

  lemma {:induction false} LowEnds(a: nat)
    ensures Low(a, 0) == 0
    ensures a < 256 ==> Low(a, 8) == a
  {
    PowByte(0);
  }

  lemma {:induction false} LowHalves(a: nat, h: nat)
    requires h > 0
    ensures Low(a, h) == 2 * Low(a / 2, h - 1) + a % 2
  {
    var m := Pow2(h - 1);
    var q := LowSplits(a / 2, h - 1);
    var r := 2 * Low(a / 2, h - 1) + a % 2;
    assert Pow2(h) * q == 2 * (m * q);
    LowUnique(q, r, h);
  }

  /** Eight more low bits take in one more octet whole. */
  lemma {:induction false} LowOfMore(f: nat, b: Octet, h: nat)
    ensures Low(256 * f + b, h + 8) == 256 * Low(f, h) + b
  {
    PowByte(h);
    var q := LowSplits(f, h);
    assert Pow2(h + 8) * q == 256 * (Pow2(h) * q);
    LowUnique(q, 256 * Low(f, h) + b, h + 8);
  }

  /** The low bits of the last octet are the low bits of the whole. */
  lemma {:induction false} LowOfLast(f: nat, b: Octet, h: nat)
    requires h <= 8
    ensures Low(256 * f + b, h) == Low(b, h)
  {
    PowAdd(h, 8 - h);
    PowByte(0);
    var m, c := Pow2(h), Pow2(8 - h);
    var q := LowSplits(b, h);
    assert m * (c * f + q) == (m * c) * f + m * q;
    Product(c, f);
    LowUnique(c * f + q, Low(b, h), h);
  }

  /** Exchanging the low bits leaves an octet an octet, and the rest of it alone. */
  lemma {:induction false} SwapLow(a: nat, b: nat, h: nat)
    ensures Low(a - Low(a, h), h) == 0
    ensures Low(a - Low(a, h) + Low(b, h), h) == Low(b, h)
    ensures (a - Low(a, h) + Low(b, h)) / Pow2(h) == a / Pow2(h)
  {
    var q := LowSplits(a, h);
    LowUnique(q, 0, h);
    LowUnique(q, Low(b, h), h);
    ModUnique(a, Pow2(h), q, Low(a, h));
    ModUnique(Pow2(h) * q + Low(b, h), Pow2(h), q, Low(b, h));
  }

  lemma {:induction false} RoomAbove(m: int, c: int, q: int)
    requires m > 0 && m * c == 256 && m * q < 256
    ensures m * q <= 256 - m
  {
    assert m * (q - c) == m * q - m * c && m * (c - 1 - q) == m * c - m - m * q;
    Multiple(m, q - c);
    Multiple(m, c - 1 - q);
  }

  lemma {:induction false} FilledOctetFits(a: Octet, b: Octet, h: nat)
    requires h <= 8
    ensures 0 <= a - Low(a, h) + Low(b, h) < 256
  {
    PowAdd(h, 8 - h);
    PowByte(0);
    assert Pow2(h) * Pow2(8 - h) == 256;
    hide Pow2, Low;
    var q := LowSplits(a, h);
    RoomAbove(Pow2(h), Pow2(8 - h), q);
  }

  // ---- The masks of the source ----

  lemma {:induction false} AndOdd(a: nat, b: nat)
    ensures BitAnd(a, 2 * b + 1) == 2 * BitAnd(a / 2, b) + a % 2
  {
    assert (2 * b + 1) / 2 == b;
  }

  lemma {:induction false} AndEven(a: nat, b: nat)
    ensures BitAnd(a, 2 * b) == 2 * BitAnd(a / 2, b)
  {
    assert (2 * b) / 2 == b;
  }

  /** And with `h` ones keeps the low bits. */
  lemma {:induction false} AndLow(a: nat, h: nat)
    ensures BitAnd(a, Pow2(h) - 1) == Low(a, h)
  {
    hide Low;
    if h == 0 {
      LowEnds(a);
    } else {
      assert Pow2(h) == 2 * Pow2(h - 1);
      hide BitAnd, Pow2;
      LowHalves(a, h);
      AndLow(a / 2, h - 1);
      AndOdd(a, Pow2(h - 1) - 1);
    }
  }

  lemma {:induction false} AndHighStep(a: nat, h: nat, m: nat, n: nat)
    requires h > 0 && n <= m && BitAnd(a / 2, m - n) == a / 2 - Low(a / 2, h - 1)
    ensures BitAnd(a, 2 * m - 2 * n) == a - Low(a, h)
  {
    hide BitAnd, Low;
    LowHalves(a, h);
    AndEven(a, m - n);
    assert 2 * m - 2 * n == 2 * (m - n);
  }

  lemma {:induction false} AndAll(a: nat, k: nat)
    requires a < Pow2(k)
    ensures BitAnd(a, Pow2(k) - 1) == a - Low(a, 0)
  {
    hide BitAnd, Low, Pow2;
    AndLow(a, k);
    LowWhole(a, k);
    LowEnds(a);
  }

  /** And with everything but `h` ones, of `k` bits, drops them. */
  lemma {:induction false} AndHigh(a: nat, k: nat, h: nat)
    requires h <= k && a < Pow2(k)
    ensures Pow2(h) <= Pow2(k)
    ensures BitAnd(a, Pow2(k) - Pow2(h)) == a - Low(a, h)
    decreases k
  {
    hide BitAnd, Low;
    PowGrows(h, k);
    if h == 0 {
      AndAll(a, k);
    } else {
      AndHigh(a / 2, k - 1, h - 1);
      AndHighStep(a, h, Pow2(k - 1), Pow2(h - 1));
    }
  }

  lemma {:induction false} OrDisjoint(a: nat, b: nat, h: nat)
    requires Low(a, h) == 0 && b < Pow2(h)
    ensures BitOr(a, b) == a + b
    decreases h
  {
    hide Low;
    if h == 0 {
      OrZero(a);
    } else {
      LowHalves(a, h);
      if a > 0 || b > 0 { OrDisjoint(a / 2, b / 2, h - 1); }
    }
  }

  lemma {:induction false} OrZero(a: nat)
    ensures BitOr(a, 0) == a
  {
    if a > 0 { OrZero(a / 2); }
  }

  lemma {:induction false} MaskFits(h: nat)
    requires h < 8
    ensures Pow2(8) == 256 && 0 <= (Pow2(h) - 1) % 256 == Pow2(h) - 1
  {
    PowByte(0);
    PowGrows(h, 7);
  }

  /** What the source's mask expressions come to. */
  lemma {:induction false} MaskExpressions(p: Octet, r: Octet, h: nat)
    requires h < 8
    ensures 0 <= (Pow2(h) - 1) % 256 == Pow2(h) - 1
    ensures BitAnd(p, BitNot((Pow2(h) - 1) % 256)) == p - Low(p, h)
    ensures BitAnd(r, (Pow2(h) - 1) % 256) == Low(r, h)
    ensures BitOr(p - Low(p, h), Low(r, h)) == p - Low(p, h) + Low(r, h) < 256
  {
    hide BitAnd, BitOr, Pow2, Low;
    MaskFits(h);
    AndHigh(p, 8, h);
    AndLow(r, h);
    FilledOctetFits(p, r, h);
    SwapLow(p, r, h);
    OrDisjoint(p - Low(p, h), Low(r, h), h);
  }

  // ---- The loops ----

  method MaskPrefix(bytes: seq<Octet>, plen: nat) returns (masked: seq<Octet>)
    requires |bytes| == 16 && plen <= 128
    ensures masked == Masked(bytes, plen)
    ensures |masked| == 16 && Value(masked) == Value(bytes) - Low(Value(bytes), 128 - plen)
  {
    hide Masked, Value, Pow2, BitAnd, BitOr, Low;
    var out := new Octet[16](_ => 0);
    for i := 0 to 16
      invariant out[..i] == Masked(bytes[..i], plen)
    {
      var bitStart := i * 8;
      var bitEnd := bitStart + 8;
      if bitEnd <= plen {
        out[i] := bytes[i];
      } else if bitStart >= plen {
        out[i] := 0;
      } else {
        var hostBits := bitEnd - plen;
        MaskExpressions(bytes[i], 0, hostBits);
        var netMask := BitNot((Pow2(hostBits) - 1) % 256);
        out[i] := BitAnd(bytes[i], netMask);
      }
      LowEnds(bytes[i]);
      MaskedNext(bytes, plen, i);
      assert out[..i + 1] == out[..i] + [out[i]];
    }
    assert bytes[..16] == bytes && out[..16] == out[..];
    masked := out[..];
    MaskedValue(bytes, plen);
  }

  /** The random octets are the caller's. */
  method RandomAddr(prefix: seq<Octet>, plen: nat, rnd: seq<Octet>) returns (addr: seq<Octet>)
    requires |prefix| == |rnd| == 16 && plen <= 128
    ensures addr == Filled(prefix, rnd, plen)
    ensures |addr| == 16
    ensures Value(addr) == Value(prefix) - Low(Value(prefix), 128 - plen) + Low(Value(rnd), 128 - plen)
  {
    hide Filled, Value, Pow2, BitAnd, BitOr, Low;
    FilledValue(prefix, rnd, plen);
    if plen == 128 {
      FilledAll(prefix, rnd, plen);
      return prefix;
    }
    var out := new Octet[16](_ => 0);
    for i := 0 to 16
      invariant out[..i] == Filled(prefix[..i], rnd[..i], plen)
    {
      var bitStart := i * 8;
      var bitEnd := bitStart + 8;
      if bitStart >= plen {
        out[i] := rnd[i];
      } else if bitEnd > plen {
        var hostBits := bitEnd - plen;
        var hostMask := (Pow2(hostBits) - 1) % 256;
        MaskExpressions(prefix[i], rnd[i], hostBits);
        out[i] := BitOr(BitAnd(prefix[i], BitNot(hostMask)), BitAnd(rnd[i], hostMask));
      } else {
        out[i] := prefix[i];
      }
      LowEnds(prefix[i]);
      LowEnds(rnd[i]);
      FilledNext(prefix, rnd, plen, i);
      assert out[..i + 1] == out[..i] + [out[i]];
    }
    assert prefix[..16] == prefix && rnd[..16] == rnd && out[..16] == out[..];
    addr := out[..];
  }

  lemma {:induction false} MaskedNext(s: seq<Octet>, plen: nat, i: nat)
    requires i < |s|
    ensures Masked(s[..i + 1], plen) == Masked(s[..i], plen) + [s[i] - Low(s[i], HostBits(i, plen))]
  {
    assert s[..i + 1][..i] == s[..i];
  }

  lemma {:induction false} FilledNext(s: seq<Octet>, rnd: seq<Octet>, plen: nat, i: nat)
    requires i < |s| == |rnd|
    ensures var h := HostBits(i, plen);
            0 <= s[i] - Low(s[i], h) + Low(rnd[i], h) < 256
            && Filled(s[..i + 1], rnd[..i + 1], plen)
               == Filled(s[..i], rnd[..i], plen) + [s[i] - Low(s[i], h) + Low(rnd[i], h)]
  {
    FilledOctetFits(s[i], rnd[i], HostBits(i, plen));
    assert s[..i + 1][..i] == s[..i] && rnd[..i + 1][..i] == rnd[..i];
  }

  // ---- Against the whole number ----

  /** A prefix that covers every octet leaves nothing to fill. */
  lemma {:induction false} FilledAll(s: seq<Octet>, rnd: seq<Octet>, plen: nat)
    requires |s| == |rnd| && plen >= 8 * |s|
    ensures Filled(s, rnd, plen) == s
  {
    hide Low, Pow2;
    if s != [] {
      var last := |s| - 1;
      FilledAll(s[..last], rnd[..last], plen);
      LowEnds(s[last]);
      LowEnds(rnd[last]);
    }
  }

  lemma {:induction false} MaskedIsFilled(s: seq<Octet>, zero: seq<Octet>, plen: nat)
    requires |s| == |zero| && forall z :: z in zero ==> z == 0
    ensures Masked(s, plen) == Filled(s, zero, plen) && Value(zero) == 0
  {
    if s != [] {
      var last := |s| - 1;
      assert zero[last] in zero && forall z :: z in zero[..last] ==> z in zero;
      MaskedIsFilled(s[..last], zero[..last], plen);
      FilledOctetFits(s[last], 0, HostBits(last, plen));
    }
  }

  lemma {:induction false} OctetBeyond(f: nat, r: nat, g: int, a: Octet, b: Octet, h: nat)
    requires g == f - Low(f, h) + Low(r, h)
    ensures 256 * g + b == 256 * f + a - Low(256 * f + a, h + 8) + Low(256 * r + b, h + 8)
  {
    hide Low;
    LowOfMore(f, a, h);
    LowOfMore(r, b, h);
  }

  lemma {:induction false} OctetCut(f: nat, r: nat, a: Octet, b: Octet, h: nat)
    requires h <= 8
    ensures 256 * f + (a - Low(a, h) + Low(b, h)) == 256 * f + a - Low(256 * f + a, h) + Low(256 * r + b, h)
  {
    hide Low;
    LowOfLast(f, a, h);
    LowOfLast(r, b, h);
  }

  /** Filling octet by octet is arithmetic on the whole: the one number with the low bits
      of the other. */
  lemma {:induction false} FilledValue(s: seq<Octet>, rnd: seq<Octet>, plen: nat)
    requires |s| == |rnd|
    requires plen <= 8 * |s|
    ensures var h := 8 * |s| - plen;
            Value(Filled(s, rnd, plen)) == Value(s) - Low(Value(s), h) + Low(Value(rnd), h)
  {
    hide Low, Filled, Value, Pow2;
    if plen == 8 * |s| {
      FilledAll(s, rnd, plen);
      LowEnds(Value(s));
      LowEnds(Value(rnd));
    } else {
      var last := |s| - 1;
      var front, rest, a, b := s[..last], rnd[..last], s[last], rnd[last];
      var k := HostBits(last, plen);
      assert s == front + [a] && rnd == rest + [b] && s[..last + 1] == s && rnd[..last + 1] == rnd;
      FilledNext(s, rnd, plen, last);
      ValueOfMore(front, a);
      ValueOfMore(rest, b);
      ValueOfMore(Filled(front, rest, plen), a - Low(a, k) + Low(b, k));
      if 8 * last >= plen {
        FilledValue(front, rest, plen);
        LowEnds(a);
        LowEnds(b);
        OctetBeyond(Value(front), Value(rest), Value(Filled(front, rest, plen)), a, b, 8 * last - plen);
      } else {
        FilledAll(front, rest, plen);
        OctetCut(Value(front), Value(rest), a, b, k);
      }
    }
  }

  lemma {:induction false} ValueOfMore(s: seq<Octet>, b: Octet)
    ensures Value(s + [b]) == 256 * Value(s) + b
  {
    assert (s + [b])[..|s|] == s;
  }

  lemma {:induction false} MaskedValue(s: seq<Octet>, plen: nat)
    requires plen <= 8 * |s|
    ensures Value(Masked(s, plen)) == Value(s) - Low(Value(s), 8 * |s| - plen)
  {
    var zero: seq<Octet> := seq(|s|, _ => 0);
    MaskedIsFilled(s, zero, plen);
    FilledValue(s, zero, plen);
  }

  /** Octets and numbers are the same thing. */
  lemma {:induction false} ValueIsInjective(a: seq<Octet>, b: seq<Octet>)
    requires |a| == |b|
    ensures Value(a) == Value(b) <==> a == b
  {
    if a != [] && Value(a) == Value(b) {
      var last := |a| - 1;
      assert a[last] == b[last];
      ValueIsInjective(a[..last], b[..last]);
      assert a == a[..last] + [a[last]] && b == b[..last] + [b[last]];
    }
  }

  // ---- The subnet ----

  lemma {:induction false} SameQuotientIff(x: nat, y: nat, h: nat)
    ensures x - Low(x, h) == y - Low(y, h) <==> x / Pow2(h) == y / Pow2(h)
  {
    var p := LowSplits(x, h);
    var q := LowSplits(y, h);
    ModUnique(x, Pow2(h), p, Low(x, h));
    ModUnique(y, Pow2(h), q, Low(y, h));
    ModUnique(Pow2(h) * p, Pow2(h), p, 0);
    ModUnique(Pow2(h) * q, Pow2(h), q, 0);
  }

  /** Two addresses share a prefix exactly when the numbers agree above the host bits. */
  lemma {:induction false} SamePrefixIff(a: seq<Octet>, b: seq<Octet>, plen: nat)
    requires |a| == |b| && plen <= 8 * |a|
    ensures var h := Pow2(8 * |a| - plen);
            Masked(a, plen) == Masked(b, plen) <==> Value(a) / h == Value(b) / h
  {
    hide Masked, Value, Pow2, Low;
    MaskedValue(a, plen);
    MaskedValue(b, plen);
    ValueIsInjective(Masked(a, plen), Masked(b, plen));
    SameQuotientIff(Value(a), Value(b), 8 * |a| - plen);
  }

  /** Every random address lies in the subnet. */
  lemma {:induction false} RandomAddrStaysInside(prefix: seq<Octet>, rnd: seq<Octet>, plen: nat)
    requires |prefix| == |rnd| && plen <= 8 * |prefix|
    ensures Masked(Filled(prefix, rnd, plen), plen) == Masked(prefix, plen)
  {
    hide Masked, Filled, Value, Pow2, Low;
    var h := 8 * |prefix| - plen;
    assert Value(Filled(prefix, rnd, plen)) / Pow2(h) == Value(prefix) / Pow2(h) by {
      FilledValue(prefix, rnd, plen);
      SwapLow(Value(prefix), Value(rnd), h);
    }
    SamePrefixIff(Filled(prefix, rnd, plen), prefix, plen);
  }

  /** Every address of the subnet is drawn, and by exactly those random octets that agree
      with it in the host bits: no address is favoured. */
  lemma {:induction false} DrawnExactlyBy(prefix: seq<Octet>, addr: seq<Octet>, rnd: seq<Octet>, plen: nat)
    requires |prefix| == |addr| == |rnd| && plen <= 8 * |prefix|
    requires Masked(addr, plen) == Masked(prefix, plen)
    ensures var h := 8 * |prefix| - plen;
            Filled(prefix, rnd, plen) == addr <==> Low(Value(rnd), h) == Low(Value(addr), h)
    ensures Filled(prefix, addr, plen) == addr
  {
    hide Masked, Filled, Value, Low;
    FilledValue(prefix, rnd, plen);
    FilledValue(prefix, addr, plen);
    MaskedValue(prefix, plen);
    MaskedValue(addr, plen);
    ValueIsInjective(Filled(prefix, rnd, plen), addr);
    ValueIsInjective(Filled(prefix, addr, plen), addr);
  }

  /** Masking an already masked prefix, as a parsed subnet keeps it, changes nothing. */
  lemma {:induction false} MaskingTwice(s: seq<Octet>, plen: nat)
    requires plen <= 8 * |s|
    ensures Masked(Masked(s, plen), plen) == Masked(s, plen)
  {
    var zero: seq<Octet> := seq(|s|, _ => 0);
    MaskedIsFilled(s, zero, plen);
    RandomAddrStaysInside(s, zero, plen);
  }
}
