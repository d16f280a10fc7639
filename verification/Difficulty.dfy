/**
  Compact difficulty targets (util/difficulty/difficulty.go): a 32-bit floating format with a base-256
  exponent and a 23-bit mantissa, for non-negative numbers.
*/
module Difficulty {
  import opened Basics

  const TWO_TO_15: nat := 0x8000
  const TWO_TO_23: nat := 0x80_0000
  const TWO_TO_24: nat := 0x100_0000

  function Pow256(e: nat): (p: nat)
    ensures p > 0
  {
    if e == 0 then 1 else 256 * Pow256(e - 1)
  }

  /** The length of the number's big-endian byte string. */
  function Bytes(n: nat): nat {
    if n == 0 then 0 else 1 + Bytes(n / 256)
  }

  datatype Parts = Parts(exponent: nat, mantissa: nat)

  /** The three leading bytes, padded with zeros from below. */
  function Leading(n: nat): nat {
    var exponent := Bytes(n);
    if exponent <= 3 then Times(n, Pow256(3 - exponent)) else Quotient(n, Pow256(exponent - 3))
  }

  function Times(a: nat, b: nat): nat {
    a * b
  }

  function Quotient(a: nat, b: nat): nat
    requires b > 0
  {
    a / b
  }

  /** The exponent and the mantissa before they are packed. */
  function Split(n: nat): Parts {
    var exponent, mantissa := Bytes(n), Leading(n);
    if mantissa / TWO_TO_23 % 2 != 0 then Parts(exponent + 1, mantissa / 256) else Parts(exponent, mantissa)
  }

  /** The exponent is capped at 32 bits and shifted into the top byte of a 32-bit word, which keeps its low eight bits. */
  function TopByte(exponent: nat): nat {
    if exponent <= 0xffff_ffff then exponent % 256 else 255
  }

  function BigToCompact(n: nat): nat {
    if n == 0 then 0
    else
      var parts := Split(n);
      TopByte(parts.exponent) * TWO_TO_24 + parts.mantissa
  }

  function CompactToBig(compact: nat): int {
    var mantissa := compact % TWO_TO_23;
    var isNegative := compact / TWO_TO_23 % 2 != 0;
    var exponent := compact / TWO_TO_24;
    var n := if exponent <= 3 then Quotient(mantissa, Pow256(3 - exponent)) else Times(mantissa, Pow256(exponent - 3));
    if isNegative then -n else n
  }

  const ONE_LSH_256: nat := Pow256(32)

  function CalcWork(bits: nat): nat {
    var difficulty := CompactToBig(bits);
    if difficulty <= 0 then 0 else ONE_LSH_256 / (difficulty + 1)
  }

  /** A big integer that is updated in place. */
  class BigInt {
    var value: int

    constructor (n: int)
      ensures value == n
    {
      value := n;
    }
  }

  // ---------- The source's 32-bit words ----------

  const TWO_TO_32: nat := 0x1_0000_0000
  const MAX_UINT32: nat := 0xffff_ffff

  function Pow2(k: nat): (p: nat)
    ensures p > 0
  {
    if k == 0 then 1 else 2 * Pow2(k - 1)
  }

  /** `x << k` and `x >> k` of a 32-bit word. */
  function Shl32(x: nat, k: nat): nat {
    Times(x, Pow2(k)) % TWO_TO_32
  }

  function Shr32(x: nat, k: nat): nat {
    Quotient(x, Pow2(k))
  }

  /** `a | b` and `a & b`, bit by bit. */
  function Or(a: nat, b: nat): nat
    decreases a + b
  {
    if a == 0 && b == 0 then 0 else 2 * Or(a / 2, b / 2) + (if a % 2 == 1 || b % 2 == 1 then 1 else 0)
  }

  function And(a: nat, b: nat): nat {
    if a == 0 then 0 else 2 * And(a / 2, b / 2) + (if a % 2 == 1 && b % 2 == 1 then 1 else 0)
  }

  lemma {:induction false} OrDisjoint(a: nat, b: nat, k: nat)
    requires b < Pow2(k)
    ensures Or(Times(a, Pow2(k)), b) == Times(a, Pow2(k)) + b
    decreases k
  {
    if k == 0 {
      OrZero(a);
    } else {
      Halves(a, k);
      OrDisjoint(a, b / 2, k - 1);
    }
  }

  lemma Halves(a: nat, k: nat)
    requires k > 0
    ensures Times(a, Pow2(k)) / 2 == Times(a, Pow2(k - 1)) && Times(a, Pow2(k)) % 2 == 0
  {
    assert Times(a, Pow2(k)) == 2 * Times(a, Pow2(k - 1));
  }

  lemma {:induction false} OrZero(a: nat)
    ensures Or(a, 0) == a && Times(a, Pow2(0)) == a
  {
    if a > 0 { OrZero(a / 2); }
  }

  /** A mask of ones keeps the low bits. */
  lemma {:induction false} AndOnes(a: nat, k: nat)
    ensures And(a, Pow2(k) - 1) == Remainder(a, Pow2(k))
    decreases k
  {
    if k == 0 {
      AndZero(a);
    } else if a > 0 {
      AndOnes(a / 2, k - 1);
      AndOnesStep(a, Pow2(k - 1));
    } else {
      NoRemainder(Pow2(k));
    }
  }

  function Remainder(a: nat, b: nat): nat
    requires b > 0
  {
    a % b
  }

  lemma NoRemainder(m: nat)
    requires m > 0
    ensures Remainder(0, m) == 0
  {
  }

  lemma AndOnesStep(a: nat, m: nat)
    requires a > 0 && m > 0 && And(a / 2, m - 1) == Remainder(a / 2, m)
    ensures And(a, 2 * m - 1) == Remainder(a, 2 * m)
  {
    ModHalves(a, m);
    assert (2 * m - 1) / 2 == m - 1 && (2 * m - 1) % 2 == 1;
  }

  lemma {:induction false} AndZero(a: nat)
    ensures And(a, 0) == 0
  {
    if a > 0 { AndZero(a / 2); }
  }

  lemma ModHalves(a: nat, m: nat)
    requires m > 0
    ensures a % (2 * m) == 2 * (a / 2 % m) + a % 2
  {
    var q, r := a / 2 / m, a / 2 % m;
    assert a / 2 == q * m + r;
    assert a == q * (2 * m) + (2 * r + a % 2);
    DivUnique(a, 2 * m, q, 2 * r + a % 2);
  }

  lemma DivUnique(a: nat, d: nat, q: nat, r: nat)
    requires a == q * d + r && r < d
    ensures a / d == q && a % d == r
  {
    DivBounds(a, d);
    var p := a / d;
    if p < q { MulMonotone(p + 1, q, d); } else if p > q { MulMonotone(q + 1, p, d); }
  }

  /** A mask of one bit asks for that bit. */
  lemma {:induction false} AndBit(a: nat, k: nat)
    ensures And(a, Pow2(k)) != 0 <==> Quotient(a, Pow2(k)) % 2 == 1
    decreases k
  {
    if k == 0 {
      if a > 0 { AndZero(a / 2); }
    } else if a > 0 {
      AndBit(a / 2, k - 1);
      QuotientHalves(a, Pow2(k - 1));
    }
  }

  lemma QuotientHalves(a: nat, m: nat)
    requires m > 0
    ensures Quotient(a, 2 * m) == Quotient(a / 2, m)
  {
    ModHalves(a, m);
    var q := a / 2 / m;
    assert a == q * (2 * m) + (2 * (a / 2 % m) + a % 2);
    DivUnique(a, 2 * m, q, 2 * (a / 2 % m) + a % 2);
  }

  lemma Pow2Table()
    ensures Pow2(0) == 1 && Pow2(8) == 256 && Pow2(16) == 0x1_0000
    ensures Pow2(23) == TWO_TO_23 && Pow2(24) == TWO_TO_24
  {
    assert Pow2(4) == 16;
    assert Pow2(8) == 256;
    assert Pow2(12) == 0x1000;
    assert Pow2(16) == 0x1_0000;
    assert Pow2(20) == 0x10_0000;
    assert Pow2(24) == 0x100_0000;
  }

  /** The lowest word of a big integer, cut to 32 bits by taking the largest 32-bit number instead of a larger one. */
  function LowWord(n: nat): nat {
    var word := n % TWO_TO_64;
    if word <= MAX_UINT32 then word else MAX_UINT32
  }

  // ---------- Powers ----------

  lemma {:induction false} PowAdd(a: nat, b: nat)
    ensures Pow256(a + b) == Pow256(a) * Pow256(b)
    decreases a
  {
    if a > 0 { PowAdd(a - 1, b); }
  }

  lemma {:induction false} PowMonotone(a: nat, b: nat)
    requires a <= b
    ensures Pow256(a) <= Pow256(b)
    decreases b
  {
    if a < b { PowMonotone(a, b - 1); }
  }

  lemma PowThree()
    ensures Pow256(0) == 1 && Pow256(1) == 256 && Pow256(2) == 65536 && Pow256(3) == TWO_TO_24
  {
    assert Pow256(2) == 256 * Pow256(1);
    assert Pow256(3) == 256 * Pow256(2);
  }

  lemma {:induction false} BytesBound(n: nat)
    requires n > 0
    ensures Bytes(n) > 0 && Pow256(Bytes(n) - 1) <= n < Pow256(Bytes(n))
  {
    if n >= 256 { BytesBound(n / 256); }
  }

  // ---------- The normal form ----------

  /**
    The number, scaled by 2^24, has `exponent` base-256 digits below a mantissa between 2^15 and
    2^23, and the mantissa is what is left when those digits are cut off.
  */
  ghost predicate Normal(n: nat, parts: Parts) {
    var unit := Pow256(parts.exponent);
    && TWO_TO_15 <= parts.mantissa < TWO_TO_23
    && parts.mantissa * unit <= n * TWO_TO_24 < parts.mantissa * unit + unit
  }

  /** The exponent of a normal form is settled by the size of the number. */
  lemma NormalRange(n: nat, parts: Parts)
    requires Normal(n, parts)
    ensures TWO_TO_15 * Pow256(parts.exponent) <= n * TWO_TO_24 < TWO_TO_15 * Pow256(parts.exponent + 1)
  {
    var unit := Pow256(parts.exponent);
    MulMonotone(TWO_TO_15, parts.mantissa, unit);
    MulMonotone(parts.mantissa + 1, TWO_TO_23, unit);
    assert (parts.mantissa + 1) * unit == parts.mantissa * unit + unit;
  }

  lemma MulMonotone(a: int, b: int, c: nat)
    requires a <= b
    ensures a * c <= b * c
  {
    assert b * c == a * c + (b - a) * c;
  }

  lemma MulCancel(a: int, b: int, c: nat)
    requires a * c < b * c
    ensures a < b
  {
    if a >= b { MulMonotone(b, a, c); }
  }

  lemma ExponentMonotone(n: nat, p: Parts, m: nat, q: Parts)
    requires Normal(n, p) && Normal(m, q) && n <= m
    ensures p.exponent <= q.exponent
  {
    NormalRange(n, p);
    NormalRange(m, q);
    if p.exponent > q.exponent {
      PowMonotone(q.exponent + 1, p.exponent);
    }
  }

  lemma PartsMonotone(n: nat, p: Parts, m: nat, q: Parts)
    requires Normal(n, p) && Normal(m, q) && n <= m
    ensures p.exponent < q.exponent || (p.exponent == q.exponent && p.mantissa <= q.mantissa)
  {
    ExponentMonotone(n, p, m, q);
    if p.exponent == q.exponent {
      var unit := Pow256(p.exponent);
      assert (q.mantissa + 1) * unit == q.mantissa * unit + unit;
      MulCancel(p.mantissa, q.mantissa + 1, unit);
    }
  }

  lemma NormalUnique(n: nat, p: Parts, q: Parts)
    requires Normal(n, p) && Normal(n, q)
    ensures p == q
  {
    PartsMonotone(n, p, n, q);
    PartsMonotone(n, q, n, p);
  }

  /** The three leading bytes as a number, before the sign bit is cleared. */
  lemma LeadingBound(n: nat)
    requires n > 0
    ensures 0x1_0000 <= Leading(n) < TWO_TO_24
    ensures Leading(n) * Pow256(Bytes(n)) <= n * TWO_TO_24 < Leading(n) * Pow256(Bytes(n)) + Pow256(Bytes(n))
  {
    BytesBound(n);
    var e := Bytes(n);
    PowThree();
    if e <= 3 {
      LeadingShort(n, e);
    } else {
      LeadingLong(n, e);
    }
  }

  lemma LeadingShort(n: nat, e: nat)
    requires 0 < e <= 3 && Pow256(e - 1) <= n < Pow256(e)
    ensures 0x1_0000 <= n * Pow256(3 - e) < TWO_TO_24
    ensures n * Pow256(3 - e) * Pow256(e) == n * TWO_TO_24
  {
    PowThree();
  }

  lemma DivBounds(n: nat, d: nat)
    requires d > 0
    ensures (n / d) * d <= n < (n / d) * d + d
  {
  }

  lemma LeadingLong(n: nat, e: nat)
    requires e > 3 && Pow256(e - 1) <= n < Pow256(e)
    ensures 0x1_0000 <= n / Pow256(e - 3) < TWO_TO_24
    ensures n / Pow256(e - 3) * Pow256(e) <= n * TWO_TO_24 < n / Pow256(e - 3) * Pow256(e) + Pow256(e)
  {
    var d := Pow256(e - 3);
    var m := n / d;
    PowThree();
    PowAdd(2, e - 3);
    PowAdd(3, e - 3);
    DivBounds(n, d);
    assert Pow256(e - 1) == 0x1_0000 * d && Pow256(e) == TWO_TO_24 * d;
    assert (m + 1) * d == m * d + d;
    MulCancel(0xffff, m, d) by { assert 0x1_0000 * d < (m + 1) * d; assert 0xffff * d + d == 0x1_0000 * d; }
    MulCancel(m, TWO_TO_24, d);
    assert m * Pow256(e) == m * d * TWO_TO_24;
  }

  /** The conversion computes the normal form. */
  lemma SplitIsNormal(n: nat)
    requires n > 0
    ensures Normal(n, Split(n))
  {
    LeadingBound(n);
    var m, unit := Leading(n), Pow256(Bytes(n));
    if m >= TWO_TO_23 {
      Carry(m, unit, n * TWO_TO_24);
      assert Pow256(Bytes(n) + 1) == 256 * unit;
    }
  }

  lemma Carry(m: nat, unit: nat, x: nat)
    requires TWO_TO_23 <= m < TWO_TO_24 && m * unit <= x < m * unit + unit
    ensures TWO_TO_15 <= m / 256 < TWO_TO_23
    ensures m / 256 * (256 * unit) <= x < m / 256 * (256 * unit) + 256 * unit
  {
    var q, r := m / 256, m % 256;
    assert m * unit == q * (256 * unit) + r * unit by { assert m == 256 * q + r; }
    MulMonotone(0, r, unit);
    MulMonotone(r + 1, 256, unit);
    assert (r + 1) * unit == r * unit + unit;
  }

  /** `CompactToBigWithDestination`, on the bits of the word. */
  method CompactToBigWithDestination(compact: nat, destination: BigInt)
    requires compact < TWO_TO_32
    modifies destination
    ensures destination.value == CompactToBig(compact)
  {
    Pow2Table();
    PowThree();
    AndOnes(compact, 23);
    AndBit(compact, 23);
    var mantissa := And(compact, 0x7f_ffff);
    var isNegative := And(compact, 0x80_0000) != 0;
    var exponent := Shr32(compact, 24);
    if exponent <= 3 {
      PowersAgree(3 - exponent);
      mantissa := Shr32(mantissa, 8 * (3 - exponent));
      destination.value := mantissa;
    } else {
      destination.value := mantissa;
      destination.value := destination.value * Pow256(exponent - 3);
    }
    if isNegative { destination.value := -destination.value; }
  }

  /** The cut to 32 bits never happens: the number is at most three bytes long when its low word is read. */
  lemma LowWordExact(n: nat)
    requires n < TWO_TO_24
    ensures LowWord(n) == n
  {
  }

  lemma ShortFits(n: nat)
    requires n > 0 && Bytes(n) <= 3
    ensures n < TWO_TO_24 && Shl32(n, 8 * (3 - Bytes(n))) == Leading(n)
  {
    BytesBound(n);
    LeadingBound(n);
    PowMonotone(Bytes(n), 3);
    PowThree();
    PowersAgree(3 - Bytes(n));
  }

  lemma PackedBits(exponent: nat, mantissa: nat)
    requires mantissa < TWO_TO_24
    ensures var e := if exponent <= MAX_UINT32 then exponent else MAX_UINT32;
      Or(Shl32(e, 24), mantissa) == TopByte(exponent) * TWO_TO_24 + mantissa
  {
    var e := if exponent <= MAX_UINT32 then exponent else MAX_UINT32;
    Pow2Table();
    assert Shl32(e, 24) == Times(TopByte(exponent), Pow2(24)) by {
      assert e * TWO_TO_24 == e / 256 * TWO_TO_32 + e % 256 * TWO_TO_24;
    }
    OrDisjoint(TopByte(exponent), mantissa, 24);
  }

  /** `BigToCompact`, on 32-bit words. */
  method ComputeBigToCompact(n: nat) returns (compact: nat)
    ensures compact == BigToCompact(n)
  {
    if n == 0 { return 0; }
    hide Leading, Bytes, Pow256, Pow2, TopByte, Or, And, Shl32, Shr32, LowWord, Quotient, Times, Split, BigToCompact;
    LeadingBound(n);
    var exponent := Bytes(n);
    var mantissa;
    if exponent <= 3 {
      ShortFits(n);
      LowWordExact(n);
      mantissa := LowWord(n);
      mantissa := Shl32(mantissa, 8 * (3 - exponent));
    } else {
      LeadingIsShifted(n);
      var tn := Quotient(n, Pow256(exponent - 3));
      LowWordExact(tn);
      mantissa := LowWord(tn);
    }
    SplitBySign(n, mantissa);
    if And(mantissa, 0x80_0000) != 0 {
      mantissa := Shr32(mantissa, 8);
      exponent := exponent + 1;
    }
    PackedBits(exponent, mantissa);
    CompactIs(n, exponent, mantissa);
    var exponentUint32 := if exponent <= MAX_UINT32 then exponent else MAX_UINT32;
    compact := Or(Shl32(exponentUint32, 24), mantissa);
  }

  lemma LeadingIsShifted(n: nat)
    requires n > 0 && Bytes(n) > 3
    ensures Leading(n) == Quotient(n, Pow256(Bytes(n) - 3))
  {
  }

  lemma SplitBySign(n: nat, mantissa: nat)
    requires mantissa == Leading(n)
    ensures Split(n) == if And(mantissa, 0x80_0000) != 0 then Parts(Bytes(n) + 1, Shr32(mantissa, 8)) else Parts(Bytes(n), mantissa)
    ensures Shr32(mantissa, 8) <= mantissa
  {
    SignBit(mantissa);
  }

  lemma CompactIs(n: nat, exponent: nat, mantissa: nat)
    requires n > 0 && Split(n) == Parts(exponent, mantissa)
    ensures BigToCompact(n) == TopByte(exponent) * TWO_TO_24 + mantissa
  {
  }

  lemma SignBit(mantissa: nat)
    ensures And(mantissa, 0x80_0000) != 0 <==> mantissa / TWO_TO_23 % 2 != 0
    ensures Shr32(mantissa, 8) == mantissa / 256 <= mantissa
  {
    Pow2Table();
    AndBit(mantissa, 23);
  }

  // ---------- Packing ----------

  /** What a packed normal form reads back as: `mantissa * 256^(exponent - 3)`, cut to a whole number. */
  lemma Unpack(p: Parts)
    requires p.mantissa < TWO_TO_23
    ensures var c := TopByte(p.exponent) * TWO_TO_24 + p.mantissa;
      c / TWO_TO_24 == TopByte(p.exponent) && c % TWO_TO_23 == p.mantissa && c / TWO_TO_23 % 2 == 0
  {
  }

  ghost function Value(e: nat, m: nat): nat {
    if e <= 3 then Quotient(m, Pow256(3 - e)) else Times(m, Pow256(e - 3))
  }

  lemma RoundTripValue(n: nat)
    requires n > 0
    ensures CompactToBig(BigToCompact(n)) == Value(TopByte(Split(n).exponent), Split(n).mantissa)
  {
    SplitIsNormal(n);
    Unpack(Split(n));
  }

  /** Scaled by 2^24 the value is at most the mantissa's share. */
  lemma ValueBelow(e: nat, m: nat)
    ensures Value(e, m) * TWO_TO_24 <= m * Pow256(e)
    ensures e >= 3 ==> Value(e, m) * TWO_TO_24 == m * Pow256(e)
  {
    PowThree();
    if e > 3 {
      PowAdd(e - 3, 3);
      ScaledUp(m, Pow256(e - 3), Pow256(e));
    }
  }

  lemma ScaledUp(m: nat, p: nat, q: nat)
    requires q == p * TWO_TO_24
    ensures Times(m, p) * TWO_TO_24 == m * q
  {
  }

  /** Short numbers are exact. */
  lemma ShortExact(n: nat)
    requires n > 0 && Split(n).exponent < 3
    ensures Value(Split(n).exponent, Split(n).mantissa) == n
    ensures Split(n).mantissa * Pow256(Split(n).exponent) == n * TWO_TO_24
  {
    BytesBound(n);
    PowThree();
    LeadingBound(n);
  }

  lemma ValueExact(n: nat)
    requires n > 0
    ensures var p := Split(n); Value(p.exponent, p.mantissa) * TWO_TO_24 == p.mantissa * Pow256(p.exponent)
  {
    var p := Split(n);
    ValueBelow(p.exponent, p.mantissa);
    if p.exponent < 3 { ShortExact(n); }
  }

  // ---------- Results ----------

  /** The exponent fits in its byte exactly for the numbers below 2^2039. */
  lemma ExponentFitsIff(n: nat)
    requires n > 0
    ensures Split(n).exponent <= 255 <==> 2 * n < Pow256(255)
  {
    var p := Split(n);
    SplitIsNormal(n);
    NormalRange(n, p);
    assert Pow256(256) == 256 * Pow256(255);
    if p.exponent <= 255 {
      PowMonotone(p.exponent + 1, 256);
    } else {
      PowMonotone(256, p.exponent);
    }
  }

  /** The value read back is at most the number, and less by under one part in 2^15. */
  ghost predicate Rounds(n: nat, v: int) {
    v <= n && (n - v) * TWO_TO_15 < v
  }

  lemma RoundingBound(n: nat)
    requires n > 0 && Split(n).exponent <= 255
    ensures Rounds(n, CompactToBig(BigToCompact(n)))
  {
    hide Split, BigToCompact, CompactToBig, Value, Pow256;
    var p := Split(n);
    RoundTripValue(n);
    SplitIsNormal(n);
    ValueExact(n);
    CutBound(n, Value(p.exponent, p.mantissa), p.mantissa, Pow256(p.exponent));
  }

  lemma CutBound(n: nat, v: nat, m: nat, unit: nat)
    requires m >= TWO_TO_15 && v * TWO_TO_24 == m * unit <= n * TWO_TO_24 < m * unit + unit
    ensures Rounds(n, v)
  {
    MulMonotone(TWO_TO_15, m, unit);
  }

  /** A number whose exponent does not fit reads back far too small. */
  lemma OverflowShrinks(n: nat)
    requires n > 0 && Split(n).exponent > 255
    ensures !Rounds(n, CompactToBig(BigToCompact(n)))
  {
    hide Split, BigToCompact, CompactToBig, Value;
    var p := Split(n);
    var low := TopByte(p.exponent);
    RoundTripValue(n);
    SplitIsNormal(n);
    ValueBelow(low, p.mantissa);
    PowMonotone(low + 1, p.exponent);
    FarBelow(n, Value(low, p.mantissa), p.mantissa, Pow256(low), Pow256(p.exponent));
  }

  lemma FarBelow(n: nat, v: nat, m: nat, small: nat, unit: nat)
    requires v * TWO_TO_24 <= m * small && m * unit <= n * TWO_TO_24 && 256 * small <= unit && n > 0
    ensures !Rounds(n, v)
  {
    MulMonotone(256 * small, unit, m);
    assert m * (256 * small) == 256 * (m * small);
    assert 256 * v <= n;
  }

  /** The rounding bound holds if and only if the number is below 2^2039. */
  lemma RoundsIff(n: nat)
    requires n > 0
    ensures Rounds(n, CompactToBig(BigToCompact(n))) <==> 2 * n < Pow256(255)
  {
    ExponentFitsIff(n);
    if Split(n).exponent <= 255 { RoundingBound(n); } else { OverflowShrinks(n); }
  }

  /** The smallest power of 256 that does not survive. */
  lemma TooLarge()
    ensures !Rounds(Pow256(255), CompactToBig(BigToCompact(Pow256(255))))
  {
    RoundsIff(Pow256(255));
  }

  /** Re-encoding a decoded target gives the same bits. */
  lemma Canonical(n: nat)
    requires 0 < n && 2 * n < Pow256(255)
    ensures CompactToBig(BigToCompact(n)) > 0
    ensures BigToCompact(CompactToBig(BigToCompact(n))) == BigToCompact(n)
  {
    hide Value, Pow256, CompactToBig, Split;
    var p := Split(n);
    var v := Value(p.exponent, p.mantissa);
    ExponentFitsIff(n);
    RoundTripValue(n);
    RoundingBound(n);
    SplitIsNormal(n);
    ValueExact(n);
    SplitIsNormal(v);
    NormalUnique(v, p, Split(v));
  }

  /** A larger target never gets smaller bits. */
  lemma CompactMonotone(n: nat, m: nat)
    requires n <= m && 2 * m < Pow256(255)
    ensures BigToCompact(n) <= BigToCompact(m)
  {
    hide Pow256, Split;
    if n > 0 {
      SplitIsNormal(n);
      SplitIsNormal(m);
      ExponentFitsIff(n);
      ExponentFitsIff(m);
      PartsMonotone(n, Split(n), m, Split(m));
    }
  }

  lemma DivAntitone(a: nat, b: nat, c: nat)
    requires 0 < b <= c
    ensures a / b >= a / c
  {
    DivBounds(a, b);
    DivBounds(a, c);
    MulMonotone(b, c, a / c);
    assert (a / b + 1) * b == a / b * b + b;
    MulCancel(a / c, a / b + 1, b);
  }

  /**
    The work of a target is 2^256 divided by the target plus one, cut to a whole number, and none for a
    target that is not positive.
  */
  lemma WorkExact(bits: nat)
    ensures var t, w := CompactToBig(bits), CalcWork(bits);
      && (t <= 0 ==> w == 0)
      && (t > 0 ==> w * (t + 1) <= Pow2(256) < (w + 1) * (t + 1))
  {
    hide CompactToBig, Pow2, Pow256;
    PowersAgree(32);
    var t, w := CompactToBig(bits), CalcWork(bits);
    if t > 0 {
      DivBounds(ONE_LSH_256, t + 1);
      assert (w + 1) * (t + 1) == w * (t + 1) + (t + 1);
    }
  }

  lemma {:induction false} PowersAgree(j: nat)
    ensures Pow256(j) == Pow2(8 * j)
  {
    if j > 0 {
      PowersAgree(j - 1);
      PowStep(8 * (j - 1));
    }
  }

  lemma PowStep(k: nat)
    ensures Pow2(k + 8) == 256 * Pow2(k)
  {
    assert Pow2(k + 2) == 4 * Pow2(k);
    assert Pow2(k + 4) == 4 * Pow2(k + 2);
    assert Pow2(k + 6) == 4 * Pow2(k + 4);
  }

  /** A larger positive target never has more work. */
  lemma WorkAntitone(a: nat, b: nat)
    requires 0 < CompactToBig(a) <= CompactToBig(b)
    ensures CalcWork(a) >= CalcWork(b)
  {
    hide CompactToBig, Pow256;
    DivAntitone(ONE_LSH_256, CompactToBig(a) + 1, CompactToBig(b) + 1);
  }

  /** The work of a rounded target is at least that of the target. */
  lemma WorkBound(n: nat)
    requires 0 < n && 2 * n < Pow256(255)
    ensures CalcWork(BigToCompact(n)) >= ONE_LSH_256 / (n + 1)
  {
    hide Pow256, CompactToBig, BigToCompact;
    RoundsIff(n);
    DivAntitone(ONE_LSH_256, CompactToBig(BigToCompact(n)) + 1, n + 1);
  }
}
