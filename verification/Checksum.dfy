/**
  The 40-bit checksum over 5-bit symbols (`polyMod`, `calculateChecksum` and `verifyChecksum` in
  util/bech32/bech32.go), with the generators of the "Checksum" section of the CashAddr specification.

  The checksum register of the source stays below 2^40: it is modelled as its 40 bits, most significant
  first, so that a shift is a slice and an exclusive or is pointwise.
*/
module Checksum {
  import opened Basics
  import opened BitRegrouping

  const CHECKSUM_LENGTH := 8

  /** The `w` binary digits of `n`, most significant first. */
  function Binary(n: nat, w: nat): (bits: seq<bool>)
    ensures |bits| == w
    decreases w
  {
    if w == 0 then [] else Binary(n / 2, w - 1) + [n % 2 == 1]
  }

  const GENERATOR: seq<nat> := [0x98f2bc8e61, 0x79b76d99e2, 0xf33e5fb3c4, 0xae2eabe2a8, 0x1e4f43e470]

  /** The generators as registers. */
  function Generator(): (generators: seq<seq<bool>>)
    ensures |generators| == 5 && forall g :: g in generators ==> |g| == 40
  {
    seq(5, i requires 0 <= i < 5 => Binary(GENERATOR[i], 40))
  }

  function Xor(a: seq<bool>, b: seq<bool>): (r: seq<bool>)
    requires |a| == |b|
    ensures |r| == |a| && forall i :: 0 <= i < |r| ==> r[i] == (a[i] != b[i])
  {
    seq(|a|, i requires 0 <= i < |a| => a[i] != b[i])
  }

  function Select(take: bool, g: seq<bool>): (r: seq<bool>)
    ensures |r| == |g|
  {
    if take then g else Zeros(|g|)
  }

  /** The generators selected by the bits of `top`: its lowest bit selects the first one. */
  function Reduction(top: seq<bool>, generators: seq<seq<bool>>): (r: seq<bool>)
    requires |top| == |generators| && forall g :: g in generators ==> |g| == 40
    ensures |r| == 40
    decreases |top|
  {
    if top == [] then Zeros(40)
    else Xor(Select(top[|top| - 1], generators[0]), Reduction(top[..|top| - 1], generators[1..]))
  }

  /** The register shifted by one symbol, with the symbol added in its low bits. */
  function Shifted(c: seq<bool>, v: Byte): (r: seq<bool>)
    requires |c| == 40
    ensures |r| == 40
  {
    Xor(c[5..] + Zeros(5), Zeros(32) + Group(v, 8))
  }

  function Step(c: seq<bool>, v: Byte): (r: seq<bool>)
    requires |c| == 40
    ensures |r| == 40
  {
    Xor(Shifted(c, v), Reduction(c[..5], Generator()))
  }

  function Run(c: seq<bool>, values: seq<Byte>): (r: seq<bool>)
    requires |c| == 40
    ensures |r| == 40
    decreases |values|
  {
    if values == [] then c else Run(Step(c, values[0]), values[1..])
  }

  /** The number one as a register. */
  function One(): (r: seq<bool>)
    ensures |r| == 40
  {
    Zeros(39) + [true]
  }

  function PolyMod(values: seq<Byte>): (r: seq<bool>)
    ensures |r| == 40
  {
    Xor(Run(One(), values), One())
  }

  /** The eight symbols of a 40-bit register. */
  function Symbols(bits: seq<bool>): seq<Byte>
    requires |bits| == 40
  {
    Pack(bits, 5, false)
  }

  function PrefixSymbols(prefix: string): (r: seq<Byte>)
    ensures |r| == |prefix|
  {
    seq(|prefix|, i requires 0 <= i < |prefix| => ((prefix[i] as int) % 32) as bv8)
  }

  function CalculateChecksum(prefix: string, payload: seq<Byte>): seq<Byte> {
    Symbols(PolyMod(PrefixSymbols(prefix) + [0] + payload + ZeroSymbols(8)))
  }

  predicate VerifyChecksum(prefix: string, payload: seq<Byte>) {
    PolyMod(PrefixSymbols(prefix) + [0] + payload) == Zeros(40)
  }

  function ZeroSymbols(n: nat): (r: seq<Byte>)
    ensures |r| == n
  {
    seq(n, _ => 0)
  }

  // ---------- Exclusive or of bit sequences ----------

  lemma XorZeros(a: seq<bool>)
    ensures Xor(a, Zeros(|a|)) == a && Xor(Zeros(|a|), a) == a && Xor(a, a) == Zeros(|a|)
  {
  }

  lemma XorAssoc(a: seq<bool>, b: seq<bool>, c: seq<bool>)
    requires |a| == |b| == |c|
    ensures Xor(Xor(a, b), c) == Xor(a, Xor(b, c))
  {
  }

  /** Exclusive or distributes over itself. */
  lemma XorJoin(a: seq<bool>, a': seq<bool>, b: seq<bool>, b': seq<bool>)
    requires |a| == |a'| == |b| == |b'|
    ensures Xor(Xor(a, a'), Xor(b, b')) == Xor(Xor(a, b), Xor(a', b'))
  {
  }

  lemma XorEqual(a: seq<bool>, b: seq<bool>)
    requires |a| == |b|
    ensures Xor(a, b) == Zeros(|a|) <==> a == b
  {
    if Xor(a, b) == Zeros(|a|) {
      forall i | 0 <= i < |a| ensures a[i] == b[i] { assert Xor(a, b)[i] == Zeros(|a|)[i]; }
    }
  }

  lemma XorSlices(a: seq<bool>, b: seq<bool>)
    requires |a| == |b| == 40
    ensures Xor(a, b)[..5] == Xor(a[..5], b[..5])
    ensures Xor(a, b)[5..] + Zeros(5) == Xor(a[5..] + Zeros(5), b[5..] + Zeros(5))
  {
  }

  lemma {:induction false} GroupXor(u: Byte, v: Byte, w: nat)
    ensures Group(u ^ v, w) == Xor(Group(u, w), Group(v, w))
    decreases w
  {
    if w > 0 {
      BitXor(u, v);
      GroupXor(u >> 1, v >> 1, w - 1);
      XorAppend(Group(u >> 1, w - 1), Group(v >> 1, w - 1), u & 1 == 1, v & 1 == 1);
    }
  }

  lemma XorAppend(a: seq<bool>, b: seq<bool>, p: bool, q: bool)
    requires |a| == |b|
    ensures Xor(a + [p], b + [q]) == Xor(a, b) + [p != q]
  {
  }

  lemma ZerosConcat(a: nat, b: nat)
    ensures Zeros(a) + Zeros(b) == Zeros(a + b)
    ensures Zeros(a + b)[..a] == Zeros(a) && Zeros(a + b)[a..] == Zeros(b)
  {
  }

  lemma BitXor(u: Byte, v: Byte)
    ensures (u ^ v) >> 1 == (u >> 1) ^ (v >> 1)
    ensures ((u ^ v) & 1 == 1) == ((u & 1 == 1) != (v & 1 == 1))
  {
  }

  // ---------- Linearity ----------

  lemma SelectXor(p: bool, q: bool, g: seq<bool>)
    ensures Select(p != q, g) == Xor(Select(p, g), Select(q, g))
  {
    XorZeros(g);
    XorZeros(Zeros(|g|));
  }

  lemma {:induction false} ReductionXor(a: seq<bool>, b: seq<bool>, generators: seq<seq<bool>>)
    requires |a| == |b| == |generators| && forall g :: g in generators ==> |g| == 40
    ensures Reduction(Xor(a, b), generators) == Xor(Reduction(a, generators), Reduction(b, generators))
    decreases |a|
  {
    if a == [] {
      XorZeros(Zeros(40));
    } else {
      var n := |a| - 1;
      var g, rest := generators[0], generators[1..];
      assert Xor(a, b)[..n] == Xor(a[..n], b[..n]);
      ReductionXor(a[..n], b[..n], rest);
      SelectXor(a[n], b[n], g);
      XorJoin(Select(a[n], g), Select(b[n], g), Reduction(a[..n], rest), Reduction(b[..n], rest));
    }
  }

  lemma ShiftedXor(a: seq<bool>, b: seq<bool>, u: Byte, v: Byte)
    requires |a| == |b| == 40
    ensures Shifted(Xor(a, b), u ^ v) == Xor(Shifted(a, u), Shifted(b, v))
  {
    XorSlices(a, b);
    GroupXor(u, v, 8);
    PaddedXor(Group(u, 8), Group(v, 8));
    XorJoin(a[5..] + Zeros(5), b[5..] + Zeros(5), Zeros(32) + Group(u, 8), Zeros(32) + Group(v, 8));
  }

  lemma PaddedXor(a: seq<bool>, b: seq<bool>)
    requires |a| == |b|
    ensures Zeros(32) + Xor(a, b) == Xor(Zeros(32) + a, Zeros(32) + b)
  {
  }

  lemma StepXor(a: seq<bool>, b: seq<bool>, u: Byte, v: Byte)
    requires |a| == |b| == 40
    ensures Step(Xor(a, b), u ^ v) == Xor(Step(a, u), Step(b, v))
  {
    ShiftedXor(a, b, u, v);
    XorSlices(a, b);
    ReductionXor(a[..5], b[..5], Generator());
    XorJoin(Shifted(a, u), Shifted(b, v), Reduction(a[..5], Generator()), Reduction(b[..5], Generator()));
  }

  function XorSymbols(u: seq<Byte>, v: seq<Byte>): (r: seq<Byte>)
    requires |u| == |v|
    ensures |r| == |u|
  {
    seq(|u|, i requires 0 <= i < |u| => u[i] ^ v[i])
  }

  lemma XorSymbolsTail(u: seq<Byte>, v: seq<Byte>)
    requires |u| == |v| > 0
    ensures XorSymbols(u, v)[0] == u[0] ^ v[0] && XorSymbols(u, v)[1..] == XorSymbols(u[1..], v[1..])
  {
  }

  /** The register is linear over exclusive or, jointly in its start and its symbols. */
  lemma {:induction false} RunXor(a: seq<bool>, b: seq<bool>, u: seq<Byte>, v: seq<Byte>)
    requires |a| == |b| == 40 && |u| == |v|
    ensures Run(Xor(a, b), XorSymbols(u, v)) == Xor(Run(a, u), Run(b, v))
    decreases |u|
  {
    if u != [] {
      XorSymbolsTail(u, v);
      StepXor(a, b, u[0], v[0]);
      RunXor(Step(a, u[0]), Step(b, v[0]), u[1..], v[1..]);
    }
  }

  lemma {:induction false} RunConcat(c: seq<bool>, u: seq<Byte>, v: seq<Byte>)
    requires |c| == 40
    ensures Run(c, u + v) == Run(Run(c, u), v)
    decreases |u|
  {
    if u == [] {
      EmptyHead(v, u);
    } else {
      ConsConcat(u, v);
      RunConcat(Step(c, u[0]), u[1..], v);
    }
  }

  lemma ConsConcat<T>(u: seq<T>, v: seq<T>)
    requires u != []
    ensures (u + v)[0] == u[0] && (u + v)[1..] == u[1..] + v
  {
  }

  // ---------- No reduction, and injectivity ----------

  /** Binary digit number `j` of `n`. */
  predicate Digit(n: nat, j: nat)
    decreases j
  {
    if j == 0 then n % 2 == 1 else Digit(n / 2, j - 1)
  }

  lemma {:induction false} BinaryDigit(n: nat, w: nat, j: nat)
    requires j < w
    ensures Binary(n, w)[w - 1 - j] == Digit(n, j)
    decreases j
  {
    if j > 0 { BinaryDigit(n / 2, w - 1, j - 1); }
  }

  lemma LowBits0()
    ensures Digit(0x98f2bc8e61, 0) && !Digit(0x98f2bc8e61, 1) && !Digit(0x98f2bc8e61, 2)
    ensures !Digit(0x98f2bc8e61, 3) && !Digit(0x98f2bc8e61, 4)
  {
  }

  lemma LowBits1()
    ensures !Digit(0x79b76d99e2, 0) && Digit(0x79b76d99e2, 1) && !Digit(0x79b76d99e2, 2)
    ensures !Digit(0x79b76d99e2, 3) && !Digit(0x79b76d99e2, 4)
  {
  }

  lemma LowBits2()
    ensures !Digit(0xf33e5fb3c4, 0) && !Digit(0xf33e5fb3c4, 1) && Digit(0xf33e5fb3c4, 2)
    ensures !Digit(0xf33e5fb3c4, 3) && !Digit(0xf33e5fb3c4, 4)
  {
  }

  lemma LowBits3()
    ensures !Digit(0xae2eabe2a8, 0) && !Digit(0xae2eabe2a8, 1) && !Digit(0xae2eabe2a8, 2)
    ensures Digit(0xae2eabe2a8, 3) && !Digit(0xae2eabe2a8, 4)
  {
  }

  lemma LowBits4()
    ensures !Digit(0x1e4f43e470, 0) && !Digit(0x1e4f43e470, 1) && !Digit(0x1e4f43e470, 2)
    ensures !Digit(0x1e4f43e470, 3) && Digit(0x1e4f43e470, 4)
  {
  }

  /** The low five bits of the generators are 1, 2, 4, 8 and 16. */
  lemma GeneratorLowBits(i: nat, j: nat)
    requires i < 5 && j < 5
    ensures Generator()[i][39 - j] == (i == j)
  {
    BinaryDigit(GENERATOR[i], 40, j);
    GeneratorDigit(i, j);
  }

  lemma GeneratorDigit(i: nat, j: nat)
    requires i < 5 && j < 5
    ensures Digit(GENERATOR[i], j) == (i == j)
  {
    if i == 0 { LowBits0(); } else if i == 1 { LowBits1(); } else if i == 2 { LowBits2(); }
    else if i == 3 { LowBits3(); } else { LowBits4(); }
  }

  /** The low bit number `j` of a reduction by the generators from `i` on. */
  lemma {:induction false} ReductionLowBit(top: seq<bool>, i: nat, j: nat)
    requires i <= 5 && j < 5 && |top| == 5 - i
    ensures Reduction(top, Generator()[i..])[39 - j] == (i <= j && top[4 - j])
    decreases |top|
  {
    hide Generator, Binary;
    if top != [] {
      var n := |top| - 1;
      assert Generator()[i..][1..] == Generator()[i + 1..];
      ReductionLowBit(top[..n], i + 1, j);
      GeneratorLowBits(i, j);
    }
  }

  /** A reduction shows its top bits as its low bits. */
  lemma ReductionShowsTop(top: seq<bool>)
    requires |top| == 5
    ensures Reduction(top, Generator())[35..] == top
  {
    CutAt(Generator(), 0);
    EmptyHead(Generator()[0..], Generator()[..0]);
    forall k | 0 <= k < 5 ensures Reduction(top, Generator())[35..][k] == top[k] {
      ReductionLowBit(top, 0, 4 - k);
    }
  }

  lemma {:induction false} ReductionZero(k: nat, generators: seq<seq<bool>>)
    requires k == |generators| && forall g :: g in generators ==> |g| == 40
    ensures Reduction(Zeros(k), generators) == Zeros(40)
    decreases k
  {
    if k > 0 {
      assert Zeros(k)[..k - 1] == Zeros(k - 1);
      ReductionZero(k - 1, generators[1..]);
      XorZeros(Zeros(40));
    }
  }

  lemma {:induction false} GroupZero(w: nat)
    ensures Group(0, w) == Zeros(w)
  {
    if w > 0 { GroupZero(w - 1); }
  }

  /** A zero symbol never brings a nonzero register to zero. */
  lemma StepZeroInjective(c: seq<bool>)
    requires |c| == 40 && Step(c, 0) == Zeros(40)
    ensures c == Zeros(40)
  {
    var shifted, red := Shifted(c, 0), Reduction(c[..5], Generator());
    GroupZero(8);
    ZerosConcat(32, 8);
    XorZeros(c[5..] + Zeros(5));
    assert shifted == c[5..] + Zeros(5);
    XorEqual(shifted, red);
    ReductionShowsTop(c[..5]);
    assert shifted[35..] == Zeros(5);
    ReductionZero(5, Generator());
    PrefixOf(c[5..], Zeros(5));
    CutAt(c, 5);
    ZerosConcat(35, 5);
    ZerosConcat(5, 35);
  }

  lemma {:induction false} RunZerosInjective(c: seq<bool>, n: nat)
    requires |c| == 40 && Run(c, ZeroSymbols(n)) == Zeros(40)
    ensures c == Zeros(40)
    decreases n
  {
    if n > 0 {
      assert ZeroSymbols(n)[0] == 0 && ZeroSymbols(n)[1..] == ZeroSymbols(n - 1);
      RunZerosInjective(Step(c, 0), n - 1);
      StepZeroInjective(c);
    }
  }

  /** A register whose top bits are zero only takes the symbol in. */
  lemma StepNoReduction(c: seq<bool>, v: Byte)
    requires |c| == 40 && c[..5] == Zeros(5) && Fits(v, 5)
    ensures Step(c, v) == c[5..] + Group(v, 5)
  {
    ReductionZero(5, Generator());
    XorZeros(Shifted(c, v));
    SmallGroup(v);
    ZerosConcat(32, 3);
    Assoc(Zeros(32), Zeros(3), Group(v, 5));
    ShiftedNoOverlap(c[5..], Group(v, 5));
  }

  lemma ShiftedNoOverlap(a: seq<bool>, b: seq<bool>)
    requires |a| == 35 && |b| == 5
    ensures Xor(a + Zeros(5), Zeros(35) + b) == a + b
  {
  }

  lemma SmallGroup(v: Byte)
    requires Fits(v, 5)
    ensures Group(v, 8) == Zeros(3) + Group(v, 5)
  {
    GroupSplit(v, 3, 5);
    FitsMeansBelow(v, 5);
    GroupZero(3);
  }

  lemma {:induction false} GroupSplit(v: Byte, k: nat, w: nat)
    ensures Group(v, k + w) == Group(Shr(v, w), k) + Group(v, w)
    decreases w
  {
    if w == 0 {
      EmptyTail(Group(v, k), Group(v, 0));
    } else {
      GroupSplit(v >> 1, k, w - 1);
      ShrFront(v, w);
      Assoc(Group(Shr(v, w), k), Group(v >> 1, w - 1), [v & 1 == 1]);
    }
  }

  lemma {:induction false} ShrFront(v: Byte, w: nat)
    requires w > 0
    ensures Shr(v >> 1, w - 1) == Shr(v, w)
    decreases w
  {
    if w > 1 { ShrFront(v, w - 1); }
  }

  /** While the register has room, running symbols through it only appends their bits. */
  lemma RunAppends(c: seq<bool>, es: seq<Byte>)
    requires |c| == 40 && |es| <= 8 && AllFit(es, 5) && c[..5 * |es|] == Zeros(5 * |es|)
    ensures Run(c, es) == c[5 * |es|..] + Stream(es, 5)
  {
    RunAppendsBits(c, es, 5 * |es|);
  }

  lemma {:induction false} RunAppendsBits(c: seq<bool>, es: seq<Byte>, m: nat)
    requires |c| == 40 && m == 5 * |es| <= 40 && AllFit(es, 5) && c[..m] == Zeros(m)
    ensures Run(c, es) == c[m..] + Stream(es, 5)
    decreases |es|
  {
    if es == [] {
      EmptyTail(c, Stream(es, 5));
    } else {
      hide Step, Run, Group, Stream, Zeros, AllFit;
      var v, tail := es[0], es[1..];
      RunFirst(c, es);
      FirstFits(es);
      ZeroHead(c, m);
      StepNoReduction(c, v);
      SliceConcat(c, Group(v, 5), m);
      SliceFits(es, 1, |es|, 5);
      RunAppendsBits(Step(c, v), tail, m - 5);
      StreamPrepend(v, tail, 5);
      HeadTail(es);
      Assoc(c[m..], Group(v, 5), Stream(tail, 5));
    }
  }

  lemma RunFirst(c: seq<bool>, es: seq<Byte>)
    requires |c| == 40 && es != []
    ensures Run(c, es) == Run(Step(c, es[0]), es[1..])
  {
  }

  lemma FirstFits(es: seq<Byte>)
    requires es != [] && AllFit(es, 5)
    ensures Fits(es[0], 5)
  {
  }

  lemma HeadTail<T>(s: seq<T>)
    requires s != []
    ensures s == [s[0]] + s[1..]
  {
  }

  lemma ZeroHead(c: seq<bool>, m: nat)
    requires 5 <= m <= |c| && c[..m] == Zeros(m)
    ensures c[..5] == Zeros(5) && c[5..m] == Zeros(m - 5)
  {
    ZerosConcat(5, m - 5);
    assert c[..5] == c[..m][..5] && c[5..m] == c[..m][5..];
  }

  lemma SliceConcat(c: seq<bool>, g: seq<bool>, m: nat)
    requires |c| == 40 && |g| == 5 && 5 <= m <= 40
    ensures (c[5..] + g)[..m - 5] == c[5..m] && (c[5..] + g)[m - 5..] == c[m..] + g
  {
  }

  // ---------- Completeness and uniqueness of the checksum ----------

  /** The last eight symbols enter the register by exclusive or. */
  lemma RunLastSymbols(x: seq<bool>, cs: seq<Byte>)
    requires |x| == 40 && |cs| == 8 && AllFit(cs, 5)
    ensures |Stream(cs, 5)| == 40
    ensures Run(x, cs) == Xor(Run(x, ZeroSymbols(8)), Stream(cs, 5))
  {
    XorZeros(x);
    XorWithZeroSymbols(cs);
    RunXor(x, Zeros(40), ZeroSymbols(8), cs);
    RunFromZero(cs);
  }

  lemma RunFromZero(cs: seq<Byte>)
    requires |cs| == 8 && AllFit(cs, 5)
    ensures |Stream(cs, 5)| == 40 && Run(Zeros(40), cs) == Stream(cs, 5)
  {
    StreamLength(cs, 5);
    TakeAll(Zeros(40));
    RunAppends(Zeros(40), cs);
    EmptyHead(Stream(cs, 5), Zeros(40)[40..]);
  }

  lemma XorWithZeroSymbols(cs: seq<Byte>)
    ensures XorSymbols(ZeroSymbols(|cs|), cs) == cs
  {
    forall i | 0 <= i < |cs| ensures XorSymbols(ZeroSymbols(|cs|), cs)[i] == cs[i] { ByteXor(cs[i], 0); }
  }

  lemma ByteXor(a: Byte, b: Byte)
    ensures 0 ^ a == a
    ensures a ^ b == 0 <==> a == b
  {
  }

  lemma SymbolsStream(bits: seq<bool>)
    requires |bits| == 40
    ensures |Symbols(bits)| == 8 && AllFit(Symbols(bits), 5) && Stream(Symbols(bits), 5) == bits
  {
    PackMeaning(bits, 5, false);
    StreamLength(Symbols(bits), 5);
    TakeAll(bits);
  }

  /** Eight symbols verify after a payload exactly when they are its calculated checksum. */
  lemma VerifyIffCalculated(prefix: string, payload: seq<Byte>, cs: seq<Byte>)
    requires |cs| == 8 && AllFit(cs, 5)
    ensures VerifyChecksum(prefix, payload + cs) <==> cs == CalculateChecksum(prefix, payload)
  {
    var head := PrefixSymbols(prefix) + [0];
    var data := head + payload;
    assert head + (payload + cs) == data + cs;
    var x := Run(One(), data);
    var r0 := Run(x, ZeroSymbols(8));
    RunConcat(One(), data, ZeroSymbols(8));
    RunConcat(One(), data, cs);
    RunLastSymbols(x, cs);
    var r := Xor(r0, One());
    XorSwap(r0, Stream(cs, 5), One());
    XorEqual(r, Stream(cs, 5));
    SymbolsStream(r);
    if Stream(cs, 5) == r {
      StreamInjective(cs, Symbols(r), 5);
    }
  }

  lemma XorSwap(a: seq<bool>, b: seq<bool>, c: seq<bool>)
    requires |a| == |b| == |c|
    ensures Xor(Xor(a, b), c) == Xor(Xor(a, c), b)
  {
  }

  // ---------- Burst detection ----------

  /** `u` and `v` differ at most in eight consecutive places, from `k` on. */
  ghost predicate DifferInBurst(u: seq<Byte>, v: seq<Byte>, k: nat) {
    |u| == |v| && forall i :: 0 <= i < |u| && !(k <= i < k + 8) ==> u[i] == v[i]
  }

  /** Two different symbol sequences of any length that differ only in eight consecutive places
      have different remainders. */
  lemma BurstChangesRemainder(u: seq<Byte>, v: seq<Byte>, k: nat)
    requires AllFit(u, 5) && AllFit(v, 5) && DifferInBurst(u, v, k) && u != v
    ensures PolyMod(u) != PolyMod(v)
  {
    hide Run, One, Zeros;
    if PolyMod(u) == PolyMod(v) {
      var d := XorSymbols(u, v);
      XorCancel(Run(One(), u), Run(One(), v), One());
      XorEqual(Run(One(), u), Run(One(), v));
      XorEqual(One(), One());
      RunXor(One(), One(), u, v);
      var lo := if k <= |u| then k else |u|;
      var hi := if lo + 8 <= |u| then lo + 8 else |u|;
      ZeroOutside(u, v, k, lo, hi);
      XorFits(u, v);
      BurstVanishes(d, lo, hi);
      SymbolsEqual(u, v);
    }
  }

  lemma XorCancel(a: seq<bool>, b: seq<bool>, c: seq<bool>)
    requires |a| == |b| == |c| && Xor(a, c) == Xor(b, c)
    ensures a == b
  {
    forall i | 0 <= i < |a| ensures a[i] == b[i] { assert Xor(a, c)[i] == Xor(b, c)[i]; }
  }

  lemma ZeroOutside(u: seq<Byte>, v: seq<Byte>, k: nat, lo: nat, hi: nat)
    requires DifferInBurst(u, v, k) && lo <= hi <= |u|
    requires (lo == k || lo == |u| <= k) && (hi == lo + 8 || hi == |u|)
    ensures XorSymbols(u, v)[..lo] == ZeroSymbols(lo)
    ensures XorSymbols(u, v)[hi..] == ZeroSymbols(|u| - hi)
  {
    var d := XorSymbols(u, v);
    forall i | 0 <= i < lo ensures d[..lo][i] == 0 { ByteXor(u[i], v[i]); }
    forall i | hi <= i < |u| ensures d[i] == 0 { ByteXor(u[i], v[i]); }
    forall i | 0 <= i < |u| - hi ensures d[hi..][i] == 0 { assert d[hi..][i] == d[hi + i]; }
  }

  lemma XorFits(u: seq<Byte>, v: seq<Byte>)
    requires |u| == |v| && AllFit(u, 5) && AllFit(v, 5)
    ensures AllFit(XorSymbols(u, v), 5)
  {
    forall i | 0 <= i < |u| ensures Fits(u[i] ^ v[i], 5) { SmallXor(u[i], v[i]); }
  }

  lemma SmallXor(a: Byte, b: Byte)
    requires Fits(a, 5) && Fits(b, 5)
    ensures Fits(a ^ b, 5)
  {
    FitsTable(a);
    FitsTable(b);
    FitsTable(a ^ b);
    SmallXorBound(a, b);
  }

  lemma SmallXorBound(a: Byte, b: Byte)
    requires a < 32 && b < 32
    ensures a ^ b < 32
  {
  }

  lemma SymbolsEqual(u: seq<Byte>, v: seq<Byte>)
    requires |u| == |v| && XorSymbols(u, v) == ZeroSymbols(|u|)
    ensures u == v
  {
    forall i | 0 <= i < |u| ensures u[i] == v[i] {
      assert XorSymbols(u, v)[i] == ZeroSymbols(|u|)[i];
      ByteXor(u[i], v[i]);
    }
  }

  /** A difference confined to at most eight places that leaves the register at zero is no difference. */
  lemma BurstVanishes(d: seq<Byte>, lo: nat, hi: nat)
    requires lo <= hi <= |d| && hi <= lo + 8 && AllFit(d, 5)
    requires d[..lo] == ZeroSymbols(lo) && d[hi..] == ZeroSymbols(|d| - hi)
    requires Run(Zeros(40), d) == Zeros(40)
    ensures d == ZeroSymbols(|d|)
  {
    var mid := d[lo..hi];
    CutThree(d, lo, hi);
    MiddleAlone(d[..lo], mid, d[hi..]);
    SliceFits(d, lo, hi, 5);
    MiddleVanishes(mid);
    assert |mid| == hi - lo;
    ThreeZeros(d, lo, hi);
  }

  lemma SliceFits(d: seq<Byte>, lo: nat, hi: nat, w: nat)
    requires lo <= hi <= |d| && AllFit(d, w)
    ensures AllFit(d[lo..hi], w)
  {
  }

  lemma MiddleAlone(a: seq<Byte>, mid: seq<Byte>, b: seq<Byte>)
    requires a == ZeroSymbols(|a|) && b == ZeroSymbols(|b|) && Run(Zeros(40), a + (mid + b)) == Zeros(40)
    ensures Run(Zeros(40), mid) == Zeros(40)
  {
    RunConcat(Zeros(40), a, mid + b);
    RunZero(|a|);
    RunConcat(Zeros(40), mid, b);
    RunZerosInjective(Run(Zeros(40), mid), |b|);
  }

  lemma ThreeZeros(d: seq<Byte>, lo: nat, hi: nat)
    requires lo <= hi <= |d| && d[..lo] == ZeroSymbols(lo) && d[lo..hi] == ZeroSymbols(hi - lo)
    requires d[hi..] == ZeroSymbols(|d| - hi)
    ensures d == ZeroSymbols(|d|)
  {
    forall i | 0 <= i < |d| ensures d[i] == 0 {
      if i < lo {
        assert d[i] == d[..lo][i];
      } else if i < hi {
        assert d[i] == d[lo..hi][i - lo];
      } else {
        assert d[i] == d[hi..][i - hi];
      }
    }
  }

  lemma CutThree<T>(d: seq<T>, lo: nat, hi: nat)
    requires lo <= hi <= |d|
    ensures d == d[..lo] + (d[lo..hi] + d[hi..])
  {
  }

  lemma {:induction false} RunZero(n: nat)
    ensures Run(Zeros(40), ZeroSymbols(n)) == Zeros(40)
    decreases n
  {
    if n > 0 {
      assert ZeroSymbols(n)[0] == 0 && ZeroSymbols(n)[1..] == ZeroSymbols(n - 1);
      ZerosConcat(5, 35);
      FitsTable(0);
      StepNoReduction(Zeros(40), 0);
      GroupZero(5);
      ZerosConcat(35, 5);
      RunZero(n - 1);
    }
  }

  lemma MiddleVanishes(mid: seq<Byte>)
    requires |mid| <= 8 && AllFit(mid, 5) && Run(Zeros(40), mid) == Zeros(40)
    ensures mid == ZeroSymbols(|mid|)
  {
    var m := 5 * |mid|;
    ZerosConcat(m, 40 - m);
    RunAppends(Zeros(40), mid);
    StreamLength(mid, 5);
    ZerosConcat(40 - m, m);
    SplitTail(Zeros(40)[m..], Stream(mid, 5), Zeros(40 - m), Zeros(m));
    ZeroSymbolsStream(|mid|);
    ZeroSymbolsFit(|mid|);
    StreamInjective(mid, ZeroSymbols(|mid|), 5);
  }

  lemma ZeroSymbolsFit(n: nat)
    ensures AllFit(ZeroSymbols(n), 5)
  {
    FitsTable(0);
  }

  lemma {:induction false} ZeroSymbolsStream(n: nat)
    ensures Stream(ZeroSymbols(n), 5) == Zeros(5 * n)
  {
    if n > 0 {
      assert ZeroSymbols(n)[..n - 1] == ZeroSymbols(n - 1);
      ZeroSymbolsStream(n - 1);
      GroupZero(5);
      ZerosConcat(5 * (n - 1), 5);
    }
  }

  /** Of two different data parts under one prefix that differ only in eight consecutive symbols, at
      most one passes the verification, at any length. */
  lemma BurstDetected(prefix: string, a: seq<Byte>, b: seq<Byte>, k: nat)
    requires AllFit(a, 5) && AllFit(b, 5) && DifferInBurst(a, b, k) && a != b
    ensures !(VerifyChecksum(prefix, a) && VerifyChecksum(prefix, b))
  {
    var head := PrefixSymbols(prefix) + [0];
    PrefixSymbolsFit(prefix);
    assert (head + a)[|head|..] == a && (head + b)[|head|..] == b;
    BurstChangesRemainder(head + a, head + b, |head| + k);
  }

  lemma PrefixSymbolsFit(prefix: string)
    ensures AllFit(PrefixSymbols(prefix) + [0], 5)
  {
    forall i | 0 <= i < |prefix| ensures Fits(PrefixSymbols(prefix)[i], 5) {
      SmallByte((prefix[i] as int) % 32);
    }
    FitsTable(0);
  }

  lemma SmallByte(n: nat)
    requires n < 32
    ensures Fits(n as bv8, 5)
  {
    FitsTable(n as bv8);
    BelowAsByte(n);
  }

  lemma BelowAsByte(n: nat)
    requires n < 32
    ensures n as bv8 < 32 && (n as bv8) as int == n
  {
  }

  // ---------- What the prefix contributes ----------

  /** What is summed: the low five bits of every character of the prefix, a zero, and the data. */
  ghost predicate Spells(u: seq<Byte>, prefix: string, data: seq<Byte>) {
    && |u| == |prefix| + 1 + |data|
    && (forall i :: 0 <= i < |prefix| ==> u[i] as int == (prefix[i] as int) % 32)
    && u[|prefix|] == 0 && u[|prefix| + 1..] == data
  }

  lemma ByteOf(b: Byte, n: nat)
    requires n < 32 && b as int == n
    ensures b == n as bv8
  {
  }

  lemma SpellsPrefix(u: seq<Byte>, prefix: string, data: seq<Byte>)
    requires Spells(u, prefix, data)
    ensures u == PrefixSymbols(prefix) + [0] + data
  {
    var n := |prefix|;
    forall i | 0 <= i < n ensures u[i] == PrefixSymbols(prefix)[i] { ByteOf(u[i], (prefix[i] as int) % 32); }
    assert u[..n] == PrefixSymbols(prefix);
    assert u == u[..n] + [u[n]] + u[n + 1..];
  }

  /** A data part verifies under a prefix if and only if the remainder of the two together is zero. */
  lemma VerifyIffRemainder(u: seq<Byte>, prefix: string, data: seq<Byte>)
    requires Spells(u, prefix, data)
    ensures VerifyChecksum(prefix, data) <==> PolyMod(u) == Zeros(40)
  {
    SpellsPrefix(u, prefix, data);
  }

  /** While it fits in 39 bits the remainder is a one followed by the symbols, with its lowest bit turned over. */
  lemma ShortRemainder(es: seq<Byte>)
    requires |es| <= 7 && AllFit(es, 5)
    ensures |Stream(es, 5)| == 5 * |es|
    ensures PolyMod(es) == Xor(Zeros(39 - 5 * |es|) + [true] + Stream(es, 5), Zeros(39) + [true])
  {
    hide Run, Zeros, Xor, Stream, One;
    StreamLength(es, 5);
    OneSplits(5 * |es|);
    RunAppends(One(), es);
  }

  lemma OneSplits(m: nat)
    requires m <= 39
    ensures One() == Zeros(39) + [true] && One()[..m] == Zeros(m) && One()[m..] == Zeros(39 - m) + [true]
  {
  }

  /**
    Of two data parts under two prefixes of the same length that differ, as they are summed, only in
    eight consecutive places, at most one passes the verification.
  */
  lemma PrefixBurstDetected(p: string, a: seq<Byte>, u: seq<Byte>, q: string, b: seq<Byte>, v: seq<Byte>, k: nat)
    requires Spells(u, p, a) && Spells(v, q, b) && AllFit(a, 5) && AllFit(b, 5)
    requires DifferInBurst(u, v, k) && u != v
    ensures !(VerifyChecksum(p, a) && VerifyChecksum(q, b))
  {
    SpellsPrefix(u, p, a);
    SpellsPrefix(v, q, b);
    PrefixSymbolsFit(p);
    PrefixSymbolsFit(q);
    BurstChangesRemainder(u, v, k);
  }

  /** Two prefixes that differ in the low five bits of one character never verify over the same data. */
  lemma PrefixMatters(p: string, q: string, data: seq<Byte>, j: nat)
    requires |p| == |q| && j < |p| && (p[j] as int) % 32 != (q[j] as int) % 32 && AllFit(data, 5)
    requires forall i :: 0 <= i < |p| && i != j ==> (p[i] as int) % 32 == (q[i] as int) % 32
    ensures !(VerifyChecksum(p, data) && VerifyChecksum(q, data))
  {
    var u, v := PrefixSymbols(p) + [0] + data, PrefixSymbols(q) + [0] + data;
    PrefixSpelled(p, data);
    PrefixSpelled(q, data);
    assert u[j] as int != v[j] as int;
    forall i | 0 <= i < |u| && !(j <= i < j + 8) ensures u[i] == v[i] { }
    PrefixBurstDetected(p, data, u, q, data, v, j);
  }

  lemma PrefixSpelled(prefix: string, data: seq<Byte>)
    ensures Spells(PrefixSymbols(prefix) + [0] + data, prefix, data)
  {
    forall i | 0 <= i < |prefix| ensures PrefixSymbols(prefix)[i] as int == (prefix[i] as int) % 32 {
      BelowAsByte((prefix[i] as int) % 32);
    }
    assert (PrefixSymbols(prefix) + [0] + data)[|prefix| + 1..] == data;
  }

  // ---------- The source's loops ----------

  /** `polyMod` as the source computes it: one register, shifted and reduced in place. */
  method ComputePolyMod(values: seq<Byte>) returns (checksum: seq<bool>)
    ensures checksum == PolyMod(values)
  {
    checksum := One();
    for n := 0 to |values|
      invariant |checksum| == 40 && Run(checksum, values[n..]) == Run(One(), values)
    {
      DropStep(values, n);
      var topBits := checksum[..5];
      checksum := Shifted(checksum, values[n]);
      checksum := ReduceRegister(checksum, topBits, Generator());
    }
    checksum := Xor(checksum, One());
  }

  /** The inner loop of `polyMod`, over the generators. */
  method ReduceRegister(register: seq<bool>, topBits: seq<bool>, generators: seq<seq<bool>>) returns (checksum: seq<bool>)
    requires |register| == 40 && |topBits| == |generators| == 5 && forall g :: g in generators ==> |g| == 40
    ensures checksum == Xor(register, Reduction(topBits, generators))
  {
    checksum := register;
    ghost var target := Xor(register, Reduction(topBits, generators));
    TakeAll(topBits);
    DropNone(generators);
    for i := 0 to 5
      invariant |checksum| == 40 && Reducing(checksum, topBits, generators, i, target)
    {
      ReduceStep(checksum, topBits, generators, i, target);
      if topBits[4 - i] {
        checksum := Xor(checksum, generators[i]);
      }
    }
    XorZeros(checksum);
  }

  lemma DropNone<T>(s: seq<T>)
    ensures s[0..] == s
  {
  }

  /** What the generators from `i` on still have to add to `c` makes it `target`. */
  ghost predicate Reducing(c: seq<bool>, top: seq<bool>, generators: seq<seq<bool>>, i: nat, target: seq<bool>)
    requires |c| == 40 && |top| == |generators| == 5 && i <= 5 && forall g :: g in generators ==> |g| == 40
  {
    Xor(c, Reduction(top[..5 - i], generators[i..])) == target
  }

  lemma ReduceStep(c: seq<bool>, top: seq<bool>, generators: seq<seq<bool>>, i: nat, target: seq<bool>)
    requires |c| == 40 && |top| == |generators| == 5 && i < 5 && forall g :: g in generators ==> |g| == 40
    requires Reducing(c, top, generators, i, target)
    ensures Reducing(if top[4 - i] then Xor(c, generators[i]) else c, top, generators, i + 1, target)
  {
    hide Xor;
    assert top[..5 - i][..4 - i] == top[..4 - i];
    DropStep(generators, i);
    XorAssoc(c, Select(top[4 - i], generators[i]), Reduction(top[..4 - i], generators[i + 1..]));
    XorZeros(c);
  }

  lemma DropStep<T>(s: seq<T>, i: nat)
    requires i < |s|
    ensures s[i..][0] == s[i] && s[i..][1..] == s[i + 1..]
  {
  }

  /** `calculateChecksum`: cut the remainder of the data followed by eight zero symbols into symbols. */
  method ComputeChecksum(prefix: string, payload: seq<Byte>) returns (res: seq<Byte>)
    ensures res == CalculateChecksum(prefix, payload)
  {
    var polyModResult := ComputePolyMod(PrefixSymbols(prefix) + [0] + payload + ZeroSymbols(8));
    res := [];
    for i := 0 to 8
      invariant |polyModResult| == 40
      invariant res + Pack(polyModResult[5 * i..], 5, false) == Symbols(polyModResult)
    {
      var rest := polyModResult[5 * i..];
      DropMore(polyModResult, 5 * i, 5);
      Regrouping(res, Value(rest[..5]), Pack(rest[5..], 5, false));
      res := res + [Value(rest[..5])];
    }
    EmptyTail(res, Pack(polyModResult[40..], 5, false));
  }

  lemma DropMore<T>(s: seq<T>, i: nat, k: nat)
    requires i + k <= |s|
    ensures s[i..][k..] == s[i + k..]
  {
  }

  lemma Regrouping<T>(s: seq<T>, x: T, t: seq<T>)
    ensures s + ([x] + t) == (s + [x]) + t
  {
  }

  /** `verifyChecksum`. */
  method ComputeVerify(prefix: string, payload: seq<Byte>) returns (valid: bool)
    ensures valid == VerifyChecksum(prefix, payload)
  {
    var remainder := ComputePolyMod(PrefixSymbols(prefix) + [0] + payload);
    valid := remainder == Zeros(40);
  }
}
