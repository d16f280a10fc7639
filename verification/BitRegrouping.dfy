/**
  Regrouping of bytes into groups of another width (`convertBits` in util/bech32/bech32.go).

  A byte of width `w` stands for its `w` low bits, most significant first. The reference
  meaning of a regrouping is on the bit stream: concatenate the bits of all input bytes, then
  cut the stream into groups of the target width. The method `ConvertBits` works with shifts
  on single bytes, as the source does.
*/
module BitRegrouping {
  import opened Basics

  type Byte = bv8

  /** `b << k` and `b >> k` for a variable `k`, one bit at a time. */
  function Shl(b: Byte, k: nat): Byte
    decreases k
  {
    if k == 0 then b else Shl(b, k - 1) << 1
  }

  function Shr(b: Byte, k: nat): Byte
    decreases k
  {
    if k == 0 then b else Shr(b, k - 1) >> 1
  }

  /** The `w` low bits of `b`, most significant first. */
  function Group(b: Byte, w: nat): (bits: seq<bool>)
    ensures |bits| == w
    decreases w
  {
    if w == 0 then [] else Group(b >> 1, w - 1) + [b & 1 == 1]
  }

  /** The `w` high bits of `b`, most significant first. */
  function High(b: Byte, w: nat): (bits: seq<bool>)
    ensures |bits| == w
    decreases w
  {
    if w == 0 then [] else [b & 0x80 == 0x80] + High(b << 1, w - 1)
  }

  /** `b < 2^w`, said bit by bit. */
  predicate Fits(b: Byte, w: nat)
    decreases w
  {
    if w == 0 then b == 0 else Fits(b >> 1, w - 1)
  }

  predicate AllFit(data: seq<Byte>, w: nat) {
    forall i :: 0 <= i < |data| ==> Fits(data[i], w)
  }

  /** The bits of a sequence of bytes of width `w`. */
  function Stream(data: seq<Byte>, w: nat): seq<bool> {
    if data == [] then [] else Stream(data[..|data| - 1], w) + Group(data[|data| - 1], w)
  }

  function Zeros(n: nat): (bits: seq<bool>)
    ensures |bits| == n
  {
    seq(n, _ => false)
  }

  /** The byte whose low bits are `bits`. */
  function Value(bits: seq<bool>): Byte {
    if bits == [] then 0
    else (Value(bits[..|bits| - 1]) << 1) | (if bits[|bits| - 1] then 1 else 0)
  }

  /** Cut a bit stream into groups of width `w`; a last partial group is padded or dropped. */
  function Pack(bits: seq<bool>, w: nat, pad: bool): seq<Byte>
    requires 0 < w <= 8
    decreases |bits|
  {
    if |bits| >= w then [Value(bits[..w])] + Pack(bits[w..], w, pad)
    else if pad && bits != [] then [Value(bits + Zeros(w - |bits|))]
    else []
  }

  /** Reference meaning of `convertBits`. */
  function Regrouped(data: seq<Byte>, fromBits: nat, toBits: nat, pad: bool): seq<Byte>
    requires 0 < toBits <= 8
  {
    Pack(Stream(data, fromBits), toBits, pad)
  }

  // ---------- Bits of a single byte ----------

  lemma {:induction false} ShiftTable(b: Byte)
    ensures Shl(b, 0) == b && Shl(b, 1) == b << 1 && Shl(b, 2) == b << 2 && Shl(b, 3) == b << 3
    ensures Shl(b, 4) == b << 4 && Shl(b, 5) == b << 5 && Shl(b, 6) == b << 6 && Shl(b, 7) == b << 7
    ensures Shl(b, 8) == 0
    ensures Shr(b, 0) == b && Shr(b, 1) == b >> 1 && Shr(b, 2) == b >> 2 && Shr(b, 3) == b >> 3
    ensures Shr(b, 4) == b >> 4 && Shr(b, 5) == b >> 5 && Shr(b, 6) == b >> 6 && Shr(b, 7) == b >> 7
    ensures Shr(b, 8) == 0
  {
  }

  lemma {:induction false} FitsMeansBelow(b: Byte, w: nat)
    requires w <= 8
    ensures Fits(b, w) <==> Shr(b, w) == 0
  {
    if w > 0 {
      FitsMeansBelow(b >> 1, w - 1);
      ShiftTable(b);
      ShiftTable(b >> 1);
      if w == 1 {} else if w == 2 {} else if w == 3 {} else if w == 4 {}
      else if w == 5 {} else if w == 6 {} else if w == 7 {} else { assert w == 8; }
    }
  }

  lemma {:induction false} FitsSeven(b: Byte, w: nat)
    requires w < 8 && Fits(b, w)
    ensures b >> 7 == 0
  {
    FitsMeansBelow(b, w);
    ShiftTable(b);
    if w == 0 {} else if w == 1 {} else if w == 2 {} else if w == 3 {}
    else if w == 4 {} else if w == 5 {} else if w == 6 {} else { assert w == 7; }
  }

  lemma {:induction false} FitsTable(b: Byte)
    ensures Fits(b, 5) <==> b < 32
    ensures Fits(b, 8)
  {
    FitsMeansBelow(b, 5);
    FitsMeansBelow(b, 8);
    ShiftTable(b);
  }

  /** `k` bits pulled one at a time from the top of `b` into `n`. */
  function Pulled(n: Byte, b: Byte, k: nat): Byte
    decreases k
  {
    if k == 0 then n else (Pulled(n, b, k - 1) << 1) | (Shl(b, k - 1) >> 7)
  }

  lemma {:induction false} ShrStep(b: Byte, k: nat)
    requires 1 <= k <= 8
    ensures Shr(b, 8 - k) == (Shr(b, 9 - k) << 1) | (Shl(b, k - 1) >> 7)
  {
    ShiftTable(b);
    if k == 1 {} else if k == 2 {} else if k == 3 {} else if k == 4 {}
    else if k == 5 {} else if k == 6 {} else if k == 7 {} else { assert k == 8; }
  }

  lemma {:induction false} OrShift(a: Byte, c: Byte, d: Byte)
    ensures ((a | c) << 1) | d == (a << 1) | ((c << 1) | d)
  {
  }

  /** The source's two shifts and an or pull `k` bits at once. */
  lemma {:induction false} ShiftsPull(n: Byte, b: Byte, k: nat)
    requires k <= 8
    ensures Shl(n, k) | Shr(b, 8 - k) == Pulled(n, b, k)
  {
    if k == 0 {
      ShiftTable(b);
    } else {
      ShiftsPull(n, b, k - 1);
      ShrStep(b, k);
      OrShift(Shl(n, k - 1), Shr(b, 9 - k), Shl(b, k - 1) >> 7);
    }
  }

  lemma {:induction false} PulledBit(n: Byte, b: Byte)
    requires n >> 7 == 0
    ensures ((n << 1) | (b >> 7)) >> 1 == n
    ensures ((n << 1) | (b >> 7)) & 1 == 1 <==> b & 0x80 == 0x80
  {
  }

  lemma {:induction false} PulledFits(n: Byte, b: Byte, f: nat, k: nat)
    requires f + k <= 8 && Fits(n, f)
    ensures Fits(Pulled(n, b, k), f + k)
    decreases k
  {
    if k > 0 {
      PulledFits(n, b, f, k - 1);
      FitsSeven(Pulled(n, b, k - 1), f + k - 1);
      PulledBit(Pulled(n, b, k - 1), Shl(b, k - 1));
    }
  }

  /** Moving one bit from the top of `b` to the bottom of `n` keeps the bits of the two. */
  lemma {:induction false} PullOne(n: Byte, b: Byte, f: nat, r: nat)
    requires f < 8 && r > 0 && Fits(n, f)
    ensures Group((n << 1) | (b >> 7), f + 1) + High(b << 1, r - 1) == Group(n, f) + High(b, r)
  {
    FitsSeven(n, f);
    PulledBit(n, b);
    Assoc(Group(n, f), [b & 0x80 == 0x80], High(b << 1, r - 1));
  }

  lemma {:induction false} PullOneMore(p: Byte, q: Byte, f: nat, r: nat, p': Byte, q': Byte, whole: seq<bool>)
    requires f < 8 && r > 0 && Fits(p, f) && p' == (p << 1) | (q >> 7) && q' == q << 1
    requires Group(p, f) + High(q, r) == whole
    ensures Group(p', f + 1) + High(q', r - 1) == whole
  {
    PullOne(p, q, f, r);
  }

  lemma {:induction false} PullMany(n: Byte, b: Byte, f: nat, r: nat, k: nat, whole: seq<bool>)
    requires f + k <= 8 && k <= r && Fits(n, f)
    requires Group(n, f) + High(b, r) == whole
    ensures Group(Pulled(n, b, k), f + k) + High(Shl(b, k), r - k) == whole
    decreases k
  {
    hide Group, High, Fits;
    if k == 0 {
      assert f + k == f && r - k == r;
    } else {
      PullMany(n, b, f, r, k - 1, whole);
      PulledFits(n, b, f, k - 1);
      PullOneMore(Pulled(n, b, k - 1), Shl(b, k - 1), f + k - 1, r - k + 1, Pulled(n, b, k), Shl(b, k), whole);
    }
  }

  /** One inner step of `convertBits`: moving `k` bits at once keeps the pending bits. */
  lemma {:induction false} ExtractBits(n: Byte, b: Byte, f: nat, r: nat, k: nat)
    requires f + k <= 8 && k <= r && Fits(n, f)
    ensures Fits(Shl(n, k) | Shr(b, 8 - k), f + k)
    ensures Group(Shl(n, k) | Shr(b, 8 - k), f + k) + High(Shl(b, k), r - k) == Group(n, f) + High(b, r)
  {
    ShiftsPull(n, b, k);
    PulledFits(n, b, f, k);
    PullMany(n, b, f, r, k, Group(n, f) + High(b, r));
  }

  /** After the unused high bits are shifted out, the high bits are the byte's own bits. */
  lemma {:induction false} DiscardUnused(b: Byte, w: nat)
    requires w <= 8
    ensures High(Shl(b, 8 - w), w) == Group(b, w)
    decreases 8 - w
  {
    if w == 8 {
      HighIsGroup(b, 8);
    } else {
      DiscardUnused(b, w + 1);
      GroupTail(b, w + 1);
      TailOfCons(Shl(b, 7 - w) & 0x80 == 0x80, High(Shl(b, 8 - w), w));
    }
  }

  lemma TailOfCons(x: bool, s: seq<bool>)
    ensures ([x] + s)[1..] == s
  {
  }

  lemma {:induction false} GroupTail(b: Byte, w: nat)
    requires w > 0
    ensures Group(b, w)[1..] == Group(b, w - 1)
    decreases w
  {
    if w > 1 {
      GroupTail(b >> 1, w - 1);
      TailOfAppend(Group(b >> 1, w - 1), [b & 1 == 1]);
    }
  }

  lemma TailOfAppend(s: seq<bool>, t: seq<bool>)
    requires s != []
    ensures (s + t)[1..] == s[1..] + t
  {
  }

  lemma {:induction false} HighIsGroup(c: Byte, w: nat)
    requires w <= 8
    ensures High(c, w) == Group(Shr(c, 8 - w), w)
  {
    ExtractBits(0, c, 0, w, w);
    ShlZero(w);
    OrZero(Shr(c, 8 - w));
    EmptyTail(Group(Shr(c, 8 - w), w), High(Shl(c, w), 0));
    EmptyHead(High(c, w), Group(0, 0));
  }

  lemma {:induction false} OrZero(b: Byte)
    ensures 0 | b == b && b | 0 == b
  {
  }

  lemma {:induction false} ShlZero(k: nat)
    ensures Shl(0, k) == 0
  {
    if k > 0 { ShlZero(k - 1); }
  }

  lemma {:induction false} GroupInjective(b: Byte, c: Byte, w: nat)
    requires Fits(b, w) && Fits(c, w) && Group(b, w) == Group(c, w)
    ensures b == c
  {
    if w > 0 {
      SplitTail(Group(b >> 1, w - 1), [b & 1 == 1], Group(c >> 1, w - 1), [c & 1 == 1]);
      GroupInjective(b >> 1, c >> 1, w - 1);
      assert (b & 1 == 1) == [b & 1 == 1][0] == [c & 1 == 1][0] == (c & 1 == 1);
    }
  }

  lemma {:induction false} ValueGroup(bits: seq<bool>)
    requires |bits| <= 8
    ensures Fits(Value(bits), |bits|) && Group(Value(bits), |bits|) == bits
  {
    if bits != [] {
      var init := bits[..|bits| - 1];
      ValueGroup(init);
      FitsSeven(Value(init), |bits| - 1);
      AppendedBit(Value(init), bits[|bits| - 1]);
      DropLast(bits);
    }
  }

  lemma {:induction false} AppendedBit(n: Byte, bit: bool)
    requires n >> 7 == 0
    ensures var m := (n << 1) | (if bit then 1 else 0); m >> 1 == n && (m & 1 == 1 <==> bit)
  {
  }

  // ---------- Sequences of bits ----------

  lemma TakeOneMore<T>(s: seq<T>, i: nat)
    requires i < |s|
    ensures s[..i + 1] == s[..i] + [s[i]]
  {
  }

  lemma EmptyTail<T>(s: seq<T>, t: seq<T>)
    requires t == []
    ensures s + t == s
  {
  }

  lemma EmptyHead<T>(s: seq<T>, t: seq<T>)
    requires t == []
    ensures t + s == s
  {
  }

  lemma DropLast<T>(s: seq<T>)
    requires s != []
    ensures s == s[..|s| - 1] + [s[|s| - 1]]
  {
  }

  lemma CutAt<T>(s: seq<T>, i: nat)
    requires i <= |s|
    ensures s == s[..i] + s[i..]
  {
  }

  lemma {:induction false} SplitTail(a: seq<bool>, b: seq<bool>, a': seq<bool>, b': seq<bool>)
    requires a + b == a' + b' && |a| == |a'|
    ensures a == a' && b == b'
  {
    assert a == (a + b)[..|a|] && a' == (a' + b')[..|a|];
    assert b == (a + b)[|a|..] && b' == (a' + b')[|a|..];
  }

  lemma {:induction false} Regroup3(s: seq<bool>, a: seq<bool>, b: seq<bool>, a': seq<bool>, b': seq<bool>)
    requires a + b == a' + b'
    ensures s + a + b == s + a' + b'
  {
    Assoc(s, a, b);
    Assoc(s, a', b');
  }

  lemma {:induction false} TakeSplit(bits: seq<bool>, w: nat, k: nat)
    requires w + k <= |bits|
    ensures bits[..w] + bits[w..][..k] == bits[..w + k]
  {
  }

  lemma {:induction false} StreamLength(data: seq<Byte>, w: nat)
    ensures |Stream(data, w)| == |data| * w
  {
    if data != [] {
      StreamLength(data[..|data| - 1], w);
      MulSucc(|data| - 1, w);
    }
  }

  lemma {:induction false} StreamAppend(data: seq<Byte>, b: Byte, w: nat)
    ensures Stream(data + [b], w) == Stream(data, w) + Group(b, w)
  {
    assert (data + [b])[..|data|] == data;
  }

  lemma {:induction false} StreamConcat(a: seq<Byte>, b: seq<Byte>, w: nat)
    ensures Stream(a + b, w) == Stream(a, w) + Stream(b, w)
  {
    if b == [] {
      assert a + b == a;
    } else {
      var init, last := b[..|b| - 1], b[|b| - 1];
      DropLast(b);
      assert a + b == (a + init) + [last];
      StreamAppend(a + init, last, w);
      StreamAppend(init, last, w);
      StreamConcat(a, init, w);
      Assoc(Stream(a, w), Stream(init, w), Group(last, w));
    }
  }

  lemma {:induction false} StreamPrepend(b: Byte, data: seq<Byte>, w: nat)
    ensures Stream([b] + data, w) == Group(b, w) + Stream(data, w)
  {
    StreamConcat([b], data, w);
    StreamAppend([], b, w);
    EmptyHead([b], []);
    EmptyHead(Group(b, w), Stream([], w));
  }

  lemma {:induction false} StreamInjective(a: seq<Byte>, b: seq<Byte>, w: nat)
    requires |a| == |b| && AllFit(a, w) && AllFit(b, w) && Stream(a, w) == Stream(b, w)
    ensures a == b
  {
    if a != [] {
      var n := |a| - 1;
      StreamLength(a[..n], w);
      StreamLength(b[..n], w);
      SplitTail(Stream(a[..n], w), Group(a[n], w), Stream(b[..n], w), Group(b[n], w));
      StreamInjective(a[..n], b[..n], w);
      GroupInjective(a[n], b[n], w);
      DropLast(a);
      DropLast(b);
    }
  }

  // ---------- What packing makes ----------

  /** `out` are groups below `2^w` whose stream is `bits`, completed with fewer than `w` zeros
      or cut by fewer than `w` bits. */
  ghost predicate PackOf(out: seq<Byte>, bits: seq<bool>, w: nat, pad: bool) {
    var made := Stream(out, w);
    && AllFit(out, w)
    && (pad ==> 0 <= |made| - |bits| < w && made == bits + Zeros(|made| - |bits|))
    && (!pad ==> 0 <= |bits| - |made| < w && made == bits[..|made|])
  }

  lemma {:induction false} PackMeaning(bits: seq<bool>, w: nat, pad: bool)
    requires 0 < w <= 8
    ensures PackOf(Pack(bits, w, pad), bits, w, pad)
    decreases |bits|
  {
    if |bits| >= w {
      PackMeaning(bits[w..], w, pad);
      PackFirst(bits, Pack(bits[w..], w, pad), w, pad);
    } else if pad && bits != [] {
      PackLast(bits, w);
    } else {
      EmptyTail(bits, Zeros(0));
    }
  }

  lemma {:induction false} PackLast(bits: seq<bool>, w: nat)
    requires 0 < |bits| < w <= 8
    ensures PackOf([Value(bits + Zeros(w - |bits|))], bits, w, true)
  {
    var whole := bits + Zeros(w - |bits|);
    ValueGroup(whole);
    StreamPrepend(Value(whole), [], w);
    EmptyTail([Value(whole)], []);
    EmptyTail(whole, Stream([], w));
  }

  lemma {:induction false} PackFirst(bits: seq<bool>, rest: seq<Byte>, w: nat, pad: bool)
    requires 0 < w <= 8 && w <= |bits| && PackOf(rest, bits[w..], w, pad)
    ensures PackOf([Value(bits[..w])] + rest, bits, w, pad)
  {
    var made := Stream(rest, w);
    ValueGroup(bits[..w]);
    StreamPrepend(Value(bits[..w]), rest, w);
    if pad {
      CutAt(bits, w);
      Assoc(bits[..w], bits[w..], Zeros(|made| - |bits[w..]|));
    } else {
      TakeSplit(bits, w, |made|);
    }
  }

  lemma {:induction false} MulSucc(a: nat, w: nat)
    ensures (a + 1) * w == a * w + w
  {
  }

  lemma {:induction false} MulGap(a: nat, b: nat, w: nat)
    requires a < b
    ensures a * w + w <= b * w
  {
    var d := b - a - 1;
    assert d * w >= 0;
    assert b * w == (a + 1 + d) * w == a * w + w + d * w;
  }

  /** Two group sequences whose streams round the same number of bits have the same length. */
  lemma {:induction false} SameCount(a: seq<Byte>, b: seq<Byte>, w: nat, n: nat)
    requires w > 0
    requires var x, y := |Stream(a, w)|, |Stream(b, w)|; (n <= x < n + w && n <= y < n + w) || (x <= n < x + w && y <= n < y + w)
    ensures |a| == |b|
  {
    StreamLength(a, w);
    StreamLength(b, w);
    if |a| < |b| { MulGap(|a|, |b|, w); }
    if |b| < |a| { MulGap(|b|, |a|, w); }
  }

  // ---------- The source's loop ----------

  /** The groups made so far, the `f` bits waiting in `n` and the bits `tail` still to come are `whole`. */
  ghost predicate Converting(groups: seq<Byte>, n: Byte, f: nat, w: nat, tail: seq<bool>, whole: seq<bool>) {
    Fits(n, f) && AllFit(groups, w) && Stream(groups, w) + Group(n, f) + tail == whole
  }

  lemma {:induction false} ExtractKeeps(groups: seq<Byte>, n: Byte, f: nat, w: nat, b: Byte, r: nat, k: nat, whole: seq<bool>)
    requires f + k <= 8 && k <= r && Converting(groups, n, f, w, High(b, r), whole)
    ensures Converting(groups, Shl(n, k) | Shr(b, 8 - k), f + k, w, High(Shl(b, k), r - k), whole)
  {
    ExtractBits(n, b, f, r, k);
    Regroup3(Stream(groups, w), Group(n, f), High(b, r),
             Group(Shl(n, k) | Shr(b, 8 - k), f + k), High(Shl(b, k), r - k));
  }

  lemma {:induction false} EmitKeeps(groups: seq<Byte>, n: Byte, w: nat, tail: seq<bool>, whole: seq<bool>)
    requires Converting(groups, n, w, w, tail, whole)
    ensures Converting(groups + [n], 0, 0, w, tail, whole)
  {
    StreamAppend(groups, n, w);
    EmptyTail(Stream(groups + [n], w), Group(0, 0));
  }

  lemma {:induction false} PadLast(b: Byte, f: nat, w: nat)
    requires f <= w <= 8 && Fits(b, f)
    ensures Fits(Shl(b, w - f), w) && Group(Shl(b, w - f), w) == Group(b, f) + Zeros(w - f)
  {
    var k := w - f;
    ExtractBits(b, 0, f, k, k);
    HighOfZero(k);
    ShrZero(8 - k);
    OrZero(Shl(b, k));
    EmptyTail(Group(Shl(b, k), w), High(Shl(0, k), 0));
    assert Group(Shl(b, k) | Shr(0, 8 - k), f + k) == Group(Shl(b, k), w);
  }

  lemma {:induction false} ShrZero(k: nat)
    ensures Shr(0, k) == 0
  {
    if k > 0 { ShrZero(k - 1); }
  }

  lemma {:induction false} HighOfZero(w: nat)
    ensures High(0, w) == Zeros(w)
  {
    if w > 0 { HighOfZero(w - 1); }
  }

  /** Complete groups with no bits waiting, or with a padded last group, are the reference result. */
  lemma {:induction false} ConvertedIsRegrouped(groups: seq<Byte>, n: Byte, f: nat, data: seq<Byte>, fromBits: nat, w: nat, pad: bool)
    requires 0 < w <= 8 && f < w
    requires Converting(groups, n, f, w, [], Stream(data, fromBits))
    ensures Regrouped(data, fromBits, w, pad) == if pad && f > 0 then groups + [Shl(n, w - f)] else groups
  {
    var bits := Stream(data, fromBits);
    PackMeaning(bits, w, pad);
    EmptyTail(Stream(groups, w) + Group(n, f), []);
    if pad && f > 0 {
      PaddedPack(groups, n, f, w);
      SamePack(groups + [Shl(n, w - f)], Pack(bits, w, pad), bits, w, pad);
    } else {
      UnpaddedPack(groups, n, f, w, pad);
      SamePack(groups, Pack(bits, w, pad), bits, w, pad);
    }
  }

  lemma {:induction false} PaddedPack(groups: seq<Byte>, n: Byte, f: nat, w: nat)
    requires 0 < f < w <= 8 && Fits(n, f) && AllFit(groups, w)
    ensures PackOf(groups + [Shl(n, w - f)], Stream(groups, w) + Group(n, f), w, true)
  {
    var last := Shl(n, w - f);
    PadLast(n, f, w);
    StreamAppend(groups, last, w);
    Assoc(Stream(groups, w), Group(n, f), Zeros(w - f));
    AllFitAppend(groups, last, w);
  }

  lemma {:induction false} UnpaddedPack(groups: seq<Byte>, n: Byte, f: nat, w: nat, pad: bool)
    requires f < w && AllFit(groups, w) && (pad ==> f == 0)
    ensures PackOf(groups, Stream(groups, w) + Group(n, f), w, pad)
  {
    if pad {
      EmptyTail(Stream(groups, w), Group(n, f));
      EmptyTail(Stream(groups, w), Zeros(0));
    } else {
      PrefixOf(Stream(groups, w), Group(n, f));
    }
  }

  lemma PrefixOf<T>(a: seq<T>, b: seq<T>)
    ensures (a + b)[..|a|] == a
  {
  }

  lemma {:induction false} AllFitAppend(groups: seq<Byte>, b: Byte, w: nat)
    requires AllFit(groups, w) && Fits(b, w)
    ensures AllFit(groups + [b], w)
  {
  }

  /** The packing of a bit stream is unique. */
  lemma {:induction false} SamePack(a: seq<Byte>, b: seq<Byte>, bits: seq<bool>, w: nat, pad: bool)
    requires w > 0 && PackOf(a, bits, w, pad) && PackOf(b, bits, w, pad)
    ensures a == b
  {
    SameCount(a, b, w, |bits|);
    StreamLength(a, w);
    StreamLength(b, w);
    StreamInjective(a, b, w);
  }

  /** `convertBits`: for every pair of widths up to eight it computes the reference meaning. */
  method ConvertBits(data: seq<Byte>, fromBits: nat, toBits: nat, pad: bool) returns (regrouped: seq<Byte>)
    requires 0 < fromBits <= 8
    requires 0 < toBits <= 8
    ensures regrouped == Regrouped(data, fromBits, toBits, pad)
  {
    regrouped := [];
    var nextByte: Byte := 0;
    var filledBits: nat := 0;
    for i := 0 to |data|
      invariant filledBits < toBits
      invariant Converting(regrouped, nextByte, filledBits, toBits, [], Stream(data[..i], fromBits))
    {
      StreamAppend(data[..i], data[i], fromBits);
      TakeOneMore(data, i);
      regrouped, nextByte, filledBits :=
        AddByte(regrouped, nextByte, filledBits, data[i], fromBits, toBits, Stream(data[..i], fromBits));
    }
    TakeAll(data);
    ConvertedIsRegrouped(regrouped, nextByte, filledBits, data, fromBits, toBits, pad);
    if pad && filledBits > 0 {
      nextByte := Shl(nextByte, toBits - filledBits);
      regrouped := regrouped + [nextByte];
    }
  }

  /** The inner loop of `convertBits`: the bits of one more input byte enter the groups. */
  method AddByte(groups: seq<Byte>, next: Byte, filled: nat, byte: Byte, fromBits: nat, toBits: nat, ghost before: seq<bool>)
    returns (regrouped: seq<Byte>, nextByte: Byte, filledBits: nat)
    requires 0 < fromBits <= 8
    requires filled < toBits <= 8 && Converting(groups, next, filled, toBits, [], before)
    ensures filledBits < toBits && Converting(regrouped, nextByte, filledBits, toBits, [], before + Group(byte, fromBits))
  {
    regrouped, nextByte, filledBits := groups, next, filled;
    DiscardUnused(byte, fromBits);
    var b := Shl(byte, 8 - fromBits);
    ghost var whole := before + Group(byte, fromBits);
    var remainingFromBits := fromBits;
    EmptyTail(Stream(groups, toBits) + Group(next, filled), []);
    while remainingFromBits > 0
      invariant 0 <= remainingFromBits <= fromBits && filledBits < toBits
      invariant Converting(regrouped, nextByte, filledBits, toBits, High(b, remainingFromBits), whole)
    {
      var remainingToBits := toBits - filledBits;
      var toExtract := if remainingToBits < remainingFromBits then remainingToBits else remainingFromBits;
      ExtractKeeps(regrouped, nextByte, filledBits, toBits, b, remainingFromBits, toExtract, whole);
      nextByte, b := Shl(nextByte, toExtract) | Shr(b, 8 - toExtract), Shl(b, toExtract);
      remainingFromBits := remainingFromBits - toExtract;
      filledBits := filledBits + toExtract;
      assert Converting(regrouped, nextByte, filledBits, toBits, High(b, remainingFromBits), whole);
      if filledBits == toBits {
        EmitKeeps(regrouped, nextByte, toBits, High(b, remainingFromBits), whole);
        regrouped := regrouped + [nextByte];
        filledBits := 0;
        nextByte := 0;
      }
    }
  }

  // ---------- Round trips ----------

  /** Going from bytes to padded 5-bit groups and back gives the bytes, for every byte sequence;
      there are ceil(8n/5) groups, each below 32. */
  lemma RegroupRoundTrip(data: seq<Byte>)
    ensures var five := Regrouped(data, 8, 5, true);
      && AllFit(five, 5)
      && |five| == (8 * |data| + 4) / 5
      && Regrouped(five, 5, 8, false) == data
  {
    var bits := Stream(data, 8);
    PackMeaning(bits, 5, true);
    var five := Pack(bits, 5, true);
    var back := Stream(five, 5);
    PackMeaning(back, 8, false);
    StreamLength(data, 8);
    StreamLength(five, 5);
    PrefixOf(bits, Zeros(|back| - |bits|));
    forall i | 0 <= i < |data| ensures Fits(data[i], 8) { FitsTable(data[i]); }
    SamePack(Pack(back, 8, false), data, back, 8, false);
  }

  /** The bits of 5-bit groups that do not fill a byte. */
  function Leftover(five: seq<Byte>): seq<bool> {
    var bits := Stream(five, 5);
    bits[|bits| / 8 * 8..]
  }

  predicate CanonicalPadding(five: seq<Byte>) {
    && |Leftover(five)| < 5
    && forall i :: 0 <= i < |Leftover(five)| ==> !Leftover(five)[i]
  }

  /** The other direction holds exactly for canonical groups: the bits beyond the last whole byte are
      fewer than five and all zero. */
  lemma RegroupBackIffCanonical(five: seq<Byte>)
    requires AllFit(five, 5)
    ensures Regrouped(Regrouped(five, 5, 8, false), 8, 5, true) == five <==> CanonicalPadding(five)
  {
    var bits := Stream(five, 5);
    PackMeaning(bits, 8, false);
    var bytes := Pack(bits, 8, false);
    var whole := Stream(bytes, 8);
    StreamLength(bytes, 8);
    PackMeaning(whole, 5, true);
    var again := Pack(whole, 5, true);
    var cut := |whole|;
    RoundedDown(|bits|, |bytes|);
    CutAt(bits, cut);
    if again == five {
      SplitTail(whole, Zeros(|bits| - cut), bits[..cut], bits[cut..]);
    }
    if CanonicalPadding(five) {
      AllZeros(bits[cut..]);
      SamePack(again, five, whole, 5, true);
    }
  }

  lemma {:induction false} RoundedDown(n: nat, q: nat)
    requires q * 8 <= n < q * 8 + 8
    ensures n / 8 * 8 == q * 8
  {
  }

  lemma {:induction false} AllZeros(bits: seq<bool>)
    requires forall i :: 0 <= i < |bits| ==> !bits[i]
    ensures bits == Zeros(|bits|)
  {
  }
}
