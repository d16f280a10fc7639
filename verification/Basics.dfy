/** What several modules share. */
module Basics {

  datatype Option<T> = None | Some(value: T)

  /** A transaction output's identifier, in the order of its serialized key. */
  type Outpoint = nat

  lemma {:induction false} SubsetSize<T>(a: set<T>, b: set<T>)
    requires a <= b
    ensures |a| <= |b|
  {
    if a != {} {
      var x :| x in a;
      SubsetSize(a - {x}, b - {x});
    }
  }

  // ---------- Sequences ----------

  ghost predicate Distinct<T>(s: seq<T>) {
    forall i, j :: 0 <= i < j < |s| ==> s[i] != s[j]
  }

  function Elements<T(!new)>(s: seq<T>): set<T> {
    set x | x in s
  }

  lemma {:induction false} DistinctSize<T(!new)>(s: seq<T>)
    requires Distinct(s)
    ensures |Elements(s)| == |s|
    decreases |s|
  {
    if s != [] {
      var n := |s| - 1;
      DistinctSize(s[..n]);
      assert s == s[..n] + [s[n]];
      assert Elements(s) == Elements(s[..n]) + {s[n]};
      assert s[n] !in s[..n];
    } else {
      assert Elements(s) == {};
    }
  }

  lemma TakeAll<T>(s: seq<T>)
    ensures s[..|s|] == s
  {
  }

  lemma Assoc<T>(a: seq<T>, b: seq<T>, c: seq<T>)
    ensures (a + b) + c == a + (b + c)
  {
  }

  // ---------- Unsigned 64-bit arithmetic ----------

  const TWO_TO_64: nat := 0x1_0000_0000_0000_0000
  const MAX_INT64: nat := 0x7fff_ffff_ffff_ffff

  /** Unsigned 64-bit arithmetic wraps around. */
  function WrapUint64(n: int): nat
    decreases if n < 0 then TWO_TO_64 - n else n
  {
    if n < 0 then WrapUint64(n + TWO_TO_64)
    else if n < TWO_TO_64 then n
    else WrapUint64(n - TWO_TO_64)
  }

  lemma {:induction false} WrapShift(n: int, k: int)
    ensures WrapUint64(n + k * TWO_TO_64) == WrapUint64(n)
    decreases if k < 0 then -k else k
  {
    if k > 0 {
      WrapShift(n, k - 1);
      WrapOnce(n + (k - 1) * TWO_TO_64);
    } else if k < 0 {
      WrapShift(n, k + 1);
      WrapOnce(n + k * TWO_TO_64);
    }
  }

  lemma WrapOnce(n: int)
    ensures WrapUint64(n + TWO_TO_64) == WrapUint64(n)
  {
  }

  /** A wrapped number differs from the number by a multiple of 2^64. */
  lemma {:induction false} WrapMultiple(n: int) returns (k: int)
    ensures WrapUint64(n) == n + k * TWO_TO_64 && WrapUint64(n) < TWO_TO_64
    decreases if n < 0 then TWO_TO_64 - n else n
  {
    if n < 0 {
      k := WrapMultiple(n + TWO_TO_64);
      k := k + 1;
    } else if n < TWO_TO_64 {
      k := 0;
    } else {
      k := WrapMultiple(n - TWO_TO_64);
      k := k - 1;
    }
  }

  /** Wrapping is the remainder modulo 2^64. */
  lemma {:induction false} WrapIsRemainder(n: int)
    ensures WrapUint64(n) == n % 0x1_0000_0000_0000_0000
    decreases if n < 0 then TWO_TO_64 - n else n
  {
    if n < 0 { WrapIsRemainder(n + TWO_TO_64); } else if n >= TWO_TO_64 { WrapIsRemainder(n - TWO_TO_64); }
  }

  /** One addition to a wrapped running sum. */
  lemma WrapStep(sum: nat, exact: nat, amount: nat)
    requires sum == WrapUint64(exact)
    ensures WrapUint64(sum + amount) == WrapUint64(exact + amount)
    ensures WrapUint64(sum + WrapUint64(amount)) == WrapUint64(exact + amount)
  {
    WrapAdd(exact, amount);
  }

  /** Wrapping the operands of a sum first does not change the wrapped sum. */
  lemma WrapAdd(x: int, y: int)
    ensures WrapUint64(WrapUint64(x) + y) == WrapUint64(x + y)
    ensures WrapUint64(WrapUint64(x) + WrapUint64(y)) == WrapUint64(x + y)
    ensures WrapUint64(x - WrapUint64(y)) == WrapUint64(x - y)
  {
    var i := WrapMultiple(x);
    var j := WrapMultiple(y);
    WrapShift(x + y, i);
    WrapShift(x + y, i + j);
    WrapShift(x - y, -j);
  }
}
