/**
  The sweep splitter of the wallet (cmd/eiyarowallet/sweep.go): packs the selected UTXOs, in order,
  into transactions that stay under the standard mass.

  The mass of a transaction is an opaque function. Amounts and fees are unsigned 64-bit numbers.
*/
module Sweep {
  import opened Basics

  datatype Utxo = Utxo(outpoint: Outpoint, amount: nat)

  /** One output pays `value` to the sweep address. */
  datatype Tx = Tx(inputs: seq<Utxo>, value: nat)

  type Mass = Tx -> nat

  const EXTRA_MASS: nat := 7000
  const MAXIMUM_STANDARD_TRANSACTION_MASS: nat := 100_000

  datatype Result = NegativeFee | MassViolation | Split(transactions: seq<Tx>)

  predicate Violates(tx: Tx, mass: Mass) {
    mass(tx) + EXTRA_MASS >= MAXIMUM_STANDARD_TRANSACTION_MASS
  }

  function Sum(utxos: seq<Utxo>): nat {
    if utxos == [] then 0 else Sum(utxos[..|utxos| - 1]) + utxos[|utxos| - 1].amount
  }

  /** The fee of `n` inputs. */
  function Fee(n: nat, feePerInput: nat): nat {
    n * feePerInput
  }

  /** The transaction that spends the inputs and leaves the fee per input. */
  function Spend(inputs: seq<Utxo>, fee: nat): Tx {
    Tx(inputs, WrapUint64(Sum(inputs) - Fee(|inputs|, fee)))
  }

  // ---------- The greedy packing ----------

  /** A run of UTXOs that is swept together, and the one that follows it and is not swept. */
  datatype Piece = Piece(inputs: seq<Utxo>, skipped: Option<Utxo>)

  /** Packs `utxos` behind the inputs collected so far. */
  ghost function Greedy(utxos: seq<Utxo>, current: seq<Utxo>, fee: nat, mass: Mass): Option<seq<Piece>>
    decreases |utxos|
  {
    if utxos == [] then Some(if current == [] then [] else [Piece(current, None)])
    else if !Violates(Spend(current + [utxos[0]], fee), mass) then Greedy(utxos[1..], current + [utxos[0]], fee, mass)
    else if current == [] then None
    else Prepend([Piece(current, Some(utxos[0]))], Greedy(utxos[1..], [], fee, mass))
  }

  ghost function Prepend(pieces: seq<Piece>, rest: Option<seq<Piece>>): Option<seq<Piece>> {
    if rest.None? then None else Some(pieces + rest.value)
  }

  ghost function Transactions(pieces: seq<Piece>, fee: nat): seq<Tx> {
    if pieces == [] then [] else [Spend(pieces[0].inputs, fee)] + Transactions(pieces[1..], fee)
  }

  lemma {:induction false} TransactionsMore(a: seq<Piece>, b: seq<Piece>, fee: nat)
    ensures Transactions(a + b, fee) == Transactions(a, fee) + Transactions(b, fee)
    decreases |a|
  {
    if a == [] {
      assert a + b == b;
    } else {
      assert (a + b)[1..] == a[1..] + b;
      TransactionsMore(a[1..], b, fee);
    }
  }

  lemma PrependMore(a: seq<Piece>, b: seq<Piece>, rest: Option<seq<Piece>>)
    ensures Prepend(a, Prepend(b, rest)) == Prepend(a + b, rest)
  {
    if rest.Some? { assert a + (b + rest.value) == (a + b) + rest.value; }
  }

  lemma SumMore(inputs: seq<Utxo>, u: Utxo)
    ensures Sum(inputs + [u]) == Sum(inputs) + u.amount
  {
    assert (inputs + [u])[..|inputs|] == inputs;
  }

  /** The running total and the fee may wrap; the difference is what the wrapped value is. */
  lemma ValueWraps(total: nat, inputs: seq<Utxo>, fee: nat)
    requires total == WrapUint64(Sum(inputs))
    ensures WrapUint64(total - WrapUint64(Fee(|inputs|, fee))) == WrapUint64(Sum(inputs) - Fee(|inputs|, fee))
  {
    var i := WrapMultiple(Sum(inputs));
    var j := WrapMultiple(Fee(|inputs|, fee));
    WrapShift(Sum(inputs) - Fee(|inputs|, fee), i - j);
  }

  /** Where the loop stands: what is packed, what is collected, what is left. */
  ghost predicate Packing(utxos: seq<Utxo>, i: nat, current: seq<Utxo>, done: seq<Piece>, txs: seq<Tx>, fee: nat, mass: Mass) {
    && i <= |utxos|
    && Greedy(utxos, [], fee, mass) == Prepend(done, Greedy(utxos[i..], current, fee, mass))
    && txs == Transactions(done, fee)
  }

  lemma PackingStart(utxos: seq<Utxo>, fee: nat, mass: Mass)
    ensures Packing(utxos, 0, [], [], [], fee, mass)
  {
    assert utxos[0..] == utxos;
    var all := Greedy(utxos, [], fee, mass);
    if all.Some? { assert [] + all.value == all.value; }
  }

  lemma PackingCollects(utxos: seq<Utxo>, i: nat, current: seq<Utxo>, done: seq<Piece>, txs: seq<Tx>, fee: nat, mass: Mass)
    requires Packing(utxos, i, current, done, txs, fee, mass) && i < |utxos|
    requires !Violates(Spend(current + [utxos[i]], fee), mass)
    ensures Packing(utxos, i + 1, current + [utxos[i]], done, txs, fee, mass)
  {
    assert utxos[i..][1..] == utxos[i + 1..];
  }

  lemma PackingSplits(utxos: seq<Utxo>, i: nat, current: seq<Utxo>, done: seq<Piece>, txs: seq<Tx>, fee: nat, mass: Mass)
    requires Packing(utxos, i, current, done, txs, fee, mass) && i < |utxos| && current != []
    requires Violates(Spend(current + [utxos[i]], fee), mass)
    ensures Packing(utxos, i + 1, [], done + [Piece(current, Some(utxos[i]))], txs + [Spend(current, fee)], fee, mass)
  {
    var piece := Piece(current, Some(utxos[i]));
    assert utxos[i..][1..] == utxos[i + 1..];
    PrependMore(done, [piece], Greedy(utxos[i + 1..], [], fee, mass));
    TransactionsMore(done, [piece], fee);
    assert Transactions([piece], fee) == [Spend(current, fee)];
  }

  lemma PackingFails(utxos: seq<Utxo>, i: nat, done: seq<Piece>, txs: seq<Tx>, fee: nat, mass: Mass)
    requires Packing(utxos, i, [], done, txs, fee, mass) && i < |utxos| && Violates(Spend([utxos[i]], fee), mass)
    ensures Greedy(utxos, [], fee, mass).None?
  {
    assert utxos[i..][0] == utxos[i] && [] + [utxos[i]] == [utxos[i]];
  }

  lemma PackingEnds(utxos: seq<Utxo>, current: seq<Utxo>, done: seq<Piece>, txs: seq<Tx>, fee: nat, mass: Mass)
    requires Packing(utxos, |utxos|, current, done, txs, fee, mass)
    ensures var pieces := if current == [] then done else done + [Piece(current, None)];
      Greedy(utxos, [], fee, mass) == Some(pieces)
      && Transactions(pieces, fee) == if current == [] then txs else txs + [Spend(current, fee)]
  {
    assert utxos[|utxos|..] == [];
    assert done + [] == done;
    if current != [] {
      TransactionsMore(done, [Piece(current, None)], fee);
      assert Transactions([Piece(current, None)], fee) == [Spend(current, fee)];
    }
  }

  /** `createSplitTransactionsWithSchnorrPrivteKey` */
  method CreateSplitTransactions(utxos: seq<Utxo>, feePerInput: int, mass: Mass) returns (result: Result)
    ensures result.NegativeFee? <==> feePerInput < 0
    ensures result.MassViolation? ==> Greedy(utxos, [], feePerInput, mass).None?
    ensures result.Split? ==>
      var pieces := Greedy(utxos, [], feePerInput, mass);
      pieces.Some? && result.transactions == Transactions(pieces.value, feePerInput)
    ensures result.Split? ==> EachPays(result.transactions, feePerInput, mass)
    ensures result.MassViolation? ==> exists u :: u in utxos && TooHeavyAlone(u, feePerInput, mass)
  {
    hide Transactions, Fee, Violates, EachPays, TooHeavyAlone, WrapUint64, Greedy;
    if feePerInput < 0 { return NegativeFee; }
    var split: seq<Tx> := [];
    var total := 0;
    var lastValidTx, current := Tx([], 0), [];
    ghost var done: seq<Piece> := [];
    PackingStart(utxos, feePerInput, mass);
    NothingToSum(feePerInput);
    for i := 0 to |utxos|
      invariant Packing(utxos, i, current, done, split, feePerInput, mass)
      invariant total == WrapUint64(Sum(current))
      invariant current != [] ==> lastValidTx == Spend(current, feePerInput) && i < |utxos|
    {
      var u := utxos[i];
      SumMore(current, u);
      WrapStep(total, Sum(current), u.amount);
      total := WrapUint64(total + u.amount);
      var inputs := current + [u];
      ValueWraps(total, inputs, feePerInput);
      var currentTx := Tx(inputs, WrapUint64(total - WrapUint64(Fee(|inputs|, feePerInput))));
      if Violates(currentTx, mass) {
        if |inputs| == 1 {
          assert inputs == [u] && u in utxos;
          PackingFails(utxos, i, done, split, feePerInput, mass);
          AloneTooHeavy(u, feePerInput, mass);
          return MassViolation;
        }
        PackingSplits(utxos, i, current, done, split, feePerInput, mass);
        done := done + [Piece(current, Some(u))];
        split := split + [lastValidTx];
        total, lastValidTx, current := 0, Tx([], 0), [];
        continue;
      }
      PackingCollects(utxos, i, current, done, split, feePerInput, mass);
      if i == |utxos| - 1 {
        PackingEnds(utxos, inputs, done, split, feePerInput, mass);
        PackingPays(utxos, feePerInput, mass);
        return Split(split + [currentTx]);
      }
      lastValidTx, current := currentTx, inputs;
    }
    PackingEnds(utxos, current, done, split, feePerInput, mass);
    PackingPays(utxos, feePerInput, mass);
    result := Split(split);
  }

  /** A transaction with the UTXO as its only input is over the standard mass. */
  ghost predicate TooHeavyAlone(u: Utxo, fee: nat, mass: Mass) {
    mass(Tx([u], (u.amount - fee) % 0x1_0000_0000_0000_0000)) + 7000 >= 100_000
  }

  lemma AloneTooHeavy(u: Utxo, fee: nat, mass: Mass)
    requires Violates(Spend([u], fee), mass)
    ensures TooHeavyAlone(u, fee, mass)
  {
    assert Sum([u]) == u.amount by { SumMore([], u); assert [] + [u] == [u]; }
    WrapIsRemainder(u.amount - fee);
  }

  /** Every transaction pays its inputs less the fee per input, in 64 bits, and stays under the standard mass. */
  ghost predicate EachPays(txs: seq<Tx>, fee: nat, mass: Mass) {
    forall tx :: tx in txs ==>
      && tx.inputs != [] && mass(tx) + 7000 < 100_000
      && tx.value == (Sum(tx.inputs) - |tx.inputs| * fee) % 0x1_0000_0000_0000_0000
  }

  lemma PackingPays(utxos: seq<Utxo>, fee: nat, mass: Mass)
    requires Greedy(utxos, [], fee, mass).Some?
    ensures EachPays(Transactions(Greedy(utxos, [], fee, mass).value, fee), fee, mass)
  {
    hide EachPays;
    GreedyIsWellPacked(utxos, [], fee, mass);
    WellPackedPays(Greedy(utxos, [], fee, mass).value, fee, mass);
  }

  lemma {:induction false} WellPackedPays(pieces: seq<Piece>, fee: nat, mass: Mass)
    requires WellPacked(pieces, fee, mass)
    ensures EachPays(Transactions(pieces, fee), fee, mass)
    decreases |pieces|
  {
    if pieces != [] {
      hide EachPays;
      WellPackedPays(pieces[1..], fee, mass);
      OnePays(pieces[0], fee, mass);
      PaysMore(Spend(pieces[0].inputs, fee), Transactions(pieces[1..], fee), fee, mass);
    }
  }

  lemma OnePays(piece: Piece, fee: nat, mass: Mass)
    requires Maximal(piece, fee, mass)
    ensures EachPays([Spend(piece.inputs, fee)], fee, mass)
  {
    TakeAll(piece.inputs);
    WrapIsRemainder(Sum(piece.inputs) - |piece.inputs| * fee);
  }

  lemma PaysMore(tx: Tx, txs: seq<Tx>, fee: nat, mass: Mass)
    requires EachPays([tx], fee, mass) && EachPays(txs, fee, mass)
    ensures EachPays([tx] + txs, fee, mass)
  {
    assert tx in [tx];
  }

  // ---------- What the packing is ----------

  ghost function Skipped(piece: Piece): seq<Utxo> {
    if piece.skipped.Some? then [piece.skipped.value] else []
  }

  /** The UTXOs of the pieces in order, swept or not. */
  ghost function Flatten(pieces: seq<Piece>): seq<Utxo> {
    if pieces == [] then [] else pieces[0].inputs + Skipped(pieces[0]) + Flatten(pieces[1..])
  }

  /** A non-empty run that fits at every length, and that the UTXO behind it would break. */
  ghost predicate Maximal(piece: Piece, fee: nat, mass: Mass) {
    && piece.inputs != []
    && (forall n :: 0 < n <= |piece.inputs| ==> !Violates(Spend(piece.inputs[..n], fee), mass))
    && (piece.skipped.Some? ==> Violates(Spend(piece.inputs + Skipped(piece), fee), mass))
  }

  /** Every piece is maximal, and only the last may end without a skipped UTXO. */
  ghost predicate WellPacked(pieces: seq<Piece>, fee: nat, mass: Mass) {
    pieces == [] ||
    (Maximal(pieces[0], fee, mass) && (pieces[0].skipped.None? ==> |pieces| == 1) && WellPacked(pieces[1..], fee, mass))
  }

  ghost predicate FitsSoFar(current: seq<Utxo>, fee: nat, mass: Mass) {
    forall n :: 0 < n <= |current| ==> !Violates(Spend(current[..n], fee), mass)
  }

  lemma FitsMore(current: seq<Utxo>, u: Utxo, fee: nat, mass: Mass)
    requires FitsSoFar(current, fee, mass) && !Violates(Spend(current + [u], fee), mass)
    ensures FitsSoFar(current + [u], fee, mass)
  {
    forall n | 0 < n <= |current + [u]| ensures !Violates(Spend((current + [u])[..n], fee), mass) {
      if n <= |current| {
        assert (current + [u])[..n] == current[..n];
      } else {
        assert (current + [u])[..n] == current + [u];
      }
    }
  }

  lemma {:induction false} GreedyIsWellPacked(utxos: seq<Utxo>, current: seq<Utxo>, fee: nat, mass: Mass)
    requires FitsSoFar(current, fee, mass) && Greedy(utxos, current, fee, mass).Some?
    ensures WellPacked(Greedy(utxos, current, fee, mass).value, fee, mass)
    ensures Flatten(Greedy(utxos, current, fee, mass).value) == current + utxos
    decreases |utxos|
  {
    if utxos == [] {
      assert current + utxos == current;
      if current != [] {
        assert current + [] + [] == current;
      }
    } else if !Violates(Spend(current + [utxos[0]], fee), mass) {
      FitsMore(current, utxos[0], fee, mass);
      GreedyIsWellPacked(utxos[1..], current + [utxos[0]], fee, mass);
      HeadTail(current, utxos);
    } else {
      var piece := Piece(current, Some(utxos[0]));
      GreedyIsWellPacked(utxos[1..], [], fee, mass);
      HeadTail(current, utxos);
      var rest := Greedy(utxos[1..], [], fee, mass).value;
      assert ([piece] + rest)[1..] == rest;
      assert [] + utxos[1..] == utxos[1..];
    }
  }

  lemma HeadTail(current: seq<Utxo>, utxos: seq<Utxo>)
    requires utxos != []
    ensures current + [utxos[0]] + utxos[1..] == current + utxos
  {
  }

  lemma {:induction false} WellPackedIsGreedy(utxos: seq<Utxo>, current: seq<Utxo>, pieces: seq<Piece>, fee: nat, mass: Mass)
    requires WellPacked(pieces, fee, mass) && Flatten(pieces) == current + utxos
    requires pieces != [] ==> current <= pieces[0].inputs
    ensures Greedy(utxos, current, fee, mass) == Some(pieces)
    decreases |utxos|
  {
    hide Violates, Spend;
    if pieces != [] {
      var piece, tail := pieces[0], Flatten(pieces[1..]);
      if utxos == [] {
        assert piece.inputs == current && Skipped(piece) == [] && |pieces| == 1;
        assert pieces == [Piece(current, None)];
      } else if |piece.inputs| > |current| {
        TakesNext(piece.inputs, Skipped(piece) + tail, current, utxos);
        HeadTail(current, utxos);
        WellPackedIsGreedy(utxos[1..], current + [utxos[0]], pieces, fee, mass);
      } else {
        assert piece.inputs == current;
        LeavesNext(current, Skipped(piece), tail, utxos);
        WellPackedIsGreedy(utxos[1..], [], pieces[1..], fee, mass) by {
          assert [] + utxos[1..] == utxos[1..];
        }
        assert pieces == [piece] + pieces[1..];
      }
    }
  }

  lemma TakesNext(inputs: seq<Utxo>, rest: seq<Utxo>, current: seq<Utxo>, utxos: seq<Utxo>)
    requires current < inputs && inputs + rest == current + utxos && utxos != []
    ensures inputs[..|current| + 1] == current + [utxos[0]] && current + [utxos[0]] <= inputs
  {
    assert (inputs + rest)[|current|] == utxos[0];
  }

  lemma LeavesNext(current: seq<Utxo>, skipped: seq<Utxo>, tail: seq<Utxo>, utxos: seq<Utxo>)
    requires current + skipped + tail == current + utxos
    ensures skipped + tail == utxos
    ensures |skipped| == 1 ==> skipped == [utxos[0]] && tail == utxos[1..]
  {
    assert utxos == (current + utxos)[|current|..];
    assert skipped + tail == (current + skipped + tail)[|current|..];
  }

  /** The splitter's pieces are the only well-packed ones of the selected UTXOs. */
  lemma PackedIff(utxos: seq<Utxo>, pieces: seq<Piece>, fee: nat, mass: Mass)
    ensures Greedy(utxos, [], fee, mass) == Some(pieces) <==> WellPacked(pieces, fee, mass) && Flatten(pieces) == utxos
  {
    assert [] + utxos == utxos;
    if Greedy(utxos, [], fee, mass) == Some(pieces) {
      GreedyIsWellPacked(utxos, [], fee, mass);
    }
    if WellPacked(pieces, fee, mass) && Flatten(pieces) == utxos {
      WellPackedIsGreedy(utxos, [], pieces, fee, mass);
    }
  }

  /** Every selected UTXO is swept if and only if they all fit in one transaction, at every length on the way. */
  lemma AllSweptIff(utxos: seq<Utxo>, fee: nat, mass: Mass)
    ensures var pieces := Greedy(utxos, [], fee, mass);
      (pieces.Some? && AllSkipped(pieces.value) == []) <==> FitsSoFar(utxos, fee, mass)
  {
    var packed := Greedy(utxos, [], fee, mass);
    if packed.Some? && AllSkipped(packed.value) == [] {
      PackedIff(utxos, packed.value, fee, mass);
      OnePiece(packed.value, fee, mass);
    }
    if FitsSoFar(utxos, fee, mass) {
      var pieces := if utxos == [] then [] else [Piece(utxos, None)];
      assert pieces != [] ==> pieces[1..] == [] && utxos + [] + [] == utxos;
      PackedIff(utxos, pieces, fee, mass);
    }
  }

  lemma OnePiece(pieces: seq<Piece>, fee: nat, mass: Mass)
    requires WellPacked(pieces, fee, mass) && AllSkipped(pieces) == []
    ensures FitsSoFar(Flatten(pieces), fee, mass)
  {
    if pieces != [] {
      assert Skipped(pieces[0]) == [];
      assert pieces[1..] == [];
      assert pieces[0].inputs + [] + [] == pieces[0].inputs;
    }
  }

  /** A run that fits, followed by a UTXO that breaks it: that UTXO is skipped, and the packing starts anew behind it. */
  lemma {:induction false} SplitSkips(run: seq<Utxo>, u: Utxo, rest: seq<Utxo>, current: seq<Utxo>, fee: nat, mass: Mass)
    requires run + current != [] && FitsSoFar(current + run, fee, mass) && Violates(Spend(current + run + [u], fee), mass)
    ensures Greedy(run + [u] + rest, current, fee, mass)
         == Prepend([Piece(current + run, Some(u))], Greedy(rest, [], fee, mass))
    decreases |run|
  {
    var utxos := run + [u] + rest;
    if run == [] {
      assert utxos == [u] + rest && utxos[0] == u && utxos[1..] == rest && current + run == current;
    } else {
      var next := current + [run[0]];
      assert utxos[0] == run[0] && utxos[1..] == run[1..] + [u] + rest;
      assert next + run[1..] == current + run;
      assert (current + run)[..|current| + 1] == next;
      SplitSkips(run[1..], u, rest, next, fee, mass);
    }
  }

  /** A skipped UTXO is in no transaction, if no UTXO was selected twice. */
  lemma {:induction false} SkippedInNone(pieces: seq<Piece>, u: Utxo, i: nat)
    requires Distinct(Flatten(pieces))
    requires u in AllSkipped(pieces) && i < |pieces|
    ensures u !in pieces[i].inputs
    decreases |pieces|
  {
    var head, skipped, tail := pieces[0].inputs, Skipped(pieces[0]), Flatten(pieces[1..]);
    Parts(head, skipped, tail);
    if i == 0 {
      if u !in skipped { SkippedInside(pieces[1..], u); }
    } else if u in skipped {
      InputsInside(pieces[1..], i - 1);
    } else {
      SkippedInNone(pieces[1..], u, i - 1);
    }
  }

  lemma Parts(a: seq<Utxo>, b: seq<Utxo>, c: seq<Utxo>)
    requires Distinct(a + b + c)
    ensures forall x :: x in a ==> x !in b && x !in c
    ensures forall x :: x in b ==> x !in c
    ensures Distinct(c)
  {
    var all := a + b + c;
    forall i | 0 <= i < |a| ensures a[i] !in b && a[i] !in c {
      forall j | 0 <= j < |b| ensures a[i] != b[j] { assert all[i] == a[i] && all[|a| + j] == b[j]; }
      forall j | 0 <= j < |c| ensures a[i] != c[j] { assert all[i] == a[i] && all[|a| + |b| + j] == c[j]; }
    }
    forall i, j | 0 <= i < |b| && 0 <= j < |c| ensures b[i] != c[j] {
      assert all[|a| + i] == b[i] && all[|a| + |b| + j] == c[j];
    }
    forall i, j | 0 <= i < j < |c| ensures c[i] != c[j] {
      assert all[|a| + |b| + i] == c[i] && all[|a| + |b| + j] == c[j];
    }
  }

  lemma {:induction false} SkippedInside(pieces: seq<Piece>, u: Utxo)
    requires u in AllSkipped(pieces)
    ensures u in Flatten(pieces)
    decreases |pieces|
  {
    if u !in Skipped(pieces[0]) { SkippedInside(pieces[1..], u); }
  }

  lemma {:induction false} InputsInside(pieces: seq<Piece>, i: nat)
    requires i < |pieces|
    ensures forall x :: x in pieces[i].inputs ==> x in Flatten(pieces)
    decreases i
  {
    if i > 0 { InputsInside(pieces[1..], i - 1); }
  }

  // ---------- Conservation ----------

  ghost function Paid(txs: seq<Tx>): nat {
    if txs == [] then 0 else txs[0].value + Paid(txs[1..])
  }

  ghost function InputCount(txs: seq<Tx>): nat {
    if txs == [] then 0 else |txs[0].inputs| + InputCount(txs[1..])
  }

  ghost function AllSkipped(pieces: seq<Piece>): seq<Utxo> {
    if pieces == [] then [] else Skipped(pieces[0]) + AllSkipped(pieces[1..])
  }

  lemma {:induction false} SumPlus(a: seq<Utxo>, b: seq<Utxo>)
    ensures Sum(a + b) == Sum(a) + Sum(b)
    decreases |b|
  {
    if b == [] {
      assert a + b == a;
    } else {
      var last := b[|b| - 1];
      assert (a + b)[..|a + b| - 1] == a + b[..|b| - 1];
      SumPlus(a, b[..|b| - 1]);
    }
  }

  lemma {:induction false} FeesCovered(inputs: seq<Utxo>, fee: nat)
    requires forall u :: u in inputs ==> u.amount >= fee
    ensures Sum(inputs) >= Fee(|inputs|, fee)
    decreases |inputs|
  {
    if inputs != [] {
      FeesCovered(inputs[..|inputs| - 1], fee);
      Distribute(|inputs|, |inputs| - 1, 1, fee);
      assert inputs[|inputs| - 1] in inputs;
    }
  }

  /** With fees covered and a total of 64 bits, every transaction pays its inputs less the fee per input. */
  lemma PaysExactly(inputs: seq<Utxo>, fee: nat)
    requires (forall u :: u in inputs ==> u.amount >= fee) && Sum(inputs) < TWO_TO_64
    ensures Spend(inputs, fee).value == Sum(inputs) - |inputs| * fee
  {
    FeesCovered(inputs, fee);
  }

  /** One piece's share of the totals. */
  lemma Shares(pieces: seq<Piece>, fee: nat)
    requires pieces != []
    ensures var txs, rest := Transactions(pieces, fee), Transactions(pieces[1..], fee);
      && Paid(txs) == Spend(pieces[0].inputs, fee).value + Paid(rest)
      && InputCount(txs) == |pieces[0].inputs| + InputCount(rest)
      && Fee(InputCount(txs), fee) == Fee(|pieces[0].inputs|, fee) + Fee(InputCount(rest), fee)
    ensures Sum(Flatten(pieces)) == Sum(pieces[0].inputs) + Sum(Skipped(pieces[0])) + Sum(Flatten(pieces[1..]))
    ensures Sum(AllSkipped(pieces)) == Sum(Skipped(pieces[0])) + Sum(AllSkipped(pieces[1..]))
  {
    hide Fee, Sum, WrapUint64;
    var piece, tail := pieces[0], pieces[1..];
    SumPlus(piece.inputs + Skipped(piece), Flatten(tail));
    SumPlus(piece.inputs, Skipped(piece));
    SumPlus(Skipped(piece), AllSkipped(tail));
    TransactionsHead(pieces, fee);
    Distribute(InputCount(Transactions(pieces, fee)), |piece.inputs|, InputCount(Transactions(tail, fee)), fee);
  }

  /** Every UTXO is an input of one transaction or was skipped. */
  lemma {:induction false} CountsAddUp(pieces: seq<Piece>, fee: nat)
    ensures InputCount(Transactions(pieces, fee)) + |AllSkipped(pieces)| == |Flatten(pieces)|
    decreases |pieces|
  {
    if pieces != [] {
      Shares(pieces, fee);
      CountsAddUp(pieces[1..], fee);
    }
  }

  /** Nothing is lost or made: what is paid, the fees and the skipped UTXOs add up to the selected ones. */
  lemma {:induction false} Conservation(pieces: seq<Piece>, fee: nat)
    requires (forall u :: u in Flatten(pieces) ==> u.amount >= fee) && Sum(Flatten(pieces)) < TWO_TO_64
    ensures Paid(Transactions(pieces, fee)) + InputCount(Transactions(pieces, fee)) * fee + Sum(AllSkipped(pieces))
         == Sum(Flatten(pieces))
    decreases |pieces|
  {
    if pieces == [] {
      NothingToSum(fee);
    } else {
      hide Sum, Spend, Transactions, Paid, InputCount, Fee, Flatten, AllSkipped;
      var piece, tail := pieces[0], pieces[1..];
      Shares(pieces, fee);
      Covered(pieces, fee);
      PaysExactly(piece.inputs, fee);
      FeeIsProduct(|piece.inputs|, fee);
      FeeIsProduct(InputCount(Transactions(pieces, fee)), fee);
      FeeIsProduct(InputCount(Transactions(tail, fee)), fee);
      Conservation(tail, fee);
    }
  }

  lemma Covered(pieces: seq<Piece>, fee: nat)
    requires pieces != [] && forall u :: u in Flatten(pieces) ==> u.amount >= fee
    ensures forall u :: u in pieces[0].inputs ==> u.amount >= fee
    ensures forall u :: u in Flatten(pieces[1..]) ==> u.amount >= fee
  {
    Inside(pieces[0].inputs, Skipped(pieces[0]), Flatten(pieces[1..]));
  }

  lemma NothingToSum(fee: nat)
    ensures Sum([]) == 0 && WrapUint64(0) == 0 && Fee(0, fee) == 0
  {
  }

  lemma FeeIsProduct(n: nat, fee: nat)
    ensures Fee(n, fee) == n * fee
  {
  }

  lemma Distribute(total: nat, n: nat, m: nat, fee: nat)
    requires total == n + m
    ensures Fee(total, fee) == Fee(n, fee) + Fee(m, fee)
  {
  }

  lemma Inside(a: seq<Utxo>, b: seq<Utxo>, c: seq<Utxo>)
    ensures forall u :: u in a ==> u in a + b + c
    ensures forall u :: u in c ==> u in a + b + c
  {
  }

  lemma TransactionsHead(pieces: seq<Piece>, fee: nat)
    requires pieces != []
    ensures var txs := Transactions(pieces, fee);
      txs != [] && txs[0] == Spend(pieces[0].inputs, fee) && txs[1..] == Transactions(pieces[1..], fee)
  {
  }
}
