/**
  The propagation queue of transaction IDs (app/protocol/flowcontext/transactions.go): IDs are
  collected and broadcast in messages of bounded length.
*/
module Propagation {
  import opened Basics

  type Id(==, !new)

  const MAX_INV_PER_TX_INV_MSG: nat := 131_072

  /** Milliseconds. */
  const TRANSACTION_ID_PROPAGATION_INTERVAL: nat := 500

  /** The IDs cut into messages: every message but the last is full. */
  ghost function Chunks(ids: seq<Id>): seq<seq<Id>>
    decreases |ids|
  {
    if ids == [] then []
    else if |ids| <= 131_072 then [ids]
    else [ids[..131_072]] + Chunks(ids[131_072..])
  }

  ghost function Concat(messages: seq<seq<Id>>): seq<Id> {
    if messages == [] then [] else Concat(messages[..|messages| - 1]) + messages[|messages| - 1]
  }

  ghost predicate Bounded(messages: seq<seq<Id>>) {
    forall i :: 0 <= i < |messages| ==> 1 <= |messages[i]| <= 131_072
  }

  lemma ConcatMore(messages: seq<seq<Id>>, m: seq<Id>)
    ensures Concat(messages + [m]) == Concat(messages) + m
  {
    assert (messages + [m])[..|messages|] == messages;
  }

  /** What one drain has sent of `all`: the first messages it is cut into, and no more. */
  ghost predicate Drained(all: seq<Id>, messages: seq<seq<Id>>, pending: seq<Id>) {
    messages + Chunks(pending) == Chunks(all) && Concat(messages) + pending == all && Bounded(messages)
  }

  lemma DrainStart(all: seq<Id>)
    ensures Drained(all, [], all)
  {
    assert [] + Chunks(all) == Chunks(all);
    assert Concat([]) + all == all;
  }

  lemma DrainMore(all: seq<Id>, messages: seq<seq<Id>>, pending: seq<Id>)
    requires Drained(all, messages, pending) && pending != []
    ensures var n := if |pending| > MAX_INV_PER_TX_INV_MSG then MAX_INV_PER_TX_INV_MSG else |pending|;
      Drained(all, messages + [pending[..n]], pending[n..])
  {
    var n := if |pending| > MAX_INV_PER_TX_INV_MSG then MAX_INV_PER_TX_INV_MSG else |pending|;
    var m, rest := pending[..n], pending[n..];
    assert m + rest == pending;
    assert Chunks(pending) == [m] + Chunks(rest) by {
      if n == |pending| { assert m == pending && rest == []; }
    }
    assert messages + [m] + Chunks(rest) == messages + ([m] + Chunks(rest));
    ConcatMore(messages, m);
    assert Concat(messages) + m + rest == Concat(messages) + (m + rest);
  }

  lemma DrainEnd(all: seq<Id>, messages: seq<seq<Id>>)
    requires Drained(all, messages, [])
    ensures messages == Chunks(all) && Concat(messages) == all
  {
    assert messages + [] == messages;
    assert Concat(messages) + [] == Concat(messages);
  }

  /** The messages go out up to the first broadcast that fails, and there is an error if and only if one does. */
  ghost predicate Stops(ok: bool, all: seq<Id>, sent: nat, fails: nat -> bool) {
    && sent <= |Chunks(all)| && (forall i :: 0 <= i < sent ==> !fails(i))
    && (if ok then sent == |Chunks(all)| else sent < |Chunks(all)| && fails(sent))
  }

  lemma StopsHere(all: seq<Id>, messages: seq<seq<Id>>, pending: seq<Id>, fails: nat -> bool)
    requires Drained(all, messages, pending) && forall i :: 0 <= i < |messages| ==> !fails(i)
    ensures pending == [] ==> Stops(true, all, |messages|, fails)
    ensures pending != [] && fails(|messages|) ==> Stops(false, all, |messages|, fails)
  {
    assert |Chunks(all)| == |messages| + |Chunks(pending)|;
  }

  lemma {:induction false} ConcatPlus(a: seq<seq<Id>>, b: seq<seq<Id>>)
    ensures Concat(a + b) == Concat(a) + Concat(b)
    decreases |b|
  {
    if b == [] {
      assert a + b == a;
      assert Concat(a) + [] == Concat(a);
    } else {
      assert a + b == (a + b[..|b| - 1]) + [b[|b| - 1]];
      ConcatMore(a + b[..|b| - 1], b[|b| - 1]);
      ConcatPlus(a, b[..|b| - 1]);
      assert Concat(a) + (Concat(b[..|b| - 1]) + b[|b| - 1]) == Concat(a) + Concat(b[..|b| - 1]) + b[|b| - 1];
    }
  }

  class Propagator {
    var transactionIDsToPropagate: seq<Id>
    var lastTransactionIDPropagationTime: int
    /** Everything ever enqueued, and every message that was broadcast without an error. */
    ghost var enqueued: seq<Id>
    ghost var broadcast: seq<seq<Id>>

    constructor (now: int)
      ensures Valid() && transactionIDsToPropagate == [] && enqueued == [] && broadcast == []
      ensures lastTransactionIDPropagationTime == now
    {
      transactionIDsToPropagate, lastTransactionIDPropagationTime, enqueued, broadcast := [], now, [], [];
    }

    /** No ID is lost, repeated or reordered, and no message is empty or too long. */
    ghost predicate Valid()
      reads this
    {
      Concat(broadcast) + transactionIDsToPropagate == enqueued && Bounded(broadcast)
    }

    /** `maybePropagateTransactions`; `fails` decides which broadcast fails, by the number of messages before it. */
    method MaybePropagateTransactions(now: int, later: int, fails: nat -> bool) returns (ok: bool, ghost messages: seq<seq<Id>>)
      requires Valid()
      modifies this`transactionIDsToPropagate, this`lastTransactionIDPropagationTime, this`broadcast
      ensures Valid() && broadcast == old(broadcast) + messages
      ensures var due := now - old(lastTransactionIDPropagationTime) >= 500 || |old(transactionIDsToPropagate)| >= 131_072;
        if !due then ok && messages == [] && transactionIDsToPropagate == old(transactionIDsToPropagate)
                     && lastTransactionIDPropagationTime == old(lastTransactionIDPropagationTime)
        else Drained(old(transactionIDsToPropagate), messages, transactionIDsToPropagate)
             && (ok <==> transactionIDsToPropagate == []) && (ok ==> lastTransactionIDPropagationTime == later)
             && (ok ==> messages == Chunks(old(transactionIDsToPropagate)))
             && Stops(ok, old(transactionIDsToPropagate), |messages|, fails)
      ensures !ok ==> lastTransactionIDPropagationTime == old(lastTransactionIDPropagationTime)
    {
      hide Stops, Chunks, Concat;
      ok, messages := true, [];
      assert broadcast + [] == broadcast;
      if now - lastTransactionIDPropagationTime < TRANSACTION_ID_PROPAGATION_INTERVAL
         && |transactionIDsToPropagate| < MAX_INV_PER_TX_INV_MSG
      {
        return;
      }
      ghost var all := transactionIDsToPropagate;
      DrainStart(all);
      var sent := 0;
      while |transactionIDsToPropagate| > 0
        invariant ok && sent == |messages| && forall i :: 0 <= i < sent ==> !fails(i)
        invariant Drained(all, messages, transactionIDsToPropagate) && broadcast == old(broadcast) + messages
        invariant lastTransactionIDPropagationTime == old(lastTransactionIDPropagationTime)
        decreases |transactionIDsToPropagate|
      {
        var ids := transactionIDsToPropagate;
        if |ids| > MAX_INV_PER_TX_INV_MSG {
          ids := transactionIDsToPropagate[..MAX_INV_PER_TX_INV_MSG];
        }
        StopsHere(all, messages, transactionIDsToPropagate, fails);
        if fails(sent) {
          KeepsOrder(old(broadcast), messages, all, transactionIDsToPropagate, enqueued);
          ok := false;
          return;
        }
        TakeAll(transactionIDsToPropagate);
        DrainMore(all, messages, transactionIDsToPropagate);
        Assoc(old(broadcast), messages, [ids]);
        messages, broadcast := messages + [ids], broadcast + [ids];
        sent := sent + 1;
        transactionIDsToPropagate := transactionIDsToPropagate[|ids|..];
      }
      KeepsOrder(old(broadcast), messages, all, transactionIDsToPropagate, enqueued);
      DrainEnd(all, messages);
      StopsHere(all, messages, transactionIDsToPropagate, fails);
      lastTransactionIDPropagationTime := later;
    }

    /** `EnqueueTransactionIDsForPropagation` */
    method Enqueue(ids: seq<Id>, now: int, later: int, fails: nat -> bool) returns (ok: bool)
      requires Valid()
      modifies this
      ensures Valid() && enqueued == old(enqueued) + ids
      ensures var all := old(transactionIDsToPropagate) + ids;
        if now - old(lastTransactionIDPropagationTime) >= 500 || |all| >= 131_072
        then (ok <==> transactionIDsToPropagate == [])
             && exists messages :: broadcast == old(broadcast) + messages && Drained(all, messages, transactionIDsToPropagate)
                                   && Stops(ok, all, |messages|, fails)
        else ok && broadcast == old(broadcast) && transactionIDsToPropagate == all
    {
      assert Concat(broadcast) + (transactionIDsToPropagate + ids) == Concat(broadcast) + transactionIDsToPropagate + ids;
      transactionIDsToPropagate := transactionIDsToPropagate + ids;
      enqueued := enqueued + ids;
      ghost var messages;
      ok, messages := MaybePropagateTransactions(now, later, fails);
    }
  }

  lemma KeepsOrder(before: seq<seq<Id>>, messages: seq<seq<Id>>, all: seq<Id>, pending: seq<Id>, enqueued: seq<Id>)
    requires Concat(before) + all == enqueued && Drained(all, messages, pending) && Bounded(before)
    ensures Concat(before + messages) + pending == enqueued && Bounded(before + messages)
  {
    ConcatPlus(before, messages);
    assert Concat(before) + Concat(messages) + pending == Concat(before) + (Concat(messages) + pending);
  }

  /** One call: what is enqueued, the clock at both readings, and which broadcasts fail. */
  datatype Call = Call(ids: seq<Id>, now: int, later: int, fails: nat -> bool)

  ghost function AllIds(calls: seq<Call>): seq<Id> {
    if calls == [] then [] else AllIds(calls[..|calls| - 1]) + calls[|calls| - 1].ids
  }

  /** Over any run of calls, failing or not, the broadcast messages and the pending IDs are everything enqueued, in order. */
  method Run(start: int, calls: seq<Call>) returns (p: Propagator)
    ensures p.Valid() && Concat(p.broadcast) + p.transactionIDsToPropagate == AllIds(calls)
  {
    p := new Propagator(start);
    for i := 0 to |calls|
      invariant fresh(p) && p.Valid() && p.enqueued == AllIds(calls[..i])
    {
      var call := calls[i];
      assert calls[..i + 1][..i] == calls[..i];
      var ok := p.Enqueue(call.ids, call.now, call.later, call.fails);
    }
    assert calls[..|calls|] == calls;
  }
}
