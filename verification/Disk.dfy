/**
  A persistent store. One write is atomic: it is a single put or delete, or a whole batch.
  A crash leaves one of the states that were on disk. Which attempts at a write fail is given with the disk.
*/
module Disk {
  class Disk<S> {
    var state: S
    /** Every state that was ever on disk, oldest first. */
    var durable: seq<S>
    /** Attempt number `n` at a write fails if `failing(n)`. */
    const failing: nat -> bool
    var attempts: nat

    constructor (s: S, failing: nat -> bool)
      ensures state == s && durable == [s] && this.failing == failing && attempts == 0
    {
      state, durable, attempts := s, [s], 0;
      this.failing := failing;
    }

    /** A write that succeeds. */
    method Write(s: S)
      modifies this
      ensures state == s && durable == old(durable) + [s] && attempts == old(attempts)
    {
      state := s;
      durable := durable + [s];
    }

    /** An attempt at a write: if it fails, nothing changes. */
    method TryWrite(s: S) returns (ok: bool)
      modifies this
      ensures attempts == old(attempts) + 1 && (ok <==> !failing(old(attempts)))
      ensures ok ==> state == s && durable == old(durable) + [s]
      ensures !ok ==> state == old(state) && durable == old(durable)
    {
      attempts := attempts + 1;
      if failing(attempts - 1) { return false; }
      Write(s);
      ok := true;
    }
  }

  /** None of the attempts from number `from` up to `until` fails. */
  ghost predicate NoneFails(failing: nat -> bool, from: nat, until: nat) {
    forall n: nat :: from <= n < until ==> !failing(n)
  }

  lemma NoneFailsMore(failing: nat -> bool, from: nat, middle: nat, until: nat)
    requires from <= middle <= until
    ensures NoneFails(failing, from, until) <==> NoneFails(failing, from, middle) && NoneFails(failing, middle, until)
  {
  }

  /** A disk that never fails. */
  const RELIABLE: nat -> bool := _ => false
}
