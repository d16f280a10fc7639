/**
  The UTXO index (domain/utxoindex/utxoindex.go): the incremental update, the paged rebuild from
  consensus, and the start-up check.

  `setOf` is the virtual UTXO set of a list of virtual parents. `outputs` gives the script and the
  amount of the transaction output that an outpoint names.
*/
module UtxoIndex {
  import opened Basics
  import opened Disk
  import opened UtxoModel
  import opened UtxoStore

  // ---------- Pages of the virtual UTXO set ----------

  const STEP: nat := 1000

  /** The consensus at one moment: its virtual parents, their UTXO set and the key order of that set. */
  datatype Virtual = Virtual(parents: seq<Hash>, utxos: UtxoSet, order: seq<Outpoint>)

  ghost predicate ValidVirtual(v: Virtual, setOf: seq<Hash> -> UtxoSet) {
    && v.utxos == setOf(v.parents) && |v.utxos| <= MAX_INT64
    && Ascending(v.order)
    && (forall o :: o in v.order <==> o in v.utxos)
  }

  predicate After(o: Outpoint, from: Option<Outpoint>) {
    from.None? || from.value < o
  }

  /** The next outpoints of `u` after `from`, in order: all of them, or as many as the limit allows. */
  ghost predicate IsPage(page: seq<Outpoint>, u: UtxoSet, from: Option<Outpoint>, limit: nat) {
    && |page| <= limit
    && Ascending(page)
    && (forall o :: o in page ==> o in u && After(o, from))
    && (forall o :: o in u && After(o, from) && o !in page ==> |page| == limit && forall p :: p in page ==> p < o)
  }

  lemma PageInside(page: seq<Outpoint>, u: UtxoSet, from: Option<Outpoint>, limit: nat)
    requires IsPage(page, u, from, limit)
    ensures forall o :: o in page ==> o in u
  {
  }

  /** `VirtualUTXOs`: seek the cursor to `from`, which must be there, and read on behind it. */
  method VirtualUTXOs(v: Virtual, from: Option<Outpoint>, limit: nat, ghost setOf: seq<Hash> -> UtxoSet)
    returns (page: Option<seq<Outpoint>>)
    requires ValidVirtual(v, setOf)
    ensures page.None? <==> from.Some? && from.value !in v.utxos
    ensures page.Some? ==> IsPage(page.value, v.utxos, from, limit)
  {
    var start := 0;
    if from.Some? {
      while start < |v.order| && v.order[start] != from.value
        invariant start <= |v.order| && from.value !in v.order[..start]
      {
        start := start + 1;
      }
      if start == |v.order| { return None; }
      start := start + 1;
    }
    var list, next := [], start;
    while next < |v.order| && |list| < limit
      invariant start <= next <= |v.order| && list == v.order[start..next] && |list| <= limit
    {
      list, next := list + [v.order[next]], next + 1;
    }
    PageRead(v, from, limit, start, next, setOf);
    page := Some(list);
  }

  ghost predicate Ascending(s: seq<Outpoint>) {
    forall i, j :: 0 <= i < j < |s| ==> s[i] < s[j]
  }

  /** Where the i-th key stands relative to the window `[start, next)`. */
  lemma Window(order: seq<Outpoint>, start: nat, next: nat, i: nat)
    requires Ascending(order) && start <= next <= |order| && i < |order|
    ensures i < start ==> order[i] <= order[start - 1]
    ensures start <= i < next ==> order[i] in order[start..next] && (start > 0 ==> order[start - 1] < order[i])
    ensures i >= next ==> forall p :: p in order[start..next] ==> p < order[i]
  {
    if start <= i < next { assert order[start..next][i - start] == order[i]; }
  }

  lemma PageRead(v: Virtual, from: Option<Outpoint>, limit: nat, start: nat, next: nat, setOf: seq<Hash> -> UtxoSet)
    requires ValidVirtual(v, setOf) && start <= next <= |v.order|
    requires if from.Some? then start > 0 && v.order[start - 1] == from.value else start == 0
    requires next - start <= limit && (next < |v.order| ==> next - start == limit)
    ensures IsPage(v.order[start..next], v.utxos, from, limit)
  {
    hide ValidVirtual, Ascending, After;
    var page := v.order[start..next];
    OrderAscends(v, setOf, start, next);
    forall o | o in page ensures o in v.utxos && After(o, from) { InWindow(v.order, from, start, next, o); }
    forall o | o in v.utxos && After(o, from) && o !in page ensures |page| == limit && forall p :: p in page ==> p < o {
      BehindWindow(v.order, from, start, next, o);
    }
  }

  lemma InWindow(order: seq<Outpoint>, from: Option<Outpoint>, start: nat, next: nat, o: Outpoint)
    requires Ascending(order) && start <= next <= |order| && o in order[start..next]
    requires if from.Some? then start > 0 && order[start - 1] == from.value else start == 0
    ensures o in order && After(o, from)
  {
    var i :| 0 <= i < |order[start..next]| && order[start..next][i] == o;
    Window(order, start, next, start + i);
  }

  lemma BehindWindow(order: seq<Outpoint>, from: Option<Outpoint>, start: nat, next: nat, o: Outpoint)
    requires Ascending(order) && start <= next <= |order| && o in order && After(o, from) && o !in order[start..next]
    requires if from.Some? then start > 0 && order[start - 1] == from.value else start == 0
    ensures next < |order| && forall p :: p in order[start..next] ==> p < o
  {
    var i :| 0 <= i < |order| && order[i] == o;
    Window(order, start, next, i);
  }

  lemma OrderAscends(v: Virtual, setOf: seq<Hash> -> UtxoSet, start: nat, next: nat)
    requires ValidVirtual(v, setOf) && start <= next <= |v.order|
    ensures Ascending(v.order) && Ascending(v.order[start..next]) && forall o :: o in v.order <==> o in v.utxos
  {
  }

  /** `GetVirtualUTXOs`: a page, or an error once the virtual parents are no longer the expected ones. */
  method GetVirtualUTXOs(v: Virtual, expected: seq<Hash>, from: Option<Outpoint>, limit: nat, ghost setOf: seq<Hash> -> UtxoSet)
    returns (page: Option<seq<Outpoint>>)
    requires ValidVirtual(v, setOf)
    ensures page.None? <==> v.parents != expected || (from.Some? && from.value !in v.utxos)
    ensures page.Some? ==> IsPage(page.value, setOf(expected), from, limit)
  {
    if v.parents != expected { return None; }
    page := VirtualUTXOs(v, from, limit, setOf);
  }

  // ---------- Building the index page by page ----------

  /** `got` is what was read of `u` when the last outpoint read is `from`. */
  ghost predicate ReadUpTo(got: UtxoSet, u: UtxoSet, from: Option<Outpoint>) {
    && (forall o :: o in got <==> o in u && !After(o, from))
    && (forall o :: o in got ==> got[o] == u[o])
  }

  function PageSet(page: seq<Outpoint>, u: UtxoSet): UtxoSet
    requires forall o :: o in page ==> o in u
  {
    map o | o in page :: u[o]
  }

  lemma LastIsLargest(page: seq<Outpoint>, o: Outpoint)
    requires Ascending(page) && o in page
    ensures page[0] <= o <= page[|page| - 1]
  {
  }

  lemma PageMore(got: UtxoSet, u: UtxoSet, from: Option<Outpoint>, page: seq<Outpoint>)
    requires ReadUpTo(got, u, from) && IsPage(page, u, from, STEP)
    ensures got.Keys !! PageSet(page, u).Keys
    ensures |page| < STEP ==> got + PageSet(page, u) == u
    ensures got.Keys + PageSet(page, u).Keys <= u.Keys
    ensures |page| >= STEP ==> ReadUpTo(got + PageSet(page, u), u, Some(page[|page| - 1]))
    ensures |page| >= STEP ==> u.Keys - (got + PageSet(page, u)).Keys < u.Keys - got.Keys
  {
    if |page| >= STEP {
      assert page[0] in PageSet(page, u);
      var last := page[|page| - 1];
      assert last in page && page[0] in page;
      forall o ensures o in got || o in page <==> o in u && o <= last {
        if o in page { LastIsLargest(page, o); }
      }
    }
  }

  lemma SlottedPlus(a: UtxoSet, b: UtxoSet)
    requires a.Keys !! b.Keys
    ensures Slotted(a + b) == Slotted(a) + Slotted(b) && Slotted(a).Keys !! Slotted(b).Keys
  {
  }

  lemma {:induction false} SlottedSize(u: UtxoSet)
    ensures |Slotted(u)| == |u|
    decreases |u|
  {
    if u == map[] {
      assert Slotted(u) == map[];
    } else {
      var o :| o in u;
      SlottedSize(u - {o});
      SlottedDrop(u, o);
      MapDropSize(u, o);
    }
  }

  lemma SlottedDrop(u: UtxoSet, o: Outpoint)
    requires o in u
    ensures |Slotted(u)| == |Slotted(u - {o})| + 1
  {
    var k := Slot(u[o].script, o);
    assert Slotted(u).Keys == Slotted(u - {o}).Keys + {k};
  }

  lemma MapDropSize(u: UtxoSet, o: Outpoint)
    requires o in u
    ensures |u| == |u - {o}| + 1
  {
    assert u.Keys == (u - {o}).Keys + {o};
  }

  lemma {:induction false} SubmapSize(a: UtxoSet, u: UtxoSet)
    requires a.Keys <= u.Keys
    ensures |Slotted(a)| <= |u|
  {
    SlottedSize(a);
    SubsetSize(a.Keys, u.Keys);
  }

  lemma AppliedNothing(utxos: Index, entries: Index)
    ensures Applied(utxos, entries, map[]) == utxos + entries && Total(map[]) == 0
  {
    NoKeys(utxos);
  }

  /** Exact tables stay exact when a page of new entries is added. */
  lemma PageStaysExact(before: Db, entries: Index, after: Db)
    requires CountsMatch(before) && SupplyMatches(before) && entries.Keys !! before.utxos.Keys
    requires |before.utxos| <= MAX_INT64 && |before.utxos + entries| <= MAX_INT64
    requires AddsPage(before, entries, after)
    ensures CountsMatch(after) && SupplyMatches(after)
  {
    var deltas :| DeltasOf(deltas, Stage(entries, ScriptsOf(entries)), EMPTY_STAGE) && CountsAfter(before.counts, deltas, after.counts);
    AppliedNothing(before.utxos, entries);
    CountsStayExact(before, Stage(entries, ScriptsOf(entries)), EMPTY_STAGE, deltas);
    SupplyStaysExact(before, entries, map[]);
  }

  // ---------- Staging a difference ----------

  /** Stored and staged entries together hold exactly the slots of `u`. */
  ghost predicate Tracks(utxos: Index, added: Index, removed: Index, u: UtxoSet, outputs: Outputs) {
    && GenuineSet(u, outputs) && Genuine(utxos, outputs) && Genuine(removed, outputs)
    && removed.Keys <= utxos.Keys && added.Keys !! utxos.Keys
    && (forall k :: InSet(k, u) <==> (k in utxos && k !in removed) || k in added)
    && (forall k :: k in added ==> added[k] == u[k.outpoint])
  }

  predicate InSet(k: Slot, u: UtxoSet) {
    k.outpoint in u && u[k.outpoint].script == k.script
  }

  /** `remove` of an outpoint of the set meets no error and tracks the smaller set. */
  lemma RemoveTracks(utxos: Index, added: Index, removed: Index, u: UtxoSet, outputs: Outputs, o: Outpoint, e: Entry)
    requires Tracks(utxos, added, removed, u, outputs) && o in u
    requires e.script == outputs(o).script && e.amount == outputs(o).amount
    ensures var k := Slot(e.script, o);
      if k in added then Tracks(utxos, added - {k}, removed, u - {o}, outputs)
      else k !in removed && Tracks(utxos, added, removed[k := e], u - {o}, outputs)
  {
    var k := Slot(e.script, o);
    assert InSet(k, u);
    forall j ensures InSet(j, u - {o}) <==> InSet(j, u) && j != k { }
  }

  /** `add` of an outpoint outside the set meets no error and tracks the larger set. */
  lemma AddTracks(utxos: Index, added: Index, removed: Index, u: UtxoSet, outputs: Outputs, o: Outpoint, e: Entry)
    requires Tracks(utxos, added, removed, u, outputs) && o !in u
    requires e.script == outputs(o).script && e.amount == outputs(o).amount
    ensures var k := Slot(e.script, o);
      if k in removed then Tracks(utxos, added, removed - {k}, u[o := e], outputs)
      else k !in added && Tracks(utxos, added[k := e], removed, u[o := e], outputs)
  {
    var k := Slot(e.script, o);
    assert !InSet(k, u);
    forall j ensures InSet(j, u[o := e]) <==> InSet(j, u) || j == k { }
  }

  lemma SetMinusMore(u: UtxoSet, gone: UtxoSet, rest: set<Outpoint>, o: Outpoint)
    requires rest <= gone.Keys && o in rest
    ensures u - (gone.Keys - (rest - {o})) == (u - (gone.Keys - rest)) - {o}
  {
  }

  lemma SetPlusMore(u: UtxoSet, more: UtxoSet, rest: set<Outpoint>, o: Outpoint)
    requires rest <= more.Keys && o in rest
    ensures u + (more - (rest - {o})) == (u + (more - rest))[o := more[o]]
  {
  }

  // ---------- What a committed difference leaves ----------

  /** The index of `u` in which the slots that were already stored keep their old entries. */
  ghost function Refreshed(utxos: Index, u: UtxoSet): Index {
    map k | k in Slotted(u) :: if k in utxos then utxos[k] else u[k.outpoint]
  }

  lemma SlottedIsSet(u: UtxoSet, k: Slot)
    ensures k in Slotted(u) <==> InSet(k, u)
  {
  }

  /** What is staged is exactly the difference between the stored and the tracked slots. */
  lemma StagedIsDifference(utxos: Index, added: Index, removed: Index, u: UtxoSet, outputs: Outputs)
    requires Tracks(utxos, added, removed, u, outputs)
    ensures StageFits(utxos, added, removed)
    ensures added.Keys == Slotted(u).Keys - utxos.Keys && removed.Keys == utxos.Keys - Slotted(u).Keys
  {
    forall k ensures k in Slotted(u) <==> InSet(k, u) { SlottedIsSet(u, k); }
  }

  lemma AppliedAt(utxos: Index, added: Index, removed: Index, k: Slot)
    ensures k in Applied(utxos, added, removed) <==> k in added || (k in utxos && k !in removed)
    ensures k in Applied(utxos, added, removed) ==>
      Applied(utxos, added, removed)[k] == if k in added then added[k] else utxos[k]
  {
  }

  lemma SameIndex(a: Index, b: Index)
    requires forall k :: (k in a <==> k in b) && (k in a ==> a[k] == b[k])
    ensures a == b
  {
  }

  lemma CommitRefreshes(utxos: Index, added: Index, removed: Index, u: UtxoSet, outputs: Outputs)
    requires Tracks(utxos, added, removed, u, outputs)
    ensures Applied(utxos, added, removed) == Refreshed(utxos, u)
  {
    var a, b := Applied(utxos, added, removed), Refreshed(utxos, u);
    forall k ensures (k in a <==> k in b) && (k in a ==> a[k] == b[k]) {
      AppliedAt(utxos, added, removed, k);
      SlottedIsSet(u, k);
    }
    SameIndex(a, b);
  }

  lemma RefreshedDescribes(utxos: Index, u: UtxoSet, outputs: Outputs)
    requires Genuine(utxos, outputs) && GenuineSet(u, outputs)
    ensures Describes(Refreshed(utxos, u), u) && Genuine(Refreshed(utxos, u), outputs)
  {
  }

  /** The index then tracks `u` with nothing staged. */
  lemma RefreshedTracks(utxos: Index, u: UtxoSet, outputs: Outputs)
    requires Genuine(utxos, outputs) && GenuineSet(u, outputs)
    ensures Tracks(Refreshed(utxos, u), map[], map[], u, outputs)
  {
    forall k ensures k in Slotted(u) <==> InSet(k, u) { }
  }

  /** What consensus promises about a virtual change. */
  predicate ValidDiff(u: UtxoSet, toAdd: UtxoSet, toRemove: UtxoSet, next: UtxoSet) {
    && toRemove.Keys <= u.Keys && toAdd.Keys !! u.Keys - toRemove.Keys
    && next == (u - toRemove.Keys) + toAdd
  }

  /**
    An exact index stays exact, entry by entry, if and only if no outpoint is on both sides of the
    difference with another entry.
  */
  lemma EntriesExactIff(u: UtxoSet, toAdd: UtxoSet, toRemove: UtxoSet, next: UtxoSet, outputs: Outputs)
    requires ValidDiff(u, toAdd, toRemove, next) && GenuineSet(u, outputs) && GenuineSet(toAdd, outputs)
    ensures Refreshed(Slotted(u), next) == Slotted(next)
       <==> forall o :: o in toRemove && o in toAdd ==> toAdd[o] == u[o]
  {
    if Refreshed(Slotted(u), next) == Slotted(next) {
      forall o | o in toRemove && o in toAdd ensures toAdd[o] == u[o] {
        var k := Slot(u[o].script, o);
        assert k in Slotted(u) && k in Slotted(next);
        assert Refreshed(Slotted(u), next)[k] == u[o];
      }
    }
  }

  /** A spent and re-created outpoint keeps the DAA score it had before. */
  lemma StaleScore(s: Script)
    ensures var u := map[0 := Entry(s, 5, 1, false)];
      var toAdd := map[0 := Entry(s, 5, 2, false)];
      var next := (u - u.Keys) + toAdd;
      ValidDiff(u, toAdd, u, next) && Refreshed(Slotted(u), next) != Slotted(next)
  {
    var u: UtxoSet := map[0 := Entry(s, 5, 1, false)];
    var toAdd: UtxoSet := map[0 := Entry(s, 5, 2, false)];
    assert 0 in u && 0 in toAdd && toAdd[0] != u[0];
    EntriesExactIff(u, toAdd, u, (u - u.Keys) + toAdd, o => Output(s, 5));
  }

  // ---------- The index ----------

  /** Every table describes the UTXO set `u`. */
  ghost predicate Exact(db: Db, u: UtxoSet) {
    CountsMatch(db) && SupplyMatches(db) && db.countsInitialized && Describes(db.utxos, u)
  }

  lemma DescribesSize(m: Index, u: UtxoSet)
    requires Describes(m, u)
    ensures |m| == |u|
  {
    SlottedSize(u);
    assert m.Keys == Slotted(u).Keys;
  }

  /** A tracked difference can be applied, and the result is no larger than the tracked set. */
  lemma TrackedFits(utxos: Index, added: Index, removed: Index, u: UtxoSet, outputs: Outputs)
    requires Tracks(utxos, added, removed, u, outputs)
    ensures StageFits(utxos, added, removed) && |Applied(utxos, added, removed)| == |u|
  {
    StagedIsDifference(utxos, added, removed, u, outputs);
    CommitRefreshes(utxos, added, removed, u, outputs);
    RefreshedSize(utxos, u);
  }

  /** The index after a tracked difference is applied. */
  lemma CommitTracks(utxos: Index, added: Index, removed: Index, u: UtxoSet, outputs: Outputs)
    requires Tracks(utxos, added, removed, u, outputs)
    ensures Applied(utxos, added, removed) == Refreshed(utxos, u) && Describes(Refreshed(utxos, u), u)
    ensures Tracks(Refreshed(utxos, u), map[], map[], u, outputs)
  {
    CommitRefreshes(utxos, added, removed, u, outputs);
    RefreshedDescribes(utxos, u, outputs);
    RefreshedTracks(utxos, u, outputs);
  }

  /** A commit of a tracked difference leaves exact tables of the tracked set. */
  lemma CommitStaysExact(db: Db, toAdd: Stage, toRemove: Stage, parents: seq<Hash>, after: Db, u: UtxoSet, outputs: Outputs)
    requires CountsMatch(db) && SupplyMatches(db) && |db.utxos| <= MAX_INT64 && |u| <= MAX_INT64
    requires Tracks(db.utxos, toAdd.entries, toRemove.entries, u, outputs) && ValidStage(toAdd) && ValidStage(toRemove)
    requires Commits(db, toAdd, toRemove, parents, after)
    ensures Exact(after, u) && after.utxos == Refreshed(db.utxos, u)
    ensures Tracks(after.utxos, map[], map[], u, outputs)
  {
    TrackedFits(db.utxos, toAdd.entries, toRemove.entries, u, outputs);
    CommitKeepsTables(db, toAdd, toRemove, parents, after);
    CommitTracks(db.utxos, toAdd.entries, toRemove.entries, u, outputs);
  }

  lemma RefreshedSize(utxos: Index, u: UtxoSet)
    ensures |Refreshed(utxos, u)| == |u|
  {
    SlottedSize(u);
    assert Refreshed(utxos, u).Keys == Slotted(u).Keys;
  }

  datatype Changes = Changes(added: Index, removed: Index)

  /** The changes are the entries of `u` that were not stored and the stored ones that are not in `u`. */
  ghost predicate Reports(changes: Changes, utxos: Index, u: UtxoSet) {
    && changes.added.Keys == Slotted(u).Keys - utxos.Keys
    && changes.removed.Keys == utxos.Keys - Slotted(u).Keys
    && (forall k :: k in changes.added ==> changes.added[k] == u[k.outpoint])
    && (forall k :: k in changes.removed ==> changes.removed[k].amount == utxos[k].amount)
  }

  lemma StagedReports(utxos: Index, added: Index, removed: Index, u: UtxoSet, outputs: Outputs)
    requires Tracks(utxos, added, removed, u, outputs)
    ensures Reports(Changes(added, removed), utxos, u)
  {
    StagedIsDifference(utxos, added, removed, u, outputs);
  }

  lemma ExactIsSafe(db: Db, parents: seq<Hash>, setOf: seq<Hash> -> UtxoSet)
    requires db.parents == Some(parents) && Exact(db, setOf(parents))
    ensures CrashSafe(db, setOf)
  {
  }

  ghost predicate SoundState(db: Db, trace: seq<Db>, toAdd: Stage, toRemove: Stage,
                             u: UtxoSet, setOf: seq<Hash> -> UtxoSet, outputs: Outputs)
  {
    && ValidStage(toAdd) && ValidStage(toRemove) && Tracks(db.utxos, toAdd.entries, toRemove.entries, u, outputs)
    && CrashSafe(db, setOf) && AllSafe(trace, setOf)
    && CountsMatch(db) && SupplyMatches(db) && |db.utxos| <= MAX_INT64
  }

  lemma CommitStaysSound(db: Db, trace: seq<Db>, toAdd: Stage, toRemove: Stage, parents: seq<Hash>, after: Db,
                         setOf: seq<Hash> -> UtxoSet, outputs: Outputs)
    requires SoundState(db, trace, toAdd, toRemove, setOf(parents), setOf, outputs) && |setOf(parents)| <= MAX_INT64
    requires Commits(db, toAdd, toRemove, parents, after)
    ensures SoundState(after, trace + [after], EMPTY_STAGE, EMPTY_STAGE, setOf(parents), setOf, outputs)
    ensures Exact(after, setOf(parents)) && after.utxos == Refreshed(db.utxos, setOf(parents))
  {
    CommitStaysExact(db, toAdd, toRemove, parents, after, setOf(parents), outputs);
    DescribesSize(after.utxos, setOf(parents));
    ExactIsSafe(after, parents, setOf);
    AllSafeMore(trace, after, setOf);
  }

  class UtxoIndex {
    const store: Store

    constructor (disk: Disk<Db>)
      ensures fresh(store) && store.disk == disk && store.Valid()
      ensures store.toAdd == EMPTY_STAGE && store.toRemove == EMPTY_STAGE
    {
      store := new Store(disk);
    }

    ghost predicate Following(u: UtxoSet, outputs: Outputs)
      reads store, store.disk
    {
      store.Valid() && Tracks(store.disk.state.utxos, store.toAdd.entries, store.toRemove.entries, u, outputs)
    }

    method RemoveUTXOs(toRemove: UtxoSet, ghost u: UtxoSet, ghost outputs: Outputs) returns (ok: bool)
      requires Following(u, outputs) && toRemove.Keys <= u.Keys && GenuineSet(toRemove, outputs)
      modifies store`toAdd, store`toRemove
      ensures ok && Following(u - toRemove.Keys, outputs)
    {
      var rest := toRemove.Keys;
      assert u - (toRemove.Keys - rest) == u;
      while rest != {}
        invariant rest <= toRemove.Keys && Following(u - (toRemove.Keys - rest), outputs)
        decreases rest
      {
        var o :| o in rest;
        ghost var now := u - (toRemove.Keys - rest);
        RemoveTracks(store.disk.state.utxos, store.toAdd.entries, store.toRemove.entries, now, outputs, o, toRemove[o]);
        SetMinusMore(u, toRemove, rest, o);
        ok := store.Remove(toRemove[o].script, o, toRemove[o]);
        if !ok { return; }
        rest := rest - {o};
      }
      ok := true;
    }

    method AddUTXOs(toAdd: UtxoSet, ghost u: UtxoSet, ghost outputs: Outputs) returns (ok: bool)
      requires Following(u, outputs) && toAdd.Keys !! u.Keys && GenuineSet(toAdd, outputs)
      modifies store`toAdd, store`toRemove
      ensures ok && Following(u + toAdd, outputs)
    {
      var rest := toAdd.Keys;
      assert u + (toAdd - rest) == u;
      while rest != {}
        invariant rest <= toAdd.Keys && Following(u + (toAdd - rest), outputs)
        decreases rest
      {
        var o :| o in rest;
        ghost var now := u + (toAdd - rest);
        AddTracks(store.disk.state.utxos, store.toAdd.entries, store.toRemove.entries, now, outputs, o, toAdd[o]);
        SetPlusMore(u, toAdd, rest, o);
        ok := store.Add(toAdd[o].script, o, toAdd[o]);
        if !ok { return; }
        rest := rest - {o};
      }
      assert toAdd - rest == toAdd;
      ok := true;
    }

    /** The index follows `u`, its counts and supply are exact, and no crash leaves a wrong synced marker. */
    ghost predicate Sound(u: UtxoSet, setOf: seq<Hash> -> UtxoSet, outputs: Outputs)
      reads store, store.disk
    {
      SoundState(store.disk.state, store.disk.durable, store.toAdd, store.toRemove, u, setOf, outputs)
    }

    /** The second half of `Update`: reports what is staged and commits it. A failed commit stays staged. */
    method CommitStaged(ghost setOf: seq<Hash> -> UtxoSet, ghost outputs: Outputs) returns (result: CommitResult, changes: Changes)
      requires Sound(setOf(store.virtualParents), setOf, outputs) && |setOf(store.virtualParents)| <= MAX_INT64
      modifies store, store.disk
      ensures result == Committed || result == DatabaseError
      ensures Sound(setOf(old(store.virtualParents)), setOf, outputs)
      ensures result == DatabaseError <==> store.disk.failing(old(store.disk.attempts))
      ensures store.disk.attempts == old(store.disk.attempts) + 1
      ensures result == DatabaseError ==>
        store.disk.state == old(store.disk.state) && store.disk.durable == old(store.disk.durable)
      ensures result == Committed ==>
        && store.toAdd == EMPTY_STAGE && store.toRemove == EMPTY_STAGE
        && store.disk.state.parents == Some(old(store.virtualParents))
        && Exact(store.disk.state, setOf(old(store.virtualParents)))
        && store.disk.state.utxos == Refreshed(old(store.disk.state).utxos, setOf(old(store.virtualParents)))
        && Reports(changes, old(store.disk.state).utxos, setOf(old(store.virtualParents)))
    {
      hide Tracks, Reports, Exact, Refreshed, Commits, CountsMatch, SupplyMatches, CrashSafe, AllSafe;
      changes := Changes(store.toAdd.entries, store.toRemove.entries);
      ghost var next, parents := setOf(store.virtualParents), store.virtualParents;
      ghost var db, trace, added, removed := store.disk.state, store.disk.durable, store.toAdd, store.toRemove;
      StagedReports(db.utxos, added.entries, removed.entries, next, outputs);
      TrackedFits(db.utxos, added.entries, removed.entries, next, outputs);
      CommitMeetsNoError(db, added, removed);
      result := store.Commit();
      if result == Committed {
        CommitStaysSound(db, trace, added, removed, parents, store.disk.state, setOf, outputs);
      }
    }

    /** `Update` */
    method Update(parents: seq<Hash>, toAdd: UtxoSet, toRemove: UtxoSet,
                  ghost u: UtxoSet, ghost setOf: seq<Hash> -> UtxoSet, ghost outputs: Outputs)
      returns (result: CommitResult, changes: Changes)
      requires Sound(u, setOf, outputs) && |setOf(parents)| <= MAX_INT64
      requires ValidDiff(u, toAdd, toRemove, setOf(parents)) && GenuineSet(toAdd, outputs) && GenuineSet(toRemove, outputs)
      modifies store, store.disk
      ensures result == Committed || result == DatabaseError
      ensures Sound(setOf(parents), setOf, outputs) && Safe(store.disk, setOf)
      ensures result == DatabaseError <==> store.disk.failing(old(store.disk.attempts))
      ensures store.disk.attempts == old(store.disk.attempts) + 1
      ensures result == DatabaseError ==> store.disk.state == old(store.disk.state)
      ensures result == Committed ==>
        && store.toAdd == EMPTY_STAGE && store.toRemove == EMPTY_STAGE
        && store.disk.state.parents == Some(parents)
        && Exact(store.disk.state, setOf(parents))
        && store.disk.state.utxos == Refreshed(old(store.disk.state).utxos, setOf(parents))
        && Reports(changes, old(store.disk.state).utxos, setOf(parents))
    {
      var ok := RemoveUTXOs(toRemove, u, outputs);
      ok := AddUTXOs(toAdd, u - toRemove.Keys, outputs);
      store.virtualParents := parents;
      result, changes := CommitStaged(setOf, outputs);
    }

    /** One round of the paging loop: asks for the next page and adds it. `None` is the error for other parents. */
    method AddNextPage(v: Virtual, parents: seq<Hash>, from: Option<Outpoint>,
                       ghost got: UtxoSet, ghost first: nat, ghost i: nat, ghost start: nat, ghost setOf: seq<Hash> -> UtxoSet)
      returns (ok: bool, page: Option<seq<Outpoint>>, ghost more: UtxoSet)
      requires Safe(store.disk, setOf) && ValidVirtual(v, setOf) && Succeeds(true, store.disk, start)
      requires Progress(store.disk.state, got, setOf(parents), from, false) && Requests(got, setOf(parents), first, i, false)
      modifies store.disk
      ensures Safe(store.disk, setOf)
      ensures page.None? <==> v.parents != parents
      ensures if page.None? then !ok && Succeeds(true, store.disk, start) else Succeeds(ok, store.disk, start)
      ensures page.Some? && ok ==> PageAdded(store.disk.state, got, more, setOf(parents), from, page.value, first, i)
    {
      hide Built, CountsMatch, SupplyMatches, CrashSafe, AllSafe, AddsPage, IsPage, ReadUpTo, NoneFails, Requests, PageSet, Progress, PageAdded;
      more := got;
      ProgressIsUnsynced(store.disk.state, got, setOf(parents), from);
      page := GetVirtualUTXOs(v, parents, from, STEP, setOf);
      if page.None? { return false, None, got; }
      PageInside(page.value, setOf(parents), from, STEP);
      var entries := Slotted(PageSet(page.value, v.utxos));
      ghost var before := store.disk.state;
      ProgressFits(before, got, setOf(parents), from, page.value);
      ok := store.AddPage(entries, start, setOf);
      if ok {
        more := PageIsAdded(before, got, setOf(parents), from, page.value, store.disk.state, first, i);
      }
    }

    /** The paging loop of `Reset`. */
    method BuildPages(parents: seq<Hash>, views: nat -> Virtual, first: nat, ghost start: nat, ghost setOf: seq<Hash> -> UtxoSet)
      returns (ok: bool)
      requires Safe(store.disk, setOf) && forall i :: ValidVirtual(views(i), setOf)
      requires Built(store.disk.state, map[]) && |setOf(parents)| <= MAX_INT64 && Succeeds(true, store.disk, start)
      modifies store.disk
      ensures Safe(store.disk, setOf)
      ensures ok ==> Built(store.disk.state, setOf(parents)) && store.disk.state.countsInitialized
      ensures start <= store.disk.attempts
      ensures ok <==> NoneFails(store.disk.failing, start, store.disk.attempts)
                      && Unchanged(views, parents, first, first + |setOf(parents)| / 1000 + 1)
    {
      hide Built, CrashSafe, AllSafe, ReadUpTo, NoneFails, Unchanged, Requests, ValidVirtual;
      var done := false;
      var i, from: Option<Outpoint> := first, None;
      ghost var u, got: UtxoSet := setOf(parents), map[];
      ProgressStart(store.disk.state, u);
      RequestStart(views, parents, u, first);
      while !done
        invariant Safe(store.disk, setOf) && Progress(store.disk.state, got, u, from, done)
        invariant Succeeds(true, store.disk, start) && Unchanged(views, parents, first, i) && Requests(got, u, first, i, done)
        decreases !done, u.Keys - got.Keys
      {
        RequestDue(got, u, first, i, from, store.disk.state);
        var page;
        ghost var more;
        ok, page, more := AddNextPage(views(i), parents, from, got, first, i, start, setOf);
        if page.None? {
          Changed(views, parents, first, i, first + |u| / 1000 + 1);
          return;
        }
        if !ok { return; }
        UnchangedMore(views, parents, first, i);
        got := more;
        done := |page.value| < STEP;
        if !done { from := Some(page.value[|page.value| - 1]); }
        i := i + 1;
      }
      RequestEnd(got, u, first, i);
      ok := true;
    }

    /** `Reset`: rebuilds the index from consensus, whose virtual at the i-th request is `views(i)`. */
    method Reset(views: nat -> Virtual, first: nat, ghost setOf: seq<Hash> -> UtxoSet) returns (ok: bool)
      requires Safe(store.disk, setOf) && forall i :: ValidVirtual(views(i), setOf)
      modifies store.disk
      ensures Safe(store.disk, setOf)
      ensures ok ==>
        && store.disk.state.parents == Some(views(first).parents)
        && store.disk.state.utxos == Slotted(setOf(views(first).parents))
        && Exact(store.disk.state, setOf(views(first).parents))
      ensures Rebuilds(ok, store.disk.failing, old(store.disk.attempts), store.disk.attempts, views, first)
    {
      hide NoneFails;
      ghost var start := store.disk.attempts;
      ok := store.DeleteAll(setOf);
      if !ok { return; }
      var parents := views(first).parents;
      ok := store.InitializeSupply(start, setOf);
      if !ok { return; }
      NothingBuilt(store.disk.state);
      ok := BuildPages(parents, views, first + 1, start, setOf);
      if !ok { return; }
      BuiltIsExact(store.disk.state, parents, setOf);
      ok := store.MarkSynced(parents, start, setOf);
    }
  }

  /** The virtual parents at the requests from number `from` up to `until`. */
  ghost predicate Unchanged(views: nat -> Virtual, parents: seq<Hash>, from: nat, until: nat) {
    forall i: nat :: from <= i < until ==> views(i).parents == parents
  }

  lemma Changed(views: nat -> Virtual, parents: seq<Hash>, from: nat, i: nat, until: nat)
    requires from <= i < until && views(i).parents != parents
    ensures !Unchanged(views, parents, from, until)
  {
  }

  /**
    A rebuild that makes the attempts from `from` to `until` succeeds if and only if none of its writes
    fails and the virtual parents are still the first ones at each of its requests, one per full page
    and one more.
  */
  ghost predicate Rebuilds(ok: bool, failing: nat -> bool, from: nat, until: nat, views: nat -> Virtual, first: nat) {
    && from <= until
    && (ok <==> NoneFails(failing, from, until)
                && Unchanged(views, views(first).parents, first + 1, first + |views(first).utxos| / 1000 + 2))
  }

  /** Every request before number `i` gave a full page; the last one completes the set. */
  ghost predicate Requests(got: UtxoSet, u: UtxoSet, first: nat, i: nat, done: bool) {
    first <= i && if done then i == first + |u| / 1000 + 1 else |got| == 1000 * (i - first)
  }

  lemma UnchangedMore(views: nat -> Virtual, parents: seq<Hash>, first: nat, i: nat)
    requires Unchanged(views, parents, first, i) && views(i).parents == parents
    ensures Unchanged(views, parents, first, i + 1)
  {
  }

  lemma RequestStart(views: nat -> Virtual, parents: seq<Hash>, u: UtxoSet, first: nat)
    ensures Unchanged(views, parents, first, first) && Requests(map[], u, first, first, false)
  {
  }

  lemma RequestEnd(got: UtxoSet, u: UtxoSet, first: nat, i: nat)
    requires Requests(got, u, first, i, true)
    ensures i == first + |u| / 1000 + 1
  {
  }

  lemma RequestDue(got: UtxoSet, u: UtxoSet, first: nat, i: nat, from: Option<Outpoint>, db: Db)
    requires Requests(got, u, first, i, false) && Progress(db, got, u, from, false)
    ensures first <= i < first + |u| / 1000 + 1
  {
    assert got.Keys <= u.Keys;
    SubsetSize(got.Keys, u.Keys);
  }

  lemma RequestMore(got: UtxoSet, u: UtxoSet, from: Option<Outpoint>, page: seq<Outpoint>, first: nat, i: nat)
    requires Requests(got, u, first, i, false) && ReadUpTo(got, u, from) && IsPage(page, u, from, STEP)
    ensures Requests(got + PageSet(page, u), u, first, i + 1, |page| < STEP)
  {
    PageMore(got, u, from, page);
    PageSize(page, u);
    var more := got + PageSet(page, u);
    assert more.Keys == got.Keys + PageSet(page, u).Keys;
    assert |more| == |got| + |page|;
  }

  lemma PageSize(page: seq<Outpoint>, u: UtxoSet)
    requires Ascending(page) && forall o :: o in page ==> o in u
    ensures |PageSet(page, u)| == |page|
  {
    DistinctSize(page);
    assert PageSet(page, u).Keys == Elements(page);
  }

  /** How far the paging loop is: `got` of `u` is built. */
  ghost predicate Progress(db: Db, got: UtxoSet, u: UtxoSet, from: Option<Outpoint>, done: bool) {
    && db.parents.None? && Built(db, got) && |u| <= MAX_INT64
    && if done then got == u && db.countsInitialized else ReadUpTo(got, u, from) && (from.Some? ==> from.value in u)
  }

  lemma ProgressStart(db: Db, u: UtxoSet)
    requires Built(db, map[]) && |u| <= MAX_INT64
    ensures Progress(db, map[], u, None, false)
  {
  }

  lemma ProgressMore(before: Db, got: UtxoSet, u: UtxoSet, from: Option<Outpoint>, page: seq<Outpoint>, after: Db)
    requires Progress(before, got, u, from, false) && IsPage(page, u, from, STEP)
    requires AddsPage(before, Slotted(PageSet(page, u)), after) && after.parents.None?
    ensures var more := got + PageSet(page, u);
      if |page| < STEP then Progress(after, more, u, from, true)
      else Progress(after, more, u, Some(page[|page| - 1]), false) && u.Keys - more.Keys < u.Keys - got.Keys
  {
    hide Built, AddsPage, ReadUpTo;
    PageMore(got, u, from, page);
    PageBuilt(before, got, PageSet(page, u), after, u);
  }

  /** The loop after a page: done with a short one, and closer to the end with a full one. */
  ghost predicate PageAdded(after: Db, got: UtxoSet, more: UtxoSet, u: UtxoSet, from: Option<Outpoint>, page: seq<Outpoint>,
                            first: nat, i: nat)
  {
    && Requests(more, u, first, i + 1, |page| < STEP)
    && if |page| < STEP then Progress(after, more, u, from, true)
       else Progress(after, more, u, Some(page[|page| - 1]), false) && u.Keys - more.Keys < u.Keys - got.Keys
  }

  lemma PageIsAdded(before: Db, got: UtxoSet, u: UtxoSet, from: Option<Outpoint>, page: seq<Outpoint>, after: Db,
                    first: nat, i: nat)
    returns (more: UtxoSet)
    requires Progress(before, got, u, from, false) && IsPage(page, u, from, STEP) && Requests(got, u, first, i, false)
    requires AddsPage(before, Slotted(PageSet(page, u)), after) && after.parents.None?
    ensures PageAdded(after, got, more, u, from, page, first, i)
  {
    hide Built, AddsPage, ReadUpTo, Requests;
    ProgressMore(before, got, u, from, page, after);
    RequestMore(got, u, from, page, first, i);
    more := got + PageSet(page, u);
  }

  lemma ProgressIsUnsynced(db: Db, got: UtxoSet, u: UtxoSet, from: Option<Outpoint>)
    requires Progress(db, got, u, from, false)
    ensures db.parents.None? && ReadUpTo(got, u, from) && (from.Some? ==> from.value in u)
  {
  }

  /** The next page meets none of the errors that are not the database's. */
  lemma ProgressFits(before: Db, got: UtxoSet, u: UtxoSet, from: Option<Outpoint>, page: seq<Outpoint>)
    requires Progress(before, got, u, from, false) && IsPage(page, u, from, STEP)
    ensures PageFits(before, Slotted(PageSet(page, u)))
  {
    hide CountsMatch, SupplyMatches, NewSupply, ReadUpTo, IsPage;
    PageMore(got, u, from, page);
    var more := PageSet(page, u);
    var entries := Slotted(more);
    SlottedPlus(got, more);
    BuiltSizes(got, more, u);
    AppliedNothing(before.utxos, entries);
    CommitMeetsNoError(before, Stage(entries, ScriptsOf(entries)), EMPTY_STAGE);
  }

  /** Unsynced but otherwise exact tables of `got`. */
  ghost predicate Built(db: Db, got: UtxoSet) {
    db.parents.None? && db.utxos == Slotted(got) && CountsMatch(db) && SupplyMatches(db) && |got| <= MAX_INT64
  }

  lemma NothingBuilt(db: Db)
    requires db.parents.None? && db.utxos == map[] && db.counts == map[] && db.supply == Some(WrapUint64(Total(map[])))
    ensures Built(db, map[])
  {
    forall s ensures CountOf(db.utxos, s) == 0 { assert SlotsOf(db.utxos, s) == {}; }
  }

  lemma BuiltSizes(got: UtxoSet, page: UtxoSet, u: UtxoSet)
    requires got.Keys !! page.Keys && got.Keys + page.Keys <= u.Keys && |u| <= MAX_INT64
    ensures |got + page| <= MAX_INT64 && |Slotted(got)| <= MAX_INT64 && |Slotted(got) + Slotted(page)| <= MAX_INT64
  {
    SlottedPlus(got, page);
    SubmapSize(got, u);
    SubmapSize(got + page, u);
    SubsetSize((got + page).Keys, u.Keys);
  }

  lemma PageBuilt(before: Db, got: UtxoSet, page: UtxoSet, after: Db, u: UtxoSet)
    requires Built(before, got) && got.Keys !! page.Keys && got.Keys + page.Keys <= u.Keys && |u| <= MAX_INT64
    requires AddsPage(before, Slotted(page), after) && after.parents.None?
    ensures Built(after, got + page) && after.countsInitialized
  {
    hide CountsMatch, SupplyMatches, NewSupply;
    SlottedPlus(got, page);
    BuiltSizes(got, page, u);
    PageStaysExact(before, Slotted(page), after);
  }

  lemma BuiltIsExact(db: Db, parents: seq<Hash>, setOf: seq<Hash> -> UtxoSet)
    requires Built(db, setOf(parents)) && db.countsInitialized
    ensures Exact(db.(parents := Some(parents)), setOf(parents)) && CrashSafe(db.(parents := Some(parents)), setOf)
  {
    var synced := db.(parents := Some(parents));
    assert CountsMatch(synced);
  }

  // ---------- Starting, and whole runs ----------

  lemma DescribesTracks(m: Index, u: UtxoSet, outputs: Outputs)
    requires Describes(m, u) && GenuineSet(u, outputs)
    ensures Tracks(m, map[], map[], u, outputs)
  {
    forall k ensures k in Slotted(u) <==> InSet(k, u) { SlottedIsSet(u, k); }
  }

  /**
    A rebuild leaves an index that, together with what is still staged, holds the virtual set if and
    only if nothing is staged: `Reset` does not discard.
  */
  lemma ResetTracksIff(u: UtxoSet, added: Index, removed: Index, outputs: Outputs)
    requires GenuineSet(u, outputs)
    ensures Tracks(Slotted(u), added, removed, u, outputs) <==> added == map[] && removed == map[]
  {
    forall k ensures k in Slotted(u) <==> InSet(k, u) { SlottedIsSet(u, k); }
    if Tracks(Slotted(u), added, removed, u, outputs) {
      forall k ensures k !in added && k !in removed { assert k in Slotted(u) <==> InSet(k, u); }
      assert added.Keys == {} && removed.Keys == {};
    } else if added == map[] && removed == map[] {
      DescribesTracks(Slotted(u), u, outputs);
    }
  }

  /** An addition that a failed commit left staged is staged on top of the rebuilt index. */
  lemma StagedSurvivesReset(s: Script)
    ensures var e := Entry(s, 5, 1, false);
      var u: UtxoSet, k := map[0 := e], Slot(s, 0);
      var outputs: Outputs := _ => Output(s, 5);
      Tracks(map[], map[k := e], map[], u, outputs) && !Tracks(Slotted(u), map[k := e], map[], u, outputs)
  {
    var e := Entry(s, 5, 1, false);
    var u: UtxoSet, k := map[0 := e], Slot(s, 0);
    var outputs: Outputs := _ => Output(s, 5);
    ResetTracksIff(u, map[k := e], map[], outputs);
    assert k in map[k := e];
  }

  /** What holds of every virtual UTXO set. */
  ghost predicate World(setOf: seq<Hash> -> UtxoSet, outputs: Outputs) {
    forall parents :: GenuineSet(setOf(parents), outputs) && |setOf(parents)| <= MAX_INT64
  }

  /** Synced, exact, nothing staged. */
  ghost predicate Healthy(index: UtxoIndex, setOf: seq<Hash> -> UtxoSet, outputs: Outputs)
    reads index.store, index.store.disk
  {
    var db := index.store.disk.state;
    && db.parents.Some? && Exact(db, setOf(db.parents.value)) && index.Sound(setOf(db.parents.value), setOf, outputs)
    && index.store.toAdd == EMPTY_STAGE && index.store.toRemove == EMPTY_STAGE
  }

  lemma ExactIsSound(db: Db, trace: seq<Db>, parents: seq<Hash>, setOf: seq<Hash> -> UtxoSet, outputs: Outputs)
    requires World(setOf, outputs) && db.parents == Some(parents) && Exact(db, setOf(parents)) && AllSafe(trace, setOf)
    ensures SoundState(db, trace, EMPTY_STAGE, EMPTY_STAGE, setOf(parents), setOf, outputs)
  {
    DescribesTracks(db.utxos, setOf(parents), outputs);
    DescribesSize(db.utxos, setOf(parents));
    ExactIsSafe(db, parents, setOf);
  }

  /** What `New` takes for an index of the virtual `v`. */
  predicate Intact(db: Db, v: Virtual) {
    db.parents == Some(v.parents) && db.supply.Some? && db.countsInitialized
  }

  /** `New`: keeps an index that is synced with the current virtual, and rebuilds any other. */
  method New(disk: Disk<Db>, views: nat -> Virtual, ghost setOf: seq<Hash> -> UtxoSet) returns (index: UtxoIndex, ok: bool)
    requires Safe(disk, setOf) && forall i :: ValidVirtual(views(i), setOf)
    modifies disk
    ensures fresh(index) && fresh(index.store) && index.store.disk == disk
    ensures index.store.toAdd == EMPTY_STAGE && index.store.toRemove == EMPTY_STAGE
    ensures Safe(disk, setOf)
    ensures ok ==> disk.state.parents.Some? && Exact(disk.state, setOf(disk.state.parents.value))
    ensures if Intact(old(disk.state), views(0)) then ok && disk.state == old(disk.state) && disk.attempts == old(disk.attempts)
            else Rebuilds(ok, disk.failing, old(disk.attempts), disk.attempts, views, 1)
                 && (ok ==> disk.state.parents == Some(views(1).parents))
  {
    hide Built, CountsMatch, SupplyMatches, AllSafe, Describes;
    index := new UtxoIndex(disk);
    var isSynced := disk.state.parents == Some(views(0).parents);
    if !isSynced || disk.state.supply.None? || !disk.state.countsInitialized {
      ok := index.Reset(views, 1, setOf);
    } else {
      ok := true;
    }
  }

  // ---------- Answers of a healthy index ----------

  /** The outpoints of the set that pay to a script. */
  ghost function Paying(u: UtxoSet, script: Script): set<Outpoint> {
    set o | o in u && u[o].script == script
  }

  ghost function Keyed(script: Script, outpoints: set<Outpoint>): set<Slot> {
    set o | o in outpoints :: Slot(script, o)
  }

  ghost function Amounts(u: UtxoSet, outpoints: set<Outpoint>): nat
    requires outpoints <= u.Keys
  {
    if outpoints == {} then 0
    else
      var o :| o in outpoints;
      u[o].amount + Amounts(u, outpoints - {o})
  }

  lemma {:induction false} AmountsAreTotal(m: Index, u: UtxoSet, outpoints: set<Outpoint>)
    requires outpoints <= u.Keys && m.Keys == (set o | o in outpoints :: Slot(u[o].script, o))
    requires forall k :: k in m ==> m[k].amount == u[k.outpoint].amount
    ensures Total(m) == Amounts(u, outpoints)
    decreases |outpoints|
  {
    if outpoints == {} {
      assert m == map[];
    } else {
      var o :| o in outpoints && Amounts(u, outpoints) == u[o].amount + Amounts(u, outpoints - {o});
      var k := Slot(u[o].script, o);
      assert k in m;
      TotalRemove(m, k);
      assert (m - {k}).Keys == (set p | p in outpoints - {o} :: Slot(u[p].script, p));
      AmountsAreTotal(m - {k}, u, outpoints - {o});
    }
  }

  lemma PartPays(m: Index, u: UtxoSet, script: Script)
    requires Describes(m, u)
    ensures Balance(m, script) == Amounts(u, Paying(u, script))
    ensures SlotsOf(m, script) == Keyed(script, Paying(u, script))
  {
    var part := PartOf(m, script);
    forall k ensures k in m <==> InSet(k, u) { SlottedIsSet(u, k); }
    assert part.Keys == (set o | o in Paying(u, script) :: Slot(u[o].script, o));
    AmountsAreTotal(part, u, Paying(u, script));
  }

  lemma AllPay(m: Index, u: UtxoSet)
    requires Describes(m, u)
    ensures Total(m) == Amounts(u, u.Keys)
  {
    forall k ensures k in m <==> InSet(k, u) { SlottedIsSet(u, k); }
    assert m.Keys == (set o | o in u.Keys :: Slot(u[o].script, o));
    AmountsAreTotal(m, u, u.Keys);
  }

  /** The bucket in key order, cut at the limit: `pairs` are the first outpoints that pay to the script. */
  ghost predicate Lists(pairs: seq<Pair>, u: UtxoSet, script: Script, limit: nat) {
    && (forall i, j :: 0 <= i < j < |pairs| ==> pairs[i].outpoint < pairs[j].outpoint)
    && (forall p :: p in pairs ==> p.outpoint in Paying(u, script) && p.entry.amount == u[p.outpoint].amount)
    && (limit > 0 ==> |pairs| <= limit)
    && (forall o :: o in Paying(u, script) ==>
          (exists p :: p in pairs && p.outpoint == o)
          || (limit > 0 && |pairs| == limit && forall p :: p in pairs ==> p.outpoint < o))
  }

  lemma ListedLists(m: Index, u: UtxoSet, script: Script, rest: set<Slot>, pairs: seq<Pair>, limit: nat)
    requires Describes(m, u) && Listed(m, script, rest, pairs)
    requires (rest != {} ==> limit > 0 && |pairs| == limit) && (limit > 0 ==> |pairs| <= limit)
    ensures Lists(pairs, u, script, limit)
  {
    PartPays(m, u, script);
    forall p | p in pairs ensures p.outpoint in Paying(u, script) {
      SlottedIsSet(u, Slot(script, p.outpoint));
    }
    forall o | o in Paying(u, script)
      ensures (exists p :: p in pairs && p.outpoint == o)
           || (limit > 0 && |pairs| == limit && forall p :: p in pairs ==> p.outpoint < o)
    {
      var k := Slot(script, o);
      assert k in SlotsOf(m, script);
      if k !in rest { assert Pair(k.outpoint, m[k]) in pairs; }
    }
  }

  /** `UTXOs`, `HasUTXOs`, `GetBalance` and `GetCirculatingSompiSupply` of a healthy index: they answer from the virtual set. */
  method ReadUTXOs(index: UtxoIndex, script: Script, limit: nat, ghost setOf: seq<Hash> -> UtxoSet, ghost outputs: Outputs)
    returns (pairs: Option<seq<Pair>>)
    requires Healthy(index, setOf, outputs)
    ensures pairs.Some? && Lists(pairs.value, setOf(index.store.disk.state.parents.value), script, limit)
  {
    hide Lists, Listed, SoundState, CountsMatch, SupplyMatches, Describes;
    pairs := index.store.UTXOs(script, limit);
    var m := index.store.disk.state.utxos;
    ghost var rest :| Listed(m, script, rest, pairs.value)
                      && (rest != {} ==> limit > 0 && |pairs.value| == limit) && (limit > 0 ==> |pairs.value| <= limit);
    ListedLists(m, setOf(index.store.disk.state.parents.value), script, rest, pairs.value, limit);
  }

  method ReadHasUTXOs(index: UtxoIndex, script: Script, ghost setOf: seq<Hash> -> UtxoSet, ghost outputs: Outputs)
    returns (has: Option<bool>)
    requires Healthy(index, setOf, outputs)
    ensures has == Some(Paying(setOf(index.store.disk.state.parents.value), script) != {})
  {
    hide SoundState, CountsMatch, SupplyMatches, Describes, SlotsOf, Paying;
    has := index.store.HasUTXOs(script);
    ghost var u := setOf(index.store.disk.state.parents.value);
    PartPays(index.store.disk.state.utxos, u, script);
    NoneOrSome(Paying(u, script), script);
  }

  lemma NoneOrSome(outpoints: set<Outpoint>, script: Script)
    ensures Keyed(script, outpoints) == {} <==> outpoints == {}
  {
    if outpoints != {} {
      var o :| o in outpoints;
      assert Slot(script, o) in Keyed(script, outpoints);
    }
  }

  method ReadBalance(index: UtxoIndex, script: Script, ghost setOf: seq<Hash> -> UtxoSet, ghost outputs: Outputs)
    returns (balance: Option<nat>)
    requires Healthy(index, setOf, outputs)
    ensures var u := setOf(index.store.disk.state.parents.value);
      balance == Some(Amounts(u, Paying(u, script)) % TWO_TO_64)
  {
    hide SoundState, CountsMatch, SupplyMatches, Describes, Amounts, Paying, WrapUint64;
    balance := index.store.GetBalance(script);
    WrapIsRemainder(Balance(index.store.disk.state.utxos, script));
    PartPays(index.store.disk.state.utxos, setOf(index.store.disk.state.parents.value), script);
  }

  method ReadSupply(index: UtxoIndex, ghost setOf: seq<Hash> -> UtxoSet, ghost outputs: Outputs)
    returns (supply: Option<nat>)
    requires Healthy(index, setOf, outputs)
    ensures var u := setOf(index.store.disk.state.parents.value);
      supply == Some(Amounts(u, u.Keys) % TWO_TO_64)
  {
    hide SoundState, CountsMatch, Describes, Amounts, Balances, Total, WrapUint64;
    var db := index.store.disk.state;
    supply := index.store.GetSupply();
    BalancesAddUp(db.utxos, ScriptsOf(db.utxos));
    WrapIsRemainder(Total(db.utxos));
    AllPay(db.utxos, setOf(db.parents.value));
  }

  /**
    What can happen to a node. `Restart` is also how a crash ends: the new process finds the disk as it
    was after write number `at`, and its attempts at a write fail as `failing` says.
  */
  datatype Event =
    | VirtualChange(parents: seq<Hash>, toAdd: UtxoSet, toRemove: UtxoSet)
    | PruningPointReset(views: nat -> Virtual)
    | Restart(at: nat, failing: nat -> bool, views: nat -> Virtual)

  ghost predicate ValidEvent(event: Event, setOf: seq<Hash> -> UtxoSet, outputs: Outputs) {
    match event
    case VirtualChange(_, toAdd, toRemove) => GenuineSet(toAdd, outputs) && GenuineSet(toRemove, outputs)
    case PruningPointReset(views) => forall i :: ValidVirtual(views(i), setOf)
    case Restart(_, _, views) => forall i :: ValidVirtual(views(i), setOf)
  }

  /** An error stops the node, which leaves a crash-safe disk. */
  method HandleChange(index: UtxoIndex, parents: seq<Hash>, toAdd: UtxoSet, toRemove: UtxoSet,
                      setOf: seq<Hash> -> UtxoSet, ghost outputs: Outputs)
    returns (up: bool)
    requires Healthy(index, setOf, outputs) && World(setOf, outputs)
    requires GenuineSet(toAdd, outputs) && GenuineSet(toRemove, outputs)
    modifies index.store, index.store.disk
    ensures Safe(index.store.disk, setOf) && (up ==> Healthy(index, setOf, outputs))
    ensures var before := old(index.store.disk.state.parents);
      if ValidDiff(setOf(before.value), toAdd, toRemove, setOf(parents))
      then (up <==> !index.store.disk.failing(old(index.store.disk.attempts)))
           && index.store.disk.attempts == old(index.store.disk.attempts) + 1
           && (up ==> index.store.disk.state.parents == Some(parents))
      else up && index.store.disk.state.parents == before && index.store.disk.attempts == old(index.store.disk.attempts)
  {
    hide Tracks, Exact, CrashSafe, AllSafe, CountsMatch, SupplyMatches, GenuineSet, Refreshed, Reports;
    var now := setOf(index.store.disk.state.parents.value);
    up := true;
    if ValidDiff(now, toAdd, toRemove, setOf(parents)) {
      var result, changes := index.Update(parents, toAdd, toRemove, now, setOf, outputs);
      up := result == Committed;
    }
  }

  method HandleReset(index: UtxoIndex, views: nat -> Virtual, ghost setOf: seq<Hash> -> UtxoSet, ghost outputs: Outputs)
    returns (up: bool)
    requires Healthy(index, setOf, outputs) && World(setOf, outputs) && forall i :: ValidVirtual(views(i), setOf)
    modifies index.store.disk
    ensures Safe(index.store.disk, setOf) && (up ==> Healthy(index, setOf, outputs))
    ensures up ==> index.store.disk.state.parents == Some(views(0).parents)
    ensures Rebuilds(up, index.store.disk.failing, old(index.store.disk.attempts), index.store.disk.attempts, views, 0)
  {
    hide Tracks, Exact, CrashSafe, AllSafe, CountsMatch, SupplyMatches, Slotted;
    up := index.Reset(views, 0, setOf);
    if up {
      var disk := index.store.disk;
      ExactIsSound(disk.state, disk.durable, disk.state.parents.value, setOf, outputs);
    }
  }

  method HandleRestart(disk: Disk<Db>, at: nat, failing: nat -> bool, views: nat -> Virtual,
                       ghost setOf: seq<Hash> -> UtxoSet, ghost outputs: Outputs)
    returns (after: Disk<Db>, index: UtxoIndex?)
    requires Safe(disk, setOf) && World(setOf, outputs) && forall i :: ValidVirtual(views(i), setOf)
    ensures fresh(after) && Safe(after, setOf) && after.failing == failing
    ensures index != null ==> fresh(index) && fresh(index.store) && index.store.disk == after && Healthy(index, setOf, outputs)
    ensures if Intact(Found(disk, at), views(0)) then index != null && after.state == Found(disk, at) && after.attempts == 0
            else Rebuilds(index != null, failing, 0, after.attempts, views, 1)
                 && (index != null ==> after.state.parents == Some(views(1).parents))
  {
    hide Tracks, Exact, CrashSafe, AllSafe, CountsMatch, SupplyMatches, NoneFails;
    after := Crash(disk, at, failing, setOf);
    var ok;
    index, ok := New(after, views, setOf);
    if ok {
      ExactIsSound(after.state, after.durable, after.state.parents.value, setOf, outputs);
    } else {
      index := null;
    }
  }

  /** The state that a crash leaves: any state the disk was ever in, or the last one. */
  function Found(disk: Disk<Db>, at: nat): Db
    reads disk
  {
    if at < |disk.durable| then disk.durable[at] else disk.state
  }

  method Crash(disk: Disk<Db>, at: nat, failing: nat -> bool, ghost setOf: seq<Hash> -> UtxoSet) returns (after: Disk<Db>)
    requires Safe(disk, setOf)
    ensures fresh(after) && Safe(after, setOf) && after.state == Found(disk, at) && after.failing == failing && after.attempts == 0
  {
    after := new Disk(Found(disk, at), failing);
  }

  /** The virtual that the index is at, `None` if the node is down, and how far its disk is. */
  datatype Status = Status(parents: Option<seq<Hash>>, failing: nat -> bool, attempts: nat)

  /** How an event moves a node. It goes down only by a failing write or by a virtual that changes during a rebuild. */
  ghost predicate Moves(event: Event, before: Status, after: Status, setOf: seq<Hash> -> UtxoSet) {
    match event
    case VirtualChange(parents, toAdd, toRemove) =>
      if before.parents.Some? && ValidDiff(setOf(before.parents.value), toAdd, toRemove, setOf(parents))
      then after == Status(if before.failing(before.attempts) then None else Some(parents), before.failing, before.attempts + 1)
      else after == before
    case PruningPointReset(views) =>
      if before.parents.Some? then after.failing == before.failing && Rebuilt(before.attempts, after, views, 0)
      else after == before
    case Restart(_, failing, views) =>
      after.failing == failing && (after == Status(Some(views(0).parents), failing, 0) || Rebuilt(0, after, views, 1))
  }

  ghost predicate Rebuilt(from: nat, after: Status, views: nat -> Virtual, first: nat) {
    && (after.parents.Some? ==> after.parents == Some(views(first).parents))
    && Rebuilds(after.parents.Some?, after.failing, from, after.attempts, views, first)
  }

  ghost predicate Moved(at: seq<Status>, events: seq<Event>, n: nat, setOf: seq<Hash> -> UtxoSet) {
    && n <= |events| && |at| == n + 1 && at[0].parents == None
    && forall i :: 0 <= i < n ==> Moves(events[i], at[i], at[i + 1], setOf)
  }

  lemma MovedMore(at: seq<Status>, events: seq<Event>, n: nat, setOf: seq<Hash> -> UtxoSet, after: Status)
    requires n < |events| && Moved(at, events, n, setOf) && Moves(events[n], at[n], after, setOf)
    ensures Moved(at + [after], events, n + 1, setOf)
  {
    hide Moves;
  }

  ghost function StatusOf(disk: Disk<Db>, up: bool): Status
    reads disk
  {
    Status(if up then disk.state.parents else None, disk.failing, disk.attempts)
  }

  /** One event. */
  method Handle(disk: Disk<Db>, index: UtxoIndex?, event: Event, setOf: seq<Hash> -> UtxoSet, ghost outputs: Outputs)
    returns (after: Disk<Db>, next: UtxoIndex?)
    requires Safe(disk, setOf) && World(setOf, outputs) && ValidEvent(event, setOf, outputs)
    requires index != null ==> index.store.disk == disk && Healthy(index, setOf, outputs)
    modifies disk, if index == null then {} else {index.store}
    ensures Safe(after, setOf) && (after == disk || fresh(after))
    ensures next != null ==> next.store.disk == after && Healthy(next, setOf, outputs)
    ensures next != null ==> next == index || (fresh(next) && fresh(next.store))
    ensures Moves(event, old(StatusOf(disk, index != null)), StatusOf(after, next != null), setOf)
  {
    hide Exact, SoundState, CrashSafe, AllSafe, GenuineSet, NoneFails, ValidDiff;
    after, next := disk, index;
    var up := true;
    match event
    case VirtualChange(parents, toAdd, toRemove) =>
      if index != null { up := HandleChange(index, parents, toAdd, toRemove, setOf, outputs); }
      if !up { next := null; }
    case PruningPointReset(views) =>
      if index != null { up := HandleReset(index, views, setOf, outputs); }
      if !up { next := null; }
    case Restart(at, failing, views) =>
      after, next := HandleRestart(disk, at, failing, views, setOf, outputs);
  }

  /**
    Any run of changes, rebuilds, failures and crashes: while the node is up the index is exact, it is at
    the virtual that the last change or rebuild brought, and the node is up unless a write failed or the
    virtual changed during a rebuild.
  */
  method Run(disk: Disk<Db>, events: seq<Event>, setOf: seq<Hash> -> UtxoSet, ghost outputs: Outputs)
    returns (last: Disk<Db>, index: UtxoIndex?, ghost at: seq<Status>)
    requires Safe(disk, setOf) && World(setOf, outputs) && forall i :: 0 <= i < |events| ==> ValidEvent(events[i], setOf, outputs)
    modifies disk
    ensures Safe(last, setOf)
    ensures index != null ==> index.store.disk == last && Healthy(index, setOf, outputs)
    ensures Moved(at, events, |events|, setOf) && StatusOf(last, index != null) == at[|events|]
  {
    hide Exact, SoundState, CrashSafe, AllSafe, GenuineSet, Moves, ValidEvent;
    last, index, at := disk, null, [StatusOf(disk, false)];
    for i := 0 to |events|
      invariant (last == disk || fresh(last)) && Safe(last, setOf)
      invariant index != null ==> fresh(index) && fresh(index.store) && index.store.disk == last && Healthy(index, setOf, outputs)
      invariant Moved(at, events, i, setOf) && StatusOf(last, index != null) == at[i]
    {
      last, index := Handle(last, index, events[i], setOf, outputs);
      MovedMore(at, events, i, setOf, StatusOf(last, index != null));
      at := at + [StatusOf(last, index != null)];
    }
  }

  ghost predicate Never(failing: nat -> bool) {
    forall n :: !failing(n)
  }

  /** No write of the process fails, and no rebuild sees the virtual change. */
  ghost predicate Reliable(event: Event) {
    match event
    case VirtualChange(_, _, _) => true
    case PruningPointReset(views) => forall i :: views(i).parents == views(0).parents
    case Restart(_, failing, views) => Never(failing) && forall i :: views(i).parents == views(0).parents
  }

  /** The virtual that an event brings. */
  ghost function Target(event: Event, before: Option<seq<Hash>>, setOf: seq<Hash> -> UtxoSet): Option<seq<Hash>> {
    match event
    case VirtualChange(parents, toAdd, toRemove) =>
      if before.Some? && ValidDiff(setOf(before.value), toAdd, toRemove, setOf(parents)) then Some(parents) else before
    case PruningPointReset(views) => Some(views(0).parents)
    case Restart(_, _, views) => Some(views(0).parents)
  }

  /** A run without failures: once started, the node stays up, at the virtual that every event brings. */
  lemma {:induction false} ReliableRun(at: seq<Status>, events: seq<Event>, setOf: seq<Hash> -> UtxoSet, i: nat)
    requires Moved(at, events, |events|, setOf) && i < |events|
    requires events[0].Restart? && forall j :: 0 <= j < |events| ==> Reliable(events[j])
    ensures at[i + 1].parents.Some? && Never(at[i + 1].failing)
    ensures at[i + 1].parents == Target(events[i], at[i].parents, setOf)
    decreases i
  {
    if i > 0 { ReliableRun(at, events, setOf, i - 1); }
    assert Moves(events[i], at[i], at[i + 1], setOf) && Reliable(events[i]);
  }
}
