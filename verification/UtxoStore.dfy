/**
  The store of the UTXO index (domain/utxoindex/store.go): a staged difference and its atomic commit
  together with the per-script counts, the circulating supply and the synced marker.

  The source stages entries in a map of buckets, one per script. A stage here holds its entries by
  (script, outpoint) and, separately, the scripts a bucket was made for: a bucket stays when its last
  entry is taken out.
*/
module UtxoStore {
  import opened Basics
  import opened Disk
  import opened UtxoModel

  datatype Stage = Stage(entries: Index, buckets: set<Script>)

  predicate ValidStage(stage: Stage) {
    forall k :: k in stage.entries ==> k.script in stage.buckets
  }

  const EMPTY_STAGE := Stage(map[], {})

  function Put(stage: Stage, k: Slot, e: Entry): Stage {
    Stage(stage.entries[k := e], stage.buckets + {k.script})
  }

  function Drop(stage: Stage, k: Slot): Stage {
    stage.(entries := stage.entries - {k})
  }

  // ---------- Counts and supply ----------

  function WrapInt64(n: int): int {
    if n > MAX_INT64 then n - TWO_TO_64 else n
  }

  function Stored(counts: map<Script, nat>, s: Script): nat {
    if s in counts then counts[s] else 0
  }

  /** One round of `applyUTXOCountDeltasToAccessor`: `None` is one of its two errors. */
  function ApplyDelta(counts: map<Script, nat>, s: Script, delta: int): Option<map<Script, nat>> {
    if delta == 0 then Some(counts)
    else if Stored(counts, s) > MAX_INT64 then None
    else
      var newCount := WrapInt64(Stored(counts, s) + delta);
      if newCount < 0 then None
      else if newCount == 0 then Some(counts - {s})
      else Some(counts[s := newCount])
  }

  /** The record becomes the sum, unless the old count, or the sum, is no count of 63 bits. */
  lemma DeltaMeans(counts: map<Script, nat>, s: Script, delta: int)
    requires -0x8000_0000_0000_0000 <= delta <= 0x7fff_ffff_ffff_ffff && delta != 0
    ensures ApplyDelta(counts, s, delta).None? <==>
      Stored(counts, s) > 0x7fff_ffff_ffff_ffff || !(0 <= Stored(counts, s) + delta <= 0x7fff_ffff_ffff_ffff)
    ensures ApplyDelta(counts, s, delta).Some? ==>
      var after := ApplyDelta(counts, s, delta).value;
      && Stored(after, s) == Stored(counts, s) + delta && (s in after <==> Stored(counts, s) + delta > 0)
      && forall t :: t != s ==> (t in after <==> t in counts) && Stored(after, t) == Stored(counts, t)
  {
  }

  predicate DeltasFit(counts: map<Script, nat>, deltas: map<Script, int>) {
    forall s :: s in deltas ==> ApplyDelta(counts, s, deltas[s]).Some?
  }

  /** The record of `s` is the same in both tables. */
  ghost predicate SameRecord(a: map<Script, nat>, b: map<Script, nat>, s: Script) {
    (s in a <==> s in b) && (s in a ==> a[s] == b[s])
  }

  /** The record of `s` after its delta, if it has one. */
  ghost predicate RecordAfter(before: map<Script, nat>, deltas: map<Script, int>, after: map<Script, nat>, s: Script) {
    if s in deltas
    then ApplyDelta(before, s, deltas[s]).Some? && SameRecord(after, ApplyDelta(before, s, deltas[s]).value, s)
    else SameRecord(after, before, s)
  }

  ghost predicate CountsAfter(before: map<Script, nat>, deltas: map<Script, int>, after: map<Script, nat>) {
    forall s :: RecordAfter(before, deltas, after, s)
  }

  /** `deltas` holds the net number of staged entries of every script with a bucket. */
  ghost predicate DeltasOf(deltas: map<Script, int>, toAdd: Stage, toRemove: Stage) {
    && deltas.Keys == toAdd.buckets + toRemove.buckets
    && forall s :: s in deltas ==> deltas[s] == CountOf(toAdd.entries, s) - CountOf(toRemove.entries, s)
  }

  /** `updateCirculatingSompiSupply`: `None` when the record is needed and missing. */
  function NewSupply(supply: Option<nat>, toAdd: nat, toRemove: nat): Option<Option<nat>> {
    if toAdd == toRemove then Some(supply)
    else match supply
      case None => None
      case Some(n) => Some(Some(WrapUint64(n + toAdd - toRemove)))
  }

  // ---------- The loops of commit ----------

  lemma RestMore(entries: Index, rest: set<Slot>, k: Slot)
    requires k in rest && k in entries
    ensures k !in entries - rest
    ensures entries - (rest - {k}) == (entries - rest)[k := entries[k]]
    ensures (entries - (rest - {k})).Keys == (entries - rest).Keys + {k}
    ensures Total(entries - (rest - {k})) == Total(entries - rest) + entries[k].amount
  {
    RestMap(entries, rest, k);
    TotalAdd(entries - rest, k, entries[k]);
  }

  lemma RestMap(entries: Index, rest: set<Slot>, k: Slot)
    requires k in rest && k in entries
    ensures entries - (rest - {k}) == (entries - rest)[k := entries[k]]
    ensures (entries - (rest - {k})).Keys == (entries - rest).Keys + {k}
  {
  }

  lemma RestStart(entries: Index)
    ensures entries - entries.Keys == map[] && entries - {} == entries && Total(map[]) == 0
  {
  }

  lemma NoKeys(m: Index)
    ensures m - {} == m && m + map[] == m
  {
  }

  lemma MinusMore(m: Index, keys: set<Slot>, k: Slot)
    ensures (m - keys) - {k} == m - (keys + {k})
  {
  }

  lemma PlusMore(m: Index, a: Index, k: Slot, e: Entry)
    ensures (m + a)[k := e] == m + a[k := e]
  {
  }

  /** The entries outside `rest` are deleted from `utxos`, and `sum` is their wrapped total. */
  ghost predicate Deleted(entries: Index, utxos: Index, rest: set<Slot>, after: Index, sum: nat) {
    rest <= entries.Keys && after == utxos - (entries - rest).Keys && sum == WrapUint64(Total(entries - rest))
  }

  lemma DeletedStart(entries: Index, utxos: Index)
    ensures Deleted(entries, utxos, entries.Keys, utxos, 0)
  {
    NoKeys(utxos);
    RestStart(entries);
  }

  lemma DeletedMore(entries: Index, utxos: Index, rest: set<Slot>, after: Index, sum: nat, k: Slot)
    requires Deleted(entries, utxos, rest, after, sum) && k in rest
    ensures Deleted(entries, utxos, rest - {k}, after - {k}, WrapUint64(sum + entries[k].amount))
  {
    RestMore(entries, rest, k);
    MinusMore(utxos, (entries - rest).Keys, k);
    WrapStep(sum, Total(entries - rest), entries[k].amount);
  }

  /** Deletes every entry of a stage, in any order, and adds up the amounts. */
  method DeleteEntries(entries: Index, utxos: Index) returns (after: Index, sum: nat)
    ensures after == utxos - entries.Keys
    ensures sum == WrapUint64(Total(entries))
  {
    after, sum := utxos, 0;
    var rest := entries.Keys;
    DeletedStart(entries, utxos);
    while rest != {}
      invariant Deleted(entries, utxos, rest, after, sum)
      decreases rest
    {
      var k :| k in rest;
      DeletedMore(entries, utxos, rest, after, sum, k);
      after, sum, rest := after - {k}, WrapUint64(sum + entries[k].amount), rest - {k};
    }
    RestStart(entries);
  }

  /** The entries outside `rest` are written over `utxos`, and `sum` is their wrapped total. */
  ghost predicate Written(entries: Index, utxos: Index, rest: set<Slot>, after: Index, sum: nat) {
    rest <= entries.Keys && after == utxos + (entries - rest) && sum == WrapUint64(Total(entries - rest))
  }

  lemma WrittenStart(entries: Index, utxos: Index)
    ensures Written(entries, utxos, entries.Keys, utxos, 0)
  {
    NoKeys(utxos);
    RestStart(entries);
  }

  lemma WrittenMore(entries: Index, utxos: Index, rest: set<Slot>, after: Index, sum: nat, k: Slot)
    requires Written(entries, utxos, rest, after, sum) && k in rest
    ensures Written(entries, utxos, rest - {k}, after[k := entries[k]], WrapUint64(sum + entries[k].amount))
  {
    RestMore(entries, rest, k);
    PlusMore(utxos, entries - rest, k, entries[k]);
    WrapStep(sum, Total(entries - rest), entries[k].amount);
  }

  /** Writes every entry of a stage, in any order, and adds up the amounts. */
  method PutEntries(entries: Index, utxos: Index) returns (after: Index, sum: nat)
    ensures after == utxos + entries
    ensures sum == WrapUint64(Total(entries))
  {
    after, sum := utxos, 0;
    var rest := entries.Keys;
    WrittenStart(entries, utxos);
    while rest != {}
      invariant Written(entries, utxos, rest, after, sum)
      decreases rest
    {
      var k :| k in rest;
      WrittenMore(entries, utxos, rest, after, sum, k);
      after, sum, rest := after[k := entries[k]], WrapUint64(sum + entries[k].amount), rest - {k};
    }
    RestStart(entries);
  }

  lemma NoCount(stage: Stage, s: Script)
    requires ValidStage(stage) && s !in stage.buckets
    ensures CountOf(stage.entries, s) == 0
  {
    assert SlotsOf(stage.entries, s) == {};
  }

  /** The deltas of all removed buckets and of the added buckets outside `rest`. */
  ghost predicate Counted(deltas: map<Script, int>, toAdd: Stage, toRemove: Stage, rest: set<Script>) {
    && rest <= toAdd.buckets
    && deltas.Keys == toRemove.buckets + (toAdd.buckets - rest)
    && forall s :: s in deltas ==> deltas[s] == PartialDelta(toAdd, toRemove, rest, s)
  }

  ghost function PartialDelta(toAdd: Stage, toRemove: Stage, rest: set<Script>, s: Script): int {
    (if s in toAdd.buckets && s !in rest then CountOf(toAdd.entries, s) else 0) - CountOf(toRemove.entries, s)
  }

  lemma CountedMore(deltas: map<Script, int>, toAdd: Stage, toRemove: Stage, rest: set<Script>, s: Script)
    requires ValidStage(toRemove) && Counted(deltas, toAdd, toRemove, rest) && s in rest
    ensures Counted(deltas[s := (if s in deltas then deltas[s] else 0) + CountOf(toAdd.entries, s)], toAdd, toRemove, rest - {s})
  {
    if s !in deltas { NoCount(toRemove, s); }
    var after := deltas[s := (if s in deltas then deltas[s] else 0) + CountOf(toAdd.entries, s)];
    assert after.Keys == toRemove.buckets + (toAdd.buckets - (rest - {s}));
    forall t | t in after ensures after[t] == PartialDelta(toAdd, toRemove, rest - {s}, t) {
      if t != s { assert t in deltas; }
    }
  }

  /** The count deltas of `commit`: minus a bucket's length where entries are removed, plus where added. */
  method ComputeDeltas(toAdd: Stage, toRemove: Stage) returns (deltas: map<Script, int>)
    requires ValidStage(toAdd) && ValidStage(toRemove)
    ensures DeltasOf(deltas, toAdd, toRemove)
  {
    deltas := map s | s in toRemove.buckets :: 0 - CountOf(toRemove.entries, s);
    var rest := toAdd.buckets;
    while rest != {}
      invariant Counted(deltas, toAdd, toRemove, rest)
      decreases rest
    {
      var s :| s in rest;
      CountedMore(deltas, toAdd, toRemove, rest, s);
      deltas := deltas[s := (if s in deltas then deltas[s] else 0) + CountOf(toAdd.entries, s)];
      rest := rest - {s};
    }
    AllCounted(deltas, toAdd, toRemove);
  }

  lemma AllCounted(deltas: map<Script, int>, toAdd: Stage, toRemove: Stage)
    requires ValidStage(toAdd) && Counted(deltas, toAdd, toRemove, {})
    ensures DeltasOf(deltas, toAdd, toRemove)
  {
    forall s | s in deltas ensures deltas[s] == CountOf(toAdd.entries, s) - CountOf(toRemove.entries, s) {
      if s !in toAdd.buckets { NoCount(toAdd, s); }
    }
  }

  /** `applyUTXOCountDeltasToAccessor` on the records of a transaction, in any order of the scripts. */
  method ApplyDeltas(before: map<Script, nat>, deltas: map<Script, int>) returns (after: Option<map<Script, nat>>)
    ensures after.Some? <==> DeltasFit(before, deltas)
    ensures after.Some? ==> CountsAfter(before, deltas, after.value)
  {
    var counts := before;
    var rest := deltas.Keys;
    while rest != {}
      invariant rest <= deltas.Keys
      invariant forall s :: s in rest ==> SameRecord(counts, before, s)
      invariant forall s :: s !in rest ==> RecordAfter(before, deltas, counts, s)
      decreases |rest|
    {
      var s :| s in rest;
      DeltaOnRecord(counts, before, s, deltas[s]);
      var one := ApplyDelta(counts, s, deltas[s]);
      if one.None? { return None; }
      counts := one.value;
      rest := rest - {s};
    }
    assert forall s :: s in deltas ==> RecordAfter(before, deltas, counts, s);
    after := Some(counts);
  }

  /** A delta reads and writes one record only. */
  lemma DeltaOnRecord(a: map<Script, nat>, b: map<Script, nat>, s: Script, delta: int)
    requires SameRecord(a, b, s)
    ensures var x, y := ApplyDelta(a, s, delta), ApplyDelta(b, s, delta);
      && (x.Some? <==> y.Some?)
      && (x.Some? ==> SameRecord(x.value, y.value, s) && forall t :: t != s ==> SameRecord(x.value, a, t))
  {
  }

  // ---------- What a commit keeps ----------

  /** The staged entries can be applied: what is removed is stored, what is added is not. */
  ghost predicate StageFits(utxos: Index, added: Index, removed: Index) {
    && removed.Keys <= utxos.Keys && added.Keys !! utxos.Keys
    && forall k :: k in removed ==> removed[k].amount == utxos[k].amount
  }

  /** The entries after a commit. */
  function Applied(utxos: Index, added: Index, removed: Index): Index {
    (utxos - removed.Keys) + added
  }

  lemma CountAtMost(m: Index, s: Script)
    ensures CountOf(m, s) <= |m|
  {
    SubsetSize(SlotsOf(m, s), m.Keys);
  }

  lemma AppliedCount(utxos: Index, added: Index, removed: Index, s: Script)
    requires StageFits(utxos, added, removed)
    ensures CountOf(Applied(utxos, added, removed), s) == CountOf(utxos, s) - CountOf(removed, s) + CountOf(added, s)
  {
    CountMinus(utxos, removed, s);
    CountDisjoint(utxos - removed.Keys, added, s);
  }

  lemma AppliedTotal(utxos: Index, added: Index, removed: Index)
    requires StageFits(utxos, added, removed)
    ensures Total(Applied(utxos, added, removed)) == Total(utxos) - Total(removed) + Total(added)
  {
    TotalMinus(utxos, removed);
    TotalDisjoint(utxos - removed.Keys, added);
  }

  /** The record of `s` holds the number `n`, or is missing when `n` is zero. */
  ghost predicate Holds(counts: map<Script, nat>, s: Script, n: nat) {
    (s in counts <==> n > 0) && (n > 0 ==> counts[s] == n)
  }

  lemma DeltaHolds(counts: map<Script, nat>, s: Script, n: nat, delta: int)
    requires Holds(counts, s, n) && n <= MAX_INT64 && 0 <= n + delta <= MAX_INT64
    ensures ApplyDelta(counts, s, delta).Some? && Holds(ApplyDelta(counts, s, delta).value, s, n + delta)
  {
  }

  lemma CountsHold(db: Db, s: Script)
    requires CountsMatch(db)
    ensures Holds(db.counts, s, CountOf(db.utxos, s))
  {
  }

  lemma NetCount(utxos: Index, added: Index, removed: Index, s: Script)
    requires StageFits(utxos, added, removed)
    requires |utxos| <= MAX_INT64 && |Applied(utxos, added, removed)| <= MAX_INT64
    ensures CountOf(utxos, s) <= MAX_INT64
    ensures CountOf(Applied(utxos, added, removed), s) == CountOf(utxos, s) + (CountOf(added, s) - CountOf(removed, s)) <= MAX_INT64
  {
    AppliedCount(utxos, added, removed, s);
    CountAtMost(utxos, s);
    CountAtMost(Applied(utxos, added, removed), s);
  }

  /** Exact counts stay exact, for one script. */
  lemma RecordStaysExact(db: Db, toAdd: Stage, toRemove: Stage, deltas: map<Script, int>, s: Script)
    requires CountsMatch(db) && StageFits(db.utxos, toAdd.entries, toRemove.entries)
    requires ValidStage(toAdd) && ValidStage(toRemove) && DeltasOf(deltas, toAdd, toRemove)
    requires |db.utxos| <= MAX_INT64 && |Applied(db.utxos, toAdd.entries, toRemove.entries)| <= MAX_INT64
    ensures s in deltas ==> ApplyDelta(db.counts, s, deltas[s]).Some?
    ensures Holds(if s in deltas then ApplyDelta(db.counts, s, deltas[s]).value else db.counts, s,
                  CountOf(Applied(db.utxos, toAdd.entries, toRemove.entries), s))
  {
    NetCount(db.utxos, toAdd.entries, toRemove.entries, s);
    CountsHold(db, s);
    if s in deltas {
      DeltaHolds(db.counts, s, CountOf(db.utxos, s), deltas[s]);
    } else {
      NoCount(toAdd, s);
      NoCount(toRemove, s);
    }
  }

  /** A commit of fitting entries never meets a count error and keeps the counts exact. */
  lemma CountsStayExact(db: Db, toAdd: Stage, toRemove: Stage, deltas: map<Script, int>)
    requires CountsMatch(db) && StageFits(db.utxos, toAdd.entries, toRemove.entries)
    requires ValidStage(toAdd) && ValidStage(toRemove) && DeltasOf(deltas, toAdd, toRemove)
    requires |db.utxos| <= MAX_INT64 && |Applied(db.utxos, toAdd.entries, toRemove.entries)| <= MAX_INT64
    ensures DeltasFit(db.counts, deltas)
    ensures forall after: Db ::
      after.utxos == Applied(db.utxos, toAdd.entries, toRemove.entries) && CountsAfter(db.counts, deltas, after.counts)
      ==> CountsMatch(after)
  {
    forall s | s in deltas ensures ApplyDelta(db.counts, s, deltas[s]).Some? {
      RecordStaysExact(db, toAdd, toRemove, deltas, s);
    }
    forall after: Db |
      after.utxos == Applied(db.utxos, toAdd.entries, toRemove.entries) && CountsAfter(db.counts, deltas, after.counts)
      ensures CountsMatch(after)
    {
      forall s
        ensures s in after.counts <==> CountOf(after.utxos, s) > 0
        ensures s in after.counts ==> after.counts[s] == CountOf(after.utxos, s)
      {
        RecordStaysExact(db, toAdd, toRemove, deltas, s);
        assert RecordAfter(db.counts, deltas, after.counts, s);
      }
    }
  }

  /** The stored supply stays the wrapped total: the wrap-around of the update is harmless. */
  lemma SupplyStaysExact(db: Db, added: Index, removed: Index)
    requires SupplyMatches(db) && StageFits(db.utxos, added, removed)
    ensures NewSupply(db.supply, WrapUint64(Total(added)), WrapUint64(Total(removed)))
         == Some(Some(WrapUint64(Total(Applied(db.utxos, added, removed)))))
  {
    hide Total, WrapUint64, StageFits, Applied;
    var n, a, r := Total(db.utxos), Total(added), Total(removed);
    AppliedTotal(db.utxos, added, removed);
    if WrapUint64(a) == WrapUint64(r) {
      WrapDifference(n, a, r);
    } else {
      WrapUpdate(n, a, r);
    }
  }

  lemma WrapDifference(n: int, a: int, r: int)
    requires WrapUint64(a) == WrapUint64(r)
    ensures WrapUint64(n - r + a) == WrapUint64(n)
  {
    var i := WrapMultiple(a);
    var j := WrapMultiple(r);
    WrapShift(n, j - i);
  }

  lemma WrapUpdate(n: int, a: int, r: int)
    ensures WrapUint64(WrapUint64(n) + WrapUint64(a) - WrapUint64(r)) == WrapUint64(n - r + a)
  {
    var h := WrapMultiple(n);
    var i := WrapMultiple(a);
    var j := WrapMultiple(r);
    WrapShift(n - r + a, h + i - j);
  }

  // ---------- Building the index write by write ----------

  function ScriptsOf(entries: Index): set<Script> {
    set k | k in entries :: k.script
  }

  /** The deltas after counting the pairs outside `rest` one by one. */
  ghost predicate Tallied(deltas: map<Script, int>, entries: Index, rest: set<Slot>) {
    && rest <= entries.Keys
    && deltas.Keys == ScriptsOf(entries - rest)
    && forall s :: s in deltas ==> deltas[s] == CountOf(entries - rest, s)
  }

  lemma CountOneMore(m: Index, k: Slot, e: Entry, s: Script)
    requires k !in m
    ensures CountOf(m[k := e], s) == CountOf(m, s) + if k.script == s then 1 else 0
  {
    assert SlotsOf(m[k := e], s) == SlotsOf(m, s) + if k.script == s then {k} else {};
  }

  lemma TalliedMore(deltas: map<Script, int>, entries: Index, rest: set<Slot>, k: Slot)
    requires Tallied(deltas, entries, rest) && k in rest
    ensures Tallied(deltas[k.script := (if k.script in deltas then deltas[k.script] else 0) + 1], entries, rest - {k})
  {
    var seen := entries - rest;
    RestMap(entries, rest, k);
    if k.script !in deltas { assert SlotsOf(seen, k.script) == {}; }
    var after := deltas[k.script := (if k.script in deltas then deltas[k.script] else 0) + 1];
    TalliedScripts(seen, k, entries[k]);
    forall s | s in after ensures after[s] == CountOf(seen[k := entries[k]], s) {
      CountOneMore(seen, k, entries[k], s);
    }
  }

  lemma TalliedScripts(seen: Index, k: Slot, e: Entry)
    ensures ScriptsOf(seen[k := e]) == ScriptsOf(seen) + {k.script}
  {
    forall s | s in ScriptsOf(seen) ensures s in ScriptsOf(seen[k := e]) {
      var j :| j in seen && j.script == s;
      assert j in seen[k := e];
    }
    assert k in seen[k := e];
  }

  /** The counting loop of `addAndCommitOutpointsWithoutTransaction`. */
  method TallyPairs(entries: Index) returns (deltas: map<Script, int>)
    ensures DeltasOf(deltas, Stage(entries, ScriptsOf(entries)), EMPTY_STAGE)
  {
    deltas := map[];
    var rest := entries.Keys;
    RestStart(entries);
    while rest != {}
      invariant Tallied(deltas, entries, rest)
      decreases rest
    {
      var k :| k in rest;
      TalliedMore(deltas, entries, rest, k);
      deltas, rest := deltas[k.script := (if k.script in deltas then deltas[k.script] else 0) + 1], rest - {k};
    }
    forall s ensures CountOf(EMPTY_STAGE.entries, s) == 0 { NoCount(EMPTY_STAGE, s); }
  }

  /** Adds up the amounts of a bucket, as its cursor delivers them. */
  method SumAmounts(entries: Index) returns (sum: nat)
    ensures sum == WrapUint64(Total(entries))
  {
    sum := 0;
    var rest := entries.Keys;
    WrittenStart(entries, map[]);
    ghost var after: Index := map[];
    while rest != {}
      invariant Written(entries, map[], rest, after, sum)
      decreases rest
    {
      var k :| k in rest;
      WrittenMore(entries, map[], rest, after, sum, k);
      after, sum, rest := after[k := entries[k]], WrapUint64(sum + entries[k].amount), rest - {k};
    }
    RestStart(entries);
  }

  // ---------- Reading ----------

  datatype Pair = Pair(outpoint: Outpoint, entry: Entry)

  lemma {:induction false} SmallestExists(rest: set<Slot>) returns (k: Slot)
    requires rest != {}
    ensures k in rest && forall j :: j in rest ==> k.outpoint <= j.outpoint
    decreases |rest|
  {
    k :| k in rest;
    if rest != {k} {
      var other := SmallestExists(rest - {k});
      if other.outpoint < k.outpoint { k := other; }
    }
  }

  /** `pairs` lists, in key order, the entries of the bucket that come before those of `rest`. */
  ghost predicate Listed(m: Index, s: Script, rest: set<Slot>, pairs: seq<Pair>) {
    && rest <= SlotsOf(m, s)
    && (forall i, j :: 0 <= i < j < |pairs| ==> pairs[i].outpoint < pairs[j].outpoint)
    && (forall p :: p in pairs ==> Slot(s, p.outpoint) in m && p.entry == m[Slot(s, p.outpoint)])
    && (forall k :: k in SlotsOf(m, s) ==> k in rest || Pair(k.outpoint, m[k]) in pairs)
    && (forall p, k :: p in pairs && k in rest ==> p.outpoint < k.outpoint)
  }

  lemma ListedMore(m: Index, s: Script, rest: set<Slot>, pairs: seq<Pair>, k: Slot)
    requires Listed(m, s, rest, pairs) && k in rest && forall j :: j in rest ==> k.outpoint <= j.outpoint
    ensures Listed(m, s, rest - {k}, pairs + [Pair(k.outpoint, m[k])])
  {
    var more := pairs + [Pair(k.outpoint, m[k])];
    forall p | p in more ensures p in pairs || p == Pair(k.outpoint, m[k]) { }
    forall j | j in SlotsOf(m, s) ensures j in rest - {k} || Pair(j.outpoint, m[j]) in more {
      if j == k { assert more[|pairs|] == Pair(k.outpoint, m[k]); }
    }
    forall p, j | p in more && j in rest - {k} ensures p.outpoint < j.outpoint { }
  }

  // ---------- The store ----------

  ghost predicate AllSafe(trace: seq<Db>, setOf: seq<Hash> -> UtxoSet) {
    forall i :: 0 <= i < |trace| ==> CrashSafe(trace[i], setOf)
  }

  lemma AllSafeMore(trace: seq<Db>, db: Db, setOf: seq<Hash> -> UtxoSet)
    requires AllSafe(trace, setOf) && CrashSafe(db, setOf)
    ensures AllSafe(trace + [db], setOf)
  {
  }

  /** Whatever state a crash leaves on the disk, it is crash-safe. */
  ghost predicate Safe(disk: Disk<Db>, setOf: seq<Hash> -> UtxoSet)
    reads disk
  {
    CrashSafe(disk.state, setOf) && AllSafe(disk.durable, setOf)
  }

  const EMPTY_DB := Db(map[], map[], None, None, false)

  /** The batch of `commit` turns `before` into `after`. */
  ghost predicate Commits(before: Db, toAdd: Stage, toRemove: Stage, parents: seq<Hash>, after: Db) {
    && after.utxos == Applied(before.utxos, toAdd.entries, toRemove.entries)
    && after.parents == Some(parents) && after.countsInitialized
    && Some(after.supply) == SupplyAfter(before, toAdd, toRemove)
    && exists deltas :: DeltasOf(deltas, toAdd, toRemove) && CountsAfter(before.counts, deltas, after.counts)
  }

  ghost function SupplyAfter(before: Db, toAdd: Stage, toRemove: Stage): Option<Option<nat>> {
    NewSupply(before.supply, WrapUint64(Total(toAdd.entries)), WrapUint64(Total(toRemove.entries)))
  }

  /** A commit of fitting entries keeps the counts and the supply exact. */
  lemma CommitKeepsTables(db: Db, toAdd: Stage, toRemove: Stage, parents: seq<Hash>, after: Db)
    requires CountsMatch(db) && SupplyMatches(db) && StageFits(db.utxos, toAdd.entries, toRemove.entries)
    requires |db.utxos| <= MAX_INT64 && |Applied(db.utxos, toAdd.entries, toRemove.entries)| <= MAX_INT64
    requires ValidStage(toAdd) && ValidStage(toRemove) && Commits(db, toAdd, toRemove, parents, after)
    ensures CountsMatch(after) && SupplyMatches(after)
  {
    var deltas :| DeltasOf(deltas, toAdd, toRemove) && CountsAfter(db.counts, deltas, after.counts);
    CountsStayExact(db, toAdd, toRemove, deltas);
    SupplyStaysExact(db, toAdd.entries, toRemove.entries);
  }

  /** A commit of fitting entries can only fail in the database. */
  lemma CommitMeetsNoError(db: Db, toAdd: Stage, toRemove: Stage)
    requires CountsMatch(db) && SupplyMatches(db) && StageFits(db.utxos, toAdd.entries, toRemove.entries)
    requires |db.utxos| <= MAX_INT64 && |Applied(db.utxos, toAdd.entries, toRemove.entries)| <= MAX_INT64
    requires ValidStage(toAdd) && ValidStage(toRemove)
    ensures SupplyAfter(db, toAdd, toRemove).Some? && CountsFit(db.counts, toAdd, toRemove)
  {
    SupplyStaysExact(db, toAdd.entries, toRemove.entries);
    forall deltas | DeltasOf(deltas, toAdd, toRemove) ensures DeltasFit(db.counts, deltas) {
      CountsStayExact(db, toAdd, toRemove, deltas);
    }
  }

  /** The writes of a page turn `before` into `after`. */
  ghost predicate AddsPage(before: Db, entries: Index, after: Db) {
    && after.utxos == before.utxos + entries && after.countsInitialized
    && Some(after.supply) == NewSupply(before.supply, WrapUint64(Total(entries)), 0)
    && exists deltas :: DeltasOf(deltas, Stage(entries, ScriptsOf(entries)), EMPTY_STAGE)
                        && CountsAfter(before.counts, deltas, after.counts)
  }

  /** The net counts of the staged entries meet none of the count errors. */
  ghost predicate CountsFit(counts: map<Script, nat>, toAdd: Stage, toRemove: Stage) {
    forall deltas :: DeltasOf(deltas, toAdd, toRemove) ==> DeltasFit(counts, deltas)
  }

  lemma CountsFitIff(counts: map<Script, nat>, toAdd: Stage, toRemove: Stage, deltas: map<Script, int>)
    requires DeltasOf(deltas, toAdd, toRemove)
    ensures CountsFit(counts, toAdd, toRemove) <==> DeltasFit(counts, deltas)
  {
    forall other | DeltasOf(other, toAdd, toRemove) ensures other == deltas {
      assert other.Keys == deltas.Keys;
    }
  }

  /** No error of a page's entries but one of the database. */
  ghost predicate PageFits(before: Db, entries: Index) {
    && CountsFit(before.counts, Stage(entries, ScriptsOf(entries)), EMPTY_STAGE)
    && NewSupply(before.supply, WrapUint64(Total(entries)), 0).Some?
  }

  /** An operation that began at attempt number `from` succeeds if and only if none of its writes fails. */
  ghost predicate Succeeds(ok: bool, disk: Disk<Db>, from: nat)
    reads disk
  {
    from <= disk.attempts && (ok <==> NoneFails(disk.failing, from, disk.attempts))
  }

  lemma OneFails(failing: nat -> bool, n: nat)
    ensures NoneFails(failing, n, n + 1) <==> !failing(n)
    ensures NoneFails(failing, n, n)
  {
  }

  /** What `commit` can report. */
  datatype CommitResult = Committed | SupplyNotFound | CountError | DatabaseError

  class Store {
    const disk: Disk<Db>
    var toAdd: Stage
    var toRemove: Stage
    var virtualParents: seq<Hash>

    constructor (disk: Disk<Db>)
      ensures this.disk == disk && toAdd == EMPTY_STAGE && toRemove == EMPTY_STAGE && virtualParents == []
    {
      this.disk := disk;
      toAdd, toRemove, virtualParents := EMPTY_STAGE, EMPTY_STAGE, [];
    }

    ghost predicate Valid()
      reads this
    {
      ValidStage(toAdd) && ValidStage(toRemove)
    }

    predicate IsAnythingStaged()
      reads this
    {
      toAdd.buckets != {} || toRemove.buckets != {}
    }

    /** `add`: an outpoint that waits to be removed is only taken off that list. */
    method Add(script: Script, outpoint: Outpoint, entry: Entry) returns (ok: bool)
      requires Valid()
      modifies this`toAdd, this`toRemove
      ensures Valid()
      ensures var k := Slot(script, outpoint);
        if k in old(toRemove).entries then ok && toAdd == old(toAdd) && toRemove == Drop(old(toRemove), k)
        else if k in old(toAdd).entries then !ok && toAdd == old(toAdd) && toRemove == old(toRemove)
        else ok && toAdd == Put(old(toAdd), k, entry) && toRemove == old(toRemove)
    {
      var k := Slot(script, outpoint);
      if k in toRemove.entries {
        toRemove := Drop(toRemove, k);
        return true;
      }
      if k in toAdd.entries { return false; }
      toAdd := Put(toAdd, k, entry);
      ok := true;
    }

    /** `remove`: an outpoint that waits to be added is only taken off that list. */
    method Remove(script: Script, outpoint: Outpoint, entry: Entry) returns (ok: bool)
      requires Valid()
      modifies this`toAdd, this`toRemove
      ensures Valid()
      ensures var k := Slot(script, outpoint);
        if k in old(toAdd).entries then ok && toRemove == old(toRemove) && toAdd == Drop(old(toAdd), k)
        else if k in old(toRemove).entries then !ok && toAdd == old(toAdd) && toRemove == old(toRemove)
        else ok && toRemove == Put(old(toRemove), k, entry) && toAdd == old(toAdd)
    {
      var k := Slot(script, outpoint);
      if k in toAdd.entries {
        toAdd := Drop(toAdd, k);
        return true;
      }
      if k in toRemove.entries { return false; }
      toRemove := Put(toRemove, k, entry);
      ok := true;
    }

    /** `discard` */
    method Discard()
      modifies this
      ensures Valid() && toAdd == EMPTY_STAGE && toRemove == EMPTY_STAGE && virtualParents == []
    {
      toAdd, toRemove, virtualParents := EMPTY_STAGE, EMPTY_STAGE, [];
    }

    /** `commit`: one atomic batch, or nothing. */
    method Commit() returns (result: CommitResult)
      requires Valid()
      modifies this, disk
      ensures Valid()
      ensures result != Committed ==>
        && disk.state == old(disk.state) && disk.durable == old(disk.durable)
        && toAdd == old(toAdd) && toRemove == old(toRemove) && virtualParents == old(virtualParents)
      ensures result == Committed ==>
        && toAdd == EMPTY_STAGE && toRemove == EMPTY_STAGE
        && disk.durable == old(disk.durable) + [disk.state]
        && Commits(old(disk.state), old(toAdd), old(toRemove), old(virtualParents), disk.state)
      ensures result == SupplyNotFound <==> SupplyAfter(old(disk.state), old(toAdd), old(toRemove)).None?
      ensures result == CountError <==>
        && SupplyAfter(old(disk.state), old(toAdd), old(toRemove)).Some?
        && !CountsFit(old(disk.state).counts, old(toAdd), old(toRemove))
      ensures result == DatabaseError ==> disk.failing(old(disk.attempts))
      ensures result == Committed ==> !disk.failing(old(disk.attempts))
      ensures disk.attempts == old(disk.attempts) + if result == DatabaseError || result == Committed then 1 else 0
    {
      var db := disk.state;
      var deltas := ComputeDeltas(toAdd, toRemove);
      var kept, toRemoveSupply := DeleteEntries(toRemove.entries, db.utxos);
      var utxos, toAddSupply := PutEntries(toAdd.entries, kept);
      var supply := NewSupply(db.supply, toAddSupply, toRemoveSupply);
      if supply.None? { return SupplyNotFound; }
      var counts := ApplyDeltas(db.counts, deltas);
      CountsFitIff(db.counts, toAdd, toRemove, deltas);
      if counts.None? { return CountError; }
      var ok := disk.TryWrite(Db(utxos, counts.value, Some(virtualParents), supply.value, true));
      if !ok { return DatabaseError; }
      Discard();
      result := Committed;
    }

    /** One more write of an operation that began at attempt number `from`, without the synced marker. */
    method TryWriteUnsynced(db: Db, ghost from: nat, ghost setOf: seq<Hash> -> UtxoSet) returns (ok: bool)
      requires Safe(disk, setOf) && db.parents.None? && Succeeds(true, disk, from)
      modifies disk
      ensures Safe(disk, setOf) && disk.state == (if ok then db else old(disk.state))
      ensures Succeeds(ok, disk, from)
    {
      hide NoneFails;
      ghost var middle := disk.attempts;
      ok := disk.TryWrite(db);
      NoneFailsMore(disk.failing, from, middle, disk.attempts);
      OneFails(disk.failing, middle);
      if ok { AllSafeMore(old(disk.durable), db, setOf); }
    }

    /** `deleteAll`: the synced marker goes first; every write stands alone and may fail. */
    method DeleteAll(ghost setOf: seq<Hash> -> UtxoSet) returns (ok: bool)
      requires Safe(disk, setOf)
      modifies disk
      ensures Safe(disk, setOf)
      ensures ok ==> disk.state == EMPTY_DB
      ensures Succeeds(ok, disk, old(disk.attempts))
    {
      hide NoneFails, CrashSafe, AllSafe;
      ghost var from := disk.attempts;
      OneFails(disk.failing, from);
      ok := TryWriteUnsynced(disk.state.(parents := None), from, setOf);
      if !ok { return; }
      ok := TryWriteUnsynced(disk.state.(supply := None), from, setOf);
      if !ok { return; }
      ok := TryWriteUnsynced(disk.state.(countsInitialized := false), from, setOf);
      if !ok { return; }
      ok := DeleteCounts(from, setOf);
      if !ok { return; }
      ok := DeleteBuckets(from, setOf);
    }

    method DeleteCounts(ghost from: nat, ghost setOf: seq<Hash> -> UtxoSet) returns (ok: bool)
      requires Safe(disk, setOf) && disk.state.parents.None? && Succeeds(true, disk, from)
      modifies disk
      ensures Safe(disk, setOf)
      ensures ok ==> disk.state == old(disk.state).(counts := map[])
      ensures Succeeds(ok, disk, from)
    {
      hide NoneFails, CrashSafe, AllSafe;
      var rest := disk.state.counts.Keys;
      while rest != {}
        invariant Safe(disk, setOf)
        invariant disk.state == old(disk.state).(counts := disk.state.counts) && disk.state.counts.Keys == rest
        invariant Succeeds(true, disk, from)
        decreases rest
      {
        var s :| s in rest;
        ok := TryWriteUnsynced(disk.state.(counts := disk.state.counts - {s}), from, setOf);
        if !ok { return; }
        rest := rest - {s};
      }
      ok := true;
    }

    method DeleteBuckets(ghost from: nat, ghost setOf: seq<Hash> -> UtxoSet) returns (ok: bool)
      requires Safe(disk, setOf) && disk.state.parents.None? && Succeeds(true, disk, from)
      modifies disk
      ensures Safe(disk, setOf)
      ensures ok ==> disk.state == old(disk.state).(utxos := map[])
      ensures Succeeds(ok, disk, from)
    {
      hide NoneFails, CrashSafe, AllSafe;
      var rest := disk.state.utxos.Keys;
      while rest != {}
        invariant Safe(disk, setOf)
        invariant disk.state == old(disk.state).(utxos := disk.state.utxos) && disk.state.utxos.Keys == rest
        invariant Succeeds(true, disk, from)
        decreases rest
      {
        var k :| k in rest;
        ok := TryWriteUnsynced(disk.state.(utxos := disk.state.utxos - {k}), from, setOf);
        if !ok { return; }
        rest := rest - {k};
      }
      ok := true;
    }

    /** `initializeCirculatingSompiSupply` */
    method InitializeSupply(ghost from: nat, ghost setOf: seq<Hash> -> UtxoSet) returns (ok: bool)
      requires Safe(disk, setOf) && Succeeds(true, disk, from) && disk.state.parents.None?
      modifies disk
      ensures Safe(disk, setOf)
      ensures ok ==> disk.state == old(disk.state).(supply := Some(WrapUint64(Total(old(disk.state).utxos))))
      ensures Succeeds(ok, disk, from)
    {
      var sum := SumAmounts(disk.state.utxos);
      ok := TryWriteUnsynced(disk.state.(supply := Some(sum)), from, setOf);
    }

    /** The parallel puts of a page: any order, and one failure does not stop the others. */
    method PutPage(entries: Index, ghost from: nat, ghost setOf: seq<Hash> -> UtxoSet) returns (ok: bool, sum: nat)
      requires Safe(disk, setOf) && Succeeds(true, disk, from) && disk.state.parents.None?
      modifies disk
      ensures Safe(disk, setOf) && disk.state.parents.None?
      ensures ok ==> disk.state == old(disk.state).(utxos := old(disk.state).utxos + entries)
      ensures ok ==> sum == WrapUint64(Total(entries))
      ensures Succeeds(ok, disk, from)
    {
      ok, sum := true, 0;
      var rest := entries.Keys;
      ghost var before := disk.state.utxos;
      WrittenStart(entries, before);
      while rest != {}
        invariant Safe(disk, setOf) && rest <= entries.Keys
        invariant disk.state == old(disk.state).(utxos := disk.state.utxos)
        invariant ok ==> Written(entries, before, rest, disk.state.utxos, sum)
        invariant Succeeds(ok, disk, from)
        decreases rest
      {
        var k :| k in rest;
        if ok { WrittenMore(entries, before, rest, disk.state.utxos, sum, k); }
        var put := disk.TryWrite(disk.state.(utxos := disk.state.utxos[k := entries[k]]));
        ok, sum, rest := ok && put, WrapUint64(sum + entries[k].amount), rest - {k};
      }
      RestStart(entries);
    }

    /** `applyUTXOCountDeltasToAccessor` straight on the database. */
    method WriteDeltas(deltas: map<Script, int>, ghost from: nat, ghost setOf: seq<Hash> -> UtxoSet) returns (ok: bool)
      requires Safe(disk, setOf) && disk.state.parents.None? && Succeeds(true, disk, from)
      modifies disk
      ensures Safe(disk, setOf) && disk.state == old(disk.state).(counts := disk.state.counts)
      ensures ok ==> CountsAfter(old(disk.state).counts, deltas, disk.state.counts)
      ensures if DeltasFit(old(disk.state).counts, deltas) then Succeeds(ok, disk, from) else !ok
    {
      hide NoneFails, CrashSafe, AllSafe;
      var rest := deltas.Keys;
      ghost var before := disk.state.counts;
      while rest != {}
        invariant Safe(disk, setOf) && rest <= deltas.Keys
        invariant disk.state == old(disk.state).(counts := disk.state.counts)
        invariant forall s :: s in rest ==> SameRecord(disk.state.counts, before, s)
        invariant forall s :: s !in rest ==> RecordAfter(before, deltas, disk.state.counts, s)
        invariant Succeeds(true, disk, from)
        decreases rest
      {
        var s :| s in rest;
        DeltaOnRecord(disk.state.counts, before, s, deltas[s]);
        var one := ApplyDelta(disk.state.counts, s, deltas[s]);
        if one.None? { return false; }
        if deltas[s] != 0 {
          ok := TryWriteUnsynced(disk.state.(counts := one.value), from, setOf);
          if !ok { return; }
        }
        rest := rest - {s};
      }
      assert forall s :: s in deltas ==> RecordAfter(before, deltas, disk.state.counts, s);
      ok := true;
    }

    /** `addAndCommitOutpointsWithoutTransaction`: entries, counts, their marker, supply, write by write. */
    method AddPage(entries: Index, ghost from: nat, ghost setOf: seq<Hash> -> UtxoSet) returns (ok: bool)
      requires Safe(disk, setOf) && Succeeds(true, disk, from) && disk.state.parents.None?
      modifies disk
      ensures Safe(disk, setOf) && disk.state.parents.None?
      ensures ok ==> AddsPage(old(disk.state), entries, disk.state)
      ensures if PageFits(old(disk.state), entries) then Succeeds(ok, disk, from) else !ok
    {
      hide DeltasOf, DeltasFit, CountsFit, CountsAfter, Total, NoneFails;
      var deltas := TallyPairs(entries);
      CountsFitIff(disk.state.counts, Stage(entries, ScriptsOf(entries)), EMPTY_STAGE, deltas);
      var sum;
      ok, sum := PutPage(entries, from, setOf);
      if !ok { return; }
      ok := WriteDeltas(deltas, from, setOf);
      if !ok { return; }
      ok := TryWriteUnsynced(disk.state.(countsInitialized := true), from, setOf);
      if !ok { return; }
      var supply := NewSupply(disk.state.supply, sum, 0);
      if supply.None? { return false; }
      if sum != 0 {
        ok := TryWriteUnsynced(disk.state.(supply := supply.value), from, setOf);
      }
    }

    /** `updateAndCommitVirtualParentsWithoutTransaction`: the synced marker goes last. */
    method MarkSynced(parents: seq<Hash>, ghost from: nat, ghost setOf: seq<Hash> -> UtxoSet) returns (ok: bool)
      requires Safe(disk, setOf) && Succeeds(true, disk, from) && CrashSafe(disk.state.(parents := Some(parents)), setOf)
      modifies disk
      ensures Safe(disk, setOf)
      ensures ok ==> disk.state == old(disk.state).(parents := Some(parents))
      ensures Succeeds(ok, disk, from)
    {
      ok := disk.TryWrite(disk.state.(parents := Some(parents)));
      if !ok { return; }
      ok := disk.TryWrite(disk.state.(countsInitialized := true));
    }

    /** `UTXOs`: the bucket in key order; a limit of zero means no limit. */
    method UTXOs(script: Script, limit: nat) returns (pairs: Option<seq<Pair>>)
      ensures pairs.None? <==> toAdd.buckets != {} || toRemove.buckets != {}
      ensures pairs.Some? ==> exists rest :: Listed(disk.state.utxos, script, rest, pairs.value)
                                && (rest != {} ==> limit > 0 && |pairs.value| == limit)
                                && (limit > 0 ==> |pairs.value| <= limit)
    {
      if IsAnythingStaged() { return None; }
      var list := [];
      var rest := SlotsOf(disk.state.utxos, script);
      while rest != {} && (limit == 0 || |list| < limit)
        invariant Listed(disk.state.utxos, script, rest, list)
        invariant limit > 0 ==> |list| <= limit
        decreases rest
      {
        ghost var smallest := SmallestExists(rest);
        var k :| k in rest && forall j :: j in rest ==> k.outpoint <= j.outpoint;
        ListedMore(disk.state.utxos, script, rest, list, k);
        list, rest := list + [Pair(k.outpoint, disk.state.utxos[k])], rest - {k};
      }
      pairs := Some(list);
    }

    /** `HasUTXOs` reads only the count record. */
    method HasUTXOs(script: Script) returns (has: Option<bool>)
      ensures has.None? <==> toAdd.buckets != {} || toRemove.buckets != {}
      ensures has.Some? && CountsMatch(disk.state) ==> (has.value <==> SlotsOf(disk.state.utxos, script) != {})
    {
      if IsAnythingStaged() { return None; }
      has := Some(script in disk.state.counts);
    }

    /** `GetBalance` */
    method GetBalance(script: Script) returns (balance: Option<nat>)
      ensures balance.None? <==> toAdd.buckets != {} || toRemove.buckets != {}
      ensures balance.Some? ==> balance.value == WrapUint64(Balance(disk.state.utxos, script))
    {
      if IsAnythingStaged() { return None; }
      var sum := SumAmounts(PartOf(disk.state.utxos, script));
      balance := Some(sum);
    }

    /** `getCirculatingSompiSupply`: a missing record reads as zero. */
    method GetSupply() returns (supply: Option<nat>)
      ensures supply.None? <==> toAdd.buckets != {} || toRemove.buckets != {}
      ensures supply.Some? && disk.state.supply.None? ==> supply.value == 0
      ensures supply.Some? && SupplyMatches(disk.state) ==>
        supply.value == WrapUint64(Balances(disk.state.utxos, ScriptsOf(disk.state.utxos)))
    {
      if IsAnythingStaged() { return None; }
      BalancesAddUp(disk.state.utxos, ScriptsOf(disk.state.utxos));
      supply := Some(if disk.state.supply.Some? then disk.state.supply.value else 0);
    }
  }
}
