/**
  The two database prefixes of domain/domain.go and domain/prefixmanager/prefix.go: the active
  consensus lives under one prefix, a staging consensus is built under the other, and committing it
  swaps the two markers.

  Which writes fail, and what an instance writes under the prefix that is being deleted, are
  parameters of the operations. Writes of an instance under the other prefix commute with every write
  of a deletion and are ordinary writes before or after it.
*/
module StagingDomain {
  import opened Basics
  import opened Disk

  datatype Prefix = Zero | One

  function Flip(p: Prefix): Prefix {
    if p == Zero then One else Zero
  }

  type Key(==, !new)
  type Value(==, !new)

  datatype Slot = Slot(prefix: Prefix, key: Key)

  type Data = map<Slot, Value>
  type Content = map<Key, Value>

  datatype Db = Db(active: Option<Prefix>, inactive: Option<Prefix>, data: Data)

  /** Everything under a prefix. */
  ghost function Under(data: Data, p: Prefix): Content {
    map k | k in (set s | s in data && s.prefix == p :: s.key) :: data[Slot(p, k)]
  }

  function Records(data: Data, p: Prefix): set<Slot> {
    set s | s in data && s.prefix == p
  }

  /** The consensus that a restart finds. */
  ghost function Active(db: Db): Content {
    if db.active.Some? then Under(db.data, db.active.value) else map[]
  }

  ghost function Staging(db: Db): Content {
    if db.inactive.Some? then Under(db.data, db.inactive.value) else map[]
  }

  /** The markers name different prefixes, and nothing is stored before there is an active one. */
  ghost predicate Sane(db: Db) {
    && (db.inactive.Some? ==> db.active == Some(Flip(db.inactive.value)))
    && (db.active.None? ==> db.data == map[])
  }

  predicate Named(db: Db, p: Prefix) {
    db.active == Some(p) || db.inactive == Some(p)
  }

  /** Data that is not the active consensus's is there only while the inactive marker names it. */
  ghost predicate Tidy(db: Db) {
    forall s :: s in db.data ==> Named(db, s.prefix)
  }

  /** Only the active consensus is left. */
  ghost predicate Clean(db: Db) {
    db.inactive.None? && forall s :: s in db.data ==> db.active == Some(s.prefix)
  }

  /** The same records outside a prefix. */
  ghost predicate SameOutside(a: Data, b: Data, p: Prefix) {
    forall s: Slot :: s.prefix != p ==> (s in a <==> s in b) && (s in a ==> a[s] == b[s])
  }

  // ---------- Single writes ----------

  lemma UnderAt(data: Data, p: Prefix, k: Key)
    ensures k in Under(data, p) <==> Slot(p, k) in data
    ensures k in Under(data, p) ==> Under(data, p)[k] == data[Slot(p, k)]
  {
    if Slot(p, k) in data { assert Slot(p, k).key == k; }
  }

  lemma SameContent(a: Content, b: Content)
    requires forall k :: (k in a <==> k in b) && (k in a ==> a[k] == b[k])
    ensures a == b
  {
  }

  lemma SameUnder(a: Data, b: Data, p: Prefix, q: Prefix)
    requires SameOutside(a, b, p) && p != q
    ensures Under(a, q) == Under(b, q)
  {
    forall k ensures (k in Under(a, q) <==> k in Under(b, q)) && (k in Under(a, q) ==> Under(a, q)[k] == Under(b, q)[k]) {
      UnderAt(a, q, k);
      UnderAt(b, q, k);
      assert Slot(q, k).prefix != p;
    }
    SameContent(Under(a, q), Under(b, q));
  }

  lemma PutRecords(data: Data, p: Prefix, k: Key, v: Value)
    ensures Records(data[Slot(p, k) := v], p) == Records(data, p) + {Slot(p, k)}
    ensures SameOutside(data, data[Slot(p, k) := v], p)
  {
  }

  lemma PutUnder(data: Data, p: Prefix, k: Key, v: Value)
    ensures Under(data[Slot(p, k) := v], p) == Under(data, p)[k := v]
    ensures Under(data[Slot(p, k) := v], Flip(p)) == Under(data, Flip(p))
  {
    hide Under;
    var after := data[Slot(p, k) := v];
    var expected := Under(data, p)[k := v];
    forall j ensures (j in Under(after, p) <==> j in expected) && (j in expected ==> Under(after, p)[j] == expected[j]) {
      UnderAt(after, p, j);
      UnderAt(data, p, j);
    }
    SameContent(Under(after, p), expected);
    PutRecords(data, p, k, v);
    SameUnder(data, after, p, Flip(p));
  }

  // ---------- Traces ----------

  ghost predicate IsPut(c: Content, k: Key, v: Value, after: Content) {
    after == c[k := v]
  }

  /** One write leaves the active consensus alone, or puts one record in it, or swaps the two markers. */
  ghost predicate Evolves(db: Db, after: Db) {
    || Active(after) == Active(db)
    || (exists k, v :: IsPut(Active(db), k, v, Active(after)))
    || (after.active == db.inactive && after.inactive == db.active && after.data == db.data)
  }

  /** Every state a crash can leave has sane markers, and consecutive states evolve. */
  ghost predicate ValidTrace(trace: seq<Db>) {
    && (forall i :: 0 <= i < |trace| ==> Sane(trace[i]))
    && (forall i :: 0 < i < |trace| ==> Evolves(trace[i - 1], trace[i]))
  }

  ghost predicate TidyTrace(trace: seq<Db>) {
    forall i :: 0 <= i < |trace| ==> Tidy(trace[i])
  }

  ghost predicate Valid(disk: Disk<Db>)
    reads disk
  {
    disk.durable != [] && disk.durable[|disk.durable| - 1] == disk.state && ValidTrace(disk.durable)
  }

  /** The trace goes on, and every state that is added shows the same active consensus. */
  ghost predicate Extends(before: seq<Db>, after: seq<Db>, content: Content) {
    && before <= after
    && forall i :: |before| <= i < |after| ==> Active(after[i]) == content
  }

  lemma TraceMore(trace: seq<Db>, db: Db)
    requires trace != [] && ValidTrace(trace) && Sane(db) && Evolves(trace[|trace| - 1], db)
    ensures ValidTrace(trace + [db])
  {
    hide Sane, Evolves;
  }

  lemma TidyMore(trace: seq<Db>, db: Db)
    ensures TidyTrace(trace + [db]) <==> TidyTrace(trace) && Tidy(db)
  {
    if TidyTrace(trace + [db]) {
      forall i | 0 <= i < |trace| ensures Tidy(trace[i]) { assert trace[i] == (trace + [db])[i]; }
      assert (trace + [db])[|trace|] == db;
    }
  }

  lemma ExtendsMore(before: seq<Db>, after: seq<Db>, db: Db, content: Content)
    requires Extends(before, after, content) && Active(db) == content
    ensures Extends(before, after + [db], content)
  {
  }

  lemma ExtendsExtends(a: seq<Db>, b: seq<Db>, c: seq<Db>, content: Content)
    requires Extends(a, b, content) && Extends(b, c, content)
    ensures Extends(a, c, content)
  {
    forall i | |a| <= i < |c| ensures Active(c[i]) == content {
      if i < |b| { assert c[i] == b[i]; }
    }
  }

  lemma PutTidy(db: Db, p: Prefix, k: Key, v: Value)
    ensures Tidy(db.(data := db.data[Slot(p, k) := v])) <==> Tidy(db) && Named(db, p)
  {
    var after := db.(data := db.data[Slot(p, k) := v]);
    assert forall q :: Named(after, q) <==> Named(db, q);
    assert Slot(p, k) in after.data;
    if Tidy(after) {
      forall s | s in db.data ensures Named(db, s.prefix) { assert s in after.data; }
    }
  }

  /** A write under the prefix of a marker changes that consensus only; under any other it is stray. */
  lemma PutEvolves(db: Db, p: Prefix, k: Key, v: Value)
    requires Sane(db) && db.active.Some?
    ensures var after := db.(data := db.data[Slot(p, k) := v]);
      && Sane(after) && Evolves(db, after)
      && Active(after) == (if db.active == Some(p) then Active(db)[k := v] else Active(db))
      && Staging(after) == (if db.inactive == Some(p) then Staging(db)[k := v] else Staging(db))
      && (Tidy(after) <==> Tidy(db) && Named(db, p))
  {
    hide Under, Tidy;
    var after := db.(data := db.data[Slot(p, k) := v]);
    PutUnder(db.data, p, k, v);
    PutTidy(db, p, k, v);
    if db.active == Some(p) {
      assert IsPut(Active(db), k, v, Active(after));
    } else {
      assert db.active.value == Flip(p);
    }
  }

  /** The swap shows exactly what the inactive marker named, and names what was shown. */
  lemma SwapShowsStaging(db: Db)
    requires Sane(db) && db.inactive.Some?
    ensures var after := db.(active := db.inactive, inactive := db.active);
      && Sane(after) && Evolves(db, after) && Active(after) == Staging(db) && Staging(after) == Active(db)
      && (Tidy(after) <==> Tidy(db))
  {
    var after := db.(active := db.inactive, inactive := db.active);
    assert forall p :: Named(after, p) <==> Named(db, p);
  }

  // ---------- The prefix manager ----------

  /** A record that an instance writes. */
  type Record = (Key, Value)

  function Slots(records: seq<Record>, p: Prefix): set<Slot> {
    set i | 0 <= i < |records| :: Slot(p, records[i].0)
  }

  lemma SlotsMore(records: seq<Record>, p: Prefix, i: nat)
    requires i < |records|
    ensures Slots(records[..i + 1], p) == Slots(records[..i], p) + {Slot(p, records[i].0)}
  {
    var a, b := records[..i + 1], records[..i];
    forall s | s in Slots(a, p) ensures s in Slots(b, p) + {Slot(p, records[i].0)} {
      var j :| 0 <= j < |a| && Slot(p, a[j].0) == s;
      if j < i { assert b[j] == a[j]; }
    }
    forall s | s in Slots(b, p) ensures s in Slots(a, p) {
      var j :| 0 <= j < |b| && Slot(p, b[j].0) == s;
      assert a[j] == b[j];
    }
    assert Slot(p, a[i].0) in Slots(a, p);
  }

  /** What a deletion under way has left: the records still waiting for it, and those written too late. */
  ghost predicate Deleting(start: Db, db: Db, p: Prefix, rest: set<Slot>, late: set<Slot>) {
    && db.active == start.active && db.active != Some(p) && (db.inactive == start.inactive || db.inactive.None?)
    && Sane(db) && db.active.Some? && Active(db) == Active(start)
    && SameOutside(start.data, db.data, p) && Records(db.data, p) == rest + late && rest !! late
  }

  lemma PutLate(start: Db, db: Db, p: Prefix, rest: set<Slot>, late: set<Slot>, k: Key, v: Value)
    requires Deleting(start, db, p, rest, late)
    ensures Deleting(start, db.(data := db.data[Slot(p, k) := v]), p, rest, late + ({Slot(p, k)} - rest))
    ensures Evolves(db, db.(data := db.data[Slot(p, k) := v]))
    ensures Tidy(db.(data := db.data[Slot(p, k) := v])) <==> Tidy(db) && db.inactive == Some(p)
  {
    hide Under, Evolves, Records;
    PutRecords(db.data, p, k, v);
    PutEvolves(db, p, k, v);
  }

  lemma DeleteWaiting(start: Db, db: Db, p: Prefix, rest: set<Slot>, late: set<Slot>, s: Slot)
    requires Deleting(start, db, p, rest, late) && s in rest && s.prefix == p
    ensures Deleting(start, db.(data := db.data - {s}), p, rest - {s}, late)
    ensures Evolves(db, db.(data := db.data - {s}))
    ensures Tidy(db) ==> Tidy(db.(data := db.data - {s}))
  {
    hide Under, Evolves;
    var after := db.(data := db.data - {s});
    assert SameOutside(db.data, after.data, p);
    SameUnder(db.data, after.data, p, db.active.value);
    assert Records(after.data, p) == Records(db.data, p) - {s};
    SameActiveEvolves(db, after);
  }

  lemma SameActiveEvolves(db: Db, after: Db)
    requires Active(db) == Active(after)
    ensures Evolves(db, after)
  {
  }

  /** A deletion under prefix `p` that began in state `start` with the given trace. */
  ghost predicate UnderWay(disk: Disk<Db>, start: Db, trace: seq<Db>, p: Prefix, rest: set<Slot>, late: set<Slot>)
    reads disk
  {
    Valid(disk) && Extends(trace, disk.durable, Active(start)) && Deleting(start, disk.state, p, rest, late)
  }

  /** What an instance writes under the prefix while it is being deleted. */
  method PutMeanwhile(disk: Disk<Db>, p: Prefix, records: seq<Record>,
                      ghost start: Db, ghost trace: seq<Db>, ghost rest: set<Slot>, ghost late: set<Slot>)
    returns (ghost later: set<Slot>)
    requires UnderWay(disk, start, trace, p, rest, late)
    modifies disk
    ensures UnderWay(disk, start, trace, p, rest, later) && later == late + (Slots(records, p) - rest)
    ensures disk.state.inactive == old(disk.state).inactive && (records == [] ==> disk.state == old(disk.state))
    ensures TidyTrace(disk.durable) <==> TidyTrace(old(disk.durable)) && (records == [] || disk.state.inactive == Some(p))
  {
    hide Deleting, ValidTrace, Extends, Tidy, TidyTrace, Evolves, Active, Slots, Sane;
    later := late;
    NoSlots(records, p);
    for i := 0 to |records|
      invariant UnderWay(disk, start, trace, p, rest, later) && later == late + (Slots(records[..i], p) - rest)
      invariant disk.state.inactive == old(disk.state).inactive && (i == 0 ==> disk.state == old(disk.state))
      invariant TidyTrace(disk.durable) <==> TidyTrace(old(disk.durable)) && (i == 0 || disk.state.inactive == Some(p))
    {
      var (k, v) := records[i];
      var db := disk.state.(data := disk.state.data[Slot(p, k) := v]);
      PutLate(start, disk.state, p, rest, later, k, v);
      Recorded(disk.durable, disk.state, db, start, p, rest, later + ({Slot(p, k)} - rest), trace);
      SlotsMore(records, p, i);
      later := later + ({Slot(p, k)} - rest);
      disk.Write(db);
    }
    TakeAll(records);
  }

  lemma NoSlots(records: seq<Record>, p: Prefix)
    ensures Slots(records[..0], p) == {}
  {
  }

  /** One more state of a deletion under way. */
  lemma Recorded(durable: seq<Db>, state: Db, db: Db, start: Db, p: Prefix, rest: set<Slot>, late: set<Slot>, trace: seq<Db>)
    requires durable != [] && durable[|durable| - 1] == state && ValidTrace(durable) && Extends(trace, durable, Active(start))
    requires Deleting(start, db, p, rest, late) && Evolves(state, db)
    ensures ValidTrace(durable + [db]) && Extends(trace, durable + [db], Active(start))
    ensures TidyTrace(durable + [db]) <==> TidyTrace(durable) && Tidy(db)
    ensures TidyTrace(durable) ==> Tidy(state)
  {
    hide Evolves, Tidy, ValidTrace, Extends;
    TraceMore(durable, db);
    ExtendsMore(trace, durable, db, Active(start));
    TidyMore(durable, db);
  }

  // ---------- Deleting in key order ----------

  /** A cursor's listing of the records under a prefix, each once. */
  ghost predicate Lists(listed: seq<Slot>, records: set<Slot>) {
    Distinct(listed) && Elements(listed) == records
  }

  /** What still waits for its deletion in round `i`. */
  function Waiting(listed: seq<Slot>, i: nat): set<Slot> {
    if i < |listed| then Elements(listed[i..]) else {}
  }

  /** What an instance writes, before its rounds `0` to `n`, on slots that no longer wait for their deletion. */
  ghost function Behind(listed: seq<Slot>, meanwhile: nat -> seq<Record>, n: nat, p: Prefix): set<Slot> {
    if n == 0 then {}
    else Behind(listed, meanwhile, n - 1, p) + (Slots(meanwhile(n - 1), p) - Waiting(listed, n - 1))
  }

  ghost predicate Silent(meanwhile: nat -> seq<Record>) {
    forall i: nat :: meanwhile(i) == []
  }

  /** Without other writes the first rounds take away what was listed first, and nothing else. */
  ghost predicate Taken(start: Db, db: Db, listed: seq<Slot>, rounds: nat, meanwhile: nat -> seq<Record>) {
    Silent(meanwhile) ==> db.data == start.data - (Elements(listed) - Waiting(listed, rounds))
  }

  lemma TakenMore(start: Db, before: Db, db: Db, listed: seq<Slot>, i: nat, meanwhile: nat -> seq<Record>)
    requires Distinct(listed) && i < |listed| && Taken(start, before, listed, i, meanwhile)
    requires Silent(meanwhile) ==> db.data == before.data - {listed[i]}
    ensures Taken(start, db, listed, i + 1, meanwhile)
  {
    WaitingNext(listed, i);
    var gone := Elements(listed) - Waiting(listed, i);
    assert listed[i] in Elements(listed);
    assert Elements(listed) - Waiting(listed, i + 1) == gone + {listed[i]};
    assert (start.data - gone) - {listed[i]} == start.data - (gone + {listed[i]});
  }

  lemma TakenStart(start: Db, listed: seq<Slot>, meanwhile: nat -> seq<Record>)
    ensures Taken(start, start, listed, 0, meanwhile)
  {
    AllWait(listed);
    assert start.data - {} == start.data;
  }

  lemma WaitingNext(listed: seq<Slot>, i: nat)
    requires Distinct(listed) && i < |listed|
    ensures listed[i] in Waiting(listed, i) && Waiting(listed, i + 1) == Waiting(listed, i) - {listed[i]}
  {
    var rest := listed[i..];
    assert rest[0] == listed[i];
    forall s | s in rest && s != listed[i] ensures s in Waiting(listed, i + 1) {
      var j :| 0 <= j < |rest| && rest[j] == s;
      assert listed[i + 1..][j - 1] == s;
    }
    forall s | s in Waiting(listed, i + 1) ensures s in rest && s != listed[i] {
      var j :| 0 <= j < |listed[i + 1..]| && listed[i + 1..][j] == s;
      assert rest[j + 1] == s;
    }
  }

  lemma AllWait(listed: seq<Slot>)
    ensures Waiting(listed, 0) == Elements(listed) && Waiting(listed, |listed|) == {}
  {
    if listed != [] { assert listed[0..] == listed; } else { assert Elements(listed) == {}; }
  }

  /** Where a deletion fails: at a record, at the marker, or in the compaction behind it. */
  datatype Faults = Faults(cut: Option<nat>, marker: bool, compaction: bool)

  const NO_FAULTS := Faults(None, false, false)

  predicate Cut(listed: seq<Slot>, cut: Option<nat>) {
    cut.Some? && cut.value < |listed|
  }

  /** The deletions that are made. */
  function Rounds(listed: seq<Slot>, cut: Option<nat>): nat {
    if Cut(listed, cut) then cut.value else |listed|
  }

  /**
    `deletePrefix` of the inactive prefix: the records listed when the cursor opened, one by one. It
    stops at deletion number `cut`; an instance writes `meanwhile(i)` before deletion number `i`.
  */
  method DeletePrefix(disk: Disk<Db>, p: Prefix, listed: seq<Slot>, cut: Option<nat>, meanwhile: nat -> seq<Record>)
    returns (ok: bool)
    requires Valid(disk) && disk.state.inactive == Some(p) && Lists(listed, Records(disk.state.data, p))
    modifies disk
    ensures ok <==> !Cut(listed, cut)
    ensures disk.state.inactive == Some(p)
    ensures UnderWay(disk, old(disk.state), old(disk.durable), p,
                     Waiting(listed, Rounds(listed, cut)), Behind(listed, meanwhile, Rounds(listed, cut), p))
    ensures Taken(old(disk.state), disk.state, listed, Rounds(listed, cut), meanwhile)
    ensures TidyTrace(disk.durable) <==> TidyTrace(old(disk.durable))
  {
    hide Deleting, ValidTrace, Extends, Tidy, TidyTrace, Evolves, Active, Sane, Slots, Waiting, Distinct, Taken;
    ghost var start, trace, late := disk.state, disk.durable, {};
    DeletionStarts(start, trace, p);
    AllWait(listed);
    TakenStart(start, listed, meanwhile);
    for i := 0 to |listed|
      invariant UnderWay(disk, start, trace, p, Waiting(listed, i), late) && disk.state.inactive == Some(p)
      invariant Taken(start, disk.state, listed, i, meanwhile)
      invariant late == Behind(listed, meanwhile, i, p) && !(cut.Some? && cut.value < i)
      invariant TidyTrace(disk.durable) <==> TidyTrace(trace)
    {
      if cut == Some(i) { return false; }
      ghost var before := disk.state;
      late := PutMeanwhile(disk, p, meanwhile(i), start, trace, Waiting(listed, i), late);
      WaitingNext(listed, i);
      Listed(listed, Records(start.data, p), i);
      var db := disk.state.(data := disk.state.data - {listed[i]});
      DeleteWaiting(start, disk.state, p, Waiting(listed, i), late, listed[i]);
      Recorded(disk.durable, disk.state, db, start, p, Waiting(listed, i + 1), late, trace);
      TakenMore(start, before, db, listed, i, meanwhile);
      disk.Write(db);
    }
    ok := true;
  }

  lemma Listed(listed: seq<Slot>, records: set<Slot>, i: nat)
    requires Lists(listed, records) && i < |listed|
    ensures listed[i] in records
  {
    assert listed[i] in Elements(listed);
  }

  lemma DeletionStarts(start: Db, trace: seq<Db>, p: Prefix)
    requires trace != [] && ValidTrace(trace) && trace[|trace| - 1] == start && start.inactive == Some(p)
    ensures Deleting(start, start, p, Records(start.data, p), {}) && Extends(trace, trace, Active(start))
  {
  }

  lemma NoSlotsIff(records: seq<Record>, p: Prefix)
    ensures Slots(records, p) == {} <==> records == []
  {
    if records != [] { assert Slot(p, records[0].0) in Slots(records, p); }
  }

  lemma ExtendsNothing(trace: seq<Db>, content: Content)
    ensures Extends(trace, trace, content)
  {
  }

  /** Removing the marker leaves what was written too late without a name. */
  lemma MarkerRemoved(start: Db, db: Db, p: Prefix, late: set<Slot>)
    requires Deleting(start, db, p, {}, late) && db.inactive == Some(p)
    ensures Deleting(start, db.(inactive := None), p, {}, late) && Evolves(db, db.(inactive := None))
    ensures Tidy(db) ==> (Tidy(db.(inactive := None)) <==> late == {})
  {
    hide Under;
    var after := db.(inactive := None);
    SameActiveEvolves(db, after);
    assert Records(db.data, p) == late;
    if late != {} {
      var s :| s in late;
      assert s in after.data && s.prefix == p;
    } else {
      forall s | s in db.data ensures s.prefix != p { assert s.prefix == p ==> s in Records(db.data, p); }
    }
  }

  /** The deletion comes as far as removing the marker. */
  predicate MarkerGoes(listed: seq<Slot>, faults: Faults) {
    !faults.marker && !Cut(listed, faults.cut)
  }

  /** What an instance wrote under the prefix too late for this deletion. */
  ghost function Late(listed: seq<Slot>, faults: Faults, meanwhile: nat -> seq<Record>, p: Prefix): set<Slot> {
    Behind(listed, meanwhile,
           if Cut(listed, faults.cut) then faults.cut.value else if faults.marker then |listed| + 1 else |listed| + 2, p)
  }

  /** How a deletion under prefix `p` ends: the records that are left are those still waiting and those too late. */
  ghost predicate Deleted(start: Db, db: Db, ok: bool, p: Prefix, listed: seq<Slot>, faults: Faults,
                          meanwhile: nat -> seq<Record>)
  {
    && Deleting(start, db, p, Waiting(listed, Rounds(listed, faults.cut)), Late(listed, faults, meanwhile, p))
    && db.inactive == (if MarkerGoes(listed, faults) then None else Some(p))
    && (ok <==> db.inactive.None? && !faults.compaction)
    && Taken(start, db, listed, Rounds(listed, faults.cut), meanwhile)
  }

  /** The end of `DeleteInactivePrefix`: the marker, and a compaction that may fail too. */
  method RemoveMarker(disk: Disk<Db>, p: Prefix, listed: seq<Slot>, faults: Faults, meanwhile: nat -> seq<Record>,
                      ghost start: Db, ghost trace: seq<Db>)
    returns (ok: bool)
    requires UnderWay(disk, start, trace, p, {}, Behind(listed, meanwhile, |listed|, p)) && disk.state.inactive == Some(p)
    requires !Cut(listed, faults.cut) && Taken(start, disk.state, listed, |listed|, meanwhile)
    modifies disk
    ensures Valid(disk) && Extends(trace, disk.durable, Active(start))
    ensures Deleted(start, disk.state, ok, p, listed, faults, meanwhile)
    ensures TidyTrace(disk.durable) <==>
      TidyTrace(old(disk.durable)) && (disk.state.inactive.None? ==> Late(listed, faults, meanwhile, p) == {})
  {
    hide Deleting, ValidTrace, Extends, Tidy, TidyTrace, Evolves, Active, Sane, Slots, Waiting, Records, Elements;
    var n := |listed|;
    AllWait(listed);
    NothingWaits(listed, n + 1);
    ghost var late := Behind(listed, meanwhile, n, p);
    late := PutMeanwhile(disk, p, meanwhile(n), start, trace, {}, late);
    BehindNext(listed, meanwhile, n, p);
    if faults.marker { return false; }
    var db := disk.state.(inactive := None);
    MarkerRemoved(start, disk.state, p, late);
    Recorded(disk.durable, disk.state, db, start, p, {}, late, trace);
    disk.Write(db);
    NoSlotsIff(meanwhile(n + 1), p);
    late := PutMeanwhile(disk, p, meanwhile(n + 1), start, trace, {}, late);
    BehindNext(listed, meanwhile, n + 1, p);
    ok := !faults.compaction;
  }

  lemma NothingWaits(listed: seq<Slot>, i: nat)
    requires i >= |listed|
    ensures Waiting(listed, i) == {}
  {
  }

  lemma BehindNext(listed: seq<Slot>, meanwhile: nat -> seq<Record>, n: nat, p: Prefix)
    ensures Behind(listed, meanwhile, n + 1, p) == Behind(listed, meanwhile, n, p) + (Slots(meanwhile(n), p) - Waiting(listed, n))
  {
  }

  /** The key order in which a cursor lists records. */
  ghost predicate IsOrder(order: set<Slot> -> seq<Slot>) {
    forall records :: Lists(order(records), records)
  }

  /** `DeleteInactivePrefix`: the data first, then the marker. */
  method DeleteInactivePrefix(disk: Disk<Db>, order: set<Slot> -> seq<Slot>, faults: Faults, meanwhile: nat -> seq<Record>)
    returns (ok: bool)
    requires Valid(disk) && IsOrder(order)
    modifies disk
    ensures Valid(disk) && Extends(old(disk.durable), disk.durable, Active(old(disk.state)))
    ensures old(disk.state).inactive.None? ==>
      ok && disk.state == old(disk.state) && disk.durable == old(disk.durable)
    ensures old(disk.state).inactive.Some? ==>
      var p := old(disk.state).inactive.value;
      var listed := order(Records(old(disk.state).data, p));
      && Deleted(old(disk.state), disk.state, ok, p, listed, faults, meanwhile)
      && (TidyTrace(disk.durable) <==>
            TidyTrace(old(disk.durable)) && (MarkerGoes(listed, faults) ==> Late(listed, faults, meanwhile, p) == {}))
  {
    hide Deleting, ValidTrace, Extends, Tidy, TidyTrace, Evolves, Active, Sane, Slots, Late;
    if disk.state.inactive.None? {
      ExtendsNothing(disk.durable, Active(disk.state));
      return true;
    }
    var p := disk.state.inactive.value;
    var listed := order(Records(disk.state.data, p));
    ghost var start, trace := disk.state, disk.durable;
    ok := DeletePrefix(disk, p, listed, faults.cut, meanwhile);
    CutIsLate(listed, faults, meanwhile, p);
    if !ok { return; }
    AllWait(listed);
    ok := RemoveMarker(disk, p, listed, faults, meanwhile, start, trace);
  }

  lemma CutIsLate(listed: seq<Slot>, faults: Faults, meanwhile: nat -> seq<Record>, p: Prefix)
    ensures Cut(listed, faults.cut) ==> Late(listed, faults, meanwhile, p) == Behind(listed, meanwhile, Rounds(listed, faults.cut), p)
  {
  }

  // ---------- The domain ----------

  function Swapped(db: Db): Db {
    db.(active := db.inactive, inactive := db.active)
  }

  /** One write of a state that evolves. */
  lemma WriteKeeps(trace: seq<Db>, db: Db)
    requires trace != [] && ValidTrace(trace) && Sane(db) && Evolves(trace[|trace| - 1], db)
    ensures ValidTrace(trace + [db]) && (TidyTrace(trace + [db]) <==> TidyTrace(trace) && Tidy(db))
    ensures Extends(trace, trace + [db], Active(db)) && Extends(trace, trace, Active(db))
    ensures Sane(trace[|trace| - 1]) && (TidyTrace(trace) ==> Tidy(trace[|trace| - 1]))
  {
    hide Evolves, Tidy, Sane, Active;
    TraceMore(trace, db);
    TidyMore(trace, db);
  }

  /** A new inactive marker over a prefix: the active consensus is the same, and nothing becomes stray. */
  lemma MarkerSet(db: Db, p: Prefix)
    requires Sane(db) && db.inactive.None? && db.active == Some(Flip(p))
    ensures var after := db.(inactive := Some(p));
      && Sane(after) && Active(after) == Active(db) && Evolves(db, after) && Staging(after) == Under(db.data, p)
      && (Tidy(db) ==> Tidy(after) && Under(db.data, p) == map[])
  {
    var after := db.(inactive := Some(p));
    SameActiveEvolves(db, after);
    if Tidy(db) {
      assert forall q :: Named(db, q) ==> Named(after, q);
      forall k ensures k !in Under(db.data, p) {
        UnderAt(db.data, p, k);
        assert Slot(p, k) in db.data ==> Named(db, p);
      }
    }
  }

  class Domain {
    const disk: Disk<Db>
    /** The prefix the consensus instance writes under; `None` is a missing instance. */
    var consensus: Option<Prefix>
    var staging: Option<Prefix>
    /** What was written through the staging instance since it was created. */
    ghost var built: Content

    constructor (disk: Disk<Db>, p: Prefix)
      ensures this.disk == disk && consensus == Some(p) && staging == None
    {
      this.disk, consensus, staging, built := disk, Some(p), None, map[];
    }

    /** The instances write where the markers say. */
    ghost predicate InStep()
      reads this, disk
    {
      disk.state.active.Some? && consensus == disk.state.active && (staging.Some? ==> staging == disk.state.inactive)
    }

    /** There is a staging instance, under the inactive marker, and all it wrote is there and nothing else. */
    ghost predicate Ready()
      reads this, disk
    {
      staging.Some? && staging == disk.state.inactive && Staging(disk.state) == built
    }

    /** `initStagingConsensus`: the marker is set before anything is written under the prefix. */
    method InitStagingConsensus(markerFails: bool, factoryFails: bool) returns (ok: bool)
      requires Valid(disk)
      modifies this`staging, this`built, disk
      ensures Valid(disk) && Extends(old(disk.durable), disk.durable, Active(old(disk.state)))
      ensures var refused := old(disk.state).inactive.Some? || old(disk.state).active.None?;
        && (ok <==> !refused && !markerFails && !factoryFails)
        && (refused || markerFails ==> disk.state == old(disk.state) && disk.durable == old(disk.durable))
        && (!refused && !markerFails ==>
              var p := Flip(old(disk.state).active.value);
              && disk.state == old(disk.state).(inactive := Some(p)) && Staging(disk.state) == Under(old(disk.state).data, p)
              && (Tidy(old(disk.state)) ==> Tidy(disk.state) && Staging(disk.state) == map[]))
      ensures staging == if ok then disk.state.inactive else old(staging)
      ensures built == if ok then map[] else old(built)
      ensures ok && Tidy(old(disk.state)) ==> Ready()
      ensures TidyTrace(disk.durable) <==> TidyTrace(old(disk.durable))
    {
      hide ValidTrace, Extends, TidyTrace, Evolves, Active, Staging, Under, Sane, Tidy;
      ok := false;
      WriteKeepsLast(disk.durable);
      if disk.state.inactive.Some? { return; }
      if disk.state.active.None? { return; }
      var inactivePrefix := Flip(disk.state.active.value);
      var db := disk.state.(inactive := Some(inactivePrefix));
      MarkerSet(disk.state, inactivePrefix);
      WriteKeeps(disk.durable, db);
      if markerFails { return; }
      disk.Write(db);
      if factoryFails { return; }
      staging, built := Some(inactivePrefix), map[];
      ok := true;
    }

    /** A write through the consensus instance. */
    method Write(k: Key, v: Value, fails: bool)
      requires Valid(disk) && consensus.Some? && disk.state.active.Some?
      modifies disk
      ensures Valid(disk)
      ensures disk.durable == if fails then old(disk.durable) else old(disk.durable) + [disk.state]
      ensures disk.state == if fails then old(disk.state) else old(disk.state).(data := old(disk.state).data[Slot(consensus.value, k) := v])
      ensures TidyTrace(disk.durable) <==> TidyTrace(old(disk.durable)) && (fails || Named(old(disk.state), consensus.value))
    {
      hide ValidTrace, Extends, TidyTrace, Evolves, Active, Staging, Sane, Tidy;
      var db := disk.state.(data := disk.state.data[Slot(consensus.value, k) := v]);
      WriteKeepsLast(disk.durable);
      PutEvolves(disk.state, consensus.value, k, v);
      WriteKeeps(disk.durable, db);
      if !fails { disk.Write(db); }
    }

    /** A write through the staging instance. */
    method WriteStaging(k: Key, v: Value, fails: bool)
      requires Valid(disk) && staging.Some? && disk.state.active.Some?
      modifies this`built, disk
      ensures Valid(disk)
      ensures disk.durable == if fails then old(disk.durable) else old(disk.durable) + [disk.state]
      ensures disk.state == if fails then old(disk.state) else old(disk.state).(data := old(disk.state).data[Slot(staging.value, k) := v])
      ensures built == if fails then old(built) else old(built)[k := v]
      ensures old(Ready()) ==> Ready()
      ensures TidyTrace(disk.durable) <==> TidyTrace(old(disk.durable)) && (fails || Named(old(disk.state), staging.value))
    {
      hide ValidTrace, Extends, TidyTrace, Evolves, Active, Staging, Sane, Tidy;
      var db := disk.state.(data := disk.state.data[Slot(staging.value, k) := v]);
      WriteKeepsLast(disk.durable);
      PutEvolves(disk.state, staging.value, k, v);
      WriteKeeps(disk.durable, db);
      if !fails {
        disk.Write(db);
        built := built[k := v];
      }
    }

    /** `CommitStagingConsensus`: one batch swaps the markers; then the old data goes; then the pointer moves. */
    method CommitStagingConsensus(swapFails: bool, order: set<Slot> -> seq<Slot>, faults: Faults, meanwhile: nat -> seq<Record>)
      returns (ok: bool)
      requires Valid(disk) && IsOrder(order)
      modifies this, disk
      ensures Valid(disk) && Extends(old(disk.durable), disk.durable, Staging(old(disk.state)))
      ensures var refused := swapFails || old(disk.state).inactive.None? || old(disk.state).active.None?;
        && (refused ==> !ok && disk.state == old(disk.state) && disk.durable == old(disk.durable))
        && (!refused ==>
              var p := old(disk.state).active.value;
              var listed := order(Records(old(disk.state).data, p));
              && Deleted(Swapped(old(disk.state)), disk.state, ok, p, listed, faults, meanwhile)
              && (TidyTrace(disk.durable) <==>
                    TidyTrace(old(disk.durable)) && (MarkerGoes(listed, faults) ==> Late(listed, faults, meanwhile, p) == {}))
              && (old(Ready()) <==>
                    old(staging).Some? && disk.state.active == old(staging) && Active(disk.state) == old(built)))
      ensures consensus == (if ok then old(staging) else old(consensus)) && staging == (if ok then None else old(staging))
      ensures built == old(built)
      ensures old(InStep()) && old(staging).Some? ==>
        ((consensus.Some? && Named(disk.state, consensus.value)) <==> ok || disk.state.inactive.Some?)
    {
      hide ValidTrace, Extends, TidyTrace, Evolves, Active, Staging, Sane, Tidy, Late, Records, SameOutside, Waiting;
      ok := false;
      ghost var content := Staging(disk.state);
      ExtendsNothing(disk.durable, content);
      if disk.state.inactive.None? { return; }
      if disk.state.active.None? { return; }
      if swapFails { return; }
      WriteKeepsLast(disk.durable);
      SwapShowsStaging(disk.state);
      ghost var trace := disk.durable;
      WriteKeeps(trace, Swapped(disk.state));
      disk.Write(Swapped(disk.state));
      ghost var between := disk.durable;
      ok := DeleteInactivePrefix(disk, order, faults, meanwhile);
      ExtendsExtends(trace, between, disk.durable, content);
      if !ok { return; }
      consensus, staging := staging, None;
    }

    /** `DeleteStagingConsensus` */
    method DeleteStagingConsensus(order: set<Slot> -> seq<Slot>, faults: Faults, meanwhile: nat -> seq<Record>) returns (ok: bool)
      requires Valid(disk) && IsOrder(order)
      modifies this`staging, disk
      ensures Valid(disk) && Extends(old(disk.durable), disk.durable, Active(old(disk.state)))
      ensures old(disk.state).inactive.None? ==> ok && disk.state == old(disk.state) && disk.durable == old(disk.durable)
      ensures old(disk.state).inactive.Some? ==>
        var p := old(disk.state).inactive.value;
        var listed := order(Records(old(disk.state).data, p));
        && Deleted(old(disk.state), disk.state, ok, p, listed, faults, meanwhile)
        && (TidyTrace(disk.durable) <==>
              TidyTrace(old(disk.durable)) && (MarkerGoes(listed, faults) ==> Late(listed, faults, meanwhile, p) == {}))
      ensures staging == if ok then None else old(staging)
      ensures old(InStep()) && old(staging).Some? ==>
        ((staging.Some? ==> Named(disk.state, staging.value)) <==> ok || disk.state.inactive.Some?)
      ensures old(Ready()) && Silent(meanwhile) ==>
        (Ready() <==> disk.state.inactive.Some? && Rounds(order(Records(old(disk.state).data, old(staging).value)), faults.cut) == 0)
    {
      hide ValidTrace, Extends, TidyTrace, Evolves, Active, Under, Sane, Tidy, Late, Records, SameOutside, Waiting, Taken;
      ghost var start := disk.state;
      ok := DeleteInactivePrefix(disk, order, faults, meanwhile);
      if start.inactive.Some? {
        WholeIff(start, disk.state, start.inactive.value, order(Records(start.data, start.inactive.value)), faults.cut, meanwhile);
      }
      if ok { staging := None; }
    }
  }

  /** A deletion without other writes leaves the prefix as it was if and only if it deleted nothing. */
  lemma WholeIff(start: Db, db: Db, p: Prefix, listed: seq<Slot>, cut: Option<nat>, meanwhile: nat -> seq<Record>)
    requires Lists(listed, Records(start.data, p)) && Taken(start, db, listed, Rounds(listed, cut), meanwhile)
    ensures Silent(meanwhile) ==> (Under(db.data, p) == Under(start.data, p) <==> Rounds(listed, cut) == 0)
  {
    AllWait(listed);
    if Silent(meanwhile) {
      if Rounds(listed, cut) == 0 {
        assert start.data - {} == start.data;
      } else {
        var s := listed[0];
        Listed(listed, Records(start.data, p), 0);
        FirstIsTaken(listed, Rounds(listed, cut));
        UnderAt(start.data, p, s.key);
        UnderAt(db.data, p, s.key);
        assert s == Slot(p, s.key);
      }
    }
  }

  lemma FirstIsTaken(listed: seq<Slot>, n: nat)
    requires Distinct(listed) && 0 < n <= |listed|
    ensures listed[0] in Elements(listed) - Waiting(listed, n)
  {
    if n < |listed| {
      forall j | 0 <= j < |listed[n..]| ensures listed[n..][j] != listed[0] { assert listed[n..][j] == listed[n + j]; }
    }
  }

  lemma WriteKeepsLast(trace: seq<Db>)
    requires trace != [] && ValidTrace(trace)
    ensures Sane(trace[|trace| - 1]) && (TidyTrace(trace) ==> Tidy(trace[|trace| - 1]))
    ensures Extends(trace, trace, Active(trace[|trace| - 1]))
  {
  }

  // ---------- Starting ----------

  /** The records that are left when everything under the inactive marker is deleted. */
  ghost predicate KeepsTheRest(before: Db, after: Data) {
    && (forall s :: s in after <==> s in before.data && before.inactive != Some(s.prefix))
    && (forall s :: s in after ==> after[s] == before.data[s])
  }

  lemma DeletedKeepsTheRest(start: Db, db: Db, p: Prefix)
    requires start.inactive == Some(p) && SameOutside(start.data, db.data, p) && Records(db.data, p) == {}
    ensures KeepsTheRest(start, db.data)
  {
    forall s | s in db.data ensures s.prefix != p { assert s.prefix == p ==> s in Records(db.data, p); }
  }

  /** What is left is the active consensus alone if and only if nothing was stray. */
  lemma RestIsCleanIff(start: Db, db: Db)
    requires db.inactive.None? && db.active == start.active && KeepsTheRest(start, db.data)
    ensures Clean(db) <==> Tidy(start)
  {
    if Clean(db) {
      forall s | s in start.data ensures Named(start, s.prefix) { assert s !in db.data ==> start.inactive == Some(s.prefix); }
    }
    if Tidy(start) {
      forall s | s in db.data ensures db.active == Some(s.prefix) { assert Named(start, s.prefix); }
    }
  }

  lemma FirstMarker(db: Db)
    requires Sane(db) && db.active.None? && db.inactive.None?
    ensures var after := db.(active := Some(Zero)); Sane(after) && Active(after) == Active(db) && Evolves(db, after) && Tidy(after)
    ensures Tidy(db) && KeepsTheRest(db, db.data)
  {
    var after := db.(active := Some(Zero));
    assert after.data == map[];
    SameActiveEvolves(db, after);
  }

  /** No instance writes. */
  const NOTHING: nat -> seq<Record> := _ => []

  lemma {:induction false} SilentIsBehind(listed: seq<Slot>, meanwhile: nat -> seq<Record>, n: nat, p: Prefix)
    requires Silent(meanwhile)
    ensures Behind(listed, meanwhile, n, p) == {}
  {
    if n > 0 { SilentIsBehind(listed, meanwhile, n - 1, p); }
  }

  /** Nothing is late where no instance writes. */
  lemma SilentIsLate(listed: seq<Slot>, faults: Faults, meanwhile: nat -> seq<Record>, p: Prefix)
    requires Silent(meanwhile)
    ensures Late(listed, faults, meanwhile, p) == {}
  {
    SilentIsBehind(listed, meanwhile,
      if Cut(listed, faults.cut) then faults.cut.value else if faults.marker then |listed| + 1 else |listed| + 2, p);
  }

  /** The deletion of what the inactive marker names ends without an error. */
  predicate Cleans(db: Db, order: set<Slot> -> seq<Slot>, faults: Faults)
    requires db.inactive.Some?
  {
    MarkerGoes(order(Records(db.data, db.inactive.value)), faults) && !faults.compaction
  }

  /**
    `New`: finishes any interrupted deletion, and picks prefix zero for a fresh database. Data that no
    marker names stays.
  */
  method New(disk: Disk<Db>, order: set<Slot> -> seq<Slot>, faults: Faults, markerFails: bool, factoryFails: bool)
    returns (domain: Domain?)
    requires Valid(disk) && IsOrder(order)
    modifies disk
    ensures Valid(disk) && Extends(old(disk.durable), disk.durable, Active(old(disk.state)))
    ensures TidyTrace(disk.durable) <==> TidyTrace(old(disk.durable))
    ensures var cleaned := old(disk.state).inactive.None? || Cleans(old(disk.state), order, faults);
      && (domain != null <==> cleaned && (old(disk.state).active.Some? || !markerFails) && !factoryFails)
      && disk.state.active ==
         if old(disk.state).active.None? && cleaned && !markerFails then Some(Zero) else old(disk.state).active
    ensures domain != null ==>
      && fresh(domain) && domain.disk == disk && domain.InStep() && domain.staging == None
      && disk.state.active == (if old(disk.state).active.Some? then old(disk.state).active else Some(Zero))
      && disk.state.inactive.None? && KeepsTheRest(old(disk.state), disk.state.data)
      && (Clean(disk.state) <==> Tidy(old(disk.state)))
  {
    hide ValidTrace, Extends, TidyTrace, Evolves, Active, Staging, Sane, Tidy, Clean, KeepsTheRest, Late, Waiting;
    ghost var start, trace := disk.state, disk.durable;
    WriteKeepsLast(trace);
    var ok := DeleteInactivePrefix(disk, order, faults, NOTHING);
    if start.inactive.Some? {
      SilentIsLate(order(Records(start.data, start.inactive.value)), faults, NOTHING, start.inactive.value);
    }
    if !ok { return null; }
    if start.inactive.Some? {
      AllWait(order(Records(start.data, start.inactive.value)));
      DeletedKeepsTheRest(start, disk.state, start.inactive.value);
    } else {
      AllIsKept(start);
    }
    if disk.state.active.None? {
      var db := disk.state.(active := Some(Zero));
      ghost var between := disk.durable;
      WriteKeepsLast(between);
      FirstMarker(disk.state);
      WriteKeeps(between, db);
      if markerFails { return null; }
      disk.Write(db);
      ExtendsExtends(trace, between, disk.durable, Active(start));
      FirstIsClean(start, db);
    } else {
      RestIsCleanIff(start, disk.state);
    }
    if factoryFails { return null; }
    domain := new Domain(disk, disk.state.active.value);
  }

  lemma AllIsKept(db: Db)
    requires db.inactive.None?
    ensures KeepsTheRest(db, db.data)
  {
  }

  lemma FirstIsClean(start: Db, db: Db)
    requires Sane(start) && start.active.None? && db == start.(active := Some(Zero)) && start.inactive.None?
    ensures Clean(db) && Tidy(start)
  {
  }
}
