/**
  Runs of the staging operations: what goes wrong in particular ones, and what holds over all of them.
*/
module StagingRuns {
  import opened Basics
  import opened Disk
  import opened StagingDomain

  // ---------- Particular runs ----------

  /** A fresh node. */
  method Start(order: set<Slot> -> seq<Slot>) returns (domain: Domain)
    requires IsOrder(order)
    ensures fresh(domain) && fresh(domain.disk) && Valid(domain.disk)
    ensures domain.disk.state == Db(Some(Zero), None, map[]) && domain.consensus == Some(Zero) && domain.staging == None
  {
    hide Extends, TidyTrace, Tidy, Clean, Under, KeepsTheRest, IsOrder;
    var disk := new Disk(Db(None, None, map[]), RELIABLE);
    var started := New(disk, order, NO_FAULTS, false, false);
    NothingToKeep(Db(None, None, map[]), disk.state.data);
    domain := started;
  }

  lemma NothingToKeep(before: Db, after: Data)
    requires before.data == map[] && KeepsTheRest(before, after)
    ensures after == map[]
  {
  }

  lemma DeletionEnds(start: Db, db: Db, ok: bool, p: Prefix, listed: seq<Slot>, faults: Faults, meanwhile: nat -> seq<Record>)
    requires Deleted(start, db, ok, p, listed, faults, meanwhile)
    ensures db.active == start.active && db.active.Some? && Active(db) == Active(start)
    ensures db.inactive == (if MarkerGoes(listed, faults) then None else Some(p)) && (ok <==> db.inactive.None? && !faults.compaction)
    ensures faults == NO_FAULTS ==> ok
  {
  }

  /** A deletion without other writes that meets no fault at a record. */
  lemma AllTaken(start: Db, db: Db, ok: bool, p: Prefix, listed: seq<Slot>, faults: Faults, meanwhile: nat -> seq<Record>)
    requires Deleted(start, db, ok, p, listed, faults, meanwhile) && Lists(listed, Records(start.data, p)) && faults.cut.None?
    ensures db.active == start.active && db.inactive == (if faults.marker then Some(p) else None)
    ensures ok <==> !faults.marker && !faults.compaction
    ensures Silent(meanwhile) ==> db.data == start.data - Records(start.data, p)
  {
    AllWait(listed);
    assert Elements(listed) - {} == Elements(listed);
  }

  /** A failed compaction, a write through the instance that was not replaced, and a restart that keeps it. */
  method StrayAfterFailedCommit(order: set<Slot> -> seq<Slot>, k: Key, v: Value) returns (committed: bool, db: Db)
    requires IsOrder(order)
    ensures !committed && db.active == Some(One) && db.inactive.None? && Slot(Zero, k) in db.data && !Tidy(db)
  {
    hide Deleted, Extends, TidyTrace, ValidTrace, Tidy, Clean, Under, KeepsTheRest, IsOrder;
    var domain := Start(order);
    var disk := domain.disk;
    var ok := domain.InitStagingConsensus(false, false);
    ghost var start := disk.state;
    committed := domain.CommitStagingConsensus(false, order, Faults(None, false, true), NOTHING);
    OrderLists(order, Records(start.data, Zero));
    AllTaken(Swapped(start), disk.state, committed, Zero, order(Records(start.data, Zero)), Faults(None, false, true), NOTHING);
    domain.Write(k, v, false);
    ghost var before := disk.state;
    var again := New(disk, order, NO_FAULTS, false, false);
    StrayStays(before, disk.state, Slot(Zero, k));
    db := disk.state;
  }

  lemma OrderLists(order: set<Slot> -> seq<Slot>, records: set<Slot>)
    requires IsOrder(order)
    ensures Lists(order(records), records)
  {
  }

  lemma StrayStays(before: Db, db: Db, s: Slot)
    requires s in before.data && before.inactive.None? && before.active == db.active && before.active != Some(s.prefix)
    requires KeepsTheRest(before, db.data) && db.inactive.None?
    ensures s in db.data && !Tidy(db)
  {
  }

  /** A commit without any failure, during which the old instance writes a record. */
  method StrayDuringCommit(order: set<Slot> -> seq<Slot>, k: Key, v: Value) returns (committed: bool, db: Db)
    requires IsOrder(order)
    ensures committed && db.active == Some(One) && db.inactive.None? && Slot(Zero, k) in db.data && !Tidy(db)
  {
    hide Deleted, Extends, TidyTrace, ValidTrace, Tidy, Clean, Under, KeepsTheRest, IsOrder;
    var domain := Start(order);
    var disk := domain.disk;
    var ok := domain.InitStagingConsensus(false, false);
    var meanwhile: nat -> seq<Record> := _ => [(k, v)];
    ghost var start, listed := disk.state, order(Records(disk.state.data, Zero));
    committed := domain.CommitStagingConsensus(false, order, NO_FAULTS, meanwhile);
    OrderLists(order, Records(start.data, Zero));
    AllTaken(Swapped(start), disk.state, committed, Zero, listed, NO_FAULTS, meanwhile);
    WrittenLate(Swapped(start), disk.state, committed, listed, meanwhile, k, v);
    ghost var before := disk.state;
    var again := New(disk, order, NO_FAULTS, false, false);
    StrayStays(before, disk.state, Slot(Zero, k));
    db := disk.state;
  }

  lemma WrittenLate(start: Db, db: Db, ok: bool, listed: seq<Slot>, meanwhile: nat -> seq<Record>, k: Key, v: Value)
    requires Deleted(start, db, ok, Zero, listed, NO_FAULTS, meanwhile) && meanwhile(|listed| + 1) == [(k, v)]
    ensures Slot(Zero, k) in db.data
  {
    var n := |listed|;
    BehindNext(listed, meanwhile, n + 1, Zero);
    NothingWaits(listed, n + 1);
    assert Slot(Zero, meanwhile(n + 1)[0].0) in Slots(meanwhile(n + 1), Zero);
    assert Slot(Zero, k) in Records(db.data, Zero);
  }

  /** A commit without a staging instance succeeds and deletes the only consensus there is. */
  method CommitWithoutInstance(order: set<Slot> -> seq<Slot>, k: Key, v: Value)
    returns (initialized: bool, committed: bool, consensus: Option<Prefix>, db: Db)
    requires IsOrder(order)
    ensures !initialized && committed && consensus == None && db == Db(Some(One), None, map[])
  {
    hide Deleted, Extends, TidyTrace, ValidTrace, Tidy, Under, IsOrder;
    var domain := Start(order);
    var disk := domain.disk;
    domain.Write(k, v, false);
    initialized := domain.InitStagingConsensus(false, true);
    ghost var start := disk.state;
    committed := domain.CommitStagingConsensus(false, order, NO_FAULTS, NOTHING);
    OrderLists(order, Records(start.data, Zero));
    AllTaken(Swapped(start), disk.state, committed, Zero, order(Records(start.data, Zero)), NO_FAULTS, NOTHING);
    OneGone(start.data, Zero, k);
    consensus, db := domain.consensus, disk.state;
  }

  lemma OneGone(data: Data, p: Prefix, k: Key)
    requires data.Keys == {Slot(p, k)}
    ensures data - Records(data, p) == map[]
  {
  }

  /** A commit that fails at its last marker and is tried again swaps back to the emptied consensus. */
  method RetriedCommit(order: set<Slot> -> seq<Slot>, k: Key, v: Value) returns (first: bool, second: bool, db: Db)
    requires IsOrder(order)
    ensures !first && second && db == Db(Some(Zero), None, map[])
  {
    hide Deleted, Extends, TidyTrace, ValidTrace, Tidy, Under, IsOrder;
    var domain := Start(order);
    var disk := domain.disk;
    domain.Write(k, v, false);
    var ok := domain.InitStagingConsensus(false, false);
    domain.WriteStaging(k, v, false);
    ghost var start := disk.state;
    first := domain.CommitStagingConsensus(false, order, Faults(None, true, false), NOTHING);
    OrderLists(order, Records(start.data, Zero));
    AllTaken(Swapped(start), disk.state, first, Zero, order(Records(start.data, Zero)), Faults(None, true, false), NOTHING);
    OneLeft(start.data, k);
    start := disk.state;
    second := domain.CommitStagingConsensus(false, order, NO_FAULTS, NOTHING);
    OrderLists(order, Records(start.data, One));
    AllTaken(Swapped(start), disk.state, second, One, order(Records(start.data, One)), NO_FAULTS, NOTHING);
    OneGone(start.data, One, k);
    db := disk.state;
  }

  lemma OneLeft(data: Data, k: Key)
    requires data.Keys == {Slot(Zero, k), Slot(One, k)}
    ensures (data - Records(data, Zero)).Keys == {Slot(One, k)}
  {
  }

  /** A deletion of the staging consensus that fails half way leaves an instance, and what is left can be committed. */
  method CommitAfterCutDeletion(order: set<Slot> -> seq<Slot>, k: Key, j: Key, v: Value) returns (deleted: bool, committed: bool, db: Db)
    requires IsOrder(order) && k != j
    ensures !deleted && committed && db.active == Some(One) && db.inactive.None?
    ensures |db.data| == 1 && db.data.Keys <= {Slot(One, k), Slot(One, j)}
  {
    hide Deleted, Extends, TidyTrace, ValidTrace, Tidy, Under, IsOrder;
    var domain := Start(order);
    var disk := domain.disk;
    var ok := domain.InitStagingConsensus(false, false);
    domain.WriteStaging(k, v, false);
    domain.WriteStaging(j, v, false);
    ghost var start, listed := disk.state, order(Records(disk.state.data, One));
    deleted := domain.DeleteStagingConsensus(order, Faults(Some(1), false, false), NOTHING);
    OrderLists(order, Records(start.data, One));
    HalfTaken(start, disk.state, deleted, listed, k, j);
    start, listed := disk.state, order(Records(disk.state.data, Zero));
    committed := domain.CommitStagingConsensus(false, order, NO_FAULTS, NOTHING);
    OrderLists(order, Records(start.data, Zero));
    AllTaken(Swapped(start), disk.state, committed, Zero, listed, NO_FAULTS, NOTHING);
    NothingOfZero(start.data);
    db := disk.state;
  }

  lemma HalfTaken(start: Db, db: Db, ok: bool, listed: seq<Slot>, k: Key, j: Key)
    requires Deleted(start, db, ok, One, listed, Faults(Some(1), false, false), NOTHING) && Lists(listed, Records(start.data, One))
    requires start.data.Keys == {Slot(One, k), Slot(One, j)} && k != j
    ensures !ok && db.active == start.active && db.inactive == Some(One)
    ensures |db.data| == 1 && db.data.Keys <= start.data.Keys && forall s :: s in db.data ==> s.prefix == One
  {
    hide Deleting, Waiting, Elements, Records, Distinct, Active;
    BothRecords(start.data, k, j);
    DistinctSize(listed);
    AllWait(listed);
    WaitingNext(listed, 0);
    DeletionEnds(start, db, ok, One, listed, Faults(Some(1), false, false), NOTHING);
    OneOfTwo(start.data, db.data, Elements(listed), Waiting(listed, 1), listed[0]);
  }

  lemma BothRecords(data: Data, k: Key, j: Key)
    requires data.Keys == {Slot(One, k), Slot(One, j)} && k != j
    ensures Records(data, One) == data.Keys && |data.Keys| == 2
  {
  }

  lemma OneOfTwo(data: Data, left: Data, all: set<Slot>, waiting: set<Slot>, s: Slot)
    requires data.Keys == all && |all| == 2 && s in all && waiting == all - {s} && left == data - (all - waiting)
    ensures |left| == 1 && left.Keys <= all
  {
    assert left.Keys == waiting;
  }

  lemma NothingOfZero(data: Data)
    requires forall s :: s in data ==> s.prefix == One
    ensures data - Records(data, Zero) == data
  {
  }

  // ---------- Events ----------

  datatype Event =
    | InitStaging(markerFails: bool, factoryFails: bool)
    | Put(k: Key, v: Value, fails: bool)
    | PutStaging(k: Key, v: Value, fails: bool)
    | CommitStaging(swapFails: bool, faults: Faults, meanwhile: nat -> seq<Record>)
    | DeleteStaging(faults: Faults, meanwhile: nat -> seq<Record>)
    | Restart(at: nat, faults: Faults, markerFails: bool, factoryFails: bool)

  /** No instance writes in the middle of a deletion. */
  ghost predicate Quiet(event: Event) {
    event.CommitStaging? || event.DeleteStaging? ==> Silent(event.meanwhile)
  }

  /** Only writes, and deletions with writes meanwhile, can stray. */
  ghost predicate MayStray(event: Event) {
    match event
    case InitStaging(_, _) => false
    case Put(_, _, fails) => !fails
    case PutStaging(_, _, fails) => !fails
    case CommitStaging(_, _, _) => !Quiet(event)
    case DeleteStaging(_, _) => !Quiet(event)
    case Restart(_, _, _, _) => false
  }

  /** A commit is calm if it meets no fault behind the swap, a deletion if its compaction succeeds. */
  ghost predicate Calm(event: Event) {
    match event
    case CommitStaging(swapFails, faults, _) => swapFails || (faults == NO_FAULTS && Quiet(event))
    case DeleteStaging(faults, _) => !faults.compaction && Quiet(event)
    case _ => true
  }

  /** The instances that there are write where the markers say. */
  predicate InPlace(db: Db, consensus: Option<Prefix>, staging: Option<Prefix>) {
    (consensus.Some? ==> consensus == db.active) && (staging.Some? ==> staging == db.inactive)
  }

  /** A write through an instance whose prefix no marker names. */
  predicate Unnamed(db: Db, pointer: Option<Prefix>, fails: bool) {
    !fails && pointer.Some? && !Named(db, pointer.value)
  }

  /** A deletion of prefix `p` that removes the marker over records it did not see. */
  ghost predicate LeavesLate(db: Db, p: Prefix, order: set<Slot> -> seq<Slot>, faults: Faults, meanwhile: nat -> seq<Record>) {
    var listed := order(Records(db.data, p));
    MarkerGoes(listed, faults) && Late(listed, faults, meanwhile, p) != {}
  }

  /** The operation leaves a state with data that no marker names. */
  ghost predicate Strays(db: Db, consensus: Option<Prefix>, staging: Option<Prefix>, order: set<Slot> -> seq<Slot>, event: Event)
    requires db.active.Some?
  {
    match event
    case InitStaging(_, _) => false
    case Put(_, _, fails) => Unnamed(db, consensus, fails)
    case PutStaging(_, _, fails) => Unnamed(db, staging, fails)
    case CommitStaging(swapFails, faults, meanwhile) =>
      !swapFails && db.inactive.Some? && LeavesLate(db, db.active.value, order, faults, meanwhile)
    case DeleteStaging(faults, meanwhile) =>
      db.inactive.Some? && LeavesLate(db, db.inactive.value, order, faults, meanwhile)
    case Restart(_, _, _, _) => false
  }

  // ---------- The node without prefixes ----------

  /**
    The active consensus, the contents a crash may leave, and the staging consensus if there is one. It
    is `running` until an operation fails half way.
  */
  datatype Plain = Plain(running: bool, active: Content, shown: set<Content>, staged: Option<Content>)

  ghost function Next(s: Plain, event: Event): Plain
    requires !event.Restart?
  {
    match event
    case InitStaging(markerFails, factoryFails) =>
      if markerFails || s.staged.Some? then s else if factoryFails then s.(running := false) else s.(staged := Some(map[]))
    case Put(k, v, fails) => if fails then s else Showing(s, s.active[k := v])
    case PutStaging(k, v, fails) => if fails || s.staged.None? then s else s.(staged := Some(s.staged.value[k := v]))
    case CommitStaging(swapFails, faults, _) =>
      if swapFails || s.staged.None? then s
      else Showing(s, s.staged.value).(staged := None, running := faults == NO_FAULTS)
    case DeleteStaging(faults, _) => if s.staged.None? then s else s.(staged := None, running := faults == NO_FAULTS)
  }

  ghost function Showing(s: Plain, content: Content): Plain {
    s.(active := content, shown := s.shown + {content})
  }

  /** A restart finds one of the contents that were shown and forgets the staging consensus. */
  ghost predicate Steps(s: Plain, event: Event, t: Plain) {
    match event
    case Restart(_, faults, markerFails, factoryFails) =>
      && t.active in s.shown && t.shown == {t.active} && t.staged == None
      && (faults == NO_FAULTS && !markerFails && !factoryFails ==> t.running)
    case _ => t == if s.running then Next(s, event) else s
  }

  ghost function Shows(trace: seq<Db>): set<Content> {
    set i | 0 <= i < |trace| :: Active(trace[i])
  }

  /** A disk shows what the plain node says, and keeps nothing that no marker names. */
  ghost predicate Matches(s: Plain, trace: seq<Db>) {
    trace != [] && TidyTrace(trace) && Active(trace[|trace| - 1]) == s.active && Shows(trace) == s.shown
  }

  /** The instances of a running node serve its two consensuses. */
  ghost predicate Serves(s: Plain, db: Db, consensus: Option<Prefix>, staging: Option<Prefix>) {
    && db.active.Some? && consensus == db.active && staging == db.inactive
    && s.staged == if db.inactive.Some? then Some(Staging(db)) else None
  }

  lemma ShowsMore(before: seq<Db>, after: seq<Db>, content: Content)
    requires before != [] && Extends(before, after, content) && Active(after[|after| - 1]) == content
    ensures Shows(after) == Shows(before) + {content}
  {
    forall c | c in Shows(after) ensures c in Shows(before) + {content} {
      var i :| 0 <= i < |after| && Active(after[i]) == c;
      if i < |before| { assert before[i] == after[i]; }
    }
    forall c | c in Shows(before) ensures c in Shows(after) {
      var i :| 0 <= i < |before| && Active(before[i]) == c;
      assert before[i] == after[i];
    }
  }

  /** Writes that leave the active consensus alone. */
  lemma StillMatches(s: Plain, before: seq<Db>, after: seq<Db>)
    requires Matches(s, before) && Extends(before, after, s.active) && TidyTrace(after) && Active(after[|after| - 1]) == s.active
    ensures Matches(s, after)
  {
    ShowsMore(before, after, s.active);
    assert Active(before[|before| - 1]) in Shows(before);
  }

  /** Writes after which the disk shows another consensus. */
  lemma MatchesShowing(s: Plain, before: seq<Db>, after: seq<Db>, content: Content)
    requires Matches(s, before) && Extends(before, after, content) && TidyTrace(after) && Active(after[|after| - 1]) == content
    ensures Matches(Showing(s, content), after)
  {
    ShowsMore(before, after, content);
  }

  // ---------- One event ----------

  lemma StraysOnlyIf(db: Db, consensus: Option<Prefix>, staging: Option<Prefix>, order: set<Slot> -> seq<Slot>, event: Event)
    requires db.active.Some? && Strays(db, consensus, staging, order, event)
    ensures MayStray(event) && !(Calm(event) && InPlace(db, consensus, staging))
  {
    hide Late, Silent;
    if (event.CommitStaging? || event.DeleteStaging?) && Quiet(event) {
      var p := if event.CommitStaging? then db.active.value else db.inactive.value;
      SilentIsLate(order(Records(db.data, p)), event.faults, event.meanwhile, p);
    }
  }

  /** A plain node, and a disk with its instances. */
  ghost predicate Follows(s: Plain, trace: seq<Db>, db: Db, consensus: Option<Prefix>, staging: Option<Prefix>) {
    Matches(s, trace) && (s.running ==> trace[|trace| - 1] == db && Serves(s, db, consensus, staging))
  }

  lemma InitFollows(s: Plain, event: Event, before: seq<Db>, db: Db, consensus: Option<Prefix>, staging: Option<Prefix>, after: seq<Db>)
    requires event.InitStaging? && s.running && Follows(s, before, db, consensus, staging) && !event.markerFails && db.inactive.None?
    requires Extends(before, after, Active(db)) && TidyTrace(after) && after != []
    requires after[|after| - 1] == db.(inactive := Some(Flip(db.active.value))) && Staging(after[|after| - 1]) == map[]
    ensures var now := after[|after| - 1];
      Follows(Next(s, event), after, now, consensus, if event.factoryFails then staging else now.inactive)
  {
    hide Under, Shows, TidyTrace, Extends;
    StillMatches(s, before, after);
  }

  lemma PutFollows(s: Plain, event: Event, before: seq<Db>, db: Db, consensus: Option<Prefix>, staging: Option<Prefix>, now: Db)
    requires event.Put? && s.running && Follows(s, before, db, consensus, staging) && !event.fails && Sane(db)
    requires now == db.(data := db.data[Slot(consensus.value, event.k) := event.v]) && TidyTrace(before + [now])
    ensures Follows(Next(s, event), before + [now], now, consensus, staging)
  {
    hide Under, Shows, TidyTrace, Active, Staging;
    PutEvolves(db, consensus.value, event.k, event.v);
    MatchesShowing(s, before, before + [now], Active(now));
  }

  lemma PutStagingFollows(s: Plain, event: Event, before: seq<Db>, db: Db, consensus: Option<Prefix>, staging: Option<Prefix>, now: Db)
    requires event.PutStaging? && s.running && Follows(s, before, db, consensus, staging) && !event.fails && Sane(db) && staging.Some?
    requires now == db.(data := db.data[Slot(staging.value, event.k) := event.v]) && TidyTrace(before + [now])
    ensures Follows(Next(s, event), before + [now], now, consensus, staging)
  {
    hide Under, Shows, TidyTrace, Active, Staging;
    PutEvolves(db, staging.value, event.k, event.v);
    StillMatches(s, before, before + [now]);
  }

  lemma CommitFollows(s: Plain, event: Event, before: seq<Db>, db: Db, consensus: Option<Prefix>, staging: Option<Prefix>,
                      after: seq<Db>, ok: bool, listed: seq<Slot>)
    requires event.CommitStaging? && s.running && Follows(s, before, db, consensus, staging) && !event.swapFails && staging.Some?
    requires Extends(before, after, Staging(db)) && TidyTrace(after) && after != []
    requires Deleted(Swapped(db), after[|after| - 1], ok, db.active.value, listed, event.faults, event.meanwhile)
    ensures Follows(Next(s, event), after, after[|after| - 1],
                    if ok then staging else consensus, if ok then None else staging)
  {
    hide Under, Shows, TidyTrace, Extends, Deleted;
    DeletionEnds(Swapped(db), after[|after| - 1], ok, db.active.value, listed, event.faults, event.meanwhile);
    MatchesShowing(s, before, after, Staging(db));
  }

  lemma DeleteFollows(s: Plain, event: Event, before: seq<Db>, db: Db, consensus: Option<Prefix>, staging: Option<Prefix>,
                      after: seq<Db>, ok: bool, listed: seq<Slot>)
    requires event.DeleteStaging? && s.running && Follows(s, before, db, consensus, staging) && staging.Some?
    requires Extends(before, after, Active(db)) && TidyTrace(after) && after != []
    requires Deleted(db, after[|after| - 1], ok, db.inactive.value, listed, event.faults, event.meanwhile)
    ensures Follows(Next(s, event), after, after[|after| - 1], consensus, if ok then None else staging)
  {
    hide Under, Shows, TidyTrace, Extends, Deleted, Active;
    DeletionEnds(db, after[|after| - 1], ok, db.inactive.value, listed, event.faults, event.meanwhile);
    StillMatches(s, before, after);
  }

  /** One operation. */
  method Handle(domain: Domain, order: set<Slot> -> seq<Slot>, event: Event, ghost s: Plain)
    requires Valid(domain.disk) && domain.disk.state.active.Some? && IsOrder(order) && !event.Restart?
    modifies domain, domain.disk
    ensures Valid(domain.disk) && domain.disk.state.active.Some?
    ensures TidyTrace(domain.disk.durable) <==>
      TidyTrace(old(domain.disk.durable)) && !Strays(old(domain.disk.state), old(domain.consensus), old(domain.staging), order, event)
    ensures Calm(event) && old(InPlace(domain.disk.state, domain.consensus, domain.staging)) ==>
      InPlace(domain.disk.state, domain.consensus, domain.staging)
    ensures Quiet(event) && s.running && old(Follows(s, domain.disk.durable, domain.disk.state, domain.consensus, domain.staging)) ==>
      Follows(Next(s, event), domain.disk.durable, domain.disk.state, domain.consensus, domain.staging)
  {
    hide Deleted, Extends, TidyTrace, ValidTrace, Tidy, Silent, Active, Staging, Records, Late, IsOrder, Matches, MarkerGoes;
    ghost var db, trace, consensus, staging := domain.disk.state, domain.disk.durable, domain.consensus, domain.staging;
    ghost var follows := Quiet(event) && s.running && Follows(s, trace, db, consensus, staging);
    Last(s, trace);
    match event
    case InitStaging(markerFails, factoryFails) =>
      var ok := domain.InitStagingConsensus(markerFails, factoryFails);
      if follows && !markerFails && db.inactive.None? {
        InitFollows(s, event, trace, db, consensus, staging, domain.disk.durable);
      }
    case Put(k, v, fails) =>
      if domain.consensus.Some? { domain.Write(k, v, fails); }
      if follows && !fails { PutFollows(s, event, trace, db, consensus, staging, domain.disk.state); }
    case PutStaging(k, v, fails) =>
      if domain.staging.Some? { domain.WriteStaging(k, v, fails); }
      if follows && !fails && staging.Some? { PutStagingFollows(s, event, trace, db, consensus, staging, domain.disk.state); }
    case CommitStaging(swapFails, faults, meanwhile) =>
      var ok := domain.CommitStagingConsensus(swapFails, order, faults, meanwhile);
      if !swapFails && db.inactive.Some? {
        ghost var p := db.active.value;
        ghost var listed := order(Records(db.data, p));
        DeletionEnds(Swapped(db), domain.disk.state, ok, p, listed, faults, meanwhile);
        if follows {
          SilentIsLate(listed, faults, meanwhile, p);
          CommitFollows(s, event, trace, db, consensus, staging, domain.disk.durable, ok, listed);
        }
      }
    case DeleteStaging(faults, meanwhile) =>
      var ok := domain.DeleteStagingConsensus(order, faults, meanwhile);
      if db.inactive.Some? {
        ghost var p := db.inactive.value;
        ghost var listed := order(Records(db.data, p));
        DeletionEnds(db, domain.disk.state, ok, p, listed, faults, meanwhile);
        if follows {
          SilentIsLate(listed, faults, meanwhile, p);
          DeleteFollows(s, event, trace, db, consensus, staging, domain.disk.durable, ok, listed);
        }
      }
  }

  lemma Last(s: Plain, trace: seq<Db>)
    requires trace != [] && ValidTrace(trace)
    ensures Sane(trace[|trace| - 1])
    ensures Matches(s, trace) ==> TidyTrace(trace) && Tidy(trace[|trace| - 1])
  {
    hide Tidy, Sane;
  }

  // ---------- Whole runs ----------

  /** The operation stops between two of its steps. */
  predicate Faulty(event: Event) {
    match event
    case InitStaging(markerFails, factoryFails) => !markerFails && factoryFails
    case CommitStaging(swapFails, faults, _) => !swapFails && faults != NO_FAULTS
    case DeleteStaging(faults, _) => faults != NO_FAULTS
    case _ => false
  }

  /** These are exactly the operations that can stop a running node. */
  lemma FaultyIff(event: Event)
    requires !event.Restart?
    ensures Faulty(event) <==> exists s: Plain :: s.running && !Next(s, event).running
  {
    var idle, staged := Plain(true, map[], {}, None), Plain(true, map[], {}, Some(map[]));
    assert Faulty(event) ==> !Next(idle, event).running || !Next(staged, event).running;
  }

  /** Nothing but a restart follows an operation that stopped half way, and no instance writes in the middle of one. */
  ghost predicate Orderly(events: seq<Event>) {
    && (forall i :: 0 <= i < |events| ==> Quiet(events[i]))
    && (forall i :: 0 < i < |events| && Faulty(events[i - 1]) ==> events[i].Restart?)
  }

  /** The plain node before the first start. */
  ghost function Begin(trace: seq<Db>): Plain
    requires trace != []
  {
    Plain(false, Active(trace[|trace| - 1]), Shows(trace), None)
  }

  /** The plain nodes before each of the first `n` events and after them. */
  ghost predicate IsHistory(plain: seq<Plain>, events: seq<Event>, n: nat) {
    && n <= |events| && |plain| == n + 1
    && forall i :: 0 <= i < n ==> Steps(plain[i], events[i], plain[i + 1])
  }

  ghost predicate Remembered(plain: seq<Plain>, trace: seq<Db>) {
    exists s :: s in plain && Matches(s, trace)
  }

  /** A disk as a crash leaves it: in any state it was ever in. */
  method Crash(disk: Disk<Db>, at: nat) returns (after: Disk<Db>)
    requires Valid(disk)
    ensures fresh(after) && Valid(after) && after.state in disk.durable && after.durable == [after.state]
    ensures TidyTrace(disk.durable) ==> TidyTrace(after.durable)
  {
    after := new Disk(if at < |disk.durable| then disk.durable[at] else disk.state, RELIABLE);
  }

  lemma RestartFollows(s: Plain, event: Event, trace: seq<Db>, db: Db, after: seq<Db>, up: bool) returns (t: Plain)
    requires Matches(s, trace) && db in trace && event.Restart?
    requires Extends([db], after, Active(db)) && TidyTrace(after)
    requires event.faults == NO_FAULTS && !event.markerFails && !event.factoryFails ==> up
    ensures Steps(s, event, t) && Matches(t, after) && t.running == up && t.staged == None
  {
    t := Plain(up, Active(db), {Active(db)}, None);
    var i :| 0 <= i < |trace| && trace[i] == db;
    assert Active(trace[i]) in Shows(trace);
    assert Shows([db]) == {Active(db)} by { assert Active([db][0]) in Shows([db]); }
    ShowsMore([db], after, Active(db));
  }

  lemma HistoryMore(plain: seq<Plain>, events: seq<Event>, n: nat, t: Plain)
    requires n < |events| && IsHistory(plain, events, n) && Steps(plain[n], events[n], t)
    ensures IsHistory(plain + [t], events, n + 1)
  {
    hide Steps;
  }

  /** What a run of the node keeps to as long as it is orderly. */
  ghost predicate OnTrack(plain: seq<Plain>, events: seq<Event>, n: nat, past: seq<seq<Db>>) {
    IsHistory(plain, events, n) && forall t :: t in past ==> Remembered(plain, t)
  }

  lemma OnTrackMore(plain: seq<Plain>, events: seq<Event>, n: nat, past: seq<seq<Db>>, t: Plain)
    requires n < |events| && OnTrack(plain, events, n, past) && Steps(plain[n], events[n], t)
    ensures OnTrack(plain + [t], events, n + 1, past)
  {
    hide Steps, Matches;
    HistoryMore(plain, events, n, t);
    forall trace | trace in past ensures Remembered(plain + [t], trace) {
      var s :| s in plain && Matches(s, trace);
      assert s in plain + [t];
    }
  }

  lemma OnTrackPast(plain: seq<Plain>, events: seq<Event>, n: nat, past: seq<seq<Db>>, trace: seq<Db>)
    requires OnTrack(plain, events, n, past) && Matches(plain[n], trace)
    ensures OnTrack(plain, events, n, past + [trace])
  {
    hide Matches;
    assert plain[n] in plain;
  }

  /** An orderly run and the disk it ends with. */
  ghost predicate InOrder(plain: seq<Plain>, events: seq<Event>, n: nat, past: seq<seq<Db>>,
                          trace: seq<Db>, up: bool, db: Db, consensus: Option<Prefix>, staging: Option<Prefix>)
  {
    && OnTrack(plain, events, n, past) && Follows(plain[n], trace, db, consensus, staging)
    && (up || !plain[n].running) && (plain[n].running || !up || (n > 0 && Faulty(events[n - 1])))
  }

  lemma Begins(trace: seq<Db>, events: seq<Event>)
    requires trace != [] && TidyTrace(trace)
    ensures InOrder([Begin(trace)], events, 0, [], trace, false, trace[|trace| - 1], None, None)
  {
  }

  lemma HandleInOrder(plain: seq<Plain>, events: seq<Event>, n: nat, past: seq<seq<Db>>,
                      trace: seq<Db>, db: Db, consensus: Option<Prefix>, staging: Option<Prefix>,
                      after: seq<Db>, now: Db, nowConsensus: Option<Prefix>, nowStaging: Option<Prefix>)
    requires Orderly(events) && n < |events| && !events[n].Restart?
    requires InOrder(plain, events, n, past, trace, true, db, consensus, staging)
    requires Quiet(events[n]) && plain[n].running && Follows(plain[n], trace, db, consensus, staging) ==>
      Follows(Next(plain[n], events[n]), after, now, nowConsensus, nowStaging)
    ensures plain[n].running
    ensures InOrder(plain + [Next(plain[n], events[n])], events, n + 1, past, after, true, now, nowConsensus, nowStaging)
  {
    hide Matches, Serves;
    var t := Next(plain[n], events[n]);
    assert t.running || Faulty(events[n]);
    OnTrackMore(plain, events, n, past, t);
  }

  lemma SkipInOrder(plain: seq<Plain>, events: seq<Event>, n: nat, past: seq<seq<Db>>, trace: seq<Db>, db: Db)
    requires n < |events| && !events[n].Restart? && InOrder(plain, events, n, past, trace, false, db, None, None)
    ensures InOrder(plain + [plain[n]], events, n + 1, past, trace, false, db, None, None)
  {
    hide Matches, Serves;
    OnTrackMore(plain, events, n, past, plain[n]);
  }

  lemma RestartInOrder(plain: seq<Plain>, events: seq<Event>, n: nat, past: seq<seq<Db>>,
                       trace: seq<Db>, up: bool, db: Db, consensus: Option<Prefix>, staging: Option<Prefix>,
                       found: Db, after: seq<Db>, nowUp: bool, now: Db, nowConsensus: Option<Prefix>)
    returns (t: Plain)
    requires n < |events| && events[n].Restart? && InOrder(plain, events, n, past, trace, up, db, consensus, staging)
    requires found in trace && Extends([found], after, Active(found)) && now == after[|after| - 1]
    requires TidyTrace(trace) ==> TidyTrace(after)
    requires events[n].faults == NO_FAULTS && !events[n].markerFails && !events[n].factoryFails ==> nowUp
    requires nowUp ==> now.active.Some? && now.active == nowConsensus && now.inactive.None?
    ensures InOrder(plain + [t], events, n + 1, past + [trace], after, nowUp, now, nowConsensus, None)
  {
    hide Active, Steps, Shows;
    t := RestartFollows(plain[n], events[n], trace, found, after, nowUp);
    OnTrackPast(plain, events, n, past, trace);
    OnTrackMore(plain, events, n, past + [trace], t);
  }

  lemma InOrderEnds(plain: seq<Plain>, events: seq<Event>, n: nat, past: seq<seq<Db>>,
                    trace: seq<Db>, up: bool, db: Db, consensus: Option<Prefix>, staging: Option<Prefix>)
    requires InOrder(plain, events, n, past, trace, up, db, consensus, staging)
    ensures IsHistory(plain, events, n) && Matches(plain[n], trace) && TidyTrace(trace)
    ensures forall t :: t in past ==> Remembered(plain, t) && TidyTrace(t)
    ensures plain[n].running ==> up && Serves(plain[n], db, consensus, staging)
  {
    hide Serves, TidyTrace, Shows, Active, Steps;
  }

  /**
    Any run of the operations, with any failures, any writes of instances meanwhile, and crashes at
    any write; the node may go on after a failure. Every state ever on a disk has sane markers and
    evolves from the one before. All of them are tidy if every event is calm. If the run is orderly, the
    disk and its instances are a plain node: every state ever on a disk shows a consensus that was
    active, a commit shows what was staged, and a restart finds what was shown.
  */
  method Run(disk: Disk<Db>, order: set<Slot> -> seq<Slot>, events: seq<Event>)
    returns (last: Disk<Db>, domain: Domain?, ghost past: seq<seq<Db>>, ghost strayed: seq<nat>, ghost plain: seq<Plain>)
    requires Valid(disk) && TidyTrace(disk.durable) && IsOrder(order)
    modifies disk
    ensures Valid(last) && (forall t :: t in past ==> ValidTrace(t))
    ensures domain != null ==> domain.disk == last && last.state.active.Some?
    ensures strayed == [] <==> TidyTrace(last.durable) && forall t :: t in past ==> TidyTrace(t)
    ensures forall i :: i in strayed ==> i < |events| && MayStray(events[i])
    ensures (forall e :: e in events ==> Calm(e)) ==> strayed == []
    ensures Orderly(events) ==>
      && IsHistory(plain, events, |events|) && plain[0] == Begin(old(disk.durable)) && strayed == []
      && (forall t :: t in past ==> Remembered(plain, t)) && Matches(plain[|events|], last.durable)
      && (plain[|events|].running ==> domain != null && Serves(plain[|events|], last.state, domain.consensus, domain.staging))
  {
    hide TidyTrace, ValidTrace, Tidy, Sane, Matches, Serves, InOrder, Follows, Steps, Calm, IsOrder, Strays, Extends, Active, KeepsTheRest;
    last, domain, past, strayed := disk, null, [], [];
    plain := [Begin(disk.durable)];
    ghost var calm := forall e :: e in events ==> Calm(e);
    ghost var orderly := Orderly(events);
    Begins(disk.durable, events);
    for i := 0 to |events|
      invariant (last == disk || fresh(last)) && Valid(last) && forall t :: t in past ==> ValidTrace(t)
      invariant domain != null ==> fresh(domain) && domain.disk == last && last.state.active.Some?
      invariant strayed == [] <==> TidyTrace(last.durable) && forall t :: t in past ==> TidyTrace(t)
      invariant forall j :: j in strayed ==> j < i && MayStray(events[j])
      invariant calm ==> strayed == [] && (domain != null ==> InPlace(last.state, domain.consensus, domain.staging))
      invariant |plain| == i + 1 && plain[0] == Begin(old(disk.durable))
      invariant orderly ==> domain != null ==>
        InOrder(plain, events, i, past, last.durable, true, last.state, domain.consensus, domain.staging)
      invariant orderly ==> domain == null ==> InOrder(plain, events, i, past, last.durable, false, last.state, None, None)
    {
      if events[i].Restart? {
        ghost var trace, db, up := last.durable, last.state, domain != null;
        ghost var consensus := if domain != null then domain.consensus else None;
        ghost var staging := if domain != null then domain.staging else None;
        last := Crash(last, events[i].at);
        ghost var found := last.state;
        domain := New(last, order, events[i].faults, events[i].markerFails, events[i].factoryFails);
        ghost var t := plain[i];
        if orderly {
          t := RestartInOrder(plain, events, i, past, trace, up, db, consensus, staging, found, last.durable,
                              domain != null, last.state, if domain != null then domain.consensus else None);
        }
        past, plain := past + [trace], plain + [t];
      } else if domain != null {
        ghost var trace, db, consensus, staging := last.durable, last.state, domain.consensus, domain.staging;
        Handle(domain, order, events[i], plain[i]);
        if Strays(db, consensus, staging, order, events[i]) {
          StraysOnlyIf(db, consensus, staging, order, events[i]);
          strayed := strayed + [i];
        }
        if orderly {
          HandleInOrder(plain, events, i, past, trace, db, consensus, staging,
                        last.durable, last.state, domain.consensus, domain.staging);
        }
        plain := plain + [Next(plain[i], events[i])];
      } else {
        if orderly { SkipInOrder(plain, events, i, past, last.durable, last.state); }
        plain := plain + [plain[i]];
      }
    }
    if orderly {
      InOrderEnds(plain, events, |events|, past, last.durable, domain != null, last.state,
                  if domain != null then domain.consensus else None, if domain != null then domain.staging else None);
    }
  }
}
