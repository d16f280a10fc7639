/**
  The lock protocol of domain/consensus/consensus.go: any number of threads call
  `ValidateAndInsertBlock` and `ResolveVirtual`, which share one mutex and the flag
  `virtualNotUpdated`.

  A state holds the mutex, the flag, every thread's position in its call, and the history of what the
  consensus managers did. Threads interleave between any two positions.
*/
module ConsensusLock {
  import opened Basics

  type Thread = nat

  /** What the consensus managers completed. */
  datatype Event =
    | Inserted(updateVirtual: bool, hasBody: bool)
    | Resolved(complete: bool)

  /** What a thread called, and how long the history was then. */
  datatype Kind = InsertAndUpdate | InsertWithoutUpdate | ResolveAll

  datatype Call = Call(kind: Kind, started: nat)

  /** What a call returns: an error, or no error and the number of the event that it stands for. */
  datatype Result = Failed | Done(at: nat)

  datatype Return = Return(thread: Thread, call: Call, result: Result)

  /** Where a thread is. The positions that hold the lock are listed in `Holds`. */
  datatype Pc =
    | Idle
    // ValidateAndInsertBlock with updateVirtual
    | LockToInsert
    | CheckFlag
    | ResolveBeforeInsert
    | FinishBeforeInsert(complete: bool)
    | UnlockBetweenChunks
    | LockAgain
    | InsertUpdating
    // ValidateAndInsertBlock without updateVirtual
    | LockToInsertOnly
    | InsertOnly
    | RaiseFlag(hasBody: bool, at: nat)
    // both
    | SendEvents(at: nat)
    | UnlockAndReturn(result: Result)
    // ResolveVirtual
    | LockToReadScore
    | ReadScore
    | UnlockAfterScore
    | LockToResolve
    | ResolveChunk
    | FinishChunk(complete: bool, at: nat)
    | UnlockAfterChunk

  /** `authors` are the threads that made the events of the history, and `calls` is what each thread called last. */
  datatype State = State(
    lock: Option<Thread>,
    virtualNotUpdated: bool,
    pcs: map<Thread, Pc>,
    history: seq<Event>,
    authors: seq<Thread>,
    calls: map<Thread, Call>,
    returned: seq<Return>)

  function PcOf(s: State, t: Thread): Pc {
    if t in s.pcs then s.pcs[t] else Idle
  }

  function At(s: State, t: Thread, pc: Pc): State {
    s.(pcs := s.pcs[t := pc])
  }

  function CallOf(s: State, t: Thread): Call {
    if t in s.calls then s.calls[t] else Call(ResolveAll, 0)
  }

  /** The positions between a lock and the matching unlock. */
  predicate Holds(pc: Pc) {
    match pc
    case Idle | LockToInsert | LockAgain | LockToInsertOnly | LockToReadScore | LockToResolve => false
    case _ => true
  }

  /** What a step does to the shared state. */
  datatype Action =
    | Nothing
    | Start(kind: Kind)
    | Take
    | Give
    | GiveAndReturn(result: Result)
    | Write(event: Event, flag: bool)
    | SetFlag(flag: bool)

  function FirstPc(kind: Kind): Pc {
    match kind
    case InsertAndUpdate => LockToInsert
    case InsertWithoutUpdate => LockToInsertOnly
    case ResolveAll => LockToReadScore
  }

  /** `consensusStateManager.ResolveVirtual`, then the flag; an error leaves the flag alone. */
  predicate Resolves(a: Action) {
    a.Write? && a.event.Resolved? && a.flag == !a.event.complete
  }

  /** The block processor inserts a block; the flag is not touched yet. */
  predicate Inserts(a: Action, updateVirtual: bool, flag: bool) {
    a.Write? && a.event.Inserted? && a.event.updateVirtual == updateVirtual && a.flag == flag
  }

  predicate Fails(a: Action, to: Pc) {
    a == Nothing && to == UnlockAndReturn(Failed)
  }

  /** A thread at `pc` may do `a` and go to `to`, when it reads the flag and the history is `n` long. */
  predicate Local(pc: Pc, flag: bool, n: nat, a: Action, to: Pc) {
    match pc
    case Idle => a.Start? && to == FirstPc(a.kind)
    case LockToInsert => a == Take && to == CheckFlag
    case CheckFlag => a == Nothing && to == (if flag then ResolveBeforeInsert else InsertUpdating)
    case ResolveBeforeInsert => Fails(a, to) || (Resolves(a) && to == FinishBeforeInsert(a.event.complete))
    case FinishBeforeInsert(complete) =>
      Fails(a, to) || (a == Nothing && to == if complete then InsertUpdating else UnlockBetweenChunks)
    case UnlockBetweenChunks => a == Give && to == LockAgain
    case LockAgain => a == Take && to == ResolveBeforeInsert
    case InsertUpdating => Fails(a, to) || (Inserts(a, true, flag) && to == SendEvents(n))
    case LockToInsertOnly => a == Take && to == InsertOnly
    case InsertOnly => Fails(a, to) || (Inserts(a, false, flag) && to == RaiseFlag(a.event.hasBody, n))
    case RaiseFlag(hasBody, at) => a == SetFlag(flag || hasBody) && to == SendEvents(at)
    case SendEvents(at) => Fails(a, to) || (a == Nothing && to == UnlockAndReturn(Done(at)))
    case UnlockAndReturn(result) => a == GiveAndReturn(result) && to == Idle
    case LockToReadScore => a == Take && to == ReadScore
    case ReadScore => Fails(a, to) || (a == Nothing && to == UnlockAfterScore)
    case UnlockAfterScore => a == Give && (to == LockToResolve || to == LockToReadScore)
    case LockToResolve => a == Take && to == ResolveChunk
    case ResolveChunk => Fails(a, to) || (Resolves(a) && to == FinishChunk(a.event.complete, n))
    case FinishChunk(complete, at) =>
      Fails(a, to) || (a == Nothing && to == if complete then UnlockAndReturn(Done(at)) else UnlockAfterChunk)
    case UnlockAfterChunk => a == Give && (to == LockToResolve || to == LockToReadScore)
  }

  function Apply(s: State, t: Thread, a: Action, to: Pc): State {
    var after := match a
      case Nothing => s
      case Start(kind) => s.(calls := s.calls[t := Call(kind, |s.history|)])
      case Take => s.(lock := Some(t))
      case Give => s.(lock := None)
      case GiveAndReturn(result) => s.(lock := None, returned := s.returned + [Return(t, CallOf(s, t), result)])
      case Write(event, flag) => s.(history := s.history + [event], authors := s.authors + [t], virtualNotUpdated := flag)
      case SetFlag(flag) => s.(virtualNotUpdated := flag);
    At(after, t, to)
  }

  /** Thread `t` makes one step; the mutex is taken only when it is free. */
  ghost predicate Does(s: State, t: Thread, a: Action, to: Pc, s': State) {
    && Local(PcOf(s, t), s.virtualNotUpdated, |s.history|, a, to)
    && (a == Take ==> s.lock.None?) && s' == Apply(s, t, a, to)
  }

  ghost predicate Step(s: State, t: Thread, s': State) {
    exists a, to :: Does(s, t, a, to, s')
  }

  // ---------- What the history says ----------

  /**
    A body went in without a virtual update and no complete resolve followed. A fresh instance counts
    as pending: an earlier process may have left unresolved bodies in the database.
  */
  ghost predicate Pending(history: seq<Event>) {
    history == [] ||
    match history[|history| - 1]
    case Inserted(false, true) => true
    case Resolved(true) => false
    case _ => Pending(history[..|history| - 1])
  }

  /** The last event that decides is a body without a virtual update or an incomplete resolve, or there is none. */
  ghost predicate NotUpdated(history: seq<Event>) {
    history == [] ||
    match history[|history| - 1]
    case Inserted(false, true) => true
    case Resolved(complete) => !complete
    case _ => NotUpdated(history[..|history| - 1])
  }

  lemma {:induction false} PendingIsNotUpdated(history: seq<Event>)
    requires Pending(history)
    ensures NotUpdated(history)
    decreases |history|
  {
    if history != [] {
      match history[|history| - 1]
      case Inserted(updateVirtual, hasBody) =>
        if updateVirtual || !hasBody { PendingIsNotUpdated(history[..|history| - 1]); }
      case Resolved(complete) =>
    }
  }

  lemma LogMeaning(history: seq<Event>, e: Event)
    ensures NotUpdated(history + [e]) ==
      match e { case Inserted(updateVirtual, hasBody) => NotUpdated(history) || (!updateVirtual && hasBody)
                case Resolved(complete) => !complete }
  {
    assert (history + [e])[..|history|] == history;
  }

  // ---------- The invariant ----------

  /** Exactly the owner of the lock is inside. */
  ghost predicate Exclusive(s: State) {
    forall t: Thread :: Holds(PcOf(s, t)) <==> s.lock == Some(t)
  }

  /** What the owner at `pc` knows of the flag. */
  ghost predicate OwnerKnows(pc: Pc, flag: bool, history: seq<Event>) {
    match pc
    case RaiseFlag(hasBody, _) => (flag || hasBody) == NotUpdated(history)
    case InsertUpdating => !flag && !NotUpdated(history)
    case FinishBeforeInsert(complete) => flag == !complete == NotUpdated(history)
    case _ => flag == NotUpdated(history)
  }

  /** The flag is what the history says, unless the owner is about to raise it. */
  ghost predicate FlagFollows(s: State) {
    if s.lock.Some? then OwnerKnows(PcOf(s, s.lock.value), s.virtualNotUpdated, s.history)
    else s.virtualNotUpdated == NotUpdated(s.history)
  }

  ghost predicate Inv(s: State) {
    Exclusive(s) && FlagFollows(s)
  }

  /** The owner inserted a body and has not raised the flag yet. */
  ghost predicate FlagDue(s: State) {
    s.lock.Some? && PcOf(s, s.lock.value).RaiseFlag? && PcOf(s, s.lock.value).hasBody
  }

  /** A new instance: the flag is up. */
  const START := State(None, true, map[], [], [], map[], [])

  /** The positions around an action: the lock is taken and given exactly where they say. */
  lemma LocalLock(pc: Pc, flag: bool, n: nat, a: Action, to: Pc)
    requires Local(pc, flag, n, a, to)
    ensures Holds(pc) <==> !a.Start? && a != Take
    ensures Holds(to) <==> !a.Start? && a != Give && !a.GiveAndReturn?
  {
  }

  /** A step moves one thread, and takes or gives the lock as its position says. */
  lemma StepMoves(s: State, t: Thread, s': State)
    requires Step(s, t, s')
    ensures forall u: Thread :: u != t ==> PcOf(s', u) == PcOf(s, u)
    ensures Holds(PcOf(s', t)) == Holds(PcOf(s, t)) ==> s'.lock == s.lock
    ensures Holds(PcOf(s', t)) && !Holds(PcOf(s, t)) ==> s.lock.None? && s'.lock == Some(t)
    ensures !Holds(PcOf(s', t)) && Holds(PcOf(s, t)) ==> s'.lock.None?
  {
    hide Local, Holds;
    var a, to :| Does(s, t, a, to, s');
    LocalLock(PcOf(s, t), s.virtualNotUpdated, |s.history|, a, to);
  }

  /** A thread outside changes neither the flag nor the history, and comes in knowing nothing special. */
  lemma OutsideStep(s: State, t: Thread, s': State)
    requires Step(s, t, s') && !Holds(PcOf(s, t))
    ensures s'.virtualNotUpdated == s.virtualNotUpdated && s'.history == s.history
    ensures Holds(PcOf(s', t)) && s.virtualNotUpdated == NotUpdated(s.history) ==>
      OwnerKnows(PcOf(s', t), s'.virtualNotUpdated, s'.history)
  {
    hide Local, Holds, OwnerKnows, NotUpdated;
    var a, to :| Does(s, t, a, to, s');
    LocalLock(PcOf(s, t), s.virtualNotUpdated, |s.history|, a, to);
    if a == Take && s.virtualNotUpdated == NotUpdated(s.history) {
      ComesInPlain(PcOf(s, t), s.virtualNotUpdated, |s.history|, a, to, s.history);
    }
  }

  lemma ComesInPlain(pc: Pc, flag: bool, n: nat, a: Action, to: Pc, history: seq<Event>)
    requires Local(pc, flag, n, a, to) && a == Take && flag == NotUpdated(history)
    ensures OwnerKnows(to, flag, history)
  {
  }

  /** What the owner knows after an action that keeps the lock, or before it gives the lock. */
  lemma LocalKnows(pc: Pc, flag: bool, n: nat, a: Action, to: Pc, history: seq<Event>)
    requires Local(pc, flag, n, a, to) && Holds(pc) && OwnerKnows(pc, flag, history)
    ensures a.Nothing? ==> OwnerKnows(to, flag, history)
    ensures a.Give? || a.GiveAndReturn? ==> flag == NotUpdated(history)
    ensures a.SetFlag? ==> OwnerKnows(to, a.flag, history)
    ensures a.Write? ==> OwnerKnows(to, a.flag, history + [a.event])
  {
    if a.Write? { LogMeaning(history, a.event); }
  }

  /** A step of the owner keeps what it knows. */
  lemma OwnerStep(s: State, t: Thread, s': State)
    requires Step(s, t, s') && Holds(PcOf(s, t)) && OwnerKnows(PcOf(s, t), s.virtualNotUpdated, s.history)
    ensures if Holds(PcOf(s', t)) then OwnerKnows(PcOf(s', t), s'.virtualNotUpdated, s'.history)
            else s'.virtualNotUpdated == NotUpdated(s'.history)
  {
    hide Local, Holds, OwnerKnows, NotUpdated;
    var a, to :| Does(s, t, a, to, s');
    LocalLock(PcOf(s, t), s.virtualNotUpdated, |s.history|, a, to);
    LocalKnows(PcOf(s, t), s.virtualNotUpdated, |s.history|, a, to, s.history);
  }

  lemma StepKeepsInv(s: State, t: Thread, s': State)
    requires Inv(s) && Step(s, t, s')
    ensures Inv(s')
  {
    hide Step, OwnerKnows, NotUpdated;
    StepMoves(s, t, s');
    if Holds(PcOf(s, t)) {
      OwnerStep(s, t, s');
    } else {
      OutsideStep(s, t, s');
    }
  }

  ghost predicate IsRun(run: seq<State>, threads: seq<Thread>) {
    && |run| == |threads| + 1 && run[0] == START
    && forall i :: 0 <= i < |threads| ==> Step(run[i], threads[i], run[i + 1])
  }

  lemma {:induction false} RunKeepsInv(run: seq<State>, threads: seq<Thread>, i: nat)
    requires IsRun(run, threads) && i < |run|
    ensures Inv(run[i])
    decreases i
  {
    if i > 0 {
      RunKeepsInv(run, threads, i - 1);
      StepKeepsInv(run[i - 1], threads[i - 1], run[i]);
    }
  }

  // ---------- Results over every run ----------

  /** A block is inserted with a virtual update only under the lock, with the flag down and nothing pending. */
  lemma InsertionsFindVirtualUpdated(run: seq<State>, threads: seq<Thread>, i: nat, hasBody: bool)
    requires IsRun(run, threads) && i < |threads|
    requires run[i + 1].history == run[i].history + [Inserted(true, hasBody)]
    ensures run[i].lock == Some(threads[i]) && !run[i].virtualNotUpdated && !Pending(run[i].history)
  {
    RunKeepsInv(run, threads, i);
    var s, t := run[i], threads[i];
    var a, to :| Does(s, t, a, to, run[i + 1]);
    InsertsUpdating(PcOf(s, t), s.virtualNotUpdated, |s.history|, a, to, hasBody) by {
      assert run[i + 1].history[|s.history|] == Inserted(true, hasBody);
    }
    if Pending(run[i].history) { PendingIsNotUpdated(run[i].history); }
  }

  lemma InsertsUpdating(pc: Pc, flag: bool, n: nat, a: Action, to: Pc, hasBody: bool)
    requires Local(pc, flag, n, a, to) && a.Write? && a.event == Inserted(true, hasBody)
    ensures pc == InsertUpdating
  {
  }

  /** Nothing is inserted or resolved except by the owner of the lock. */
  lemma OnlyTheOwnerActs(run: seq<State>, threads: seq<Thread>, i: nat)
    requires IsRun(run, threads) && i < |threads|
    requires run[i + 1].history != run[i].history || run[i + 1].virtualNotUpdated != run[i].virtualNotUpdated
    ensures run[i].lock == Some(threads[i])
  {
    RunKeepsInv(run, threads, i);
    if !Holds(PcOf(run[i], threads[i])) { OutsideStep(run[i], threads[i], run[i + 1]); }
  }

  /** The flag is down only if a complete resolve followed the last body inserted without a virtual update. */
  lemma FlagIsHonest(run: seq<State>, threads: seq<Thread>, i: nat)
    requires IsRun(run, threads) && i < |run|
    ensures run[i].lock.None? ==> (run[i].virtualNotUpdated <==> NotUpdated(run[i].history))
    ensures !run[i].virtualNotUpdated && Pending(run[i].history) ==> FlagDue(run[i])
    ensures run[i].lock.None? && !run[i].virtualNotUpdated ==> !Pending(run[i].history)
  {
    RunKeepsInv(run, threads, i);
    if Pending(run[i].history) { PendingIsNotUpdated(run[i].history); }
  }

  /** At most one thread is inside, and no thread returns with the lock. */
  lemma LockIsExclusive(run: seq<State>, threads: seq<Thread>, i: nat, t: Thread, u: Thread)
    requires IsRun(run, threads) && i < |run|
    ensures Holds(PcOf(run[i], t)) && Holds(PcOf(run[i], u)) ==> t == u
    ensures PcOf(run[i], t) == Idle ==> run[i].lock != Some(t)
  {
    RunKeepsInv(run, threads, i);
  }

  // ---------- What a call returns ----------

  /** The event that a call of thread `t` stands for: the thread made it, since the call began. */
  ghost predicate Stands(t: Thread, call: Call, at: nat, history: seq<Event>, authors: seq<Thread>) {
    && call.started <= at < |history| && at < |authors| && authors[at] == t
    && match call.kind
       case InsertAndUpdate => history[at].Inserted? && history[at].updateVirtual
       case InsertWithoutUpdate => history[at].Inserted? && !history[at].updateVirtual
       case ResolveAll => history[at] == Resolved(true)
  }

  /** What a thread at `pc` is doing belongs to its call. */
  ghost predicate Follows(t: Thread, pc: Pc, call: Call, history: seq<Event>, authors: seq<Thread>) {
    && call.started <= |history|
    && match pc
       case Idle => true
       case LockToInsert | CheckFlag | ResolveBeforeInsert | FinishBeforeInsert(_) | UnlockBetweenChunks | LockAgain
          | InsertUpdating => call.kind == InsertAndUpdate
       case LockToInsertOnly | InsertOnly => call.kind == InsertWithoutUpdate
       case RaiseFlag(hasBody, at) =>
         call.kind == InsertWithoutUpdate && Stands(t, call, at, history, authors) && history[at].hasBody == hasBody
       case SendEvents(at) => call.kind != ResolveAll && Stands(t, call, at, history, authors)
       case UnlockAndReturn(result) => result.Done? ==> Stands(t, call, result.at, history, authors)
       case FinishChunk(complete, at) => call.kind == ResolveAll && (complete ==> Stands(t, call, at, history, authors))
       case _ => call.kind == ResolveAll
  }

  ghost predicate CallsHonest(s: State) {
    && |s.authors| == |s.history|
    && (forall t: Thread :: Follows(t, PcOf(s, t), CallOf(s, t), s.history, s.authors))
    && (forall r :: r in s.returned && r.result.Done? ==> Stands(r.thread, r.call, r.result.at, s.history, s.authors))
  }

  lemma FollowsMore(t: Thread, pc: Pc, call: Call, s: State, s': State)
    requires |s.authors| == |s.history| && s.history <= s'.history && s.authors <= s'.authors
    ensures Follows(t, pc, call, s.history, s.authors) ==> Follows(t, pc, call, s'.history, s'.authors)
  {
  }

  lemma StandsMore(t: Thread, call: Call, at: nat, s: State, s': State)
    requires |s.authors| == |s.history| && s.history <= s'.history && s.authors <= s'.authors
    ensures Stands(t, call, at, s.history, s.authors) ==> Stands(t, call, at, s'.history, s'.authors)
  {
  }

  /** A step logs at most one event, and only its own thread begins. */
  lemma StepLogs(s: State, t: Thread, s': State)
    requires Step(s, t, s') && |s.authors| == |s.history|
    ensures s.history <= s'.history && s.authors <= s'.authors && |s'.authors| == |s'.history|
    ensures forall u: Thread :: u != t ==> CallOf(s', u) == CallOf(s, u)
  {
    hide Local;
  }

  /** What a thread does next belongs to its call as well. */
  lemma LocalFollows(t: Thread, pc: Pc, flag: bool, a: Action, to: Pc, call: Call, history: seq<Event>, authors: seq<Thread>)
    requires Local(pc, flag, |history|, a, to) && Follows(t, pc, call, history, authors) && |authors| == |history|
    ensures a.Start? ==> Follows(t, to, Call(a.kind, |history|), history, authors)
    ensures a.Write? ==> Follows(t, to, call, history + [a.event], authors + [t])
    ensures !a.Start? && !a.Write? ==> Follows(t, to, call, history, authors)
    ensures a.GiveAndReturn? && a.result.Done? ==> Stands(t, call, a.result.at, history, authors)
  {
  }

  lemma StepFollows(s: State, t: Thread, s': State)
    requires Step(s, t, s') && |s.authors| == |s.history| && Follows(t, PcOf(s, t), CallOf(s, t), s.history, s.authors)
    ensures Follows(t, PcOf(s', t), CallOf(s', t), s'.history, s'.authors)
  {
    hide Local, Follows, Stands;
    var a, to :| Does(s, t, a, to, s');
    LocalFollows(t, PcOf(s, t), s.virtualNotUpdated, a, to, CallOf(s, t), s.history, s.authors);
  }

  lemma StepReturns(s: State, t: Thread, s': State, r: Return)
    requires Step(s, t, s') && |s.authors| == |s.history| && Follows(t, PcOf(s, t), CallOf(s, t), s.history, s.authors)
    requires r in s'.returned && r !in s.returned && r.result.Done?
    ensures Stands(r.thread, r.call, r.result.at, s.history, s.authors)
  {
    hide Local, Follows, Stands;
    var a, to :| Does(s, t, a, to, s');
    LocalFollows(t, PcOf(s, t), s.virtualNotUpdated, a, to, CallOf(s, t), s.history, s.authors);
  }

  lemma StepKeepsCalls(s: State, t: Thread, s': State)
    requires CallsHonest(s) && Step(s, t, s')
    ensures CallsHonest(s')
  {
    hide Step, Follows, Stands;
    StepLogs(s, t, s');
    StepMoves(s, t, s');
    StepFollows(s, t, s');
    forall u: Thread ensures Follows(u, PcOf(s', u), CallOf(s', u), s'.history, s'.authors) {
      if u != t { FollowsMore(u, PcOf(s, u), CallOf(s, u), s, s'); }
    }
    forall r | r in s'.returned && r.result.Done? ensures Stands(r.thread, r.call, r.result.at, s'.history, s'.authors) {
      if r !in s.returned { StepReturns(s, t, s', r); }
      StandsMore(r.thread, r.call, r.result.at, s, s');
    }
  }

  /**
    A call that returned without an error did its work: the history has an event that its thread made
    since it began, an insertion of its own mode or a complete resolve.
  */
  lemma {:induction false} ReturnsHonestly(run: seq<State>, threads: seq<Thread>, i: nat)
    requires IsRun(run, threads) && i < |run|
    ensures CallsHonest(run[i])
    ensures forall r :: r in run[i].returned && r.result.Done? ==>
      && r.call.started <= r.result.at < |run[i].history| && r.result.at < |run[i].authors|
      && run[i].authors[r.result.at] == r.thread
      && var e := run[i].history[r.result.at];
         if r.call.kind == ResolveAll then e == Resolved(true)
         else e.Inserted? && (e.updateVirtual <==> r.call.kind == InsertAndUpdate)
    decreases i
  {
    if i > 0 {
      ReturnsHonestly(run, threads, i - 1);
      StepKeepsCalls(run[i - 1], threads[i - 1], run[i]);
    }
  }

  // ---------- Progress ----------

  /** How many more steps the owner makes at most before it unlocks. */
  function Rank(pc: Pc): nat {
    match pc
    case CheckFlag => 6
    case ResolveBeforeInsert => 5
    case FinishBeforeInsert(_) => 4
    case InsertUpdating => 3
    case InsertOnly => 4
    case RaiseFlag(_, _) => 3
    case SendEvents(_) => 2
    case ReadScore => 2
    case ResolveChunk => 3
    case FinishChunk(_, _) => 2
    case _ => 1
  }

  lemma LocalAdvances(pc: Pc, flag: bool, n: nat, a: Action, to: Pc)
    requires Local(pc, flag, n, a, to) && Holds(pc) && Holds(to)
    ensures Rank(to) < Rank(pc)
  {
  }

  /** Every step of the owner unlocks or comes closer to it. */
  lemma OwnerAdvances(s: State, t: Thread, s': State)
    requires Step(s, t, s') && Holds(PcOf(s, t))
    ensures !Holds(PcOf(s', t)) || Rank(PcOf(s', t)) < Rank(PcOf(s, t))
  {
    hide Local, Holds, Rank;
    var a, to :| Does(s, t, a, to, s');
    if Holds(to) { LocalAdvances(PcOf(s, t), s.virtualNotUpdated, |s.history|, a, to); }
  }

  /** The owner can always move. */
  lemma OwnerCanMove(s: State, t: Thread)
    requires Holds(PcOf(s, t))
    ensures exists s' :: Step(s, t, s')
  {
    var pc := PcOf(s, t);
    var a := match pc
      case RaiseFlag(hasBody, _) => SetFlag(s.virtualNotUpdated || hasBody)
      case UnlockBetweenChunks | UnlockAfterScore | UnlockAfterChunk => Give
      case UnlockAndReturn(result) => GiveAndReturn(result)
      case _ => Nothing;
    var to := match pc
      case CheckFlag => (if s.virtualNotUpdated then ResolveBeforeInsert else InsertUpdating)
      case RaiseFlag(_, at) => SendEvents(at)
      case UnlockBetweenChunks => LockAgain
      case UnlockAndReturn(_) => Idle
      case UnlockAfterScore | UnlockAfterChunk => LockToResolve
      case _ => UnlockAndReturn(Failed);
    assert Does(s, t, a, to, Apply(s, t, a, to));
    assert Step(s, t, Apply(s, t, a, to));
  }

  /** Steps of thread `t` in a part of a run. */
  ghost function StepsOf(threads: seq<Thread>, t: Thread, from: int, until: int): nat
    requires 0 <= from <= until <= |threads|
    decreases until - from
  {
    if from == until then 0 else (if threads[from] == t then 1 else 0) + StepsOf(threads, t, from + 1, until)
  }

  /** On every path the lock is released: its owner makes no more than six steps while it holds it. */
  lemma {:induction false} LockIsReleased(run: seq<State>, threads: seq<Thread>, t: Thread, from: int, until: int)
    requires IsRun(run, threads) && 0 <= from <= until <= |threads|
    requires forall i :: from <= i <= until ==> run[i].lock == Some(t)
    ensures StepsOf(threads, t, from, until) + Rank(PcOf(run[until], t)) <= Rank(PcOf(run[from], t)) <= 6
    decreases until - from
  {
    if from < until {
      hide Step;
      RunKeepsInv(run, threads, from);
      RunKeepsInv(run, threads, from + 1);
      LockIsReleased(run, threads, t, from + 1, until);
      StepMoves(run[from], threads[from], run[from + 1]);
      if threads[from] == t { OwnerAdvances(run[from], t, run[from + 1]); }
    }
  }

  // ---------- A call that no other thread interrupts ----------

  /** Steps of one thread. */
  ghost predicate Alone(run: seq<State>, t: Thread, s: State) {
    run != [] && run[0] == s && forall i :: 0 < i < |run| ==> Step(run[i - 1], t, run[i])
  }

  lemma AloneMore(run: seq<State>, t: Thread, s: State, a: Action, to: Pc)
    requires Alone(run, t, s) && Does(run[|run| - 1], t, a, to, Apply(run[|run| - 1], t, a, to))
    ensures Alone(run + [Apply(run[|run| - 1], t, a, to)], t, s)
  {
    hide Local, Apply;
  }

  /** Where a thread is that alone went on from `s`, with what it changed. */
  datatype View = View(pc: Pc, lock: Option<Thread>, flag: bool, call: Call, history: seq<Event>)

  ghost predicate Sees(run: seq<State>, t: Thread, s: State, v: View) {
    && Alone(run, t, s)
    && var now := run[|run| - 1];
    && v == View(PcOf(now, t), now.lock, now.virtualNotUpdated, CallOf(now, t), now.history)
    && now.returned == s.returned && forall u: Thread :: u != t ==> PcOf(now, u) == PcOf(s, u)
  }

  function ViewAfter(v: View, t: Thread, a: Action, to: Pc): View {
    match a
    case Start(kind) => v.(pc := to, call := Call(kind, |v.history|))
    case Take => v.(pc := to, lock := Some(t))
    case Give | GiveAndReturn(_) => v.(pc := to, lock := None)
    case Write(event, flag) => v.(pc := to, history := v.history + [event], flag := flag)
    case SetFlag(flag) => v.(pc := to, flag := flag)
    case Nothing => v.(pc := to)
  }

  lemma Goes(run: seq<State>, t: Thread, s: State, v: View, a: Action, to: Pc) returns (more: seq<State>, w: View)
    requires Sees(run, t, s, v) && Local(v.pc, v.flag, |v.history|, a, to) && (a == Take ==> v.lock.None?) && !a.GiveAndReturn?
    ensures w == ViewAfter(v, t, a, to) && Sees(more, t, s, w)
  {
    hide Local;
    w := ViewAfter(v, t, a, to);
    AloneMore(run, t, s, a, to);
    more := run + [Apply(run[|run| - 1], t, a, to)];
  }

  /** A call of a thread that nobody interrupts returns without an error, after exactly these events. */
  ghost predicate Completes(run: seq<State>, s: State, t: Thread, kind: Kind, events: seq<Event>, flag: bool) {
    && Alone(run, t, s)
    && var end := run[|run| - 1];
    && end.lock.None? && PcOf(end, t) == Idle && (forall u: Thread :: u != t ==> PcOf(end, u) == PcOf(s, u))
    && end.history == s.history + events && end.virtualNotUpdated == flag && events != []
    && end.returned == s.returned + [Return(t, Call(kind, |s.history|), Done(|s.history| + |events| - 1))]
  }

  /** The last steps of a call. */
  lemma Returns(run: seq<State>, t: Thread, s: State, v: View, events: seq<Event>) returns (more: seq<State>)
    requires Sees(run, t, s, v) && v.history == s.history + events && events != [] && v.call.started == |s.history|
    requires v.pc == UnlockAndReturn(Done(|v.history| - 1))
    ensures Completes(more, s, t, v.call.kind, events, v.flag)
  {
    var a := GiveAndReturn(Done(|v.history| - 1));
    AloneMore(run, t, s, a, Idle);
    more := run + [Apply(run[|run| - 1], t, a, Idle)];
  }

  lemma Begins(s: State, t: Thread) returns (run: seq<State>, v: View)
    requires s.lock.None? && PcOf(s, t) == Idle
    ensures Sees(run, t, s, v) && v == View(Idle, None, s.virtualNotUpdated, CallOf(s, t), s.history)
  {
    run, v := [s], View(Idle, None, s.virtualNotUpdated, CallOf(s, t), s.history);
  }

  lemma UpdatingPath(flag: bool, n: nat, hasBody: bool)
    ensures Local(Idle, flag, n, Start(InsertAndUpdate), LockToInsert) && Local(LockToInsert, flag, n, Take, CheckFlag)
    ensures Local(CheckFlag, true, n, Nothing, ResolveBeforeInsert) && Local(CheckFlag, false, n, Nothing, InsertUpdating)
    ensures Local(ResolveBeforeInsert, true, n, Write(Resolved(true), false), FinishBeforeInsert(true))
    ensures Local(FinishBeforeInsert(true), false, n, Nothing, InsertUpdating)
    ensures Local(InsertUpdating, false, n, Write(Inserted(true, hasBody), false), SendEvents(n))
  {
  }

  lemma PlainPath(flag: bool, n: nat, hasBody: bool)
    ensures Local(Idle, flag, n, Start(InsertWithoutUpdate), LockToInsertOnly) && Local(LockToInsertOnly, flag, n, Take, InsertOnly)
    ensures Local(InsertOnly, flag, n, Write(Inserted(false, hasBody), flag), RaiseFlag(hasBody, n))
    ensures Local(RaiseFlag(hasBody, n), flag, n + 1, SetFlag(flag || hasBody), SendEvents(n))
  {
  }

  lemma ResolvePath(flag: bool, n: nat)
    ensures Local(Idle, flag, n, Start(ResolveAll), LockToReadScore) && Local(LockToReadScore, flag, n, Take, ReadScore)
    ensures Local(ReadScore, flag, n, Nothing, UnlockAfterScore) && Local(UnlockAfterScore, flag, n, Give, LockToResolve)
    ensures Local(LockToResolve, flag, n, Take, ResolveChunk)
    ensures Local(ResolveChunk, flag, n, Write(Resolved(true), false), FinishChunk(true, n))
  {
  }

  lemma DonePath(flag: bool, n: nat, at: nat)
    ensures Local(SendEvents(at), flag, n, Nothing, UnlockAndReturn(Done(at)))
    ensures Local(FinishChunk(true, at), flag, n, Nothing, UnlockAndReturn(Done(at)))
  {
  }

  /** An insertion with a virtual update resolves the virtual first if it must, and then inserts. */
  lemma InsertCompletes(s: State, t: Thread, hasBody: bool) returns (run: seq<State>)
    requires s.lock.None? && PcOf(s, t) == Idle
    ensures Completes(run, s, t, InsertAndUpdate,
                      (if s.virtualNotUpdated then [Resolved(true)] else []) + [Inserted(true, hasBody)], false)
  {
    hide Sees, Completes, Local;
    var v;
    UpdatingPath(s.virtualNotUpdated, |s.history|, hasBody);
    UpdatingPath(false, |s.history| + 1, hasBody);
    var first := if s.virtualNotUpdated then [Resolved(true)] else [];
    run, v := Begins(s, t);
    run, v := Goes(run, t, s, v, Start(InsertAndUpdate), LockToInsert);
    run, v := Goes(run, t, s, v, Take, CheckFlag);
    if s.virtualNotUpdated {
      run, v := Goes(run, t, s, v, Nothing, ResolveBeforeInsert);
      run, v := Goes(run, t, s, v, Write(Resolved(true), false), FinishBeforeInsert(true));
    }
    run, v := Goes(run, t, s, v, Nothing, InsertUpdating);
    assert v.history == s.history + first;
    run, v := Goes(run, t, s, v, Write(Inserted(true, hasBody), false), SendEvents(|v.history|));
    DonePath(false, |v.history|, |v.history| - 1);
    run, v := Goes(run, t, s, v, Nothing, UnlockAndReturn(Done(|v.history| - 1)));
    assert v.history == s.history + (first + [Inserted(true, hasBody)]);
    run := Returns(run, t, s, v, first + [Inserted(true, hasBody)]);
  }

  /** An insertion without one raises the flag exactly for a body. */
  lemma InsertOnlyCompletes(s: State, t: Thread, hasBody: bool) returns (run: seq<State>)
    requires s.lock.None? && PcOf(s, t) == Idle
    ensures Completes(run, s, t, InsertWithoutUpdate, [Inserted(false, hasBody)], s.virtualNotUpdated || hasBody)
  {
    hide Sees, Completes, Local;
    var v;
    var at := |s.history|;
    PlainPath(s.virtualNotUpdated, at, hasBody);
    DonePath(s.virtualNotUpdated || hasBody, at + 1, at);
    run, v := Begins(s, t);
    run, v := Goes(run, t, s, v, Start(InsertWithoutUpdate), LockToInsertOnly);
    run, v := Goes(run, t, s, v, Take, InsertOnly);
    run, v := Goes(run, t, s, v, Write(Inserted(false, hasBody), s.virtualNotUpdated), RaiseFlag(hasBody, at));
    run, v := Goes(run, t, s, v, SetFlag(s.virtualNotUpdated || hasBody), SendEvents(at));
    run, v := Goes(run, t, s, v, Nothing, UnlockAndReturn(Done(at)));
    run := Returns(run, t, s, v, [Inserted(false, hasBody)]);
  }

  /** A resolve that is complete at once lowers the flag. */
  lemma ResolveCompletes(s: State, t: Thread) returns (run: seq<State>)
    requires s.lock.None? && PcOf(s, t) == Idle
    ensures Completes(run, s, t, ResolveAll, [Resolved(true)], false)
  {
    hide Sees, Completes, Local;
    var v;
    var at := |s.history|;
    ResolvePath(s.virtualNotUpdated, at);
    DonePath(false, at + 1, at);
    run, v := Begins(s, t);
    run, v := Goes(run, t, s, v, Start(ResolveAll), LockToReadScore);
    run, v := Goes(run, t, s, v, Take, ReadScore);
    run, v := Goes(run, t, s, v, Nothing, UnlockAfterScore);
    run, v := Goes(run, t, s, v, Give, LockToResolve);
    run, v := Goes(run, t, s, v, Take, ResolveChunk);
    run, v := Goes(run, t, s, v, Write(Resolved(true), false), FinishChunk(true, at));
    run, v := Goes(run, t, s, v, Nothing, UnlockAndReturn(Done(at)));
    run := Returns(run, t, s, v, [Resolved(true)]);
  }
}
