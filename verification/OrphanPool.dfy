/**
  The orphan pool (app/protocol/flowcontext/orphans.go): blocks that wait for missing parents, the
  worklist that hands them to consensus, and the search for the roots of what is missing.

  Consensus is an abstract table of block statuses. Other flows may insert blocks while the worklist
  runs; `others` records which ones.
*/
module OrphanPool {
  import opened Basics

  type Hash(==, 0, !new)

  datatype Block = Block(hash: Hash, parents: seq<Hash>)

  datatype Status = Invalid | UTXOValid | UTXOPendingVerification | DisqualifiedFromChain | HeaderOnly

  type Statuses = map<Hash, Status>
  type Pool = map<Hash, Block>

  const MAX_ORPHANS: nat := 600

  /** Consensus has the block and not only its header: what the worklist asks of a parent. */
  predicate Known(status: Statuses, h: Hash) {
    h in status && status[h] != HeaderOnly
  }

  /** Consensus accepted the block's body. */
  predicate Accepted(status: Statuses, h: Hash) {
    Known(status, h) && status[h] != Invalid
  }

  /** A block handed to consensus, with the statuses at that moment and the outcome. */
  datatype Handed = Handed(block: Block, status: Statuses, outcome: Outcome)

  datatype Header = Header(powHash: string, version: nat)

  datatype Outcome = Inserted | RuleError | OtherError

  /** What `GetBlockInfo` answers; the status of a block that does not exist says nothing. */
  datatype BlockInfo = BlockInfo(found: bool, status: Status)

  class Consensus {
    var status: Statuses
    /** What `GetBlock` finds. */
    var headers: map<Hash, Header>
    /** Blocks that other flows inserted. */
    ghost var others: set<Hash>
    ghost var handed: seq<Handed>
    /** How many questions met a database error. */
    ghost var failures: nat

    constructor (s: Statuses, h: map<Hash, Header>)
      ensures status == s && headers == h && others == {} && handed == [] && failures == 0
    {
      status, headers, others, handed, failures := s, h, {}, [], 0;
    }

    /** Other flows insert any number of blocks; no body is lost. */
    method Interleave()
      modifies this`status, this`others
      ensures Grew(old(status), old(others), status, others)
    {
      var moves: seq<(Hash, Status)> := *;
      for i := 0 to |moves|
        invariant Grew(old(status), old(others), status, others)
      {
        var (h, s) := moves[i];
        if !Known(status, h) {
          status := status[h := s];
          others := others + {h};
        }
      }
    }

    /** `GetBlockInfo`; `None` is a database error. */
    method GetBlockInfo(h: Hash) returns (info: Option<BlockInfo>)
      modifies this`status, this`others, this`failures
      ensures Grew(old(status), old(others), status, others)
      ensures info.Some? ==> (info.value.found <==> h in status) && (h in status ==> info.value.status == status[h])
      ensures failures == old(failures) + if info.None? then 1 else 0
    {
      Interleave();
      var fails: bool := *;
      if fails {
        failures := failures + 1;
        return None;
      }
      info := Some(if h in status then BlockInfo(true, status[h]) else BlockInfo(false, Invalid));
    }

    /** `GetBlock`: `None` is a database error. Other flows may store blocks first; none is replaced. */
    method GetBlock(h: Hash) returns (answer: Option<Option<Header>>)
      modifies this`headers, this`failures
      ensures Stored(old(headers), headers)
      ensures answer.Some? ==> answer.value == Find(headers, h)
      ensures failures == old(failures) + if answer.None? then 1 else 0
    {
      var moves: seq<(Hash, Header)> := *;
      for i := 0 to |moves|
        invariant Stored(old(headers), headers) && failures == old(failures)
      {
        var (k, header) := moves[i];
        if k !in headers { headers := headers[k := header]; }
      }
      var fails: bool := *;
      if fails { failures := failures + 1; }
      answer := if fails then None else Some(Find(headers, h));
    }

    /** `ValidateAndInsertBlock`: a rejected block may be recorded as invalid. */
    method Insert(block: Block) returns (outcome: Outcome)
      modifies this`status, this`others, this`handed
      ensures InsertedBlock(block, old(status), old(others), old(handed), outcome, status, others, handed)
    {
      Interleave();
      outcome := *;
      handed := handed + [Handed(block, status, outcome)];
      var recorded: Status := *;
      if outcome.Inserted? {
        status := status[block.hash := if recorded.HeaderOnly? || recorded.Invalid? then UTXOValid else recorded];
      } else if recorded.Invalid? && !Known(status, block.hash) {
        status := status[block.hash := Invalid];
      }
    }
  }

  /** The effect of an insertion: one more block handed over, and accepted if so reported. */
  ghost predicate InsertedBlock(block: Block, status: Statuses, others: set<Hash>, handed: seq<Handed>,
                                outcome: Outcome, later: Statuses, laterOthers: set<Hash>, laterHanded: seq<Handed>)
  {
    && |laterHanded| == |handed| + 1 && laterHanded[..|handed|] == handed
    && var e := laterHanded[|handed|];
    && e.block == block && e.outcome == outcome && Lasts(status, e.status)
    && Later(status, others, later, laterOthers)
    && if outcome.Inserted?
       then Accepted(later, block.hash) && Grew(status, others + {block.hash}, later, laterOthers + {block.hash})
       else Grew(status, others, later, laterOthers)
  }

  /** No body is lost. */
  ghost predicate Lasts(status: Statuses, later: Statuses) {
    forall h :: Known(status, h) ==> Known(later, h)
  }

  /** No body is lost, and what other flows inserted meanwhile was not known before. */
  ghost predicate Later(status: Statuses, others: set<Hash>, later: Statuses, laterOthers: set<Hash>) {
    && Lasts(status, later) && others <= laterOthers
    && (forall h :: h in laterOthers && h !in others ==> !Known(status, h))
  }

  /** Besides, bodies are accepted only for the blocks of `laterOthers`. */
  ghost predicate Grew(status: Statuses, others: set<Hash>, later: Statuses, laterOthers: set<Hash>) {
    && Later(status, others, later, laterOthers)
    && (forall h :: Accepted(later, h) ==> Accepted(status, h) || h in laterOthers)
  }

  // ---------- The worklist ----------

  /** The statuses at the moment a pooled block was last considered. */
  type Seen = map<Hash, Statuses>

  /**
    When the block was last considered a parent was missing, and that parent still has no accepted
    body, unless another flow inserted it since.
  */
  ghost predicate Blocked(h: Hash, b: Block, status: Statuses, others: set<Hash>, seen: Seen) {
    h in seen && exists p :: p in b.parents && (p !in seen[h] || seen[h][p] == HeaderOnly) && (Accepted(status, p) ==> p in others)
  }

  ghost predicate ChildOf(b: Block, mine: set<Hash>) {
    exists p :: p in b.parents && p in mine
  }

  /** Every pooled child of the processed blocks is queued or blocked. */
  ghost predicate Settled(pool: Pool, queue: seq<Hash>, mine: set<Hash>, status: Statuses, others: set<Hash>, seen: Seen) {
    forall h :: h in pool && ChildOf(pool[h], mine) && h !in queue ==> Blocked(h, pool[h], status, others, seen)
  }

  ghost predicate ValidQueue(queue: seq<Hash>, pool: Pool) {
    Distinct(queue) && forall h :: h in queue ==> h in pool
  }

  ghost predicate ParentsKnown(b: Block, status: Statuses) {
    forall p :: p in b.parents ==> p in status && status[p] != HeaderOnly
  }

  lemma SettledGrew(pool: Pool, queue: seq<Hash>, mine: set<Hash>, status: Statuses, others: set<Hash>,
                    later: Statuses, laterOthers: set<Hash>, seen: Seen)
    requires Settled(pool, queue, mine, status, others, seen) && Grew(status, others, later, laterOthers)
    ensures Settled(pool, queue, mine, later, laterOthers, seen)
  {
    forall h | h in pool && ChildOf(pool[h], mine) && h !in queue ensures Blocked(h, pool[h], later, laterOthers, seen) {
      var p :| p in pool[h].parents && !Known(seen[h], p) && (Accepted(status, p) ==> p in others);
    }
  }

  ghost function HandedHashes(log: seq<Handed>): set<Hash> {
    set e | e in log :: e.block.hash
  }

  /** The blocks of a log that consensus accepted, in order. */
  ghost function AcceptedBlocks(log: seq<Handed>): seq<Block> {
    if log == [] then []
    else AcceptedBlocks(log[..|log| - 1]) + if log[|log| - 1].outcome.Inserted? then [log[|log| - 1].block] else []
  }

  ghost function Hashes(blocks: seq<Block>): set<Hash> {
    set b | b in blocks :: b.hash
  }

  ghost predicate ValidPool(pool: Pool) {
    |pool| <= 600 && forall h :: h in pool ==> pool[h].hash == h
  }

  /** The blocks of the log were pooled, left the pool, and had every parent known when handed over. */
  ghost predicate ValidLog(log: seq<Handed>, before: Pool, pool: Pool) {
    && (forall e :: e in log ==> e.block.hash in before && before[e.block.hash] == e.block && ParentsKnown(e.block, e.status))
    && pool == before - HandedHashes(log)
  }

  /** The state of the worklist between two blocks. */
  ghost predicate Working(before: Pool, pool: Pool, queue: seq<Hash>, log: seq<Handed>, root: Hash, status: Statuses,
                          others: set<Hash>, seen: Seen) {
    && ValidPool(before) && ValidQueue(queue, pool) && ValidLog(log, before, pool)
    && Settled(pool, queue, {root} + Hashes(AcceptedBlocks(log)), status, others, seen)
  }

  lemma WorkingGrew(before: Pool, pool: Pool, queue: seq<Hash>, log: seq<Handed>, root: Hash,
                    status: Statuses, others: set<Hash>, later: Statuses, laterOthers: set<Hash>, seen: Seen)
    requires Working(before, pool, queue, log, root, status, others, seen) && Grew(status, others, later, laterOthers)
    ensures Working(before, pool, queue, log, root, later, laterOthers, seen)
  {
    SettledGrew(pool, queue, {root} + Hashes(AcceptedBlocks(log)), status, others, later, laterOthers, seen);
  }

  lemma QueueTail(queue: seq<Hash>, pool: Pool)
    requires ValidQueue(queue, pool) && queue != []
    ensures ValidQueue(queue[1..], pool - {queue[0]}) && ValidQueue(queue[1..], pool)
    ensures forall h :: h in queue ==> h == queue[0] || h in queue[1..]
  {
    forall h | h in queue[1..] ensures h in queue && h != queue[0] {
      var i :| 0 <= i < |queue[1..]| && queue[1..][i] == h;
      assert queue[i + 1] == h;
    }
    forall h | h in queue ensures h == queue[0] || h in queue[1..] {
      var i :| 0 <= i < |queue| && queue[i] == h;
      if i > 0 { assert queue[1..][i - 1] == h; }
    }
  }

  /** A block with a missing parent leaves the queue and stays in the pool. */
  lemma SkipStep(before: Pool, pool: Pool, queue: seq<Hash>, log: seq<Handed>, root: Hash, status: Statuses,
                 others: set<Hash>, seen: Seen)
    requires Working(before, pool, queue, log, root, status, others, seen) && queue != []
    requires exists p :: p in pool[queue[0]].parents && !Known(status, p)
    ensures Working(before, pool, queue[1..], log, root, status, others, seen[queue[0] := status])
  {
    QueueTail(queue, pool);
    var x, after := queue[0], seen[queue[0] := status];
    var mine := {root} + Hashes(AcceptedBlocks(log));
    forall h | h in pool && ChildOf(pool[h], mine) && h !in queue[1..] ensures Blocked(h, pool[h], status, others, after) {
      if h == x {
        var p :| p in pool[x].parents && !Known(status, p);
        assert !Known(after[x], p);
      } else {
        assert Blocked(h, pool[h], status, others, seen);
      }
    }
  }

  lemma LogMore(log: seq<Handed>, e: Handed, before: Pool, pool: Pool)
    requires ValidLog(log, before, pool)
    requires e.block.hash in pool && before[e.block.hash] == e.block && ParentsKnown(e.block, e.status)
    ensures ValidLog(log + [e], before, pool - {e.block.hash})
  {
    assert HandedHashes(log + [e]) == HandedHashes(log) + {e.block.hash};
  }

  lemma AcceptedMore(log: seq<Handed>, e: Handed)
    ensures AcceptedBlocks(log + [e]) == AcceptedBlocks(log) + if e.outcome.Inserted? then [e.block] else []
    ensures Hashes(AcceptedBlocks(log + [e])) == Hashes(AcceptedBlocks(log)) + if e.outcome.Inserted? then {e.block.hash} else {}
  {
    assert (log + [e])[..|log|] == log;
  }

  /** A rejected block leaves the queue and the pool. */
  lemma RejectStep(before: Pool, pool: Pool, queue: seq<Hash>, log: seq<Handed>, root: Hash, status: Statuses,
                   others: set<Hash>, seen: Seen, e: Handed)
    requires Working(before, pool, queue, log, root, status, others, seen) && queue != []
    requires e.block == pool[queue[0]] && ParentsKnown(e.block, e.status) && !e.outcome.Inserted?
    ensures Working(before, pool - {queue[0]}, queue[1..], log + [e], root, status, others, seen)
  {
    QueueTail(queue, pool);
    LogMore(log, e, before, pool);
    AcceptedMore(log, e);
  }

  /** An inserted block leaves the queue and the pool, and its pooled children are queued. */
  lemma InsertStep(before: Pool, pool: Pool, queue: seq<Hash>, log: seq<Handed>, root: Hash, status: Statuses,
                   others: set<Hash>, seen: Seen, e: Handed, later: Statuses, laterOthers: set<Hash>, more: seq<Hash>)
    requires Working(before, pool, queue, log, root, status, others, seen) && queue != []
    requires e.block == pool[queue[0]] && ParentsKnown(e.block, e.status) && e.outcome.Inserted?
    requires Grew(status, others + {queue[0]}, later, laterOthers + {queue[0]}) && others <= laterOthers
    requires ValidQueue(more, pool - {queue[0]})
    requires forall h :: h in pool - {queue[0]} && (h in queue[1..] || queue[0] in pool[h].parents) ==> h in more
    ensures Working(before, pool - {queue[0]}, more, log + [e], root, later, laterOthers, seen)
  {
    var x := queue[0];
    var mine := {root} + Hashes(AcceptedBlocks(log));
    QueueTail(queue, pool);
    LogMore(log, e, before, pool);
    AcceptedMore(log, e);
    assert e.block.hash == x;
    forall h | h in pool - {x} && ChildOf(pool[h], mine + {x}) && h !in more
      ensures Blocked(h, pool[h], later, laterOthers, seen)
    {
      assert x !in pool[h].parents && ChildOf(pool[h], mine) && h !in queue;
      var p :| p in pool[h].parents && !Known(seen[h], p) && (Accepted(status, p) ==> p in others);
    }
    assert {root} + Hashes(AcceptedBlocks(log + [e])) == mine + {x};
  }

  lemma PutSize(pool: Pool, h: Hash, b: Block)
    ensures |pool[h := b]| <= |pool| + 1
  {
    assert pool[h := b].Keys == pool.Keys + {h};
  }

  lemma DropSize(pool: Pool, h: Hash)
    requires h in pool
    ensures |pool - {h}| == |pool| - 1
  {
    assert pool.Keys == (pool - {h}).Keys + {h};
  }

  // ---------- The search for missing roots ----------

  const POW_INTEGRITY_MIN_VERSION: nat := 1

  datatype Roots = NotOrphan | GetBlockError | Roots(roots: seq<Hash>)

  ghost predicate IsPath(pool: Pool, path: seq<Hash>) {
    path != [] && forall i :: 0 <= i < |path| - 1 ==> path[i] in pool && path[i + 1] in pool[path[i]].parents
  }

  /** `to` is reached from `from` by parent steps through pooled orphans. */
  ghost predicate Reachable(pool: Pool, from: Hash, to: Hash) {
    exists path :: IsPath(pool, path) && path[0] == from && path[|path| - 1] == to
  }

  function Find(headers: map<Hash, Header>, h: Hash): Option<Header> {
    if h in headers then Some(headers[h]) else None
  }

  /** No stored block is lost or replaced. */
  ghost predicate Stored(headers: map<Hash, Header>, later: map<Hash, Header>) {
    forall h :: h in headers ==> h in later && later[h] == headers[h]
  }

  /** What consensus answered when the search asked for a hash. */
  type Answers = map<Hash, Option<Header>>

  /** Found in consensus, without a PoW hash, at a version that should carry one. */
  predicate Skips(answer: Option<Header>) {
    answer.Some? && answer.value.powHash == "" && answer.value.version >= POW_INTEGRITY_MIN_VERSION
  }

  /** Every answer was true at some moment between the two tables. */
  ghost predicate Answered(answers: Answers, headers: map<Hash, Header>, later: map<Hash, Header>) {
    forall h :: h in answers ==>
      && (h in headers ==> answers[h] == Some(headers[h]))
      && (answers[h].Some? ==> h in later && later[h] == answers[h].value)
  }

  lemma ReachStep(pool: Pool, from: Hash, h: Hash, p: Hash)
    requires Reachable(pool, from, h) && h in pool && p in pool[h].parents
    ensures Reachable(pool, from, p)
  {
    var path :| IsPath(pool, path) && path[0] == from && path[|path| - 1] == h;
    assert IsPath(pool, path + [p]);
  }

  ghost predicate Closed(pool: Pool, inside: set<Hash>) {
    forall h, p :: h in inside && h in pool && p in pool[h].parents ==> p in inside
  }

  lemma {:induction false} PathInside(pool: Pool, path: seq<Hash>, inside: set<Hash>)
    requires IsPath(pool, path) && path[0] in inside && Closed(pool, inside)
    ensures path[|path| - 1] in inside
    decreases |path|
  {
    if |path| > 1 {
      PathInside(pool, path[..|path| - 1], inside);
      assert path[|path| - 2] in inside;
    }
  }

  /** The hashes the search can ever meet. */
  ghost function Mentioned(pool: Pool, orphan: Hash): set<Hash> {
    {orphan} + set h, p | h in pool && p in pool[h].parents :: p
  }

  /** The queue holds what is added and not done; what is done is expanded, or reported unless skipped. */
  ghost predicate Frontier(queue: seq<Hash>, added: set<Hash>, done: set<Hash>) {
    && Distinct(queue)
    && (forall h :: h in added <==> h in done || h in queue)
    && (forall h :: h in queue ==> h !in done)
  }

  ghost predicate Expanded(pool: Pool, added: set<Hash>, done: set<Hash>) {
    forall h, p :: h in done && h in pool && p in pool[h].parents ==> p in added
  }

  /** Consensus was asked for every visited hash that is not pooled, and for no other. */
  ghost predicate Collected(pool: Pool, answers: Answers, roots: seq<Hash>, done: set<Hash>) {
    && Distinct(roots) && answers.Keys == done - pool.Keys
    && forall h :: h in roots <==> h in answers && !Skips(answers[h])
  }

  ghost predicate Reached(pool: Pool, orphan: Hash, added: set<Hash>) {
    orphan in added && forall h :: h in added ==> h in Mentioned(pool, orphan) && Reachable(pool, orphan, h)
  }

  ghost predicate Searching(pool: Pool, answers: Answers, orphan: Hash, queue: seq<Hash>, added: set<Hash>,
                            roots: seq<Hash>, done: set<Hash>) {
    && Frontier(queue, added, done) && Expanded(pool, added, done)
    && Collected(pool, answers, roots, done) && Reached(pool, orphan, added)
  }

  lemma SearchStart(pool: Pool, answers: Answers, orphan: Hash)
    requires answers == map[]
    ensures Searching(pool, answers, orphan, [orphan], {orphan}, [], {})
  {
    assert IsPath(pool, [orphan]);
  }

  lemma FrontierTail(queue: seq<Hash>, added: set<Hash>, done: set<Hash>)
    requires Frontier(queue, added, done) && queue != []
    ensures Frontier(queue[1..], added, done + {queue[0]})
  {
    forall h ensures h in queue <==> h == queue[0] || h in queue[1..] {
      if h in queue {
        var i :| 0 <= i < |queue| && queue[i] == h;
        if i > 0 { assert queue[1..][i - 1] == h; }
      }
    }
    assert queue[0] !in queue[1..];
  }

  /** A hash that is not pooled is reported unless it is skipped. */
  lemma RootStep(pool: Pool, answers: Answers, orphan: Hash, queue: seq<Hash>, added: set<Hash>,
                 roots: seq<Hash>, done: set<Hash>, answer: Option<Header>)
    requires Searching(pool, answers, orphan, queue, added, roots, done) && queue != [] && queue[0] !in pool
    ensures Searching(pool, answers[queue[0] := answer], orphan, queue[1..], added,
                      if Skips(answer) then roots else roots + [queue[0]], done + {queue[0]})
  {
    FrontierTail(queue, added, done);
    assert queue[0] !in done && queue[0] !in answers;
    var after := answers[queue[0] := answer];
    forall h ensures h in answers || h == queue[0] <==> h in after { }
  }

  /** The parents of a pooled hash are queued, each once. */
  lemma ParentStep(pool: Pool, answers: Answers, orphan: Hash, queue: seq<Hash>, added: set<Hash>,
                   roots: seq<Hash>, done: set<Hash>,
                   more: seq<Hash>, addedMore: set<Hash>)
    requires Searching(pool, answers, orphan, queue, added, roots, done) && queue != [] && queue[0] in pool
    requires Distinct(more) && forall h :: h in more <==> h in queue[1..] || (h in pool[queue[0]].parents && h !in added)
    requires forall h :: h in addedMore <==> h in added || h in pool[queue[0]].parents
    ensures Searching(pool, answers, orphan, more, addedMore, roots, done + {queue[0]})
  {
    FrontierTail(queue, added, done);
    assert queue[0] in added;
    forall h | h in pool[queue[0]].parents ensures Reachable(pool, orphan, h) && h in Mentioned(pool, orphan) {
      ReachStep(pool, orphan, queue[0], h);
    }
  }

  /** The search ends: a new hash of a finite set is done in every round. */
  lemma SearchProgress(pool: Pool, answers: Answers, orphan: Hash, queue: seq<Hash>, added: set<Hash>,
                       roots: seq<Hash>, done: set<Hash>)
    requires Searching(pool, answers, orphan, queue, added, roots, done) && queue != []
    ensures Mentioned(pool, orphan) - (done + {queue[0]}) < Mentioned(pool, orphan) - done
  {
    assert queue[0] in queue && queue[0] in added;
    assert queue[0] in Mentioned(pool, orphan) - done;
  }

  lemma SearchDone(pool: Pool, answers: Answers, orphan: Hash, added: set<Hash>, roots: seq<Hash>,
                   done: set<Hash>)
    requires Searching(pool, answers, orphan, [], added, roots, done)
    ensures forall h :: h in answers <==> Reachable(pool, orphan, h) && h !in pool
    ensures forall h :: h in roots <==> h in answers && !Skips(answers[h])
  {
    assert Closed(pool, added);
    forall h | Reachable(pool, orphan, h) ensures h in done {
      var path :| IsPath(pool, path) && path[0] == orphan && path[|path| - 1] == h;
      PathInside(pool, path, added);
    }
  }

  /** The inner loop of `GetOrphanRoots`: queues the parents that were never queued. */
  method EnqueueParents(parents: seq<Hash>, queue: seq<Hash>, added: set<Hash>) returns (more: seq<Hash>,
                        addedMore: set<Hash>)
    requires Distinct(queue) && forall h :: h in queue ==> h in added
    ensures Distinct(more) && forall h :: h in more <==> h in queue || (h in parents && h !in added)
    ensures forall h :: h in addedMore <==> h in added || h in parents
  {
    more, addedMore := queue, added;
    for i := 0 to |parents|
      invariant Distinct(more) && forall h :: h in more <==> h in queue || (h in parents[..i] && h !in added)
      invariant forall h :: h in addedMore <==> h in added || h in parents[..i]
    {
      if parents[i] !in addedMore {
        more, addedMore := more + [parents[i]], addedMore + {parents[i]};
      }
    }
  }

  class FlowContext {
    const consensus: Consensus
    var orphans: Pool

    constructor (consensus: Consensus)
      ensures this.consensus == consensus && orphans == map[] && ValidPool(orphans)
    {
      this.consensus := consensus;
      orphans := map[];
    }

    /** `AddOrphan`: evicts some orphan when the pool overflows. */
    method AddOrphan(block: Block)
      requires ValidPool(orphans)
      modifies this`orphans
      ensures ValidPool(orphans)
      ensures var full := old(orphans)[block.hash := block];
        if |full| <= 600 then orphans == full
        else exists e :: e in full && orphans == full - {e}
    {
      PutSize(orphans, block.hash, block);
      orphans := orphans[block.hash := block];
      if |orphans| > MAX_ORPHANS { EvictRandomOrphan(); }
    }

    method EvictRandomOrphan()
      requires orphans != map[]
      modifies this`orphans
      ensures exists e :: e in old(orphans) && orphans == old(orphans) - {e}
      ensures |orphans| == |old(orphans)| - 1
    {
      var toEvict :| toEvict in orphans;
      DropSize(orphans, toEvict);
      orphans := orphans - {toEvict};
    }

    /** `findChildOrphansOfBlock`, in any order of the pool. */
    method FindChildren(hash: Hash) returns (children: seq<Hash>)
      ensures Distinct(children) && forall h :: h in children <==> h in orphans && hash in orphans[h].parents
    {
      children := [];
      var rest := orphans.Keys;
      while rest != {}
        invariant rest <= orphans.Keys && Distinct(children)
        invariant forall h :: h in children <==> h in orphans.Keys - rest && hash in orphans[h].parents
        decreases rest
      {
        var h :| h in rest;
        if hash in orphans[h].parents { children := children + [h]; }
        rest := rest - {h};
      }
    }

    /** `addChildOrphansToProcessQueue` */
    method AddChildren(hash: Hash, queue: seq<Hash>) returns (more: seq<Hash>)
      requires ValidQueue(queue, orphans)
      ensures ValidQueue(more, orphans) && queue <= more
      ensures forall h :: h in more <==> h in queue || (h in orphans && hash in orphans[h].parents)
    {
      var children := FindChildren(hash);
      more := queue;
      for i := 0 to |children|
        invariant ValidQueue(more, orphans) && queue <= more
        invariant forall h :: h in more <==> h in queue || h in children[..i]
      {
        if children[i] !in more { more := more + [children[i]]; }
      }
    }

    /** Whether consensus knows every parent; stops at the first that is missing. `None` is an error. */
    method AllParentsKnown(block: Block) returns (known: Option<bool>)
      modifies consensus`status, consensus`others, consensus`failures
      ensures Grew(old(consensus.status), old(consensus.others), consensus.status, consensus.others)
      ensures known == Some(true) ==> ParentsKnown(block, consensus.status)
      ensures known == Some(false) ==> exists p :: p in block.parents && !Known(consensus.status, p)
      ensures consensus.failures == old(consensus.failures) + if known.None? then 1 else 0
    {
      for i := 0 to |block.parents|
        invariant Grew(old(consensus.status), old(consensus.others), consensus.status, consensus.others)
        invariant forall p :: p in block.parents[..i] ==> Known(consensus.status, p)
        invariant consensus.failures == old(consensus.failures)
      {
        var info := consensus.GetBlockInfo(block.parents[i]);
        if info.None? { return None; }
        assert block.parents[i] in block.parents;
        if !info.value.found || info.value.status == HeaderOnly { return Some(false); }
      }
      forall p | p in block.parents ensures p in consensus.status && consensus.status[p] != HeaderOnly {
        assert Known(consensus.status, p);
      }
      known := Some(true);
    }

    /** `unorphanBlock`: the block leaves the pool whatever consensus says. `None` is the error for a non-orphan. */
    method UnorphanBlock(hash: Hash) returns (outcome: Option<Outcome>)
      modifies this`orphans, consensus`status, consensus`others, consensus`handed
      ensures outcome.None? <==> hash !in old(orphans)
      ensures outcome.None? ==> orphans == old(orphans)
      ensures outcome.Some? ==> orphans == old(orphans) - {hash}
      ensures outcome.Some? ==>
        InsertedBlock(old(orphans)[hash], old(consensus.status), old(consensus.others), old(consensus.handed),
                         outcome.value, consensus.status, consensus.others, consensus.handed)
    {
      if hash !in orphans { return None; }
      var block := orphans[hash];
      orphans := orphans - {hash};
      var result := consensus.Insert(block);
      outcome := Some(result);
    }

    /** One round of the worklist: the first queued block is handed over, or stays pooled. */
    method Consider(queue: seq<Hash>, ghost before: Pool, ghost log: seq<Handed>, ghost root: Hash, ghost seen: Seen)
      returns (ok: bool, rest: seq<Hash>, done: seq<Block>, ghost more: seq<Handed>, ghost saw: Seen)
      requires Working(before, orphans, queue, log, root, consensus.status, consensus.others, seen) && queue != []
      modifies this`orphans, consensus`status, consensus`others, consensus`handed, consensus`failures
      ensures consensus.handed == old(consensus.handed) + more
      ensures Goes(ok, old(consensus.failures), consensus.failures, more)
      ensures ValidLog(log + more, before, orphans)
      ensures AcceptedBlocks(log + more) == AcceptedBlocks(log) + done
      ensures ok ==> Working(before, orphans, rest, log + more, root, consensus.status, consensus.others, saw)
      ensures Later(old(consensus.status), old(consensus.others), consensus.status, consensus.others)
      ensures SeenMore(seen, saw, old(consensus.status), consensus.status)
      ensures |orphans| < |old(orphans)| || (orphans == old(orphans) && (ok ==> |rest| < |queue|))
    {
      hide Settled, ChildOf, Blocked, Known, Accepted, Lasts, SeenMore, ParentsKnown, HandedHashes, Hashes, AcceptedBlocks, Goes;
      ghost var pool, status, others := orphans, consensus.status, consensus.others;
      ok, rest, done, more, saw := true, queue[1..], [], [], seen;
      var hash := queue[0];
      var block := orphans[hash];
      assert log + more == log;
      var known := AllParentsKnown(block);
      WorkingGrew(before, pool, queue, log, root, status, others, consensus.status, consensus.others, seen);
      status, others := consensus.status, consensus.others;
      SawThis(seen, hash, old(consensus.status), status);
      GoesNone(old(consensus.failures), consensus.failures);
      if known.None? {
        ok := false;
      } else if !known.value {
        SkipStep(before, pool, queue, log, root, status, others, seen);
        saw := seen[hash := status];
      } else {
        DropSize(orphans, hash);
        var result := UnorphanBlock(hash);
        var outcome := result.value;
        ghost var e := consensus.handed[|consensus.handed| - 1];
        ParentsStayKnown(block, status, e.status);
        LaterLater(old(consensus.status), old(consensus.others), status, others, consensus.status, consensus.others);
        SawThis(seen, hash, old(consensus.status), consensus.status);
        more := [e];
        GoesOne(consensus.failures, e);
        assert consensus.handed == old(consensus.handed) + more;
        AcceptedMore(log, e);
        LogMore(log, e, before, pool);
        QueueTail(queue, pool);
        if outcome.Inserted? {
          done := [block];
          rest := AddChildren(hash, rest);
          InsertStep(before, pool, queue, log, root, status, others, seen, e, consensus.status, consensus.others, rest);
        } else {
          RejectStep(before, pool, queue, log, root, status, others, seen, e);
          WorkingGrew(before, orphans, rest, log + [e], root, status, others, consensus.status, consensus.others, seen);
          ok := outcome.RuleError?;
        }
      }
    }

    /**
      `UnorphanBlocks`: hands over every orphan below `root` whose parents are known, until nothing
      more can move. `None` is an error of the database or of consensus. `others` starts anew, so that
      it holds what other flows insert during this call.
    */
    method UnorphanBlocks(root: Hash) returns (unorphaned: Option<seq<Block>>, ghost seen: Seen)
      requires ValidPool(orphans)
      modifies this`orphans, consensus`status, consensus`others, consensus`handed, consensus`failures
      ensures ValidPool(orphans)
      ensures exists log ::
        && consensus.handed == old(consensus.handed) + log && ValidLog(log, old(orphans), orphans)
        && (unorphaned.Some? ==> unorphaned.value == AcceptedBlocks(log))
        && Goes(unorphaned.Some?, old(consensus.failures), consensus.failures, log)
      ensures unorphaned.Some? ==>
        forall h :: h in orphans && ChildOf(orphans[h], {root} + Hashes(unorphaned.value)) ==>
          Blocked(h, orphans[h], consensus.status, consensus.others, seen)
      ensures Lasts(old(consensus.status), consensus.status)
      ensures forall p :: p in consensus.others ==> !Known(old(consensus.status), p)
      ensures SeenDuring(seen, old(consensus.status), consensus.status)
    {
      hide Settled, Blocked, ValidLog, HandedHashes, Hashes, AcceptedBlocks, Known, Lasts, SeenDuring, SeenMore;
      consensus.others := {};
      NothingSeen(consensus.status);
      var queue := AddChildren(root, []);
      var blocks := [];
      ghost var before, log: seq<Handed> := orphans, [];
      seen := map[];
      WorkingStart(orphans, queue, root, consensus.status, consensus.others, seen);
      while queue != []
        invariant Working(before, orphans, queue, log, root, consensus.status, consensus.others, seen)
        invariant consensus.handed == old(consensus.handed) + log && blocks == AcceptedBlocks(log)
        invariant Goes(true, old(consensus.failures), consensus.failures, log)
        invariant Later(old(consensus.status), {}, consensus.status, consensus.others)
        invariant SeenDuring(seen, old(consensus.status), consensus.status)
        decreases |orphans|, |queue|
      {
        ghost var status, others, failures := consensus.status, consensus.others, consensus.failures;
        var ok, rest, done, more, saw := Consider(queue, before, log, root, seen);
        LaterLater(old(consensus.status), {}, status, others, consensus.status, consensus.others);
        SeenLater(seen, saw, old(consensus.status), status, consensus.status);
        Assoc(old(consensus.handed), log, more);
        GoesMore(old(consensus.failures), failures, consensus.failures, log, more, ok);
        log, seen := log + more, saw;
        if !ok {
          LogKeepsPool(before, log, orphans);
          return None, seen;
        }
        queue, blocks := rest, blocks + done;
      }
      LogKeepsPool(before, log, orphans);
      SettledEnd(orphans, {root} + Hashes(blocks), consensus.status, consensus.others, seen);
      unorphaned := Some(blocks);
    }

    /** `GetOrphanRoots`: `answers` holds what consensus said for every hash it was asked for. */
    method GetOrphanRoots(orphan: Hash) returns (result: Roots, ghost answers: Answers)
      modifies consensus`headers, consensus`failures
      ensures result.NotOrphan? <==> orphan !in orphans
      ensures result.GetBlockError? <==> consensus.failures != old(consensus.failures)
      ensures Answered(answers, old(consensus.headers), consensus.headers)
      ensures result.Roots? ==>
        && Distinct(result.roots)
        && (forall h :: h in answers <==> Reachable(orphans, orphan, h) && h !in orphans)
        && (forall h :: h in result.roots <==> h in answers && !Skips(answers[h]))
    {
      answers := map[];
      if orphan !in orphans { return NotOrphan, answers; }
      var queue, added, roots := [orphan], {orphan}, [];
      ghost var done: set<Hash> := {};
      SearchStart(orphans, answers, orphan);
      while queue != []
        invariant Searching(orphans, answers, orphan, queue, added, roots, done)
        invariant Answered(answers, old(consensus.headers), consensus.headers)
        invariant Stored(old(consensus.headers), consensus.headers) && consensus.failures == old(consensus.failures)
        decreases Mentioned(orphans, orphan) - done
      {
        hide Searching, Reachable, Mentioned;
        var current := queue[0];
        SearchProgress(orphans, answers, orphan, queue, added, roots, done);
        if current !in orphans {
          var answer := consensus.GetBlock(current);
          if answer.None? { return GetBlockError, answers; }
          RootStep(orphans, answers, orphan, queue, added, roots, done, answer.value);
          answers := answers[current := answer.value];
          queue := queue[1..];
          if answer.value.None?
             || !(answer.value.value.powHash == "" && answer.value.value.version >= POW_INTEGRITY_MIN_VERSION)
          {
            roots := roots + [current];
          }
        } else {
          SearchTail(orphans, answers, orphan, queue, added, roots, done);
          var more, addedMore := EnqueueParents(orphans[current].parents, queue[1..], added);
          ParentStep(orphans, answers, orphan, queue, added, roots, done, more, addedMore);
          queue, added := more, addedMore;
        }
        done := done + {current};
      }
      SearchDone(orphans, answers, orphan, added, roots, done);
      result := Roots(roots);
    }
  }

  /**
    The worklist goes on unless a question met a database error or consensus answered the last block
    with an error that is not a rule error; before that there was neither.
  */
  ghost predicate Goes(ok: bool, failures: nat, later: nat, log: seq<Handed>) {
    && (ok <==> later == failures && forall e :: e in log ==> !e.outcome.OtherError?)
    && failures <= later <= failures + 1
    && (forall i :: 0 <= i < |log| && log[i].outcome.OtherError? ==> i == |log| - 1 && later == failures)
  }

  lemma GoesNone(failures: nat, later: nat)
    requires failures <= later <= failures + 1
    ensures Goes(later == failures, failures, later, [])
  {
  }

  lemma GoesOne(failures: nat, e: Handed)
    ensures Goes(!e.outcome.OtherError?, failures, failures, [e])
  {
    assert e in [e];
  }

  lemma GoesMore(failures: nat, middle: nat, later: nat, log: seq<Handed>, more: seq<Handed>, ok: bool)
    requires Goes(true, failures, middle, log) && Goes(ok, middle, later, more)
    ensures Goes(ok, failures, later, log + more)
  {
    assert forall i :: 0 <= i < |log| ==> !log[i].outcome.OtherError?;
    if !ok && later == middle {
      var e :| e in more && e.outcome.OtherError?;
      assert e in log + more;
    }
    if ok { forall e | e in log + more ensures !e.outcome.OtherError? { assert e in log || e in more; } }
    forall i | 0 <= i < |log + more| && (log + more)[i].outcome.OtherError? ensures i == |log + more| - 1 && later == failures {
      if i >= |log| { assert more[i - |log|] == (log + more)[i]; }
    }
  }

  lemma SearchTail(pool: Pool, answers: Answers, orphan: Hash, queue: seq<Hash>, added: set<Hash>, roots: seq<Hash>,
                   done: set<Hash>)
    requires Searching(pool, answers, orphan, queue, added, roots, done) && queue != []
    ensures Distinct(queue[1..]) && forall h :: h in queue[1..] ==> h in added
  {
    FrontierTail(queue, added, done);
  }

  lemma {:induction false} LogKeepsPool(before: Pool, log: seq<Handed>, pool: Pool)
    requires ValidPool(before) && ValidLog(log, before, pool)
    ensures ValidPool(pool)
  {
    SubsetSize(pool.Keys, before.Keys);
  }

  /** The statuses of a consideration lie between the call's first and last statuses. */
  ghost predicate SeenDuring(seen: Seen, start: Statuses, end: Statuses) {
    forall h :: h in seen ==> Lasts(start, seen[h]) && Lasts(seen[h], end)
  }

  ghost predicate SeenMore(seen: Seen, saw: Seen, status: Statuses, later: Statuses) {
    forall h :: h in saw ==> (h in seen && saw[h] == seen[h]) || (Lasts(status, saw[h]) && Lasts(saw[h], later))
  }

  lemma LastsLasts(a: Statuses, b: Statuses, c: Statuses)
    requires Lasts(a, b) && Lasts(b, c)
    ensures Lasts(a, c)
  {
  }

  lemma NothingSeen(status: Statuses)
    ensures SeenDuring(map[], status, status) && Lasts(status, status)
  {
  }

  lemma SawThis(seen: Seen, h: Hash, status: Statuses, later: Statuses)
    requires Lasts(status, later)
    ensures SeenMore(seen, seen, status, later) && SeenMore(seen, seen[h := later], status, later)
  {
  }

  lemma ParentsStayKnown(b: Block, status: Statuses, later: Statuses)
    requires ParentsKnown(b, status) && Lasts(status, later)
    ensures ParentsKnown(b, later)
  {
    forall p | p in b.parents ensures p in later && later[p] != HeaderOnly { assert Known(status, p); }
  }

  lemma SeenLater(seen: Seen, saw: Seen, start: Statuses, status: Statuses, later: Statuses)
    requires SeenDuring(seen, start, status) && SeenMore(seen, saw, status, later)
    requires Lasts(start, status) && Lasts(status, later)
    ensures SeenDuring(saw, start, later)
  {
    hide Lasts;
    forall h | h in saw ensures Lasts(start, saw[h]) && Lasts(saw[h], later) {
      if h in seen && saw[h] == seen[h] {
        LastsLasts(saw[h], status, later);
      } else {
        LastsLasts(start, status, saw[h]);
      }
    }
  }

  lemma LaterLater(a: Statuses, ao: set<Hash>, b: Statuses, bo: set<Hash>, c: Statuses, co: set<Hash>)
    requires Later(a, ao, b, bo) && Later(b, bo, c, co)
    ensures Later(a, ao, c, co)
  {
  }

  lemma SettledEnd(pool: Pool, mine: set<Hash>, status: Statuses, others: set<Hash>, seen: Seen)
    requires Settled(pool, [], mine, status, others, seen)
    ensures forall h :: h in pool && ChildOf(pool[h], mine) ==> Blocked(h, pool[h], status, others, seen)
  {
  }

  lemma WorkingStart(pool: Pool, queue: seq<Hash>, root: Hash, status: Statuses, others: set<Hash>, seen: Seen)
    requires ValidPool(pool) && ValidQueue(queue, pool)
    requires forall h :: h in pool && root in pool[h].parents ==> h in queue
    ensures Working(pool, pool, queue, [], root, status, others, seen) && AcceptedBlocks([]) == []
  {
    assert pool - HandedHashes([]) == pool;
    assert {root} + Hashes(AcceptedBlocks([])) == {root};
  }
}
