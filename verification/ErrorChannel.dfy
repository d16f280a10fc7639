/**
  The error channel of one connection (app/protocol/flowcontext/errors.go, app/protocol/protocol.go):
  any number of failing flows and invalid-message callbacks add to the shared counter `isStopping`,
  and the one that finds it at one sends its error on a channel of capacity one.
*/
module ErrorChannel {
  import opened Basics

  type Thread = nat
  type Error(==, !new)

  const TWO_TO_32: nat := 0x1_0000_0000
  const CAPACITY: nat := 1

  // ---------- What HandleError does with an error ----------

  /** What the error chain of a flow contains. */
  datatype Kind = Kind(routeClosed: bool, notFound: bool, wireFormat: bool, protocol: bool, rule: bool)

  /** `ForwardAsBan` wraps the error in a protocol error that bans the peer. */
  datatype Verdict = Forward | ForwardAsBan | Ignore | Panic

  function Judge(kind: Kind): Verdict {
    if kind.routeClosed then Forward
    else if kind.notFound then Ignore
    else if kind.wireFormat then ForwardAsBan
    else if !kind.protocol then (if kind.rule then ForwardAsBan else Panic)
    else Forward
  }

  /** An error of no known kind. */
  const UNKNOWN := Kind(false, false, false, false, false)

  // ---------- The threads ----------

  /**
    What is sent to the connection: the error as it came, or made one that bans the peer. `source` is the
    kind that `HandleError` judged; a callback has none.
  */
  datatype Message = Message(error: Error, asBan: bool, source: Option<Kind>)

  datatype Pc =
    | Running
    | Adding(message: Message)
    | Sending(message: Message)
    | Finished

  datatype State = State(
    isStopping: nat,
    channel: seq<Message>,
    pcs: map<Thread, Pc>,
    crashed: bool,
    /** What `HandleError` judged so far, the number of additions, and the errors sent and received. */
    failures: seq<Kind>,
    adds: nat,
    sent: seq<Message>,
    received: nat)

  const START := State(0, [], map[], false, [], 0, [], 0)

  function PcOf(s: State, t: Thread): Pc {
    if t in s.pcs then s.pcs[t] else Running
  }

  function At(s: State, t: Thread, pc: Pc): State {
    s.(pcs := s.pcs[t := pc])
  }

  /** A flow fails and `HandleError` judges. */
  ghost predicate Fail(s: State, t: Thread, s': State) {
    PcOf(s, t) == Running && exists e, kind :: s' == AfterFailure(s, t, e, kind)
  }

  function AfterFailure(s: State, t: Thread, e: Error, kind: Kind): State {
    var failed := s.(failures := s.failures + [kind]);
    match Judge(kind)
    case Forward => At(failed, t, Adding(Message(e, false, Some(kind))))
    case ForwardAsBan => At(failed, t, Adding(Message(e, true, Some(kind))))
    case Ignore => At(failed, t, Finished)
    case Panic => At(failed.(crashed := true), t, Finished)
  }

  /** The callback for an invalid message makes its error one that bans, without judging it. */
  ghost predicate Callback(s: State, t: Thread, s': State) {
    PcOf(s, t) == Running && exists e :: s' == At(s, t, Adding(Message(e, true, None)))
  }

  /** `atomic.AddUint32(isStopping, 1) == 1` */
  ghost predicate Add(s: State, t: Thread, s': State) {
    && PcOf(s, t).Adding?
    && var n := (s.isStopping + 1) % TWO_TO_32;
       s' == At(s.(isStopping := n, adds := s.adds + 1), t, if n == 1 then Sending(PcOf(s, t).message) else Finished)
  }

  /** A send needs room in the channel. */
  ghost predicate Send(s: State, t: Thread, s': State) {
    && PcOf(s, t).Sending? && |s.channel| < CAPACITY
    && s' == At(s.(channel := s.channel + [PcOf(s, t).message], sent := s.sent + [PcOf(s, t).message]), t, Finished)
  }

  ghost predicate Receive(s: State, s': State) {
    s.channel != [] && s' == s.(channel := s.channel[1..], received := s.received + 1)
  }

  ghost predicate ThreadStep(s: State, t: Thread, s': State) {
    Fail(s, t, s') || Callback(s, t, s') || Add(s, t, s') || Send(s, t, s')
  }

  ghost predicate Step(s: State, s': State) {
    !s.crashed && (Receive(s, s') || exists t :: ThreadStep(s, t, s'))
  }

  /** The threads that won the counter and have not sent yet. */
  ghost function Senders(s: State): set<Thread> {
    SendersIn(s.pcs)
  }

  ghost function SendersIn(pcs: map<Thread, Pc>): set<Thread> {
    set t | t in pcs && pcs[t].Sending?
  }

  /** How often the counter passes from zero to one in so many additions. */
  function Wins(adds: nat): nat {
    (adds + (TWO_TO_32 - 1)) / TWO_TO_32
  }

  /**
    A message is due: a callback's always, and as a ban; a judged error's unless it is a missing database
    record or of no known kind, and as a ban if it is a wire-format error, or a rule error and no protocol
    error. A closed route goes before all of them.
  */
  ghost predicate Rightful(m: Message, failures: seq<Kind>) {
    match m.source
    case None => m.asBan
    case Some(kind) =>
      && kind in failures
      && (kind.routeClosed || (!kind.notFound && (kind.wireFormat || kind.protocol || kind.rule)))
      && (m.asBan <==> !kind.routeClosed && (kind.wireFormat || !kind.protocol))
  }

  lemma RightfulMore(m: Message, failures: seq<Kind>, kind: Kind)
    requires Rightful(m, failures)
    ensures Rightful(m, failures + [kind])
  {
  }

  ghost predicate AllRightful(s: State) {
    && (forall t :: t in s.pcs && (s.pcs[t].Adding? || s.pcs[t].Sending?) ==> Rightful(s.pcs[t].message, s.failures))
    && (forall m :: m in s.sent ==> Rightful(m, s.failures))
  }

  lemma FailureIsRightful(s: State, t: Thread, e: Error, kind: Kind)
    requires AllRightful(s)
    ensures AllRightful(AfterFailure(s, t, e, kind))
  {
    var s' := AfterFailure(s, t, e, kind);
    assert kind in s'.failures;
    forall m | Rightful(m, s.failures) ensures Rightful(m, s'.failures) { RightfulMore(m, s.failures, kind); }
  }

  ghost predicate Inv(s: State) {
    && s.isStopping == s.adds % TWO_TO_32
    && |Senders(s)| + |s.sent| == Wins(s.adds)
    && (s.crashed <==> UNKNOWN in s.failures)
    && AllRightful(s)
    && |s.channel| <= CAPACITY && s.received <= |s.sent| && s.channel == s.sent[s.received..]
  }

  lemma WinsMore(adds: nat)
    ensures (adds + 1) % TWO_TO_32 == (adds % TWO_TO_32 + 1) % TWO_TO_32
    ensures Wins(adds + 1) == Wins(adds) + if (adds + 1) % TWO_TO_32 == 1 then 1 else 0
  {
    var turns, n := adds / TWO_TO_32, adds % TWO_TO_32;
    assert adds == turns * TWO_TO_32 + n;
  }

  /** The senders after one thread moved. */
  lemma SendersMove(pcs: map<Thread, Pc>, t: Thread, pc: Pc)
    ensures var before := t in pcs && pcs[t].Sending?;
      |SendersIn(pcs[t := pc])| == |SendersIn(pcs)| + (if pc.Sending? then 1 else 0) - (if before then 1 else 0)
  {
    var senders := SendersIn(pcs);
    if pc.Sending? {
      assert SendersIn(pcs[t := pc]) == senders + {t};
      CardinalityPut(senders, t);
    } else {
      assert SendersIn(pcs[t := pc]) == senders - {t};
      CardinalityDrop(senders, t);
    }
  }

  lemma CardinalityPut(a: set<Thread>, t: Thread)
    ensures |a + {t}| == |a| + if t in a then 0 else 1
  {
    if t in a { assert a + {t} == a; }
  }

  lemma CardinalityDrop(a: set<Thread>, t: Thread)
    ensures |a - {t}| == |a| - if t in a then 1 else 0
  {
    if t !in a { assert a - {t} == a; }
  }

  lemma FailKeepsInv(s: State, t: Thread, s': State)
    requires Inv(s) && Fail(s, t, s')
    ensures Inv(s')
  {
    hide AllRightful;
    var e, kind :| s' == AfterFailure(s, t, e, kind);
    SendersMove(s.pcs, t, PcOf(s', t));
    FailureIsRightful(s, t, e, kind);
  }

  lemma CallbackKeepsInv(s: State, t: Thread, s': State)
    requires Inv(s) && Callback(s, t, s')
    ensures Inv(s')
  {
    SendersMove(s.pcs, t, PcOf(s', t));
  }

  lemma AddKeepsInv(s: State, t: Thread, s': State)
    requires Inv(s) && Add(s, t, s')
    ensures Inv(s')
  {
    WinsMore(s.adds);
    SendersMove(s.pcs, t, PcOf(s', t));
  }

  lemma SendKeepsInv(s: State, t: Thread, s': State)
    requires Inv(s) && Send(s, t, s')
    ensures Inv(s')
  {
    SendersMove(s.pcs, t, Finished);
    assert s.sent[s.received..] + [PcOf(s, t).message] == s'.sent[s.received..];
  }

  lemma StepKeepsInv(s: State, s': State)
    requires Inv(s) && Step(s, s')
    ensures Inv(s')
  {
    hide Inv, Fail, Callback, Add, Send;
    if Receive(s, s') {
      ReceiveKeepsInv(s, s');
    } else {
      var t :| ThreadStep(s, t, s');
      if Fail(s, t, s') { FailKeepsInv(s, t, s'); }
      else if Callback(s, t, s') { CallbackKeepsInv(s, t, s'); }
      else if Add(s, t, s') { AddKeepsInv(s, t, s'); }
      else { SendKeepsInv(s, t, s'); }
    }
  }

  lemma ReceiveKeepsInv(s: State, s': State)
    requires Inv(s) && Receive(s, s')
    ensures Inv(s')
  {
    assert Senders(s') == Senders(s);
    assert s.sent[s.received..][1..] == s.sent[s.received + 1..];
  }

  ghost predicate IsRun(run: seq<State>) {
    run != [] && run[0] == START && forall i :: 0 < i < |run| ==> Step(run[i - 1], run[i])
  }

  lemma {:induction false} RunKeepsInv(run: seq<State>, i: nat)
    requires IsRun(run) && i < |run|
    ensures Inv(run[i])
    decreases i
  {
    if i == 0 {
      assert Senders(START) == {};
    } else {
      RunKeepsInv(run, i - 1);
      StepKeepsInv(run[i - 1], run[i]);
    }
  }

  // ---------- Results over every run ----------

  /** The errors sent or about to be sent are exactly as many as the counter's turns. */
  lemma SendsExactly(run: seq<State>, i: nat)
    requires IsRun(run) && i < |run|
    ensures |Senders(run[i])| + |run[i].sent| == Wins(run[i].adds)
    ensures |Senders(run[i])| + |run[i].sent| <= 1 <==> run[i].adds <= TWO_TO_32
  {
    RunKeepsInv(run, i);
  }

  /** With at most 2^32 failures no sender can block: whoever has to send finds room. */
  lemma SenderNeverBlocks(run: seq<State>, i: nat, t: Thread)
    requires IsRun(run) && i < |run| && run[i].adds <= TWO_TO_32 && PcOf(run[i], t).Sending?
    ensures exists s' :: Send(run[i], t, s')
    ensures run[i].sent == [] && Senders(run[i]) == {t}
  {
    RunKeepsInv(run, i);
    var s := run[i];
    assert t in Senders(s);
    OnlyOne(Senders(s), t);
    assert Send(s, t, At(s.(channel := s.channel + [PcOf(s, t).message], sent := s.sent + [PcOf(s, t).message]), t, Finished));
  }

  lemma OnlyOne(a: set<Thread>, t: Thread)
    requires t in a && |a| <= 1
    ensures a == {t} && |a| == 1
  {
    assert a == {t} + (a - {t});
  }

  /** The node panics if and only if some failure that was judged was of no known kind; a missing database record stops nothing. */
  lemma CrashesIff(run: seq<State>, i: nat)
    requires IsRun(run) && i < |run|
    ensures run[i].crashed <==> UNKNOWN in run[i].failures
    ensures run[i].crashed ==> i == |run| - 1
  {
    RunKeepsInv(run, i);
    if i + 1 < |run| { assert Step(run[i + 1 - 1], run[i + 1]); }
  }

  /** Only what is due is ever sent, and it bans the peer exactly when it should. */
  lemma SentRightfully(run: seq<State>, i: nat, m: Message)
    requires IsRun(run) && i < |run| && m in run[i].sent
    ensures m.source.None? ==> m.asBan
    ensures m.source.Some? ==>
      var kind := m.source.value;
      && kind in run[i].failures
      && (kind.routeClosed || (!kind.notFound && (kind.wireFormat || kind.protocol || kind.rule)))
      && (m.asBan <==> !kind.routeClosed && (kind.wireFormat || !kind.protocol))
  {
    RunKeepsInv(run, i);
  }

  /** Every failure that is due goes on to the counter, and a missing database record ends its flow alone. */
  lemma FailureGoesOn(s: State, t: Thread, e: Error, kind: Kind)
    ensures var s' := AfterFailure(s, t, e, kind);
      && (PcOf(s', t).Adding? <==> kind.routeClosed || (!kind.notFound && (kind.wireFormat || kind.protocol || kind.rule)))
      && (PcOf(s', t).Adding? ==> PcOf(s', t).message.error == e && PcOf(s', t).message.source == Some(kind))
      && (s'.crashed <==> s.crashed || kind == Kind(false, false, false, false, false))
      && s'.failures == s.failures + [kind] && s'.sent == s.sent && s'.isStopping == s.isStopping
  {
  }

  /** Once an error was received in such a run, no other is ever sent. */
  lemma ReceivedIsTheOnlyOne(run: seq<State>, i: nat)
    requires IsRun(run) && i < |run| && run[i].adds <= TWO_TO_32 && run[i].received > 0
    ensures |run[i].sent| == 1 && run[i].channel == [] && Senders(run[i]) == {}
  {
    RunKeepsInv(run, i);
  }
}
