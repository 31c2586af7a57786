/**
 A batch of kafka messages shares one block and one payload buffer. Both are
 released by whoever takes the count to zero: the delivery callbacks of
 librdkafka, on its own thread, or the failure loop of the producer. This
 module is the interleaving of the two, step by step.
 */
module Batch {

  /** What became of a message. librdkafka reports an accepted message once and a rejected one never. */
  datatype Phase =
    | Pending     // produce_batch has not looked at it yet
    | Accepted    // queued in librdkafka, its delivery report is to come
    | Delivered
    | Rejected    // err is set; the failure loop has not seen it yet
    | Dropped     // counted and released by the failure loop

  /** Where kafka_message_array_produce is. */
  datatype Pc =
    | Producing(next: nat)             // inside rd_kafka_produce_batch, at message `next`
    | FailureLoop(i: nat, ok: nat)
    | Returned(result: nat)

  datatype State = State(
    msgs: seq<Phase>,
    count: int,          // karray->count
    hasPayload: bool,    // payload_buffer was set: the array is stolen and _private names the block
    pc: Pc,
    blockFrees: nat,
    payloadFrees: nat,
    usedAfterFree: bool) // some step touched the block after it was freed

  datatype Action =
    | Produce(accept: bool)  // librdkafka takes or refuses the next message
    | ProduceDone
    | LoopStep
    | LoopDone
    | Deliver(k: nat)        // msg_delivered, on librdkafka's thread

  function Start(n: nat, hasPayload: bool): State {
    State(seq(n, _ => Pending), n, hasPayload, Producing(0), 0, 0, false)
  }

  /** Reading or writing the block. */
  function Touch(s: State): State {
    if s.blockFrees > 0 then s.(usedAfterFree := true) else s
  }

  /** kafka_message_array_internal_decref: one atomic step. */
  function Decref(s: State): State {
    var t := Touch(s).(count := s.count - 1);
    if t.count != 0 then t
    else t.(blockFrees := t.blockFrees + 1,
            payloadFrees := if t.hasPayload then t.payloadFrees + 1 else t.payloadFrees)
  }

  /** The number of messages in a phase. */
  function Count(msgs: seq<Phase>, p: Phase): (n: nat)
    ensures n <= |msgs|
  {
    if msgs == [] then 0 else Count(msgs[..|msgs| - 1], p) + if msgs[|msgs| - 1] == p then 1 else 0
  }

  predicate Enabled(s: State, a: Action) {
    match a
    case Produce(_) => s.pc.Producing? && s.pc.next < |s.msgs|
    case ProduceDone => s.pc.Producing? && s.pc.next == |s.msgs|
    case LoopStep => s.pc.FailureLoop? && s.pc.i < |s.msgs| && s.pc.ok < |s.msgs|
    case LoopDone => s.pc.FailureLoop? && !(s.pc.i < |s.msgs| && s.pc.ok < |s.msgs|)
    case Deliver(k) => k < |s.msgs| && s.msgs[k] == Accepted
  }

  /** kafka_msg_array_done: a block that was not stolen is freed with its array. */
  function Finish(s: State, result: nat): State {
    var t := s.(pc := Returned(result));
    if s.hasPayload then t else t.(blockFrees := t.blockFrees + 1)
  }

  function Step(s: State, a: Action): State
    requires Enabled(s, a)
  {
    match a
    case Produce(accept) =>
      Touch(s).(msgs := s.msgs[s.pc.next := if accept then Accepted else Rejected],
                pc := Producing(s.pc.next + 1))
    case ProduceDone =>
      var ok := |s.msgs| - Count(s.msgs, Rejected);
      if ok == |s.msgs| then Finish(s, ok) else s.(pc := FailureLoop(0, ok))
    case LoopStep =>
      if s.msgs[s.pc.i] != Rejected then Touch(s).(pc := s.pc.(i := s.pc.i + 1))
      else
        Decref(Touch(s)).(msgs := s.msgs[s.pc.i := Dropped], pc := FailureLoop(s.pc.i + 1, s.pc.ok + 1))
    case LoopDone => Finish(s, s.pc.ok)
    case Deliver(k) =>
      var t := s.(msgs := s.msgs[k := Delivered]);
      if s.hasPayload then Decref(t) else t
  }

  /** A run: every action is enabled where it is taken. */
  predicate IsRun(s: State, acts: seq<Action>)
    decreases |acts|
  {
    acts != [] ==> Enabled(s, acts[0]) && IsRun(Step(s, acts[0]), acts[1..])
  }

  function After(s: State, acts: seq<Action>): State
    requires IsRun(s, acts)
    decreases |acts|
  {
    if acts == [] then s else After(Step(s, acts[0]), acts[1..])
  }

  // ---------------------------------------------------------------------
  // Counting
  // ---------------------------------------------------------------------

  lemma {:induction false} CountUpdate(msgs: seq<Phase>, i: nat, q: Phase, p: Phase)
    requires i < |msgs|
    ensures Count(msgs[i := q], p) ==
            Count(msgs, p) - (if msgs[i] == p then 1 else 0) + (if q == p then 1 else 0)
  {
    var n := |msgs| - 1;
    if i == n {
      assert msgs[i := q][..n] == msgs[..n];
    } else {
      assert msgs[i := q][..n] == msgs[..n][i := q];
      CountUpdate(msgs[..n], i, q, p);
    }
  }

  lemma {:induction false} CountIn(msgs: seq<Phase>, p: Phase)
    ensures Count(msgs, p) > 0 <==> p in msgs
  {
    if msgs != [] {
      var init, last := msgs[..|msgs| - 1], msgs[|msgs| - 1];
      CountIn(init, p);
      assert msgs == init + [last];
    }
  }

  // ---------------------------------------------------------------------
  // The invariant
  // ---------------------------------------------------------------------

  /** References to the block: messages not yet delivered or dropped. Without payload, reports do not count. */
  function Holding(s: State): nat {
    Count(s.msgs, Pending) + Count(s.msgs, Accepted) + Count(s.msgs, Rejected) +
    if s.hasPayload then 0 else Count(s.msgs, Delivered)
  }

  /** The producer's position and the phases fit together. */
  ghost predicate PcOk(s: State) {
    var n := |s.msgs|;
    match s.pc
    case Producing(i) =>
      && i <= n
      && (forall k :: 0 <= k < i ==> s.msgs[k] == Accepted || s.msgs[k] == Delivered || s.msgs[k] == Rejected)
      && (forall k :: i <= k < n ==> s.msgs[k] == Pending)
    case FailureLoop(i, ok) =>
      && i <= n && ok == n - Count(s.msgs, Rejected)
      && (forall k :: 0 <= k < i ==> s.msgs[k] != Pending && s.msgs[k] != Rejected)
      && (forall k :: i <= k < n ==> s.msgs[k] != Pending && s.msgs[k] != Dropped)
    case Returned(result) =>
      && result == n
      && (forall k :: 0 <= k < n ==> s.msgs[k] != Pending && s.msgs[k] != Rejected)
  }

  ghost predicate FreesOk(s: State) {
    var zero := if s.count == 0 then 1 else 0;
    if s.hasPayload then s.blockFrees == zero && s.payloadFrees == zero
    else s.payloadFrees == 0 && s.blockFrees == zero + if s.pc.Returned? then 1 else 0
  }

  ghost predicate Inv(s: State) {
    && |s.msgs| > 0
    && s.count == Holding(s)
    && PcOk(s)
    && FreesOk(s)
    && !s.usedAfterFree
  }

  lemma CountsUpdate(msgs: seq<Phase>, i: nat, q: Phase)
    requires i < |msgs|
    ensures forall p :: Count(msgs[i := q], p) ==
                        Count(msgs, p) - (if msgs[i] == p then 1 else 0) + (if q == p then 1 else 0)
  {
    forall p {
      CountUpdate(msgs, i, q, p);
    }
  }

  lemma ProduceKeepsInv(s: State, accept: bool)
    requires Inv(s) && Enabled(s, Produce(accept))
    ensures Inv(Step(s, Produce(accept)))
  {
    CountIn(s.msgs, Pending);
    assert s.msgs[s.pc.next] == Pending;
    CountsUpdate(s.msgs, s.pc.next, if accept then Accepted else Rejected);
  }

  lemma ProduceDoneKeepsInv(s: State)
    requires Inv(s) && Enabled(s, ProduceDone)
    ensures Inv(Step(s, ProduceDone))
  {
    CountIn(s.msgs, Rejected);
    assert forall k :: 0 <= k < |s.msgs| ==> s.msgs[k] != Pending && s.msgs[k] != Dropped;
    NoneDropped(s);
  }

  /** While nothing was dropped, a block without payload is still referenced. */
  lemma NoneDropped(s: State)
    requires Inv(s) && Dropped !in s.msgs
    ensures !s.hasPayload ==> s.count > 0
  {
    assert s.msgs[0] in s.msgs;
    CountIn(s.msgs, s.msgs[0]);
  }

  lemma LoopStepKeepsInv(s: State)
    requires Inv(s) && Enabled(s, LoopStep)
    ensures Inv(Step(s, LoopStep))
  {
    CountIn(s.msgs, Rejected);
    if s.msgs[s.pc.i] == Rejected {
      CountsUpdate(s.msgs, s.pc.i, Dropped);
    }
  }

  lemma LoopDoneKeepsInv(s: State)
    requires Inv(s) && Enabled(s, LoopDone)
    ensures Inv(Step(s, LoopDone))
  {
    CountIn(s.msgs, Rejected);
  }

  lemma DeliverKeepsInv(s: State, k: nat)
    requires Inv(s) && Enabled(s, Deliver(k))
    ensures Inv(Step(s, Deliver(k)))
  {
    var r := Step(s, Deliver(k));
    CountIn(s.msgs, Accepted);
    CountsUpdate(s.msgs, k, Delivered);
    DeliverKeepsPc(s, r, k);
    assert r.count == Holding(r);
  }

  lemma DeliverKeepsPc(s: State, r: State, k: nat)
    requires PcOk(s) && k < |s.msgs| && s.msgs[k] == Accepted && r.pc == s.pc && r.msgs == s.msgs[k := Delivered]
    requires Count(r.msgs, Rejected) == Count(s.msgs, Rejected)
    ensures PcOk(r)
  {
  }

  lemma StepKeepsInv(s: State, a: Action)
    requires Inv(s) && Enabled(s, a)
    ensures Inv(Step(s, a)) && |Step(s, a).msgs| == |s.msgs| && Step(s, a).hasPayload == s.hasPayload
  {
    match a
    case Produce(accept) => ProduceKeepsInv(s, accept);
    case ProduceDone => ProduceDoneKeepsInv(s);
    case LoopStep => LoopStepKeepsInv(s);
    case LoopDone => LoopDoneKeepsInv(s);
    case Deliver(k) => DeliverKeepsInv(s, k);
  }

  lemma {:induction false} AllPending(msgs: seq<Phase>, p: Phase)
    requires forall k :: 0 <= k < |msgs| ==> msgs[k] == Pending
    ensures Count(msgs, p) == if p == Pending then |msgs| else 0
  {
    if msgs != [] {
      AllPending(msgs[..|msgs| - 1], p);
    }
  }

  lemma StartIsInv(n: nat, hasPayload: bool)
    requires n > 0
    ensures Inv(Start(n, hasPayload))
  {
    var s := Start(n, hasPayload);
    forall p {
      AllPending(s.msgs, p);
    }
  }

  // ---------------------------------------------------------------------
  // Every interleaving
  // ---------------------------------------------------------------------

  lemma {:induction false} RunKeepsInv(s: State, acts: seq<Action>)
    requires Inv(s) && IsRun(s, acts)
    ensures Inv(After(s, acts))
    ensures |After(s, acts).msgs| == |s.msgs| && After(s, acts).hasPayload == s.hasPayload
    decreases |acts|
  {
    if acts != [] {
      StepKeepsInv(s, acts[0]);
      RunKeepsInv(Step(s, acts[0]), acts[1..]);
    }
  }

  /**
   At every point of every interleaving: the count is the number of messages that still hold a
   reference, no step touched the block after it was freed, and a block with payload was freed
   exactly if nobody holds it any more, together with its payload.
   */
  lemma EveryInterleaving(n: nat, hasPayload: bool, acts: seq<Action>)
    requires n > 0 && IsRun(Start(n, hasPayload), acts)
    ensures var s := After(Start(n, hasPayload), acts);
            && s.count == Holding(s)
            && !s.usedAfterFree
            && (hasPayload ==> s.blockFrees == s.payloadFrees == if Holding(s) == 0 then 1 else 0)
  {
    StartIsInv(n, hasPayload);
    RunKeepsInv(Start(n, hasPayload), acts);
  }

  /** Does the step read or write the block, or the messages in it? */
  predicate Touches(s: State, a: Action) {
    match a
    case Produce(_) => true
    case LoopStep => true
    case Deliver(_) => s.hasPayload
    case _ => false
  }

  /** No step of either thread touches a block that was freed. */
  lemma BlockIsAlive(n: nat, hasPayload: bool, acts: seq<Action>, a: Action)
    requires n > 0 && IsRun(Start(n, hasPayload), acts)
    requires Enabled(After(Start(n, hasPayload), acts), a) && Touches(After(Start(n, hasPayload), acts), a)
    ensures After(Start(n, hasPayload), acts).blockFrees == 0
  {
    StartIsInv(n, hasPayload);
    RunKeepsInv(Start(n, hasPayload), acts);
    TouchedIsHeld(After(Start(n, hasPayload), acts), a);
  }

  lemma TouchedIsHeld(s: State, a: Action)
    requires Inv(s) && Enabled(s, a) && Touches(s, a)
    ensures s.count > 0 && s.blockFrees == 0
  {
    match a
    case Produce(_) => assert s.msgs[s.pc.next] == Pending; CountIn(s.msgs, Pending);
    case LoopStep => CountIn(s.msgs, Rejected);
    case Deliver(k) => assert s.msgs[k] in s.msgs; CountIn(s.msgs, Accepted);
  }

  /** The producer has returned and every accepted message was reported. */
  ghost predicate Complete(s: State) {
    s.pc.Returned? && Accepted !in s.msgs
  }

  /**
   A complete run frees the block exactly once, except in one case: no payload buffer was set and
   librdkafka refused every message. Then the failure loop frees it and the array frees it again.
   */
  lemma FreedExactlyOnce(n: nat, hasPayload: bool, acts: seq<Action>)
    requires n > 0 && IsRun(Start(n, hasPayload), acts)
    requires Complete(After(Start(n, hasPayload), acts))
    ensures var s := After(Start(n, hasPayload), acts);
            && s.payloadFrees == (if hasPayload then 1 else 0)
            && s.blockFrees > 0
            && (s.blockFrees == 1 <==> hasPayload || Delivered in s.msgs)
  {
    StartIsInv(n, hasPayload);
    RunKeepsInv(Start(n, hasPayload), acts);
    var s := After(Start(n, hasPayload), acts);
    CountIn(s.msgs, Pending);
    CountIn(s.msgs, Accepted);
    CountIn(s.msgs, Rejected);
    CountIn(s.msgs, Delivered);
  }

  /** Without payload, a batch of one refused message has its block freed twice. */
  lemma RefusedWithoutPayload()
    ensures var acts := [Produce(false), ProduceDone, LoopStep, LoopDone];
            var s := Start(1, false);
            IsRun(s, acts) && After(s, acts).blockFrees == 2
  {
    var s := Start(1, false);
    var s1 := Step(s, Produce(false));
    assert s1.msgs == [Rejected];
    CountIn(s1.msgs, Rejected);
    var s2 := Step(s1, ProduceDone);
    assert s2.pc == FailureLoop(0, 0);
    var s3 := Step(s2, LoopStep);
    var s4 := Step(s3, LoopDone);
    assert [LoopDone][1..] == [] && [LoopStep, LoopDone][1..] == [LoopDone];
    assert [ProduceDone, LoopStep, LoopDone][1..] == [LoopStep, LoopDone];
    assert [Produce(false), ProduceDone, LoopStep, LoopDone][1..] == [ProduceDone, LoopStep, LoopDone];
    assert IsRun(s3, [LoopDone]) && After(s3, [LoopDone]) == s4;
    assert IsRun(s2, [LoopStep, LoopDone]) && After(s2, [LoopStep, LoopDone]) == s4;
    assert IsRun(s1, [ProduceDone, LoopStep, LoopDone]) && After(s1, [ProduceDone, LoopStep, LoopDone]) == s4;
  }

  /**
   kafka_message_array_produce answers with the size of the batch, whatever happened to it. That is
   the number of messages queued, which its header promises, exactly when none was refused.
   */
  lemma ReturnsBatchSize(n: nat, hasPayload: bool, acts: seq<Action>)
    requires n > 0 && IsRun(Start(n, hasPayload), acts)
    requires After(Start(n, hasPayload), acts).pc.Returned?
    ensures var s := After(Start(n, hasPayload), acts);
            && s.pc.result == n
            && (s.pc.result == n - Count(s.msgs, Dropped) <==> Dropped !in s.msgs)
  {
    StartIsInv(n, hasPayload);
    RunKeepsInv(Start(n, hasPayload), acts);
    CountIn(After(Start(n, hasPayload), acts).msgs, Dropped);
  }

  /** The same with a payload: the answer is 1 and nothing was queued. */
  lemma RefusedBatchReturnsOne()
    ensures var acts := [Produce(false), ProduceDone, LoopStep, LoopDone];
            var s := Start(1, true);
            && IsRun(s, acts)
            && After(s, acts).pc == Returned(1) && After(s, acts).msgs == [Dropped]
  {
    var s := Start(1, true);
    var s1 := Step(s, Produce(false));
    assert s1.msgs == [Rejected];
    CountIn(s1.msgs, Rejected);
    var s2 := Step(s1, ProduceDone);
    assert s2.pc == FailureLoop(0, 0);
    var s3 := Step(s2, LoopStep);
    var s4 := Step(s3, LoopDone);
    assert [LoopDone][1..] == [] && [LoopStep, LoopDone][1..] == [LoopDone];
    assert [ProduceDone, LoopStep, LoopDone][1..] == [LoopStep, LoopDone];
    assert [Produce(false), ProduceDone, LoopStep, LoopDone][1..] == [ProduceDone, LoopStep, LoopDone];
    assert IsRun(s3, [LoopDone]) && After(s3, [LoopDone]) == s4;
    assert IsRun(s2, [LoopStep, LoopDone]) && After(s2, [LoopStep, LoopDone]) == s4;
    assert IsRun(s1, [ProduceDone, LoopStep, LoopDone]) && After(s1, [ProduceDone, LoopStep, LoopDone]) == s4;
  }

  // ---------------------------------------------------------------------
  // librdkafka, as a session sees it
  // ---------------------------------------------------------------------

  /**
   All that librdkafka may decide, by the number of the buffer concerned: `takes` says whether it
   accepts the single message in that buffer; `runs` is how a produce call for a batch of n messages
   in that buffer goes, with the delivery reports that fall inside the call.
   */
  datatype Kafka = Kafka(takes: int -> bool, runs: (int, nat) -> seq<Action>)

  ghost predicate Returns(kf: Kafka, buffer: int, n: nat) {
    && IsRun(Start(n, true), kf.runs(buffer, n))
    && After(Start(n, true), kf.runs(buffer, n)).pc.Returned?
  }

  /** The contract of librdkafka: every produce call is a run that returns. */
  ghost predicate Contract(kf: Kafka) {
    forall buffer: int, n: nat :: n > 0 ==> Returns(kf, buffer, n)
  }

  /** The batch in a buffer when its produce call returns. */
  function Launched(kf: Kafka, buffer: int, n: nat): (s: State)
    requires n > 0 && Contract(kf)
  {
    assert Returns(kf, buffer, n);
    After(Start(n, true), kf.runs(buffer, n))
  }

  lemma LaunchedIsInv(kf: Kafka, buffer: int, n: nat)
    requires n > 0 && Contract(kf)
    ensures var s := Launched(kf, buffer, n);
            Inv(s) && s.hasPayload && s.pc == Returned(n) && |s.msgs| == n
  {
    assert Returns(kf, buffer, n);
    StartIsInv(n, true);
    RunKeepsInv(Start(n, true), kf.runs(buffer, n));
  }

  /** A run that takes every message from message `next` on. */
  function TakeAll(left: nat): seq<Action> {
    if left == 0 then [ProduceDone] else [Produce(true)] + TakeAll(left - 1)
  }

  lemma {:induction false} TakeAllReturns(s: State, left: nat)
    requires Inv(s) && s.pc.Producing? && left == |s.msgs| - s.pc.next && Rejected !in s.msgs
    ensures IsRun(s, TakeAll(left)) && After(s, TakeAll(left)).pc.Returned?
    decreases left
  {
    if left == 0 {
      CountIn(s.msgs, Rejected);
      assert [ProduceDone][1..] == [];
    } else {
      var r := Step(s, Produce(true));
      StepKeepsInv(s, Produce(true));
      TakeAllReturns(r, left - 1);
      assert TakeAll(left)[1..] == TakeAll(left - 1);
    }
  }

  /** The contract asked of librdkafka can be met. */
  lemma ObligingKafkaMeetsContract()
    ensures Contract(Kafka(_ => true, (_, n: nat) => TakeAll(n)))
  {
    var kf := Kafka(_ => true, (_, n: nat) => TakeAll(n));
    forall buffer: int, n: nat | n > 0
      ensures Returns(kf, buffer, n)
    {
      StartIsInv(n, true);
      TakeAllReturns(Start(n, true), n);
    }
  }
}
