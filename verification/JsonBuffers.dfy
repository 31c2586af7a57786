/**
 The heap buffers of a JSON session, from their allocation to their release. The
 session decodes chunks while librdkafka, on its own thread, reports messages of
 earlier ones: this module is the interleaving of the two.
 */
module JsonBuffers {
  import opened JsonStream
  import S = JsonSplitter
  import Batch
  import A = JsonAttempts

  /** `flights`: the batch of each shared buffer; `gone`: single messages whose buffer librdkafka freed. */
  datatype World = World(session: S.State, over: bool, flights: map<int, Batch.State>, gone: multiset<int>)

  const START := World(S.FRESH, false, map[], multiset{})

  datatype Action =
    | Chunk(data: string)             // zz_decode, with the reports that fall inside it
    | End                             // free_zz_session_json
    | Report(buffer: int, m: nat)     // msg_delivered for message `m` of a batch
    | ReportSingle(buffer: int)       // librdkafka frees a single message

  predicate Enabled(w: World, a: Action) {
    match a
    case Chunk(data) => !w.over && data != []
    case End => !w.over
    case Report(id, m) => id in w.flights && Batch.Enabled(w.flights[id], Batch.Deliver(m))
    case ReportSingle(id) => w.session.lent[id] > w.gone[id]
  }

  /** The batch that a decode call leaves behind, if it queued messages. */
  function Launch(kf: S.Kafka, flights: map<int, Batch.State>, s: S.State, copy: int): map<int, Batch.State>
    requires Batch.Contract(kf)
  {
    if copy in s.batches && s.batches[copy] != []
    then flights[copy := Batch.Launched(kf, copy, |s.batches[copy]|)]
    else flights
  }

  function Step(y: Yajl, kf: S.Kafka, w: World, a: Action): World
    requires Batch.Contract(kf) && Enabled(w, a)
  {
    match a
    case Chunk(data) =>
      var s := S.Decode(y, kf, w.session, data);
      w.(session := s, flights := Launch(kf, w.flights, s, w.session.nextBuf))
    case End => w.(session := S.DropCarry(w.session), over := true)
    case Report(id, m) => w.(flights := w.flights[id := Batch.Step(w.flights[id], Batch.Deliver(m))])
    case ReportSingle(id) => w.(gone := w.gone + multiset{id})
  }

  predicate IsRun(y: Yajl, kf: S.Kafka, w: World, acts: seq<Action>)
    requires Batch.Contract(kf)
    decreases |acts|
  {
    acts != [] ==> Enabled(w, acts[0]) && IsRun(y, kf, Step(y, kf, w, acts[0]), acts[1..])
  }

  function After(y: Yajl, kf: S.Kafka, w: World, acts: seq<Action>): World
    requires Batch.Contract(kf) && IsRun(y, kf, w, acts)
    decreases |acts|
  {
    if acts == [] then w else After(y, kf, Step(y, kf, w, acts[0]), acts[1..])
  }

  /** How often a buffer was freed, by anyone. */
  function Frees(w: World, id: int): nat {
    w.session.released[id] + w.gone[id] + if id in w.flights then w.flights[id].payloadFrees else 0
  }

  /** Somebody still has a use for the buffer. */
  predicate InUse(w: World, id: int) {
    || id == w.session.carryBuf
    || w.session.lent[id] > w.gone[id]
    || (id in w.flights && Batch.Holding(w.flights[id]) > 0)
  }

  // ---------------------------------------------------------------------
  // The invariant
  // ---------------------------------------------------------------------

  ghost predicate SessionOk(s: S.State, over: bool) {
    && S.Ledger(s, S.NULL)
    && s.lastOpenMap == S.NULL && s.msgs == []
    && (over ==> s.carryBuf == S.NULL)
  }

  ghost predicate Flying(b: Batch.State) {
    Batch.Inv(b) && b.hasPayload && b.pc.Returned?
  }

  ghost predicate Inv(w: World) {
    && SessionOk(w.session, w.over)
    && w.flights.Keys == w.session.batches.Keys
    && (forall id :: id in w.flights ==> Flying(w.flights[id]) && |w.flights[id].msgs| == |w.session.batches[id]|)
    && (forall id :: w.gone[id] <= w.session.lent[id])
  }

  /** A batch that flies has its payload freed exactly if no message holds it. */
  lemma FlyingFrees(b: Batch.State)
    requires Flying(b)
    ensures b.payloadFrees == b.blockFrees == if Batch.Holding(b) == 0 then 1 else 0
    ensures !b.usedAfterFree
  {
  }

  lemma ReportKeepsFlying(b: Batch.State, m: nat)
    requires Flying(b) && Batch.Enabled(b, Batch.Deliver(m))
    ensures Flying(Batch.Step(b, Batch.Deliver(m))) && |Batch.Step(b, Batch.Deliver(m)).msgs| == |b.msgs|
  {
    Batch.StepKeepsInv(b, Batch.Deliver(m));
  }

  lemma DecodeBatches(y: Yajl, kf: S.Kafka, s: S.State, data: string)
    requires SessionOk(s, false) && data != []
    ensures var r := S.Decode(y, kf, s, data);
            && SessionOk(r, false)
            && r.batches.Keys - {s.nextBuf} == s.batches.Keys
            && (forall id :: id in s.batches ==> r.batches[id] == s.batches[id])
            && (s.nextBuf in r.batches ==> r.batches[s.nextBuf] != [])
            && forall id :: s.lent[id] <= r.lent[id]
  {
    S.DecodeKeepsLedger(y, kf, s, data);
    S.DecodeHandsOver(y, kf, s, data);
    assert S.Left(s, s.nextBuf) == 0;
  }

  lemma ChunkKeepsInv(y: Yajl, kf: S.Kafka, w: World, data: string)
    requires Batch.Contract(kf) && Inv(w) && Enabled(w, Chunk(data))
    ensures Inv(Step(y, kf, w, Chunk(data)))
  {
    var s, copy := w.session, w.session.nextBuf;
    DecodeBatches(y, kf, s, data);
    var r := S.Decode(y, kf, s, data);
    if copy in r.batches {
      Batch.LaunchedIsInv(kf, copy, |r.batches[copy]|);
    }
  }

  lemma EndKeepsInv(y: Yajl, kf: S.Kafka, w: World)
    requires Batch.Contract(kf) && Inv(w) && Enabled(w, End)
    ensures Inv(Step(y, kf, w, End))
  {
    var s, r := w.session, S.DropCarry(w.session);
    assert forall id :: S.Left(r, id) == S.Left(s, id) + if id == s.carryBuf != S.NULL then 1 else 0;
  }

  lemma ReportKeepsInv(y: Yajl, kf: S.Kafka, w: World, id: int, m: nat)
    requires Batch.Contract(kf) && Inv(w) && Enabled(w, Report(id, m))
    ensures Inv(Step(y, kf, w, Report(id, m)))
  {
    ReportKeepsFlying(w.flights[id], m);
  }

  lemma ReportSingleKeepsInv(y: Yajl, kf: S.Kafka, w: World, id: int)
    requires Batch.Contract(kf) && Inv(w) && Enabled(w, ReportSingle(id))
    ensures Inv(Step(y, kf, w, ReportSingle(id)))
  {
  }

  lemma StepKeepsInv(y: Yajl, kf: S.Kafka, w: World, a: Action)
    requires Batch.Contract(kf) && Inv(w) && Enabled(w, a)
    ensures Inv(Step(y, kf, w, a))
  {
    match a
    case Chunk(data) => ChunkKeepsInv(y, kf, w, data);
    case End => EndKeepsInv(y, kf, w);
    case Report(id, m) => ReportKeepsInv(y, kf, w, id, m);
    case ReportSingle(id) => ReportSingleKeepsInv(y, kf, w, id);
  }

  lemma {:induction false} RunKeepsInv(y: Yajl, kf: S.Kafka, w: World, acts: seq<Action>)
    requires Batch.Contract(kf) && Inv(w) && IsRun(y, kf, w, acts)
    ensures Inv(After(y, kf, w, acts))
    decreases |acts|
  {
    if acts != [] {
      StepKeepsInv(y, kf, w, acts[0]);
      RunKeepsInv(y, kf, Step(y, kf, w, acts[0]), acts[1..]);
    }
  }

  // ---------------------------------------------------------------------
  // Every interleaving
  // ---------------------------------------------------------------------

  /** A buffer was freed once if it was allocated and nobody uses it any more, and not at all otherwise. */
  ghost predicate FreedWhenDone(w: World, id: int) {
    Frees(w, id) == if 0 <= id < w.session.nextBuf && !InUse(w, id) then 1 else 0
  }

  lemma InvFreed(w: World, id: int)
    requires Inv(w)
    ensures FreedWhenDone(w, id)
  {
    var s := w.session;
    assert S.Left(s, id) == if 0 <= id < s.nextBuf && id != s.carryBuf then 1 else 0;
    if id in w.flights {
      FlyingFrees(w.flights[id]);
    }
  }

  /**
   At every point of every interleaving of chunks and reports, a buffer has been freed exactly once if
   its last user is done with it, by the session, by librdkafka or by the last message of its batch,
   and never otherwise; and no batch touched its block after that was freed.
   */
  lemma EveryInterleaving(y: Yajl, kf: S.Kafka, acts: seq<Action>)
    requires Batch.Contract(kf) && IsRun(y, kf, START, acts)
    ensures var w := After(y, kf, START, acts);
            && (forall id :: FreedWhenDone(w, id))
            && w.flights.Keys == w.session.batches.Keys
            && (forall id :: id in w.flights ==>
                  !w.flights[id].usedAfterFree && |w.flights[id].msgs| == |w.session.batches[id]|)
  {
    RunKeepsInv(y, kf, START, acts);
    var w := After(y, kf, START, acts);
    forall id
      ensures FreedWhenDone(w, id)
    {
      InvFreed(w, id);
    }
  }

  /** The session has ended and every message was reported. */
  ghost predicate Complete(w: World) {
    && w.over
    && (forall id :: w.gone[id] == w.session.lent[id])
    && (forall id :: id in w.flights ==> Batch.Complete(w.flights[id]))
  }

  lemma CompleteHoldsNothing(b: Batch.State)
    requires Flying(b) && Batch.Complete(b)
    ensures Batch.Holding(b) == 0
  {
    Batch.CountIn(b.msgs, Batch.Pending);
    Batch.CountIn(b.msgs, Batch.Accepted);
    Batch.CountIn(b.msgs, Batch.Rejected);
  }

  /** Over a whole session every buffer is freed exactly once, and nothing else is. */
  lemma EveryBufferReleasedOnce(y: Yajl, kf: S.Kafka, acts: seq<Action>)
    requires Batch.Contract(kf) && IsRun(y, kf, START, acts) && Complete(After(y, kf, START, acts))
    ensures var w := After(y, kf, START, acts);
            forall id :: Frees(w, id) == if 0 <= id < w.session.nextBuf then 1 else 0
  {
    RunKeepsInv(y, kf, START, acts);
    var w := After(y, kf, START, acts);
    forall id
      ensures Frees(w, id) == if 0 <= id < w.session.nextBuf then 1 else 0
    {
      InvFreed(w, id);
      if id in w.flights {
        CompleteHoldsNothing(w.flights[id]);
      }
    }
  }

  // ---------------------------------------------------------------------
  // Single messages
  // ---------------------------------------------------------------------

  lemma StepKeepsFates(y: Yajl, kf: S.Kafka, w: World, a: Action)
    requires Batch.Contract(kf) && Inv(w) && Enabled(w, a) && A.Fates(kf, w.session)
    ensures A.Fates(kf, Step(y, kf, w, a).session)
  {
    match a
    case Chunk(data) => A.DecodeKeepsFates(y, kf, w.session, data);
    case End => A.FatesGrow(kf, w.session, S.DropCarry(w.session));
    case _ =>
  }

  lemma {:induction false} RunKeepsFates(y: Yajl, kf: S.Kafka, w: World, acts: seq<Action>)
    requires Batch.Contract(kf) && Inv(w) && IsRun(y, kf, w, acts) && A.Fates(kf, w.session)
    ensures A.Fates(kf, After(y, kf, w, acts).session)
    decreases |acts|
  {
    if acts != [] {
      StepKeepsFates(y, kf, w, acts[0]);
      StepKeepsInv(y, kf, w, acts[0]);
      RunKeepsFates(y, kf, Step(y, kf, w, acts[0]), acts[1..]);
    }
  }

  /** If librdkafka took the message, only its report frees the buffer; otherwise the session did, and nobody else. */
  ghost predicate FreedByOwner(kf: S.Kafka, w: World, a: S.Attempt) {
    && a.taken == kf.takes(a.buffer)
    && (a.taken ==>
          && w.session.lent[a.buffer] == 1 && w.session.released[a.buffer] == 0
          && Frees(w, a.buffer) == w.gone[a.buffer])
    && (!a.taken ==>
          && w.session.lent[a.buffer] == 0 && w.session.released[a.buffer] == 1
          && w.gone[a.buffer] == 0 && Frees(w, a.buffer) == 1)
  }

  lemma AttemptFreedByOwner(kf: S.Kafka, w: World, a: S.Attempt)
    requires Inv(w) && A.Fate(kf, w.session.released, w.session.lent, a)
    ensures FreedByOwner(kf, w, a)
  {
    var s := w.session;
    assert S.Left(s, a.buffer) == if 0 <= a.buffer < s.nextBuf && a.buffer != s.carryBuf then 1 else 0;
  }

  /**
   In every interleaving, for every message that was produced alone: the session gave the buffer away
   exactly if librdkafka took the message, and the one that has it is the one that frees it.
   */
  lemma SingleMessages(y: Yajl, kf: S.Kafka, acts: seq<Action>)
    requires Batch.Contract(kf) && IsRun(y, kf, START, acts)
    ensures var w := After(y, kf, START, acts);
            forall k :: 0 <= k < |w.session.attempts| ==> FreedByOwner(kf, w, w.session.attempts[k])
  {
    RunKeepsInv(y, kf, START, acts);
    RunKeepsFates(y, kf, START, acts);
    var w := After(y, kf, START, acts);
    forall k | 0 <= k < |w.session.attempts|
      ensures FreedByOwner(kf, w, w.session.attempts[k])
    {
      AttemptFreedByOwner(kf, w, w.session.attempts[k]);
    }
  }

  // ---------------------------------------------------------------------
  // Messages of an interleaving
  // ---------------------------------------------------------------------

  /** The bytes that a step gives to the parser. */
  function Bytes(a: Action): string {
    if a.Chunk? then a.data else []
  }

  function AllBytes(acts: seq<Action>): string {
    if acts == [] then [] else Bytes(acts[0]) + AllBytes(acts[1..])
  }

  /** While the session lasts it agrees with the stream; what it produced stays. */
  ghost predicate Tells(y: Yajl, w: World, stream: string)
    requires Contract(y)
  {
    && (!w.over ==> S.Agrees(y, w.session, stream))
    && w.session.produced == Messages(y, GoodPrefix(y, stream))
  }

  lemma StepTells(y: Yajl, kf: S.Kafka, w: World, a: Action, stream: string)
    requires Contract(y) && Batch.Contract(kf) && Enabled(w, a) && Tells(y, w, stream)
    ensures Tells(y, Step(y, kf, w, a), stream + Bytes(a))
  {
    if a.Chunk? {
      S.DecodeKeepsAgrees(y, kf, w.session, stream, a.data);
    } else {
      assert stream + Bytes(a) == stream;
    }
  }

  lemma BytesStep(acts: seq<Action>, stream: string)
    requires acts != []
    ensures stream + AllBytes(acts) == stream + Bytes(acts[0]) + AllBytes(acts[1..])
  {
  }

  lemma {:induction false} RunTells(y: Yajl, kf: S.Kafka, w: World, acts: seq<Action>, stream: string, all: string)
    requires Contract(y) && Batch.Contract(kf) && IsRun(y, kf, w, acts) && Tells(y, w, stream)
    requires all == stream + AllBytes(acts)
    ensures Tells(y, After(y, kf, w, acts), all)
    decreases |acts|
  {
    if acts == [] {
      assert all == stream;
    } else {
      StepTells(y, kf, w, acts[0], stream);
      BytesStep(acts, stream);
      RunTells(y, kf, Step(y, kf, w, acts[0]), acts[1..], stream + Bytes(acts[0]), all);
    }
  }

  /** In every interleaving, what was produced are the messages of the bytes given so far, in order. */
  lemma EveryRunProduces(y: Yajl, kf: S.Kafka, acts: seq<Action>)
    requires Contract(y) && Batch.Contract(kf) && IsRun(y, kf, START, acts)
    ensures After(y, kf, START, acts).session.produced == Messages(y, GoodPrefix(y, AllBytes(acts)))
  {
    RunTells(y, kf, START, acts, [], AllBytes(acts));
  }
}
