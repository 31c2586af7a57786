/**
 The chunk-wise splitter as a function on values: callbacks, one chunk, and any
 number of chunks. The main results relate it to `JsonStream`, which knows
 nothing about chunks.
 */
module JsonSplitter {
  import opened DecoderApi
  import opened JsonStream
  import Batch

  const NULL := -1

  type Kafka = Batch.Kafka

  /** A produce call for the single message `text` in a buffer, and whether librdkafka took it. */
  datatype Attempt = Attempt(buffer: int, text: string, taken: bool)

  /** One JSON session. Buffers are numbered as they are allocated, from 0 to nextBuf - 1. */
  datatype State = State(
    fed: string,              // yajl: the bytes it accepted
    refused: bool,            // yajl: in its error state
    stackPos: int,
    lastOpenMap: int,         // offset inside the chunk, or NULL
    lastObject: string,       // the carried-over prefix
    msgs: seq<Slice>,         // queued for the batch of this decode call
    produced: seq<string>,    // messages given to librdkafka, in order
    attempts: seq<Attempt>,   // history: the produce calls for a single message, with their answer
    nextBuf: int,
    carryBuf: int,            // the buffer behind lastObject, or NULL
    released: multiset<int>,  // freed by the session
    lent: multiset<int>,      // given to librdkafka with a single message, to free after its report
    batches: map<int, seq<string>>)  // shared by the messages of a batch, for the last of them to free

  const FRESH := State([], false, 0, NULL, [], [], [], [], 0, NULL, multiset{}, multiset{}, map[])

  // ---------------------------------------------------------------------
  // Callbacks. `consumed` is yajl_get_bytes_consumed, relative to the chunk.
  // ---------------------------------------------------------------------

  /** zz_parse_start_json_map */
  function OnOpen(p: State, consumed: int): State {
    p.(stackPos := p.stackPos + 1,
       lastOpenMap := if p.stackPos == 0 then consumed - 1 else p.lastOpenMap)
  }

  /** string_done(&last_object); librdkafka has the buffer of a message that it took. */
  function DropCarry(p: State): State {
    if p.carryBuf == NULL then p.(lastObject := [])
    else p.(lastObject := [], carryBuf := NULL, released := p.released + multiset{p.carryBuf})
  }

  /** librdkafka took the message in the carried-over buffer. */
  function Lend(p: State): State {
    p.(carryBuf := NULL, lent := p.lent + multiset{p.carryBuf})
  }

  /** rd_kafka_produce_batch for the carried-over object, completed by `text`. */
  function ProduceSingle(kf: Kafka, p: State, text: string): State {
    var all := p.lastObject + text;
    p.(lastObject := all, produced := p.produced + [all],
       attempts := p.attempts + [Attempt(p.carryBuf, all, kf.takes(p.carryBuf))])
  }

  /** zz_parse_end_json_map_split: the carried object, with the chunk up to here, leaves at once. */
  function SendCarry(kf: Kafka, p: State, text: string): State {
    var q := ProduceSingle(kf, p, text);
    DropCarry(if kf.takes(p.carryBuf) then Lend(q) else q)
  }

  /** zz_parse_end_json_map0: any other object joins the batch. */
  function QueueWhole(p: State, consumed: int): State {
    p.(msgs := p.msgs + [Slice(p.lastOpenMap, consumed - p.lastOpenMap)], lastOpenMap := NULL)
  }

  /** zz_parse_end_json_map */
  function OnClose(kf: Kafka, p: State, chunk: string, consumed: int): State
    requires 0 <= consumed <= |chunk|
  {
    var q := p.(stackPos := p.stackPos - 1);
    if q.stackPos != 0 then q
    else if |q.lastObject| > 0 then SendCarry(kf, q, chunk[..consumed])
    else QueueWhole(q, consumed)
  }

  /** Byte `i` of the chunk reaches yajl. */
  function OnByte(y: Yajl, kf: Kafka, p: State, chunk: string, i: nat): State
    requires i < |chunk|
  {
    var q := p.(fed := p.fed + [chunk[i]]);
    match y(q.fed)
    case Open => OnOpen(q, i + 1)
    case Close => OnClose(kf, q, chunk, i + 1)
    case Quiet => q
    case Fail => p.(refused := true)
  }

  /** yajl_parse from byte `i` of the chunk on. */
  function Parse(y: Yajl, kf: Kafka, p: State, chunk: string, i: nat): State
    requires i <= |chunk|
    decreases |chunk| - i
  {
    if i == |chunk| || p.refused then p else Parse(y, kf, OnByte(y, kf, p, chunk, i), chunk, i + 1)
  }

  // ---------------------------------------------------------------------
  // One chunk
  // ---------------------------------------------------------------------

  predicate Inside(b: string, m: Slice) {
    0 <= m.off <= m.off + m.len <= |b|
  }

  /** The payloads that the queued slices name. */
  function Cut(b: string, ms: seq<Slice>): seq<string> {
    if ms == [] then []
    else
      var m := ms[|ms| - 1];
      Cut(b, ms[..|ms| - 1]) + [if Inside(b, m) then b[m.off..m.off + m.len] else []]
  }

  /** string_append(&last_object, data); the first bytes allocate its buffer. */
  function Carry(p: State, data: string): State {
    if p.carryBuf == NULL && data != [] then
      p.(lastObject := p.lastObject + data, carryBuf := p.nextBuf, nextBuf := p.nextBuf + 1)
    else
      p.(lastObject := p.lastObject + data)
  }

  /** Keep the object that the chunk leaves open. */
  function SaveOpenObject(p: State, chunk: string): State {
    if 0 <= p.lastOpenMap <= |chunk| then Carry(p, chunk[p.lastOpenMap..])
    else if |p.lastObject| != 0 then Carry(p, chunk)
    else p
  }

  /** free(buffer): no message points into the copy. */
  function FreeCopy(p: State, copy: int): State {
    p.(released := p.released + multiset{copy})
  }

  /** kafka_message_array_produce: the copy is the payload buffer of a batch. */
  function ProduceBatch(p: State, chunk: string, copy: int): State {
    p.(produced := p.produced + Cut(chunk, p.msgs), msgs := [], batches := p.batches[copy := Cut(chunk, p.msgs)])
  }

  /** The end of process_json_buffer, and the produce call. */
  function Dispatch(p: State, chunk: string, copy: int): State {
    var q := p.(lastOpenMap := NULL);
    if q.msgs == [] then FreeCopy(q, copy) else ProduceBatch(q, chunk, copy)
  }

  /** Without error, the open object is saved. */
  function Saved(q: State, chunk: string): State {
    if q.refused then q else SaveOpenObject(q, chunk)
  }

  /** process_json_buffer up to its `err` label, on a copied chunk. */
  function Absorb(y: Yajl, kf: Kafka, p: State, chunk: string): State {
    Saved(Parse(y, kf, p.(nextBuf := p.nextBuf + 1), chunk, 0), chunk)
  }

  /** zz_decode on a copied, nonempty chunk. */
  function Decode(y: Yajl, kf: Kafka, p: State, chunk: string): State {
    Dispatch(Absorb(y, kf, p, chunk), chunk, p.nextBuf)
  }

  // ---------------------------------------------------------------------
  // Invariants
  // ---------------------------------------------------------------------

  /** The unfinished object at the end of a stream. */
  ghost function Unfinished(y: Yajl, s: string): string
    requires Contract(y)
  {
    if Depth(y, s) > 0 then s[OpenPos(y, s)..] else []
  }

  /** The places where a buffer can be once the session has no use for it. */
  function Left(p: State, id: int): nat {
    p.released[id] + p.lent[id] + if id in p.batches then 1 else 0
  }

  /** Every buffer allocated so far left the session exactly once, except `carryBuf` and `copy`. */
  ghost predicate Ledger(p: State, copy: int) {
    && NULL <= p.carryBuf < p.nextBuf
    && (p.carryBuf == NULL <==> p.lastObject == [])
    && (p.carryBuf != NULL ==> p.carryBuf != copy)
    && (forall id :: id in p.batches ==> p.batches[id] != [])
    && forall id :: Left(p, id) == if 0 <= id < p.nextBuf && id != p.carryBuf && id != copy then 1 else 0
  }

  /** The open object began in this chunk, or it is the carried one and nothing was queued yet. */
  ghost predicate OpenObject(y: Yajl, p: State, f0: string, s: string)
    requires Contract(y)
  {
    if Depth(y, s) <= 0 then
      p.lastObject == [] && p.lastOpenMap == NULL
    else if p.lastOpenMap != NULL then
      p.lastObject == [] && 0 <= p.lastOpenMap && OpenPos(y, s) == |f0| + p.lastOpenMap
    else
      p.msgs == [] && OpenPos(y, s) < |f0| && p.lastObject == f0[OpenPos(y, s)..]
  }

  /** Depth and messages agree with the stream; queued slices count as messages. */
  ghost predicate Sound(y: Yajl, p: State, chunk: string)
    requires Contract(y)
  {
    && Accepted(y, p.fed)
    && p.stackPos == Depth(y, p.fed)
    && p.produced + Cut(chunk, p.msgs) == Messages(y, p.fed)
  }

  /** `i` bytes into the chunk; `f0` is what yajl held before the chunk. */
  ghost predicate InChunk(y: Yajl, p: State, f0: string, chunk: string, i: int)
    requires Contract(y)
  {
    && 0 <= i <= |chunk|
    && p.fed == f0 + chunk[..i]
    && Sound(y, p, chunk)
    && OpenObject(y, p, f0, p.fed)
  }

  /** Between two decode calls: what was produced and what is carried over depend on the stream alone. */
  ghost predicate Agrees(y: Yajl, p: State, stream: string)
    requires Contract(y)
  {
    && p.fed == GoodPrefix(y, stream)
    && (p.refused <==> !Accepted(y, stream))
    && p.stackPos == Depth(y, p.fed)
    && p.produced == Messages(y, p.fed)
    && p.msgs == [] && p.lastOpenMap == NULL
    && (!p.refused ==> p.lastObject == Unfinished(y, p.fed))
  }

  // ---------------------------------------------------------------------
  // Proofs, callback by callback
  // ---------------------------------------------------------------------

  lemma OpenKeepsInChunk(y: Yajl, kf: Kafka, p: State, f0: string, chunk: string, i: nat)
    requires Contract(y) && i < |chunk| && InChunk(y, p, f0, chunk, i) && y(p.fed + [chunk[i]]) == Open
    ensures InChunk(y, OnByte(y, kf, p, chunk, i), f0, chunk, i + 1)
  {
    assert p.fed + [chunk[i]] == f0 + chunk[..i + 1];
    Extend(y, p.fed, chunk[i]);
    AcceptByte(y, p.fed, chunk[i]);
  }

  lemma QuietKeepsInChunk(y: Yajl, kf: Kafka, p: State, f0: string, chunk: string, i: nat)
    requires Contract(y) && i < |chunk| && InChunk(y, p, f0, chunk, i) && y(p.fed + [chunk[i]]) == Quiet
    ensures InChunk(y, OnByte(y, kf, p, chunk, i), f0, chunk, i + 1)
  {
    assert p.fed + [chunk[i]] == f0 + chunk[..i + 1];
    Extend(y, p.fed, chunk[i]);
    AcceptByte(y, p.fed, chunk[i]);
  }

  /** What a closing byte does to the stream. */
  lemma CloseExtends(y: Yajl, p: State, f0: string, chunk: string, i: nat)
    requires Contract(y) && i < |chunk| && InChunk(y, p, f0, chunk, i) && y(p.fed + [chunk[i]]) == Close
    ensures var next := p.fed + [chunk[i]];
            && next == f0 + chunk[..i + 1]
            && Accepted(y, next)
            && Depth(y, p.fed) > 0
            && Depth(y, next) == Depth(y, p.fed) - 1
            && (Depth(y, next) > 0 ==> OpenPos(y, next) == OpenPos(y, p.fed))
            && Messages(y, next) ==
               Messages(y, p.fed) + if Depth(y, next) == 0 then [next[OpenPos(y, p.fed)..]] else []
  {
    assert Lawful(y, p.fed + [chunk[i]]);
    Extend(y, p.fed, chunk[i]);
    AcceptByte(y, p.fed, chunk[i]);
  }

  /** The object was carried over: it leaves at once, and it is the first to complete in this chunk. */
  lemma CloseCarried(y: Yajl, kf: Kafka, p: State, f0: string, chunk: string, i: nat)
    requires Contract(y) && i < |chunk| && InChunk(y, p, f0, chunk, i) && y(p.fed + [chunk[i]]) == Close
    requires p.stackPos == 1 && |p.lastObject| > 0
    ensures p.msgs == []
    ensures InChunk(y, OnByte(y, kf, p, chunk, i), f0, chunk, i + 1)
  {
    CloseExtends(y, p, f0, chunk, i);
    CarriedObject(y, p, f0, chunk, i, p.fed + [chunk[i]]);
  }

  /** The carried-over prefix and the chunk up to here are the text from the open brace on. */
  lemma CarriedObject(y: Yajl, p: State, f0: string, chunk: string, i: nat, next: string)
    requires Contract(y) && i < |chunk| && next == f0 + chunk[..i + 1] && Depth(y, p.fed) > 0
    requires OpenPos(y, p.fed) < |f0| && p.lastObject == f0[OpenPos(y, p.fed)..]
    ensures p.lastObject + chunk[..i + 1] == next[OpenPos(y, p.fed)..]
  {
  }

  /** The object began in this chunk: its slice joins the batch. */
  lemma CloseWhole(y: Yajl, kf: Kafka, p: State, f0: string, chunk: string, i: nat)
    requires Contract(y) && i < |chunk| && InChunk(y, p, f0, chunk, i) && y(p.fed + [chunk[i]]) == Close
    requires p.stackPos == 1 && |p.lastObject| == 0
    ensures InChunk(y, OnByte(y, kf, p, chunk, i), f0, chunk, i + 1)
  {
    CloseExtends(y, p, f0, chunk, i);
    QueuedInChunk(y, p, OnByte(y, kf, p, chunk, i), f0, chunk, i, p.fed + [chunk[i]]);
  }

  lemma QueuedInChunk(y: Yajl, p: State, q: State, f0: string, chunk: string, i: nat, next: string)
    requires Contract(y) && i < |chunk| && next == f0 + chunk[..i + 1] && Accepted(y, next)
    requires Depth(y, p.fed) > 0 && Depth(y, next) == 0
    requires 0 <= p.lastOpenMap <= i && OpenPos(y, p.fed) == |f0| + p.lastOpenMap && p.lastObject == []
    requires p.produced + Cut(chunk, p.msgs) + [next[OpenPos(y, p.fed)..]] == Messages(y, next)
    requires q == p.(fed := next, stackPos := 0, lastOpenMap := NULL,
                     msgs := p.msgs + [Slice(p.lastOpenMap, i + 1 - p.lastOpenMap)])
    ensures InChunk(y, q, f0, chunk, i + 1)
  {
    SliceOfObject(y, p, f0, chunk, i, next);
    CutAppend(chunk, p.msgs, Slice(p.lastOpenMap, i + 1 - p.lastOpenMap));
    OneMore(p.produced, Cut(chunk, p.msgs), next[OpenPos(y, p.fed)..]);
    assert q.produced + Cut(chunk, q.msgs) == Messages(y, next);
  }

  lemma OneMore(a: seq<string>, b: seq<string>, c: string)
    ensures a + (b + [c]) == a + b + [c]
  {
  }

  /** The queued slice is the text from the open brace on. */
  lemma SliceOfObject(y: Yajl, p: State, f0: string, chunk: string, i: nat, next: string)
    requires Contract(y) && i < |chunk| && next == f0 + chunk[..i + 1] && Depth(y, p.fed) > 0
    requires 0 <= p.lastOpenMap <= i && OpenPos(y, p.fed) == |f0| + p.lastOpenMap
    ensures chunk[p.lastOpenMap..i + 1] == next[OpenPos(y, p.fed)..]
  {
  }

  lemma CutAppend(b: string, ms: seq<Slice>, m: Slice)
    requires Inside(b, m)
    ensures Cut(b, ms + [m]) == Cut(b, ms) + [b[m.off..m.off + m.len]]
  {
    assert (ms + [m])[..|ms + [m]| - 1] == ms;
  }

  lemma CloseKeepsInChunk(y: Yajl, kf: Kafka, p: State, f0: string, chunk: string, i: nat)
    requires Contract(y) && i < |chunk| && InChunk(y, p, f0, chunk, i) && y(p.fed + [chunk[i]]) == Close
    ensures InChunk(y, OnByte(y, kf, p, chunk, i), f0, chunk, i + 1)
  {
    CloseExtends(y, p, f0, chunk, i);
    if p.stackPos == 1 {
      if |p.lastObject| > 0 {
        CloseCarried(y, kf, p, f0, chunk, i);
      } else {
        CloseWhole(y, kf, p, f0, chunk, i);
      }
    }
  }

  /** The carried-over buffer leaves once, whoever frees it. */
  lemma SendKeepsLedger(kf: Kafka, p: State, text: string, copy: int)
    requires Ledger(p, copy) && p.carryBuf != NULL
    ensures Ledger(SendCarry(kf, p, text), copy)
  {
    var q := SendCarry(kf, p, text);
    assert forall id :: Left(q, id) == Left(p, id) + if id == p.carryBuf then 1 else 0;
  }

  /** A step that touches no buffer. */
  lemma LedgerSame(p: State, q: State, copy: int)
    requires Ledger(p, copy) && q.nextBuf == p.nextBuf && q.carryBuf == p.carryBuf && q.lastObject == p.lastObject
    requires q.released == p.released && q.lent == p.lent && q.batches == p.batches
    ensures Ledger(q, copy)
  {
    assert forall id :: Left(q, id) == Left(p, id);
  }

  lemma ByteKeepsLedger(y: Yajl, kf: Kafka, p: State, chunk: string, i: nat, copy: int)
    requires i < |chunk| && Ledger(p, copy)
    ensures Ledger(OnByte(y, kf, p, chunk, i), copy)
  {
    var q := p.(fed := p.fed + [chunk[i]], stackPos := p.stackPos - 1);
    var r := OnByte(y, kf, p, chunk, i);
    if y(q.fed) == Close && q.stackPos == 0 && |q.lastObject| > 0 {
      LedgerSame(p, q, copy);
      SendKeepsLedger(kf, q, chunk[..i + 1], copy);
    } else {
      LedgerSame(p, r, copy);
    }
  }

  lemma ByteKeepsInChunk(y: Yajl, kf: Kafka, p: State, f0: string, chunk: string, i: nat)
    requires Contract(y) && i < |chunk| && InChunk(y, p, f0, chunk, i) && y(p.fed + [chunk[i]]) != Fail
    ensures InChunk(y, OnByte(y, kf, p, chunk, i), f0, chunk, i + 1)
  {
    match y(p.fed + [chunk[i]])
    case Open => OpenKeepsInChunk(y, kf, p, f0, chunk, i);
    case Close => CloseKeepsInChunk(y, kf, p, f0, chunk, i);
    case Quiet => QuietKeepsInChunk(y, kf, p, f0, chunk, i);
  }

  /** yajl_parse: either the whole chunk is in, or the stream is refused at its first bad byte. */
  lemma {:induction false} ParseKeepsInChunk(y: Yajl, kf: Kafka, p: State, f0: string, chunk: string, i: nat)
    requires Contract(y) && i <= |chunk| && InChunk(y, p, f0, chunk, i) && !p.refused
    ensures var r := Parse(y, kf, p, chunk, i);
            && Sound(y, r, chunk)
            && r.fed == GoodPrefix(y, f0 + chunk)
            && (r.refused <==> !Accepted(y, f0 + chunk))
            && (!r.refused ==> InChunk(y, r, f0, chunk, |chunk|))
    decreases |chunk| - i
  {
    if i == |chunk| {
      assert chunk[..i] == chunk;
    } else if y(p.fed + [chunk[i]]) == Fail {
      assert p.fed + ([chunk[i]] + chunk[i + 1..]) == f0 + chunk;
      StopsAtRefusedByte(y, p.fed, chunk[i], chunk[i + 1..]);
    } else {
      ByteKeepsInChunk(y, kf, p, f0, chunk, i);
      ParseKeepsInChunk(y, kf, OnByte(y, kf, p, chunk, i), f0, chunk, i + 1);
    }
  }

  lemma {:induction false} ParseKeepsLedger(y: Yajl, kf: Kafka, p: State, chunk: string, i: nat, copy: int)
    requires i <= |chunk| && Ledger(p, copy)
    ensures Ledger(Parse(y, kf, p, chunk, i), copy) && Parse(y, kf, p, chunk, i).nextBuf == p.nextBuf
    decreases |chunk| - i
  {
    if i < |chunk| && !p.refused {
      ByteKeepsLedger(y, kf, p, chunk, i, copy);
      ParseKeepsLedger(y, kf, OnByte(y, kf, p, chunk, i), chunk, i + 1, copy);
    }
  }

  /** The carried-over prefix is the stream from the open brace on. */
  lemma SaveKeepsUnfinished(y: Yajl, p: State, f0: string, chunk: string)
    requires Contract(y) && InChunk(y, p, f0, chunk, |chunk|)
    ensures SaveOpenObject(p, chunk).lastObject == Unfinished(y, p.fed)
  {
    assert chunk[..|chunk|] == chunk;
    if Depth(y, p.fed) > 0 {
      var at := OpenPos(y, p.fed);
      if p.lastOpenMap != NULL {
        assert p.fed[at..] == chunk[p.lastOpenMap..];
      } else {
        assert p.fed[at..] == p.lastObject + chunk;
      }
    }
  }

  lemma SaveKeepsLedger(p: State, chunk: string, copy: int)
    requires Ledger(p, copy) && copy == p.nextBuf - 1 && chunk != [] && p.lastOpenMap < |chunk|
    ensures Ledger(SaveOpenObject(p, chunk), copy)
  {
    assert forall id :: Left(SaveOpenObject(p, chunk), id) == Left(p, id);
  }

  /** After a refused byte, later chunks change nothing. */
  lemma DecodeWhenRefused(y: Yajl, kf: Kafka, p: State, stream: string, chunk: string)
    requires Contract(y) && Agrees(y, p, stream) && p.refused
    ensures Agrees(y, Decode(y, kf, p, chunk), stream + chunk)
  {
    RefusedForever(y, stream, chunk);
  }

  lemma ChunkStart(y: Yajl, p: State, stream: string, chunk: string)
    requires Contract(y) && Agrees(y, p, stream) && !p.refused
    ensures p.fed == stream
    ensures InChunk(y, p.(nextBuf := p.nextBuf + 1), stream, chunk, 0)
  {
    assert stream + chunk[..0] == stream;
  }

  /** One decode call. */
  lemma DecodeKeepsAgrees(y: Yajl, kf: Kafka, p: State, stream: string, chunk: string)
    requires Contract(y) && Agrees(y, p, stream) && chunk != []
    ensures Agrees(y, Decode(y, kf, p, chunk), stream + chunk)
  {
    if p.refused {
      DecodeWhenRefused(y, kf, p, stream, chunk);
    } else {
      var p1 := p.(nextBuf := p.nextBuf + 1);
      var q := Parse(y, kf, p1, chunk, 0);
      ChunkIsAbsorbed(y, kf, p, p1, stream, chunk, q);
      DispatchAgrees(y, Saved(q, chunk), chunk, stream + chunk, p.nextBuf);
    }
  }

  /** The chunk is in: messages sent and queued are those of the stream, and the open object is saved. */
  ghost predicate Absorbed(y: Yajl, q: State, chunk: string, stream: string)
    requires Contract(y)
  {
    && Sound(y, q, chunk)
    && q.fed == GoodPrefix(y, stream)
    && (q.refused <==> !Accepted(y, stream))
    && (!q.refused ==> q.lastObject == Unfinished(y, q.fed))
  }

  lemma ChunkIsAbsorbed(y: Yajl, kf: Kafka, p: State, p1: State, stream: string, chunk: string, q: State)
    requires Contract(y) && Agrees(y, p, stream) && !p.refused
    requires p1 == p.(nextBuf := p.nextBuf + 1) && q == Parse(y, kf, p1, chunk, 0)
    ensures Absorbed(y, Saved(q, chunk), chunk, stream + chunk)
  {
    ChunkStart(y, p, stream, chunk);
    ParsedIsAbsorbed(y, kf, p1, stream, chunk, q);
  }

  lemma ParsedIsAbsorbed(y: Yajl, kf: Kafka, p: State, f0: string, chunk: string, q: State)
    requires Contract(y) && InChunk(y, p, f0, chunk, 0) && !p.refused && q == Parse(y, kf, p, chunk, 0)
    ensures Absorbed(y, Saved(q, chunk), chunk, f0 + chunk)
  {
    ParseKeepsInChunk(y, kf, p, f0, chunk, 0);
    SavedIsAbsorbed(y, q, f0, chunk, f0 + chunk);
  }

  lemma SavedIsAbsorbed(y: Yajl, q: State, f0: string, chunk: string, stream: string)
    requires Contract(y) && Sound(y, q, chunk) && q.fed == GoodPrefix(y, stream) && (q.refused <==> !Accepted(y, stream))
    requires !q.refused ==> InChunk(y, q, f0, chunk, |chunk|)
    ensures Absorbed(y, Saved(q, chunk), chunk, stream)
  {
    if !q.refused {
      SaveKeepsUnfinished(y, q, f0, chunk);
      SaveShows(q, chunk);
    }
  }

  /** Once the messages are dispatched, the session agrees with the stream. */
  lemma DispatchAgrees(y: Yajl, q: State, chunk: string, stream: string, copy: int)
    requires Contract(y) && Absorbed(y, q, chunk, stream)
    ensures Agrees(y, Dispatch(q, chunk, copy), stream)
  {
    DispatchShows(q, chunk, copy);
  }

  lemma SaveShows(p: State, chunk: string)
    ensures var q := SaveOpenObject(p, chunk);
            && q.fed == p.fed && q.refused == p.refused && q.stackPos == p.stackPos
            && q.produced == p.produced && q.msgs == p.msgs
  {
  }

  lemma DispatchShows(p: State, chunk: string, copy: int)
    ensures var q := Dispatch(p, chunk, copy);
            && q.produced == p.produced + Cut(chunk, p.msgs) && q.msgs == [] && q.lastOpenMap == NULL
            && q.fed == p.fed && q.refused == p.refused && q.stackPos == p.stackPos && q.lastObject == p.lastObject
  {
  }

  /** The copy leaves: it is freed, or it is the buffer of a batch. */
  lemma DispatchKeepsLedger(p: State, chunk: string, q: State, copy: int)
    requires Ledger(p, copy) && 0 <= copy < p.nextBuf && q == Dispatch(p, chunk, copy)
    ensures Ledger(q, NULL)
  {
    assert Left(p, copy) == 0;
    assert forall id :: Left(q, id) == Left(p, id) + if id == copy then 1 else 0;
  }

  lemma AllocateCopy(p: State, q: State)
    requires Ledger(p, NULL) && q == p.(nextBuf := p.nextBuf + 1)
    ensures Ledger(q, p.nextBuf)
  {
    forall id: int
      ensures Left(q, id) == if 0 <= id < q.nextBuf && id != q.carryBuf && id != p.nextBuf then 1 else 0
    {
      assert Left(q, id) == Left(p, id);
    }
  }

  lemma {:induction false} ParseKeepsOffset(y: Yajl, kf: Kafka, p: State, chunk: string, i: nat)
    requires i <= |chunk| && p.lastOpenMap < |chunk|
    ensures Parse(y, kf, p, chunk, i).lastOpenMap < |chunk|
    decreases |chunk| - i
  {
    if i < |chunk| && !p.refused {
      ParseKeepsOffset(y, kf, OnByte(y, kf, p, chunk, i), chunk, i + 1);
    }
  }

  lemma AbsorbKeepsLedger(y: Yajl, kf: Kafka, p: State, p1: State, chunk: string, q: State)
    requires Ledger(p, NULL) && p.lastOpenMap == NULL && chunk != []
    requires p1 == p.(nextBuf := p.nextBuf + 1) && q == Parse(y, kf, p1, chunk, 0)
    ensures Ledger(Saved(q, chunk), p.nextBuf) && p.nextBuf < Saved(q, chunk).nextBuf
  {
    AllocateCopy(p, p1);
    ParseKeepsBooks(y, kf, p1, chunk, q, p.nextBuf);
    SavedKeepsLedger(q, chunk, p.nextBuf);
  }

  lemma ParseKeepsBooks(y: Yajl, kf: Kafka, p: State, chunk: string, q: State, copy: int)
    requires Ledger(p, copy) && p.lastOpenMap < |chunk| && q == Parse(y, kf, p, chunk, 0)
    ensures Ledger(q, copy) && q.nextBuf == p.nextBuf && q.lastOpenMap < |chunk|
  {
    ParseKeepsLedger(y, kf, p, chunk, 0, copy);
    ParseKeepsOffset(y, kf, p, chunk, 0);
  }

  lemma SavedKeepsLedger(q: State, chunk: string, copy: int)
    requires Ledger(q, copy) && copy == q.nextBuf - 1 && chunk != [] && q.lastOpenMap < |chunk|
    ensures Ledger(Saved(q, chunk), copy) && copy < Saved(q, chunk).nextBuf
  {
    if !q.refused {
      SaveKeepsLedger(q, chunk, copy);
    }
  }

  lemma DecodeKeepsLedger(y: Yajl, kf: Kafka, p: State, chunk: string)
    requires Ledger(p, NULL) && p.lastOpenMap == NULL && chunk != []
    ensures Ledger(Decode(y, kf, p, chunk), NULL)
  {
    var p1 := p.(nextBuf := p.nextBuf + 1);
    var q := Parse(y, kf, p1, chunk, 0);
    AbsorbKeepsLedger(y, kf, p, p1, chunk, q);
    DispatchKeepsLedger(Saved(q, chunk), chunk, Dispatch(Saved(q, chunk), chunk, p.nextBuf), p.nextBuf);
  }

  lemma {:induction false} ParseKeepsBatches(y: Yajl, kf: Kafka, p: State, chunk: string, i: nat)
    requires i <= |chunk|
    ensures Parse(y, kf, p, chunk, i).batches == p.batches && p.lent <= Parse(y, kf, p, chunk, i).lent
    decreases |chunk| - i
  {
    if i < |chunk| && !p.refused {
      ParseKeepsBatches(y, kf, OnByte(y, kf, p, chunk, i), chunk, i + 1);
    }
  }

  lemma SaveKeepsBatches(p: State, chunk: string)
    ensures var q := SaveOpenObject(p, chunk);
            q.batches == p.batches && q.lent == p.lent && q.msgs == p.msgs
  {
  }

  /** A decode call starts at most one batch, in the buffer of its copy, and takes back no buffer. */
  lemma DecodeHandsOver(y: Yajl, kf: Kafka, p: State, chunk: string)
    ensures p.lent <= Decode(y, kf, p, chunk).lent
    ensures var batches := Decode(y, kf, p, chunk).batches;
            || batches == p.batches
            || (p.nextBuf in batches && batches[p.nextBuf] != [] && batches == p.batches[p.nextBuf := batches[p.nextBuf]])
  {
    var p1 := p.(nextBuf := p.nextBuf + 1);
    var q := Parse(y, kf, p1, chunk, 0);
    ParseKeepsBatches(y, kf, p1, chunk, 0);
    SaveKeepsBatches(q, chunk);
    DispatchHandsOver(Saved(q, chunk), chunk, p.nextBuf);
  }

  lemma DispatchHandsOver(p: State, chunk: string, copy: int)
    ensures Dispatch(p, chunk, copy).lent == p.lent
    ensures Dispatch(p, chunk, copy).batches == if p.msgs == [] then p.batches else p.batches[copy := Cut(chunk, p.msgs)]
  {
  }

  // ---------------------------------------------------------------------
  // Any number of chunks
  // ---------------------------------------------------------------------

  function Flatten(chunks: seq<string>): string {
    if chunks == [] then [] else Flatten(chunks[..|chunks| - 1]) + chunks[|chunks| - 1]
  }

  /** A session that decodes the chunks one after the other. */
  function Feed(y: Yajl, kf: Kafka, chunks: seq<string>): State {
    if chunks == [] then FRESH
    else Decode(y, kf, Feed(y, kf, chunks[..|chunks| - 1]), chunks[|chunks| - 1])
  }

  ghost predicate Chunks(chunks: seq<string>) {
    forall k :: 0 <= k < |chunks| ==> chunks[k] != []
  }

  /** After any run, a session agrees with the bytes it was given, however they were cut. */
  lemma {:induction false} FeedAgrees(y: Yajl, kf: Kafka, chunks: seq<string>)
    requires Contract(y) && Chunks(chunks)
    ensures Agrees(y, Feed(y, kf, chunks), Flatten(chunks))
    ensures Ledger(Feed(y, kf, chunks), NULL)
  {
    if chunks != [] {
      var before := chunks[..|chunks| - 1];
      FeedAgrees(y, kf, before);
      DecodeKeepsAgrees(y, kf, Feed(y, kf, before), Flatten(before), chunks[|chunks| - 1]);
      DecodeKeepsLedger(y, kf, Feed(y, kf, before), chunks[|chunks| - 1]);
    }
  }

  /**
   Two cuttings of the same bytes give the same messages, in the same order, and the same carry-over,
   whatever librdkafka does in either run.
   */
  lemma ChunkInvariance(y: Yajl, kf: Kafka, kf': Kafka, a: seq<string>, b: seq<string>)
    requires Contract(y) && Chunks(a) && Chunks(b) && Flatten(a) == Flatten(b)
    ensures Feed(y, kf, a).produced == Feed(y, kf', b).produced == Messages(y, GoodPrefix(y, Flatten(a)))
    ensures Feed(y, kf, a).refused == Feed(y, kf', b).refused
    ensures !Feed(y, kf, a).refused ==> Feed(y, kf, a).lastObject == Feed(y, kf', b).lastObject
  {
    FeedAgrees(y, kf, a);
    FeedAgrees(y, kf', b);
  }

  /** Between chunks something is carried over exactly when a map is open, and it is the stream from its brace on. */
  lemma CarriedIsTheOpenObject(y: Yajl, kf: Kafka, chunks: seq<string>)
    requires Contract(y) && Chunks(chunks) && Accepted(y, Flatten(chunks))
    ensures var p, s := Feed(y, kf, chunks), Flatten(chunks);
            && p.stackPos == Depth(y, s)
            && (p.lastObject != [] <==> p.stackPos > 0)
            && (Depth(y, s) > 0 ==> p.lastObject == s[OpenPos(y, s)..])
  {
    FeedAgrees(y, kf, chunks);
  }
}
