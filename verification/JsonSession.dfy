/**
 The JSON session object of the zz_http2k decoder. Each method is the C
 function named in its comment; its effect on the session is the function of
 the same role in `JsonSplitter`.
 */
module JsonSession {
  import opened DecoderApi
  import opened JsonStream
  import Batch
  import S = JsonSplitter

  const NULL := S.NULL

  class Session {
    const yajl: Yajl
    const kafka: S.Kafka

    // yajl_handler
    var fed: string
    var refused: bool

    // zz_json_session
    var stackPos: int
    var inBuffer: string
    var lastOpenMap: int
    var lastObject: string

    // zz_session
    var kafkaMsgs: seq<Slice>

    // what left the session, and the heap buffers
    var produced: seq<string>
    var attempts: seq<S.Attempt>
    var nextBuf: nat
    var carryBuf: int
    var released: multiset<int>
    var lent: multiset<int>
    var batches: map<int, seq<string>>

    ghost function View(): S.State
      reads this
    {
      S.State(fed, refused, stackPos, lastOpenMap, lastObject, kafkaMsgs, produced, attempts, nextBuf, carryBuf,
              released, lent, batches)
    }

    /** Between two decode calls. */
    ghost predicate Valid()
      reads this
    {
      kafkaMsgs == [] && lastOpenMap == NULL && CarryOwned() && Batch.Contract(kafka)
    }

    /** The carried-over prefix and its buffer come and go together. */
    ghost predicate CarryOwned()
      reads this`carryBuf, this`lastObject
    {
      carryBuf == NULL <==> lastObject == []
    }

    /** new_zz_session_json */
    constructor (yajl: Yajl, kafka: S.Kafka)
      requires Batch.Contract(kafka)
      ensures Valid() && this.yajl == yajl && this.kafka == kafka && View() == S.FRESH
    {
      this.yajl, this.kafka := yajl, kafka;
      fed, refused, stackPos := [], false, 0;
      inBuffer, lastOpenMap, lastObject := [], NULL, [];
      kafkaMsgs, produced, attempts := [], [], [];
      nextBuf, carryBuf, released := 0, NULL, multiset{};
      lent, batches := multiset{}, map[];
    }

    /** zz_parse_start_json_map */
    method StartMap(consumed: nat)
      modifies this`stackPos, this`lastOpenMap
      ensures View() == S.OnOpen(old(View()), consumed)
    {
      if stackPos == 0 {
        lastOpenMap := consumed - 1;
      }
      stackPos := stackPos + 1;
    }

    /** zz_parse_end_json_map_split; librdkafka frees the buffer of a message it takes, after its report. */
    method EndMapSplit(consumed: nat)
      requires consumed <= |inBuffer| && carryBuf != NULL
      modifies this`lastObject, this`produced, this`attempts, this`carryBuf, this`released, this`lent
      ensures View() == S.SendCarry(kafka, old(View()), inBuffer[..consumed])
    {
      var taken := ProduceSingle(inBuffer[..consumed]);
      if taken {
        LendLastObject();
      }
      ReleaseLastObject();
    }

    /** The produce call for the carried-over object; `taken`: it answers 1. */
    method ProduceSingle(text: string) returns (taken: bool)
      modifies this`lastObject, this`produced, this`attempts
      ensures View() == S.ProduceSingle(kafka, old(View()), text)
      ensures taken == kafka.takes(carryBuf)
    {
      lastObject := lastObject + text;
      taken := kafka.takes(carryBuf);
      produced, attempts := produced + [lastObject], attempts + [S.Attempt(carryBuf, lastObject, taken)];
    }

    method LendLastObject()
      modifies this`carryBuf, this`lent
      ensures View() == S.Lend(old(View()))
    {
      carryBuf, lent := NULL, lent + multiset{carryBuf};
    }

    /** string_done(&last_object) */
    method ReleaseLastObject()
      modifies this`lastObject, this`carryBuf, this`released
      ensures View() == S.DropCarry(old(View()))
    {
      if carryBuf != NULL {
        released := released + multiset{carryBuf};
      }
      lastObject, carryBuf := [], NULL;
    }

    /** zz_parse_end_json_map */
    method EndMap(consumed: nat)
      requires consumed <= |inBuffer| && CarryOwned()
      modifies this`stackPos, this`lastOpenMap, this`lastObject, this`kafkaMsgs,
               this`produced, this`attempts, this`carryBuf, this`released, this`lent
      ensures View() == S.OnClose(kafka, old(View()), inBuffer, consumed) && CarryOwned()
    {
      stackPos := stackPos - 1;
      if stackPos != 0 {
        return;
      }
      if |lastObject| > 0 {
        EndMapSplit(consumed);
      } else {
        kafkaMsgs := kafkaMsgs + [Slice(lastOpenMap, consumed - lastOpenMap)];
        lastOpenMap := NULL;
      }
    }

    /** Byte `i` of the chunk reaches yajl_parse, which calls back. */
    method ParseByte(i: nat)
      requires i < |inBuffer| && CarryOwned()
      modifies this`fed, this`refused, this`stackPos, this`lastOpenMap, this`lastObject, this`kafkaMsgs,
               this`produced, this`attempts, this`carryBuf, this`released, this`lent
      ensures View() == S.OnByte(yajl, kafka, old(View()), inBuffer, i) && CarryOwned()
    {
      var next := fed + [inBuffer[i]];
      match yajl(next) {
        case Open => fed := next; StartMap(i + 1);
        case Close => fed := next; EndMap(i + 1);
        case Quiet => fed := next;
        case Fail => refused := true;
      }
    }

    /** yajl_parse over the chunk; after an error it does nothing. */
    method YajlParse() returns (ok: bool)
      requires CarryOwned() && lastOpenMap < |inBuffer|
      modifies this`fed, this`refused, this`stackPos, this`lastOpenMap, this`lastObject, this`kafkaMsgs,
               this`produced, this`attempts, this`carryBuf, this`released, this`lent
      ensures View() == S.Parse(yajl, kafka, old(View()), inBuffer, 0)
      ensures CarryOwned() && ok == !refused && lastOpenMap < |inBuffer|
    {
      var i := 0;
      while i < |inBuffer| && !refused
        invariant 0 <= i <= |inBuffer| && CarryOwned()
        invariant S.Parse(yajl, kafka, View(), inBuffer, i) == S.Parse(yajl, kafka, old(View()), inBuffer, 0)
        decreases |inBuffer| - i
      {
        ParseByte(i);
        i := i + 1;
      }
      S.ParseKeepsOffset(yajl, kafka, old(View()), inBuffer, 0);
      ok := !refused;
    }

    /** string_append(&last_object, data) */
    method AppendLastObject(data: string)
      requires CarryOwned()
      modifies this`lastObject, this`carryBuf, this`nextBuf
      ensures View() == S.Carry(old(View()), data) && CarryOwned()
    {
      if carryBuf == NULL && data != [] {
        carryBuf, nextBuf := nextBuf, nextBuf + 1;
      }
      lastObject := lastObject + data;
    }

    /** The two appends of process_json_buffer: keep the object that the chunk leaves open. */
    method SaveOpenObject(buffer: string)
      requires lastOpenMap < |buffer| && CarryOwned()
      modifies this`lastObject, this`carryBuf, this`nextBuf
      ensures View() == S.SaveOpenObject(old(View()), buffer) && CarryOwned()
    {
      if lastOpenMap >= 0 {
        AppendLastObject(buffer[lastOpenMap..]);
      } else if |lastObject| != 0 {
        AppendLastObject(buffer);
      }
    }

    /** malloc and memcpy of the chunk. */
    method CopyChunk(buffer: string) returns (copy: int)
      modifies this`nextBuf, this`inBuffer
      ensures copy == old(nextBuf) && inBuffer == buffer && View() == old(View()).(nextBuf := copy + 1)
    {
      copy, nextBuf, inBuffer := nextBuf, nextBuf + 1, buffer;
    }

    /** process_json_buffer up to its `err` label; `copy` is the buffer that holds the chunk. */
    method ParseAndSave(buffer: string) returns (rc: DecoderErr, copy: int)
      requires Valid() && buffer != []
      modifies this
      ensures copy == old(nextBuf)
      ensures View() == S.Absorb(yajl, kafka, old(View()), buffer)
      ensures CarryOwned() && rc == if refused then InvalidRequest else Ok
    {
      copy := CopyChunk(buffer);
      var ok := YajlParse();
      if ok {
        SaveOpenObject(buffer);
      }
      rc := if ok then Ok else InvalidRequest;
    }

    /** free(buffer) */
    method FreeCopy(copy: int)
      modifies this`released
      ensures View() == S.FreeCopy(old(View()), copy)
    {
      released := released + multiset{copy};
    }

    /**
     kafka_message_array_produce, for the batch whose payload buffer is `copy`. From here on the
     buffer is the batch's; `sent` is what the produce call answers.
     */
    method ProduceBatch(buffer: string, copy: int) returns (sent: nat)
      requires Batch.Contract(kafka) && kafkaMsgs != []
      modifies this`produced, this`kafkaMsgs, this`batches
      ensures View() == S.ProduceBatch(old(View()), buffer, copy)
      ensures sent == |old(kafkaMsgs)|
    {
      var n := |kafkaMsgs|;
      Batch.LaunchedIsInv(kafka, copy, n);
      sent := Batch.Launched(kafka, copy, n).pc.result;
      var texts := S.Cut(buffer, kafkaMsgs);
      produced, kafkaMsgs, batches := produced + texts, [], batches[copy := texts];
    }

    /** The end of process_json_buffer, and the produce call of zz_decode. */
    method Dispatch(buffer: string, copy: int) returns (sent: nat)
      requires Batch.Contract(kafka)
      modifies this`produced, this`kafkaMsgs, this`released, this`batches, this`inBuffer, this`lastOpenMap
      ensures View() == S.Dispatch(old(View()), buffer, copy)
      ensures sent == |old(kafkaMsgs)|
    {
      inBuffer, lastOpenMap, sent := [], NULL, 0;
      if kafkaMsgs == [] {
        FreeCopy(copy);
      } else {
        sent := ProduceBatch(buffer, copy);
      }
    }

    /** zz_decode from the copied chunk on. */
    method DecodeChunk(buffer: string) returns (rc: DecoderErr)
      requires Valid() && buffer != []
      modifies this
      ensures Valid() && View() == S.Decode(yajl, kafka, old(View()), buffer)
      ensures rc == if refused then InvalidRequest else Ok
    {
      var copy;
      rc, copy := ParseAndSave(buffer);
      var queued := |kafkaMsgs|;
      var sent := Dispatch(buffer, copy);
      if rc == Ok && queued != sent {
        rc := BufferFull;
      }
    }

    /**
     zz_decode. `isPost`: no other HTTP method was named; `copied`: the chunk could be copied.
     kafka_message_array_produce answers with the size of the batch, so the branch that reports a
     full queue is never taken.
     */
    method Decode(buffer: string, isPost: bool, copied: bool) returns (rc: DecoderErr)
      requires Valid()
      modifies this
      ensures Valid()
      ensures !isPost ==> rc == HttpMethodNotAllowed && View() == old(View())
      ensures isPost && buffer == [] ==> rc == Ok && View() == old(View())
      ensures isPost && buffer != [] && !copied ==> rc == MemoryError && View() == old(View())
      ensures isPost && buffer != [] && copied ==>
                && View() == S.Decode(yajl, kafka, old(View()), buffer)
                && rc == if refused then InvalidRequest else Ok
    {
      if !isPost {
        return HttpMethodNotAllowed;
      } else if buffer == [] {
        return Ok;
      } else if !copied {
        return MemoryError;
      }
      rc := DecodeChunk(buffer);
    }

    /** free_zz_session_json */
    method Free()
      requires Valid()
      modifies this
      ensures View() == S.DropCarry(old(View()))
    {
      ReleaseLastObject();
    }
  }
}
