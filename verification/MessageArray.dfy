/**
 The array of kafka messages of one decode call. While the text grows, and its
 buffer moves, a message holds an offset; once the text is complete the address
 of the buffer is added to all of them.
 */
module MessageArray {
  import opened DecoderApi
  import T = XmlTransducer
  import opened XmlDoc
  import opened XmlStream

  /** rd_kafka_message_t: `payload` is an offset at first, then an address. */
  datatype Message = Message(payload: int, len: int)

  function Moved(msgs: seq<Message>, delta: int): (r: seq<Message>)
    ensures |r| == |msgs|
  {
    seq(|msgs|, i requires 0 <= i < |msgs| => Message(msgs[i].payload + delta, msgs[i].len))
  }

  /** One more message moved. */
  lemma MovedStep(msgs: seq<Message>, delta: int, i: nat)
    requires i < |msgs|
    ensures var m := Moved(msgs, delta);
            && (m[..i] + msgs[i..])[i] == msgs[i]
            && (m[..i] + msgs[i..])[i := m[i]] == m[..i + 1] + msgs[i + 1..]
  {
  }

  const NULL := 0

  class Array {
    var msgs: seq<Message>
    var count: nat
    var payloadBuffer: nat

    ghost predicate Valid()
      reads this
    {
      count == |msgs|
    }

    constructor ()
      ensures Valid() && msgs == [] && payloadBuffer == NULL
    {
      msgs, count, payloadBuffer := [], 0, NULL;
    }

    /** kafka_msg_array_add; the first message also brings the header, with no payload buffer yet. */
    method Add(msg: Message)
      requires Valid()
      modifies this
      ensures Valid() && msgs == old(msgs) + [msg]
      ensures payloadBuffer == if old(msgs) == [] then NULL else old(payloadBuffer)
    {
      if count == 0 {
        payloadBuffer := NULL;
      }
      msgs := msgs + [msg];
      count := count + 1;
    }

    /** kafka_message_array_set_payload_buffer0 */
    method SetPayloadBuffer(buffer: nat, sumOffset: bool)
      requires Valid()
      modifies this`msgs, this`payloadBuffer
      ensures Valid() && payloadBuffer == buffer
      ensures msgs == if sumOffset then Moved(old(msgs), buffer) else old(msgs)
    {
      payloadBuffer := buffer;
      if !sumOffset {
        return;
      }
      var i := 0;
      while i < count
        invariant 0 <= i <= count == |msgs| && payloadBuffer == buffer && count == |old(msgs)|
        invariant msgs == Moved(old(msgs), buffer)[..i] + old(msgs)[i..]
      {
        MovedStep(old(msgs), buffer, i);
        msgs := msgs[i := Message(msgs[i].payload + buffer, msgs[i].len)];
        i := i + 1;
      }
    }
  }

  // ---------------------------------------------------------------------
  // From documents to payloads
  // ---------------------------------------------------------------------

  function Offsets(slices: seq<Slice>): (r: seq<Message>)
    ensures |r| == |slices|
  {
    seq(|slices|, i requires 0 <= i < |slices| => Message(slices[i].off, slices[i].len))
  }

  /** The bytes of a message, in memory where `text` lies at address `base`. */
  ghost predicate Holds(base: nat, text: string, m: Message, bytes: string) {
    && base <= m.payload < m.payload + m.len <= base + |text|
    && text[m.payload - base..m.payload - base + m.len] == bytes
  }

  /** Where payload i should begin: at the buffer, or where the payload before it ends. */
  function Follows(base: nat, msgs: seq<Message>, i: nat): int
    requires i <= |msgs|
  {
    if i == 0 then base else msgs[i - 1].payload + msgs[i - 1].len
  }

  /** Payload i follows the one before, and is the JSON of document i exactly when that has no extra text runs. */
  ghost predicate PayloadOk(base: nat, text: string, msgs: seq<Message>, docs: seq<Elem>, i: int) {
    && 0 <= i < |msgs| && i < |docs|
    && msgs[i].len > 0 && msgs[i].payload == Follows(base, msgs, i)
    && (Holds(base, text, msgs[i], Json(docs[i])) <==> ExtraRuns(docs[i]) == 0)
  }

  /**
   After any documents in one call, with the buffer finally at `base`: payload i is the JSON of
   document i exactly when that has no extra text runs; the payloads lie one behind the other from
   `base` on, and fill the buffer if no document was refused.
   */
  lemma {:induction false} PayloadsAreDocuments(docs: seq<Elem>, base: nat)
    ensures var r := T.Run(T.INITIAL, AllEvents(docs));
            var msgs := Moved(Offsets(r.msgs), base);
            && |msgs| == Fitting(docs)
            && (forall i :: 0 <= i < |msgs| ==> PayloadOk(base, r.buf, msgs, docs, i))
            && (Fitting(docs) == |docs| ==> Follows(base, msgs, |msgs|) == base + |r.buf|)
  {
    var r := T.Run(T.INITIAL, AllEvents(docs));
    DocumentsTheorem(docs);
    forall i | 0 <= i < |r.msgs|
      ensures PayloadOk(base, r.buf, Moved(Offsets(r.msgs), base), docs, i)
    {
      PayloadInMemory(base, r.buf, r.msgs, docs, i);
    }
  }

  lemma {:induction false} PayloadInMemory(base: nat, text: string, slices: seq<Slice>, docs: seq<Elem>, i: nat)
    requires InOrder(text, slices, docs) && i < |slices|
    ensures PayloadOk(base, text, Moved(Offsets(slices), base), docs, i)
  {
    assert MessageOf(text, slices[i], docs[i]);
  }
}
