/**
 What becomes of the messages of a JSON session: which of them left alone, from
 inside the parser callback, which in a batch, and who is to free their buffers.
 */
module JsonAttempts {
  import opened DecoderApi
  import opened JsonStream
  import opened JsonSplitter

  // ---------------------------------------------------------------------
  // Who frees the buffer of a single message
  // ---------------------------------------------------------------------

  /** librdkafka has the buffer exactly if it took the message; otherwise the session freed it. */
  ghost predicate Fate(kf: Kafka, released: multiset<int>, lent: multiset<int>, a: Attempt) {
    && a.taken == kf.takes(a.buffer)
    && (if a.taken then a.buffer in lent else a.buffer in released)
  }

  ghost predicate Fates(kf: Kafka, p: State) {
    && (forall k :: 0 <= k < |p.attempts| ==> Fate(kf, p.released, p.lent, p.attempts[k]))
    && (forall id :: id in p.lent ==> kf.takes(id))
  }

  /** Buffers that left stay where they went. */
  lemma FatesGrow(kf: Kafka, p: State, q: State)
    requires Fates(kf, p) && q.attempts == p.attempts && q.lent == p.lent && p.released <= q.released
    ensures Fates(kf, q)
  {
    forall k | 0 <= k < |q.attempts|
      ensures Fate(kf, q.released, q.lent, q.attempts[k])
    {
      assert Fate(kf, p.released, p.lent, p.attempts[k]);
    }
  }

  lemma SendKeepsFates(kf: Kafka, p: State, text: string, q: State)
    requires Fates(kf, p) && p.carryBuf != NULL && q == SendCarry(kf, p, text)
    ensures Fates(kf, q)
  {
    assert p.released <= q.released && p.lent <= q.lent;
    forall k | 0 <= k < |q.attempts|
      ensures Fate(kf, q.released, q.lent, q.attempts[k])
    {
      if k < |p.attempts| {
        assert Fate(kf, p.released, p.lent, p.attempts[k]);
      }
    }
  }

  lemma ByteKeepsFates(y: Yajl, kf: Kafka, p: State, chunk: string, i: nat, copy: int)
    requires Fates(kf, p) && Ledger(p, copy) && i < |chunk|
    ensures Fates(kf, OnByte(y, kf, p, chunk, i))
  {
    var q := p.(fed := p.fed + [chunk[i]], stackPos := p.stackPos - 1);
    var r := OnByte(y, kf, p, chunk, i);
    if y(q.fed) == Close && q.stackPos == 0 && |q.lastObject| > 0 {
      FatesGrow(kf, p, q);
      SendKeepsFates(kf, q, chunk[..i + 1], r);
    } else {
      FatesGrow(kf, p, r);
    }
  }

  lemma {:induction false} ParseKeepsFates(y: Yajl, kf: Kafka, p: State, chunk: string, i: nat, copy: int)
    requires Fates(kf, p) && Ledger(p, copy) && i <= |chunk|
    ensures Fates(kf, Parse(y, kf, p, chunk, i))
    decreases |chunk| - i
  {
    if i < |chunk| && !p.refused {
      ByteKeepsFates(y, kf, p, chunk, i, copy);
      ByteKeepsLedger(y, kf, p, chunk, i, copy);
      ParseKeepsFates(y, kf, OnByte(y, kf, p, chunk, i), chunk, i + 1, copy);
    }
  }

  lemma FinishKeepsFates(kf: Kafka, q: State, chunk: string, copy: int)
    requires Fates(kf, q)
    ensures Fates(kf, Dispatch(Saved(q, chunk), chunk, copy))
  {
    FatesGrow(kf, q, Saved(q, chunk));
    FatesGrow(kf, Saved(q, chunk), Dispatch(Saved(q, chunk), chunk, copy));
  }

  /** A decode call keeps this for every message that ever left alone. */
  lemma DecodeKeepsFates(y: Yajl, kf: Kafka, p: State, chunk: string)
    requires Fates(kf, p) && Ledger(p, NULL)
    ensures Fates(kf, Decode(y, kf, p, chunk))
  {
    var p1 := p.(nextBuf := p.nextBuf + 1);
    FatesGrow(kf, p, p1);
    AllocateCopy(p, p1);
    ParseKeepsFates(y, kf, p1, chunk, 0, p.nextBuf);
    FinishKeepsFates(kf, Parse(y, kf, p1, chunk, 0), chunk, p.nextBuf);
  }

  // ---------------------------------------------------------------------
  // Every message left alone or in a batch
  // ---------------------------------------------------------------------

  function Texts(attempts: seq<Attempt>): (r: seq<string>)
    ensures |r| == |attempts|
  {
    seq(|attempts|, k requires 0 <= k < |attempts| => attempts[k].text)
  }

  /** From `p` to `q` only single messages were produced. */
  ghost predicate SentAlone(p: State, q: State) {
    p.attempts <= q.attempts && q.produced == p.produced + Texts(q.attempts[|p.attempts|..])
  }

  lemma SentNothing(p: State, q: State)
    requires q.attempts == p.attempts && q.produced == p.produced
    ensures SentAlone(p, q)
  {
    assert q.attempts[|p.attempts|..] == [];
  }

  lemma SentOne(p: State, q: State, a: Attempt)
    requires q.attempts == p.attempts + [a] && q.produced == p.produced + [a.text]
    ensures SentAlone(p, q)
  {
    assert q.attempts[|p.attempts|..] == [a];
  }

  lemma SentTwice(p: State, q: State, r: State)
    requires SentAlone(p, q) && SentAlone(q, r)
    ensures SentAlone(p, r)
  {
    var n, m := |p.attempts|, |q.attempts|;
    assert q.attempts[n..] == r.attempts[n..m] by { assert r.attempts[..m] == q.attempts; }
    assert r.attempts[n..] == r.attempts[n..m] + r.attempts[m..];
    assert Texts(r.attempts[n..]) == Texts(r.attempts[n..m]) + Texts(r.attempts[m..]);
  }

  lemma ByteSends(y: Yajl, kf: Kafka, p: State, chunk: string, i: nat)
    requires i < |chunk|
    ensures SentAlone(p, OnByte(y, kf, p, chunk, i))
  {
    var r := OnByte(y, kf, p, chunk, i);
    if |r.attempts| > |p.attempts| {
      SentOne(p, r, r.attempts[|p.attempts|]);
    } else {
      SentNothing(p, r);
    }
  }

  lemma {:induction false} ParseSends(y: Yajl, kf: Kafka, p: State, chunk: string, i: nat)
    requires i <= |chunk|
    ensures SentAlone(p, Parse(y, kf, p, chunk, i))
    decreases |chunk| - i
  {
    if i < |chunk| && !p.refused {
      var q := OnByte(y, kf, p, chunk, i);
      ByteSends(y, kf, p, chunk, i);
      ParseSends(y, kf, q, chunk, i + 1);
      SentTwice(p, q, Parse(y, kf, q, chunk, i + 1));
    } else {
      SentNothing(p, p);
    }
  }

  /** The messages of the batch in a buffer, if there is one. */
  function BatchIn(p: State, copy: int): seq<string> {
    if copy in p.batches then p.batches[copy] else []
  }

  /** A decode call produces the messages that left alone, then those of its batch, and no others. */
  lemma DecodeProduces(y: Yajl, kf: Kafka, p: State, chunk: string)
    requires p.nextBuf !in p.batches
    ensures var r := Decode(y, kf, p, chunk);
            && p.attempts <= r.attempts
            && r.produced == p.produced + Texts(r.attempts[|p.attempts|..]) + BatchIn(r, p.nextBuf)
  {
    var p1 := p.(nextBuf := p.nextBuf + 1);
    var q := Parse(y, kf, p1, chunk, 0);
    ParseSends(y, kf, p1, chunk, 0);
    ParseKeepsBatches(y, kf, p1, chunk, 0);
    SaveProduces(q, chunk);
    DispatchProduces(Saved(q, chunk), chunk, p.nextBuf);
  }

  lemma SaveProduces(q: State, chunk: string)
    ensures var r := Saved(q, chunk);
            r.attempts == q.attempts && r.produced == q.produced && r.batches == q.batches && r.msgs == q.msgs
  {
  }

  lemma DispatchProduces(q: State, chunk: string, copy: int)
    requires copy !in q.batches
    ensures var r := Dispatch(q, chunk, copy);
            r.attempts == q.attempts && r.produced == q.produced + BatchIn(r, copy)
  {
  }
}
