/**
 A whole HTTP POST with a session decoder: upload callbacks until the first
 error, then the final status. The theorems join this with the splitter: status
 and messages depend on the body only.
 */
module HttpPost {
  import opened DecoderApi
  import opened JsonStream
  import S = JsonSplitter
  import JsonSession

  /** One upload callback. `copied`: the decoder could copy the chunk. */
  datatype Upload = Upload(data: string, copied: bool)

  /** conn_info, with the uploads that reached the decoder. `code` is http_error.code; 0 is "none queued". */
  datatype Conn = Conn(code: nat, session: S.State, seen: seq<Upload>)

  /** handle_http_post_chunk */
  function OnUpload(y: Yajl, kf: S.Kafka, c: Conn, up: Upload): Conn {
    if c.code != 0 then c
    else if !up.copied then Conn(HttpStatus(MemoryError), c.session, c.seen + [up])
    else
      var s := S.Decode(y, kf, c.session, up.data);
      Conn(if s.refused then HttpStatus(InvalidRequest) else 0, s, c.seen + [up])
  }

  function Post(y: Yajl, kf: S.Kafka, ups: seq<Upload>): Conn {
    if ups == [] then Conn(0, S.FRESH, [])
    else OnUpload(y, kf, Post(y, kf, ups[..|ups| - 1]), ups[|ups| - 1])
  }

  /** handle_post_end */
  function Status(c: Conn): nat {
    if c.code != 0 then c.code else HttpStatus(Ok)
  }

  /** The bytes of the uploads, in order. */
  function BodyOf(ups: seq<Upload>): string {
    if ups == [] then [] else BodyOf(ups[..|ups| - 1]) + ups[|ups| - 1].data
  }

  /** What the decoder returns for the last upload, if all the earlier ones went well. */
  ghost function Outcome(y: Yajl, ups: seq<Upload>): DecoderErr
    requires ups != []
  {
    if !ups[|ups| - 1].copied then MemoryError
    else if !Accepted(y, BodyOf(ups)) then InvalidRequest
    else Ok
  }

  /** No upload fails. */
  ghost predicate AllWell(y: Yajl, ups: seq<Upload>) {
    ups != [] ==> Outcome(y, ups) == Ok && AllWell(y, ups[..|ups| - 1])
  }

  /** libmicrohttpd reports the end of the upload with an empty one, so uploads are not empty. */
  ghost predicate Uploads(ups: seq<Upload>) {
    forall k :: 0 <= k < |ups| ==> ups[k].data != []
  }

  /** The uploads seen end with the first failing one, whose error is the one queued; if none fails, all were seen. */
  ghost predicate UpToFirstError(y: Yajl, ups: seq<Upload>, c: Conn) {
    && c.seen <= ups
    && (c.code == 0 ==> c.seen == ups && AllWell(y, ups))
    && (c.code != 0 ==>
          && c.seen != []
          && AllWell(y, c.seen[..|c.seen| - 1])
          && Outcome(y, c.seen) != Ok
          && c.code == HttpStatus(Outcome(y, c.seen)))
  }

  /** The uploads whose bytes reached the parser: all that were seen, except one that could not be copied. */
  ghost function Kept(seen: seq<Upload>): seq<Upload> {
    if seen != [] && !seen[|seen| - 1].copied then seen[..|seen| - 1] else seen
  }

  lemma FirstErrorSticks(y: Yajl, ups: seq<Upload>, c: Conn)
    requires ups != [] && UpToFirstError(y, ups[..|ups| - 1], c) && c.code != 0
    ensures UpToFirstError(y, ups, c)
  {
  }

  /** The session after one more upload, and the code that it queues. */
  lemma LastUpload(y: Yajl, kf: S.Kafka, c: Conn, up: Upload, before: string, body: string)
    requires Contract(y) && c.code == 0 && up.data != [] && body == before + up.data
    requires S.Agrees(y, c.session, before)
    ensures var d := OnUpload(y, kf, c, up);
            && d.seen == c.seen + [up]
            && S.Agrees(y, d.session, if up.copied then body else before)
            && d.code == if !up.copied then 500 else if Accepted(y, body) then 0 else 400
  {
    S.DecodeKeepsAgrees(y, kf, c.session, before, up.data);
  }

  lemma AllButLast(ups: seq<Upload>)
    requires ups != []
    ensures ups[..|ups| - 1] + [ups[|ups| - 1]] == ups
  {
  }

  /** The bytes that reached the parser, once the last upload was seen. */
  lemma KeptBody(ups: seq<Upload>)
    requires ups != []
    ensures BodyOf(ups) == BodyOf(ups[..|ups| - 1]) + ups[|ups| - 1].data
    ensures BodyOf(Kept(ups)) == if ups[|ups| - 1].copied then BodyOf(ups) else BodyOf(ups[..|ups| - 1])
  {
  }

  /** All uploads were seen, all but the last went well, and the code fits the last one. */
  lemma SeenAll(y: Yajl, ups: seq<Upload>, d: Conn)
    requires ups != [] && d.seen == ups && AllWell(y, ups[..|ups| - 1])
    requires d.code == if !ups[|ups| - 1].copied then 500 else if Accepted(y, BodyOf(ups)) then 0 else 400
    ensures UpToFirstError(y, ups, d)
  {
  }

  /** The uploads seen end with the first failing one, and the session agrees with the bytes of those before. */
  ghost predicate Follows(y: Yajl, ups: seq<Upload>, c: Conn)
    requires Contract(y)
  {
    UpToFirstError(y, ups, c) && S.Agrees(y, c.session, BodyOf(Kept(c.seen)))
  }

  lemma NextUpload(y: Yajl, kf: S.Kafka, ups: seq<Upload>, c: Conn)
    requires Contract(y) && ups != [] && ups[|ups| - 1].data != []
    requires Follows(y, ups[..|ups| - 1], c) && c.code == 0
    ensures Follows(y, ups, OnUpload(y, kf, c, ups[|ups| - 1]))
  {
    var up, before, body := ups[|ups| - 1], BodyOf(ups[..|ups| - 1]), BodyOf(ups);
    WellIsKept(y, ups[..|ups| - 1]);
    KeptBody(ups);
    AllButLast(ups);
    LastUpload(y, kf, c, up, before, body);
    FollowsFrom(y, ups, OnUpload(y, kf, c, up), before, body);
  }

  lemma FollowsFrom(y: Yajl, ups: seq<Upload>, d: Conn, before: string, body: string)
    requires Contract(y) && ups != [] && d.seen == ups && AllWell(y, ups[..|ups| - 1])
    requires before == BodyOf(ups[..|ups| - 1]) && body == BodyOf(ups)
    requires S.Agrees(y, d.session, if ups[|ups| - 1].copied then body else before)
    requires d.code == if !ups[|ups| - 1].copied then 500 else if Accepted(y, body) then 0 else 400
    ensures Follows(y, ups, d)
  {
    SeenAll(y, ups, d);
    KeptBody(ups);
  }

  lemma WellIsKept(y: Yajl, ups: seq<Upload>)
    requires AllWell(y, ups)
    ensures Kept(ups) == ups
  {
  }

  /**
   The decoder sees exactly the uploads up to and including the first failing one, whose error is the
   one answered, and the session agrees with the bytes that reached the parser.
   */
  lemma {:induction false} PostStopsAtFirstError(y: Yajl, kf: S.Kafka, ups: seq<Upload>)
    requires Contract(y) && Uploads(ups)
    ensures Follows(y, ups, Post(y, kf, ups))
  {
    if ups != [] {
      var before := ups[..|ups| - 1];
      PostStopsAtFirstError(y, kf, before);
      if Post(y, kf, before).code == 0 {
        NextUpload(y, kf, ups, Post(y, kf, before));
      } else {
        FirstErrorSticks(y, ups, Post(y, kf, before));
      }
    }
  }

  // ---------------------------------------------------------------------
  // Status and messages by the body alone
  // ---------------------------------------------------------------------

  /** The uploads before the first that cannot be copied. */
  function Copied(ups: seq<Upload>): (r: seq<Upload>)
    ensures r <= ups
  {
    if ups == [] then []
    else
      var before, last := ups[..|ups| - 1], ups[|ups| - 1];
      if Copied(before) == before && last.copied then ups else Copied(before)
  }

  /** The code that a body deserves, of which all or the first part could be copied. */
  ghost function Deserved(y: Yajl, body: string, whole: bool): nat {
    if !Accepted(y, body) then 400 else if whole then 0 else 500
  }

  ghost predicate Answers(y: Yajl, c: Conn, body: string, whole: bool)
    requires Contract(y)
  {
    && c.code == Deserved(y, body, whole)
    && c.session.produced == Messages(y, GoodPrefix(y, body))
    && (c.code == 0 ==> S.Agrees(y, c.session, body))
  }

  /** One more upload, before an error. */
  lemma UploadAnswers(y: Yajl, kf: S.Kafka, c: Conn, up: Upload, before: string, body: string)
    requires Contract(y) && up.data != [] && Answers(y, c, before, true) && c.code == 0
    requires body == if up.copied then before + up.data else before
    ensures Answers(y, OnUpload(y, kf, c, up), body, up.copied)
  {
    LastUpload(y, kf, c, up, before, before + up.data);
  }

  /** One more upload, after an error: more bytes behind a refused one change nothing. */
  lemma LateUploadAnswers(y: Yajl, kf: S.Kafka, c: Conn, up: Upload, before: string, body: string, whole: bool)
    requires Contract(y) && Answers(y, c, before, whole) && c.code != 0
    requires body == if whole && up.copied then before + up.data else before
    ensures Answers(y, OnUpload(y, kf, c, up), body, whole && up.copied)
  {
    RefusedForever(y, before, up.data);
  }

  lemma CopiedStep(ups: seq<Upload>)
    requires ups != []
    ensures var before, last := ups[..|ups| - 1], ups[|ups| - 1];
            var whole := Copied(before) == before && last.copied;
            && (Copied(ups) == ups <==> whole)
            && BodyOf(Copied(ups)) == if whole then BodyOf(Copied(before)) + last.data else BodyOf(Copied(before))
  {
  }

  lemma NextAnswers(y: Yajl, kf: S.Kafka, ups: seq<Upload>, c: Conn)
    requires Contract(y) && ups != [] && ups[|ups| - 1].data != []
    requires Answers(y, c, BodyOf(Copied(ups[..|ups| - 1])), Copied(ups[..|ups| - 1]) == ups[..|ups| - 1])
    ensures Answers(y, OnUpload(y, kf, c, ups[|ups| - 1]), BodyOf(Copied(ups)), Copied(ups) == ups)
  {
    var up, before, body := ups[|ups| - 1], BodyOf(Copied(ups[..|ups| - 1])), BodyOf(Copied(ups));
    CopiedStep(ups);
    if c.code == 0 {
      UploadAnswers(y, kf, c, up, before, body);
    } else {
      LateUploadAnswers(y, kf, c, up, before, body, Copied(ups[..|ups| - 1]) == ups[..|ups| - 1]);
    }
  }

  lemma {:induction false} PostAnswers(y: Yajl, kf: S.Kafka, ups: seq<Upload>)
    requires Contract(y) && Uploads(ups)
    ensures Answers(y, Post(y, kf, ups), BodyOf(Copied(ups)), Copied(ups) == ups)
  {
    if ups != [] {
      var before := ups[..|ups| - 1];
      PostAnswers(y, kf, before);
      NextAnswers(y, kf, ups, Post(y, kf, before));
    }
  }

  /**
   Status and messages of a POST depend on the bytes that could be copied, not on where they were cut
   or on what librdkafka does. The answer is 400 when the parser refuses them; otherwise 500 when a
   chunk could not be copied, and 200 when all could. Every object completed before the first refused
   byte is produced.
   */
  lemma PostDependsOnBody(y: Yajl, kf: S.Kafka, ups: seq<Upload>)
    requires Contract(y) && Uploads(ups)
    ensures var body := BodyOf(Copied(ups));
            && Status(Post(y, kf, ups)) ==
               (if !Accepted(y, body) then 400 else if Copied(ups) != ups then 500 else 200)
            && Post(y, kf, ups).session.produced == Messages(y, GoodPrefix(y, body))
  {
    PostAnswers(y, kf, ups);
  }

  /** The connection object of libmicrohttpd's POST callbacks. */
  class Connection {
    const session: JsonSession.Session
    var httpError: nat
    ghost var seen: seq<Upload>

    ghost function View(): Conn
      reads this, session
    {
      Conn(httpError, session.View(), seen)
    }

    ghost predicate Valid()
      reads this, session
    {
      session.Valid()
    }

    constructor (session: JsonSession.Session)
      requires session.Valid() && session.View() == S.FRESH
      ensures Valid() && this.session == session && View() == Conn(0, S.FRESH, [])
    {
      this.session := session;
      httpError, seen := 0, [];
    }

    /** handle_http_post_chunk */
    method HandleChunk(up: Upload)
      requires Valid() && up.data != []
      modifies this, session
      ensures Valid() && View() == OnUpload(session.yajl, session.kafka, old(View()), up)
    {
      if httpError != 0 {
        return;
      }
      seen := seen + [up];
      var rc := session.Decode(up.data, true, up.copied);
      if rc != Ok {
        httpError := HttpStatus(rc);
      }
    }

    /** handle_post_end */
    method HandleEnd() returns (status: nat)
      ensures status == Status(View())
    {
      status := if httpError != 0 then httpError else 200;
    }

    /** handle_post, over a whole request. */
    method HandlePost(ups: seq<Upload>) returns (status: nat)
      requires Valid() && View() == Conn(0, S.FRESH, []) && Uploads(ups)
      modifies this, session
      ensures View() == Post(session.yajl, session.kafka, ups)
      ensures status == Status(Post(session.yajl, session.kafka, ups))
    {
      for i := 0 to |ups|
        invariant Valid() && View() == Post(session.yajl, session.kafka, ups[..i])
      {
        HandleChunk(ups[i]);
        assert ups[..i + 1][..i] == ups[..i];
      }
      assert ups[..|ups|] == ups;
      status := HandleEnd();
    }
  }
}
