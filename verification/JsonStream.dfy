/**
 What the JSON splitter has to compute, stated over the whole byte stream and
 without any mention of chunks.

 yajl is an abstract machine: a function that gives, for every nonempty prefix
 of the stream, the event raised by the last byte of that prefix. Nothing else
 about the library is used. A `char` stands for one byte.
 */
module JsonStream {

  datatype Event =
    | Quiet  // no callback
    | Open   // yajl_start_map, on '{'
    | Close  // yajl_end_map, on '}'
    | Fail   // the byte cannot continue a valid stream

  type Yajl = string -> Event

  /** Number of maps open after `s`. */
  function Depth(y: Yajl, s: string): int {
    if s == [] then 0
    else
      var before := Depth(y, s[..|s| - 1]);
      match y(s)
      case Open => before + 1
      case Close => before - 1
      case _ => before
  }

  /** The event of the last byte of `s` is a lawful one. */
  ghost predicate Lawful(y: Yajl, s: string) {
    s != [] ==>
      && (y(s) == Open ==> s[|s| - 1] == '{')
      && (y(s) == Close ==> s[|s| - 1] == '}' && Depth(y, s[..|s| - 1]) > 0)
  }

  /** The contract of yajl: maps open on '{', close on '}', and only open maps close. */
  ghost predicate Contract(y: Yajl) {
    forall s: string :: Lawful(y, s)
  }

  /** Where the outermost map that is open after `s` begins. */
  ghost function OpenPos(y: Yajl, s: string): (i: nat)
    requires Contract(y) && Depth(y, s) > 0
    ensures i < |s|
  {
    assert Lawful(y, s);
    var before := s[..|s| - 1];
    if Depth(y, before) <= 0 then |s| - 1 else OpenPos(y, before)
  }

  /** Does the last byte of `s` close an outermost map? */
  ghost predicate Completes(y: Yajl, s: string) {
    s != [] && y(s) == Close && Depth(y, s) == 0
  }

  /** The objects completed in `s`, in stream order. */
  ghost function Messages(y: Yajl, s: string): seq<string>
    requires Contract(y)
  {
    if s == [] then []
    else
      assert Lawful(y, s);
      var before := s[..|s| - 1];
      Messages(y, before) + if Completes(y, s) then [s[OpenPos(y, before)..]] else []
  }

  /** The bytes before the first one that yajl refuses. */
  ghost function GoodPrefix(y: Yajl, s: string): (g: string)
    ensures g <= s
  {
    if s == [] then []
    else
      var before := s[..|s| - 1];
      var g := GoodPrefix(y, before);
      if g == before && y(s) != Fail then s else g
  }

  ghost predicate Accepted(y: Yajl, s: string) {
    GoodPrefix(y, s) == s
  }

  lemma {:induction false} DepthNonNegative(y: Yajl, s: string)
    requires Contract(y)
    ensures Depth(y, s) >= 0
  {
    if s != [] {
      assert Lawful(y, s);
      DepthNonNegative(y, s[..|s| - 1]);
    }
  }

  /** What one more byte does to the specification. */
  lemma Extend(y: Yajl, s: string, c: char)
    requires Contract(y)
    ensures (s + [c])[..|s|] == s
    ensures Depth(y, s + [c]) == Depth(y, s) + (match y(s + [c]) case Open => 1 case Close => -1 case _ => 0)
    ensures Depth(y, s) >= 0 && Depth(y, s + [c]) >= 0
    ensures Messages(y, s + [c]) ==
            Messages(y, s) + if Completes(y, s + [c]) then [(s + [c])[OpenPos(y, s)..]] else []
  {
    assert (s + [c])[..|s + [c]| - 1] == s;
    assert Lawful(y, s + [c]);
    DepthNonNegative(y, s);
    DepthNonNegative(y, s + [c]);
  }

  // ---------------------------------------------------------------------
  // Refused bytes
  // ---------------------------------------------------------------------

  /** Once a byte is refused, later bytes change nothing. */
  lemma {:induction false} RefusedForever(y: Yajl, a: string, b: string)
    ensures !Accepted(y, a) ==> GoodPrefix(y, a + b) == GoodPrefix(y, a)
    decreases |b|
  {
    if b == [] {
      assert a + b == a;
    } else {
      var b' := b[..|b| - 1];
      assert (a + b)[..|a + b| - 1] == a + b';
      RefusedForever(y, a, b');
    }
  }

  lemma AcceptByte(y: Yajl, s: string, c: char)
    ensures Accepted(y, s) ==> GoodPrefix(y, s + [c]) == if y(s + [c]) == Fail then s else s + [c]
  {
    assert (s + [c])[..|s + [c]| - 1] == s;
  }

  /** After accepting `s`, the parser stops at the first refused byte. */
  lemma StopsAtRefusedByte(y: Yajl, s: string, c: char, rest: string)
    requires Accepted(y, s) && y(s + [c]) == Fail
    ensures GoodPrefix(y, s + ([c] + rest)) == s
  {
    AcceptByte(y, s, c);
    RefusedForever(y, s + [c], rest);
    assert s + [c] + rest == s + ([c] + rest);
  }

  // ---------------------------------------------------------------------
  // Messages are exactly the maximal {...} objects
  // ---------------------------------------------------------------------

  /** [i, j) is one maximal object of the stream: depth 0 before it, above 0 inside it, 0 after it. */
  ghost predicate ObjectSpan(y: Yajl, s: string, i: int, j: int) {
    && 0 <= i < j <= |s|
    && Depth(y, s[..i]) == 0
    && Depth(y, s[..j]) == 0
    && i + 1 < j
    && forall k :: i < k < j ==> Depth(y, s[..k]) > 0
  }

  /** The spans of the messages of `s`. */
  ghost function Spans(y: Yajl, s: string): (r: seq<(int, int)>)
    requires Contract(y)
  {
    if s == [] then []
    else
      assert Lawful(y, s);
      var before := s[..|s| - 1];
      Spans(y, before) + if Completes(y, s) then [(OpenPos(y, before), |s|)] else []
  }

  lemma {:induction false} OpenPosOpens(y: Yajl, s: string)
    requires Contract(y) && Depth(y, s) > 0
    ensures var i := OpenPos(y, s);
            && Depth(y, s[..i]) == 0
            && s[i] == '{'
            && forall k :: i < k <= |s| ==> Depth(y, s[..k]) > 0
  {
    var before := s[..|s| - 1];
    var i := OpenPos(y, s);
    DepthNonNegative(y, before);
    assert Lawful(y, s);
    assert s[..|s|] == s;
    if Depth(y, before) > 0 {
      OpenPosOpens(y, before);
      assert forall k :: 0 <= k <= |before| ==> s[..k] == before[..k];
    }
  }

  /** Any span of a prefix is a span of the whole, and back. */
  lemma SpanOfPrefix(y: Yajl, s: string, n: nat, i: int, j: int)
    requires j <= n <= |s|
    ensures ObjectSpan(y, s[..n], i, j) <==> ObjectSpan(y, s, i, j)
  {
    assert forall k :: 0 <= k <= n ==> s[..n][..k] == s[..k];
    if 0 <= i < j {
      assert s[..n][..i] == s[..i] && s[..n][..j] == s[..j];
    }
  }

  /** `m` is the text of the span (i, j) of `s`, and it is braced. */
  ghost predicate TextOfSpan(s: string, span: (int, int), m: string) {
    && 0 <= span.0 < span.1 <= |s|
    && m == s[span.0..span.1]
    && m[0] == '{' && m[|m| - 1] == '}'
  }

  lemma {:induction false} AsManyMessagesAsSpans(y: Yajl, s: string)
    requires Contract(y)
    ensures |Messages(y, s)| == |Spans(y, s)|
  {
    if s != [] {
      AsManyMessagesAsSpans(y, s[..|s| - 1]);
    }
  }

  lemma {:induction false} MessageIsSpan(y: Yajl, s: string, k: nat)
    requires Contract(y) && |Messages(y, s)| == |Spans(y, s)| && k < |Spans(y, s)|
    ensures TextOfSpan(s, Spans(y, s)[k], Messages(y, s)[k])
  {
    var before := s[..|s| - 1];
    AsManyMessagesAsSpans(y, before);
    if k < |Spans(y, before)| {
      MessageIsSpan(y, before, k);
      assert TextOfSpan(before, Spans(y, before)[k], Messages(y, before)[k]);
      assert Spans(y, s)[k] == Spans(y, before)[k];
      assert Messages(y, s)[k] == Messages(y, before)[k];
    } else {
      assert Lawful(y, s);
      OpenPosOpens(y, before);
      var i := OpenPos(y, before);
      assert s[i..|s|] == s[i..];
    }
  }

  /** Every listed span is a maximal object; they are in order and do not overlap. */
  lemma {:induction false} SpansAreObjects(y: Yajl, s: string)
    requires Contract(y)
    ensures forall k :: 0 <= k < |Spans(y, s)| ==> ObjectSpan(y, s, Spans(y, s)[k].0, Spans(y, s)[k].1)
    ensures forall k, l :: 0 <= k < l < |Spans(y, s)| ==> Spans(y, s)[k].1 <= Spans(y, s)[l].0
  {
    if s != [] {
      var before := s[..|s| - 1];
      var sp := Spans(y, before);
      SpansAreObjects(y, before);
      forall k | 0 <= k < |sp| ensures ObjectSpan(y, s, sp[k].0, sp[k].1) {
        SpanOfPrefix(y, s, |s| - 1, sp[k].0, sp[k].1);
      }
      if Completes(y, s) {
        var i := OpenPos(y, before);
        OpenPosOpens(y, before);
        assert forall k :: 0 <= k <= |before| ==> s[..k] == before[..k];
        NewObject(y, s, i);
        forall k | 0 <= k < |sp| ensures sp[k].1 <= i {
          assert Depth(y, before[..sp[k].1]) == 0;
        }
      }
    }
  }

  lemma NewObject(y: Yajl, s: string, i: nat)
    requires Contract(y) && Completes(y, s)
    requires i < |s| - 1 && Depth(y, s[..i]) == 0
    requires forall k :: i < k < |s| ==> Depth(y, s[..k]) > 0
    ensures ObjectSpan(y, s, i, |s|)
  {
    assert s[..|s|] == s;
  }

  /** Every maximal object of the stream is listed. */
  lemma {:induction false} EveryObjectIsASpan(y: Yajl, s: string, i: int, j: int)
    requires Contract(y) && ObjectSpan(y, s, i, j)
    ensures (i, j) in Spans(y, s)
  {
    var before := s[..|s| - 1];
    if j < |s| {
      SpanOfPrefix(y, s, |s| - 1, i, j);
      EveryObjectIsASpan(y, before, i, j);
    } else {
      assert s[..|s|] == s;
      assert s[..|s| - 1] == before;
      assert Depth(y, before) > 0;
      OpenPosOpens(y, before);
      assert forall k :: 0 <= k <= |before| ==> s[..k] == before[..k];
      assert OpenPos(y, before) == i;
    }
  }

  /** The messages of a stream are exactly its maximal objects, in order, none overlapping. */
  lemma MessagesAreTheMaximalObjects(y: Yajl, s: string)
    requires Contract(y)
    ensures forall i, j :: (i, j) in Spans(y, s) <==> ObjectSpan(y, s, i, j)
    ensures forall k, l :: 0 <= k < l < |Spans(y, s)| ==> Spans(y, s)[k].1 <= Spans(y, s)[l].0
    ensures |Messages(y, s)| == |Spans(y, s)|
    ensures forall k :: 0 <= k < |Spans(y, s)| ==> TextOfSpan(s, Spans(y, s)[k], Messages(y, s)[k])
  {
    AsManyMessagesAsSpans(y, s);
    forall k | 0 <= k < |Spans(y, s)| ensures TextOfSpan(s, Spans(y, s)[k], Messages(y, s)[k]) {
      MessageIsSpan(y, s, k);
    }
    SpansAreObjects(y, s);
    forall i, j | ObjectSpan(y, s, i, j) ensures (i, j) in Spans(y, s) {
      EveryObjectIsASpan(y, s, i, j);
    }
    forall i, j | (i, j) in Spans(y, s) ensures ObjectSpan(y, s, i, j) {
      var k :| 0 <= k < |Spans(y, s)| && Spans(y, s)[k] == (i, j);
    }
  }

  // ---------------------------------------------------------------------
  // A lexer that meets the contract: braces inside strings do not count
  // (sections 4 and 7 of RFC 8259)
  // ---------------------------------------------------------------------

  datatype Lexer = Lexer(inString: bool, escaped: bool, depth: nat)

  function Scan(s: string): Lexer {
    if s == [] then Lexer(false, false, 0)
    else
      var l := Scan(s[..|s| - 1]);
      var c := s[|s| - 1];
      if l.inString then
        if l.escaped then l.(escaped := false)
        else if c == '\\' then l.(escaped := true)
        else l.(inString := c != '\"')
      else if c == '\"' then l.(inString := true)
      else if c == '{' then l.(depth := l.depth + 1)
      else if c == '}' && l.depth > 0 then l.(depth := l.depth - 1)
      else l
  }

  function BraceEvents(s: string): Event {
    if s == [] then Quiet
    else
      var l := Scan(s[..|s| - 1]);
      var c := s[|s| - 1];
      if l.inString then Quiet
      else if c == '{' then Open
      else if c == '}' then if l.depth > 0 then Close else Fail
      else Quiet
  }

  lemma {:induction false} ScanCountsDepth(s: string)
    ensures Depth(BraceEvents, s) == Scan(s).depth
  {
    if s != [] {
      ScanCountsDepth(s[..|s| - 1]);
    }
  }

  /** The contract asked of yajl can be met. */
  lemma BraceEventsMeetContract()
    ensures Contract(BraceEvents)
  {
    forall s: string ensures Lawful(BraceEvents, s) {
      if s != [] {
        ScanCountsDepth(s[..|s| - 1]);
      }
    }
  }
}
