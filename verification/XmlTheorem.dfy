/**
 The transducer on whole documents and on sequences of documents, by induction
 over the tree.
 */
module XmlTheorem {
  import opened DecoderApi
  import opened YajlGen
  import opened XmlDoc
  import opened XmlTransducer
  import opened XmlCorrect

  predicate HasTail(kids: Kids) {
    match kids
    case NoKids => false
    case Kid(_, tail, rest) => tail != [] || HasTail(rest)
  }

  /** The frame that the content of an element leaves. */
  function FrameAfter(f: Frame, kids: Kids): Frame {
    Frame(f.text || HasTail(kids), f.kids || kids.Kid?)
  }

  /** From `st` to `r`: the element above `fr` is open with frame `f`, and the buffer grew by `text`. */
  ghost predicate Prints(st: State, r: State, fr: seq<Frame>, outer: seq<GState>, f: Frame,
                         base: string, text: string, extra: nat) {
    AtContent(r, fr, outer, f) && Quietly(st, r) && Grew(base, st.buf, r.buf, text, extra)
  }

  lemma {:induction false} PrintsTwice(st: State, s: State, r: State, fr: seq<Frame>, outer: seq<GState>, f: Frame,
                    fr': seq<Frame>, outer': seq<GState>, f': Frame,
                    base: string, t: string, u: string, tu: string, x: nat, y: nat, xy: nat)
    requires Prints(st, s, fr, outer, f, base, t, x) && Prints(s, r, fr', outer', f', base, u, y)
    requires tu == t + u && xy == x + y
    ensures Prints(st, r, fr', outer', f', base, tu, xy)
  {
    GrewTwice(base, st.buf, s.buf, r.buf, t, u, x, y);
  }

  // ---------------------------------------------------------------------
  // Documents that the generator can nest
  // ---------------------------------------------------------------------

  lemma {:induction false} StartPrints(e: Elem, st: State, fr: seq<Frame>, outer: seq<GState>, f: Frame, base: string)
    requires AtContent(st, fr, outer, f) && Above(base, st.buf)
    requires |outer| + 1 < MAX_DEPTH && HeadFits(e.attrs, |outer| + 2)
    ensures Prints(st, OnStart(st, e.tag, e.attrs), fr + [f.(kids := true)],
                   outer + [MapVal] + [if f.kids then InArray else ArrayStart], Frame(false, false),
                   base, Lead(f.kids) + Head(e.tag, e.attrs), 0)
  {
    StartChild(st, fr, outer, f, e.tag, e.attrs);
    assert Room(f.kids) + Sep(if f.kids then InArray else ArrayStart) == Lead(f.kids);
    GrewExactly(base, st.buf, OnStart(st, e.tag, e.attrs).buf, Lead(f.kids) + Head(e.tag, e.attrs));
  }

  lemma {:induction false} EndPrints(st: State, fr: seq<Frame>, outer: seq<GState>, f: Frame, arr: GState, inner: Frame, base: string)
    requires AtContent(st, fr + [f], outer + [MapVal] + [arr], inner) && Above(base, st.buf)
    requires f.kids && (arr == ArrayStart || arr == InArray) && |outer| + 1 < MAX_DEPTH
    ensures Prints(st, OnEnd(st), fr, outer, f, base, CloseText(inner.kids), 0)
  {
    EndChild(st, fr + [f], outer + [MapVal] + [arr], inner);
    ContentOf(OnEnd(st), fr, outer, f, arr);
  }

  lemma {:induction false} RunElemSteps(st: State, e: Elem, st3: State)
    requires st3 == RunKids(RunText(OnStart(st, e.tag, e.attrs), e.text), e.kids)
    requires st3.failed || st3.frames != []
    ensures RunElem(st, e) == OnEnd(st3)
  {
  }

  lemma {:induction false} RunKidsSteps(st: State, e: Elem, tail: TextRun, rest: Kids)
    ensures RunKids(st, Kid(e, tail, rest)) == RunKids(RunText(RunElem(st, e), tail), rest)
  {
  }

  /** A whole child, from its start tag to its end tag; its map is still open afterwards. */
  lemma {:induction false} ChildPrints(e: Elem, st: State, r: State, fr: seq<Frame>, outer: seq<GState>, f: Frame,
                                       base: string)
    requires AtContent(st, fr, outer, f) && Above(base, st.buf)
    requires |outer| + 1 < MAX_DEPTH && Fits(e, |outer| + 2)
    requires r == RunElem(st, e)
    ensures Prints(st, r, fr, outer, f.(kids := true), base, Lead(f.kids) + Unclosed(e), ExtraRuns(e))
    decreases e, 2
  {
    var st3 := RunKids(RunText(OnStart(st, e.tag, e.attrs), e.text), e.kids);
    ChildUpToEnd(e, st, st3, fr, outer, f, base);
    RunElemSteps(st, e, st3);
    ChildEnds(e, st, st3, r, fr, outer, f, base);
  }

  /** What a child has printed when its end tag comes. */
  function Opened(e: Elem, more: bool): string {
    Lead(more) + Head(e.tag, e.attrs) + (RunOut(false, e.text) + KidsOut(false, e.kids))
  }

  /** A child up to its end tag. */
  ghost predicate ChildIsOpen(e: Elem, st: State, st3: State, fr: seq<Frame>, outer: seq<GState>, f: Frame,
                              base: string) {
    Prints(st, st3, fr + [f.(kids := true)], outer + [MapVal] + [if f.kids then InArray else ArrayStart],
           FrameAfter(Frame(e.text != [], false), e.kids), base, Opened(e, f.kids), ExtraRuns(e))
  }

  lemma {:induction false} ChildUpToEnd(e: Elem, st: State, st3: State, fr: seq<Frame>, outer: seq<GState>, f: Frame,
                                        base: string)
    requires AtContent(st, fr, outer, f) && Above(base, st.buf)
    requires |outer| + 1 < MAX_DEPTH && Fits(e, |outer| + 2)
    requires st3 == RunKids(RunText(OnStart(st, e.tag, e.attrs), e.text), e.kids)
    ensures ChildIsOpen(e, st, st3, fr, outer, f, base)
    decreases e, 1
  {
    var fr', outer' := fr + [f.(kids := true)], outer + [MapVal] + [if f.kids then InArray else ArrayStart];
    var st1 := OnStart(st, e.tag, e.attrs);
    StartPrints(e, st, fr, outer, f, base);
    FitsUnfold(e, |outer| + 2);
    ContentPrints(e, st1, st3, fr', outer', base);
    PrintsTwice(st, st1, st3, fr', outer', Frame(false, false),
                fr', outer', FrameAfter(Frame(e.text != [], false), e.kids), base,
                Lead(f.kids) + Head(e.tag, e.attrs), RunOut(false, e.text) + KidsOut(false, e.kids),
                Opened(e, f.kids), 0, ExtraRuns(e), ExtraRuns(e));
  }

  lemma {:induction false} ChildEnds(e: Elem, st: State, st3: State, r: State, fr: seq<Frame>, outer: seq<GState>,
                                     f: Frame, base: string)
    requires ChildIsOpen(e, st, st3, fr, outer, f, base) && |outer| + 1 < MAX_DEPTH && r == OnEnd(st3)
    ensures Prints(st, r, fr, outer, f.(kids := true), base, Lead(f.kids) + Unclosed(e), ExtraRuns(e))
  {
    var arr := if f.kids then InArray else ArrayStart;
    var f', full := f.(kids := true), FrameAfter(Frame(e.text != [], false), e.kids);
    EndPrints(st3, fr, outer, f', arr, full, base);
    OpenedThenClosed(e, f.kids);
    PrintsTwice(st, st3, r, fr + [f'], outer + [MapVal] + [arr], full, fr, outer, f', base,
                Opened(e, f.kids), CloseText(e.kids.Kid?), Lead(f.kids) + Unclosed(e), ExtraRuns(e), 0, ExtraRuns(e));
  }

  lemma {:induction false} OpenedThenClosed(e: Elem, more: bool)
    ensures Lead(more) + Unclosed(e) == Opened(e, more) + CloseText(e.kids.Kid?)
  {
    UnclosedAsPrinted(e);
    ElementPrinted(Lead(more), Head(e.tag, e.attrs), RunOut(false, e.text) + KidsOut(false, e.kids),
                   CloseText(e.kids.Kid?));
  }

  lemma {:induction false} ElementPrinted(lead: string, head: string, body: string, close: string)
    ensures lead + head + body + close == lead + (head + (body + close))
  {
  }

  /** The content of an open element: its text and its children. */
  lemma {:induction false} ContentPrints(e: Elem, st: State, r: State, fr: seq<Frame>, outer: seq<GState>, base: string)
    requires AtContent(st, fr, outer, Frame(false, false)) && Above(base, st.buf) && KidsFit(e.kids, |outer|)
    requires r == RunKids(RunText(st, e.text), e.kids)
    ensures Prints(st, r, fr, outer, FrameAfter(Frame(e.text != [], false), e.kids),
                   base, RunOut(false, e.text) + KidsOut(false, e.kids), ExtraRuns(e))
    decreases e, 0
  {
    var f := Frame(e.text != [], false);
    var st1 := RunText(st, e.text);
    TextPrints(st, st1, fr, outer, Frame(false, false), e.text, base);
    KidsPrint(e.kids, st1, r, fr, outer, f, base);
    PrintsTwice(st, st1, r, fr, outer, f, fr, outer, FrameAfter(f, e.kids), base,
                RunOut(false, e.text), KidsOut(false, e.kids), RunOut(false, e.text) + KidsOut(false, e.kids),
                0, ExtraRuns(e), ExtraRuns(e));
  }

  lemma {:induction false} TextPrints(st: State, r: State, fr: seq<Frame>, outer: seq<GState>, f: Frame, run: TextRun, base: string)
    requires AtContent(st, fr, outer, f) && Above(base, st.buf)
    requires r == RunText(st, run)
    ensures Prints(st, r, fr, outer, f.(text := f.text || run != []), base,
                   RunOut(f.kids, run), if f.text && run != [] then 1 else 0)
  {
    TextGrows(st, fr, outer, f, run, base);
  }

  /** One child and its tail. */
  lemma {:induction false} KidPrints(e: Elem, tail: TextRun, st: State, r: State, fr: seq<Frame>,
                                     outer: seq<GState>, f: Frame, base: string)
    requires AtContent(st, fr, outer, f) && Above(base, st.buf)
    requires |outer| + 1 < MAX_DEPTH && Fits(e, |outer| + 2)
    requires r == RunText(RunElem(st, e), tail)
    ensures Prints(st, r, fr, outer, Frame(f.text || tail != [], true), base,
                   Lead(f.kids) + Unclosed(e) + RunOut(true, tail),
                   ExtraRuns(e) + if f.text && tail != [] then 1 else 0)
    decreases e, 3
  {
    var s := RunElem(st, e);
    var f1, f2 := Frame(f.text, true), Frame(f.text || tail != [], true);
    var one, x := Lead(f.kids) + Unclosed(e), if f.text && tail != [] then 1 else 0;
    ChildPrints(e, st, s, fr, outer, f, base);
    TextPrints(s, r, fr, outer, f1, tail, base);
    PrintsTwice(st, s, r, fr, outer, f1, fr, outer, f2, base, one, RunOut(true, tail), one + RunOut(true, tail),
                ExtraRuns(e), x, ExtraRuns(e) + x);
  }

  lemma {:induction false} NoKidsPrint(st: State, fr: seq<Frame>, outer: seq<GState>, f: Frame, base: string)
    requires AtContent(st, fr, outer, f) && Above(base, st.buf)
    ensures Prints(st, RunKids(st, NoKids), fr, outer, FrameAfter(f, NoKids), base,
                   KidsOut(f.kids, NoKids), ExtraInKids(f.text, NoKids))
  {
    assert st.buf + "" == st.buf;
  }

  lemma {:induction false} KidsUnfold(f: Frame, e: Elem, tail: TextRun, rest: Kids)
    ensures var kids := Kid(e, tail, rest);
            var f2 := Frame(f.text || tail != [], true);
            && KidsOut(f.kids, kids) == Lead(f.kids) + Unclosed(e) + RunOut(true, tail) + KidsOut(true, rest)
            && FrameAfter(f, kids) == FrameAfter(f2, rest)
            && ExtraInKids(f.text, kids) ==
               (ExtraRuns(e) + if f.text && tail != [] then 1 else 0) + ExtraInKids(f2.text, rest)
  {
  }

  lemma {:induction false} KidsPrint(kids: Kids, st: State, r: State, fr: seq<Frame>, outer: seq<GState>, f: Frame,
                                     base: string)
    requires AtContent(st, fr, outer, f) && Above(base, st.buf) && KidsFit(kids, |outer|)
    requires r == RunKids(st, kids)
    ensures Prints(st, r, fr, outer, FrameAfter(f, kids), base, KidsOut(f.kids, kids), ExtraInKids(f.text, kids))
    decreases kids, 0
  {
    match kids
    case NoKids => NoKidsPrint(st, fr, outer, f, base);
    case Kid(e, tail, rest) =>
      var s := RunText(RunElem(st, e), tail);
      var f2 := Frame(f.text || tail != [], true);
      RunKidsSteps(st, e, tail, rest);
      KidPrints(e, tail, st, s, fr, outer, f, base);
      KidsPrint(rest, s, r, fr, outer, f2, base);
      KidsJoin(e, tail, rest, st, s, r, fr, outer, f, base);
  }

  lemma {:induction false} KidsJoin(e: Elem, tail: TextRun, rest: Kids, st: State, s: State, r: State, fr: seq<Frame>,
                 outer: seq<GState>, f: Frame, base: string)
    requires Prints(st, s, fr, outer, Frame(f.text || tail != [], true), base,
                    Lead(f.kids) + Unclosed(e) + RunOut(true, tail),
                    ExtraRuns(e) + if f.text && tail != [] then 1 else 0)
    requires Prints(s, r, fr, outer, FrameAfter(Frame(f.text || tail != [], true), rest), base,
                    KidsOut(true, rest), ExtraInKids(f.text || tail != [], rest))
    ensures Prints(st, r, fr, outer, FrameAfter(f, Kid(e, tail, rest)), base,
                   KidsOut(f.kids, Kid(e, tail, rest)), ExtraInKids(f.text, Kid(e, tail, rest)))
  {
    var f2, kids := Frame(f.text || tail != [], true), Kid(e, tail, rest);
    var one := Lead(f.kids) + Unclosed(e) + RunOut(true, tail);
    var x := ExtraRuns(e) + if f.text && tail != [] then 1 else 0;
    KidsUnfold(f, e, tail, rest);
    PrintsTwice(st, s, r, fr, outer, f2, fr, outer, FrameAfter(f, kids), base,
                one, KidsOut(true, rest), KidsOut(f.kids, kids),
                x, ExtraInKids(f2.text, rest), ExtraInKids(f.text, kids));
  }

  // ---------------------------------------------------------------------
  // Documents that nest too deep
  // ---------------------------------------------------------------------

  /** An error was queued by the generator's depth limit; no message was added and `base` is untouched. */
  ghost predicate TooDeep(st: State, r: State, base: string) {
    r.failed && r.msgs == st.msgs && r.rc == InvalidRequest && base <= r.buf
  }

  /** After an error the callbacks change nothing. */
  lemma {:induction false} ElemAfterError(st: State, e: Elem)
    requires st.failed
    ensures RunElem(st, e) == st
    decreases e
  {
    KidsAfterError(st, e.kids);
  }

  lemma {:induction false} KidsAfterError(st: State, kids: Kids)
    requires st.failed
    ensures RunKids(st, kids) == st
    decreases kids
  {
    match kids
    case NoKids =>
    case Kid(e, tail, rest) =>
      ElemAfterError(st, e);
      KidsAfterError(st, rest);
  }

  /** If the head or the content of an element fails, the whole element does. */
  lemma {:induction false} ElemFailsWith(st: State, e: Elem, s: State)
    requires s.failed
    requires s == OnStart(st, e.tag, e.attrs) || s == RunKids(RunText(OnStart(st, e.tag, e.attrs), e.text), e.kids)
    ensures RunElem(st, e) == s
  {
    if s == OnStart(st, e.tag, e.attrs) {
      KidsAfterError(s, e.kids);
    }
  }

  lemma {:induction false} FitsUnfold(e: Elem, n: nat)
    ensures Fits(e, n) <==> HeadFits(e.attrs, n) && KidsFit(e.kids, n)
  {
  }

  lemma {:induction false} FailsInContent(e: Elem, st: State, st1: State, st3: State, base: string)
    requires st1 == OnStart(st, e.tag, e.attrs) && st3 == RunKids(RunText(st1, e.text), e.kids)
    requires Quietly(st, st1) && TooDeep(st1, st3, base)
    ensures TooDeep(st, RunElem(st, e), base)
  {
    ElemFailsWith(st, e, st3);
  }

  lemma {:induction false} HeadTooDeep(st: State, fr: seq<Frame>, outer: seq<GState>, f: Frame, e: Elem, base: string)
    requires AtContent(st, fr, outer, f) && base <= st.buf
    requires !(|outer| + 1 < MAX_DEPTH && HeadFits(e.attrs, |outer| + 2))
    ensures TooDeep(st, RunElem(st, e), base)
  {
    StartChild(st, fr, outer, f, e.tag, e.attrs);
    ElemFailsWith(st, e, OnStart(st, e.tag, e.attrs));
  }

  lemma {:induction false} ChildContentTooDeep(e: Elem, st: State, st1: State, st3: State, fr: seq<Frame>,
                                               outer: seq<GState>, f: Frame, base: string)
    requires AtContent(st, fr, outer, f) && Above(base, st.buf)
    requires |outer| + 1 < MAX_DEPTH && HeadFits(e.attrs, |outer| + 2) && !KidsFit(e.kids, |outer| + 2)
    requires st1 == OnStart(st, e.tag, e.attrs) && st3 == RunKids(RunText(st1, e.text), e.kids)
    ensures Quietly(st, st1) && TooDeep(st1, st3, base)
    decreases e, 2
  {
    StartPrints(e, st, fr, outer, f, base);
    OpenContentTooDeep(e, st, st1, st3, fr + [f.(kids := true)],
                       outer + [MapVal] + [if f.kids then InArray else ArrayStart], base);
  }

  lemma {:induction false} OpenContentTooDeep(e: Elem, st: State, st1: State, st3: State, fr: seq<Frame>,
                                              outer: seq<GState>, base: string)
    requires AtContent(st1, fr, outer, Frame(false, false)) && Above(base, st1.buf) && !KidsFit(e.kids, |outer|)
    requires st3 == RunKids(RunText(st1, e.text), e.kids)
    ensures TooDeep(st1, st3, base)
    decreases e, 1
  {
    ContentTooDeep(e, st1, st3, fr, outer, base);
  }

  lemma {:induction false} ChildTooDeep(e: Elem, st: State, r: State, fr: seq<Frame>, outer: seq<GState>, f: Frame,
                                        base: string)
    requires AtContent(st, fr, outer, f) && Above(base, st.buf)
    requires !(|outer| + 1 < MAX_DEPTH && Fits(e, |outer| + 2))
    requires r == RunElem(st, e)
    ensures TooDeep(st, r, base)
    decreases e, 3
  {
    FitsUnfold(e, |outer| + 2);
    if |outer| + 1 < MAX_DEPTH && HeadFits(e.attrs, |outer| + 2) {
      var st1 := OnStart(st, e.tag, e.attrs);
      var st3 := RunKids(RunText(st1, e.text), e.kids);
      ChildContentTooDeep(e, st, st1, st3, fr, outer, f, base);
      FailsInContent(e, st, st1, st3, base);
    } else {
      HeadTooDeep(st, fr, outer, f, e, base);
    }
  }

  lemma {:induction false} ContentTooDeep(e: Elem, st: State, r: State, fr: seq<Frame>, outer: seq<GState>,
                                          base: string)
    requires AtContent(st, fr, outer, Frame(false, false)) && Above(base, st.buf) && !KidsFit(e.kids, |outer|)
    requires r == RunKids(RunText(st, e.text), e.kids)
    ensures TooDeep(st, r, base)
    decreases e, 0
  {
    var st1 := RunText(st, e.text);
    TextPrints(st, st1, fr, outer, Frame(false, false), e.text, base);
    KidsTooDeep(e.kids, st1, r, fr, outer, Frame(e.text != [], false), base);
  }

  lemma {:induction false} KidsTooDeep(kids: Kids, st: State, r: State, fr: seq<Frame>, outer: seq<GState>, f: Frame,
                                       base: string)
    requires AtContent(st, fr, outer, f) && Above(base, st.buf) && !KidsFit(kids, |outer|)
    requires r == RunKids(st, kids)
    ensures TooDeep(st, r, base)
    decreases kids, 0
  {
    var Kid(e, tail, rest) := kids;
    var s := RunElem(st, e);
    var s2 := RunText(s, tail);
    RunKidsSteps(st, e, tail, rest);
    if |outer| + 1 < MAX_DEPTH && Fits(e, |outer| + 2) {
      KidPrints(e, tail, st, s2, fr, outer, f, base);
      KidsTooDeep(rest, s2, r, fr, outer, Frame(f.text || tail != [], true), base);
    } else {
      ChildTooDeep(e, st, s, fr, outer, f, base);
      KidsAfterError(s, rest);
    }
  }

  // ---------------------------------------------------------------------
  // Whole documents
  // ---------------------------------------------------------------------

  /** Ready for a document: no error, nothing open, generator reset. */
  ghost predicate Ready(st: State) {
    !st.failed && st.frames == [] && st.stack == RESET
  }

  /** A text was appended as one message, `extra` times ten bytes short of `json`. */
  ghost predicate Appended(st: State, r: State, json: string, extra: nat) {
    && Ready(r) && r.rc == st.rc
    && r.msgs == st.msgs + [Slice(|st.buf|, |r.buf| - |st.buf|)]
    && Grew(st.buf, st.buf, r.buf, json, extra)
  }

  /** One document was appended as one message. */
  ghost predicate OneMessage(st: State, r: State, e: Elem) {
    Appended(st, r, Json(e), ExtraRuns(e))
  }

  /** A root up to its end tag. */
  lemma {:induction false} RootContentPrints(e: Elem, st: State, st3: State)
    requires Ready(st) && Fits(e, 1)
    requires st3 == RunKids(RunText(OnStart(st, e.tag, e.attrs), e.text), e.kids)
    ensures AtContent(st3, [], RESET, FrameAfter(Frame(e.text != [], false), e.kids))
    ensures st3.msgs == st.msgs && st3.lastOpenMap == |st.buf| && st3.rc == st.rc
    ensures Grew(st.buf, st.buf, st3.buf,
                 Head(e.tag, e.attrs) + (RunOut(false, e.text) + KidsOut(false, e.kids)), ExtraRuns(e))
  {
    var st1 := OnStart(st, e.tag, e.attrs);
    var body := RunOut(false, e.text) + KidsOut(false, e.kids);
    StartRoot(st, e.tag, e.attrs);
    GrewExactly(st.buf, st.buf, st1.buf, Head(e.tag, e.attrs));
    ContentPrints(e, st1, st3, [], RESET, st.buf);
    GrewTwice(st.buf, st.buf, st1.buf, st3.buf, Head(e.tag, e.attrs), body, 0, ExtraRuns(e));
  }

  lemma {:induction false} JsonAsPrinted(e: Elem)
    ensures Json(e) ==
            Head(e.tag, e.attrs) + (RunOut(false, e.text) + KidsOut(false, e.kids)) + (CloseText(e.kids.Kid?) + "}")
  {
    UnclosedAsPrinted(e);
    JsonText3(Head(e.tag, e.attrs), RunOut(false, e.text) + KidsOut(false, e.kids), CloseText(e.kids.Kid?));
  }

  lemma {:induction false} JsonText3(head: string, body: string, close: string)
    ensures head + (body + close) + "}" == head + body + (close + "}")
  {
  }

  lemma {:induction false} RootFinishes(e: Elem, st: State, st3: State, f: Frame)
    requires st3 == RunKids(RunText(OnStart(st, e.tag, e.attrs), e.text), e.kids)
    requires AtContent(st3, [], RESET, f)
    ensures Finished(st3, f, RunElem(st, e))
  {
    EndRoot(st3, f);
    RunElemSteps(st, e, st3);
  }

  lemma {:induction false} RootPrints(e: Elem, st: State, r: State)
    requires Ready(st) && Fits(e, 1) && r == RunElem(st, e)
    ensures OneMessage(st, r, e)
  {
    var st3 := RunKids(RunText(OnStart(st, e.tag, e.attrs), e.text), e.kids);
    RootContentPrints(e, st, st3);
    var f := FrameAfter(Frame(e.text != [], false), e.kids);
    RootFinishes(e, st, st3, f);
    RootConcludes(e, st, st3, f, r);
  }

  lemma {:induction false} RootConcludes(e: Elem, st: State, st3: State, f: Frame, r: State)
    requires Finished(st3, f, r) && f.kids == e.kids.Kid?
    requires st3.msgs == st.msgs && st3.lastOpenMap == |st.buf| && st3.rc == st.rc
    requires Grew(st.buf, st.buf, st3.buf,
                  Head(e.tag, e.attrs) + (RunOut(false, e.text) + KidsOut(false, e.kids)), ExtraRuns(e))
    ensures OneMessage(st, r, e)
  {
    RootGrows(e, st.buf, st3.buf, r.buf);
    FinishedIsAppended(st, st3, f, r, Json(e), ExtraRuns(e));
  }

  lemma {:induction false} FinishedIsAppended(st: State, st3: State, f: Frame, r: State, json: string, extra: nat)
    requires Finished(st3, f, r) && Grew(st.buf, st.buf, r.buf, json, extra)
    requires st3.msgs == st.msgs && st3.lastOpenMap == |st.buf| && st3.rc == st.rc
    ensures Appended(st, r, json, extra)
  {
  }

  lemma {:induction false} RootGrows(e: Elem, a: string, b: string, c: string)
    requires Grew(a, a, b, Head(e.tag, e.attrs) + (RunOut(false, e.text) + KidsOut(false, e.kids)), ExtraRuns(e))
    requires c == b + (CloseText(e.kids.Kid?) + "}")
    ensures Grew(a, a, c, Json(e), ExtraRuns(e))
  {
    JsonAsPrinted(e);
    GrowsAtEnd(a, b, c, Head(e.tag, e.attrs) + (RunOut(false, e.text) + KidsOut(false, e.kids)),
               CloseText(e.kids.Kid?) + "}", Json(e), ExtraRuns(e));
  }

  lemma {:induction false} GrowsAtEnd(a: string, b: string, c: string, t: string, u: string, tu: string, x: nat)
    requires Grew(a, a, b, t, x) && c == b + u && tu == t + u
    ensures Grew(a, a, c, tu, x)
  {
    GrewExactly(a, b, c, u);
    GrewTwice(a, a, b, c, t, u, x, 0);
  }

  lemma {:induction false} RootTooDeep(e: Elem, st: State, r: State)
    requires Ready(st) && !Fits(e, 1) && r == RunElem(st, e)
    ensures TooDeep(st, r, st.buf)
  {
    var st1 := OnStart(st, e.tag, e.attrs);
    StartRoot(st, e.tag, e.attrs);
    if HeadFits(e.attrs, 1) {
      var st3 := RunKids(RunText(st1, e.text), e.kids);
      ContentTooDeep(e, st1, st3, [], RESET, st.buf);
      ElemFailsWith(st, e, st3);
    } else {
      ElemFailsWith(st, e, st1);
    }
  }

  /**
   One document. It ends in an error exactly when it nests too deep, and then gives no message.
   Otherwise it gives one message, which is the document's JSON exactly when no element holds a
   second text run; each extra run makes the message ten bytes shorter.
   */
  lemma {:induction false} DocumentTheorem(e: Elem, st: State, r: State)
    requires Ready(st) && r == RunElem(st, e)
    ensures r.failed <==> !Fits(e, 1)
    ensures r.failed ==> TooDeep(st, r, st.buf)
    ensures !r.failed ==> OneMessage(st, r, e)
    ensures !r.failed ==> (r.buf == st.buf + Json(e) <==> ExtraRuns(e) == 0)
  {
    if Fits(e, 1) {
      RootPrints(e, st, r);
    } else {
      RootTooDeep(e, st, r);
    }
  }

  /** `<r>a<c/>b</r>`: the tail has no place of its own, so the message is not the document's JSON. */
  lemma {:induction false} MixedContentIsWrong()
    ensures var c := Elem("c", [], [], NoKids);
            var e := Elem("r", [], ["a"], Kid(c, ["b"], NoKids));
            && Fits(e, 1) && ExtraRuns(e) == 1
            && RunElem(INITIAL, e).buf != Json(e)
  {
    var c := Elem("c", [], [], NoKids);
    var e := Elem("r", [], ["a"], Kid(c, ["b"], NoKids));
    assert ExtraRuns(c) == 0;
    assert ExtraInKids(true, NoKids) == 0;
    assert ExtraRuns(e) == 1;
    assert Fits(c, 3);
    assert Fits(e, 1);
    DocumentTheorem(e, INITIAL, RunElem(INITIAL, e));
    assert "" + Json(e) == Json(e);
  }

  // ---------------------------------------------------------------------
  // Callbacks and documents
  // ---------------------------------------------------------------------

  lemma {:induction false} RunAppend(st: State, a: seq<Event>, b: seq<Event>)
    ensures Run(st, a + b) == Run(Run(st, a), b)
    decreases |a|
  {
    if a == [] {
      assert a + b == b;
    } else {
      assert (a + b)[1..] == a[1..] + b;
      RunAppend(Step(st, a[0]), a[1..], b);
    }
  }

  lemma {:induction false} RunSingle(st: State, e: Event)
    ensures Run(st, [e]) == Step(st, e)
  {
    assert [e][1..] == [];
  }

  lemma {:induction false} TextEventsRun(st: State, run: TextRun)
    ensures Run(st, TextEvents(run)) == RunText(st, run)
    decreases |run|
  {
    if run != [] {
      var rest := TextEvents(run[1..]);
      assert TextEvents(run)[1..] == rest && TextEvents(run)[0] == CharData(run[0]);
      var st1 := Step(st, CharData(run[0]));
      TextEventsRun(st1, run[1..]);
      if st.failed || st.frames == [] {
        assert st1 == st;
      }
    }
  }

  /** expat's callbacks for a document drive the transducer over its tree. */
  lemma {:induction false} ElemEventsRun(st: State, e: Elem)
    ensures Run(st, Events(e)) == RunElem(st, e)
    decreases e
  {
    var start, text, kids := StartTag(e.tag, e.attrs), TextEvents(e.text), KidEvents(e.kids);
    var st1 := OnStart(st, e.tag, e.attrs);
    var st2 := RunText(st1, e.text);
    var st3 := RunKids(st2, e.kids);
    calc {
      Run(st, Events(e));
      Run(st, [start] + text + kids + [EndTag]);
    ==  { RunAppend(st, [start] + text + kids, [EndTag]); }
      Run(Run(st, [start] + text + kids), [EndTag]);
    ==  { RunAppend(st, [start] + text, kids); }
      Run(Run(Run(st, [start] + text), kids), [EndTag]);
    ==  { RunAppend(st, [start], text); RunSingle(st, start); }
      Run(Run(Run(st1, text), kids), [EndTag]);
    ==  { TextEventsRun(st1, e.text); }
      Run(Run(st2, kids), [EndTag]);
    ==  { KidEventsRun(st2, e.kids); }
      Run(st3, [EndTag]);
    ==  { RunSingle(st3, EndTag); }
      Step(st3, EndTag);
    ==
      RunElem(st, e);
    }
  }

  lemma {:induction false} KidEventsRun(st: State, kids: Kids)
    ensures Run(st, KidEvents(kids)) == RunKids(st, kids)
    decreases kids
  {
    match kids
    case NoKids =>
    case Kid(e, tail, rest) =>
      var st1 := RunElem(st, e);
      calc {
        Run(st, KidEvents(kids));
        Run(st, Events(e) + TextEvents(tail) + KidEvents(rest));
      ==  { RunAppend(st, Events(e) + TextEvents(tail), KidEvents(rest)); }
        Run(Run(st, Events(e) + TextEvents(tail)), KidEvents(rest));
      ==  { RunAppend(st, Events(e), TextEvents(tail)); ElemEventsRun(st, e); }
        Run(Run(st1, TextEvents(tail)), KidEvents(rest));
      ==  { TextEventsRun(st1, tail); }
        Run(RunText(st1, tail), KidEvents(rest));
      ==  { KidEventsRun(RunText(st1, tail), rest); }
        RunKids(RunText(st1, tail), rest);
      }
  }
}
