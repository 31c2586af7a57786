/**
 Several documents in one decode call, and what holds in every run of the
 callbacks whatever their order: the depth of the generator and the bits used.
 */
module XmlStream {
  import opened DecoderApi
  import opened YajlGen
  import opened XmlDoc
  import opened XmlTransducer
  import opened XmlCorrect
  import opened XmlTheorem

  // ---------------------------------------------------------------------
  // Messages of a sequence of documents
  // ---------------------------------------------------------------------

  function AllEvents(docs: seq<Elem>): seq<Event> {
    if docs == [] then [] else AllEvents(docs[..|docs| - 1]) + Events(docs[|docs| - 1])
  }

  /** Documents before the first that nests too deep. */
  function Fitting(docs: seq<Elem>): (n: nat)
    ensures n <= |docs|
  {
    if docs == [] then 0
    else
      var n := Fitting(docs[..|docs| - 1]);
      if n == |docs| - 1 && Fits(docs[n], 1) then n + 1 else n
  }

  /** The slice `m` of the buffer holds the JSON of `e` exactly when `e` has no extra text runs. */
  ghost predicate MessageOf(buf: string, m: Slice, e: Elem) {
    SliceIs(buf, m, Json(e), ExtraRuns(e) == 0)
  }

  ghost predicate SliceIs(buf: string, m: Slice, json: string, exact: bool) {
    && 0 <= m.off < m.off + m.len <= |buf|
    && (buf[m.off..m.off + m.len] == json <==> exact)
  }

  /** Where message `i` begins: at the start, or where the previous one ends. */
  function Begins(msgs: seq<Slice>, i: nat): int
    requires i <= |msgs|
  {
    if i == 0 then 0 else msgs[i - 1].off + msgs[i - 1].len
  }

  ghost predicate MessagesOf(r: State, docs: seq<Elem>) {
    && |r.msgs| == Fitting(docs)
    && (r.failed <==> Fitting(docs) < |docs|)
    && (!r.failed ==> Ready(r) && Begins(r.msgs, |r.msgs|) == |r.buf|)
    && InOrder(r.buf, r.msgs, docs)
  }

  /** Message i is that of document i, and begins where the previous one ends. */
  ghost predicate InOrder(buf: string, msgs: seq<Slice>, docs: seq<Elem>) {
    && |msgs| <= |docs|
    && forall i {:trigger MessageOf(buf, msgs[i], docs[i])} :: 0 <= i < |msgs| ==>
         MessageOf(buf, msgs[i], docs[i]) && msgs[i].off == Begins(msgs, i)
  }

  lemma {:induction false} MessageStays(a: string, b: string, m: Slice, e: Elem)
    requires a <= b && MessageOf(a, m, e)
    ensures MessageOf(b, m, e)
  {
    assert b[m.off..m.off + m.len] == a[m.off..m.off + m.len];
  }

  lemma {:induction false} NewMessage(st: State, r: State, e: Elem)
    requires OneMessage(st, r, e)
    ensures MessageOf(r.buf, Slice(|st.buf|, |r.buf| - |st.buf|), e)
  {
    NewSlice(st.buf, r.buf, Json(e), ExtraRuns(e));
  }

  lemma NewSlice(a: string, b: string, json: string, extra: nat)
    requires Grew(a, a, b, json, extra)
    ensures SliceIs(b, Slice(|a|, |b| - |a|), json, extra == 0)
  {
    assert b == a + b[|a|..|b|];
    if extra > 0 {
      assert |b| - |a| != |json|;
    }
  }

  /**
   The documents of one call. Message i lies right behind message i - 1, and is the JSON of document
   i exactly when that has no extra text runs. Documents from the first too deep one on give none.
   */
  lemma {:induction false} DocumentsTheorem(docs: seq<Elem>)
    ensures MessagesOf(Run(INITIAL, AllEvents(docs)), docs)
  {
    if docs != [] {
      var before, e := docs[..|docs| - 1], docs[|docs| - 1];
      DocumentsTheorem(before);
      var st := Run(INITIAL, AllEvents(before));
      var r := RunElem(st, e);
      assert Run(INITIAL, AllEvents(docs)) == r by {
        RunAppend(INITIAL, AllEvents(before), Events(e));
        ElemEventsRun(st, e);
      }
      NextDocument(before, e, st, r);
      assert before + [e] == docs;
    }
  }

  lemma {:induction false} NextDocument(before: seq<Elem>, e: Elem, st: State, r: State)
    requires MessagesOf(st, before) && r == RunElem(st, e)
    ensures MessagesOf(r, before + [e])
  {
    if st.failed {
      ElemAfterError(st, e);
      FittingStep(before, e);
      OldMessages(st.buf, r.buf, st.msgs, before, e);
    } else {
      DocumentTheorem(e, st, r);
      if r.failed {
        RefusedDocument(before, e, st, r);
      } else {
        AddedDocument(before, e, st, r);
      }
    }
  }

  lemma {:induction false} FittingStep(before: seq<Elem>, e: Elem)
    ensures Fitting(before + [e]) ==
            Fitting(before) + if Fitting(before) == |before| && Fits(e, 1) then 1 else 0
  {
    var docs := before + [e];
    assert docs[..|docs| - 1] == before && docs[|docs| - 1] == e;
  }

  lemma {:induction false} RefusedDocument(before: seq<Elem>, e: Elem, st: State, r: State)
    requires MessagesOf(st, before) && !st.failed && TooDeep(st, r, st.buf) && !Fits(e, 1)
    ensures MessagesOf(r, before + [e])
  {
    FittingStep(before, e);
    OldMessages(st.buf, r.buf, st.msgs, before, e);
  }

  lemma {:induction false} AddedDocument(before: seq<Elem>, e: Elem, st: State, r: State)
    requires MessagesOf(st, before) && !st.failed && OneMessage(st, r, e) && Fits(e, 1)
    ensures MessagesOf(r, before + [e])
  {
    FittingStep(before, e);
    AddedInOrder(before, e, st, r);
  }

  lemma {:induction false} AddedInOrder(before: seq<Elem>, e: Elem, st: State, r: State)
    requires |st.msgs| == |before| && InOrder(st.buf, st.msgs, before) && Begins(st.msgs, |st.msgs|) == |st.buf|
    requires OneMessage(st, r, e)
    ensures InOrder(r.buf, r.msgs, before + [e])
  {
    NewMessage(st, r, e);
    OldMessages(st.buf, r.buf, st.msgs, before, e);
    AddMessage(r.buf, st.msgs, Slice(|st.buf|, |r.buf| - |st.buf|), before, e);
  }

  lemma {:induction false} AddMessage(b: string, msgs: seq<Slice>, m: Slice, docs: seq<Elem>, e: Elem)
    requires |msgs| == |docs| && InOrder(b, msgs, docs + [e])
    requires MessageOf(b, m, e) && m.off == Begins(msgs, |msgs|)
    ensures InOrder(b, msgs + [m], docs + [e])
  {
    var all := msgs + [m];
    forall i | 0 <= i < |all|
      ensures MessageOf(b, all[i], (docs + [e])[i]) && all[i].off == Begins(all, i)
    {
      if i < |msgs| {
        assert all[i] == msgs[i] && Begins(all, i) == Begins(msgs, i);
      } else {
        assert all[i] == m && (docs + [e])[i] == e;
      }
    }
  }

  lemma {:induction false} OldMessages(a: string, b: string, msgs: seq<Slice>, docs: seq<Elem>, e: Elem)
    requires a <= b && InOrder(a, msgs, docs)
    ensures InOrder(b, msgs, docs + [e])
  {
    forall i | 0 <= i < |msgs|
      ensures MessageOf(b, msgs[i], (docs + [e])[i]) && msgs[i].off == Begins(msgs, i)
    {
      assert MessageOf(a, msgs[i], docs[i]);
      MessageStays(a, b, msgs[i], docs[i]);
    }
  }

  // ---------------------------------------------------------------------
  // Depth, in every run
  // ---------------------------------------------------------------------

  /**
   Without error the generator's depth is 2 * stack_pos - 1, plus 2 if the current frame has its
   children bit; every frame below the current one has it.
   */
  ghost predicate DepthOk(st: State) {
    && 1 <= |st.stack| <= MAX_DEPTH
    && (st.failed ==> |st.frames| <= 65)
    && (!st.failed && st.frames == [] ==> |st.stack| == 1)
    && (!st.failed && st.frames != [] ==>
          |st.stack| - 1 == 2 * |st.frames| - 1 + if TopFrame(st).kids then 2 else 0)
    && (!st.failed ==> forall k :: 0 <= k < |st.frames| - 1 ==> st.frames[k].kids)
  }

  lemma {:induction false} DeltasAppend(a: seq<Token>, b: seq<Token>)
    ensures Deltas(a + b) == Deltas(a) + Deltas(b)
    decreases |a|
  {
    if a == [] {
      assert a + b == b;
    } else {
      assert (a + b)[1..] == a[1..] + b;
      DeltasAppend(a[1..], b);
    }
  }

  lemma {:induction false} PairDeltas(attrs: seq<Attr>)
    ensures Deltas(PairTokens(attrs)) == 0
  {
    if attrs != [] {
      PairDeltas(attrs[1..]);
      DeltasAppend([Str(attrs[0].name), Str(attrs[0].value)], PairTokens(attrs[1..]));
    }
  }

  lemma {:induction false} DeltasOfTwo(a: Token, b: Token)
    ensures Deltas([a]) == Delta(a) && Deltas([a, b]) == Delta(a) + Delta(b)
  {
    assert [a][1..] == [] && [a, b][1..] == [b] && [b][1..] == [];
    assert Deltas([b]) == Delta(b);
  }

  lemma {:induction false} HeadDeltas(tag: string, attrs: seq<Attr>)
    ensures Deltas([MapOpen, Key("tag"), Str(tag)] + AttrTokens(attrs)) == 1
  {
    DeltasAppend([MapOpen, Key("tag"), Str(tag)], AttrTokens(attrs));
    DeltasAppend([MapOpen], [Key("tag"), Str(tag)]);
    assert [MapOpen] + [Key("tag"), Str(tag)] == [MapOpen, Key("tag"), Str(tag)];
    DeltasOfTwo(Key("tag"), Str(tag));
    DeltasOfTwo(MapOpen, MapClose);
    if attrs != [] {
      PairDeltas(attrs);
      DeltasOfTwo(MapClose, MapOpen);
      DeltasOfTwo(Key("attributes"), MapOpen);
      DeltasAppend([Key("attributes"), MapOpen] + PairTokens(attrs), [MapClose]);
      DeltasAppend([Key("attributes"), MapOpen], PairTokens(attrs));
    }
  }

  /** With room made for it, a child sits at the depth that its frame will account for. */
  ghost predicate RoomOk(st: State) {
    && |st.stack| == 2 * |st.frames| + 1
    && forall k :: 0 <= k < |st.frames| ==> st.frames[k].kids
  }

  lemma {:induction false} RoomKeepsDepth(st: State)
    requires DepthOk(st) && !st.failed
    ensures var r := MakeRoom(st);
            1 <= |r.stack| <= MAX_DEPTH && |r.frames| == |st.frames| && (!r.failed ==> RoomOk(r))
  {
    var o := Out(st.stack, st.buf, Fine);
    EmitDepth(o, [Key("children"), ArrayOpen]);
    EmitDepth(o, [MapClose]);
    DeltasOfTwo(Key("children"), ArrayOpen);
    DeltasOfTwo(MapClose, ArrayOpen);
  }

  lemma {:induction false} OpenKeepsDepth(st: State, tag: string, attrs: seq<Attr>)
    requires RoomOk(st) && |st.stack| <= MAX_DEPTH && !st.failed
    ensures DepthOk(OpenElement(st, tag, attrs))
  {
    EmitDepth(Out(st.stack, st.buf, Fine), [MapOpen, Key("tag"), Str(tag)] + AttrTokens(attrs));
    HeadDeltas(tag, attrs);
  }

  lemma {:induction false} StartKeepsDepth(st: State, tag: string, attrs: seq<Attr>)
    requires DepthOk(st)
    ensures DepthOk(OnStart(st, tag, attrs))
  {
    if !st.failed {
      RoomKeepsDepth(st);
      var room := MakeRoom(st);
      if !room.failed {
        OpenKeepsDepth(room, tag, attrs);
      }
    }
  }

  lemma {:induction false} EndKeepsDepth(st: State)
    requires DepthOk(st) && (!st.failed ==> st.frames != [])
    ensures DepthOk(OnEnd(st))
  {
    if !st.failed {
      EmitDepth(Out(st.stack, st.buf, Fine), [MapClose, ArrayClose]);
      var st1 := CloseKids(st);
      EmitDepth(Out(st1.stack, st1.buf, Fine), [MapClose]);
      DeltasOfTwo(MapClose, ArrayClose);
    }
  }

  lemma {:induction false} TextKeepsDepth(st: State, text: string)
    requires DepthOk(st) && st.frames != [] && !st.failed
    ensures DepthOk(OnText(st, text))
  {
    var key := if TopFrame(st).kids then "tail" else "text";
    EmitDepth(Out(st.stack, st.buf, Fine), [Key(key), Str(text)]);
    DeltasOfTwo(Key(key), Str(text));
  }

  lemma {:induction false} StepKeepsDepth(st: State, e: Event)
    requires DepthOk(st)
    ensures DepthOk(Step(st, e))
  {
    match e
    case StartTag(tag, attrs) => StartKeepsDepth(st, tag, attrs);
    case EndTag => if !st.failed && st.frames != [] { EndKeepsDepth(st); }
    case CharData(piece) => if !st.failed && st.frames != [] { TextKeepsDepth(st, piece); }
  }

  /** In every run of callbacks, in any order, the depth law holds and no bit past the vector is touched. */
  lemma {:induction false} DepthLaw(st: State, es: seq<Event>)
    requires DepthOk(st)
    ensures DepthOk(Run(st, es))
    ensures 2 * |Run(st, es).frames| + 1 < 256
    ensures !Run(st, es).failed ==> |Run(st, es).frames| <= 64
    decreases |es|
  {
    if es != [] {
      StepKeepsDepth(st, es[0]);
      DepthLaw(Step(st, es[0]), es[1..]);
    }
  }
}
