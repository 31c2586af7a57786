/**
 The transducer against the recursive serializer, for every document.

 Results: a document that is too deep for the generator ends in an error and
 gives no message; any other gives one message, whose length is that of the
 document's JSON less ten bytes for each extra text run; so the message is the
 document's JSON exactly when no element has a second text run.
 */
module XmlCorrect {
  import opened DecoderApi
  import opened YajlGen
  import opened XmlDoc
  import opened XmlTransducer

  // ---------------------------------------------------------------------
  // Tag and attributes
  // ---------------------------------------------------------------------

  lemma {:induction false} EmitOne(o: Out, a: Token)
    ensures EmitAll(o, [a]) == Emit(o, a)
  {
    assert [a][1..] == [];
  }

  lemma {:induction false} EmitTwo(o: Out, a: Token, b: Token)
    ensures EmitAll(o, [a, b]) == Emit(Emit(o, a), b)
  {
    assert [a, b][1..] == [b];
    EmitOne(Emit(o, a), b);
  }

  /** Appending to a buffer can be regrouped. */
  lemma {:induction false} Regroup(a: string, b: string, c: string, d: string, e: string)
    ensures a + b + c == a + (b + c)
    ensures a + b + c + d == a + (b + c + d)
    ensures a + b + c + d + e == a + (b + c + d + e)
  {
  }

  lemma {:induction false} EmitPair(base: seq<GState>, g: GState, buf: string, a: Attr)
    requires g == MapStart || g == MapKey
    ensures EmitAll(Out(base + [g], buf, Fine), [Str(a.name), Str(a.value)]) ==
            Out(base + [MapKey], buf + Sep(g) + (Quote(a.name) + ":" + Quote(a.value)), Fine)
  {
    var o := Out(base + [g], buf, Fine);
    var buf1 := buf + Sep(g) + Quote(a.name);
    calc {
      EmitAll(o, [Str(a.name), Str(a.value)]);
    ==  { EmitTwo(o, Str(a.name), Str(a.value)); }
      Emit(Emit(o, Str(a.name)), Str(a.value));
    ==  { EmitStr(base, g, buf, a.name); }
      Emit(Out(base + [MapVal], buf1, Fine), Str(a.value));
    ==  { EmitStr(base, MapVal, buf1, a.value); }
      Out(base + [MapKey], buf1 + ":" + Quote(a.value), Fine);
    ==  { Regroup(buf + Sep(g), Quote(a.name), ":", Quote(a.value), ""); }
      Out(base + [MapKey], buf + Sep(g) + (Quote(a.name) + ":" + Quote(a.value)), Fine);
    }
  }

  /** The attribute pairs, from the first one (g is MapStart) or from a later one (g is MapKey). */
  lemma {:induction false} EmitPairs(base: seq<GState>, g: GState, buf: string, attrs: seq<Attr>)
    requires attrs != [] && (g == MapStart || g == MapKey)
    ensures EmitAll(Out(base + [g], buf, Fine), PairTokens(attrs)) ==
            Out(base + [MapKey], buf + Sep(g) + Pairs(attrs), Fine)
    decreases |attrs|
  {
    var o := Out(base + [g], buf, Fine);
    var first := [Str(attrs[0].name), Str(attrs[0].value)];
    var one := Quote(attrs[0].name) + ":" + Quote(attrs[0].value);
    var rest := attrs[1..];
    calc {
      EmitAll(o, PairTokens(attrs));
      EmitAll(o, first + PairTokens(rest));
    ==  { EmitAppend(o, first, PairTokens(rest)); EmitPair(base, g, buf, attrs[0]); }
      EmitAll(Out(base + [MapKey], buf + Sep(g) + one, Fine), PairTokens(rest));
    }
    if rest != [] {
      EmitPairs(base, MapKey, buf + Sep(g) + one, rest);
      PairsText(buf + Sep(g), one, Pairs(rest));
    }
  }

  lemma {:induction false} PairsText(buf: string, one: string, rest: string)
    ensures buf + one + "," + rest == buf + (one + ("," + rest))
  {
  }

  /** `,"key":` as the generator prints it inside a map. */
  lemma {:induction false} EmitKeyInMap(base: seq<GState>, buf: string, k: string)
    ensures Emit(Out(base + [MapKey], buf, Fine), Key(k)) == Out(base + [MapVal], buf + (",\"" + k + "\""), Fine)
  {
    EmitKey(base, MapKey, buf, k);
    assert buf + "," + "\"" + k + "\"" == buf + (",\"" + k + "\"");
  }

  lemma {:induction false} TwoStates(base: seq<GState>, a: GState, b: GState)
    ensures base + [a] + [b] == base + [a, b]
  {
  }

  /** The two keys that a bracket follows. */
  lemma {:induction false} KeyText(buf: string)
    ensures buf + (",\"" + "attributes" + "\"") + ":" + "{" == buf + ",\"attributes\":{"
    ensures buf + (",\"" + "children" + "\"") + ":" + "[" == buf + ",\"children\":["
  {
    assert (",\"" + "attributes" + "\"") + ":" + "{" == ",\"attributes\":{";
    assert (",\"" + "children" + "\"") + ":" + "[" == ",\"children\":[";
  }

  lemma {:induction false} EmitAttrsOpen(base: seq<GState>, buf: string)
    ensures EmitAll(Out(base + [MapKey], buf, Fine), [Key("attributes"), MapOpen]) ==
            if |base| + 1 < MAX_DEPTH
            then Out(base + [MapVal] + [MapStart], buf + ",\"attributes\":{", Fine)
            else Out(base + [MapVal], buf + (",\"" + "attributes" + "\"") + ":", MaxDepthExceeded)
  {
    var o := Out(base + [MapKey], buf, Fine);
    var buf1 := buf + (",\"" + "attributes" + "\"");
    calc {
      EmitAll(o, [Key("attributes"), MapOpen]);
    ==  { EmitTwo(o, Key("attributes"), MapOpen); }
      Emit(Emit(o, Key("attributes")), MapOpen);
    ==  { EmitKeyInMap(base, buf, "attributes"); }
      Emit(Out(base + [MapVal], buf1, Fine), MapOpen);
    }
    EmitOpen(base, MapVal, buf1, MapOpen);
    TwoStates(base, MapVal, MapStart);
    KeyText(buf);
  }

  lemma {:induction false} EmitAttrsRest(base: seq<GState>, buf: string, attrs: seq<Attr>)
    requires attrs != []
    ensures EmitAll(Out(base + [MapVal] + [MapStart], buf, Fine), PairTokens(attrs) + [MapClose]) ==
            Out(base + [MapKey], buf + Pairs(attrs) + "}", Fine)
  {
    var o := Out(base + [MapVal] + [MapStart], buf, Fine);
    calc {
      EmitAll(o, PairTokens(attrs) + [MapClose]);
    ==  { EmitAppend(o, PairTokens(attrs), [MapClose]); }
      EmitAll(EmitAll(o, PairTokens(attrs)), [MapClose]);
    ==  { EmitPairs(base + [MapVal], MapStart, buf, attrs); assert buf + "" == buf; }
      EmitAll(Out(base + [MapVal] + [MapKey], buf + Pairs(attrs), Fine), [MapClose]);
    ==  { EmitOne(Out(base + [MapVal] + [MapKey], buf + Pairs(attrs), Fine), MapClose); }
      Emit(Out(base + [MapVal] + [MapKey], buf + Pairs(attrs), Fine), MapClose);
    ==  { TwoStates(base, MapVal, MapKey);
          EmitClose(base, MapVal, MapKey, buf + Pairs(attrs), MapClose); }
      Out(base + [MapKey], buf + Pairs(attrs) + "}", Fine);
    }
  }

  /** The map of attributes: printed whole, or refused for depth. */
  lemma {:induction false} EmitAttrs(base: seq<GState>, buf: string, attrs: seq<Attr>)
    ensures var o := EmitAll(Out(base + [MapKey], buf, Fine), AttrTokens(attrs));
            if attrs == [] || |base| + 1 < MAX_DEPTH
            then o == Out(base + [MapKey], buf + JsonAttrs(attrs), Fine)
            else o.status == MaxDepthExceeded
  {
    if attrs == [] {
      assert buf + "" == buf;
    } else {
      var o := Out(base + [MapKey], buf, Fine);
      var head, rest := [Key("attributes"), MapOpen], PairTokens(attrs) + [MapClose];
      assert EmitAll(o, AttrTokens(attrs)) == EmitAll(EmitAll(o, head), rest) by {
        assert AttrTokens(attrs) == head + rest;
        EmitAppend(o, head, rest);
      }
      EmitAttrsOpen(base, buf);
      if |base| + 1 < MAX_DEPTH {
        EmitAttrsRest(base, buf + ",\"attributes\":{", attrs);
        Regroup(buf, ",\"attributes\":{", Pairs(attrs), "}", "");
      } else {
        FailureSticks(EmitAll(o, head), rest);
      }
    }
  }

  /** What an element prints before its content. */
  function Head(tag: string, attrs: seq<Attr>): string {
    "{\"tag\":" + Quote(tag) + JsonAttrs(attrs)
  }

  predicate HeadFits(attrs: seq<Attr>, n: nat) {
    n < MAX_DEPTH && (attrs != [] ==> n + 1 < MAX_DEPTH)
  }

  lemma {:induction false} EmitTag(base: seq<GState>, buf: string, tag: string)
    ensures EmitAll(Out(base + [MapStart], buf, Fine), [Key("tag"), Str(tag)]) ==
            Out(base + [MapKey], buf + ("\"tag\":" + Quote(tag)), Fine)
  {
    var o := Out(base + [MapStart], buf, Fine);
    var buf1 := buf + "" + "\"" + "tag" + "\"";
    calc {
      EmitAll(o, [Key("tag"), Str(tag)]);
    ==  { EmitTwo(o, Key("tag"), Str(tag)); }
      Emit(Emit(o, Key("tag")), Str(tag));
    ==  { EmitKey(base, MapStart, buf, "tag"); }
      Emit(Out(base + [MapVal], buf1, Fine), Str(tag));
    ==  { EmitStr(base, MapVal, buf1, tag); }
      Out(base + [MapKey], buf1 + ":" + Quote(tag), Fine);
    }
    assert buf1 + ":" == buf + "\"tag\":";
    Regroup(buf, "\"tag\":", Quote(tag), "", "");
  }

  lemma {:induction false} EmitHeadOpened(inner: seq<GState>, buf: string, tag: string, attrs: seq<Attr>)
    ensures var o := EmitAll(Out(inner + [MapStart], buf, Fine), [Key("tag"), Str(tag)] + AttrTokens(attrs));
            if attrs == [] || |inner| + 1 < MAX_DEPTH
            then o == Out(inner + [MapKey], buf + ("\"tag\":" + Quote(tag)) + JsonAttrs(attrs), Fine)
            else o.status == MaxDepthExceeded
  {
    EmitAppend(Out(inner + [MapStart], buf, Fine), [Key("tag"), Str(tag)], AttrTokens(attrs));
    EmitTag(inner, buf, tag);
    EmitAttrs(inner, buf + ("\"tag\":" + Quote(tag)), attrs);
  }

  /** `stack` ends in a state that expects a value. */
  lemma {:induction false} EmitHead(stack: seq<GState>, buf: string, tag: string, attrs: seq<Attr>)
    requires ValueReady(Top(stack))
    ensures var o := EmitAll(Out(stack, buf, Fine), [MapOpen, Key("tag"), Str(tag)] + AttrTokens(attrs));
            if HeadFits(attrs, |stack|)
            then o == Out(stack + [MapKey], buf + (Sep(Top(stack)) + Head(tag, attrs)), Fine)
            else o.status == MaxDepthExceeded
  {
    var o := Out(stack, buf, Fine);
    var rest := [Key("tag"), Str(tag)] + AttrTokens(attrs);
    assert EmitAll(o, [MapOpen, Key("tag"), Str(tag)] + AttrTokens(attrs)) == EmitAll(Emit(o, MapOpen), rest) by {
      assert [MapOpen, Key("tag"), Str(tag)] + AttrTokens(attrs) == [MapOpen] + rest;
      EmitAppend(o, [MapOpen], rest);
      EmitOne(o, MapOpen);
    }
    EmitHeadRest(stack, buf, tag, attrs);
  }

  lemma {:induction false} EmitHeadRest(stack: seq<GState>, buf: string, tag: string, attrs: seq<Attr>)
    requires ValueReady(Top(stack))
    ensures var o := EmitAll(Emit(Out(stack, buf, Fine), MapOpen), [Key("tag"), Str(tag)] + AttrTokens(attrs));
            if HeadFits(attrs, |stack|)
            then o == Out(stack + [MapKey], buf + (Sep(Top(stack)) + Head(tag, attrs)), Fine)
            else o.status == MaxDepthExceeded
  {
    if |stack| < MAX_DEPTH {
      EmitHeadOpened(stack, buf + Sep(Top(stack)) + "{", tag, attrs);
      HeadText(buf, Sep(Top(stack)), Quote(tag), JsonAttrs(attrs));
    } else {
      FailureSticks(Emit(Out(stack, buf, Fine), MapOpen), [Key("tag"), Str(tag)] + AttrTokens(attrs));
    }
  }

  lemma {:induction false} HeadText(buf: string, sep: string, q: string, attrs: string)
    ensures buf + sep + "{" + ("\"tag\":" + q) + attrs == buf + (sep + ("{\"tag\":" + q + attrs))
  {
    assert "{" + "\"tag\":" == "{\"tag\":";
  }

  // ---------------------------------------------------------------------
  // Inside an open element
  // ---------------------------------------------------------------------

  /** The state of the children array, while its last child is open. */
  function Arr(stack: seq<GState>, outer: seq<GState>): GState {
    if |outer| + 1 < |stack| then stack[|outer| + 1] else ArrayStart
  }

  function ContentStack(outer: seq<GState>, kids: bool, arr: GState): seq<GState> {
    if kids then outer + [MapVal] + [arr] + [MapKey] else outer + [MapKey]
  }

  /** An element is open, with frame `f`, above the frames `fr`; `outer` is the generator below its map. */
  ghost predicate AtContent(st: State, fr: seq<Frame>, outer: seq<GState>, f: Frame) {
    && !st.failed
    && st.frames == fr + [f]
    && st.stack == ContentStack(outer, f.kids, Arr(st.stack, outer))
    && (f.kids ==> |outer| + 1 < MAX_DEPTH)
    && (Arr(st.stack, outer) == ArrayStart || Arr(st.stack, outer) == InArray || !f.kids)
  }

  /** Nothing but generator, buffer and frames changed. */
  ghost predicate Quietly(st: State, r: State) {
    r.msgs == st.msgs && r.lastOpenMap == st.lastOpenMap && r.rc == st.rc
  }

  /** The generator's depth limit queued an error; no message was added and the buffer only grew. */
  ghost predicate RefusedForDepth(st: State, r: State) {
    r.failed && r.msgs == st.msgs && r.rc == InvalidRequest && st.buf <= r.buf
  }

  lemma {:induction false} ContentOf(st: State, fr: seq<Frame>, outer: seq<GState>, f: Frame, arr: GState)
    requires !st.failed && st.frames == fr + [f]
    requires st.stack == ContentStack(outer, f.kids, arr) && (arr == ArrayStart || arr == InArray)
    requires f.kids ==> |outer| + 1 < MAX_DEPTH
    ensures AtContent(st, fr, outer, f)
  {
  }

  /** What the start of a child prints before the child itself. */
  function Room(kids: bool): string {
    if kids then "}" else ",\"children\":["
  }

  /** A parent makes room for a child: it opens the array, or closes the previous child. */
  lemma {:induction false} MakeRoomForChild(st: State, fr: seq<Frame>, outer: seq<GState>, f: Frame)
    requires AtContent(st, fr, outer, f)
    ensures var r := MakeRoom(st);
            if |outer| + 1 < MAX_DEPTH
            then r == st.(stack := outer + [MapVal] + [if f.kids then InArray else ArrayStart],
                          buf := st.buf + Room(f.kids), frames := fr + [f.(kids := true)])
            else RefusedForDepth(st, r)
  {
    if f.kids {
      CloseLastChild(st, outer, Arr(st.stack, outer));
      assert fr + [f.(kids := true)] == st.frames;
    } else {
      OpenArray(st, outer);
      EmitAppends(Out(st.stack, st.buf, Fine), [Key("children"), ArrayOpen]);
    }
  }

  lemma {:induction false} CloseLastChild(st: State, outer: seq<GState>, arr: GState)
    requires st.stack == outer + [MapVal] + [arr] + [MapKey] && (arr == ArrayStart || arr == InArray)
    ensures Gen(st, [MapClose]) == Out(outer + [MapVal] + [InArray], st.buf + "}", Fine)
  {
    var o := Out(st.stack, st.buf, Fine);
    EmitOne(o, MapClose);
    assert st.stack == (outer + [MapVal]) + [arr, MapKey];
    EmitClose(outer + [MapVal], arr, MapKey, st.buf, MapClose);
  }

  lemma {:induction false} OpenArray(st: State, outer: seq<GState>)
    requires st.stack == outer + [MapKey]
    ensures var o := Gen(st, [Key("children"), ArrayOpen]);
            if |outer| + 1 < MAX_DEPTH
            then o == Out(outer + [MapVal] + [ArrayStart], st.buf + ",\"children\":[", Fine)
            else o.status == MaxDepthExceeded
  {
    var o := Out(st.stack, st.buf, Fine);
    var buf1 := st.buf + (",\"" + "children" + "\"");
    assert Gen(st, [Key("children"), ArrayOpen]) == Emit(Out(outer + [MapVal], buf1, Fine), ArrayOpen) by {
      EmitTwo(o, Key("children"), ArrayOpen);
      EmitKeyInMap(outer, st.buf, "children");
    }
    EmitOpen(outer, MapVal, buf1, ArrayOpen);
    TwoStates(outer, MapVal, ArrayStart);
    KeyText(st.buf);
  }

  lemma {:induction false} OpenElementPrints(st: State, tag: string, attrs: seq<Attr>)
    requires !st.failed && ValueReady(Top(st.stack))
    ensures var r := OpenElement(st, tag, attrs);
            if HeadFits(attrs, |st.stack|)
            then r == st.(frames := st.frames + [Frame(false, false)], stack := st.stack + [MapKey],
                          buf := st.buf + (Sep(Top(st.stack)) + Head(tag, attrs)))
            else RefusedForDepth(st, r)
  {
    EmitHead(st.stack, st.buf, tag, attrs);
    EmitAppends(Out(st.stack, st.buf, Fine), [MapOpen, Key("tag"), Str(tag)] + AttrTokens(attrs));
  }

  /** The start tag of a child. */
  lemma {:induction false} StartChild(st: State, fr: seq<Frame>, outer: seq<GState>, f: Frame, tag: string, attrs: seq<Attr>)
    requires AtContent(st, fr, outer, f)
    ensures var r := OnStart(st, tag, attrs);
            var arr := if f.kids then InArray else ArrayStart;
            if |outer| + 1 < MAX_DEPTH && HeadFits(attrs, |outer| + 2)
            then && AtContent(r, fr + [f.(kids := true)], outer + [MapVal] + [arr], Frame(false, false))
                 && Quietly(st, r)
                 && r.buf == st.buf + (Room(f.kids) + Sep(arr) + Head(tag, attrs))
            else RefusedForDepth(st, r)
  {
    MakeRoomForChild(st, fr, outer, f);
    if |outer| + 1 < MAX_DEPTH {
      var arr := if f.kids then InArray else ArrayStart;
      OpenInRoom(MakeRoom(st), fr + [f.(kids := true)], outer + [MapVal], arr, tag, attrs);
      RoomText(st.buf, Room(f.kids), Sep(arr), Head(tag, attrs));
    }
  }

  /** A child opens where there is room for it. */
  lemma {:induction false} OpenInRoom(st: State, fr: seq<Frame>, below: seq<GState>, arr: GState, tag: string, attrs: seq<Attr>)
    requires !st.failed && st.frames == fr && st.stack == below + [arr] && (arr == InArray || arr == ArrayStart)
    ensures var r := OpenElement(st, tag, attrs);
            if HeadFits(attrs, |below| + 1)
            then && AtContent(r, fr, below + [arr], Frame(false, false))
                 && Quietly(st, r)
                 && r.buf == st.buf + (Sep(arr) + Head(tag, attrs))
            else RefusedForDepth(st, r)
  {
    OpenElementPrints(st, tag, attrs);
    if HeadFits(attrs, |below| + 1) {
      ContentOf(OpenElement(st, tag, attrs), fr, below + [arr], Frame(false, false), ArrayStart);
    }
  }

  lemma {:induction false} RoomText(buf: string, room: string, sep: string, head: string)
    ensures buf + room + (sep + head) == buf + (room + sep + head)
  {
    Regroup(buf, room, sep + head, "", "");
    Regroup(room, sep, head, "", "");
  }

  /** The start tag of a root. */
  lemma {:induction false} StartRoot(st: State, tag: string, attrs: seq<Attr>)
    requires !st.failed && st.frames == [] && st.stack == RESET
    ensures var r := OnStart(st, tag, attrs);
            if HeadFits(attrs, 1)
            then && AtContent(r, [], RESET, Frame(false, false))
                 && r.msgs == st.msgs && r.lastOpenMap == |st.buf| && r.rc == st.rc
                 && r.buf == st.buf + Head(tag, attrs)
            else RefusedForDepth(st, r)
  {
    OpenElementPrints(MakeRoom(st), tag, attrs);
    assert "" + Head(tag, attrs) == Head(tag, attrs);
  }

  /** What the end tag prints for the children. */
  function CloseText(kids: bool): string {
    if kids then "}]" else ""
  }

  lemma {:induction false} CloseKidsPrints(st: State, fr: seq<Frame>, outer: seq<GState>, f: Frame)
    requires AtContent(st, fr, outer, f)
    ensures CloseKids(st) == st.(stack := outer + [MapKey], buf := st.buf + CloseText(f.kids))
  {
    if f.kids {
      CloseLastChild(st, outer, Arr(st.stack, outer));
      var o := Out(st.stack, st.buf, Fine);
      var o1 := Out(outer + [MapVal] + [InArray], st.buf + "}", Fine);
      EmitTwo(o, MapClose, ArrayClose);
      EmitOne(o, MapClose);
      assert o1.stack == outer + [MapVal, InArray];
      EmitClose(outer, MapVal, InArray, st.buf + "}", ArrayClose);
      assert st.buf + "}" + "]" == st.buf + "}]";
    } else {
      assert st.buf + "" == st.buf;
    }
  }

  /** The end tag of a child leaves its map open. */
  lemma {:induction false} EndChild(st: State, fr: seq<Frame>, outer: seq<GState>, f: Frame)
    requires AtContent(st, fr, outer, f) && fr != []
    ensures OnEnd(st) == st.(stack := outer + [MapKey], buf := st.buf + CloseText(f.kids), frames := fr)
  {
    CloseKidsPrints(st, fr, outer, f);
    assert (fr + [f])[..|fr + [f]| - 1] == fr;
  }

  /** The root whose content ended in `st` is closed, and its message is queued. */
  ghost predicate Finished(st: State, f: Frame, r: State) {
    && !r.failed && r.frames == [] && r.stack == RESET && r.rc == st.rc
    && r.buf == st.buf + (CloseText(f.kids) + "}")
    && r.msgs == st.msgs + [Slice(st.lastOpenMap, |r.buf| - st.lastOpenMap)]
    && r.lastOpenMap == NO_OPEN_MAP
  }

  /** The end tag of the root closes everything and queues the message. */
  lemma {:induction false} EndRoot(st: State, f: Frame)
    requires AtContent(st, [], RESET, f)
    ensures Finished(st, f, OnEnd(st))
  {
    CloseKidsPrints(st, [], RESET, f);
    var st2 := CloseKids(st).(frames := []);
    assert st.frames[..|st.frames| - 1] == [];
    EmitOne(Out(st2.stack, st2.buf, Fine), MapClose);
    assert RESET + [MapKey] == [] + [GState.Start, MapKey];
    EmitClose([], GState.Start, MapKey, st2.buf, MapClose);
    Regroup(st.buf, CloseText(f.kids), "}", "", "");
  }

  // ---------------------------------------------------------------------
  // Text
  // ---------------------------------------------------------------------

  function TextKey(kids: bool): string {
    if kids then ",\"tail\":" else ",\"text\":"
  }

  /** The first piece of the first run: key and string. */
  lemma {:induction false} FirstPiece(st: State, fr: seq<Frame>, outer: seq<GState>, f: Frame, piece: string)
    requires AtContent(st, fr, outer, f) && !f.text
    ensures OnText(st, piece) ==
            st.(buf := st.buf + (TextKey(f.kids) + Quote(piece)), frames := fr + [f.(text := true)])
  {
    var below := st.stack[..|st.stack| - 1];
    var key := if f.kids then "tail" else "text";
    var o := Out(st.stack, st.buf, Fine);
    var buf1 := st.buf + (",\"" + key + "\"");
    assert st.stack == below + [MapKey];
    calc {
      Gen(st, [Key(key), Str(piece)]);
    ==  { EmitTwo(o, Key(key), Str(piece)); }
      Emit(Emit(o, Key(key)), Str(piece));
    ==  { EmitKeyInMap(below, st.buf, key); }
      Emit(Out(below + [MapVal], buf1, Fine), Str(piece));
    ==  { EmitStr(below, MapVal, buf1, piece); }
      Out(below + [MapKey], buf1 + ":" + Quote(piece), Fine);
    }
    assert buf1 + ":" == st.buf + TextKey(f.kids);
    Regroup(st.buf, TextKey(f.kids), Quote(piece), "", "");
    assert (fr + [f])[..|fr + [f]| - 1] == fr;
  }

  /** Later pieces go into the string at the end of the buffer, whatever it is. */
  lemma {:induction false} LaterPieces(st: State, run: TextRun)
    requires !st.failed && st.frames != [] && TopFrame(st).text && st.buf != [] && run != []
    ensures RunText(st, run) == st.(buf := PopBack(st.buf) + Enc(Join(run)) + "\"")
    decreases |run|
  {
    var head, rest := run[0], run[1..];
    var st1 := OnText(st, head);
    assert PopBack(st1.buf) == PopBack(st.buf) + Enc(head);
    if rest == [] {
      assert Join(run) == head + [] == head;
    } else {
      LaterPieces(st1, rest);
      EncAppend(head, Join(rest));
      Regroup(PopBack(st.buf), Enc(head), Enc(Join(rest)), "", "");
    }
  }

  /** A run split across callbacks prints as the run in one callback. */
  lemma {:induction false} SplitRun(st: State, fr: seq<Frame>, outer: seq<GState>, f: Frame, run: TextRun)
    requires AtContent(st, fr, outer, f) && !f.text && run != []
    ensures RunText(st, run) == OnText(st, Join(run))
    ensures RunText(st, run) ==
            st.(buf := st.buf + (TextKey(f.kids) + Quote(Join(run))), frames := fr + [f.(text := true)])
  {
    FirstPiece(st, fr, outer, f, run[0]);
    FirstPiece(st, fr, outer, f, Join(run));
    var st1 := OnText(st, run[0]);
    if run[1..] == [] {
      assert Join(run) == run[0] + [] == run[0];
    } else {
      LaterPieces(st1, run[1..]);
      EncAppend(run[0], Join(run[1..]));
      SplitText(st.buf, TextKey(f.kids), Enc(run[0]), Enc(Join(run[1..])));
    }
  }

  lemma {:induction false} SplitText(buf: string, key: string, a: string, b: string)
    ensures PopBack(buf + (key + ("\"" + a + "\""))) + b + "\"" == buf + (key + ("\"" + (a + b) + "\""))
  {
    assert PopBack(buf + (key + ("\"" + a + "\""))) == buf + (key + ("\"" + a));
  }

  // ---------------------------------------------------------------------
  // What an element prints, in the order in which it is printed
  // ---------------------------------------------------------------------

  function RunOut(kids: bool, run: TextRun): string {
    if run == [] then "" else TextKey(kids) + Quote(Join(run))
  }

  /** Where a child begins: after the bracket, or after the previous child. */
  function Lead(more: bool): string {
    if more then "}," else ",\"children\":["
  }

  /** Children as they are printed: each is closed by the next one, the last by nobody. */
  function KidsOut(more: bool, kids: Kids): string
    decreases kids
  {
    match kids
    case NoKids => ""
    case Kid(e, tail, rest) => Lead(more) + Unclosed(e) + RunOut(true, tail) + KidsOut(true, rest)
  }

  lemma {:induction false} KidsOutIsArray(more: bool, kids: Kids)
    requires kids.Kid?
    ensures KidsOut(more, kids) + "}" == Lead(more) + Array(kids)
    decreases kids
  {
    var Kid(e, tail, rest) := kids;
    if rest.NoKids? {
      LastKidOut(more, e, tail);
    } else {
      KidsOutIsArray(true, rest);
      MoreKidsOut(more, e, tail, rest);
    }
  }

  lemma {:induction false} LastKidOut(more: bool, e: Elem, tail: TextRun)
    ensures KidsOut(more, Kid(e, tail, NoKids)) + "}" == Lead(more) + Array(Kid(e, tail, NoKids))
  {
    LastText(Lead(more), Unclosed(e), RunOut(true, tail));
  }

  lemma {:induction false} LastText(lead: string, e: string, tail: string)
    ensures lead + e + tail + "" + "}" == lead + (e + tail + "}" + "")
  {
  }

  lemma {:induction false} MoreKidsOut(more: bool, e: Elem, tail: TextRun, rest: Kids)
    requires rest.Kid? && KidsOut(true, rest) + "}" == "}," + Array(rest)
    ensures KidsOut(more, Kid(e, tail, rest)) + "}" == Lead(more) + Array(Kid(e, tail, rest))
  {
    var one := Lead(more) + Unclosed(e) + RunOut(true, tail);
    calc {
      KidsOut(more, Kid(e, tail, rest)) + "}";
      one + KidsOut(true, rest) + "}";
    ==  { Regroup(one, KidsOut(true, rest), "}", "", ""); }
      one + (KidsOut(true, rest) + "}");
      one + ("}," + Array(rest));
    ==  { ArrayText(Lead(more), Unclosed(e), RunOut(true, tail), Array(rest)); }
      Lead(more) + (Unclosed(e) + JsonTail(tail) + "}" + ("," + Array(rest)));
    }
  }

  lemma {:induction false} ArrayText(lead: string, e: string, tail: string, rest: string)
    ensures lead + e + tail + ("}," + rest) == lead + (e + tail + "}" + ("," + rest))
  {
  }

  /** The parts of an element, as printed, are its JSON up to the closing brace. */
  lemma {:induction false} UnclosedAsPrinted(e: Elem)
    ensures Unclosed(e) ==
            Head(e.tag, e.attrs) + (RunOut(false, e.text) + KidsOut(false, e.kids) + CloseText(e.kids.Kid?))
  {
    var head, text := Head(e.tag, e.attrs), RunOut(false, e.text);
    if e.kids.Kid? {
      KidsOutIsArray(false, e.kids);
      ElementText(head, text, KidsOut(false, e.kids), Array(e.kids));
    } else {
      assert head + text + "" == head + (text + "" + "");
    }
  }

  lemma {:induction false} ElementText(head: string, text: string, kids: string, list: string)
    requires kids + "}" == ",\"children\":[" + list
    ensures head + text + (",\"children\":[" + list + "]") == head + (text + kids + "}]")
  {
    assert kids + "}]" == (kids + "}") + "]";
    assert head + (text + kids + "}]") == head + text + (kids + "}]");
  }

  // ---------------------------------------------------------------------
  // Growth of the buffer
  // ---------------------------------------------------------------------

  /** An extra run misses the comma, the key, the colon and the two quotes of `,"tail":""`. */
  const MISSING := 10

  /** The buffer grew by `text`, except for `extra` runs that went into the wrong string. `base` is untouched. */
  ghost predicate Grew(base: string, a: string, b: string, text: string, extra: nat) {
    && base <= b && |base| < |b|
    && |b| == |a| + |text| - MISSING * extra
    && (extra == 0 ==> b == a + text)
  }

  lemma {:induction false} GrewTwice(base: string, a: string, b: string, c: string, t: string, u: string, x: nat, y: nat)
    requires Grew(base, a, b, t, x) && Grew(base, b, c, u, y)
    ensures Grew(base, a, c, t + u, x + y)
  {
    Regroup(a, t, u, "", "");
  }

  lemma {:induction false} GrewExactly(base: string, a: string, b: string, text: string)
    requires base <= a && |base| < |b| && b == a + text
    ensures Grew(base, a, b, text, 0)
  {
  }

  ghost predicate Above(base: string, buf: string) {
    base <= buf && |base| < |buf|
  }

  /** A run of text in an open element: right if it is the first, ten bytes short if it is not. */
  lemma {:induction false} TextGrows(st: State, fr: seq<Frame>, outer: seq<GState>, f: Frame, run: TextRun, base: string)
    requires AtContent(st, fr, outer, f) && Above(base, st.buf)
    ensures var r := RunText(st, run);
            && AtContent(r, fr, outer, f.(text := f.text || run != []))
            && Quietly(st, r)
            && Grew(base, st.buf, r.buf, RunOut(f.kids, run), if f.text && run != [] then 1 else 0)
  {
    if run == [] {
      assert st.buf + "" == st.buf;
    } else if !f.text {
      SplitRun(st, fr, outer, f, run);
    } else {
      LaterPieces(st, run);
      assert fr + [f.(text := true)] == st.frames;
      assert |RunOut(f.kids, run)| == MISSING + |Enc(Join(run))|;
    }
  }
}
