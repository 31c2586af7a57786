/**
 The XML session object: the SAX callbacks over a packed bit vector. Each
 callback does to the session what its function in `XmlTransducer` says.
 */
module XmlSession {
  import opened DecoderApi
  import opened YajlGen
  import opened XmlDoc
  import T = XmlTransducer
  import opened BitStack
  import XmlCorrect
  import XmlStream

  class Session {
    const bits: array<bv8>   // stack_boolean_info
    var stackPos: nat
    var stack: seq<GState>   // yajl_gen
    var buf: string          // yajl_gen_buf
    var lastOpenMap: int
    var msgs: seq<Slice>
    var failed: bool         // http_response is not empty
    var rc: DecoderErr

    ghost predicate Fitting()
      reads this
    {
      bits.Length == VECTOR_BYTES && KidsBit(stackPos) < VECTOR_BITS
    }

    ghost function View(): T.State
      requires Fitting()
      reads this, bits
    {
      T.State(stack, buf, Frames(bits[..], stackPos), lastOpenMap, msgs, failed, rc)
    }

    ghost predicate Valid()
      reads this, bits
    {
      Fitting() && XmlStream.DepthOk(View())
    }

    /** new_zz_session_xml */
    constructor ()
      ensures Valid() && View() == T.INITIAL && fresh(bits)
    {
      bits := new bv8[VECTOR_BYTES];
      stackPos, stack, buf, lastOpenMap, msgs, failed, rc := 0, RESET, "", T.NO_OPEN_MAP, [], false, Ok;
    }

    method Generate(t: Token) returns (s: Status)
      modifies this`stack, this`buf
      ensures Out(stack, buf, s) == Emit(Out(old(stack), old(buf), Fine), t)
    {
      var o := Emit(Out(stack, buf, Fine), t);
      stack, buf, s := o.stack, o.buf, o.status;
    }

    /** Two generator calls under GEN_OR_GOTO_ERR. */
    method GenerateTwo(a: Token, b: Token) returns (s: Status)
      modifies this`stack, this`buf
      ensures Out(stack, buf, s) == EmitAll(Out(old(stack), old(buf), Fine), [a, b])
    {
      XmlCorrect.EmitTwo(Out(stack, buf, Fine), a, b);
      s := Generate(a);
      if s == Fine {
        s := Generate(b);
      }
    }

    /** queue_xml_error */
    method QueueError(s: Status)
      modifies this`failed, this`rc, this`lastOpenMap
      ensures failed && rc == T.ErrCode(s) && lastOpenMap == T.NO_OPEN_MAP
    {
      failed, rc, lastOpenMap := true, T.ErrCode(s), T.NO_OPEN_MAP;
    }

    method TestBit(p: nat) returns (on: bool)
      requires bits.Length == VECTOR_BYTES && p < VECTOR_BITS
      ensures on == BitTest(bits[..], p)
    {
      on := bits[p / CHAR_BIT] & Mask(p % CHAR_BIT) != 0;
    }

    /** The first half of zz_parse_start_xml_element. */
    method MakeRoom()
      requires Fitting() && !failed
      modifies this, bits
      ensures Fitting() && View() == T.MakeRoom(old(View()))
    {
      ghost var v, st := bits[..], View();
      if stackPos == 0 {
        lastOpenMap := |buf|;
        return;
      }
      var kids := TestBit(KidsBit(stackPos));
      if !kids {
        var s := GenerateTwo(Key("children"), ArrayOpen);
        if s != Fine {
          QueueError(s);
          return;
        }
        BitSet(bits, KidsBit(stackPos));
        SetTopBit(v, bits[..], stackPos, true);
      } else {
        XmlCorrect.EmitOne(Out(stack, buf, Fine), MapClose);
        var s := Generate(MapClose);
        if s != Fine {
          QueueError(s);
        }
      }
    }

    /** One round of the attribute loop. */
    method GenerateAttribute(attrs: seq<Attr>, i: nat) returns (s: Status)
      requires i < |attrs|
      modifies this`stack, this`buf
      ensures Out(stack, buf, s) == EmitAll(Out(old(stack), old(buf), Fine), Round(attrs, i))
    {
      ghost var o := Out(stack, buf, Fine);
      RoundParts(o, attrs, i);
      s := Fine;
      if i == 0 {
        s := GenerateTwo(Key("attributes"), MapOpen);
      }
      if s == Fine {
        s := GenerateTwo(Str(attrs[i].name), Str(attrs[i].value));
      }
      if s == Fine && i + 1 == |attrs| {
        s := Generate(MapClose);
      }
    }

    /** The attribute loop of zz_parse_start_xml_element. */
    method GenerateAttributes(attrs: seq<Attr>) returns (s: Status)
      modifies this`stack, this`buf
      ensures Out(stack, buf, s) == EmitAll(Out(old(stack), old(buf), Fine), T.AttrTokens(attrs))
    {
      ghost var o := Out(stack, buf, Fine);
      s := Fine;
      var i := 0;
      while i < |attrs| && s == Fine
        invariant 0 <= i <= |attrs|
        invariant Out(stack, buf, s) == EmitAll(o, AttrsSoFar(attrs, i))
        decreases |attrs| - i
      {
        s := GenerateAttribute(attrs, i);
        NextRound(o, attrs, i);
        i := i + 1;
      }
      LastRound(o, attrs, i);
    }

    /** Brace, tag and attributes of an element. */
    method GenerateHead(tag: string, attrs: seq<Attr>) returns (s: Status)
      modifies this`stack, this`buf
      ensures Out(stack, buf, s) ==
              EmitAll(Out(old(stack), old(buf), Fine), [MapOpen, Key("tag"), Str(tag)] + T.AttrTokens(attrs))
    {
      HeadParts(Out(stack, buf, Fine), tag, T.AttrTokens(attrs));
      s := Generate(MapOpen);
      if s == Fine {
        s := GenerateTwo(Key("tag"), Str(tag));
      }
      if s == Fine {
        s := GenerateAttributes(attrs);
      }
    }

    /** The next stack position, with both bits cleared. */
    method Push()
      requires Fitting() && KidsBit(stackPos + 1) < VECTOR_BITS
      modifies this`stackPos, bits
      ensures Fitting() && stackPos == old(stackPos) + 1
      ensures View() == old(View()).(frames := old(View()).frames + [T.Frame(false, false)])
    {
      ghost var v, n := bits[..], stackPos;
      stackPos := stackPos + 1;
      BitClear(bits, TextBit(stackPos));
      ghost var u := bits[..];
      BitClear(bits, KidsBit(stackPos));
      PushFrame(v, u, bits[..], n);
    }

    /** Brace, tag and attributes; on a failure, the error is queued. */
    method TakeHead(tag: string, attrs: seq<Attr>)
      requires Fitting() && !failed
      modifies this`stack, this`buf, this`failed, this`rc, this`lastOpenMap
      ensures Fitting()
      ensures View() == T.Take(old(View()), T.Gen(old(View()), [MapOpen, Key("tag"), Str(tag)] + T.AttrTokens(attrs)))
    {
      var s := GenerateHead(tag, attrs);
      if s != Fine {
        QueueError(s);
      }
    }

    method Pop()
      requires Fitting() && stackPos > 0
      modifies this`stackPos
      ensures Fitting() && stackPos == old(stackPos) - 1
      ensures Frames(bits[..], stackPos) == old(Frames(bits[..], stackPos))[..stackPos]
    {
      PopFrame(bits[..], stackPos);
      stackPos := stackPos - 1;
    }

    /** The second half of zz_parse_start_xml_element. */
    method OpenElement(tag: string, attrs: seq<Attr>)
      requires Fitting() && !failed && KidsBit(stackPos + 1) < VECTOR_BITS
      modifies this, bits
      ensures Fitting() && View() == T.OpenElement(old(View()), tag, attrs)
    {
      Push();
      TakeHead(tag, attrs);
    }

    /** zz_parse_start_xml_element */
    method StartElement(tag: string, attrs: seq<Attr>)
      requires Valid()
      modifies this, bits
      ensures Valid() && View() == T.OnStart(old(View()), tag, attrs)
    {
      ghost var st := View();
      XmlStream.StartKeepsDepth(st, tag, attrs);
      if failed {
        return;
      }
      XmlStream.RoomKeepsDepth(st);
      MakeRoom();
      if failed {
        return;
      }
      OpenElement(tag, attrs);
    }

    /** zz_parse_end_xml_element; expat reports an end only for an open element. */
    method EndElement()
      requires Valid() && (!failed ==> stackPos > 0)
      modifies this
      ensures Valid() && View() == T.OnEnd(old(View()))
    {
      ghost var st := View();
      XmlStream.EndKeepsDepth(st);
      if !failed {
        CloseChildren();
        if !failed {
          LeaveElement();
        }
      }
      assert View() == T.OnEnd(st);
    }

    method LeaveElement()
      requires Fitting() && !failed && stackPos > 0
      modifies this
      ensures Fitting() && View() == T.LeaveElement(old(View()))
    {
      Pop();
      if stackPos == 0 {
        FinishRoot();
      }
    }

    method CloseChildren()
      requires Fitting() && !failed && stackPos > 0
      modifies this
      ensures Fitting() && stackPos == old(stackPos) && View() == T.CloseKids(old(View()))
    {
      var kids := TestBit(KidsBit(stackPos));
      if kids {
        var s := GenerateTwo(MapClose, ArrayClose);
        if s != Fine {
          QueueError(s);
        }
      }
    }

    method FinishRoot()
      requires Fitting() && !failed && stackPos == 0
      modifies this
      ensures Fitting() && View() == T.FinishRoot(old(View()))
    {
      XmlCorrect.EmitOne(Out(stack, buf, Fine), MapClose);
      var s := Generate(MapClose);
      if s != Fine {
        QueueError(s);
        return;
      }
      msgs := msgs + [Slice(lastOpenMap, |buf| - lastOpenMap)];
      lastOpenMap := T.NO_OPEN_MAP;
      stack := RESET;
    }

    /** zz_parse_xml_character_data; expat delivers no text outside the root, nor after it was stopped. */
    method CharacterData(text: string)
      requires Valid() && !failed && stackPos > 0
      modifies this, bits
      ensures Valid() && View() == T.OnText(old(View()), text)
    {
      XmlStream.TextKeepsDepth(View(), text);
      var printed := TestBit(TextBit(stackPos));
      if !printed {
        FirstText(text);
      } else {
        // temp_yajl prints the text quoted; its first quote is skipped
        buf := T.PopBack(buf) + Enc(text) + "\"";
      }
    }

    /** The first text of an element: key, string and the text bit. */
    method FirstText(text: string)
      requires Fitting() && !failed && stackPos > 0 && !T.TopFrame(View()).text
      modifies this, bits
      ensures Fitting() && View() == T.OnText(old(View()), text)
    {
      ghost var v := bits[..];
      var kids := TestBit(KidsBit(stackPos));
      var s := GenerateTwo(Key(if kids then "tail" else "text"), Str(text));
      if s != Fine {
        failed := true;
        return;
      }
      BitSet(bits, TextBit(stackPos));
      SetTopBit(v, bits[..], stackPos, false);
    }

    /** One callback of expat. */
    method Callback(e: Event)
      requires Valid()
      modifies this, bits
      ensures Valid() && View() == T.Step(old(View()), e)
    {
      if failed {
        return;
      }
      match e {
        case StartTag(tag, attrs) => StartElement(tag, attrs);
        case EndTag => if stackPos > 0 { EndElement(); }
        case CharData(piece) => if stackPos > 0 { CharacterData(piece); }
      }
    }

    /** expat's callbacks, one after the other. */
    method Drive(es: seq<Event>)
      requires Valid()
      modifies this, bits
      ensures Valid() && View() == T.Run(old(View()), es)
    {
      for i := 0 to |es|
        invariant Valid() && T.Run(View(), es[i..]) == T.Run(old(View()), es)
      {
        assert es[i..][0] == es[i] && es[i..][1..] == es[i + 1..];
        Callback(es[i]);
      }
    }
  }

  /** The tokens of the attribute loop, `i` rounds in. */
  ghost function AttrsSoFar(attrs: seq<Attr>, i: nat): seq<Token>
    requires i <= |attrs|
  {
    if i == 0 then [] else AttrsSoFar(attrs, i - 1) + Round(attrs, i - 1)
  }

  ghost function Round(attrs: seq<Attr>, i: nat): seq<Token>
    requires i < |attrs|
  {
    (if i == 0 then [Key("attributes"), MapOpen] else []) +
    [Str(attrs[i].name), Str(attrs[i].value)] +
    (if i + 1 == |attrs| then [MapClose] else [])
  }

  /** Rounds emit part after part, and stop at the first failure. */
  lemma RoundParts(o: Out, attrs: seq<Attr>, i: nat)
    requires i < |attrs|
    ensures var o1 := if i == 0 then EmitAll(o, [Key("attributes"), MapOpen]) else o;
            var o2 := EmitAll(o1, [Str(attrs[i].name), Str(attrs[i].value)]);
            && (o1.status != Fine ==> EmitAll(o, Round(attrs, i)) == o1)
            && (o2.status != Fine ==> EmitAll(o, Round(attrs, i)) == o2)
            && EmitAll(o, Round(attrs, i)) == if i + 1 == |attrs| then Emit(o2, MapClose) else o2
  {
    var open := if i == 0 then [Key("attributes"), MapOpen] else [];
    var pair := [Str(attrs[i].name), Str(attrs[i].value)];
    var close := if i + 1 == |attrs| then [MapClose] else [];
    var o1 := EmitAll(o, open);
    var o2 := EmitAll(o1, pair);
    assert EmitAll(o, Round(attrs, i)) == EmitAll(o2, close) by {
      EmitAppend(o, open + pair, close);
      EmitAppend(o, open, pair);
    }
    if o1.status != Fine {
      FailureSticks(o1, pair);
    }
    if o2.status != Fine {
      FailureSticks(o2, close);
    }
    XmlCorrect.EmitOne(o2, MapClose);
  }

  lemma HeadParts(o: Out, tag: string, attrs: seq<Token>)
    ensures var o1 := Emit(o, MapOpen);
            var o2 := EmitAll(o1, [Key("tag"), Str(tag)]);
            var all := EmitAll(o, [MapOpen, Key("tag"), Str(tag)] + attrs);
            && all == EmitAll(o2, attrs)
            && (o1.status != Fine ==> all == o1)
            && (o2.status != Fine ==> all == o2)
  {
    var name := [Key("tag"), Str(tag)];
    var o1 := Emit(o, MapOpen);
    var o2 := EmitAll(o1, name);
    assert EmitAll(o, [MapOpen, Key("tag"), Str(tag)] + attrs) == EmitAll(o2, attrs) by {
      assert [MapOpen, Key("tag"), Str(tag)] + attrs == [MapOpen] + (name + attrs);
      EmitAppend(o, [MapOpen], name + attrs);
      XmlCorrect.EmitOne(o, MapOpen);
      EmitAppend(o1, name, attrs);
    }
    if o1.status != Fine {
      FailureSticks(o1, name);
    }
    if o2.status != Fine {
      FailureSticks(o2, attrs);
    }
  }

  lemma NextRound(o: Out, attrs: seq<Attr>, i: nat)
    requires i < |attrs|
    ensures EmitAll(o, AttrsSoFar(attrs, i + 1)) == EmitAll(EmitAll(o, AttrsSoFar(attrs, i)), Round(attrs, i))
  {
    EmitAppend(o, AttrsSoFar(attrs, i), Round(attrs, i));
  }

  lemma {:induction false} PairsAppend(attrs: seq<Attr>, a: Attr)
    ensures T.PairTokens(attrs + [a]) == T.PairTokens(attrs) + [Str(a.name), Str(a.value)]
  {
    if attrs == [] {
      assert attrs + [a] == [a];
      assert [a][1..] == [];
    } else {
      PairsAppend(attrs[1..], a);
      assert (attrs + [a])[1..] == attrs[1..] + [a];
    }
  }

  lemma {:induction false} SoFarIsPrefix(attrs: seq<Attr>, i: nat)
    requires 0 < i <= |attrs|
    ensures AttrsSoFar(attrs, i) ==
            [Key("attributes"), MapOpen] + T.PairTokens(attrs[..i]) + if i == |attrs| then [MapClose] else []
  {
    assert attrs[..i] == attrs[..i - 1] + [attrs[i - 1]];
    PairsAppend(attrs[..i - 1], attrs[i - 1]);
    if i > 1 {
      SoFarIsPrefix(attrs, i - 1);
    }
  }

  /** The loop ran to its end, or stopped at a failure that the remaining tokens would not change. */
  lemma LastRound(o: Out, attrs: seq<Attr>, i: nat)
    requires i <= |attrs|
    ensures i == |attrs| || EmitAll(o, AttrsSoFar(attrs, i)).status != Fine ==>
              EmitAll(o, T.AttrTokens(attrs)) == EmitAll(o, AttrsSoFar(attrs, i))
    decreases |attrs| - i
  {
    if i == |attrs| {
      if attrs != [] {
        SoFarIsPrefix(attrs, i);
        assert attrs[..i] == attrs;
      }
    } else {
      NextRound(o, attrs, i);
      LastRound(o, attrs, i + 1);
      if EmitAll(o, AttrsSoFar(attrs, i)).status != Fine {
        FailureSticks(EmitAll(o, AttrsSoFar(attrs, i)), Round(attrs, i));
      }
    }
  }
}
