/**
 The yajl generator as the XML transducer sees it: a stack of states, one per
 open map or array, and the text each call prints. A `char` stands for one byte.
 */
module YajlGen {
  import opened JsonReader

  const MAX_DEPTH := 128

  datatype GState = Start | MapStart | MapKey | MapVal | ArrayStart | InArray | Complete

  datatype Status = Fine | KeysMustBeStrings | MaxDepthExceeded | GenerationComplete

  /** `Key` is yajl_gen_string too, for keys that need no escape (see KeyIsString). */
  datatype Token = MapOpen | MapClose | ArrayOpen | ArrayClose | Str(s: string) | Key(k: string)

  /** A generator after yajl_gen_reset. */
  const RESET := [Start]

  /** A generator, what it printed, and the status of its last call; `stack[d]` is the state at depth d. */
  datatype Out = Out(stack: seq<GState>, buf: string, status: Status)

  // ----- strings

  const HEX := "0123456789ABCDEF"

  predicate MustEscape(c: char) {
    c as int < 32 || c == '\"' || c == '\\'
  }

  /** yajl_string_encode, byte by byte. */
  function Esc(c: char): string {
    if MustEscape(c) then EscSequence(c) else [c]
  }

  function EscSequence(c: char): string
    requires MustEscape(c)
  {
    match c
    case '\r' => "\\r"
    case '\n' => "\\n"
    case '\\' => "\\\\"
    case '\"' => "\\\""
    case '\t' => "\\t"
    case _ =>
      if c as int == 12 then "\\f"
      else if c as int == 8 then "\\b"
      else "\\u00" + [HEX[c as int / 16], HEX[c as int % 16]]
  }

  function Enc(s: string): string {
    if s == [] then [] else Esc(s[0]) + Enc(s[1..])
  }

  function Quote(s: string): string {
    "\"" + Enc(s) + "\""
  }

  lemma EncStep(s: string)
    requires s != []
    ensures Enc(s) == Esc(s[0]) + Enc(s[1..])
  {
  }

  /** Escaping works byte by byte, so it commutes with concatenation. */
  lemma {:induction false} EncAppend(a: string, b: string)
    ensures Enc(a + b) == Enc(a) + Enc(b)
  {
    if a == [] {
      assert a + b == b;
    } else {
      var c, rest := a[0], a[1..];
      calc {
        Enc(a + b);
      ==  { EncStep(a + b); assert (a + b)[0] == c && (a + b)[1..] == rest + b; }
        Esc(c) + Enc(rest + b);
      ==  { EncAppend(rest, b); }
        Esc(c) + (Enc(rest) + Enc(b));
      ==
        Esc(c) + Enc(rest) + Enc(b);
      ==  { EncStep(a); }
        Enc(a) + Enc(b);
      }
    }
  }

  /** Letters, digits and whatever else JSON lets stand for itself. */
  predicate Untouched(s: string) {
    forall k :: 0 <= k < |s| ==> s[k] as int >= 0x20 && s[k] as int != 0x22 && s[k] as int != 0x5C
  }

  /** What needs no escape is printed as it is. */
  lemma {:induction false} EncPlain(s: string)
    requires Untouched(s)
    ensures Enc(s) == s
  {
    if s != [] {
      EncPlain(s[1..]);
      assert Esc(s[0]) == [s[0]];
      assert [s[0]] + s[1..] == s;
    }
  }

  /** The escapes, as they are printed: short ones where JSON has them, otherwise upper-case hex. */
  lemma EscapesAre()
    ensures Esc('\"') == "\\\"" && Esc('\\') == "\\\\"
    ensures Esc('\n') == "\\n" && Esc('\r') == "\\r" && Esc('\t') == "\\t"
    ensures Esc(8 as char) == "\\b" && Esc(12 as char) == "\\f"
    ensures Esc(0 as char) == "\\u0000" && Esc(11 as char) == "\\u000B" && Esc(31 as char) == "\\u001F"
    ensures Esc('/') == "/" && Esc(' ') == " " && Esc(127 as char) == [127 as char]
  {
  }

  // ----- what a reader of JSON strings makes of the text

  function Codes(s: string): (r: seq<int>)
    ensures |r| == |s| && forall k :: 0 <= k < |s| ==> r[k] == s[k] as int
  {
    seq(|s|, k requires 0 <= k < |s| => s[k] as int)
  }

  lemma CodesAppend(a: string, b: string)
    ensures Codes(a + b) == Codes(a) + Codes(b)
  {
  }

  lemma {:induction false} CodesCons(s: string)
    requires s != []
    ensures [s[0] as int] + Codes(s[1..]) == Codes(s)
  {
  }

  lemma HexDigit(d: nat)
    requires d < 16
    ensures HexValue(HEX[d] as int) == Some(d)
  {
  }

  /** A \u escape of a control character. */
  lemma ReadControl(c: nat, rest: seq<int>)
    requires c < 0x20
    ensures ReadOne(true, [0x5C, 0x75, 0x30, 0x30, HEX[c / 16] as int, HEX[c % 16] as int] + rest) == Some(Read([c], 6))
  {
    var s := [0x5C, 0x75, 0x30, 0x30, HEX[c / 16] as int, HEX[c % 16] as int] + rest;
    HexDigit(c / 16);
    HexDigit(c % 16);
    assert HexValue(0x30) == Some(0);
    assert CodeUnit(s) == Some(c);
  }

  /** The escape of one character reads as that character, whatever follows, and does not begin with a quote. */
  lemma ReadEsc(c: char, rest: seq<int>)
    ensures ReadOne(true, Codes(Esc(c)) + rest) == Some(Read([c as int], |Esc(c)|))
    ensures Codes(Esc(c))[0] != 0x22
  {
    var t := Codes(Esc(c));
    if !MustEscape(c) {
      assert t == [c as int];
    } else if |Esc(c)| == 2 {
      assert t == [0x5C, Esc(c)[1] as int];
    } else {
      assert t == [0x5C, 0x75, 0x30, 0x30, HEX[c as int / 16] as int, HEX[c as int % 16] as int];
      ReadControl(c as int, rest);
    }
  }

  /**
   For every text, a strict reader takes all of what is printed for it, so there is no bare quote, no
   lone backslash and no control character in it, and reads the text back.
   */
  lemma {:induction false} EncReads(s: string)
    ensures Unescape(true, Codes(Enc(s))) == Some(Codes(s))
  {
    if s == [] {
      assert Codes(s) == [];
    } else {
      EncReads(s[1..]);
      EncStep(s);
      CodesAppend(Esc(s[0]), Enc(s[1..]));
      FirstUnescapes(s[0], Codes(Enc(s[1..])));
      CodesCons(s);
    }
  }

  lemma {:induction false} FirstUnescapes(c: char, rest: seq<int>)
    ensures Unescape(true, Codes(Esc(c)) + rest) == Prepend([c as int], Unescape(true, rest))
  {
    var t := Codes(Esc(c)) + rest;
    ReadEsc(c, rest);
    assert t != [] && t[|Esc(c)|..] == rest;
  }

  // ----- generator calls

  /** Is a value expected here, rather than a key? */
  predicate ValueReady(g: GState) {
    g == Start || g == MapVal || g == ArrayStart || g == InArray
  }

  /** INSERT_SEP */
  function Sep(g: GState): string {
    match g
    case MapKey => ","
    case InArray => ","
    case MapVal => ":"
    case _ => ""
  }

  /** APPENDED_ATOM */
  function AfterAtom(g: GState): GState {
    match g
    case Start => Complete
    case MapStart => MapVal
    case MapKey => MapVal
    case MapVal => MapKey
    case ArrayStart => InArray
    case _ => g
  }

  function Top(stack: seq<GState>): GState {
    if stack == [] then Complete else stack[|stack| - 1]
  }

  function Pop(stack: seq<GState>): seq<GState>
    requires stack != []
  {
    stack[..|stack| - 1]
  }

  /** One generator call. After a failed call nothing more is generated: the handlers leave. */
  function Emit(o: Out, t: Token): Out {
    if o.status != Fine then o
    else if Top(o.stack) == Complete then o.(status := GenerationComplete)
    else
      var top := Top(o.stack);
      match t
      case Str(s) =>
        Out(Pop(o.stack) + [AfterAtom(top)], o.buf + Sep(top) + Quote(s), Fine)
      case Key(k) =>
        Out(Pop(o.stack) + [AfterAtom(top)], o.buf + Sep(top) + "\"" + k + "\"", Fine)
      case MapOpen => Open(o, MapStart, "{")
      case ArrayOpen => Open(o, ArrayStart, "[")
      case MapClose => CloseOne(o, "}")
      case ArrayClose => CloseOne(o, "]")
  }

  function Open(o: Out, g: GState, bracket: string): Out {
    if !ValueReady(Top(o.stack)) then o.(status := KeysMustBeStrings)
    else if |o.stack| >= MAX_DEPTH then o.(buf := o.buf + Sep(Top(o.stack)), status := MaxDepthExceeded)
    else Out(o.stack + [g], o.buf + Sep(Top(o.stack)) + bracket, Fine)
  }

  function CloseOne(o: Out, bracket: string): Out {
    if |o.stack| < 2 then o.(status := GenerationComplete)
    else
      var below := Pop(o.stack);
      Out(Pop(below) + [AfterAtom(Top(below))], o.buf + bracket, Fine)
  }

  function EmitAll(o: Out, ts: seq<Token>): Out
    decreases |ts|
  {
    if ts == [] then o else EmitAll(Emit(o, ts[0]), ts[1..])
  }

  lemma {:induction false} EmitAppend(o: Out, a: seq<Token>, b: seq<Token>)
    ensures EmitAll(o, a + b) == EmitAll(EmitAll(o, a), b)
    decreases |a|
  {
    if a == [] {
      assert a + b == b;
    } else {
      EmitAppend(Emit(o, a[0]), a[1..], b);
      assert (a + b)[1..] == a[1..] + b;
    }
  }

  lemma {:induction false} FailureSticks(o: Out, ts: seq<Token>)
    requires o.status != Fine
    ensures EmitAll(o, ts) == o
  {
    if ts != [] {
      FailureSticks(o, ts[1..]);
    }
  }

  /** Generating only appends to the buffer. */
  lemma {:induction false} EmitAppends(o: Out, ts: seq<Token>)
    ensures o.buf <= EmitAll(o, ts).buf
    decreases |ts|
  {
    if ts != [] {
      assert o.buf <= Emit(o, ts[0]).buf;
      EmitAppends(Emit(o, ts[0]), ts[1..]);
    }
  }

  /** How a call changes the number of open maps and arrays. */
  function Delta(t: Token): int {
    match t
    case MapOpen => 1
    case ArrayOpen => 1
    case MapClose => -1
    case ArrayClose => -1
    case _ => 0
  }

  function Deltas(ts: seq<Token>): int {
    if ts == [] then 0 else Delta(ts[0]) + Deltas(ts[1..])
  }

  /** As long as no call fails, depth follows the brackets and stays within the limit. */
  lemma {:induction false} EmitDepth(o: Out, ts: seq<Token>)
    requires 1 <= |o.stack| <= MAX_DEPTH
    ensures var r := EmitAll(o, ts);
            && 1 <= |r.stack| <= MAX_DEPTH
            && (r.status == Fine ==> |r.stack| == |o.stack| + Deltas(ts))
    decreases |ts|
  {
    if ts != [] {
      EmitDepth(Emit(o, ts[0]), ts[1..]);
      if o.status != Fine || Emit(o, ts[0]).status != Fine {
        FailureSticks(Emit(o, ts[0]), ts[1..]);
      }
    }
  }

  // ----- what each call does on a stack whose top is known

  lemma EmitStr(base: seq<GState>, g: GState, buf: string, s: string)
    requires g != Complete
    ensures Emit(Out(base + [g], buf, Fine), Str(s)) ==
            Out(base + [AfterAtom(g)], buf + Sep(g) + Quote(s), Fine)
  {
    assert Pop(base + [g]) == base;
  }

  lemma EmitKey(base: seq<GState>, g: GState, buf: string, k: string)
    requires g != Complete
    ensures Emit(Out(base + [g], buf, Fine), Key(k)) ==
            Out(base + [AfterAtom(g)], buf + Sep(g) + "\"" + k + "\"", Fine)
  {
    assert Pop(base + [g]) == base;
  }

  /** A key that needs no escape prints as the string it is. */
  lemma KeyIsString(o: Out, k: string)
    requires Untouched(k)
    ensures Emit(o, Key(k)) == Emit(o, Str(k))
  {
    EncPlain(k);
    assert o.buf + Sep(Top(o.stack)) + Quote(k) == o.buf + Sep(Top(o.stack)) + "\"" + k + "\"";
  }

  lemma EmitOpen(base: seq<GState>, g: GState, buf: string, t: Token)
    requires ValueReady(g) && (t == MapOpen || t == ArrayOpen)
    ensures var bracket := if t == MapOpen then "{" else "[";
            var inner := if t == MapOpen then MapStart else ArrayStart;
            Emit(Out(base + [g], buf, Fine), t) ==
            if |base| + 1 < MAX_DEPTH
            then Out(base + [g, inner], buf + Sep(g) + bracket, Fine)
            else Out(base + [g], buf + Sep(g), MaxDepthExceeded)
  {
    assert base + [g] + [MapStart] == base + [g, MapStart];
    assert base + [g] + [ArrayStart] == base + [g, ArrayStart];
  }

  lemma EmitClose(base: seq<GState>, g: GState, inner: GState, buf: string, t: Token)
    requires inner != Complete && (t == MapClose || t == ArrayClose)
    ensures Emit(Out(base + [g, inner], buf, Fine), t) ==
            Out(base + [AfterAtom(g)], buf + (if t == MapClose then "}" else "]"), Fine)
  {
    assert Pop(base + [g, inner]) == base + [g];
    assert Pop(base + [g]) == base;
  }
}
