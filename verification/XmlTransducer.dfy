/**
 The SAX callbacks that turn XML into JSON, on values: frames hold the two
 booleans of each open element. A child's map stays open after its end tag, so
 that a tail can be added; the next sibling or the parent's end closes it.
 */
module XmlTransducer {
  import opened DecoderApi
  import opened YajlGen
  import opened XmlDoc

  const NO_OPEN_MAP := -1

  /** The two bits of an open element: text was printed; the children array was opened. */
  datatype Frame = Frame(text: bool, kids: bool)

  datatype State = State(
    stack: seq<GState>,   // the generator
    buf: string,          // yajl_gen_buf
    frames: seq<Frame>,   // |frames| is stack_pos
    lastOpenMap: int,
    msgs: seq<Slice>,
    failed: bool,         // an error response is queued
    rc: DecoderErr)

  const INITIAL := State(RESET, "", [], NO_OPEN_MAP, [], false, Ok)

  /** yajl_gen_err2codestr, for the statuses that the generator gives here. */
  function ErrCode(s: Status): DecoderErr {
    match s
    case Fine => Ok
    case MaxDepthExceeded => InvalidRequest
    case _ => GenericError
  }

  function TopFrame(st: State): Frame
    requires st.frames != []
  {
    st.frames[|st.frames| - 1]
  }

  function SetTop(st: State, f: Frame): State
    requires st.frames != []
  {
    st.(frames := st.frames[..|st.frames| - 1] + [f])
  }

  function Gen(st: State, ts: seq<Token>): Out {
    EmitAll(Out(st.stack, st.buf, Fine), ts)
  }

  /** Take over what a generator call did; on a failure, queue the error. */
  function Take(st: State, o: Out): State {
    var st := st.(stack := o.stack, buf := o.buf);
    if o.status == Fine then st
    else st.(lastOpenMap := NO_OPEN_MAP, failed := true, rc := ErrCode(o.status))
  }

  function PairTokens(attrs: seq<Attr>): seq<Token> {
    if attrs == [] then [] else [Str(attrs[0].name), Str(attrs[0].value)] + PairTokens(attrs[1..])
  }

  function AttrTokens(attrs: seq<Attr>): seq<Token> {
    if attrs == [] then [] else [Key("attributes"), MapOpen] + PairTokens(attrs) + [MapClose]
  }

  /** First half of zz_parse_start_xml_element: make room for a value in the parent. */
  function MakeRoom(st: State): State {
    if st.frames == [] then st.(lastOpenMap := |st.buf|)
    else if !TopFrame(st).kids then
      var st' := Take(st, Gen(st, [Key("children"), ArrayOpen]));
      if st'.failed then st' else SetTop(st', TopFrame(st').(kids := true))
    else Take(st, Gen(st, [MapClose]))
  }

  /** Second half: push a frame, open the map, print tag and attributes. */
  function OpenElement(st: State, tag: string, attrs: seq<Attr>): State {
    var st' := st.(frames := st.frames + [Frame(false, false)]);
    Take(st', Gen(st', [MapOpen, Key("tag"), Str(tag)] + AttrTokens(attrs)))
  }

  /** zz_parse_start_xml_element */
  function OnStart(st: State, tag: string, attrs: seq<Attr>): State {
    if st.failed then st
    else
      var st' := MakeRoom(st);
      if st'.failed then st' else OpenElement(st', tag, attrs)
  }

  /** Close the last child and the array around it. */
  function CloseKids(st: State): State
    requires st.frames != []
  {
    if TopFrame(st).kids then Take(st, Gen(st, [MapClose, ArrayClose])) else st
  }

  /** The root is done: close it and queue the message. */
  function FinishRoot(st: State): State {
    var st' := Take(st, Gen(st, [MapClose]));
    if st'.failed then st'
    else st'.(msgs := st'.msgs + [Slice(st'.lastOpenMap, |st'.buf| - st'.lastOpenMap)],
              lastOpenMap := NO_OPEN_MAP, stack := RESET)
  }

  /** zz_parse_end_xml_element */
  function OnEnd(st: State): State
    requires !st.failed ==> st.frames != []
  {
    if st.failed then st
    else
      var st1 := CloseKids(st);
      if st1.failed then st1 else LeaveElement(st1)
  }

  /** Drop the frame; its map is closed later, unless it was the root. */
  function LeaveElement(st: State): State
    requires st.frames != []
  {
    var st' := st.(frames := st.frames[..|st.frames| - 1]);
    if st'.frames != [] then st' else FinishRoot(st')
  }

  /**
   zz_parse_xml_character_data. The first text of a frame is a key and a string. Any later text goes
   into the string that ends the buffer: its quote is dropped, and text and quote are added.
   The error path of this handler keeps last_open_map and takes its code from expat, which has none.
   */
  function OnText(st: State, text: string): State
    requires st.frames != []
  {
    if !TopFrame(st).text then
      var o := Gen(st, [Key(if TopFrame(st).kids then "tail" else "text"), Str(text)]);
      var st' := st.(stack := o.stack, buf := o.buf);
      if o.status != Fine then st'.(failed := true) else SetTop(st', TopFrame(st').(text := true))
    else
      st.(buf := PopBack(st.buf) + Enc(text) + "\"")
  }

  function PopBack(s: string): string {
    if s == [] then [] else s[..|s| - 1]
  }

  // ---------------------------------------------------------------------
  // Runs. expat calls back in document order and delivers no text after it was stopped.
  // ---------------------------------------------------------------------

  function RunText(st: State, run: TextRun): State
    decreases |run|
  {
    if run == [] || st.failed || st.frames == [] then st else RunText(OnText(st, run[0]), run[1..])
  }

  function RunElem(st: State, e: Elem): State
    decreases e
  {
    var st1 := OnStart(st, e.tag, e.attrs);
    var st2 := RunText(st1, e.text);
    var st3 := RunKids(st2, e.kids);
    if !st3.failed && st3.frames == [] then st3 else OnEnd(st3)
  }

  function RunKids(st: State, kids: Kids): State
    decreases kids
  {
    match kids
    case NoKids => st
    case Kid(e, tail, rest) =>
      var st1 := RunElem(st, e);
      var st2 := RunText(st1, tail);
      RunKids(st2, rest)
  }

  /** One callback. */
  function Step(st: State, e: Event): State {
    if st.failed then st
    else match e
      case StartTag(tag, attrs) => OnStart(st, tag, attrs)
      case EndTag => if st.frames == [] then st else OnEnd(st)
      case CharData(piece) => if st.frames == [] then st else OnText(st, piece)
  }

  function Run(st: State, es: seq<Event>): State
    decreases |es|
  {
    if es == [] then st else Run(Step(st, es[0]), es[1..])
  }
}
