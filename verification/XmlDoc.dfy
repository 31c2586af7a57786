/**
 XML documents, and the JSON that each stands for: tag, attributes, text,
 children, and the tail of each child, written by plain recursion.
 */
module XmlDoc {
  import opened YajlGen

  /** One contiguous run of character data, in the pieces in which the parser reports it. No pieces: no text. */
  type TextRun = seq<string>

  datatype Attr = Attr(name: string, value: string)

  /** Content is: `text`, then the children, each followed by its `tail`. */
  datatype Elem = Elem(tag: string, attrs: seq<Attr>, text: TextRun, kids: Kids)

  datatype Kids = NoKids | Kid(elem: Elem, tail: TextRun, rest: Kids)

  function Join(run: TextRun): string {
    if run == [] then [] else run[0] + Join(run[1..])
  }

  // ---------------------------------------------------------------------
  // The JSON of a document
  // ---------------------------------------------------------------------

  function Pairs(attrs: seq<Attr>): string {
    if attrs == [] then ""
    else
      Quote(attrs[0].name) + ":" + Quote(attrs[0].value) +
      if |attrs| == 1 then "" else "," + Pairs(attrs[1..])
  }

  function JsonAttrs(attrs: seq<Attr>): string {
    if attrs == [] then "" else ",\"attributes\":{" + Pairs(attrs) + "}"
  }

  function JsonText(run: TextRun): string {
    if run == [] then "" else ",\"text\":" + Quote(Join(run))
  }

  function JsonTail(run: TextRun): string {
    if run == [] then "" else ",\"tail\":" + Quote(Join(run))
  }

  /** An object without its closing brace: a tail may still be added to it. */
  function Unclosed(e: Elem): string {
    "{\"tag\":" + Quote(e.tag) + JsonAttrs(e.attrs) + JsonText(e.text) +
    match e.kids
    case NoKids => ""
    case Kid(_, _, _) => ",\"children\":[" + Array(e.kids) + "]"
  }

  function Array(kids: Kids): string {
    match kids
    case NoKids => ""
    case Kid(e, tail, rest) =>
      Unclosed(e) + JsonTail(tail) + "}" + if rest.NoKids? then "" else "," + Array(rest)
  }

  function Json(e: Elem): string {
    Unclosed(e) + "}"
  }

  // ---------------------------------------------------------------------
  // Two measures of a document
  // ---------------------------------------------------------------------

  /** Text runs that are not the first of their element. */
  function ExtraRuns(e: Elem): nat
    decreases e
  {
    ExtraInKids(e.text != [], e.kids)
  }

  function ExtraInKids(textSeen: bool, kids: Kids): nat
    decreases kids
  {
    match kids
    case NoKids => 0
    case Kid(e, tail, rest) =>
      ExtraRuns(e) +
      (if tail != [] && textSeen then 1 else 0) +
      ExtraInKids(textSeen || tail != [], rest)
  }

  /** The generator can open everything in `e` when `n` states are on its stack. */
  predicate Fits(e: Elem, n: nat) {
    && n < MAX_DEPTH
    && (e.attrs != [] ==> n + 1 < MAX_DEPTH)
    && KidsFit(e.kids, n)
  }

  predicate KidsFit(kids: Kids, n: nat) {
    match kids
    case NoKids => true
    case Kid(e, _, rest) => n + 1 < MAX_DEPTH && Fits(e, n + 2) && KidsFit(rest, n)
  }

  // ---------------------------------------------------------------------
  // The callbacks of expat for a document
  // ---------------------------------------------------------------------

  datatype Event = StartTag(tag: string, attrs: seq<Attr>) | EndTag | CharData(piece: string)

  function TextEvents(run: TextRun): seq<Event> {
    if run == [] then [] else [CharData(run[0])] + TextEvents(run[1..])
  }

  function Events(e: Elem): seq<Event> {
    [StartTag(e.tag, e.attrs)] + TextEvents(e.text) + KidEvents(e.kids) + [EndTag]
  }

  function KidEvents(kids: Kids): seq<Event> {
    match kids
    case NoKids => []
    case Kid(e, tail, rest) => Events(e) + TextEvents(tail) + KidEvents(rest)
  }
}
