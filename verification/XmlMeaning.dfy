/**
 What the message of a document stands for: the JSON value of its element, read
 back from the text of the message by a reader that knows nothing about XML.
 */
module XmlMeaning {
  import opened DecoderApi
  import opened YajlGen
  import opened JsonValue
  import opened XmlDoc
  import T = XmlTransducer
  import XmlTheorem
  import XmlStream

  // ---------------------------------------------------------------------
  // The value of an element
  // ---------------------------------------------------------------------

  /** A key with a run of text, if there is any. */
  function TextMember(key: string, run: TextRun, rest: Members): Members {
    if run == [] then rest else Member(key, Text(Join(run)), rest)
  }

  function AttrMembers(attrs: seq<Attr>): Members {
    if attrs == [] then NoMembers else Member(attrs[0].name, Text(attrs[0].value), AttrMembers(attrs[1..]))
  }

  function AttrsMember(attrs: seq<Attr>, rest: Members): Members {
    if attrs == [] then rest else Member("attributes", Object(AttrMembers(attrs)), rest)
  }

  /** The element with the text behind its end tag. */
  function Tree(e: Elem, tail: TextRun): Value
    decreases e, 0
  {
    Object(Member("tag", Text(e.tag),
                  AttrsMember(e.attrs, TextMember("text", e.text, KidsMember(e.kids, TextMember("tail", tail, NoMembers))))))
  }

  function KidsMember(kids: Kids, rest: Members): Members
    decreases kids, 1
  {
    if kids.NoKids? then rest else Member("children", List(Children(kids)), rest)
  }

  function Children(kids: Kids): Items
    decreases kids, 0
  {
    match kids
    case NoKids => NoItems
    case Kid(e, tail, rest) => Item(Tree(e, tail), Children(rest))
  }

  // ---------------------------------------------------------------------
  // The serializer's text is the compact text of that value
  // ---------------------------------------------------------------------

  lemma {:induction false} KeyPrints(key: string, v: Value, rest: Members)
    requires Untouched(key)
    ensures PrintMoreMembers(Member(key, v, rest)) == ",\"" + key + "\":" + Print(v) + PrintMoreMembers(rest)
  {
    EncPlain(key);
    KeyText(key, Print(v), PrintMoreMembers(rest));
  }

  lemma {:induction false} KeyText(key: string, p: string, more: string)
    ensures "," + ("\"" + key + "\"" + ":" + p + more) == ",\"" + key + "\":" + p + more
  {
    assert "," + "\"" == ",\"" && "\"" + ":" == "\":";
  }

  /** The beginnings of the members with fixed keys. */
  lemma {:induction false} Leads()
    ensures ",\"" + "text" + "\":" == ",\"text\":"
    ensures ",\"" + "tail" + "\":" == ",\"tail\":"
    ensures "{" + ("\"" + "tag" + "\"" + ":") == "{\"tag\":"
  {
  }

  lemma {:induction false} RunPrints(key: string, lead: string, run: TextRun, rest: Members)
    requires Untouched(key) && lead == ",\"" + key + "\":"
    ensures PrintMoreMembers(TextMember(key, run, rest)) ==
            (if run == [] then "" else lead + Quote(Join(run))) + PrintMoreMembers(rest)
  {
    if run != [] {
      KeyPrints(key, Text(Join(run)), rest);
    }
  }

  lemma {:induction false} TextPrints(run: TextRun, rest: Members)
    ensures PrintMoreMembers(TextMember("text", run, rest)) == JsonText(run) + PrintMoreMembers(rest)
    ensures PrintMoreMembers(TextMember("tail", run, rest)) == JsonTail(run) + PrintMoreMembers(rest)
  {
    Leads();
    RunPrints("text", ",\"text\":", run, rest);
    RunPrints("tail", ",\"tail\":", run, rest);
  }

  lemma {:induction false} PairsPrint(attrs: seq<Attr>)
    requires attrs != []
    ensures PrintMembers(AttrMembers(attrs)) == Pairs(attrs) + "}"
  {
    var one := Quote(attrs[0].name) + ":" + Quote(attrs[0].value);
    if |attrs| == 1 {
      assert attrs[1..] == [];
      assert one + "" == one;
    } else {
      PairsPrint(attrs[1..]);
      PairsText(one, Pairs(attrs[1..]));
    }
  }

  lemma {:induction false} PairsText(one: string, rest: string)
    ensures one + ("," + (rest + "}")) == one + ("," + rest) + "}"
  {
  }

  lemma {:induction false} AttrsPrint(attrs: seq<Attr>, rest: Members)
    ensures PrintMoreMembers(AttrsMember(attrs, rest)) == JsonAttrs(attrs) + PrintMoreMembers(rest)
  {
    if attrs != [] {
      KeyPrints("attributes", Object(AttrMembers(attrs)), rest);
      PairsPrint(attrs);
      AttrsText(Pairs(attrs), PrintMoreMembers(rest));
    }
  }

  lemma {:induction false} AttrsText(pairs: string, more: string)
    ensures ",\"" + "attributes" + "\":" + ("{" + (pairs + "}")) + more == ",\"attributes\":{" + pairs + "}" + more
  {
    assert ",\"" + "attributes" + "\":" + "{" == ",\"attributes\":{";
  }

  /** The children of an element, as Unclosed prints them. */
  function JsonKids(kids: Kids): string {
    match kids
    case NoKids => ""
    case Kid(_, _, _) => ",\"children\":[" + Array(kids) + "]"
  }

  lemma {:induction false} KidsPrint(kids: Kids, rest: Members)
    ensures PrintMoreMembers(KidsMember(kids, rest)) == JsonKids(kids) + PrintMoreMembers(rest)
    decreases kids, 1
  {
    if kids.Kid? {
      KeyPrints("children", List(Children(kids)), rest);
      ChildrenPrint(kids);
      KidsText(Array(kids), PrintMoreMembers(rest));
    }
  }

  lemma {:induction false} KidsText(list: string, more: string)
    ensures ",\"" + "children" + "\":" + ("[" + (list + "]")) + more == ",\"children\":[" + list + "]" + more
  {
    assert ",\"" + "children" + "\":" + "[" == ",\"children\":[";
  }

  lemma {:induction false} ChildrenPrint(kids: Kids)
    requires kids.Kid?
    ensures PrintItems(Children(kids)) == Array(kids) + "]"
    decreases kids, 0
  {
    var Kid(e, tail, rest) := kids;
    TreePrints(e, tail);
    var one := Unclosed(e) + JsonTail(tail) + "}";
    if rest.Kid? {
      ChildrenPrint(rest);
      ItemsText(one, Array(rest));
    } else {
      assert one + "" == one;
    }
  }

  lemma {:induction false} ItemsText(one: string, rest: string)
    ensures one + ("," + (rest + "]")) == one + ("," + rest) + "]"
  {
  }

  /** An element, with what follows its end tag, is printed as its value. */
  lemma {:induction false} TreePrints(e: Elem, tail: TextRun)
    ensures Print(Tree(e, tail)) == Unclosed(e) + JsonTail(tail) + "}"
    decreases e, 2
  {
    var m3 := TextMember("tail", tail, NoMembers);
    var m2 := KidsMember(e.kids, m3);
    var m1 := TextMember("text", e.text, m2);
    var m0 := AttrsMember(e.attrs, m1);
    TextPrints(tail, NoMembers);
    KidsPrint(e.kids, m3);
    TextPrints(e.text, m2);
    AttrsPrint(e.attrs, m1);
    TagPrints(e.tag, m0);
    TreeText(Quote(e.tag), JsonAttrs(e.attrs), JsonText(e.text), JsonKids(e.kids), JsonTail(tail));
  }

  lemma {:induction false} TagPrints(tag: string, rest: Members)
    ensures Print(Object(Member("tag", Text(tag), rest))) == "{\"tag\":" + Quote(tag) + PrintMoreMembers(rest)
  {
    ObjectPrints("tag", Text(tag), rest);
    TagText(Quote(tag), PrintMoreMembers(rest));
  }

  lemma {:induction false} ObjectPrints(key: string, v: Value, rest: Members)
    requires Untouched(key)
    ensures Print(Object(Member(key, v, rest))) == "{" + ("\"" + key + "\"" + ":" + Print(v) + PrintMoreMembers(rest))
  {
    EncPlain(key);
  }

  lemma {:induction false} TagText(q: string, more: string)
    ensures "{" + ("\"" + "tag" + "\"" + ":" + q + more) == "{\"tag\":" + q + more
  {
    Leads();
    Regroup3("{", "\"" + "tag" + "\"" + ":", q, more);
  }

  lemma {:induction false} Regroup3(a: string, b: string, c: string, d: string)
    ensures a + (b + c + d) == a + b + c + d
  {
  }

  lemma {:induction false} TreeText(q: string, attrs: string, text: string, kids: string, tail: string)
    ensures "{\"tag\":" + q + (attrs + (text + (kids + (tail + "}")))) == "{\"tag\":" + q + attrs + text + kids + tail + "}"
  {
  }

  // ---------------------------------------------------------------------
  // Messages read back
  // ---------------------------------------------------------------------

  lemma {:induction false} JsonIsPrinted(e: Elem)
    ensures Print(Tree(e, [])) == Json(e)
  {
    TreePrints(e, []);
    assert JsonTail([]) == "" && Unclosed(e) + "" == Unclosed(e);
  }

  /** The serializer's text of a document is JSON, all of it, and stands for the value of the document. */
  lemma {:induction false} JsonReads(e: Elem)
    ensures ReadValue(Json(e)) == Got(Tree(e, []), |Json(e)|)
  {
    JsonIsPrinted(e);
    PrintReadsAll(Tree(e, []), Json(e));
  }

  /** A document that fits, without extra text runs: its message reads back as its value. */
  lemma {:induction false} MessageReadsBack(e: Elem)
    requires Fits(e, 1) && ExtraRuns(e) == 0
    ensures var text := T.RunElem(T.INITIAL, e).buf;
            ReadValue(text) == Got(Tree(e, []), |text|)
  {
    XmlTheorem.DocumentTheorem(e, T.INITIAL, T.RunElem(T.INITIAL, e));
    assert "" + Json(e) == Json(e);
    JsonReads(e);
  }

  /** The slice `m` of a buffer is JSON, all of it, and stands for `v`. */
  ghost predicate StandsFor(text: string, m: Slice, v: Value) {
    && 0 <= m.off <= m.off + m.len <= |text|
    && ReadValue(text[m.off..m.off + m.len]) == Got(v, m.len)
  }

  lemma {:induction false} SliceReads(text: string, m: Slice, json: string, v: Value)
    requires XmlStream.SliceIs(text, m, json, true) && ReadValue(json) == Got(v, |json|)
    ensures StandsFor(text, m, v)
  {
  }

  lemma {:induction false} MessageReads(text: string, m: Slice, e: Elem)
    requires XmlStream.MessageOf(text, m, e) && ExtraRuns(e) == 0
    ensures StandsFor(text, m, Tree(e, []))
  {
    JsonReads(e);
    SliceReads(text, m, Json(e), Tree(e, []));
  }

  /** Of several documents in one call, each message reads back as the value of its document. */
  lemma {:induction false} EachMessageReadsBack(docs: seq<Elem>, i: nat, r: T.State)
    requires r == T.Run(T.INITIAL, XmlStream.AllEvents(docs))
    requires i < XmlStream.Fitting(docs) && ExtraRuns(docs[i]) == 0
    ensures i < |r.msgs| && StandsFor(r.buf, r.msgs[i], Tree(docs[i], []))
  {
    XmlStream.DocumentsTheorem(docs);
    MessageInOrderReads(docs, i, r);
  }

  lemma {:induction false} MessageInOrderReads(docs: seq<Elem>, i: nat, r: T.State)
    requires XmlStream.InOrder(r.buf, r.msgs, docs) && i < |r.msgs| && ExtraRuns(docs[i]) == 0
    ensures StandsFor(r.buf, r.msgs[i], Tree(docs[i], []))
  {
    assert XmlStream.MessageOf(r.buf, r.msgs[i], docs[i]);
    MessageReads(r.buf, r.msgs[i], docs[i]);
  }

  // ---------------------------------------------------------------------
  // The depth that is accepted
  // ---------------------------------------------------------------------

  /** `n` elements, each inside the one before. */
  function Nested(n: nat): Elem {
    Elem("a", [], [], if n <= 1 then NoKids else Kid(Nested(n - 1), [], NoKids))
  }

  lemma {:induction false} NestedFits(n: nat, at: nat)
    requires n > 0
    ensures Fits(Nested(n), at) <==> at + 2 * n - 2 < 128
    decreases n
  {
    if n > 1 {
      NestedFits(n - 1, at + 2);
      assert KidsFit(NoKids, at);
      assert KidsFit(Nested(n).kids, at) <==> at + 1 < 128 && Fits(Nested(n - 1), at + 2);
    }
  }

  /** 64 nested elements without attributes are accepted; more are refused. */
  lemma NestingLimit(n: nat)
    requires n > 0
    ensures T.RunElem(T.INITIAL, Nested(n)).failed <==> n > 64
  {
    NestedFits(n, 1);
    XmlTheorem.DocumentTheorem(Nested(n), T.INITIAL, T.RunElem(T.INITIAL, Nested(n)));
  }
}
