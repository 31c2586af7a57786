/**
 JSON values made of strings, objects and arrays, and a reader of their text by
 sections 2 to 7 of RFC 8259. It knows nothing about XML or about the generator:
 a message is JSON if it reads all of it, and what it reads is what the message
 stands for.
 */
module JsonValue {
  import opened JsonReader
  import opened YajlGen

  datatype Value = Text(s: string) | Object(members: Members) | List(items: Items)

  datatype Members = NoMembers | Member(key: string, value: Value, rest: Members)

  datatype Items = NoItems | Item(value: Value, rest: Items)

  // ---------------------------------------------------------------------
  // Reading
  // ---------------------------------------------------------------------

  /** What was read from the front of a text, and the characters it took. */
  datatype Got<T> = Bad | Got(value: T, used: nat)

  function Chars(b: seq<int>): string {
    seq(|b|, k requires 0 <= k < |b| => if 0 <= b[k] < 0xD800 || 0xE000 <= b[k] < 0x11_0000 then b[k] as char else '?')
  }

  /** The rest of a string, up to and including the closing quote. */
  function ReadBody(t: seq<int>): (r: Got<seq<int>>)
    ensures r.Got? ==> 0 < r.used <= |t|
    decreases |t|
  {
    if t == [] then Bad
    else if t[0] == 0x22 then Got([], 1)
    else match ReadOne(true, t)
      case None => Bad
      case Some(c) =>
        match ReadBody(t[c.used..])
        case Bad => Bad
        case Got(b, n) => Got(c.bytes + b, c.used + n)
  }

  function ReadText(t: string): (r: Got<string>)
    ensures r.Got? ==> 0 < r.used <= |t|
  {
    if t == [] || t[0] != '\"' then Bad
    else match ReadBody(Codes(t[1..]))
      case Bad => Bad
      case Got(b, n) => Got(Chars(b), n + 1)
  }

  function ReadValue(t: string): (r: Got<Value>)
    ensures r.Got? ==> 0 < r.used <= |t|
    decreases |t|, 0
  {
    if t == [] then Bad
    else if t[0] == '\"' then
      match ReadText(t) case Bad => Bad case Got(s, n) => Got(Text(s), n)
    else if t[0] == '{' then
      if |t| > 1 && t[1] == '}' then Got(Object(NoMembers), 2)
      else match ReadMembers(t[1..]) case Bad => Bad case Got(ms, n) => Got(Object(ms), n + 1)
    else if t[0] == '[' then
      if |t| > 1 && t[1] == ']' then Got(List(NoItems), 2)
      else match ReadItems(t[1..]) case Bad => Bad case Got(vs, n) => Got(List(vs), n + 1)
    else Bad
  }

  /** One member, and what follows it up to the closing brace. */
  function ReadMembers(t: string): (r: Got<Members>)
    ensures r.Got? ==> 0 < r.used <= |t|
    decreases |t|, 1
  {
    match ReadText(t)
    case Bad => Bad
    case Got(key, k) => ReadAfterKey(t, key, k)
  }

  function ReadAfterKey(t: string, key: string, k: nat): (r: Got<Members>)
    requires k <= |t|
    ensures r.Got? ==> 0 < r.used <= |t|
    decreases |t|, 0
  {
    if k == |t| || t[k] != ':' then Bad
    else match ReadValue(t[k + 1..])
      case Bad => Bad
      case Got(v, n) =>
        match ReadMoreMembers(t[k + 1 + n..])
        case Bad => Bad
        case Got(ms, m) => Got(Member(key, v, ms), k + 1 + n + m)
  }

  function ReadMoreMembers(t: string): (r: Got<Members>)
    ensures r.Got? ==> 0 < r.used <= |t|
    decreases |t|, 0
  {
    if t == [] then Bad
    else if t[0] == '}' then Got(NoMembers, 1)
    else if t[0] == ',' then match ReadMembers(t[1..]) case Bad => Bad case Got(ms, n) => Got(ms, n + 1)
    else Bad
  }

  /** One item, and what follows it up to the closing bracket. */
  function ReadItems(t: string): (r: Got<Items>)
    ensures r.Got? ==> 0 < r.used <= |t|
    decreases |t|, 1
  {
    match ReadValue(t)
    case Bad => Bad
    case Got(v, n) =>
      match ReadMoreItems(t[n..])
      case Bad => Bad
      case Got(vs, m) => Got(Item(v, vs), n + m)
  }

  function ReadMoreItems(t: string): (r: Got<Items>)
    ensures r.Got? ==> 0 < r.used <= |t|
    decreases |t|, 0
  {
    if t == [] then Bad
    else if t[0] == ']' then Got(NoItems, 1)
    else if t[0] == ',' then match ReadItems(t[1..]) case Bad => Bad case Got(vs, n) => Got(vs, n + 1)
    else Bad
  }

  // ---------------------------------------------------------------------
  // Compact text
  // ---------------------------------------------------------------------

  function Print(v: Value): string
    decreases v, 0
  {
    match v
    case Text(s) => Quote(s)
    case Object(ms) => if ms.NoMembers? then "{}" else "{" + PrintMembers(ms)
    case List(vs) => if vs.NoItems? then "[]" else "[" + PrintItems(vs)
  }

  function PrintMembers(ms: Members): string
    requires ms.Member?
    decreases ms, 0
  {
    Quote(ms.key) + ":" + Print(ms.value) + PrintMoreMembers(ms.rest)
  }

  function PrintMoreMembers(ms: Members): string
    decreases ms, 1
  {
    if ms.NoMembers? then "}" else "," + PrintMembers(ms)
  }

  function PrintItems(vs: Items): string
    requires vs.Item?
    decreases vs, 0
  {
    Print(vs.value) + PrintMoreItems(vs.rest)
  }

  function PrintMoreItems(vs: Items): string
    decreases vs, 1
  {
    if vs.NoItems? then "]" else "," + PrintItems(vs)
  }

  // ---------------------------------------------------------------------
  // The text reads back
  // ---------------------------------------------------------------------

  lemma {:induction false} BodyStep(t: seq<int>, c: Read, left: seq<int>, b: seq<int>, n: nat)
    requires t != [] && t[0] != 0x22 && ReadOne(true, t) == Some(c) && c.used <= |t|
    requires t[c.used..] == left && ReadBody(left) == Got(b, n)
    ensures ReadBody(t) == Got(c.bytes + b, c.used + n)
  {
  }

  lemma {:induction false} CodesJoin(x: string, a: string, b: string, tail: seq<int>)
    requires x == a + b
    ensures Codes(x) + tail == Codes(a) + (Codes(b) + tail) && |x| == |a| + |b|
  {
    CodesAppend(a, b);
  }

  lemma {:induction false} BodyReads(s: string, rest: seq<int>)
    ensures ReadBody(Codes(Enc(s)) + ([0x22] + rest)) == Got(Codes(s), |Enc(s)| + 1)
  {
    if s == [] {
      EmptyBody(rest);
    } else {
      BodyReads(s[1..], rest);
      EncStep(s);
      CodesJoin(Enc(s), Esc(s[0]), Enc(s[1..]), [0x22] + rest);
      CodesCons(s);
      FirstReads(s[0], Codes(Enc(s[1..])) + ([0x22] + rest), Codes(s[1..]), |Enc(s[1..])| + 1);
    }
  }

  lemma {:induction false} EmptyBody(rest: seq<int>)
    ensures ReadBody(Codes(Enc([])) + ([0x22] + rest)) == Got(Codes([]), |Enc([])| + 1)
  {
    var t := Codes(Enc([])) + ([0x22] + rest);
    assert t[0] == 0x22 && Codes([]) == [];
  }

  lemma {:induction false} FirstReads(c: char, left: seq<int>, b: seq<int>, n: nat)
    requires ReadBody(left) == Got(b, n)
    ensures ReadBody(Codes(Esc(c)) + left) == Got([c as int] + b, |Esc(c)| + n)
  {
    var t := Codes(Esc(c)) + left;
    ReadEsc(c, left);
    assert t[0] == Codes(Esc(c))[0] && t[|Esc(c)|..] == left;
    BodyStep(t, Read([c as int], |Esc(c)|), left, b, n);
  }

  lemma CharsOfCodes(s: string)
    ensures Chars(Codes(s)) == s
  {
  }

  lemma QuoteReads(s: string, rest: string)
    ensures ReadText(Quote(s) + rest) == Got(s, |Quote(s)|)
  {
    var t := Quote(s) + rest;
    assert t[1..] == Enc(s) + ("\"" + rest);
    CodesAppend(Enc(s), "\"" + rest);
    CodesAppend("\"", rest);
    assert Codes("\"") == [0x22];
    BodyReads(s, Codes(rest));
    CharsOfCodes(s);
  }

  lemma {:induction false} ObjectStep(body: string, ms: Members, n: nat)
    requires ReadMembers(body) == Got(ms, n) && body != [] && body[0] != '}'
    ensures ReadValue("{" + body) == Got(Object(ms), n + 1)
  {
    var t := "{" + body;
    assert t[0] == '{' && t[1] == body[0] && t[1..] == body;
  }

  lemma {:induction false} ListStep(body: string, vs: Items, n: nat)
    requires ReadItems(body) == Got(vs, n) && body != [] && body[0] != ']'
    ensures ReadValue("[" + body) == Got(List(vs), n + 1)
  {
    var t := "[" + body;
    assert t[0] == '[' && t[1] == body[0] && t[1..] == body;
  }

  lemma {:induction false} MemberStep(t: string, q: string, p: string, more: string, key: string, v: Value, ms: Members, m: nat)
    requires t == q + (":" + (p + more))
    requires ReadValue(p + more) == Got(v, |p|) && ReadMoreMembers(more) == Got(ms, m)
    ensures |q| <= |t| && ReadAfterKey(t, key, |q|) == Got(Member(key, v, ms), |q| + 1 + |p| + m)
  {
    MemberSlices(t, q, p, more);
  }

  lemma {:induction false} MemberSlices(t: string, q: string, p: string, more: string)
    requires t == q + (":" + (p + more))
    ensures |q| < |t| && t[|q|] == ':' && t[|q| + 1..] == p + more && |q| + 1 + |p| <= |t|
    ensures t[|q| + 1 + |p|..] == more
  {
    assert t[|q|..] == ":" + (p + more);
  }

  lemma {:induction false} MoreMemberStep(body: string, ms: Members, n: nat)
    requires ReadMembers(body) == Got(ms, n)
    ensures ReadMoreMembers("," + body) == Got(ms, n + 1)
  {
    assert ("," + body)[1..] == body;
  }

  lemma {:induction false} ItemStep(p: string, more: string, v: Value, vs: Items, m: nat)
    requires ReadValue(p + more) == Got(v, |p|) && ReadMoreItems(more) == Got(vs, m)
    ensures ReadItems(p + more) == Got(Item(v, vs), |p| + m)
  {
    assert (p + more)[|p|..] == more;
  }

  lemma {:induction false} MoreItemStep(body: string, vs: Items, n: nat)
    requires ReadItems(body) == Got(vs, n)
    ensures ReadMoreItems("," + body) == Got(vs, n + 1)
  {
    assert ("," + body)[1..] == body;
  }

  lemma {:induction false} EndSteps(rest: string)
    ensures ReadMoreMembers("}" + rest) == Got(NoMembers, 1) && ReadMoreItems("]" + rest) == Got(NoItems, 1)
    ensures ReadValue("{}" + rest) == Got(Object(NoMembers), 2) && ReadValue("[]" + rest) == Got(List(NoItems), 2)
  {
  }

  lemma {:induction false} Join2(a: string, b: string, c: string)
    ensures a + b + c == a + (b + c)
  {
  }

  /** A printed value begins with a quote, a brace or a bracket. */
  lemma {:induction false} PrintBegins(v: Value)
    ensures Print(v) != [] && (Print(v)[0] == '\"' || Print(v)[0] == '{' || Print(v)[0] == '[')
  {
  }

  lemma {:induction false} ObjectFrom(p: string, rest: string, ms: Members)
    requires ReadMembers(p + rest) == Got(ms, |p|) && p != [] && p[0] != '}'
    ensures ReadValue("{" + p + rest) == Got(Object(ms), |p| + 1)
  {
    Join2("{", p, rest);
    ObjectStep(p + rest, ms, |p|);
  }

  lemma {:induction false} MembersBegin(ms: Members)
    requires ms.Member?
    ensures PrintMembers(ms) != [] && PrintMembers(ms)[0] == '\"'
  {
  }

  lemma {:induction false} ObjectReads(ms: Members, rest: string)
    ensures ReadValue(Print(Object(ms)) + rest) == Got(Object(ms), |Print(Object(ms))|)
    decreases ms, 1
  {
    if ms.NoMembers? {
      EndSteps(rest);
    } else {
      MembersRead(ms, rest);
      MembersBegin(ms);
      ObjectFrom(PrintMembers(ms), rest, ms);
    }
  }

  lemma {:induction false} ListReads(vs: Items, rest: string)
    ensures ReadValue(Print(List(vs)) + rest) == Got(List(vs), |Print(List(vs))|)
    decreases vs, 1
  {
    if vs.NoItems? {
      EndSteps(rest);
    } else {
      ItemsRead(vs, rest);
      PrintBegins(vs.value);
      Join2("[", PrintItems(vs), rest);
      ListStep(PrintItems(vs) + rest, vs, |PrintItems(vs)|);
    }
  }

  /** Whatever follows it, the compact text of a value reads as that value. */
  lemma {:induction false} PrintReads(v: Value, rest: string)
    ensures ReadValue(Print(v) + rest) == Got(v, |Print(v)|)
    decreases v, 0
  {
    match v
    case Text(s) => QuoteReads(s, rest);
    case Object(ms) => ObjectReads(ms, rest);
    case List(vs) => ListReads(vs, rest);
  }

  lemma {:induction false} PrintReadsAll(v: Value, text: string)
    requires text == Print(v)
    ensures ReadValue(text) == Got(v, |text|)
  {
    PrintReads(v, "");
    assert Print(v) + "" == text;
  }

  lemma {:induction false} MembersRead(ms: Members, rest: string)
    requires ms.Member?
    ensures ReadMembers(PrintMembers(ms) + rest) == Got(ms, |PrintMembers(ms)|)
    decreases ms, 0
  {
    var q, p, more := Quote(ms.key), Print(ms.value), PrintMoreMembers(ms.rest) + rest;
    var t := q + (":" + (p + more));
    MoreMembersRead(ms.rest, rest);
    PrintReads(ms.value, more);
    QuoteReads(ms.key, ":" + (p + more));
    MemberText(q, p, PrintMoreMembers(ms.rest), rest);
    MemberStep(t, q, p, more, ms.key, ms.value, ms.rest, |PrintMoreMembers(ms.rest)|);
  }

  lemma {:induction false} MemberText(q: string, p: string, more: string, rest: string)
    ensures q + ":" + p + more + rest == q + (":" + (p + (more + rest)))
  {
  }

  lemma {:induction false} MoreMembersRead(ms: Members, rest: string)
    ensures ReadMoreMembers(PrintMoreMembers(ms) + rest) == Got(ms, |PrintMoreMembers(ms)|)
    decreases ms, 1
  {
    if ms.NoMembers? {
      EndSteps(rest);
    } else {
      MembersRead(ms, rest);
      Join2(",", PrintMembers(ms), rest);
      MoreMemberStep(PrintMembers(ms) + rest, ms, |PrintMembers(ms)|);
    }
  }

  lemma {:induction false} ItemsRead(vs: Items, rest: string)
    requires vs.Item?
    ensures ReadItems(PrintItems(vs) + rest) == Got(vs, |PrintItems(vs)|)
    decreases vs, 0
  {
    var more := PrintMoreItems(vs.rest) + rest;
    MoreItemsRead(vs.rest, rest);
    PrintReads(vs.value, more);
    Join2(Print(vs.value), PrintMoreItems(vs.rest), rest);
    ItemStep(Print(vs.value), more, vs.value, vs.rest, |PrintMoreItems(vs.rest)|);
  }

  lemma {:induction false} MoreItemsRead(vs: Items, rest: string)
    ensures ReadMoreItems(PrintMoreItems(vs) + rest) == Got(vs, |PrintMoreItems(vs)|)
    decreases vs, 1
  {
    if vs.NoItems? {
      EndSteps(rest);
    } else {
      ItemsRead(vs, rest);
      Join2(",", PrintItems(vs), rest);
      MoreItemStep(PrintItems(vs) + rest, vs, |PrintItems(vs)|);
    }
  }
}
