/**
 A reader of JSON strings: section 7 of RFC 8259, on the bytes between the
 quotes. It is strict, or tolerant and lets raw control bytes pass. What the
 program prints is compared with it.
 */
module JsonReader {

  datatype Option<+T> = None | Some(value: T)

  /** The byte that a two-character escape stands for. */
  function Plain(letter: int): Option<int> {
    if letter == 0x22 || letter == 0x5C || letter == 0x2F then Some(letter)
    else if letter == 0x62 then Some(8)
    else if letter == 0x66 then Some(12)
    else if letter == 0x6E then Some(10)
    else if letter == 0x72 then Some(13)
    else if letter == 0x74 then Some(9)
    else None
  }

  function HexValue(b: int): Option<nat> {
    if 0x30 <= b <= 0x39 then Some(b - 0x30)
    else if 0x41 <= b <= 0x46 then Some(b - 0x41 + 10)
    else if 0x61 <= b <= 0x66 then Some(b - 0x61 + 10)
    else None
  }

  /** The four hex digits of a \u escape. */
  function CodeUnit(s: seq<int>): Option<nat> {
    if |s| < 6 || s[0] != 0x5C || s[1] != 0x75 then None
    else match (HexValue(s[2]), HexValue(s[3]), HexValue(s[4]), HexValue(s[5]))
      case (Some(a), Some(b), Some(c), Some(d)) => Some(((a * 16 + b) * 16 + c) * 16 + d)
      case _ => None
  }

  /** The UTF-8 bytes of a character: section 3 of RFC 3629. */
  function Utf8Bytes(c: nat): seq<int>
    requires c < 0x11_0000
  {
    if c < 0x80 then [c]
    else if c < 0x800 then [0xC0 + c / 0x40, 0x80 + c % 0x40]
    else if c < 0x1_0000 then [0xE0 + c / 0x1000, 0x80 + c / 0x40 % 0x40, 0x80 + c % 0x40]
    else [0xF0 + c / 0x4_0000, 0x80 + c / 0x1000 % 0x40, 0x80 + c / 0x40 % 0x40, 0x80 + c % 0x40]
  }

  /** A character read, and the bytes it took. */
  datatype Read = Read(bytes: seq<int>, used: nat)

  /** A \u escape, or a pair of them for a character outside the basic plane. */
  function ReadUnicode(s: seq<int>): (r: Option<Read>)
    ensures r.Some? ==> 0 < r.value.used <= |s|
  {
    match CodeUnit(s)
    case None => None
    case Some(u) =>
      if u < 0xD800 || 0xE000 <= u < 0x1_0000 then Some(Read(Utf8Bytes(u), 6))
      else if u < 0xDC00 then
        match CodeUnit(s[6..])
        case Some(v) =>
          if 0xDC00 <= v < 0xE000 then Some(Read(Utf8Bytes(0x1_0000 + (u - 0xD800) * 0x400 + (v - 0xDC00)), 12))
          else None
        case None => None
      else None
  }

  /** The character at the front; None for a bare quote, an illegal escape or, if strict, a control byte. */
  function ReadOne(strict: bool, s: seq<int>): (r: Option<Read>)
    requires s != []
    ensures r.Some? ==> 0 < r.value.used <= |s|
  {
    if (strict && s[0] < 0x20) || s[0] == 0x22 then None
    else if s[0] != 0x5C then Some(Read([s[0]], 1))
    else if |s| < 2 then None
    else if s[1] == 0x75 then ReadUnicode(s)
    else match Plain(s[1])
      case Some(b) => Some(Read([b], 2))
      case None => None
  }

  /** The bytes that a JSON string stands for, None if it is not a legal one. */
  function Unescape(strict: bool, s: seq<int>): Option<seq<int>>
    decreases |s|
  {
    if s == [] then Some([])
    else match ReadOne(strict, s)
      case None => None
      case Some(r) =>
        match Unescape(strict, s[r.used..])
        case None => None
        case Some(rest) => Some(r.bytes + rest)
  }

  // ---------------------------------------------------------------------
  // Reading piece by piece
  // ---------------------------------------------------------------------

  /** Bytes that stand for themselves. */
  predicate AllPlain(strict: bool, s: seq<int>) {
    forall i :: 0 <= i < |s| ==> (strict ==> s[i] >= 0x20) && s[i] != 0x22 && s[i] != 0x5C
  }

  function Prepend(a: seq<int>, o: Option<seq<int>>): Option<seq<int>> {
    match o case None => None case Some(v) => Some(a + v)
  }

  lemma {:induction false} ReadPlainByte(strict: bool, b: int, s: seq<int>)
    requires (strict ==> b >= 0x20) && b != 0x22 && b != 0x5C
    ensures Unescape(strict, [b] + s) == Prepend([b], Unescape(strict, s))
  {
    assert ([b] + s)[1..] == s;
  }

  lemma PrependTwice(a: seq<int>, b: seq<int>, o: Option<seq<int>>)
    ensures Prepend(a, Prepend(b, o)) == Prepend(a + b, o)
    ensures Prepend([], o) == o
  {
    if o.Some? {
      assert a + (b + o.value) == a + b + o.value;
      assert [] + o.value == o.value;
    }
  }

  lemma FirstByte(a: seq<int>, s: seq<int>)
    requires a != []
    ensures a + s == [a[0]] + (a[1..] + s) && [a[0]] + a[1..] == a
  {
  }

  lemma {:induction false} ReadPlain(strict: bool, a: seq<int>, s: seq<int>)
    requires AllPlain(strict, a)
    ensures Unescape(strict, a + s) == Prepend(a, Unescape(strict, s))
  {
    if a == [] {
      assert a + s == s;
      PrependTwice([], [], Unescape(strict, s));
    } else {
      var rest := a[1..] + s;
      ReadPlain(strict, a[1..], s);
      FirstByte(a, s);
      ReadPlainByte(strict, a[0], rest);
      PrependTwice([a[0]], a[1..], Unescape(strict, s));
    }
  }

  lemma ReadEscape(strict: bool, letter: int, s: seq<int>)
    requires Plain(letter).Some?
    ensures Unescape(strict, [0x5C, letter] + s) == Prepend([Plain(letter).value], Unescape(strict, s))
  {
    assert ([0x5C, letter] + s)[2..] == s;
  }
}
