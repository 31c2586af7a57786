/**
 Escaping of a byte string into the inside of a JSON string. What the code
 prints is compared with a reader of JSON strings.
 */
module JsonEscape {
  import opened GrowString
  import opened JsonReader

  // Bytes with a role in JSON strings
  const NUL: Byte := 0
  const BS: Byte := 8
  const TAB: Byte := 9
  const LF: Byte := 10
  const FF: Byte := 12
  const CR: Byte := 13
  const QUOTE: Byte := 0x22
  const ZERO: Byte := 0x30
  const BACKSLASH: Byte := 0x5C
  const LOWER_B: Byte := 0x62
  const LOWER_F: Byte := 0x66
  const LOWER_N: Byte := 0x6E
  const LOWER_R: Byte := 0x72
  const LOWER_T: Byte := 0x74
  const LOWER_X: Byte := 0x78

  // ---------------------------------------------------------------------
  // What the code prints
  // ---------------------------------------------------------------------

  function LeadingOnes(b: Byte): (n: nat)
    ensures n <= 8
  {
    if b < 0x80 then 0 else if b < 0xC0 then 1 else if b < 0xE0 then 2 else if b < 0xF0 then 3
    else if b < 0xF8 then 4 else if b < 0xFC then 5 else if b < 0xFE then 6 else if b < 0xFF then 7 else 8
  }

  predicate Trailing(b: Byte) {
    0x80 <= b < 0xC0
  }

  /** multibyte_utf8_unicode_size: the length of the character that `s` begins with, 0 if it is none. */
  function Utf8Size(s: seq<Byte>): (n: nat)
    requires s != []
    ensures n <= 4 && n <= |s|
    ensures n == 1 <==> s[0] < 0x80
    ensures n > 1 ==> forall i :: 0 <= i < n ==> s[i] >= 0x80
  {
    var ones := LeadingOnes(s[0]);
    if ones == 0 then 1
    else if ones < 2 || ones > 4 || |s| < ones then 0
    else if forall i :: 1 <= i < ones ==> Trailing(s[i]) then ones
    else 0
  }

  /** A number as printf prints it with %u. */
  function Decimal(n: nat): (d: seq<Byte>)
    ensures d != [] && forall i :: 0 <= i < |d| ==> 0x30 <= d[i] <= 0x39
  {
    (if n < 10 then [] else Decimal(n / 10)) + [ZERO + n % 10]
  }

  /** print_not_utf8_code: two backslashes, x, and the byte in decimal. */
  function Hint(b: Byte): seq<Byte> {
    [BACKSLASH, BACKSLASH, LOWER_X] + Decimal(b)
  }

  /** The letter of a two-character escape of print_json_escaped_character; 0 if there is none. */
  function Letter(b: Byte): Byte {
    if b == BS then LOWER_B else if b == FF then LOWER_F else if b == LF then LOWER_N
    else if b == CR then LOWER_R else if b == TAB then LOWER_T else 0
  }

  /** One round of the loop: bytes printed, bytes consumed. */
  datatype Round = Round(out: seq<Byte>, used: nat, rc: int)

  function OneRound(s: seq<Byte>): (r: Round)
    requires s != []
    ensures 1 <= r.used <= |s|
  {
    if s[0] == NUL then Round(Hint(NUL), 1, 1)
    else if Letter(s[0]) != 0 then Round([BACKSLASH, Letter(s[0])], 1, 0)
    else if s[0] == QUOTE || s[0] == BACKSLASH then Round([BACKSLASH, s[0]], 1, 0)
    else if Utf8Size(s) == 0 then Round(Hint(s[0]), 1, 0)
    else Round(s[..Utf8Size(s)], Utf8Size(s), 0)
  }

  datatype Escaped = Escaped(text: seq<Byte>, rc: int)

  function Escape(s: seq<Byte>): Escaped
    decreases |s|
  {
    if s == [] then Escaped([], 0)
    else
      var r := OneRound(s);
      if r.rc != 0 then Escaped(r.out, r.rc)
      else
        var rest := Escape(s[r.used..]);
        Escaped(r.out + rest.text, rest.rc)
  }

  lemma EscapeStep(s: seq<Byte>)
    requires s != []
    ensures var r := OneRound(s);
            if r.rc != 0 then Escape(s) == Escaped(r.out, r.rc)
            else Escape(s) == Escaped(r.out + Escape(s[r.used..]).text, Escape(s[r.used..]).rc)
  {
  }

  /** An append that finds memory. */
  method Put(str: String, data: seq<Byte>)
    requires str.Valid() && |str.Text()| + |data| <= MAX_SIZE
    modifies str, str.buf
    ensures str.Valid() && (str.buf == old(str.buf) || fresh(str.buf))
    ensures str.Text() == old(str.Text()) + data
  {
    var _ := str.Append(data, true);
  }

  /** The body of the loop of string_append_json_string. */
  method PrintRound(str: String, s: seq<Byte>) returns (used: nat, rc: int)
    requires s != [] && str.Valid() && |str.Text()| + |OneRound(s).out| <= MAX_SIZE
    modifies str, str.buf
    ensures str.Valid() && (str.buf == old(str.buf) || fresh(str.buf))
    ensures str.Text() == old(str.Text()) + OneRound(s).out
    ensures used == OneRound(s).used && rc == OneRound(s).rc
  {
    used, rc := 1, 0;
    if s[0] == NUL {
      Put(str, Hint(s[0]));
      rc := 1;
    } else if Letter(s[0]) != 0 {
      Put(str, [BACKSLASH, Letter(s[0])]);
    } else if s[0] == QUOTE || s[0] == BACKSLASH {
      Put(str, [BACKSLASH]);
      Put(str, [s[0]]);
    } else {
      var size := Utf8Size(s);
      if size == 0 {
        Put(str, Hint(s[0]));
      } else {
        Put(str, s[..size]);
        used := size;
      }
    }
  }

  /** string_append_json_string, with memory for every append; the printf is an append of its text. */
  method AppendJsonString(str: String, data: seq<Byte>) returns (rc: int)
    requires str.Valid() && |str.Text()| + |Escape(data).text| <= MAX_SIZE
    modifies str, str.buf
    ensures str.Valid()
    ensures str.Text() == old(str.Text()) + Escape(data).text
    ensures rc == Escape(data).rc
  {
    rc := PrintAll(str, data, Escape);
  }

  /** `esc` is another name for Escape, which keeps proofs that do not need its definition short. */
  ghost predicate IsEscape(esc: seq<Byte> -> Escaped) {
    && esc([]) == Escaped([], 0)
    && forall s {:trigger Escape(s)} :: esc(s) == Escape(s)
  }

  method PrintAll(str: String, data: seq<Byte>, ghost esc: seq<Byte> -> Escaped) returns (rc: int)
    requires IsEscape(esc) && str.Valid() && |str.Text()| + |esc(data).text| <= MAX_SIZE
    modifies str, str.buf
    ensures str.Valid()
    ensures str.Text() == old(str.Text()) + esc(data).text
    ensures rc == esc(data).rc
  {
    rc := 0;
    var left := data;  // &data[i], data_size - i
    ghost var base, all, done := str.Text(), esc(data), [];
    while rc == 0 && left != []
      invariant str.Valid() && (str.buf == old(str.buf) || fresh(str.buf))
      invariant str.Text() == base + done
      invariant Printed(all, esc(left), done, rc)
      decreases |left|
    {
      rc, left, done := Advance(str, left, esc, base, all, done);
    }
  }

  /** Print one round and step over what it consumed. */
  method Advance(str: String, left: seq<Byte>, ghost esc: seq<Byte> -> Escaped,
                 ghost base: seq<Byte>, ghost all: Escaped, ghost done: seq<Byte>)
    returns (rc: int, rest: seq<Byte>, ghost done': seq<Byte>)
    requires left != [] && IsEscape(esc) && Printed(all, esc(left), done, 0)
    requires str.Valid() && str.Text() == base + done && |base| + |all.text| <= MAX_SIZE
    modifies str, str.buf
    ensures str.Valid() && (str.buf == old(str.buf) || fresh(str.buf))
    ensures str.Text() == base + done'
    ensures |rest| < |left| && Printed(all, esc(rest), done', rc)
  {
    ghost var out;
    rest, rc, out := PrintNext(str, left, esc);
    PrintedStep(all, esc(left), esc(rest), done, Round(out, 0, rc));
    done' := done + out;
  }

  method PrintNext(str: String, left: seq<Byte>, ghost esc: seq<Byte> -> Escaped)
    returns (rest: seq<Byte>, rc: int, ghost out: seq<Byte>)
    requires left != [] && IsEscape(esc) && str.Valid() && |str.Text()| + |esc(left).text| <= MAX_SIZE
    modifies str, str.buf
    ensures str.Valid() && (str.buf == old(str.buf) || fresh(str.buf))
    ensures str.Text() == old(str.Text()) + out && |rest| < |left|
    ensures esc(left) == if rc != 0 then Escaped(out, rc) else Escaped(out + esc(rest).text, esc(rest).rc)
  {
    EscapeStep(left);
    out := OneRound(left).out;
    var used;
    used, rc := PrintRound(str, left);
    rest := left[used..];
  }

  /** With `done` printed and `left` to come, the text will be that of `all`. */
  ghost predicate Printed(all: Escaped, left: Escaped, done: seq<Byte>, rc: int) {
    all == if rc != 0 then Escaped(done, rc) else Escaped(done + left.text, left.rc)
  }

  lemma PrintedStep(all: Escaped, left: Escaped, rest: Escaped, done: seq<Byte>, r: Round)
    requires Printed(all, left, done, 0)
    requires left == if r.rc != 0 then Escaped(r.out, r.rc) else Escaped(r.out + rest.text, rest.rc)
    ensures Printed(all, rest, done + r.out, r.rc) && |done| + |r.out| <= |all.text|
  {
    assert done + (r.out + rest.text) == done + r.out + rest.text;
  }

  // ---------------------------------------------------------------------
  // Inputs
  // ---------------------------------------------------------------------

  predicate Tail(b: int) {
    0x80 <= b <= 0xBF
  }

  /** One character, by the table of octet sequences in section 3 of RFC 3629. */
  predicate Character(s: seq<int>) {
    || (|s| == 1 && 0 <= s[0] <= 0x7F)
    || (|s| == 2 && 0xC0 <= s[0] <= 0xDF && Tail(s[1]))
    || (|s| == 3 && 0xE0 <= s[0] <= 0xEF && Tail(s[1]) && Tail(s[2]))
    || (|s| == 4 && 0xF0 <= s[0] <= 0xF7 && Tail(s[1]) && Tail(s[2]) && Tail(s[3]))
  }

  /** A sequence of characters. */
  predicate Utf8(s: seq<Byte>)
    decreases |s|
  {
    s == [] || exists n :: 1 <= n <= 4 && n <= |s| && Character(s[..n]) && Utf8(s[n..])
  }

  /** The size found is that of the character at the front, and 0 exactly if there is none. */
  lemma Utf8SizeIsCharacter(s: seq<Byte>, n: nat)
    requires s != [] && n <= |s|
    ensures Utf8Size(s) == n > 0 <==> Character(s[..n])
  {
    if 1 <= n <= 4 {
      assert forall i :: 0 <= i < n ==> s[..n][i] == s[i];
    }
  }

  /** Control bytes that the code does not escape, and JSON does not allow. */
  predicate BadControl(b: Byte) {
    b < 0x20 && b !in {8, 9, 10, 12, 13}
  }

  predicate NoBadControl(s: seq<Byte>) {
    forall i :: 0 <= i < |s| ==> !BadControl(s[i])
  }

  /** What the escaped text says: the input, with a hint in place of each byte that is not UTF-8. */
  function Shown(s: seq<Byte>): (t: seq<Byte>)
    ensures |t| >= |s|
    decreases |s|
  {
    if s == [] then []
    else if Utf8Size(s) == 0 then [0x5C, 0x78] + Decimal(s[0]) + Shown(s[1..])
    else s[..Utf8Size(s)] + Shown(s[Utf8Size(s)..])
  }

  /** The number that decimal digits stand for, read from the left. */
  function Value(d: seq<int>): int {
    if d == [] then 0 else 10 * Value(d[..|d| - 1]) + (d[|d| - 1] - 0x30)
  }

  /** The digits of a hint stand for its byte, without leading zeros. */
  lemma {:induction false} DecimalIs(n: nat)
    ensures Value(Decimal(n)) == n
    ensures Decimal(n)[0] == 0x30 <==> n == 0
    ensures n == 0 ==> Decimal(n) == [0x30]
  {
    var d := Decimal(n);
    if n < 10 {
      assert d == [0x30 + n] && d[..0] == [];
      assert Value(d[..0]) == 0;
    } else {
      DecimalIs(n / 10);
      assert d[..|d| - 1] == Decimal(n / 10);
    }
  }

  // ---------------------------------------------------------------------
  // What the reader sees
  // ---------------------------------------------------------------------

  lemma ReadHint(strict: bool, b: Byte, s: seq<Byte>)
    ensures Unescape(strict, Hint(b) + s) == Prepend([0x5C, 0x78] + Decimal(b), Unescape(strict, s))
  {
    var digits := [0x78] + Decimal(b);
    assert Hint(b) + s == [0x5C, 0x5C] + (digits + s);
    ReadEscape(strict, 0x5C, digits + s);
    ReadPlain(strict, digits, s);
    PrependTwice([0x5C], digits, Unescape(strict, s));
    assert [0x5C] + digits == [0x5C, 0x78] + Decimal(b);
  }

  /** What one round prints reads as what the round shows. */
  function RoundShows(s: seq<Byte>): seq<Byte>
    requires s != []
  {
    if Utf8Size(s) == 0 then [0x5C, 0x78] + Decimal(s[0]) else s[..Utf8Size(s)]
  }

  lemma ReadRound(strict: bool, s: seq<Byte>, rest: seq<Byte>)
    requires s != [] && OneRound(s).rc == 0
    ensures OneRound(s).used == if Utf8Size(s) == 0 then 1 else Utf8Size(s)
    ensures Unescape(strict, OneRound(s).out + rest) ==
            if strict && BadControl(s[0]) then None else Prepend(RoundShows(s), Unescape(strict, rest))
  {
    var n := Utf8Size(s);
    if Letter(s[0]) != 0 {
      ReadEscape(strict, Letter(s[0]), rest);
      assert s[..n] == [s[0]];
    } else if s[0] == 0x22 || s[0] == 0x5C {
      ReadEscape(strict, s[0], rest);
      assert s[..n] == [s[0]];
    } else if n == 0 {
      ReadHint(strict, s[0], rest);
    } else if strict && BadControl(s[0]) {
      assert (s[..n] + rest)[0] == s[0];
    } else {
      ReadPlain(strict, s[..n], rest);
    }
  }

  /** The escaper succeeds exactly on inputs without 0. */
  lemma {:induction false} EscapeSucceeds(s: seq<Byte>)
    ensures Escape(s).rc == 0 <==> 0 !in s
    decreases |s|
  {
    if s != [] && s[0] != 0 {
      var rest := s[OneRound(s).used..];
      EscapeSucceeds(rest);
      RoundSkips(s, rest);
      EscapeStep(s);
    }
  }

  /** What is escaped reads as what it shows, whatever text follows it. */
  lemma {:induction false} EscapedReadsBefore(strict: bool, s: seq<Byte>, after: seq<Byte>)
    requires 0 !in s
    ensures Unescape(strict, Escape(s).text + after) ==
            if strict && !NoBadControl(s) then None else Prepend(Shown(s), Unescape(strict, after))
    decreases |s|
  {
    if s == [] {
      assert Escape(s).text + after == after;
      PrependTwice([], [], Unescape(strict, after));
    } else {
      var out, rest := OneRound(s).out, s[OneRound(s).used..];
      RoundSkips(s, rest);
      EscapedReadsBefore(strict, rest, after);
      EscapeStep(s);
      Regroup(out, Escape(rest).text, after);
      ReadRound(strict, s, Escape(rest).text + after);
      PrependTwice(RoundShows(s), Shown(rest), Unescape(strict, after));
    }
  }

  lemma Regroup(a: seq<Byte>, b: seq<Byte>, c: seq<Byte>)
    ensures a + b + c == a + (b + c)
  {
  }

  /**
   The escaper succeeds exactly on inputs without 0. Its text is then a legal JSON string exactly if
   there is no control byte that it leaves alone; and it stands for the input with a hint in place of
   each byte that is not UTF-8.
   */
  lemma EscapedReads(s: seq<Byte>)
    ensures Escape(s).rc == 0 <==> 0 !in s
    ensures Escape(s).rc == 0 ==>
              Unescape(true, Escape(s).text) == if NoBadControl(s) then Some(Shown(s)) else None
  {
    EscapeSucceeds(s);
    if 0 !in s {
      EscapedReadsBefore(true, s, []);
      assert Escape(s).text + [] == Escape(s).text;
      assert Shown(s) + [] == Shown(s);
    }
  }

  /** What the text of any input says; a NUL ends it with a hint. */
  function Told(s: seq<Byte>): seq<Byte> {
    if 0 in s then Shown(BeforeNul(s)) + [0x5C, 0x78, 0x30] else Shown(s)
  }

  function BeforeNul(s: seq<Byte>): (a: seq<Byte>)
    requires 0 in s
    ensures a + [0] <= s && 0 !in a
  {
    if s[0] == NUL then [] else [s[0]] + BeforeNul(s[1..])
  }

  /**
   Whatever the input, and also when the escaper fails: the text has no bare quote and no illegal
   escape, so nothing in the input can end the string that it is put into.
   */
  lemma AlwaysReadable(s: seq<Byte>)
    ensures Unescape(false, Escape(s).text) == Some(Told(s))
  {
    if 0 in s {
      var a := BeforeNul(s);
      var b := s[|a| + 1..];
      assert s == a + [0] + b;
      StopsAtNul(a, b);
      EscapedReadsBefore(false, a, Hint(0));
      HintOfNul();
    } else {
      EscapedReadsBefore(false, s, []);
      assert Escape(s).text + [] == Escape(s).text;
      assert Shown(s) + [] == Shown(s);
    }
  }

  lemma HintOfNul()
    ensures Unescape(false, Hint(0)) == Some([0x5C, 0x78, 0x30])
  {
    ReadHint(false, 0, []);
    assert Hint(0) + [] == Hint(0);
    assert [0x5C, 0x78] + Decimal(0) + [] == [0x5C, 0x78, 0x30];
  }

  /** The escaper adds no quotes: its text never begins with one, and is empty for an empty input. */
  lemma NoQuotesAdded(s: seq<Byte>)
    ensures Escape([]).text == []
    ensures Escape(s).text != [] ==> Escape(s).text[0] != 0x22
  {
    AlwaysReadable(s);
  }

  /** The bytes that one round consumes after the first are no control bytes. */
  lemma RoundSkips(s: seq<Byte>, rest: seq<Byte>)
    requires s != [] && s[0] != 0 && rest == s[OneRound(s).used..]
    ensures OneRound(s).rc == 0
    ensures 0 in s <==> 0 in rest
    ensures NoBadControl(s) <==> !BadControl(s[0]) && NoBadControl(rest)
    ensures Shown(s) == RoundShows(s) + Shown(rest)
  {
    var n := OneRound(s).used;
    RoundUses(s);
    BytesSkipped(s, n, rest);
  }

  lemma RoundUses(s: seq<Byte>)
    requires s != [] && s[0] != 0
    ensures OneRound(s).rc == 0
    ensures OneRound(s).used == if Utf8Size(s) == 0 then 1 else Utf8Size(s)
    ensures forall i :: 1 <= i < OneRound(s).used ==> s[i] >= 0x80
  {
  }

  lemma BytesSkipped(s: seq<Byte>, n: nat, rest: seq<Byte>)
    requires 0 < n <= |s| && s[0] != 0 && rest == s[n..] && forall i :: 1 <= i < n ==> s[i] >= 0x80
    ensures 0 in s <==> 0 in rest
    ensures NoBadControl(s) <==> !BadControl(s[0]) && NoBadControl(rest)
  {
    assert forall i :: n <= i < |s| ==> s[i] == rest[i - n];
    assert s == s[..n] + rest;
  }

  /** A UTF-8 string is one character of the size that the code finds, and a UTF-8 string. */
  lemma {:induction false} Utf8Step(s: seq<Byte>)
    requires s != []
    ensures Utf8(s) <==> Utf8Size(s) > 0 && Utf8(s[Utf8Size(s)..])
  {
    forall n | 1 <= n <= 4 && n <= |s|
      ensures Character(s[..n]) <==> n == Utf8Size(s)
    {
      Utf8SizeIsCharacter(s, n);
    }
  }

  /** The text shows the input itself exactly when that is UTF-8. */
  lemma {:induction false} ShownIsInput(s: seq<Byte>)
    ensures Shown(s) == s <==> Utf8(s)
    decreases |s|
  {
    if s != [] {
      var n := Utf8Size(s);
      Utf8Step(s);
      if n > 0 {
        ShownIsInput(s[n..]);
        SplitEqual(s, Shown(s[n..]), n);
      } else {
        assert |Shown(s)| > |s|;
      }
    }
  }

  lemma SplitEqual(s: seq<Byte>, t: seq<Byte>, n: nat)
    requires n <= |s|
    ensures s[..n] + t == s <==> t == s[n..]
  {
    assert (s[..n] + t)[n..] == t;
    assert s[..n] + s[n..] == s;
  }

  predicate Clean(s: seq<Byte>) {
    Utf8(s) && NoBadControl(s)
  }

  /** Escaping succeeds and round-trips exactly on clean inputs. */
  lemma RoundTrip(s: seq<Byte>)
    ensures Escape(s).rc == 0 && Unescape(true, Escape(s).text) == Some(s) <==> Clean(s)
  {
    EscapedReads(s);
    ShownIsInput(s);
  }

  /** A NUL is no trailing byte, so it ends a character as the end of the input does. */
  lemma Utf8SizeAtNul(a: seq<Byte>, b: seq<Byte>)
    requires a != []
    ensures Utf8Size(a + [0] + b) == Utf8Size(a)
  {
    var s := a + [0] + b;
    assert s[|a|] == 0;
    assert forall i :: 0 <= i < |a| ==> s[i] == a[i];
  }

  /** What one round prints for each byte that it looks at: the escapes of the five controls, of quote and backslash. */
  lemma RoundPrints(s: seq<Byte>)
    requires s != []
    ensures s[0] == 8 ==> OneRound(s).out == [0x5C, 0x62]
    ensures s[0] == 9 ==> OneRound(s).out == [0x5C, 0x74]
    ensures s[0] == 10 ==> OneRound(s).out == [0x5C, 0x6E]
    ensures s[0] == 12 ==> OneRound(s).out == [0x5C, 0x66]
    ensures s[0] == 13 ==> OneRound(s).out == [0x5C, 0x72]
    ensures s[0] == 0x22 || s[0] == 0x5C ==> OneRound(s).out == [0x5C, s[0]]
    ensures 1 <= s[0] <= 0x7F && s[0] !in {8, 9, 10, 12, 13, 0x22, 0x5C} ==> OneRound(s).out == [s[0]]
    ensures s[0] == 0 || Utf8Size(s) == 0 ==> OneRound(s).out == [0x5C, 0x5C, 0x78] + Decimal(s[0])
  {
  }

  predicate NoEscapes(s: seq<Byte>) {
    forall i :: 0 <= i < |s| ==> s[i] !in {0, 8, 9, 10, 12, 13, 0x22, 0x5C}
  }

  lemma PlainRound(s: seq<Byte>)
    requires s != [] && NoEscapes(s) && Utf8Size(s) > 0
    ensures OneRound(s) == Round(s[..Utf8Size(s)], Utf8Size(s), 0) && NoEscapes(s[Utf8Size(s)..])
  {
    assert s[0] !in {0, 8, 9, 10, 12, 13, 0x22, 0x5C};
  }

  /** Text that needs no escape is printed as it is. */
  lemma {:induction false} PlainTextIsKept(s: seq<Byte>)
    requires Utf8(s) && NoEscapes(s)
    ensures Escape(s) == Escaped(s, 0)
    decreases |s|
  {
    if s != [] {
      Utf8Step(s);
      PlainRound(s);
      PlainTextIsKept(s[Utf8Size(s)..]);
      PlainStep(s, s[Utf8Size(s)..], Utf8Size(s));
    }
  }

  lemma PlainStep(s: seq<Byte>, rest: seq<Byte>, n: nat)
    requires s != [] && n <= |s| && rest == s[n..] && OneRound(s) == Round(s[..n], n, 0) && Escape(rest) == Escaped(rest, 0)
    ensures Escape(s) == Escaped(s, 0)
  {
    EscapeStep(s);
    assert s == s[..n] + rest;
  }

  /** At a NUL the escaper prints a hint and gives up; the rest of the input is lost. */
  lemma {:induction false} StopsAtNul(a: seq<Byte>, b: seq<Byte>)
    requires 0 !in a
    ensures Escape(a + [0] + b) == Escaped(Escape(a).text + Hint(0), 1)
    decreases |a|
  {
    var s := a + [0] + b;
    if a == [] {
      assert s[0] == 0;
    } else {
      RoundAtNul(a, b);
      var r := OneRound(a);
      assert s[r.used..] == a[r.used..] + [0] + b;
      StopsAtNul(a[r.used..], b);
      EscapeStep(a);
      EscapeStep(s);
      NulStep(r.out, Escape(a[r.used..]).text, Hint(0));
    }
  }

  lemma NulStep(a: seq<Byte>, b: seq<Byte>, c: seq<Byte>)
    ensures a + (b + c) == a + b + c
  {
  }

  lemma RoundAtNul(a: seq<Byte>, b: seq<Byte>)
    requires a != [] && 0 !in a
    ensures OneRound(a + [0] + b) == OneRound(a) && OneRound(a).rc == 0
  {
    var s := a + [0] + b;
    Utf8SizeAtNul(a, b);
    assert s[0] == a[0] && s[..Utf8Size(a)] == a[..Utf8Size(a)];
  }
}
