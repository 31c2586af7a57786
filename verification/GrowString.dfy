/**
 The growable string. Its capacity is not stored: it is computed again from the
 size, so every operation must keep the real buffer at least that large.
 */
module GrowString {

  type Byte = x: int | 0 <= x < 256

  const MIN_SIZE := 4096

  /** `1u << n` is defined up to here, so no size may pass it. */
  const MAX_SIZE := 0x8000_0000

  // ---------------------------------------------------------------------
  // Powers of two
  // ---------------------------------------------------------------------

  function Pow2(k: nat): (p: nat)
    ensures p > 0
  {
    if k == 0 then 1 else 2 * Pow2(k - 1)
  }

  /** The bits of a word less its leading zeros. */
  function BitLength(n: nat): nat {
    if n == 0 then 0 else 1 + BitLength(n / 2)
  }

  lemma {:induction false} BitLengthBounds(n: nat)
    ensures n < Pow2(BitLength(n))
    ensures n > 0 ==> Pow2(BitLength(n)) <= 2 * n
  {
    if n > 0 {
      BitLengthBounds(n / 2);
    }
  }

  function NextPow2(x: nat): nat {
    if x > 1 then Pow2(BitLength(x - 1)) else 1
  }

  ghost predicate IsPow2(p: nat) {
    exists k: nat :: p == Pow2(k)
  }

  lemma {:induction false} Pow2Grows(j: nat, k: nat)
    requires j < k
    ensures 2 * Pow2(j) <= Pow2(k)
  {
    if j + 1 < k {
      Pow2Grows(j, k - 1);
    }
  }

  /** Of two different powers of two, the larger is at least twice the smaller. */
  lemma Doubles(a: nat, b: nat)
    requires IsPow2(a) && IsPow2(b) && a < b
    ensures 2 * a <= b
  {
    var j: nat :| a == Pow2(j);
    var k: nat :| b == Pow2(k);
    if k < j {
      Pow2Grows(k, j);
    } else {
      Pow2Grows(j, k);
    }
  }

  /** next_pow2 gives the smallest power of two that is not below its argument. */
  lemma NextPow2IsSmallest(x: nat, p: nat)
    requires IsPow2(p)
    ensures IsPow2(NextPow2(x)) && x <= NextPow2(x) && (x > 1 ==> NextPow2(x) < 2 * x)
    ensures x <= p <==> NextPow2(x) <= p
  {
    assert NextPow2(x) == Pow2(if x > 1 then BitLength(x - 1) else 0);
    if x > 1 {
      BitLengthBounds(x - 1);
    }
    if p < NextPow2(x) {
      Doubles(p, NextPow2(x));
    }
  }

  lemma MinSizeIsPow2()
    ensures IsPow2(MIN_SIZE) && IsPow2(MAX_SIZE)
  {
    var twelve := 12;
    assert MIN_SIZE == Pow2(twelve);
    assert Pow2(31) == MAX_SIZE by {
      assert Pow2(16) == 0x1_0000;
      assert Pow2(24) == 0x100_0000;
    }
  }

  // ---------------------------------------------------------------------
  // One operation, on values
  // ---------------------------------------------------------------------

  /** `cap` is the real size of the buffer, 0 when there is none. */
  datatype Str = Str(cap: nat, text: seq<Byte>)

  const EMPTY := Str(0, [])

  /** `reallocOk`: the memory is there if it is asked for. */
  datatype Op = Append(data: seq<Byte>, reallocOk: bool) | PopBack

  /** string_allocated */
  function Allocated(present: bool, size: nat): nat {
    if !present then 0 else if size < MIN_SIZE then MIN_SIZE else NextPow2(size)
  }

  function Recomputed(s: Str): nat {
    Allocated(s.cap > 0, |s.text|)
  }

  /** The size that string_grow asks realloc for; 0 if it does not call it. */
  function Request(s: Str, delta: nat): nat {
    var want := NextPow2(|s.text| + delta);
    if Recomputed(s) >= want then 0 else if want > MIN_SIZE then want else MIN_SIZE
  }

  /** What string_grow returns: the capacity it believes in. */
  function Grown(s: Str, delta: nat, reallocOk: bool): nat {
    if Request(s, delta) > 0 && reallocOk then Request(s, delta) else Recomputed(s)
  }

  function GrowCap(s: Str, delta: nat, reallocOk: bool): nat {
    if Request(s, delta) > 0 && reallocOk then Request(s, delta) else s.cap
  }

  function AppendTo(s: Str, data: seq<Byte>, reallocOk: bool): Str {
    Str(GrowCap(s, |data|, reallocOk),
        if Grown(s, |data|, reallocOk) < |s.text| + |data| then s.text else s.text + data)
  }

  /** What the C code demands: no size over MAX_SIZE, and something to pop. */
  predicate Allowed(s: Str, op: Op) {
    match op
    case Append(data, _) => |s.text| + |data| <= MAX_SIZE
    case PopBack => s.text != []
  }

  function Apply(s: Str, op: Op): Str
    requires Allowed(s, op)
  {
    match op
    case Append(data, ok) => AppendTo(s, data, ok)
    case PopBack => s.(text := s.text[..|s.text| - 1])
  }

  /** The real buffer is at least as large as the one computed from the size. */
  ghost predicate Sound(s: Str) {
    && |s.text| <= MAX_SIZE
    && |s.text| <= Recomputed(s) <= s.cap
  }

  lemma AllocatedFits(size: nat)
    requires size <= MAX_SIZE
    ensures IsPow2(Allocated(true, size))
    ensures size <= Allocated(true, size) && MIN_SIZE <= Allocated(true, size) <= MAX_SIZE
  {
    MinSizeIsPow2();
    NextPow2IsSmallest(size, MIN_SIZE);
    NextPow2IsSmallest(size, MAX_SIZE);
  }

  /** The capacity of a text is the least power of two that holds it, and not below 4096. */
  lemma CapacityIs(size: nat, p: nat)
    requires size <= 0x8000_0000 && IsPow2(p)
    ensures IsPow2(Allocated(true, size)) && Allocated(false, size) == 0
    ensures size <= p && 4096 <= p <==> Allocated(true, size) <= p
  {
    AllocatedFits(size);
    NextPow2IsSmallest(size, p);
    MinSizeIsPow2();
    NextPow2IsSmallest(size, MIN_SIZE);
  }

  /** string_grow calls realloc exactly when the text outgrows the recomputed capacity, and asks for its new value. */
  lemma RequestIsNeeded(s: Str, delta: nat)
    requires Sound(s) && |s.text| + delta <= MAX_SIZE
    ensures Request(s, delta) > 0 <==> s.cap == 0 || |s.text| + delta > Recomputed(s)
    ensures Request(s, delta) > 0 ==> Request(s, delta) == Allocated(true, |s.text| + delta)
  {
    var size := |s.text| + delta;
    MinSizeIsPow2();
    NextPow2IsSmallest(size, MIN_SIZE);
    if s.cap > 0 {
      AllocatedFits(|s.text|);
      NextPow2IsSmallest(size, Recomputed(s));
    }
  }

  lemma RequestFits(s: Str, delta: nat)
    requires Sound(s) && |s.text| + delta <= MAX_SIZE
    ensures Request(s, delta) > 0 ==> Request(s, delta) >= |s.text| + delta
    ensures Request(s, delta) == 0 && s.cap > 0 ==> |s.text| + delta <= s.cap
  {
    RequestIsNeeded(s, delta);
    AllocatedFits(|s.text| + delta);
  }

  /** A longer text that still fits has the same capacity. */
  lemma SameCapacity(a: nat, b: nat)
    requires a <= b <= MAX_SIZE
    ensures b <= Allocated(true, a) ==> Allocated(true, b) == Allocated(true, a)
  {
    AllocatedFits(a);
    AllocatedFits(b);
    NextPow2IsSmallest(b, Allocated(true, a));
    NextPow2IsSmallest(a, Allocated(true, b));
    MinSizeIsPow2();
    NextPow2IsSmallest(b, MIN_SIZE);
  }

  /** Does the append find too little memory? */
  predicate Refused(s: Str, data: seq<Byte>, reallocOk: bool) {
    !reallocOk && |s.text| + |data| > Recomputed(s)
  }

  /** How an append goes: in place, into a buffer of the new capacity, or not at all. */
  lemma AppendCases(s: Str, data: seq<Byte>, reallocOk: bool)
    requires Sound(s) && |s.text| + |data| <= MAX_SIZE
    ensures var size := |s.text| + |data|;
            AppendTo(s, data, reallocOk) ==
              if s.cap > 0 && size <= Recomputed(s) then Str(s.cap, s.text + data)
              else if reallocOk then Str(Allocated(true, size), s.text + data)
              else s
    ensures Grown(s, |data|, reallocOk) < |s.text| + |data| <==> Refused(s, data, reallocOk)
  {
    RequestIsNeeded(s, |data|);
    AllocatedFits(|s.text| + |data|);
    if s.text + data == [] {
      assert s.text == [] && data == [];
    }
  }

  /**
   string_append either appends all of `data` or changes nothing; it fails exactly when the data does
   not fit the recomputed capacity and the memory for more is not there.
   */
  lemma AppendOrNothing(s: Str, data: seq<Byte>, reallocOk: bool)
    requires Sound(s) && |s.text| + |data| <= MAX_SIZE
    ensures Sound(AppendTo(s, data, reallocOk))
    ensures Grown(s, |data|, reallocOk) < |s.text| + |data| <==> Refused(s, data, reallocOk)
    ensures Refused(s, data, reallocOk) ==> AppendTo(s, data, reallocOk) == s
    ensures !Refused(s, data, reallocOk) ==> AppendTo(s, data, reallocOk).text == s.text + data
  {
    AppendCases(s, data, reallocOk);
    AllocatedFits(|s.text| + |data|);
    SameCapacity(|s.text|, |s.text| + |data|);
  }

  lemma PopKeepsSound(s: Str)
    requires Sound(s) && s.text != []
    ensures Sound(Apply(s, PopBack))
  {
    var size := |s.text| - 1;
    AllocatedFits(|s.text|);
    AllocatedFits(size);
    NextPow2IsSmallest(size, Recomputed(s));
  }

  // ---------------------------------------------------------------------
  // Every run
  // ---------------------------------------------------------------------

  predicate IsRun(s: Str, ops: seq<Op>)
    decreases |ops|
  {
    ops != [] ==> Allowed(s, ops[0]) && IsRun(Apply(s, ops[0]), ops[1..])
  }

  function After(s: Str, ops: seq<Op>): Str
    requires IsRun(s, ops)
    decreases |ops|
  {
    if ops == [] then s else After(Apply(s, ops[0]), ops[1..])
  }

  /** A plain byte sequence under the same operations: an append that fails is skipped. */
  function Bytes(text: seq<Byte>, fits: seq<bool>, ops: seq<Op>): seq<Byte>
    requires |fits| == |ops|
    decreases |ops|
  {
    if ops == [] then text
    else
      var next := match ops[0]
        case Append(data, ok) => if ok || fits[0] then text + data else text
        case PopBack => if text == [] then text else text[..|text| - 1];
      Bytes(next, fits[1..], ops[1..])
  }

  /** Which operations of a run need no more room than the capacity recomputed before them. */
  function Fits(s: Str, ops: seq<Op>): (f: seq<bool>)
    requires IsRun(s, ops)
    ensures |f| == |ops|
    decreases |ops|
  {
    if ops == [] then []
    else [ops[0].PopBack? || |s.text| + |ops[0].data| <= Recomputed(s)] + Fits(Apply(s, ops[0]), ops[1..])
  }

  /** Appends are asked for nothing but that sizes stay within 2^31, and pops that there is a byte. */
  lemma AllowedIs(s: Str, data: seq<Byte>, reallocOk: bool)
    ensures Allowed(s, Append(data, reallocOk)) <==> |s.text| + |data| <= 0x8000_0000
    ensures Allowed(s, PopBack) <==> |s.text| > 0
  {
  }

  /** In every run the buffer stays large enough and the contents are those of the plain byte sequence. */
  lemma {:induction false} RunIsSound(s: Str, ops: seq<Op>)
    requires Sound(s) && IsRun(s, ops)
    ensures Sound(After(s, ops))
    ensures After(s, ops).text == Bytes(s.text, Fits(s, ops), ops)
    decreases |ops|
  {
    if ops != [] {
      match ops[0] {
        case Append(data, ok) => AppendOrNothing(s, data, ok);
        case PopBack => PopKeepsSound(s);
      }
      RunIsSound(Apply(s, ops[0]), ops[1..]);
      assert Fits(s, ops)[1..] == Fits(Apply(s, ops[0]), ops[1..]);
    }
  }

  // ---------------------------------------------------------------------
  // Append-only runs
  // ---------------------------------------------------------------------

  ghost predicate AppendOnly(ops: seq<Op>) {
    forall k :: 0 <= k < |ops| ==> ops[k].Append?
  }

  /** What one operation gets from realloc. */
  function Obtained(s: Str, op: Op): nat {
    match op
    case Append(data, ok) => if ok then Request(s, |data|) else 0
    case PopBack => 0
  }

  function TotalObtained(s: Str, ops: seq<Op>): nat
    requires IsRun(s, ops)
    decreases |ops|
  {
    if ops == [] then 0 else Obtained(s, ops[0]) + TotalObtained(Apply(s, ops[0]), ops[1..])
  }

  /** As long as nothing is popped, the recomputed capacity is the real one. */
  ghost predicate Exact(s: Str) {
    Sound(s) && s.cap == Recomputed(s)
  }

  /** Without pops, each reallocation at least doubles the capacity. */
  lemma ReallocDoubles(s: Str, data: seq<Byte>, reallocOk: bool)
    requires Exact(s) && |s.text| + |data| <= MAX_SIZE
    ensures var r, got := AppendTo(s, data, reallocOk), Obtained(s, Append(data, reallocOk));
            && Exact(r)
            && r.cap == (if got > 0 then got else s.cap)
            && (got > 0 ==> got >= 2 * s.cap)
  {
    AppendOrNothing(s, data, reallocOk);
    var size := |s.text| + |data|;
    if reallocOk && (s.cap == 0 || size > s.cap) {
      assert Request(s, |data|) == Allocated(true, size) by { RequestIsNeeded(s, |data|); }
      assert Allocated(true, size) >= 2 * s.cap by { GrowthDoubles(|s.text|, size); }
    } else {
      assert !reallocOk || Request(s, |data|) == 0 by { RequestIsNeeded(s, |data|); }
      SameCapacity(|s.text|, size);
    }
  }

  lemma GrowthDoubles(a: nat, b: nat)
    requires a <= b <= MAX_SIZE
    ensures b > Allocated(true, a) ==> Allocated(true, b) >= 2 * Allocated(true, a)
  {
    AllocatedFits(a);
    AllocatedFits(b);
    if b > Allocated(true, a) {
      Doubles(Allocated(true, a), Allocated(true, b));
    }
  }

  /** All that an append-only run obtains is less than twice the capacity gained. */
  lemma {:induction false} ObtainedBelowTwice(s: Str, ops: seq<Op>)
    requires Exact(s) && IsRun(s, ops) && AppendOnly(ops)
    ensures Exact(After(s, ops))
    ensures TotalObtained(s, ops) <= 2 * (After(s, ops).cap - s.cap)
    ensures s.cap == 0 < After(s, ops).cap ==> TotalObtained(s, ops) < 2 * After(s, ops).cap
    decreases |ops|
  {
    if ops != [] {
      ReallocDoubles(s, ops[0].data, ops[0].reallocOk);
      ObtainedBelowTwice(Apply(s, ops[0]), ops[1..]);
    }
  }

  /** Amortized cost: over an append-only run, realloc handled less than four bytes for each byte kept. */
  lemma AppendsAreAmortized(ops: seq<Op>)
    requires IsRun(EMPTY, ops) && AppendOnly(ops)
    ensures var r := After(EMPTY, ops);
            && (r.cap > 0 ==> TotalObtained(EMPTY, ops) < 2 * r.cap)
            && (|r.text| > 4096 ==> TotalObtained(EMPTY, ops) < 4 * |r.text|)
  {
    ObtainedBelowTwice(EMPTY, ops);
    MinSizeIsPow2();
    NextPow2IsSmallest(|After(EMPTY, ops).text|, MIN_SIZE);
  }

  // ---------------------------------------------------------------------
  // The string in memory
  // ---------------------------------------------------------------------

  /** memcpy */
  method Copy(dst: array<Byte>, at: nat, src: seq<Byte>)
    requires at + |src| <= dst.Length
    modifies dst
    ensures dst[..at] == old(dst[..at]) && dst[at..at + |src|] == src
    ensures dst[at + |src|..] == old(dst[at + |src|..])
  {
    var i := 0;
    while i < |src|
      invariant 0 <= i <= |src|
      invariant dst[..at] == old(dst[..at]) && dst[at..at + i] == src[..i]
      invariant dst[at + |src|..] == old(dst[at + |src|..])
    {
      dst[at + i] := src[i];
      i := i + 1;
    }
  }

  class String {
    var buf: array?<Byte>
    var size: nat

    ghost predicate Valid()
      reads this, buf
    {
      Laid() && Sound(View())
    }

    ghost function View(): Str
      reads this, buf
      requires buf == null ==> size == 0
      requires buf != null ==> size <= buf.Length
    {
      if buf == null then EMPTY else Str(buf.Length, buf[..size])
    }

    ghost function Text(): seq<Byte>
      reads this, buf
      requires Valid()
    {
      View().text
    }

    constructor ()
      ensures Valid() && View() == EMPTY && buf == null
    {
      buf, size := null, 0;
    }

    /** What holds of the fields even while the capacity is being changed. */
    ghost predicate Laid()
      reads this
    {
      && (buf == null ==> size == 0)
      && (buf != null ==> 0 < buf.Length && size <= buf.Length)
    }

    /** realloc, when it finds memory. */
    method Realloc(capacity: nat)
      requires Laid() && size <= capacity && capacity > 0
      modifies this`buf
      ensures Laid() && fresh(buf) && View() == Str(capacity, old(View().text))
    {
      var grown := new Byte[capacity];
      if buf != null {
        Copy(grown, 0, buf[..size]);
      }
      buf := grown;
    }

    /** string_grow: the buffer may move, and may even become smaller after pops; the text stays. */
    method Grow(delta: nat, reallocOk: bool) returns (capacity: nat)
      requires Valid() && size + delta <= MAX_SIZE
      modifies this`buf
      ensures Laid() && (buf == old(buf) || fresh(buf))
      ensures View() == Str(GrowCap(old(View()), delta, reallocOk), old(View().text))
      ensures capacity == Grown(old(View()), delta, reallocOk)
    {
      RequestFits(View(), delta);
      var wanted := NextPow2(size + delta);
      capacity := Allocated(buf != null, size);
      if capacity >= wanted || !reallocOk {
        return;
      }
      capacity := if wanted > MIN_SIZE then wanted else MIN_SIZE;
      Realloc(capacity);
    }

    /** The memcpy of string_append. */
    method Write(data: seq<Byte>)
      requires Laid() && (buf == null ==> data == []) && (buf != null ==> size + |data| <= buf.Length)
      modifies this`size, buf
      ensures Laid() && View() == Str(old(View().cap), old(View().text) + data)
    {
      if buf != null {
        Copy(buf, size, data);
      }
      size := size + |data|;
    }

    method Append(data: seq<Byte>, reallocOk: bool) returns (rc: int)
      requires Valid() && size + |data| <= MAX_SIZE
      modifies this, buf
      ensures Valid() && (buf == old(buf) || fresh(buf))
      ensures View() == Apply(old(View()), Op.Append(data, reallocOk))
      ensures rc == if old(Refused(View(), data, reallocOk)) then -1 else 0
      ensures View().text == if rc == 0 then old(View().text) + data else old(View().text)
    {
      AppendOrNothing(View(), data, reallocOk);
      AppendCases(View(), data, reallocOk);
      AllocatedFits(size + |data|);
      var capacity := Grow(|data|, reallocOk);
      if capacity < size + |data| {
        return -1;
      }
      Write(data);
      return 0;
    }

    method PopBack()
      requires Valid() && size > 0
      modifies this`size, buf
      ensures Valid() && buf == old(buf)
      ensures View() == Apply(old(View()), Op.PopBack)
      ensures buf[size] == 0
    {
      PopKeepsSound(View());
      size := size - 1;
      buf[size] := 0;
    }
  }
}
