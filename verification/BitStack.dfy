/**
 The packed stack of the XML session: two bits per open element in a vector of
 256 bits. Proved against a plain sequence of boolean pairs.
 */
module BitStack {
  import opened XmlTransducer

  const CHAR_BIT := 8
  const VECTOR_BYTES := 32
  const VECTOR_BITS := 256

  /** 1 << k, for a bit position k inside a byte. */
  function Mask(k: nat): bv8
    requires k < CHAR_BIT
  {
    match k
    case 0 => 1
    case 1 => 2
    case 2 => 4
    case 3 => 8
    case 4 => 16
    case 5 => 32
    case 6 => 64
    case _ => 128
  }

  /** Bit `k` of a byte. */
  predicate ByteTest(b: bv8, k: nat)
    requires k < CHAR_BIT
  {
    b & Mask(k) != 0
  }

  /** bit_test */
  predicate BitTest(v: seq<bv8>, p: nat)
    requires p < CHAR_BIT * |v|
  {
    ByteTest(v[p / CHAR_BIT], p % CHAR_BIT)
  }

  lemma MaskShift(k: nat)
    requires k < CHAR_BIT
    ensures Mask(k) == (1 as bv8) << k
  {
  }

  lemma ByteSet(b: bv8, c: bv8, k: nat, l: nat)
    requires k < CHAR_BIT && l < CHAR_BIT && c == b | Mask(k)
    ensures ByteTest(c, l) == (k == l || ByteTest(b, l))
  {
  }

  lemma ByteClear(b: bv8, c: bv8, k: nat, l: nat)
    requires k < CHAR_BIT && l < CHAR_BIT && c == b & !Mask(k)
    ensures ByteTest(c, l) == (k != l && ByteTest(b, l))
  {
  }

  /** `w` is `v` with bit `p` set to `on` and every other bit as before. */
  ghost predicate Changed(v: seq<bv8>, w: seq<bv8>, p: nat, on: bool) {
    && |w| == |v| && p < CHAR_BIT * |v|
    && forall q: nat :: q < CHAR_BIT * |v| ==> BitTest(w, q) == if q == p then on else BitTest(v, q)
  }

  lemma SamePosition(p: nat, q: nat)
    ensures p / CHAR_BIT == q / CHAR_BIT && p % CHAR_BIT == q % CHAR_BIT ==> p == q
  {
  }

  /** A changed byte changes the bits at its positions only. */
  lemma OtherByte(v: seq<bv8>, c: bv8, i: nat, q: nat)
    requires i < |v| && q < CHAR_BIT * |v|
    ensures BitTest(v[i := c], q) == ByteTest(if q / CHAR_BIT == i then c else v[q / CHAR_BIT], q % CHAR_BIT)
  {
  }

  lemma SetOne(v: seq<bv8>, c: bv8, p: nat, q: nat)
    requires p < CHAR_BIT * |v| && q < CHAR_BIT * |v| && c == v[p / CHAR_BIT] | Mask(p % CHAR_BIT)
    ensures BitTest(v[p / CHAR_BIT := c], q) == (q == p || BitTest(v, q))
  {
    OtherByte(v, c, p / CHAR_BIT, q);
    SamePosition(p, q);
    if p / CHAR_BIT == q / CHAR_BIT {
      ByteSet(v[p / CHAR_BIT], c, p % CHAR_BIT, q % CHAR_BIT);
    }
  }

  lemma ClearOne(v: seq<bv8>, c: bv8, p: nat, q: nat)
    requires p < CHAR_BIT * |v| && q < CHAR_BIT * |v| && c == v[p / CHAR_BIT] & !Mask(p % CHAR_BIT)
    ensures BitTest(v[p / CHAR_BIT := c], q) == (q != p && BitTest(v, q))
  {
    OtherByte(v, c, p / CHAR_BIT, q);
    SamePosition(p, q);
    if p / CHAR_BIT == q / CHAR_BIT {
      ByteClear(v[p / CHAR_BIT], c, p % CHAR_BIT, q % CHAR_BIT);
    }
  }

  lemma SetChanges(v: seq<bv8>, w: seq<bv8>, p: nat)
    requires p < CHAR_BIT * |v| && w == v[p / CHAR_BIT := v[p / CHAR_BIT] | Mask(p % CHAR_BIT)]
    ensures Changed(v, w, p, true)
  {
    forall q: nat | q < CHAR_BIT * |v| ensures BitTest(w, q) == if q == p then true else BitTest(v, q) {
      SetOne(v, w[p / CHAR_BIT], p, q);
    }
  }

  lemma ClearChanges(v: seq<bv8>, w: seq<bv8>, p: nat)
    requires p < CHAR_BIT * |v| && w == v[p / CHAR_BIT := v[p / CHAR_BIT] & !Mask(p % CHAR_BIT)]
    ensures Changed(v, w, p, false)
  {
    forall q: nat | q < CHAR_BIT * |v| ensures BitTest(w, q) == if q == p then false else BitTest(v, q) {
      ClearOne(v, w[p / CHAR_BIT], p, q);
    }
  }

  /** bit_set */
  method BitSet(v: array<bv8>, p: nat)
    requires p < CHAR_BIT * v.Length
    modifies v
    ensures Changed(old(v[..]), v[..], p, true)
  {
    v[p / CHAR_BIT] := v[p / CHAR_BIT] | Mask(p % CHAR_BIT);
    SetChanges(old(v[..]), v[..], p);
  }

  /** bit_clear */
  method BitClear(v: array<bv8>, p: nat)
    requires p < CHAR_BIT * v.Length
    modifies v
    ensures Changed(old(v[..]), v[..], p, false)
  {
    v[p / CHAR_BIT] := v[p / CHAR_BIT] & !Mask(p % CHAR_BIT);
    ClearChanges(old(v[..]), v[..], p);
  }

  /** text_printed_bit_from_frame */
  function TextBit(pos: nat): nat {
    pos * 2
  }

  /** children_printed_bit_from_frame */
  function KidsBit(pos: nat): nat {
    pos * 2 + 1
  }

  /** The bits of a position are 2 * pos and the next one; positions do not share bits. */
  lemma BitsOfPosition(pos: nat, other: nat)
    ensures TextBit(pos) == 2 * pos && KidsBit(pos) == 2 * pos + 1
    ensures pos != other ==> {TextBit(pos), KidsBit(pos)} !! {TextBit(other), KidsBit(other)}
    ensures pos <= 127 <==> KidsBit(pos) < 256
  {
  }

  /** The pairs that the first `n` positions of the vector hold; position 0 is never used. */
  ghost function Frames(v: seq<bv8>, n: nat): (fr: seq<Frame>)
    requires KidsBit(n) < CHAR_BIT * |v|
    ensures |fr| == n
    ensures forall k :: 0 <= k < n ==> fr[k] == Frame(BitTest(v, TextBit(k + 1)), BitTest(v, KidsBit(k + 1)))
  {
    if n == 0 then [] else Frames(v, n - 1) + [Frame(BitTest(v, TextBit(n)), BitTest(v, KidsBit(n)))]
  }

  /** The pair at a position, when a bit of position `n` was set. */
  lemma PairSet(v: seq<bv8>, w: seq<bv8>, n: nat, kids: bool, k: nat)
    requires 0 < k <= n && KidsBit(n) < CHAR_BIT * |v|
    requires Changed(v, w, if kids then KidsBit(n) else TextBit(n), true)
    ensures BitTest(w, TextBit(k)) == (BitTest(v, TextBit(k)) || (k == n && !kids))
    ensures BitTest(w, KidsBit(k)) == (BitTest(v, KidsBit(k)) || (k == n && kids))
  {
  }

  /** Setting a bit of the top position changes that half of the top pair. */
  lemma SetTopBit(v: seq<bv8>, w: seq<bv8>, n: nat, kids: bool)
    requires n > 0 && KidsBit(n) < CHAR_BIT * |v|
    requires Changed(v, w, if kids then KidsBit(n) else TextBit(n), true)
    ensures var f := Frames(v, n)[n - 1];
            Frames(w, n) == Frames(v, n)[..n - 1] + [if kids then f.(kids := true) else f.(text := true)]
  {
    var a, b := Frames(v, n), Frames(w, n);
    forall k | 0 <= k < n
      ensures b[k] == if k < n - 1 then a[k] else if kids then a[k].(kids := true) else a[k].(text := true)
    {
      PairSet(v, w, n, kids, k + 1);
    }
  }

  lemma PairKept(v: seq<bv8>, u: seq<bv8>, w: seq<bv8>, n: nat, k: nat)
    requires KidsBit(n) < CHAR_BIT * |v| && k < n
    requires Changed(v, u, TextBit(n), false) && Changed(u, w, KidsBit(n), false)
    ensures BitTest(w, TextBit(k)) == BitTest(v, TextBit(k)) && BitTest(w, KidsBit(k)) == BitTest(v, KidsBit(k))
  {
    assert TextBit(k) != KidsBit(n) && KidsBit(k) != TextBit(n);
    assert BitTest(u, TextBit(k)) == BitTest(v, TextBit(k));
    assert BitTest(u, KidsBit(k)) == BitTest(v, KidsBit(k));
  }

  /** Clearing both bits of the next position pushes an empty pair, whatever was there before. */
  lemma PushFrame(v: seq<bv8>, u: seq<bv8>, w: seq<bv8>, n: nat)
    requires KidsBit(n + 1) < CHAR_BIT * |v|
    requires Changed(v, u, TextBit(n + 1), false) && Changed(u, w, KidsBit(n + 1), false)
    ensures Frames(w, n + 1) == Frames(v, n) + [Frame(false, false)]
  {
    var a, b := Frames(w, n + 1), Frames(v, n) + [Frame(false, false)];
    forall k | 0 <= k < n ensures a[k] == b[k] {
      PairKept(v, u, w, n + 1, k + 1);
    }
    assert a[n] == b[n] by {
      assert !BitTest(u, TextBit(n + 1));
      assert !BitTest(w, KidsBit(n + 1)) && !BitTest(w, TextBit(n + 1));
    }
  }

  /** Leaving the top position pops its pair. */
  lemma PopFrame(v: seq<bv8>, n: nat)
    requires n > 0 && KidsBit(n) < CHAR_BIT * |v|
    ensures Frames(v, n - 1) == Frames(v, n)[..n - 1]
  {
  }
}
