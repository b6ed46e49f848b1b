/** Byte keys seen as bit strings, most significant bit of each byte first. */
module RadixBits {

  type Key = seq<bv8>
  type Bits = seq<bool>

  /** The mask that selects bit j of a byte, counted from the top: 0x80 >> j. */
  function BitMask(j: nat): bv8
    requires j < 8
  {
    match j
    case 0 => 0x80 case 1 => 0x40 case 2 => 0x20 case 3 => 0x10
    case 4 => 0x08 case 5 => 0x04 case 6 => 0x02 case _ => 0x01
  }

  predicate ByteBit(x: bv8, j: nat)
    requires j < 8
  {
    x & BitMask(j) != 0
  }

  /** Bit i of a key is bit i % 8 of byte i / 8. */
  predicate ReadBit(k: Key, i: nat)
    requires i < 8 * |k|
  {
    ByteBit(k[i / 8], i % 8)
  }

  /** b is the bit string of key k. */
  ghost predicate IsBits(k: Key, b: Bits) {
    |b| == 8 * |k| && forall i {:trigger ReadBit(k, i)} :: 0 <= i < 8 * |k| ==> b[i] == ReadBit(k, i)
  }

  lemma Expand(k: Key) returns (b: Bits)
    ensures IsBits(k, b)
  {
    b := seq(8 * |k|, i requires 0 <= i < 8 * |k| => ReadBit(k, i));
  }

  /** a and b carry the same bits at positions lo .. hi. */
  ghost predicate Agree(a: Bits, b: Bits, lo: nat, hi: nat)
    requires hi <= |a| && hi <= |b|
  {
    forall i :: lo <= i < hi ==> a[i] == b[i]
  }

  /** The test an inner node makes on a key reads one bit of its bit string. */
  method TestBit(k: Key, bmask: bv8, offset: nat, ghost b: Bits, ghost i: nat) returns (r: bool)
    requires IsBits(k, b) && i < 8 * |k| && bmask == BitMask(i % 8) && offset == i / 8
    ensures r == b[i]
  {
    assert b[i] == ReadBit(k, i);
    var x := k[offset];
    assert x & bmask == bmask & x;
    r := bmask & x != 0;
  }

  lemma ByteBits(k: Key, b: Bits, j: nat, i: nat)
    requires IsBits(k, b) && j < |k| && i < 8
    ensures b[8 * j + i] == ByteBit(k[j], i)
  {
    assert (8 * j + i) / 8 == j && (8 * j + i) % 8 == i;
    assert b[8 * j + i] == ReadBit(k, 8 * j + i);
  }

  lemma ByteExt(x: bv8, y: bv8)
    requires forall j :: 0 <= j < 8 ==> ByteBit(x, j) == ByteBit(y, j)
    ensures x == y
  {
    assert ByteBit(x, 0) == ByteBit(y, 0) && ByteBit(x, 1) == ByteBit(y, 1);
    assert ByteBit(x, 2) == ByteBit(y, 2) && ByteBit(x, 3) == ByteBit(y, 3);
    assert ByteBit(x, 4) == ByteBit(y, 4) && ByteBit(x, 5) == ByteBit(y, 5);
    assert ByteBit(x, 6) == ByteBit(y, 6) && ByteBit(x, 7) == ByteBit(y, 7);
  }

  /** Keys agree on a range of bytes exactly when their bit strings agree there. */
  lemma AgreeBytes(k: Key, a: Bits, l: Key, b: Bits, lo: nat, hi: nat)
    requires IsBits(k, a) && IsBits(l, b) && lo <= hi <= |k| && hi <= |l|
    ensures Agree(a, b, 8 * lo, 8 * hi) <==> forall j :: lo <= j < hi ==> k[j] == l[j]
  {
    if Agree(a, b, 8 * lo, 8 * hi) {
      forall j | lo <= j < hi ensures k[j] == l[j] {
        forall i | 0 <= i < 8 ensures ByteBit(k[j], i) == ByteBit(l[j], i) {
          ByteBits(k, a, j, i);
          ByteBits(l, b, j, i);
        }
        ByteExt(k[j], l[j]);
      }
    }
    if forall j :: lo <= j < hi ==> k[j] == l[j] {
      forall i | 8 * lo <= i < 8 * hi ensures a[i] == b[i] {
        assert a[i] == ReadBit(k, i) && b[i] == ReadBit(l, i);
      }
    }
  }

  /** The leading one bit of a non-zero byte, counted from the top. */
  ghost predicate LeadingBit(x: bv8, b: nat)
  {
    b < 8 && ByteBit(x, b) && forall j :: 0 <= j < b ==> !ByteBit(x, j)
  }

  /** x >> k for k up to 8, where the word is empty. */
  function ShiftedBy(x: bv8, k: nat): bv8
    requires k <= 8
  {
    match k
    case 0 => x case 1 => x >> 1 case 2 => x >> 2 case 3 => x >> 3
    case 4 => x >> 4 case 5 => x >> 5 case 6 => x >> 6 case 7 => x >> 7 case _ => 0
  }

  lemma ShiftStep(x: bv8, k: nat)
    requires k < 8
    ensures ShiftedBy(x, k) >> 1 == ShiftedBy(x, k + 1)
  {
    match k
    case 0 => case 1 => case 2 => case 3 => case 4 => case 5 => case 6 => case _ =>
  }

  lemma ShiftLeading(x: bv8, b: nat)
    requires b < 8 && ShiftedBy(x, 8 - b) == 0 && ShiftedBy(x, 7 - b) != 0
    ensures LeadingBit(x, b)
  {
    match b
    case 0 => case 1 => case 2 => case 3 => case 4 => case 5 => case 6 => case _ =>
  }

  /** The shifting loop over the difference of two bytes finds the first differing bit. */
  method FirstDifference(x: bv8, y: bv8) returns (b: nat)
    requires x != y
    ensures LeadingBit(x ^ y, b)
  {
    ghost var d := x ^ y;
    assert d != 0;
    var test := x ^ y;
    b := 7;
    test := test >> 1;
    while test > 0
      invariant b < 8 && test == ShiftedBy(d, 8 - b) && ShiftedBy(d, 7 - b) != 0
      decreases b
    {
      ShiftStep(d, 8 - b);
      b := b - 1;
      test := test >> 1;
    }
    ShiftLeading(d, b);
  }

  /** The same position found by counting down from the end of the byte, as insertion does. */
  method DifferenceFromEnd(x: bv8, y: bv8, end: nat) returns (b: nat)
    requires x != y && end >= 8
    ensures end - 8 <= b && LeadingBit(x ^ y, b - (end - 8))
  {
    ghost var d := x ^ y;
    assert d != 0;
    var cmp := x ^ y;
    b := end;
    while cmp != 0
      invariant end - 8 <= b <= end && cmp == ShiftedBy(d, end - b)
      invariant b < end ==> ShiftedBy(d, end - b - 1) != 0
      decreases b
    {
      ShiftStep(d, end - b);
      cmp := cmp >> 1;
      b := b - 1;
    }
    ShiftLeading(d, b - (end - 8));
  }

  /** A byte with one bit set. */
  ghost predicate OneBit(m: bv8) {
    m == 0x80 || m == 0x40 || m == 0x20 || m == 0x10 || m == 0x08 || m == 0x04 || m == 0x02 || m == 0x01
  }

  lemma MaskOneBit(j: nat)
    requires j < 8
    ensures OneBit(BitMask(j))
  {}

  lemma MaskedDifference(x: bv8, y: bv8, m: bv8)
    requires OneBit(m)
    ensures ((x ^ y) & m != 0) <==> ((x & m != 0) <==> !(y & m != 0))
  {}

  lemma DifferenceBit(x: bv8, y: bv8, j: nat)
    requires j < 8
    ensures ByteBit(x ^ y, j) <==> (ByteBit(x, j) <==> !ByteBit(y, j))
  {
    MaskOneBit(j);
    MaskedDifference(x, y, BitMask(j));
  }

  lemma ByteDifference(k: Key, a: Bits, l: Key, b: Bits, j: nat, i: nat)
    requires IsBits(k, a) && IsBits(l, b) && j < |k| && j < |l| && i < 8
    ensures (a[8 * j + i] <==> !b[8 * j + i]) <==> ByteBit(k[j] ^ l[j], i)
  {
    ByteBits(k, a, j, i);
    ByteBits(l, b, j, i);
    DifferenceBit(k[j], l[j], i);
  }

  /** A first differing byte and its first differing bit locate the first differing key bit. */
  lemma FirstDifferenceInKey(k: Key, a: Bits, l: Key, b: Bits, lo: nat, j: nat, d: nat)
    requires IsBits(k, a) && IsBits(l, b) && lo <= j < |k| && j < |l|
    requires Agree(a, b, 8 * lo, 8 * j) && LeadingBit(k[j] ^ l[j], d)
    ensures Agree(a, b, 8 * lo, 8 * j + d) && a[8 * j + d] != b[8 * j + d]
  {
    forall i | 8 * j <= i < 8 * j + d ensures a[i] == b[i] {
      ByteDifference(k, a, l, b, j, i - 8 * j);
    }
    ByteDifference(k, a, l, b, j, d);
  }

  /** Compare two keys byte by byte from `off` to `len`, and find the first differing bit. */
  method CompareKeys(k: Key, l: Key, off: nat, len: nat, ghost a: Bits, ghost b: Bits) returns (same: bool, d: nat)
    requires IsBits(k, a) && IsBits(l, b) && off <= len <= |k| && len <= |l|
    ensures same ==> Agree(a, b, 8 * off, 8 * len)
    ensures !same ==> 8 * off <= d < 8 * len && Agree(a, b, 8 * off, d) && a[d] != b[d]
  {
    var i := off;
    while i < len && k[i] == l[i]
      invariant off <= i <= len
      invariant forall j :: off <= j < i ==> k[j] == l[j]
    {
      i := i + 1;
    }
    if i == len {
      AgreeBytes(k, a, l, b, off, len);
      return true, 0;
    }
    d := DifferenceFromEnd(k[i], l[i], 8 * (i + 1));
    AgreeBytes(k, a, l, b, off, i);
    FirstDifferenceInKey(k, a, l, b, off, i, d - 8 * i);
    same := false;
  }

  /** The same comparison as a lookup makes it, which also reports the differing byte. */
  method MatchKeys(k: Key, l: Key, off: nat, len: nat, ghost a: Bits, ghost b: Bits)
      returns (same: bool, j: nat, d: nat)
    requires IsBits(k, a) && IsBits(l, b) && len <= |k| && len <= |l|
    ensures same && off <= len ==> Agree(a, b, 8 * off, 8 * len)
    ensures !same ==> off <= j < len && 8 * j <= d < 8 * j + 8 && Agree(a, b, 8 * off, d) && a[d] != b[d]
  {
    j := off;
    while j < len && k[j] == l[j]
      invariant off <= j && (j <= len || j == off)
      invariant forall i :: off <= i < j ==> k[i] == l[i]
    {
      j := j + 1;
    }
    if j >= len {
      if off <= len { AgreeBytes(k, a, l, b, off, len); }
      return true, j, 0;
    }
    d := FirstDifference(k[j], l[j]);
    AgreeBytes(k, a, l, b, off, j);
    FirstDifferenceInKey(k, a, l, b, off, j, d);
    d, same := d + 8 * j, false;
  }
}
