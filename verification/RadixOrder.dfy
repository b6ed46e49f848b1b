/** How masks compare: rn_refines and rn_lexobetter, and what they mean for contiguous masks. */
module RadixOrder {

  import opened RadixBits
  import opened RadixTree
  import opened RadixHead
  import opened RadixMask
  import opened RadixRoute

  /** A mask is a key buffer that ends with a non-zero byte, and with zero bytes after its length. */
  ghost predicate IsMask(m: Key) {
    && |m| == MAX_KEY_LEN && Len(m) <= MAX_KEY_LEN && (Len(m) > 0 ==> Len(m) > 1 && m[Len(m) - 1] != 0)
    && forall j :: 1 <= j < MAX_KEY_LEN && Len(m) <= j ==> m[j] == 0
  }

  /** x selects a bit that y does not. */
  predicate Beyond(x: bv8, y: bv8) {
    x & !y != 0
  }

  /** Mask m selects every bit that n selects, and some bit more. */
  ghost predicate Refines(m: Key, n: Key)
    requires |m| == |n| == MAX_KEY_LEN
  {
    && (forall j :: 1 <= j < MAX_KEY_LEN ==> !Beyond(n[j], m[j]))
    && (exists j :: 1 <= j < MAX_KEY_LEN && n[j] != m[j])
  }

  /** The first loop of rn_refines: the bytes that both masks have. */
  method CommonPart(m: Key, n: Key, lim: nat) returns (sub: bool, equal: bool)
    requires lim <= |m| && lim <= |n|
    ensures sub <==> forall j :: 1 <= j < lim ==> !Beyond(n[j], m[j])
    ensures sub ==> (equal <==> forall j :: 1 <= j < lim ==> n[j] == m[j])
  {
    equal := true;
    var i := 1;
    while i < lim
      invariant 1 <= i && (i <= lim || i == 1)
      invariant forall j :: 1 <= j < i ==> !Beyond(n[j], m[j])
      invariant equal <==> forall j :: 1 <= j < i ==> n[j] == m[j]
    {
      if Beyond(n[i], m[i]) {
        return false, equal;
      }
      if n[i] != m[i] {
        equal := false;
      }
      i := i + 1;
    }
    sub := true;
  }

  /** The other two loops: whether a stretch of bytes is zero. */
  method ZeroStretch(k: Key, from: nat, to: nat) returns (zero: bool)
    requires to <= |k| || exists j :: from <= j < |k| && k[j] != 0
    ensures zero <==> forall j :: from <= j < to && j < |k| ==> k[j] == 0
  {
    var i := from;
    while i < to
      invariant from <= i && (i <= |k| || to <= i) && forall j :: from <= j < i && j < |k| ==> k[j] == 0
    {
      if k[i] != 0 {
        return false;
      }
      i := i + 1;
    }
    zero := true;
  }

  lemma NoOnes(x: bv8)
    ensures (Beyond(x, 0) <==> x != 0) && !Beyond(0, x)
  {}

  /** rn_refines. */
  method RnRefines(m: Key, n: Key) returns (r: bool)
    requires IsMask(m) && IsMask(n)
    ensures r <==> Refines(m, n)
  {
    var lm, ln := Len(m), Len(n);
    var lim := if ln > lm then lm else ln;
    var mid := if lim > 1 then lim else 1;
    var sub, equal := CommonPart(m, n, lim);
    if !sub {
      return false;
    }
    var zero := ZeroStretch(n, mid, ln);
    forall j | mid <= j < MAX_KEY_LEN
      ensures (m[j] == 0 ==> (Beyond(n[j], m[j]) <==> n[j] != 0)) && (n[j] == 0 ==> !Beyond(n[j], m[j]))
    {
      NoOnes(n[j]);
      NoOnes(m[j]);
    }
    if !zero {
      return false;
    }
    if equal && ln < lm {
      zero := ZeroStretch(m, mid, mid + lm - ln);
      return !zero;
    }
    return !equal;
  }

  ghost predicate LexoBetter(m: Key, n: Key)
    requires |m| == |n| == MAX_KEY_LEN && Len(m) <= MAX_KEY_LEN && Len(n) <= MAX_KEY_LEN
  {
    Len(m) > Len(n) || (Len(m) == Len(n) && exists j :: 0 <= j < Len(m) && m[j] > n[j])
  }

  /** rn_lexobetter. */
  method RnLexobetter(m: Key, n: Key) returns (r: bool)
    requires IsMask(m) && IsMask(n)
    ensures r <==> LexoBetter(m, n)
  {
    if Len(m) > Len(n) {
      return true;
    }
    if Len(m) == Len(n) {
      var i := 0;
      while i < Len(m)
        invariant 0 <= i <= Len(m) && forall j :: 0 <= j < i ==> m[j] <= n[j]
      {
        if m[i] > n[i] {
          return true;
        }
        i := i + 1;
      }
    }
    return false;
  }

  /** Key bits from byte 1 on are ones up to idx and zeros after. */
  ghost predicate IsPrefix(mb: Bits, idx: int) {
    |mb| == 8 * MAX_KEY_LEN && forall i :: 8 <= i < |mb| ==> mb[i] == (i < idx)
  }

  /** The mask of a route, with its index: a contiguous one or the zero mask. */
  lemma RouteMask(t: Table, k: Ptr) returns (key: Key, mb: Bits)
    requires TreesOk(t) && IsLeaf(t.nodes, t.sh, k) && t.nodes[k].mask != 0
    ensures t.nodes[k].mask < |t.masks| && t.masks[t.nodes[k].mask].Leaf? && key == t.masks[t.nodes[k].mask].key
    ensures IsMask(key) && IsBits(key, mb) && IsPrefix(mb, Index(t.nodes[k].bit))
  {
    assert LeafOk(t, k);
    var x := t.nodes[k].mask;
    key, mb := InternedMask(t, x);
  }

  lemma InternedMask(t: Table, x: Ptr) returns (key: Key, mb: Bits)
    requires TreesOk(t) && IsLeaf(t.masks, t.maskShape, x) && x != ONES_LEAF && (x != ZERO_MASK ==> t.masks[x].normal)
    ensures key == t.masks[x].key && IsMask(key) && IsBits(key, mb) && IsPrefix(mb, Index(t.masks[x].bit))
  {
    key, mb := t.masks[x].key, t.maskShape.bits[x];
    var skip := t.sh.lo / 8;
    if x == ZERO_MASK {
      forall i | 8 <= i < |mb| ensures !mb[i] { RootBits(mb, t.maskShape.bits[ONES_LEAF], i); }
    } else {
      assert MaskLeaf(t.masks, t.maskShape, skip, x);
      forall i | 8 <= i < 8 * skip ensures mb[i] { OnesByte(key, mb, i / 8, i); }
    }
  }

  /** For contiguous masks, refining means a larger index. */
  lemma RefinesMeansLonger(m: Key, mb: Bits, n: Key, nb: Bits, i: int, j: int)
    requires IsMask(m) && IsMask(n) && IsBits(m, mb) && IsBits(n, nb) && IsPrefix(mb, i) && IsPrefix(nb, j)
    requires Refines(m, n)
    ensures i > j
  {
    var q :| 1 <= q < MAX_KEY_LEN && n[q] != m[q];
    if i <= j {
      forall p | 0 <= p < 8 ensures ByteBit(n[q], p) == ByteBit(m[q], p) {
        ByteBits(m, mb, q, p);
        ByteBits(n, nb, q, p);
        NoExtraBit(n[q], m[q], p);
      }
      ByteExt(n[q], m[q]);
    }
  }

  lemma NoExtraBit(x: bv8, y: bv8, p: nat)
    requires p < 8 && !Beyond(x, y)
    ensures ByteBit(x, p) ==> ByteBit(y, p)
  {
    SubBit(x, y, BitMask(p));
  }

  lemma SubBit(x: bv8, y: bv8, b: bv8)
    requires !Beyond(x, y)
    ensures x & b != 0 ==> y & b != 0
  {}

  /** For contiguous masks, so does being tried first. */
  lemma LexoBetterMeansLonger(m: Key, mb: Bits, n: Key, nb: Bits, i: int, j: int)
    requires IsMask(m) && IsMask(n) && IsBits(m, mb) && IsBits(n, nb) && IsPrefix(mb, i) && IsPrefix(nb, j)
    requires LexoBetter(m, n)
    ensures i > j
  {
    if i <= j {
      if Len(m) > Len(n) {
        var p := SomeOne(m, mb, Len(m) - 1);
        ZeroByte(n, nb, Len(m) - 1, p);
      } else {
        var q :| 0 <= q < Len(m) && m[q] > n[q];
        assert q > 0 by { SameLenByte(m, n); }
        forall p | 0 <= p < 8 ensures ByteBit(m[q], p) ==> ByteBit(n[q], p) {
          ByteBits(m, mb, q, p);
          ByteBits(n, nb, q, p);
        }
        SubByte(m[q], n[q]);
      }
    }
  }

  lemma SameLenByte(m: Key, n: Key)
    requires |m| > 0 && |n| > 0 && Len(m) == Len(n)
    ensures !(m[0] > n[0])
  {
    SameLen(m[0], n[0]);
  }

  lemma SubByte(x: bv8, y: bv8)
    requires forall p :: 0 <= p < 8 ==> ByteBit(x, p) ==> ByteBit(y, p)
    ensures x <= y
  {
    assert (ByteBit(x, 0) ==> ByteBit(y, 0)) && (ByteBit(x, 1) ==> ByteBit(y, 1)) && (ByteBit(x, 2) ==> ByteBit(y, 2))
        && (ByteBit(x, 3) ==> ByteBit(y, 3));
    assert (ByteBit(x, 4) ==> ByteBit(y, 4)) && (ByteBit(x, 5) ==> ByteBit(y, 5)) && (ByteBit(x, 6) ==> ByteBit(y, 6))
        && (ByteBit(x, 7) ==> ByteBit(y, 7));
  }
}
