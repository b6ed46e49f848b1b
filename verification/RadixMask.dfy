/** Interning of masks: rn_addmask keeps one leaf per mask in a radix tree of its own. */
module RadixMask {

  import opened Octets
  import opened RadixBits
  import opened RadixTree
  import opened RadixInsert
  import opened RadixHead

  /** The leaf that stands for the mask without significant one bits: mask_nodes[0]. */
  const ZERO_MASK: Ptr := 1

  const ONES_LEAF: Ptr := 3

  /** The mask as it is interned: ones up to `skip`, the caller's bytes, trailing zero bytes cut. */
  ghost predicate IsNormalForm(key: Key, skip: nat) {
    && |key| == MAX_KEY_LEN && 1 <= skip < Len(key) <= MAX_KEY_LEN
    && (forall j :: 1 <= j < skip ==> key[j] == 0xff)
    && key[Len(key) - 1] != 0
    && (forall j :: Len(key) <= j < MAX_KEY_LEN ==> key[j] == 0)
  }

  /** idx is the position of the first zero bit from byte `skip` on; normal says no one bit follows. */
  ghost predicate IsIndex(mb: Bits, skip: nat, idx: nat, normal: bool) {
    && |mb| == 8 * MAX_KEY_LEN && 8 * skip <= idx <= |mb|
    && (forall i :: 8 * skip <= i < idx ==> mb[i])
    && (idx < |mb| ==> !mb[idx])
    && (normal <==> forall i :: idx <= i < |mb| ==> !mb[i])
  }

  ghost predicate MaskLeaf(nodes: seq<Node>, sh: Shape, skip: nat, k: Ptr)
    requires Sized(nodes, sh)
  {
    IsLeaf(nodes, sh, k) ==>
      && sh.under[k] == {k}
      && (k != ZERO_MASK && k != ONES_LEAF ==>
        && IsNormalForm(nodes[k].key, skip)
        && IsIndex(sh.bits[k], skip, -1 - nodes[k].bit, nodes[k].normal))
  }

  ghost predicate MaskInv(nodes: seq<Node>, sh: Shape, skip: nat) {
    && HeadInv(nodes, sh) && sh.lo == 0 && sh.hi == 8 * MAX_KEY_LEN && skip >= 1
    && IsLeaf(nodes, sh, ZERO_MASK) && nodes[ZERO_MASK].key == Zeros()
    && IsLeaf(nodes, sh, ONES_LEAF) && nodes[ONES_LEAF].key == Ones()
    && (forall k {:trigger MaskLeaf(nodes, sh, skip, k)} :: MaskLeaf(nodes, sh, skip, k))
  }

  /** The CONTIG macro: the one bits of c are its leading bits. */
  predicate Contig(c: bv8) {
    (!c + 1) & c == !c + 1
  }

  lemma ContigMeans(c: bv8, d: nat)
    requires d < 8 && !ByteBit(c, d) && forall j :: 0 <= j < d ==> ByteBit(c, j)
    ensures Contig(c) <==> forall j :: d <= j < 8 ==> !ByteBit(c, j)
  {
    if forall j :: d <= j < 8 ==> !ByteBit(c, j) {
      assert forall j :: 0 <= j < 8 ==> (ByteBit(c, j) <==> j < d);
      TopBits(c, d);
    } else {
      var j :| d <= j < 8 && ByteBit(c, j);
      NotContig(c, d, j);
    }
  }

  lemma TopBits(c: bv8, d: nat)
    requires d < 8 && forall j :: 0 <= j < 8 ==> (ByteBit(c, j) <==> j < d)
    ensures Contig(c)
  {
    assert (ByteBit(c, 0) <==> 0 < d) && (ByteBit(c, 1) <==> 1 < d) && (ByteBit(c, 2) <==> 2 < d)
        && (ByteBit(c, 3) <==> 3 < d);
    assert (ByteBit(c, 4) <==> 4 < d) && (ByteBit(c, 5) <==> 5 < d) && (ByteBit(c, 6) <==> 6 < d)
        && (ByteBit(c, 7) <==> 7 < d);
  }

  lemma NotContig(c: bv8, d: nat, j: nat)
    requires d < j < 8 && !ByteBit(c, d) && ByteBit(c, j)
    ensures !Contig(c)
  {
    GapBreaksContig(c, BitMask(d), BitMask(j));
    match d
    case 0 => case 1 => case 2 => case 3 => case 4 => case 5 => case _ =>
  }

  lemma GapBreaksContig(c: bv8, hi: bv8, lo: bv8)
    requires hi == 0x80 || hi == 0x40 || hi == 0x20 || hi == 0x10 || hi == 0x08 || hi == 0x04 || hi == 0x02
    requires lo == 0x40 || lo == 0x20 || lo == 0x10 || lo == 0x08 || lo == 0x04 || lo == 0x02 || lo == 0x01
    requires lo < hi && c & hi == 0 && c & lo != 0
    ensures !Contig(c)
  {}

  /** The leading ones of a byte that is not all ones, counted by a moving mask. */
  method LeadingOnes(c: bv8) returns (d: nat)
    requires c != 0xff
    ensures d < 8 && !ByteBit(c, d) && forall j :: 0 <= j < d ==> ByteBit(c, j)
  {
    d := 0;
    var m: bv8 := 0x80;
    while m & c != 0
      invariant d < 8 && m == BitMask(d) && forall j :: 0 <= j < d ==> ByteBit(c, j)
      decreases 8 - d
    {
      assert m & c == c & m;
      if d == 7 { OnesOnly(c); }
      NextMask(d);
      d, m := d + 1, m >> 1;
    }
    assert m & c == c & m;
  }

  lemma NextMask(d: nat)
    requires d < 7
    ensures BitMask(d) >> 1 == BitMask(d + 1)
  {}

  lemma OnesOnly(c: bv8)
    requires forall j :: 0 <= j < 8 ==> ByteBit(c, j)
    ensures c == 0xff
  {
    forall j | 0 <= j < 8 ensures ByteBit(c, j) == ByteBit(0xff, j) {
      var m := BitMask(j);
      assert 0xff & m == m;
    }
    ByteExt(c, 0xff);
  }

  lemma OnesByte(key: Key, mb: Bits, j: nat, i: nat)
    requires IsBits(key, mb) && j < |key| && key[j] == 0xff && 8 * j <= i < 8 * j + 8
    ensures mb[i]
  {
    ByteBits(key, mb, j, i - 8 * j);
    var m := BitMask(i - 8 * j);
    assert 0xff & m == m;
  }

  lemma ZeroByte(key: Key, mb: Bits, j: nat, i: nat)
    requires IsBits(key, mb) && j < |key| && key[j] == 0 && 8 * j <= i < 8 * j + 8
    ensures !mb[i]
  {
    ByteBits(key, mb, j, i - 8 * j);
  }

  lemma SomeOne(key: Key, mb: Bits, j: nat) returns (i: nat)
    requires IsBits(key, mb) && j < |key| && key[j] != 0
    ensures 8 * j <= i < 8 * j + 8 && mb[i]
  {
    if forall i :: 0 <= i < 8 ==> !ByteBit(key[j], i) {
      forall i | 0 <= i < 8 ensures ByteBit(key[j], i) == ByteBit(0, i) {}
      ByteExt(key[j], 0);
      assert false;
    }
    var d :| 0 <= d < 8 && ByteBit(key[j], d);
    ByteBits(key, mb, j, d);
    i := 8 * j + d;
  }

  /** The end of rn_addmask: the index of a mask, and whether its ones are contiguous. */
  method MaskIndex(key: Key, skip: nat, ghost mb: Bits) returns (b: nat, normal: bool)
    requires IsNormalForm(key, skip) && IsBits(key, mb)
    ensures IsIndex(mb, skip, b, normal)
  {
    var cp := skip;
    while cp < Len(key) && key[cp] == 0xff
      invariant skip <= cp <= Len(key)
      invariant forall j :: skip <= j < cp ==> key[j] == 0xff
    {
      cp := cp + 1;
    }
    normal, b := true, 0;
    if cp != Len(key) {
      b := LeadingOnes(key[cp]);
      if !Contig(key[cp]) || cp != Len(key) - 1 {
        normal := false;
      }
    }
    b := b + 8 * cp;
    IndexOnes(key, mb, skip, cp, b);
    if cp == Len(key) {
      ZeroTail(key, mb, skip, b);
    } else {
      ByteBits(key, mb, cp, b - 8 * cp);
      ContigMeans(key[cp], b - 8 * cp);
      if cp != Len(key) - 1 {
        var i := SomeOne(key, mb, Len(key) - 1);
      } else {
        LastByte(key, mb, skip, cp, key[cp], b, normal);
      }
    }
  }

  lemma IndexOnes(key: Key, mb: Bits, skip: nat, cp: nat, b: nat)
    requires IsNormalForm(key, skip) && IsBits(key, mb) && skip <= cp <= Len(key) && 8 * cp <= b < 8 * cp + 8
    requires forall j :: skip <= j < cp ==> key[j] == 0xff
    requires cp < Len(key) ==> forall j :: 0 <= j < b - 8 * cp ==> ByteBit(key[cp], j)
    requires cp == Len(key) ==> b == 8 * cp
    ensures forall i :: 8 * skip <= i < b ==> mb[i]
  {
    forall i | 8 * skip <= i < b ensures mb[i] {
      if i < 8 * cp {
        OnesByte(key, mb, i / 8, i);
      } else {
        ByteBits(key, mb, cp, i - 8 * cp);
      }
    }
  }

  lemma ZeroTail(key: Key, mb: Bits, skip: nat, b: nat)
    requires IsNormalForm(key, skip) && IsBits(key, mb) && 8 * Len(key) <= b
    ensures forall i :: b <= i < |mb| ==> !mb[i]
  {
    forall i | b <= i < |mb| ensures !mb[i] {
      ZeroByte(key, mb, i / 8, i);
    }
  }

  lemma LastByte(key: Key, mb: Bits, skip: nat, cp: nat, c: bv8, b: nat, normal: bool)
    requires IsNormalForm(key, skip) && IsBits(key, mb) && cp == Len(key) - 1 && c == key[cp]
    requires 8 * cp <= b < 8 * cp + 8
    requires normal <==> forall j :: b - 8 * cp <= j < 8 ==> !ByteBit(c, j)
    ensures normal <==> forall i :: b <= i < |mb| ==> !mb[i]
  {
    ZeroTail(key, mb, skip, 8 * Len(key));
    if normal {
      forall i | b <= i < 8 * Len(key) ensures !mb[i] {
        ByteBits(key, mb, cp, i - 8 * cp);
      }
    } else {
      var j :| b - 8 * cp <= j < 8 && ByteBit(c, j);
      ByteBits(key, mb, cp, j);
    }
  }

  function ByteOr0(k: Key, j: nat): bv8 {
    if 0 < |k| && j < Len(k) && j < |k| then k[j] else 0
  }

  /** x is the interned form of the caller's mask: they carry the same bytes from `skip` on. */
  ghost predicate Interns(nodes: seq<Node>, sh: Shape, skip: nat, x: Ptr, netmask: Key)
    requires Sized(nodes, sh)
  {
    && IsLeaf(nodes, sh, x) && x != ONES_LEAF && |nodes[x].key| == MAX_KEY_LEN
    && forall j :: skip <= j < MAX_KEY_LEN ==> nodes[x].key[j] == ByteOr0(netmask, j)
  }

  /** Trim trailing zero bytes. */
  method Trim(key: Key, n: nat) returns (mlen: nat)
    requires n <= |key|
    ensures mlen <= n && (mlen > 0 ==> key[mlen - 1] != 0) && forall j :: mlen <= j < n ==> key[j] == 0
  {
    mlen := n;
    while mlen > 0 && key[mlen - 1] == 0
      invariant mlen <= n && forall j :: mlen <= j < n ==> key[j] == 0
    {
      mlen := mlen - 1;
    }
  }

  /** The start of rn_addmask: copy, fill with ones up to `skip`, trim, store the length. */
  method Normalise(netmask: Key, skip: nat) returns (key: Key, mlen: nat)
    requires |netmask| > 0 && Len(netmask) <= |netmask| && 1 <= skip < MAX_KEY_LEN
    ensures mlen <= skip ==> forall j :: skip <= j < MAX_KEY_LEN ==> ByteOr0(netmask, j) == 0
    ensures mlen > skip ==> IsNormalForm(key, skip) && mlen == Len(key)
    ensures mlen > skip ==> forall j :: skip <= j < MAX_KEY_LEN ==> key[j] == ByteOr0(netmask, j)
  {
    mlen := if Len(netmask) > MAX_KEY_LEN then MAX_KEY_LEN else Len(netmask);
    key := Zeros();
    if mlen <= skip {
      return;
    }
    var full := [0] + Ones()[1..skip] + netmask[skip..mlen] + key[mlen..];
    assert forall j :: skip <= j < MAX_KEY_LEN ==> full[j] == ByteOr0(netmask, j);
    assert forall j :: 1 <= j < skip ==> full[j] == Ones()[j];
    mlen := Trim(full, mlen);
    if mlen > skip {
      LenByte(mlen);
      key := full[0 := mlen as bv8];
    }
  }

  /** Every interned mask keeps its cell, its bytes and its index. */
  ghost predicate Kept(nodes: seq<Node>, sh: Shape, m: seq<Node>, th: Shape, k: Ptr)
    requires Sized(nodes, sh) && Sized(m, th)
  {
    IsLeaf(nodes, sh, k) ==>
      && IsLeaf(m, th, k) && m[k].key == nodes[k].key && m[k].bit == nodes[k].bit
      && m[k].normal == nodes[k].normal && th.bits[k] == sh.bits[k]
  }

  /** Two interned masks with the same bytes are one. */
  lemma InternedOnce(nodes: seq<Node>, sh: Shape, skip: nat, j: Ptr, k: Ptr)
    requires MaskInv(nodes, sh, skip) && IsLeaf(nodes, sh, j) && IsLeaf(nodes, sh, k)
    requires Agree(sh.bits[j], sh.bits[k], sh.lo, sh.hi)
    ensures j == k
  {
    assert MaskLeaf(nodes, sh, skip, j) && MaskLeaf(nodes, sh, skip, k);
    Above(nodes, sh, j);
    UnderByAgreement(nodes, sh, j, j, k);
  }

  /** A key in normal form that agrees with a stored mask up to its length is that mask. */
  lemma NormalFormSettles(nodes: seq<Node>, sh: Shape, skip: nat, key: Key, kb: Bits, k: Ptr)
    requires MaskInv(nodes, sh, skip) && IsNormalForm(key, skip) && IsBits(key, kb) && IsLeaf(nodes, sh, k)
    requires Agree(kb, sh.bits[k], 0, 8 * Len(key))
    ensures nodes[k].key == key && k != ZERO_MASK && k != ONES_LEAF && Agree(kb, sh.bits[k], sh.lo, sh.hi)
  {
    assert MaskLeaf(nodes, sh, skip, k);
    AgreeBytes(key, kb, nodes[k].key, sh.bits[k], 0, Len(key));
    assert key[0] == nodes[k].key[0];
    AgreeBytes(key, kb, nodes[k].key, sh.bits[k], 0, MAX_KEY_LEN);
  }

  /** The cell of a mask that is already interned, or null. */
  method FindMask(h: Head, ghost skip: nat, key: Key, ghost kb: Bits) returns (x: Ptr)
    requires h.Valid() && MaskInv(h.nodes, h.sh, skip) && IsNormalForm(key, skip) && IsBits(key, kb)
    ensures x == 0 ==> forall k: Ptr :: IsLeaf(h.nodes, h.sh, k) ==> !Agree(kb, h.sh.bits[k], 0, 8 * Len(key))
    ensures x != 0 ==> IsLeaf(h.nodes, h.sh, x) && h.nodes[x].key == key && x != ZERO_MASK && x != ONES_LEAF
  {
    x := Search(h.nodes, h.top, h.sh, key, kb);
    var stored := h.nodes[x].key;
    var same := key[..Len(key)] == stored[..Len(key)];
    assert same ==> forall j :: 0 <= j < Len(key) ==> key[j] == key[..Len(key)][j] == stored[..Len(key)][j];
    AgreeBytes(key, kb, stored, h.sh.bits[x], 0, Len(key));
    if same {
      NormalFormSettles(h.nodes, h.sh, skip, key, kb, x);
    } else {
      forall k: Ptr | IsLeaf(h.nodes, h.sh, k) ensures !Agree(kb, h.sh.bits[k], 0, 8 * Len(key)) {
        assert AsClose(h.sh, kb, x, k);
      }
      x := 0;
    }
  }

  /** The tree of masks after a new mask was inserted and its index and flag were stored. */
  ghost predicate NewMask(nodes: seq<Node>, sh: Shape, skip: nat, s: Site, m: seq<Node>, th: Shape, r: seq<Node>) {
    && MaskInv(nodes, sh, skip) && Inserted(nodes, sh, s, m, th) && IsBits(s.v, s.vb)
    && IsNormalForm(s.v, skip) && |r| == |m| && r[s.leaf].Leaf? && r[s.leaf].bit < 0
    && r[s.leaf] == Leaf(r[s.leaf].bit, s.v, 0, 0, s.node, r[s.leaf].normal, false, false)
    && IsIndex(s.vb, skip, -1 - r[s.leaf].bit, r[s.leaf].normal)
    && forall c :: 0 <= c < |m| && c != s.leaf ==> r[c] == m[c]
  }

  lemma NewMaskTree(nodes: seq<Node>, sh: Shape, skip: nat, s: Site, m: seq<Node>, th: Shape, r: seq<Node>)
    requires NewMask(nodes, sh, skip, s, m, th, r)
    ensures HeadInv(r, th)
  {
    InsertedInv(nodes, sh, s, m, th);
    InsertedKeys(nodes, sh, s, m, th);
    assert Cell(nodes, sh, s, m, th, s.leaf);
    RelabelledInv(m, r, th);
  }

  lemma NewMaskKeeps(nodes: seq<Node>, sh: Shape, skip: nat, s: Site, m: seq<Node>, th: Shape, r: seq<Node>, k: Ptr)
    requires NewMask(nodes, sh, skip, s, m, th, r)
    ensures Sized(r, th) && Kept(nodes, sh, r, th, k)
  {
    if IsLeaf(nodes, sh, k) {
      LeafKind(nodes, sh, s, m, th, k);
      assert Cell(nodes, sh, s, m, th, k);
    }
  }

  lemma NewMaskLeaf(nodes: seq<Node>, sh: Shape, skip: nat, s: Site, m: seq<Node>, th: Shape, r: seq<Node>, k: Ptr)
    requires NewMask(nodes, sh, skip, s, m, th, r)
    ensures Sized(r, th) && MaskLeaf(r, th, skip, k)
  {
    if IsLeaf(r, th, k) {
      TopGains(nodes, sh, s, m, th);
      assert Cell(nodes, sh, s, m, th, k);
      if k != s.leaf {
        assert MaskLeaf(nodes, sh, skip, k);
        assert k in s.above ==> OnWay(nodes, sh, s, k);
        NewMaskKeeps(nodes, sh, skip, s, m, th, r, k);
      }
    }
  }

  lemma NewMaskInv(nodes: seq<Node>, sh: Shape, skip: nat, s: Site, m: seq<Node>, th: Shape, r: seq<Node>)
    requires NewMask(nodes, sh, skip, s, m, th, r)
    ensures MaskInv(r, th, skip) && forall k: Ptr {:trigger Kept(nodes, sh, r, th, k)} :: Kept(nodes, sh, r, th, k)
  {
    NewMaskTree(nodes, sh, skip, s, m, th, r);
    forall k: Ptr ensures Kept(nodes, sh, r, th, k) {
      NewMaskKeeps(nodes, sh, skip, s, m, th, r, k);
    }
    forall k: Ptr ensures MaskLeaf(r, th, skip, k) {
      NewMaskLeaf(nodes, sh, skip, s, m, th, r, k);
    }
    assert Kept(nodes, sh, r, th, ZERO_MASK) && Kept(nodes, sh, r, th, ONES_LEAF);
  }

  /** The bytes before this one are not looked at in a mask. */
  function Skip(offset: nat): nat {
    if offset == 0 then 1 else offset
  }

  /** The part of rn_addmask that stores a new mask. */
  method StoreMask(h: Head, skip: nat, key: Key, ghost kb: Bits, leaf: Ptr, node: Ptr) returns (x: Ptr)
    requires h.Valid() && MaskInv(h.nodes, h.sh, skip) && IsNormalForm(key, skip) && IsBits(key, kb)
    requires Unused(h.nodes, h.sh, leaf) && Unused(h.nodes, h.sh, node) && leaf != node
    requires forall k: Ptr :: IsLeaf(h.nodes, h.sh, k) ==> !Agree(kb, h.sh.bits[k], 0, 8 * Len(key))
    modifies h
    ensures h.Valid() && MaskInv(h.nodes, h.sh, skip) && IsLeaf(h.nodes, h.sh, x) && h.nodes[x].key == key && x == leaf
    ensures forall k: Ptr {:trigger Kept(old(h.nodes), old(h.sh), h.nodes, h.sh, k)} ::
        Kept(old(h.nodes), old(h.sh), h.nodes, h.sh, k)
    ensures forall c: Ptr :: old(Unused(h.nodes, h.sh, c)) && c != leaf && c != node ==> Unused(h.nodes, h.sh, c)
  {
    ghost var was, wasShape := h.nodes, h.sh;
    var dup;
    ghost var s;
    x, dup, s := h.Insert(key, kb, leaf, node);
    ghost var m := h.nodes;
    var b, normal := MaskIndex(key, skip, kb);
    var bit := -1 - (b as int);
    assert Cell(was, wasShape, s, m, h.sh, leaf);
    h.nodes := h.nodes[x := h.nodes[x].(bit := bit, normal := normal)];
    NewMaskInv(was, wasShape, skip, s, m, h.sh, h.nodes);
    LeafKind(was, wasShape, s, m, h.sh, leaf);
    forall c: Ptr | Unused(was, wasShape, c) && c != leaf && c != node ensures Unused(h.nodes, h.sh, c) {
      UnusedKept(was, wasShape, s, m, h.sh, c);
    }
  }

  /**
   rn_addmask: the interned leaf of a mask. A null result means that the mask is not interned and
   either only a search was asked for or there was no memory (`leaf` is null).
   */
  method AddMask(h: Head, netmask: Key, search: bool, offset: nat, leaf: Ptr, node: Ptr) returns (x: Ptr)
    requires |netmask| > 0 && Len(netmask) <= |netmask| && offset < MAX_KEY_LEN
    requires h.Valid() && MaskInv(h.nodes, h.sh, Skip(offset))
    requires leaf != 0 ==> Unused(h.nodes, h.sh, leaf) && Unused(h.nodes, h.sh, node) && leaf != node
    modifies h
    ensures h.Valid() && MaskInv(h.nodes, h.sh, Skip(offset))
    ensures forall k: Ptr {:trigger Kept(old(h.nodes), old(h.sh), h.nodes, h.sh, k)} ::
        Kept(old(h.nodes), old(h.sh), h.nodes, h.sh, k)
    ensures forall c: Ptr :: old(Unused(h.nodes, h.sh, c)) && c != leaf && c != node ==> Unused(h.nodes, h.sh, c)
    ensures search || x == 0 || x != leaf ==> h.nodes == old(h.nodes) && h.sh == old(h.sh)
    ensures x != 0 ==> Interns(h.nodes, h.sh, Skip(offset), x, netmask)
    ensures x == 0 ==> (search || leaf == 0) && forall k: Ptr :: !Interns(h.nodes, h.sh, Skip(offset), k, netmask)
  {
    var skip := Skip(offset);
    var key, mlen := Normalise(netmask, skip);
    if mlen <= skip {
      return ZERO_MASK;
    }
    ghost var kb := Expand(key);
    x := FindMask(h, skip, key, kb);
    if x == 0 {
      if search || leaf == 0 {
        forall k: Ptr ensures !Interns(h.nodes, h.sh, skip, k, netmask) {
          NotInterned(h.nodes, h.sh, skip, netmask, key, kb, k);
        }
      } else {
        x := StoreMask(h, skip, key, kb, leaf, node);
      }
    }
  }

  lemma NotInterned(nodes: seq<Node>, sh: Shape, skip: nat, netmask: Key, key: Key, kb: Bits, k: Ptr)
    requires MaskInv(nodes, sh, skip) && IsNormalForm(key, skip) && IsBits(key, kb)
    requires forall j :: skip <= j < MAX_KEY_LEN ==> key[j] == ByteOr0(netmask, j)
    requires IsLeaf(nodes, sh, k) ==> !Agree(kb, sh.bits[k], 0, 8 * Len(key))
    ensures !Interns(nodes, sh, skip, k, netmask)
  {
    if Interns(nodes, sh, skip, k, netmask) {
      assert MaskLeaf(nodes, sh, skip, k);
      assert key[Len(key) - 1] == nodes[k].key[Len(key) - 1];
      SameNormalForm(key, nodes[k].key, skip);
      AgreeBytes(key, kb, nodes[k].key, sh.bits[k], 0, Len(key));
      assert false;
    }
  }

  /** The bytes from `skip` on determine a normal form. */
  lemma SameNormalForm(a: Key, b: Key, skip: nat)
    requires IsNormalForm(a, skip) && IsNormalForm(b, skip)
    requires forall j :: skip <= j < MAX_KEY_LEN ==> a[j] == b[j]
    ensures a == b
  {
    assert a[Len(a) - 1] == b[Len(a) - 1] && a[Len(b) - 1] == b[Len(b) - 1];
    assert Len(a) == Len(b);
    SameLen(a[0], b[0]);
  }

  lemma SameLen(x: bv8, y: bv8)
    requires x as nat == y as nat
    ensures x == y
  {}
}
