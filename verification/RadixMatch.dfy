/** rn_match: one descent and one climb find the answer of a scan over all routes. */
module RadixMatch {

  import opened Options
  import opened RadixBits
  import opened RadixTree
  import opened RadixInsert
  import opened RadixHead
  import opened RadixMask
  import opened RadixRoute

  /** Bit b is the first significant one at which v and leaf h differ; b == hi if there is none. */
  ghost predicate PartsAt(t: Table, vb: Bits, h: Ptr, b: nat)
    requires Sized(t.nodes, t.sh) && |vb| >= t.sh.hi && h < |t.nodes|
  {
    t.sh.lo <= b <= t.sh.hi && Agree(vb, t.sh.bits[h], t.sh.lo, b) && (b < t.sh.hi ==> vb[b] != t.sh.bits[h][b])
  }

  /** The situation after the descent: h heads the closest chain, v parts from it at b. */
  ghost predicate Found(t: Table, vb: Bits, h: Ptr, b: nat) {
    && TreesOk(t) && |vb| >= t.sh.hi && IsHead(t.nodes, t.sh, h)
    && Closest(t.nodes, t.sh, vb, h) && PartsAt(t, vb, h, b)
  }

  /** A route that covers v shares with the closest chain every bit its mask selects. */
  lemma CoverShares(t: Table, vb: Bits, h: Ptr, b: nat, k: Ptr)
    requires Found(t, vb, h, b) && Covers(t, k, vb)
    ensures Rank(t.nodes, t.sh, k) <= b || b == t.sh.hi
    ensures forall i :: t.sh.lo <= i < t.sh.hi && i < Rank(t.nodes, t.sh, k) ==> t.sh.bits[h][i] == t.sh.bits[k][i]
  {
    assert AsClose(t.sh, vb, h, k);
    var r := Rank(t.nodes, t.sh, k);
    assert LeafOk(t, k);
    if t.sh.lo <= r {
      var d := if r <= t.sh.hi then r else t.sh.hi;
      assert Agree(vb, t.sh.bits[k], t.sh.lo, d);
      assert Agree(vb, t.sh.bits[h], t.sh.lo, d);
    }
  }

  /** A leaf with the significant bits of h is in h's chain. */
  lemma SameChain(t: Table, h: Ptr, k: Ptr)
    requires TreesOk(t) && IsHead(t.nodes, t.sh, h) && IsLeaf(t.nodes, t.sh, k)
    requires Agree(t.sh.bits[h], t.sh.bits[k], t.sh.lo, t.sh.hi)
    ensures k in t.sh.under[h] && k in t.sh.chain[h]
  {
    assert HeadOk(t.nodes, t.sh, h);
    Above(t.nodes, t.sh, h);
    UnderByAgreement(t.nodes, t.sh, h, h, k);
  }

  /** Chain members carry one key, so a covering masked one leaves no room for a longer mask elsewhere. */
  lemma CoverInChain(t: Table, vb: Bits, h: Ptr, b: nat, i: nat, k: Ptr)
    requires Found(t, vb, h, b) && i < |t.sh.chain[h]| && Covers(t, k, vb)
    requires IsLeaf(t.nodes, t.sh, t.sh.chain[h][i]) && t.nodes[t.sh.chain[h][i]].mask != 0
    requires Rank(t.nodes, t.sh, k) > Rank(t.nodes, t.sh, t.sh.chain[h][i])
    ensures k in t.sh.chain[h]
  {
    CoverShares(t, vb, h, b, k);
    var m := t.sh.chain[h][i];
    assert HeadOk(t.nodes, t.sh, h) && Member(t.nodes, t.sh, h, i);
    assert LeafOk(t, m) && LeafOk(t, k);
    SameChain(t, h, k);
  }

  /** The first covering member of the closest chain, if it has a mask, is the answer. */
  lemma BestInChain(t: Table, vb: Bits, h: Ptr, b: nat, i: nat)
    requires Found(t, vb, h, b) && i < |t.sh.chain[h]|
    requires Covers(t, t.sh.chain[h][i], vb) && t.nodes[t.sh.chain[h][i]].mask != 0
    requires forall j :: 0 <= j < i ==> !Covers(t, t.sh.chain[h][j], vb)
    ensures IsAnswer(t, vb, t.sh.chain[h][i])
  {
    var m := t.sh.chain[h][i];
    forall k: Ptr | Covers(t, k, vb) ensures Rank(t.nodes, t.sh, k) <= Rank(t.nodes, t.sh, m) {
      if Rank(t.nodes, t.sh, k) > Rank(t.nodes, t.sh, m) {
        CoverInChain(t, vb, h, b, i, k);
        var j :| 0 <= j < |t.sh.chain[h]| && t.sh.chain[h][j] == k;
        NotLater(t, h, i, j);
      }
    }
  }

  lemma NotLater(t: Table, h: Ptr, i: nat, j: nat)
    requires TreesOk(t) && IsHead(t.nodes, t.sh, h) && i < |t.sh.chain[h]| && j < |t.sh.chain[h]|
    requires IsLeaf(t.nodes, t.sh, t.sh.chain[h][i]) && IsLeaf(t.nodes, t.sh, t.sh.chain[h][j])
    requires Rank(t.nodes, t.sh, t.sh.chain[h][j]) > Rank(t.nodes, t.sh, t.sh.chain[h][i])
    ensures j < i
  {
    assert ChainOk(t, h);
    assert InOrder(t, h, i, j);
  }

  /** What a chain member covers can be read off the position b. */
  lemma MemberCovers(t: Table, vb: Bits, h: Ptr, b: nat, i: nat)
    requires Found(t, vb, h, b) && i < |t.sh.chain[h]|
    ensures var m := t.sh.chain[h][i];
      && IsLeaf(t.nodes, t.sh, m)
      && (t.nodes[m].mask != 0 ==> (Covers(t, m, vb) <==> Index(t.nodes[m].bit) <= b))
      && (t.nodes[m].mask == 0 ==> i == 0)
      && (t.nodes[m].mask == 0 && !t.nodes[m].root ==> (Covers(t, m, vb) <==> b == t.sh.hi))
  {
    var m := t.sh.chain[h][i];
    assert HeadOk(t.nodes, t.sh, h) && Member(t.nodes, t.sh, h, i);
    assert LeafOk(t, m) && LeafOk(t, h) && ChainOk(t, h) && InOrder(t, h, 0, i);
  }

  /** Leaf 1 carries no one bit and leaf 3 no zero bit. */
  lemma RootKeys(t: Table)
    requires TreesOk(t)
    ensures forall i :: 0 <= i < t.sh.hi ==> !t.sh.bits[1][i] && t.sh.bits[3][i]
  {
    forall i | 0 <= i < t.sh.hi ensures !t.sh.bits[1][i] && t.sh.bits[3][i] {
      RootBits(t.sh.bits[1], t.sh.bits[3], i);
    }
  }

  /** When v is the key of the closest chain, the head decides; a root leaf hands over to the next member. */
  lemma WholeMatch(t: Table, vb: Bits, h: Ptr)
    requires Found(t, vb, h, t.sh.hi) && !t.nodes[h].root
    ensures IsAnswer(t, vb, h)
  {
    assert HeadOk(t.nodes, t.sh, h);
    MemberCovers(t, vb, h, t.sh.hi, 0);
    assert LeafOk(t, h);
    if t.nodes[h].mask != 0 {
      BestInChain(t, vb, h, t.sh.hi, 0);
    } else {
      forall k: Ptr | Covers(t, k, vb) ensures Rank(t.nodes, t.sh, k) <= t.sh.hi + 1 {
        assert LeafOk(t, k);
      }
    }
  }

  lemma RootHandsOver(t: Table, vb: Bits, h: Ptr)
    requires Found(t, vb, h, t.sh.hi) && t.nodes[h].root
    ensures |t.sh.chain[h]| > 1 ==> t.nodes[h].dup == t.sh.chain[h][1] && IsAnswer(t, vb, t.nodes[h].dup)
    ensures |t.sh.chain[h]| <= 1 ==> t.nodes[h].dup == 0
  {
    assert HeadOk(t.nodes, t.sh, h) && Member(t.nodes, t.sh, h, 0);
    MemberCovers(t, vb, h, t.sh.hi, 0);
    if |t.sh.chain[h]| > 1 {
      MemberCovers(t, vb, h, t.sh.hi, 1);
      assert LeafOk(t, t.sh.chain[h][1]);
      BestInChain(t, vb, h, t.sh.hi, 1);
    }
  }

  /** For the all-zero key an empty root chain is the right answer. */
  lemma ZeroKeyAnswer(t: Table, vb: Bits)
    requires Found(t, vb, 1, t.sh.hi) && |t.sh.chain[1]| <= 1
    ensures IsAnswer(t, vb, 0)
  {
    RootKeys(t);
    assert HeadOk(t.nodes, t.sh, 1) && LeafOk(t, 1);
    forall k: Ptr ensures !Covers(t, k, vb) {
      if Covers(t, k, vb) {
        assert LeafOk(t, k);
        CoverShares(t, vb, 1, t.sh.hi, k);
        SameChain(t, 1, k);
      }
    }
  }

  /** On the way up: no route whose mask reaches past bit `past` covers v. */
  ghost predicate Bounded(t: Table, vb: Bits, past: int)
    requires Sized(t.nodes, t.sh) && |vb| >= t.sh.hi
  {
    forall k: Ptr :: Covers(t, k, vb) ==> Rank(t.nodes, t.sh, k) <= past
  }

  lemma ClimbStart(t: Table, vb: Bits, h: Ptr, b: nat)
    requires Found(t, vb, h, b) && b < t.sh.hi
    requires forall i :: 0 <= i < |t.sh.chain[h]| ==> !Covers(t, t.sh.chain[h][i], vb)
    ensures Bounded(t, vb, ParentBit(t.nodes, t.sh, h))
  {
    Above(t.nodes, t.sh, h);
    assert HeadOk(t.nodes, t.sh, h);
    forall k: Ptr | Covers(t, k, vb) ensures Rank(t.nodes, t.sh, k) <= ParentBit(t.nodes, t.sh, h) {
      CoverShares(t, vb, h, b, k);
      if Rank(t.nodes, t.sh, k) > ParentBit(t.nodes, t.sh, h) {
        UnderByAgreement(t.nodes, t.sh, h, h, k);
      }
    }
  }

  /** An entry of a list on the way up covers v exactly when its mask ends at or before b. */
  lemma EntryCovers(t: Table, vb: Bits, h: Ptr, b: nat, n: Ptr, k: Ptr)
    requires Found(t, vb, h, b) && n < |t.nodes| && h in t.sh.under[n] && Belongs(t.nodes, t.sh, n, k)
    ensures Covers(t, k, vb) <==> Index(t.nodes[k].bit) <= b
  {
    assert Alike(t.nodes, t.sh, n, h, k) && LeafOk(t, k);
  }

  /** Covering routes whose masks reach past n's parent are in n's list. */
  lemma CoverBelongs(t: Table, vb: Bits, h: Ptr, b: nat, n: Ptr, k: Ptr)
    requires Found(t, vb, h, b) && b < t.sh.hi && IsInner(t.nodes, t.sh, n) && h in t.sh.under[n]
    requires Covers(t, k, vb) && ParentBit(t.nodes, t.sh, n) < Rank(t.nodes, t.sh, k) <= t.nodes[n].bit
    ensures Belongs(t.nodes, t.sh, n, k)
  {
    CoverShares(t, vb, h, b, k);
    UnderByAgreement(t.nodes, t.sh, n, h, k);
  }

  /** The first covering entry on the way up is the answer. */
  lemma BestInList(t: Table, vb: Bits, h: Ptr, b: nat, n: Ptr, i: nat, k: Ptr)
    requires Found(t, vb, h, b) && b < t.sh.hi && IsInner(t.nodes, t.sh, n) && h in t.sh.under[n]
    requires ListOk(t, {}, n) && Bounded(t, vb, t.nodes[n].bit)
    requires i < |t.nodes[n].mklist| && Belongs(t.nodes, t.sh, n, k) && t.nodes[n].mklist[i] == EntryOf(t.nodes, k)
    requires Index(t.nodes[k].bit) <= b
    requires forall j :: 0 <= j < i ==> Index(t.nodes[n].mklist[j].bit) > b
    ensures IsAnswer(t, vb, k)
  {
    EntryCovers(t, vb, h, b, n, k);
    forall j: Ptr | Covers(t, j, vb) ensures Rank(t.nodes, t.sh, j) <= Rank(t.nodes, t.sh, k) {
      CoverShares(t, vb, h, b, j);
      if ParentBit(t.nodes, t.sh, n) < Rank(t.nodes, t.sh, j) {
        CoverBelongs(t, vb, h, b, n, j);
        var l := t.nodes[n].mklist;
        assert EntryOf(t.nodes, j) in l;
        var q :| 0 <= q < |l| && l[q] == EntryOf(t.nodes, j);
      }
    }
  }

  lemma ClimbStep(t: Table, vb: Bits, h: Ptr, b: nat, n: Ptr)
    requires Found(t, vb, h, b) && b < t.sh.hi && IsInner(t.nodes, t.sh, n) && h in t.sh.under[n]
    requires ListOk(t, {}, n) && Bounded(t, vb, t.nodes[n].bit)
    requires forall j :: 0 <= j < |t.nodes[n].mklist| ==> Index(t.nodes[n].mklist[j].bit) > b
    ensures Bounded(t, vb, ParentBit(t.nodes, t.sh, n))
  {
    forall k: Ptr | Covers(t, k, vb) ensures Rank(t.nodes, t.sh, k) <= ParentBit(t.nodes, t.sh, n) {
      CoverShares(t, vb, h, b, k);
      if ParentBit(t.nodes, t.sh, n) < Rank(t.nodes, t.sh, k) {
        CoverBelongs(t, vb, h, b, n, k);
      }
    }
  }

  /** Some bit from e on is where v and h part. */
  lemma FindParting(t: Table, vb: Bits, h: Ptr, e: nat) returns (b: nat)
    requires Sized(t.nodes, t.sh) && |vb| >= t.sh.hi && h < |t.nodes| && t.sh.lo <= e <= t.sh.hi
    requires Agree(vb, t.sh.bits[h], t.sh.lo, e)
    ensures e <= b && PartsAt(t, vb, h, b)
  {
    b := e;
    while b < t.sh.hi && vb[b] == t.sh.bits[h][b]
      invariant e <= b <= t.sh.hi && Agree(vb, t.sh.bits[h], t.sh.lo, b)
    {
      b := b + 1;
    }
  }

  /** The stored length of an interned mask is that of its index, in bytes. */
  lemma MaskLength(masks: seq<Node>, sh: Shape, skip: nat, x: Ptr)
    requires MaskInv(masks, sh, skip) && IsLeaf(masks, sh, x) && x != ZERO_MASK && x != ONES_LEAF && masks[x].normal
    ensures |masks[x].key| == MAX_KEY_LEN && skip < Len(masks[x].key)
    ensures 8 * Len(masks[x].key) - 8 < Index(masks[x].bit) <= 8 * Len(masks[x].key)
  {
    assert MaskLeaf(masks, sh, skip, x);
    var key, mb := masks[x].key, sh.bits[x];
    var i := SomeOne(key, mb, Len(key) - 1);
    ZeroTail(key, mb, skip, 8 * Len(key));
    assert 8 * Len(key) < |mb| ==> !mb[8 * Len(key)];
  }

  /** The bytes differ in no bit that m selects. */
  predicate SameUnder(x: bv8, y: bv8, m: bv8) {
    (x ^ y) & m == 0
  }

  /**
   rn_satisfies_leaf: no bit that the mask selects, or no bit at all where there is none, differs on
   the bytes that key, query and mask all have.
   */
  method SatisfiesLeaf(v: Key, key: Key, mask: Option<Key>, skip: nat) returns (r: bool)
    requires |v| > 0 && |key| > 0 && Len(v) <= |v| && Len(key) <= |key|
    requires mask.Some? ==> |mask.value| > 0 && Len(mask.value) <= |mask.value|
    requires mask.None? ==> Len(v) <= MAX_KEY_LEN || Len(key) <= MAX_KEY_LEN
    ensures r <==> forall i :: skip <= i < Len(v) && i < Len(key) && (mask.Some? ==> i < Len(mask.value)) ==>
                     if mask.Some? then SameUnder(v[i], key[i], mask.value[i]) else v[i] == key[i]
  {
    var length := if Len(v) < Len(key) then Len(v) else Len(key);
    var bits;
    if mask.None? {
      bits := Ones();
    } else {
      bits := mask.value;
      length := if length < Len(bits) then length else Len(bits);
    }
    var i := skip;
    while i < length
      invariant skip <= i && (i <= length || i == skip)
      invariant forall j :: skip <= j < i ==> SameUnder(v[j], key[j], bits[j])
    {
      if !SameUnder(v[i], key[i], bits[i]) {
        OnesSelect(v[i], key[i]);
        return false;
      }
      i := i + 1;
    }
    r := true;
    if mask.None? {
      forall j | skip <= j < i ensures v[j] == key[j] { OnesSelect(v[j], key[j]); }
    }
  }

  lemma OnesSelect(x: bv8, y: bv8)
    ensures SameUnder(x, y, 0xff) <==> x == y
  {}

  /** The leaf's key is what remains of v under the mask. */
  ghost predicate MaskedKey(sh: Shape, vb: Bits, mb: Bits, k: Ptr)
    requires k < |sh.bits| && |sh.bits[k]| >= sh.hi && |vb| >= sh.hi && |mb| >= sh.hi
  {
    forall i :: sh.lo <= i < sh.hi ==> sh.bits[k][i] == (vb[i] && mb[i])
  }

  /** rn_search_m: descend by the bits of v under a mask; the masked key is in the chain reached. */
  method SearchMasked(nodes: seq<Node>, n: Ptr, ghost sh: Shape, v: Key, ghost vb: Bits, m: Key, ghost mb: Bits,
      ghost k: Ptr)
    returns (x: Ptr)
    requires TreeInv(nodes, sh) && IsInner(nodes, sh, n) && IsBits(v, vb) && IsBits(m, mb) && |vb| >= sh.hi
    requires |mb| >= sh.hi
    requires IsLeaf(nodes, sh, k) && k in sh.under[n] && MaskedKey(sh, vb, mb, k)
    ensures IsHead(nodes, sh, x) && k in sh.under[x]
  {
    x := n;
    while nodes[x].bit >= 0
      invariant (IsInner(nodes, sh, x) || IsHead(nodes, sh, x)) && k in sh.under[x]
      decreases if nodes[x].Inner? then sh.hi - nodes[x].bit else 0
    {
      assert InnerOk(nodes, sh, x);
      Side(nodes, sh, x, if sh.bits[k][nodes[x].bit] then nodes[x].right else nodes[x].left, k);
      var inMask := TestBit(m, nodes[x].bmask, nodes[x].offset, mb, nodes[x].bit);
      var inKey := TestBit(v, nodes[x].bmask, nodes[x].offset, vb, nodes[x].bit);
      x := if inMask && inKey then nodes[x].right else nodes[x].left;
    }
  }

  lemma DefaultKey(t: Table, k: Ptr, vb: Bits)
    requires TreesOk(t) && IsLeaf(t.nodes, t.sh, k) && t.nodes[k].mask == ZERO_MASK && |vb| >= t.sh.hi
    ensures |t.maskShape.bits[ZERO_MASK]| >= t.sh.hi && IsBits(Zeros(), t.maskShape.bits[ZERO_MASK])
    ensures MaskedKey(t.sh, vb, t.maskShape.bits[ZERO_MASK], k)
  {
    assert LeafOk(t, k);
    forall i | t.sh.lo <= i < t.sh.hi ensures !t.maskShape.bits[ZERO_MASK][i] {
      RootBits(t.maskShape.bits[ZERO_MASK], t.maskShape.bits[ONES_LEAF], i);
    }
  }

  /** The member of a chain that has a given mask, found by following the links. */
  method FindInChain(nodes: seq<Node>, ghost t: Table, h: Ptr, mask: Ptr, ghost k: Ptr) returns (x: Ptr)
    requires TreesOk(t) && nodes == t.nodes && IsHead(nodes, t.sh, h) && k in t.sh.under[h]
    requires k < |nodes| && nodes[k].Leaf? && nodes[k].mask == mask != 0
    ensures x == k
  {
    x := h;
    ghost var i := 0;
    ghost var s := t.sh.chain[h];
    assert HeadOk(nodes, t.sh, h);
    ghost var q :| 0 <= q < |s| && s[q] == k;
    while x != 0 && nodes[x].mask != mask
      invariant 0 <= i <= q && x == s[i] && IsLeaf(nodes, t.sh, x)
      decreases q - i
    {
      assert Member(nodes, t.sh, h, i) && Member(nodes, t.sh, h, i + 1);
      x := nodes[x].dup;
      i := i + 1;
    }
    OneMaskPerChain(t, h, i, q);
  }

  lemma OneMaskPerChain(t: Table, h: Ptr, i: nat, j: nat)
    requires TreesOk(t) && IsHead(t.nodes, t.sh, h) && i < |t.sh.chain[h]| && j < |t.sh.chain[h]|
    requires IsLeaf(t.nodes, t.sh, t.sh.chain[h][i]) && IsLeaf(t.nodes, t.sh, t.sh.chain[h][j])
    requires t.nodes[t.sh.chain[h][i]].mask == t.nodes[t.sh.chain[h][j]].mask
    ensures i == j
  {
    assert ChainOk(t, h) && InOrder(t, h, i, j) && InOrder(t, h, j, i);
    assert LeafOk(t, t.sh.chain[h][i]) && LeafOk(t, t.sh.chain[h][j]);
  }

  /** What rn_match asks of a query: it is as long as the keys of the table. */
  ghost predicate QueryOk(t: Table, v: Key, vb: Bits) {
    IsBits(v, vb) && |v| > 0 && 8 * Len(v) == t.sh.hi <= |vb|
  }

  /** The loop over the chain: the first member that covers v. */
  method ScanChain(nodes: seq<Node>, masks: seq<Node>, ghost t: Table, h: Ptr, b: nat, off: nat, v: Key, ghost vb: Bits)
    returns (r: Ptr)
    requires Found(t, vb, h, b) && b < t.sh.hi && nodes == t.nodes && masks == t.masks && QueryOk(t, v, vb)
    ensures r != 0 ==> IsAnswer(t, vb, r)
    ensures r == 0 ==> forall i :: 0 <= i < |t.sh.chain[h]| ==> !Covers(t, t.sh.chain[h][i], vb)
  {
    assert HeadOk(nodes, t.sh, h);
    ghost var s := t.sh.chain[h];
    ghost var i := 0;
    MemberCovers(t, vb, h, b, 0);
    r := h;
    if nodes[r].mask == 0 {
      assert Member(nodes, t.sh, h, 0);
      r, i := nodes[r].dup, 1;
    }
    while r != 0
      invariant i <= |s| && r == (if i < |s| then s[i] else 0)
      invariant forall j :: 0 <= j < i ==> !Covers(t, s[j], vb)
      invariant i > 0 || nodes[h].mask != 0
      decreases |s| - i
    {
      MemberCovers(t, vb, h, b, i);
      assert LeafOk(t, r);
      if nodes[r].normal {
        if -1 - b <= nodes[r].bit {
          BestInChain(t, vb, h, b, i);
          return;
        }
      } else {
        assert nodes[r].mask == ZERO_MASK;
        var ok := ZeroMaskSatisfies(nodes, masks, t, v, vb, r, off);
        if ok {
          BestInChain(t, vb, h, b, i);
          return;
        }
      }
      assert Member(nodes, t.sh, h, i);
      r, i := nodes[r].dup, i + 1;
    }
  }

  /** rn_satisfies_leaf on the leaf of a default route. */
  method ZeroMaskSatisfies(nodes: seq<Node>, masks: seq<Node>, ghost t: Table, v: Key, ghost vb: Bits, k: Ptr,
      off: nat) returns (ok: bool)
    requires TreesOk(t) && nodes == t.nodes && masks == t.masks && QueryOk(t, v, vb)
    requires IsLeaf(nodes, t.sh, k) && nodes[k].mask == ZERO_MASK
    ensures ok
  {
    assert LeafOk(t, k);
    ok := SatisfiesLeaf(v, nodes[k].key, Some(masks[nodes[k].mask].key), off);
  }

  /** The loop over one mask list on the way up: its first covering entry. */
  method ScanList(nodes: seq<Node>, masks: seq<Node>, ghost t: Table, ghost h: Ptr, b: nat, off: nat, n: Ptr, v: Key,
      ghost vb: Bits)
    returns (r: Ptr)
    requires RouteInv(t) && Found(t, vb, h, b) && b < t.sh.hi && nodes == t.nodes && masks == t.masks
    requires QueryOk(t, v, vb)
    requires IsInner(nodes, t.sh, n) && h in t.sh.under[n] && Bounded(t, vb, nodes[n].bit)
    ensures r != 0 ==> IsAnswer(t, vb, r)
    ensures r == 0 ==> Bounded(t, vb, ParentBit(nodes, t.sh, n))
  {
    assert ListOk(t, {}, n);
    var l := nodes[n].mklist;
    var i := 0;
    while i < |l|
      invariant 0 <= i <= |l| && forall j :: 0 <= j < i ==> Index(l[j].bit) > b
    {
      assert l[i] in l;
      ghost var k: Ptr :| Belongs(nodes, t.sh, n, k) && l[i] == EntryOf(nodes, k);
      assert LeafOk(t, k);
      if l[i].normal {
        if -1 - b <= l[i].bit {
          BestInList(t, vb, h, b, n, i, k);
          return l[i].leaf;
        }
      } else {
        DefaultKey(t, k, vb);
        var x := SearchMasked(nodes, n, t.sh, v, vb, masks[l[i].mask].key, t.maskShape.bits[ZERO_MASK], k);
        x := FindInChain(nodes, t, x, l[i].mask, k);
        var low := if nodes[n].offset < off then nodes[n].offset else off;
        var ok := ZeroMaskSatisfies(nodes, masks, t, v, vb, x, low);
        if x != 0 && ok {
          BestInList(t, vb, h, b, n, i, k);
          return x;
        }
      }
      i := i + 1;
    }
    ClimbStep(t, vb, h, b, n);
    r := 0;
  }

  /** The climb from the parent of the closest chain to the top. */
  method Climb(nodes: seq<Node>, top: Ptr, masks: seq<Node>, ghost t: Table, h: Ptr, b: nat, off: nat, v: Key,
      ghost vb: Bits)
    returns (r: Ptr)
    requires RouteInv(t) && Found(t, vb, h, b) && b < t.sh.hi && nodes == t.nodes && masks == t.masks
    requires QueryOk(t, v, vb)
    requires top == t.sh.top && forall i :: 0 <= i < |t.sh.chain[h]| ==> !Covers(t, t.sh.chain[h][i], vb)
    ensures IsAnswer(t, vb, r)
  {
    Above(nodes, t.sh, h);
    ClimbStart(t, vb, h, b);
    var n := nodes[h].parent;
    r := ScanList(nodes, masks, t, h, b, off, n, v, vb);
    while r == 0 && n != top
      invariant IsInner(nodes, t.sh, n) && h in t.sh.under[n]
      invariant r != 0 ==> IsAnswer(t, vb, r)
      invariant r == 0 ==> Bounded(t, vb, ParentBit(nodes, t.sh, n))
      decreases nodes[n].bit
    {
      Above(nodes, t.sh, n);
      n := nodes[n].parent;
      r := ScanList(nodes, masks, t, h, b, off, n, v, vb);
    }
    if r == 0 {
      NothingCovers(t, vb);
    }
  }

  lemma NothingCovers(t: Table, vb: Bits)
    requires TreesOk(t) && |vb| >= t.sh.hi && Bounded(t, vb, -1)
    ensures IsAnswer(t, vb, 0)
  {
    forall k: Ptr ensures !Covers(t, k, vb) {
      assert LeafOk(t, k);
    }
  }

  /** Why the all-one query goes wrong: the root leaf hands over to nothing. */
  lemma OnesChain(t: Table, vb: Bits)
    requires Found(t, vb, 3, t.sh.hi)
    ensures AllOnes(t.sh, vb) && (|t.sh.chain[3]| > 1 <==> HasAllOnesRoute(t))
  {
    RootKeys(t);
    assert HeadOk(t.nodes, t.sh, 3) && LeafOk(t, 3);
    if |t.sh.chain[3]| > 1 {
      var k := t.sh.chain[3][1];
      assert Member(t.nodes, t.sh, 3, 1) && LeafOk(t, k) && LeafOk(t, 1);
      MemberCovers(t, vb, 3, t.sh.hi, 1);
      MemberCovers(t, vb, 3, t.sh.hi, 0);
      assert IsRoute(t, k) && AllOnes(t.sh, t.sh.bits[k]);
    }
    if HasAllOnesRoute(t) {
      var k: Ptr :| IsRoute(t, k) && AllOnes(t.sh, t.sh.bits[k]);
      SameChain(t, 3, k);
    }
  }

  /** The all-one query descends to root leaf 3. */
  lemma OnesHead(t: Table, vb: Bits, h: Ptr, b: nat)
    requires Found(t, vb, h, b) && AllOnes(t.sh, vb)
    ensures h == 3 && b == t.sh.hi
  {
    RootKeys(t);
    assert AsClose(t.sh, vb, h, 3) && Agree(vb, t.sh.bits[3], t.sh.lo, t.sh.hi);
    SameChain(t, h, 3);
    var i :| 0 <= i < |t.sh.chain[h]| && t.sh.chain[h][i] == 3;
    assert LeafOk(t, 3) && HeadOk(t.nodes, t.sh, h);
    MemberCovers(t, vb, h, b, i);
  }

  /** The one query that is not answered by the scan's result: the all-one address without a route of its own. */
  ghost predicate Missed(t: Table, vb: Bits)
    requires Sized(t.nodes, t.sh) && |vb| >= t.sh.hi
  {
    AllOnes(t.sh, vb) && !HasAllOnesRoute(t)
  }

  /** How the comparison with a masked head ends: with the whole mask matched, the head is the answer. */
  lemma MaskMatched(t: Table, vb: Bits, h: Ptr, len: nat)
    requires TreesOk(t) && |vb| >= t.sh.hi && IsHead(t.nodes, t.sh, h) && Closest(t.nodes, t.sh, vb, h)
    requires t.nodes[h].mask != 0 && IsLeaf(t.nodes, t.sh, h)
    requires t.sh.lo <= 8 * len <= t.sh.hi ==> Agree(vb, t.sh.bits[h], t.sh.lo, 8 * len)
    requires t.nodes[h].normal ==> t.sh.lo < Index(t.nodes[h].bit) <= 8 * len <= t.sh.hi
    ensures IsAnswer(t, vb, h) && !Missed(t, vb)
  {
    assert HeadOk(t.nodes, t.sh, h) && LeafOk(t, h);
    var b := FindParting(t, vb, h, if t.nodes[h].normal then 8 * len else t.sh.lo);
    MemberCovers(t, vb, h, b, 0);
    BestInChain(t, vb, h, b, 0);
    if AllOnes(t.sh, vb) {
      OnesHead(t, vb, h, b);
    }
  }

  /** How many bytes of the query are compared with a leaf's key. */
  lemma ComparedLength(t: Table, h: Ptr)
    requires TreesOk(t) && IsHead(t.nodes, t.sh, h) && IsLeaf(t.nodes, t.sh, h) && t.nodes[h].mask != 0
    ensures t.nodes[h].mask < |t.masks| && t.masks[t.nodes[h].mask].Leaf? && 0 < |t.masks[t.nodes[h].mask].key|
    ensures 8 * Len(t.masks[t.nodes[h].mask].key) <= t.sh.hi
    ensures t.nodes[h].normal ==> t.sh.lo < Index(t.nodes[h].bit) <= 8 * Len(t.masks[t.nodes[h].mask].key)
  {
    assert LeafOk(t, h);
    if t.nodes[h].normal {
      MaskLength(t.masks, t.maskShape, t.sh.lo / 8, t.nodes[h].mask);
    }
  }

  /** The comparison of the whole key succeeded. */
  method Whole(nodes: seq<Node>, ghost t: Table, h: Ptr, ghost vb: Bits) returns (r: Ptr)
    requires Found(t, vb, h, t.sh.hi) && nodes == t.nodes
    ensures !Missed(t, vb) ==> IsAnswer(t, vb, r)
    ensures Missed(t, vb) ==> r == 0
  {
    assert HeadOk(nodes, t.sh, h) && Member(nodes, t.sh, h, 0) && LeafOk(t, h);
    r := h;
    if nodes[h].root {
      RootHandsOver(t, vb, h);
      r := nodes[h].dup;
      if h == 3 {
        OnesChain(t, vb);
      } else {
        RootKeys(t);
        assert t.sh.bits[1][t.sh.lo] == vb[t.sh.lo];
        if |t.sh.chain[1]| <= 1 {
          ZeroKeyAnswer(t, vb);
        }
      }
    } else {
      WholeMatch(t, vb, h);
      if AllOnes(t.sh, vb) {
        OnesHead(t, vb, h, t.sh.hi);
      }
    }
  }

  /** rn_match. */
  method Match(nodes: seq<Node>, top: Ptr, masks: seq<Node>, ghost t: Table, v: Key, ghost vb: Bits) returns (r: Ptr)
    requires RouteInv(t) && nodes == t.nodes && top == t.sh.top && masks == t.masks && QueryOk(t, v, vb)
    ensures Missed(t, vb) ==> r == 0
    ensures IsAnswer(t, vb, r) <==> !(Missed(t, vb) && exists k: Ptr :: Covers(t, k, vb))
  {
    var h := Search(nodes, top, t.sh, v, vb);
    assert HeadOk(nodes, t.sh, h) && Member(nodes, t.sh, h, 0);
    assert InnerOk(nodes, t.sh, top) && ParentOk(nodes, t.sh, top);
    var vlen := Len(v);
    if nodes[h].mask != 0 {
      ComparedLength(t, h);
      vlen := Len(masks[nodes[h].mask].key);
    }
    var same, j, b := MatchKeys(v, nodes[h].key, nodes[top].offset, vlen, vb, t.sh.bits[h]);
    if same {
      if nodes[h].mask != 0 {
        MaskMatched(t, vb, h, vlen);
        return h;
      }
      r := Whole(nodes, t, h, vb);
    } else {
      r := ScanChain(nodes, masks, t, h, b, j, v, vb);
      if r == 0 {
        r := Climb(nodes, top, masks, t, h, b, j, v, vb);
      }
      if AllOnes(t.sh, vb) {
        OnesHead(t, vb, h, b);
      }
    }
  }
}
