/** The last leaf of a key goes: with it goes the inner node above, and its mask list entries are demoted. */
module RadixPrune {

  import opened RadixTree
  import opened RadixRoute
  import opened RadixChain
  import opened RadixUnlist
  import opened RadixRegrow

  /** Leaf tt is alone in its chain, and the node above it is not the top. */
  ghost predicate PruneOk(t: Table, tt: Ptr) {
    && TreeInv(t.nodes, t.sh) && IsHead(t.nodes, t.sh, tt) && t.sh.chain[tt] == [tt]
    && t.nodes[tt].parent != t.sh.top
  }

  /** What is below node d besides tt. */
  function Sibling(nodes: seq<Node>, d: Ptr, tt: Ptr): Ptr
    requires d < |nodes| && nodes[d].Inner?
  {
    if nodes[d].left == tt then nodes[d].right else nodes[d].left
  }

  /** The entry of leaf k was on the node that goes, and its chain is now below too early a bit to keep one. */
  ghost predicate Demoted(t: Table, d: Ptr, x: Ptr, k: Ptr)
    requires Sized(t.nodes, t.sh)
  {
    IsHead(t.nodes, t.sh, x) && k in t.sh.under[x] && Belongs(t.nodes, t.sh, d, k)
  }

  /** What cell c of the store becomes, d being the node above tt and x its other child. */
  ghost predicate CutCell(t: Table, tt: Ptr, d: Ptr, x: Ptr, m: seq<Node>, c: Ptr)
    requires Sized(t.nodes, t.sh) && d < |t.nodes| && t.nodes[d].Inner? && |m| == |t.nodes|
  {
    c < |t.nodes| && c != tt && c != d ==>
      var n, p := t.nodes[c], t.nodes[d].parent;
      m[c] == (if c == x && n.Inner? then n.(parent := p, mklist := n.mklist + t.nodes[d].mklist)
               else if n.Leaf? then
                 n.(parent := if c == x then p else n.parent, lifted := n.lifted && !Demoted(t, d, x, c))
               else if c == p && n.Inner? then if n.right == d then n.(right := x) else n.(left := x)
               else n)
  }

  ghost predicate Pruned(t: Table, tt: Ptr, d: Ptr, x: Ptr, u: Table) {
    && PruneOk(t, tt) && d == t.nodes[tt].parent && d < |t.nodes| && t.nodes[d].Inner?
    && x == Sibling(t.nodes, d, tt)
    && Sized(u.nodes, u.sh) && |u.nodes| == |t.nodes|
    && u == t.(nodes := u.nodes, sh := t.sh.(under := u.sh.under, chain := u.sh.chain))
    && (forall c {:trigger CutCell(t, tt, d, x, u.nodes, c)} :: CutCell(t, tt, d, x, u.nodes, c))
    && (forall c {:trigger u.sh.under[c]} :: 0 <= c < |t.nodes| ==>
        u.sh.under[c] == if c == tt || c == d then {} else t.sh.under[c] - {tt})
    && u.sh.chain == t.sh.chain[tt := []]
  }

  /** Who is who around the pair that goes. */
  lemma Neighbours(t: Table, tt: Ptr, d: Ptr, x: Ptr)
    requires PruneOk(t, tt) && d == t.nodes[tt].parent && d < |t.nodes| && t.nodes[d].Inner?
    requires x == Sibling(t.nodes, d, tt)
    ensures IsInner(t.nodes, t.sh, d) && t.sh.under[tt] == {tt} && IsLeaf(t.nodes, t.sh, tt)
    ensures x < |t.nodes| && t.sh.under[x] != {} && tt !in t.sh.under[x]
    ensures t.sh.under[d] == t.sh.under[x] + {tt} && t.sh.under[d] - {tt} == t.sh.under[x]
    ensures ((IsInner(t.nodes, t.sh, x) && t.nodes[x].bit > t.nodes[d].bit) || IsHead(t.nodes, t.sh, x))
    ensures x != t.sh.top && t.nodes[x].parent == d && x != tt && x != d
    ensures {t.nodes[d].left, t.nodes[d].right} == {tt, x} && tt != t.sh.top
  {
    HeadInTop(t.nodes, t.sh, tt);
    Above(t.nodes, t.sh, tt);
    TwoSides(t.nodes, t.sh, d);
    assert InnerOk(t.nodes, t.sh, d) && HeadOk(t.nodes, t.sh, tt);
    assert tt in t.sh.under[tt];
  }

  lemma Grandparent(t: Table, tt: Ptr, d: Ptr, x: Ptr)
    requires PruneOk(t, tt) && d == t.nodes[tt].parent && d < |t.nodes| && t.nodes[d].Inner?
    requires x == Sibling(t.nodes, d, tt)
    ensures var p := t.nodes[d].parent;
      && IsInner(t.nodes, t.sh, p) && p != d && p != x && p != tt && (t.nodes[p].left == d || t.nodes[p].right == d)
      && t.nodes[p].left != t.nodes[p].right && t.nodes[p].bit < t.nodes[d].bit
      && t.nodes[p].bit == ParentBit(t.nodes, t.sh, d)
  {
    Neighbours(t, tt, d, x);
    Above(t.nodes, t.sh, d);
    TwoSides(t.nodes, t.sh, t.nodes[d].parent);
    if IsInner(t.nodes, t.sh, x) { assert t.nodes[x].bit > t.nodes[d].bit; }
  }

  lemma PrunedLeaf(t: Table, tt: Ptr, d: Ptr, x: Ptr, u: Table, k: Ptr)
    requires Pruned(t, tt, d, x, u)
    ensures LeafFrom(t, u, {tt}, k)
    ensures IsLeaf(u.nodes, u.sh, k) && IsLeaf(t.nodes, t.sh, k) ==>
      && u.nodes[k].lifted == (t.nodes[k].lifted && !Demoted(t, d, x, k)) && u.nodes[k].dup == t.nodes[k].dup
      && (k != x ==> u.nodes[k].parent == t.nodes[k].parent)
  {
    Neighbours(t, tt, d, x);
    assert CutCell(t, tt, d, x, u.nodes, k);
    assert u.sh.under[t.sh.top] == t.sh.under[t.sh.top] - {tt};
  }

  lemma PrunedKin(t: Table, tt: Ptr, d: Ptr, x: Ptr, u: Table)
    requires Pruned(t, tt, d, x, u)
    ensures Kin(t, u, {tt})
  {
    forall k: Ptr ensures LeafFrom(t, u, {tt}, k) { PrunedLeaf(t, tt, d, x, u, k); }
  }

  /** An inner node other than d has another leaf than tt below it. */
  lemma PrunedInner(t: Table, tt: Ptr, d: Ptr, x: Ptr, u: Table, n: Ptr)
    requires Pruned(t, tt, d, x, u)
    ensures IsInner(u.nodes, u.sh, n) <==> IsInner(t.nodes, t.sh, n) && n != d
    ensures IsInner(t.nodes, t.sh, n) && n != d ==>
      && u.nodes[n].bit == t.nodes[n].bit && u.nodes[n].bmask == t.nodes[n].bmask
      && u.nodes[n].offset == t.nodes[n].offset && u.sh.under[n] == t.sh.under[n] - {tt}
      && u.nodes[n].mklist == (if n == x then t.nodes[n].mklist + t.nodes[d].mklist else t.nodes[n].mklist)
      && u.nodes[n].parent == (if n == x then t.nodes[d].parent else t.nodes[n].parent)
  {
    Neighbours(t, tt, d, x);
    assert CutCell(t, tt, d, x, u.nodes, n);
    if IsInner(t.nodes, t.sh, n) { TwoBelow(t.nodes, t.sh, n, tt); }
  }

  lemma PrunedHead(t: Table, tt: Ptr, d: Ptr, x: Ptr, u: Table, g: Ptr)
    requires Pruned(t, tt, d, x, u)
    ensures IsHead(u.nodes, u.sh, g) <==> IsHead(t.nodes, t.sh, g) && g != tt
    ensures IsHead(t.nodes, t.sh, g) && g != tt ==>
      && tt !in t.sh.under[g] && u.sh.under[g] == t.sh.under[g] && u.sh.chain[g] == t.sh.chain[g] && u.nodes[g].Leaf?
      && u.nodes[g].parent == (if g == x then t.nodes[d].parent else t.nodes[g].parent)
  {
    Neighbours(t, tt, d, x);
    assert CutCell(t, tt, d, x, u.nodes, g);
    if IsHead(t.nodes, t.sh, g) && g != tt && tt in t.sh.under[g] { OnlyHead(t.nodes, t.sh, g, tt); }
  }

  lemma PrunedLinks(t: Table, tt: Ptr, d: Ptr, x: Ptr, u: Table, n: Ptr)
    requires Pruned(t, tt, d, x, u) && IsInner(t.nodes, t.sh, n) && n != d && u.nodes[n].Inner?
    ensures u.nodes[n].left == (if t.nodes[n].left == d then x else t.nodes[n].left)
    ensures u.nodes[n].right == (if t.nodes[n].right == d then x else t.nodes[n].right)
    ensures t.nodes[n].left != tt && t.nodes[n].right != tt && t.nodes[n].left != x && t.nodes[n].right != x
  {
    Neighbours(t, tt, d, x);
    Grandparent(t, tt, d, x);
    assert InnerOk(t.nodes, t.sh, n) && CutCell(t, tt, d, x, u.nodes, n);
  }

  lemma PrunedChild(t: Table, tt: Ptr, d: Ptr, x: Ptr, u: Table, n: Ptr, c: Ptr, side: bool)
    requires Pruned(t, tt, d, x, u) && IsInner(t.nodes, t.sh, n) && n != d && ChildOk(t.nodes, t.sh, n, c, side)
    ensures IsInner(u.nodes, u.sh, n) && c < |t.nodes|
    ensures ChildFrom(t, u, {tt}, n, c, if c == d then x else c)
  {
    Neighbours(t, tt, d, x);
    PrunedInner(t, tt, d, x, u, n);
    var c' := if c == d then x else c;
    PrunedInner(t, tt, d, x, u, c');
    PrunedHead(t, tt, d, x, u, c');
    assert t.sh.under[x] - {tt} == t.sh.under[x];
    if IsHead(t.nodes, t.sh, c') { assert t.sh.under[c'] - {tt} == t.sh.under[c']; }
  }

  lemma PrunedStems(t: Table, tt: Ptr, d: Ptr, x: Ptr, u: Table, n: Ptr)
    requires Pruned(t, tt, d, x, u)
    ensures IsInner(u.nodes, u.sh, n) ==> InnerFrom(t, u, {tt}, n, n)
  {
    PrunedInner(t, tt, d, x, u, n);
    if IsInner(u.nodes, u.sh, n) {
      assert InnerOk(t.nodes, t.sh, n);
      PrunedLinks(t, tt, d, x, u, n);
      PrunedChild(t, tt, d, x, u, n, t.nodes[n].left, false);
      PrunedChild(t, tt, d, x, u, n, t.nodes[n].right, true);
    }
  }

  lemma PrunedHeadOk(t: Table, tt: Ptr, d: Ptr, x: Ptr, u: Table, h: Ptr)
    requires Pruned(t, tt, d, x, u)
    ensures HeadStays(u, h)
  {
    if IsHead(u.nodes, u.sh, h) {
      PrunedHead(t, tt, d, x, u, h);
      assert HeadOk(t.nodes, t.sh, h);
      forall i: nat ensures Member(u.nodes, u.sh, h, i) { PrunedMember(t, tt, d, x, u, h, i); }
    }
  }

  lemma PrunedMember(t: Table, tt: Ptr, d: Ptr, x: Ptr, u: Table, h: Ptr, i: nat)
    requires Pruned(t, tt, d, x, u) && IsHead(t.nodes, t.sh, h) && h != tt
    ensures Member(u.nodes, u.sh, h, i)
  {
    PrunedHead(t, tt, d, x, u, h);
    assert HeadOk(t.nodes, t.sh, h) && Member(t.nodes, t.sh, h, i);
    if i < |t.sh.chain[h]| {
      var k := t.sh.chain[h][i];
      PrunedLeaf(t, tt, d, x, u, k);
      assert k in t.sh.under[h];
      Neighbours(t, tt, d, x);
      assert i > 0 ==> t.sh.under[k] - {tt} == {};
    }
  }

  lemma PrunedParent(t: Table, tt: Ptr, d: Ptr, x: Ptr, u: Table, c: Ptr)
    requires Pruned(t, tt, d, x, u)
    ensures ParentStays(u, c)
  {
    if IsInner(u.nodes, u.sh, c) || IsHead(u.nodes, u.sh, c) {
      PrunedInner(t, tt, d, x, u, c);
      PrunedHead(t, tt, d, x, u, c);
      Neighbours(t, tt, d, x);
      Grandparent(t, tt, d, x);
      assert ParentOk(t.nodes, t.sh, c);
      if c == x {
        PrunedInner(t, tt, d, x, u, t.nodes[d].parent);
        PrunedLinks(t, tt, d, x, u, t.nodes[d].parent);
      } else if c != t.sh.top {
        PrunedInner(t, tt, d, x, u, t.nodes[c].parent);
        PrunedLinks(t, tt, d, x, u, t.nodes[c].parent);
      }
    }
  }

  /** The tree without the pair is well formed. */
  lemma PrunedInv(t: Table, tt: Ptr, d: Ptr, x: Ptr, u: Table)
    requires Pruned(t, tt, d, x, u)
    ensures Kin(t, u, {tt}) && TreeInv(u.nodes, u.sh) && (KeysOk(t.nodes, t.sh) ==> KeysOk(u.nodes, u.sh))
  {
    PrunedKin(t, tt, d, x, u);
    PrunedInner(t, tt, d, x, u, t.sh.top);
    forall n: Ptr ensures Stems(t, u, {tt}, n) { PrunedStems(t, tt, d, x, u, n); }
    forall h: Ptr ensures HeadStays(u, h) { PrunedHeadOk(t, tt, d, x, u, h); }
    forall c: Ptr ensures ParentStays(u, c) { PrunedParent(t, tt, d, x, u, c); }
    GrownInv(t, u, {tt});
  }

  // ---------- the routing table ----------

  lemma PrunedBit(t: Table, tt: Ptr, d: Ptr, x: Ptr, u: Table, c: Ptr)
    requires Pruned(t, tt, d, x, u) && (IsInner(u.nodes, u.sh, c) || IsHead(u.nodes, u.sh, c))
    ensures ParentBit(u.nodes, u.sh, c) == ParentBit(t.nodes, t.sh, if c == x then d else c)
  {
    PrunedInner(t, tt, d, x, u, c);
    PrunedHead(t, tt, d, x, u, c);
    Neighbours(t, tt, d, x);
    Grandparent(t, tt, d, x);
    if c == x {
      PrunedInner(t, tt, d, x, u, t.nodes[d].parent);
    } else if c != t.sh.top {
      Above(t.nodes, t.sh, c);
      PrunedInner(t, tt, d, x, u, t.nodes[c].parent);
    }
  }

  /** The sibling's list takes over what was on the node above it. */
  lemma PrunedBelongs(t: Table, tt: Ptr, d: Ptr, x: Ptr, u: Table, k: Ptr)
    requires Pruned(t, tt, d, x, u) && IsInner(t.nodes, t.sh, x)
    ensures Belongs(u.nodes, u.sh, x, k) <==>
      k != tt && (Belongs(t.nodes, t.sh, x, k) || Belongs(t.nodes, t.sh, d, k))
    ensures IsLeaf(u.nodes, u.sh, k) ==>
      k < |t.nodes| && t.nodes[k].Leaf? && EntryOf(u.nodes, k) == EntryOf(t.nodes, k)
  {
    Neighbours(t, tt, d, x);
    Grandparent(t, tt, d, x);
    PrunedInner(t, tt, d, x, u, x);
    PrunedLeaf(t, tt, d, x, u, k);
    PrunedBit(t, tt, d, x, u, x);
    Above(t.nodes, t.sh, x);
  }

  lemma PrunedSorted(t: Table, tt: Ptr, d: Ptr, x: Ptr)
    requires LeavingInv(t, tt) && IsInner(t.nodes, t.sh, x) && IsInner(t.nodes, t.sh, d)
    requires ParentBit(t.nodes, t.sh, x) == t.nodes[d].bit
    ensures Sorted(t.nodes[x].mklist + t.nodes[d].mklist)
  {
    var l, r := t.nodes[x].mklist, t.nodes[d].mklist;
    assert ListOk(t, {tt}, x) && ListOk(t, {tt}, d);
    forall e | e in l ensures Index(e.bit) > t.nodes[d].bit { assert EntryFrom(t, {tt}, x, e); }
    forall e | e in r ensures Index(e.bit) <= t.nodes[d].bit { assert EntryFrom(t, {tt}, d, e); }
    SortedJoin(l, r, t.nodes[d].bit);
  }

  lemma SortedJoin(l: seq<MaskEntry>, r: seq<MaskEntry>, b: int)
    requires Sorted(l) && Sorted(r) && (forall e :: e in l ==> Index(e.bit) > b)
    requires forall e :: e in r ==> Index(e.bit) <= b
    ensures Sorted(l + r)
  {
    forall i, j | 0 <= i < j < |l + r| ensures (l + r)[i].bit < (l + r)[j].bit {
      assert i < |l| ==> l[i] in l;
      assert j >= |l| ==> r[j - |l|] in r;
    }
  }

  lemma PrunedListAtX(t: Table, tt: Ptr, d: Ptr, x: Ptr, u: Table)
    requires Pruned(t, tt, d, x, u) && LeavingInv(t, tt) && IsInner(u.nodes, u.sh, x)
    ensures ListOk(u, {}, x)
  {
    Neighbours(t, tt, d, x);
    PrunedInner(t, tt, d, x, u, x);
    Above(t.nodes, t.sh, x);
    assert ListOk(t, {tt}, x) && ListOk(t, {tt}, d);
    PrunedSorted(t, tt, d, x);
    forall e | e in u.nodes[x].mklist ensures EntryFrom(u, {}, x, e) {
      var n := if e in t.nodes[x].mklist then x else d;
      assert EntryFrom(t, {tt}, n, e);
      var k: Ptr :| k !in {tt} && Belongs(t.nodes, t.sh, n, k) && e == EntryOf(t.nodes, k);
      PrunedBelongs(t, tt, d, x, u, k);
      assert k !in {} && Belongs(u.nodes, u.sh, x, k);
    }
    forall k: Ptr | Belongs(u.nodes, u.sh, x, k) ensures EntryOf(u.nodes, k) in u.nodes[x].mklist {
      PrunedBelongs(t, tt, d, x, u, k);
      assert k !in {tt};
    }
  }

  lemma PrunedList(t: Table, tt: Ptr, d: Ptr, x: Ptr, u: Table, n: Ptr)
    requires Pruned(t, tt, d, x, u) && LeavingInv(t, tt) && IsInner(u.nodes, u.sh, n) && n != x
    ensures ListOk(u, {}, n)
  {
    PrunedKin(t, tt, d, x, u);
    PrunedStems(t, tt, d, x, u, n);
    PrunedInner(t, tt, d, x, u, n);
    PrunedBit(t, tt, d, x, u, n);
    assert ListOk(t, {tt}, n);
    ListGrown(t, u, {tt}, n, n);
  }

  lemma PrunedHeadFrom(t: Table, tt: Ptr, d: Ptr, x: Ptr, u: Table, h: Ptr)
    requires Pruned(t, tt, d, x, u) && IsHead(u.nodes, u.sh, h)
    ensures HeadFrom(t, u, {tt}, h, h)
  {
    PrunedHead(t, tt, d, x, u, h);
    assert t.sh.under[h] - {tt} == t.sh.under[h];
  }

  /** A leaf of the sibling's chain stays lifted if its entry is above the node that goes. */
  lemma PrunedLiftAtX(t: Table, tt: Ptr, d: Ptr, x: Ptr, u: Table, k: Ptr)
    requires Pruned(t, tt, d, x, u) && LeavingInv(t, tt) && IsHead(u.nodes, u.sh, x)
    ensures LiftOk(u, x, k)
  {
    Neighbours(t, tt, d, x);
    Grandparent(t, tt, d, x);
    PrunedHead(t, tt, d, x, u, x);
    PrunedLeaf(t, tt, d, x, u, k);
    PrunedBit(t, tt, d, x, u, x);
    Above(t.nodes, t.sh, x);
    assert k != tt ==> LiftOk(t, x, k);
  }

  lemma PrunedLift(t: Table, tt: Ptr, d: Ptr, x: Ptr, u: Table, h: Ptr, k: Ptr)
    requires Pruned(t, tt, d, x, u) && LeavingInv(t, tt) && IsHead(u.nodes, u.sh, h) && h != x
    ensures LiftOk(u, h, k)
  {
    PrunedHeadFrom(t, tt, d, x, u, h);
    if k in t.sh.under[h] {
      PrunedKin(t, tt, d, x, u);
      PrunedBit(t, tt, d, x, u, h);
      PrunedLeaf(t, tt, d, x, u, k);
      assert k != tt ==> LiftOk(t, h, k);
      if Demoted(t, d, x, k) {
        assert HeadOk(t.nodes, t.sh, h) && HeadOk(t.nodes, t.sh, x);
        ChainsApart(t.nodes, t.sh, h, x, k);
      }
      LiftGrown(t, u, {tt}, h, h, k);
    }
  }

  /** A leaf without an entry that is alone in its chain can go: the rest is a right table. */
  lemma PrunedRoutes(t: Table, tt: Ptr, d: Ptr, x: Ptr, u: Table)
    requires Pruned(t, tt, d, x, u) && LeavingInv(t, tt) && tt != 1 && tt != 3
    ensures RouteInv(u)
  {
    PrunedInv(t, tt, d, x, u);
    forall h: Ptr ensures ChainStems(t, u, {tt}, h) {
      if IsHead(u.nodes, u.sh, h) { PrunedHeadFrom(t, tt, d, x, u, h); }
    }
    TreesGrown(t, u, {tt});
    forall n: Ptr ensures ListOk(u, {}, n) {
      if IsInner(u.nodes, u.sh, n) {
        if n == x { PrunedListAtX(t, tt, d, x, u); } else { PrunedList(t, tt, d, x, u, n); }
      }
    }
    forall h: Ptr, k: Ptr ensures LiftOk(u, h, k) {
      if IsHead(u.nodes, u.sh, h) {
        if h == x { PrunedLiftAtX(t, tt, d, x, u, k); } else { PrunedLift(t, tt, d, x, u, h, k); }
      }
    }
  }
}
