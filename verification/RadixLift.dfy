/** The last step of rn_addroute: the mask list entry of a new leaf, on the highest node it applies to. */
module RadixLift {

  import opened RadixBits
  import opened RadixTree
  import opened RadixInsert
  import opened RadixRoute
  import opened RadixMatch
  import opened RadixChain

  /** No node over a leaf tests a later bit than the parent of its chain. */
  lemma {:induction false} Deepest(nodes: seq<Node>, sh: Shape, n: Ptr, h: Ptr, k: Ptr)
    requires TreeInv(nodes, sh) && IsInner(nodes, sh, n) && IsHead(nodes, sh, h) && k in sh.under[n] && k in sh.under[h]
    ensures nodes[n].bit <= ParentBit(nodes, sh, h)
    decreases sh.hi - nodes[n].bit
  {
    OneKey(nodes, sh, h, k);
    var c := if sh.bits[k][nodes[n].bit] then nodes[n].right else nodes[n].left;
    Side(nodes, sh, n, c, k);
    if IsInner(nodes, sh, c) {
      Deepest(nodes, sh, c, h, k);
    } else {
      assert HeadOk(nodes, sh, c) && HeadOk(nodes, sh, h);
      if c != h { ChainsApart(nodes, sh, c, h, k); }
    }
  }

  /** Leaves with one key and one index are one leaf. */
  lemma OneLeaf(t: Table, h: Ptr, j: Ptr, k: Ptr)
    requires TreesOk(t) && IsHead(t.nodes, t.sh, h) && k in t.sh.under[h] && IsLeaf(t.nodes, t.sh, j)
    requires IsLeaf(t.nodes, t.sh, k)
    requires Agree(t.sh.bits[j], t.sh.bits[k], t.sh.lo, t.sh.hi) && Rank(t.nodes, t.sh, j) == Rank(t.nodes, t.sh, k)
    ensures j == k
  {
    OneKey(t.nodes, t.sh, h, k);
    SameChain(t, h, j);
    assert HeadOk(t.nodes, t.sh, h) && ChainOk(t, h);
    var p :| 0 <= p < |t.sh.chain[h]| && t.sh.chain[h][p] == j;
    var q :| 0 <= q < |t.sh.chain[h]| && t.sh.chain[h][q] == k;
    assert InOrder(t, h, p, q) && InOrder(t, h, q, p);
  }

  /** A node's list has room for one entry of each index only: no list has an entry of the new leaf's index. */
  lemma NoRival(t: Table, h: Ptr, n: Ptr, j: Ptr, k: Ptr)
    requires TreesOk(t) && IsHead(t.nodes, t.sh, h) && k in t.sh.under[h]
    requires Belongs(t.nodes, t.sh, n, j) && Belongs(t.nodes, t.sh, n, k) && t.nodes[j].bit == t.nodes[k].bit
    ensures j == k
  {
    assert LeafOk(t, j) && LeafOk(t, k);
    assert Alike(t.nodes, t.sh, n, j, k);
    OneLeaf(t, h, j, k);
  }

  /** Without a node to lift the entry to, nothing is left to do. */
  lemma NothingToLift(t: Table, h: Ptr, k: Ptr)
    requires PendingInv(t, k) && IsHead(t.nodes, t.sh, h) && k in t.sh.under[h]
    requires t.nodes[k].mask == 0 || Index(t.nodes[k].bit) > ParentBit(t.nodes, t.sh, h)
    ensures RouteInv(t)
  {
    forall n: Ptr ensures ListOk(t, {}, n) {
      assert ListOk(t, {k}, n);
      if Belongs(t.nodes, t.sh, n, k) {
        Deepest(t.nodes, t.sh, n, h, k);
      }
      NoPending(t, k, n);
    }
    forall g: Ptr, j: Ptr ensures LiftOk(t, g, j) {
      if j == k && IsHead(t.nodes, t.sh, g) && k in t.sh.under[g] {
        assert HeadOk(t.nodes, t.sh, g) && HeadOk(t.nodes, t.sh, h);
        if g != h { ChainsApart(t.nodes, t.sh, g, h, k); }
      }
    }
  }

  lemma NoPending(t: Table, k: Ptr, n: Ptr)
    requires TreesOk(t) && ListOk(t, {k}, n) && !Belongs(t.nodes, t.sh, n, k)
    ensures ListOk(t, {}, n)
  {
    if IsInner(t.nodes, t.sh, n) {
      forall e | e in t.nodes[n].mklist ensures EntryFrom(t, {}, n, e) {
        var j: Ptr :| j !in {k} && Belongs(t.nodes, t.sh, n, j) && e == EntryOf(t.nodes, j);
      }
      forall j: Ptr | Belongs(t.nodes, t.sh, n, j) ensures EntryOf(t.nodes, j) in t.nodes[n].mklist {
        assert j !in {k};
      }
    }
  }

  /** Two versions of a cell that differ only in the mask list or the lifted mark. */
  predicate SameLabels(a: Node, b: Node) {
    SameLinks(a, b) &&
    (a.Leaf? && b.Leaf? ==> a.bit == b.bit && a.mask == b.mask && a.normal == b.normal && a.root == b.root)
  }

  ghost predicate Relisted(t: Table, u: Table) {
    && u == t.(nodes := u.nodes) && |u.nodes| == |t.nodes|
    && forall c {:trigger u.nodes[c]} :: 0 <= c < |u.nodes| ==> SameLabels(t.nodes[c], u.nodes[c])
  }

  lemma RelistedBelongs(t: Table, u: Table, n: Ptr, k: Ptr)
    requires Relisted(t, u) && Sized(t.nodes, t.sh)
    ensures Sized(u.nodes, u.sh) && (Belongs(u.nodes, u.sh, n, k) <==> Belongs(t.nodes, t.sh, n, k))
    ensures IsLeaf(t.nodes, t.sh, k) ==> k < |u.nodes| && u.nodes[k].Leaf? && EntryOf(u.nodes, k) == EntryOf(t.nodes, k)
  {
    if n < |t.nodes| { assert SameLabels(t.nodes[n], u.nodes[n]); }
    if k < |t.nodes| { assert SameLabels(t.nodes[k], u.nodes[k]); }
    if n < |t.nodes| && !t.nodes[n].Blank? && t.nodes[n].parent < |t.nodes| {
      assert SameLabels(t.nodes[t.nodes[n].parent], u.nodes[t.nodes[n].parent]);
    }
  }

  lemma RelistedChain(t: Table, u: Table, h: Ptr)
    requires TreesOk(t) && Relisted(t, u)
    ensures Sized(u.nodes, u.sh) && ChainOk(u, h)
  {
    if IsHead(u.nodes, u.sh, h) {
      assert SameLabels(t.nodes[h], u.nodes[h]);
      assert ChainOk(t, h);
      forall i: nat, j: nat ensures InOrder(u, h, i, j) {
        assert InOrder(t, h, i, j);
        if i < j < |u.sh.chain[h]| {
          assert SameLabels(t.nodes[t.sh.chain[h][i]], u.nodes[t.sh.chain[h][i]]);
          assert SameLabels(t.nodes[t.sh.chain[h][j]], u.nodes[t.sh.chain[h][j]]);
        }
      }
    }
  }

  lemma RelistedTrees(t: Table, u: Table)
    requires TreesOk(t) && Relisted(t, u)
    ensures TreesOk(u)
  {
    RelabelledInv(t.nodes, u.nodes, t.sh);
    forall k: Ptr ensures LeafOk(u, k) {
      if IsLeaf(u.nodes, u.sh, k) {
        assert SameLabels(t.nodes[k], u.nodes[k]) && LeafOk(t, k);
      }
    }
    forall h: Ptr ensures ChainOk(u, h) {
      RelistedChain(t, u, h);
    }
    assert SameLabels(t.nodes[1], u.nodes[1]) && SameLabels(t.nodes[3], u.nodes[3]);
  }

  /** A list that is not touched stays right. */
  lemma RelistedList(t: Table, u: Table, pending: set<Ptr>, n: Ptr)
    requires Relisted(t, u) && Sized(t.nodes, t.sh) && ListOk(t, pending, n)
    requires n < |t.nodes| && t.nodes[n].Inner? ==> u.nodes[n].Inner? && u.nodes[n].mklist == t.nodes[n].mklist
    ensures Sized(u.nodes, u.sh) && ListOk(u, pending, n)
  {
    if IsInner(u.nodes, u.sh, n) {
      assert SameLabels(t.nodes[n], u.nodes[n]);
      forall e | e in u.nodes[n].mklist ensures EntryFrom(u, pending, n, e) {
        var j: Ptr :| j !in pending && Belongs(t.nodes, t.sh, n, j) && e == EntryOf(t.nodes, j);
        RelistedBelongs(t, u, n, j);
      }
      forall j: Ptr | j !in pending && Belongs(u.nodes, u.sh, n, j) ensures EntryOf(u.nodes, j) in u.nodes[n].mklist {
        RelistedBelongs(t, u, n, j);
      }
    }
  }

  /** The table after the entry of leaf k went into the list of node y at position i. */
  function Lifted(t: Table, y: Ptr, i: nat, k: Ptr): Table
    requires y < |t.nodes| && k < |t.nodes| && t.nodes[y].Inner? && t.nodes[k].Leaf? && i <= |t.nodes[y].mklist|
  {
    var l := t.nodes[y].mklist;
    t.(nodes := t.nodes[y := t.nodes[y].(mklist := l[..i] + [EntryOf(t.nodes, k)] + l[i..])]
                       [k := t.nodes[k].(lifted := true)])
  }

  ghost predicate LiftPlace(t: Table, h: Ptr, y: Ptr, i: nat, k: Ptr) {
    && PendingInv(t, k) && IsHead(t.nodes, t.sh, h) && k in t.sh.under[h] && Belongs(t.nodes, t.sh, y, k)
    && i <= |t.nodes[y].mklist|
    && (forall q :: 0 <= q < i ==> t.nodes[y].mklist[q].bit < t.nodes[k].bit)
    && (forall q :: i <= q < |t.nodes[y].mklist| ==> t.nodes[y].mklist[q].bit > t.nodes[k].bit)
  }

  lemma LiftedLabels(t: Table, h: Ptr, y: Ptr, i: nat, k: Ptr)
    requires LiftPlace(t, h, y, i, k)
    ensures Relisted(t, Lifted(t, y, i, k)) && TreesOk(Lifted(t, y, i, k))
  {
    RelistedTrees(t, Lifted(t, y, i, k));
  }

  lemma LiftedListAtY(t: Table, h: Ptr, y: Ptr, i: nat, k: Ptr)
    requires LiftPlace(t, h, y, i, k)
    ensures Sized(Lifted(t, y, i, k).nodes, t.sh) && ListOk(Lifted(t, y, i, k), {}, y)
  {
    var u := Lifted(t, y, i, k);
    LiftedLabels(t, h, y, i, k);
    assert ListOk(t, {k}, y);
    var l, r := t.nodes[y].mklist, u.nodes[y].mklist;
    forall e | e in r ensures EntryFrom(u, {}, y, e) {
      if e == EntryOf(t.nodes, k) {
        RelistedBelongs(t, u, y, k);
        assert Belongs(u.nodes, u.sh, y, k);
      } else {
        assert e in l;
        var j: Ptr :| j !in {k} && Belongs(t.nodes, t.sh, y, j) && e == EntryOf(t.nodes, j);
        RelistedBelongs(t, u, y, j);
        assert Belongs(u.nodes, u.sh, y, j);
      }
    }
    forall j: Ptr | Belongs(u.nodes, u.sh, y, j) ensures EntryOf(u.nodes, j) in r {
      RelistedBelongs(t, u, y, j);
      assert r[i] == EntryOf(t.nodes, k);
      if j != k { InsertKeeps(l, i, EntryOf(t.nodes, k), EntryOf(t.nodes, j)); }
    }
  }

  lemma InsertKeeps<T>(l: seq<T>, i: nat, x: T, e: T)
    requires i <= |l| && e in l
    ensures e in l[..i] + [x] + l[i..]
  {
    var q :| 0 <= q < |l| && l[q] == e;
    assert (l[..i] + [x] + l[i..])[if q < i then q else q + 1] == e;
  }

  lemma LiftedListElsewhere(t: Table, h: Ptr, y: Ptr, i: nat, k: Ptr, n: Ptr)
    requires LiftPlace(t, h, y, i, k) && n != y
    ensures Sized(Lifted(t, y, i, k).nodes, t.sh) && ListOk(Lifted(t, y, i, k), {}, n)
  {
    var u := Lifted(t, y, i, k);
    LiftedLabels(t, h, y, i, k);
    assert ListOk(t, {k}, n);
    if Belongs(t.nodes, t.sh, n, k) {
      SameNode(t.nodes, t.sh, n, y, k);
    }
    NoPending(t, k, n);
    RelistedList(t, u, {}, n);
  }

  /** Lifting the entry completes the table. */
  lemma LiftedInv(t: Table, h: Ptr, y: Ptr, i: nat, k: Ptr)
    requires LiftPlace(t, h, y, i, k)
    ensures RouteInv(Lifted(t, y, i, k))
  {
    var u := Lifted(t, y, i, k);
    LiftedLabels(t, h, y, i, k);
    forall n: Ptr ensures ListOk(u, {}, n) {
      if n == y {
        LiftedListAtY(t, h, y, i, k);
      } else {
        LiftedListElsewhere(t, h, y, i, k, n);
      }
    }
    forall g: Ptr, j: Ptr ensures LiftOk(u, g, j) {
      LiftedLift(t, h, y, i, k, g, j);
    }
  }

  lemma LiftedLift(t: Table, h: Ptr, y: Ptr, i: nat, k: Ptr, g: Ptr, j: Ptr)
    requires LiftPlace(t, h, y, i, k)
    ensures Sized(Lifted(t, y, i, k).nodes, t.sh) && LiftOk(Lifted(t, y, i, k), g, j)
  {
    var u := Lifted(t, y, i, k);
    LiftedLabels(t, h, y, i, k);
    if IsHead(u.nodes, u.sh, g) && IsLeaf(u.nodes, u.sh, j) && j in u.sh.under[g] {
      assert SameLabels(t.nodes[g], u.nodes[g]) && SameLabels(t.nodes[j], u.nodes[j]);
      Above(t.nodes, t.sh, g);
      assert SameLabels(t.nodes[t.nodes[g].parent], u.nodes[t.nodes[g].parent]);
      if j != k {
        assert LiftOk(t, g, j);
      } else {
        Deepest(t.nodes, t.sh, y, g, k);
      }
    }
  }
}
