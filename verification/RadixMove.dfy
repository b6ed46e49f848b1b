/** Cells that change without the tree changing: an inner node moves to another cell, unused cells are cleared. */
module RadixMove {

  import opened RadixTree
  import opened RadixInsert
  import opened RadixRoute
  import opened RadixRegrow

  /** Inner node x is copied to cell y and the links to it are redirected. */
  ghost predicate MoveOk(t: Table, x: Ptr, y: Ptr) {
    && TreeInv(t.nodes, t.sh) && IsInner(t.nodes, t.sh, x) && x != t.sh.top && Unused(t.nodes, t.sh, y)
  }

  /** What cell c of the store and of the shape becomes. */
  ghost predicate MovedCell(t: Table, x: Ptr, y: Ptr, u: Table, c: Ptr)
    requires MoveOk(t, x, y) && |u.nodes| == |u.sh.under| == |t.nodes|
  {
    c < |t.nodes| ==>
      var n, from := t.nodes[c], t.nodes[x];
      && (c != x ==>
        u.nodes[c] == (if c == y then from
                       else if (c == from.left || c == from.right) && !n.Blank? then WithParent(n, y)
                       else if c == from.parent && n.Inner? then
                         if n.left == x then n.(left := y) else n.(right := y)
                       else n))
      && u.sh.under[c] == (if c == y then t.sh.under[x] else if c == x then {} else t.sh.under[c])
  }

  ghost predicate Moved(t: Table, x: Ptr, y: Ptr, u: Table) {
    && MoveOk(t, x, y) && Sized(u.nodes, u.sh) && |u.nodes| == |t.nodes|
    && u == t.(nodes := u.nodes, sh := t.sh.(under := u.sh.under))
    && forall c {:trigger MovedCell(t, x, y, u, c)} :: MovedCell(t, x, y, u, c)
  }

  /** The cell that node c is in afterwards. */
  function NewCell(x: Ptr, y: Ptr, c: Ptr): Ptr {
    if c == x then y else c
  }

  /** The links of x lead to other cells. */
  lemma Around(t: Table, x: Ptr, y: Ptr)
    requires MoveOk(t, x, y)
    ensures var n := t.nodes[x]; var p := n.parent;
      && IsInner(t.nodes, t.sh, p) && p != x && p != y && n.left != x && n.right != x && n.left != y && n.right != y
      && n.left != n.right && n.left != p && n.right != p && x != y
      && (t.nodes[p].left == x || t.nodes[p].right == x) && t.nodes[p].left != t.nodes[p].right
      && n.left < |t.nodes| && n.right < |t.nodes| && n.left != t.sh.top && n.right != t.sh.top
  {
    Above(t.nodes, t.sh, x);
    var p := t.nodes[x].parent;
    assert InnerOk(t.nodes, t.sh, x) && InnerOk(t.nodes, t.sh, p);
    TwoSides(t.nodes, t.sh, x);
    TwoSides(t.nodes, t.sh, p);
  }

  /** Which cells are inner nodes afterwards, and what they keep. */
  lemma MovedInner(t: Table, x: Ptr, y: Ptr, u: Table, n: Ptr)
    requires Moved(t, x, y, u) && IsInner(t.nodes, t.sh, n)
    ensures var n' := NewCell(x, y, n);
      && IsInner(u.nodes, u.sh, n') && u.sh.under[n'] == t.sh.under[n] && u.nodes[n'].bit == t.nodes[n].bit
      && u.nodes[n'].bmask == t.nodes[n].bmask && u.nodes[n'].offset == t.nodes[n].offset
      && u.nodes[n'].mklist == t.nodes[n].mklist
  {
    Around(t, x, y);
    assert MovedCell(t, x, y, u, NewCell(x, y, n));
  }

  lemma MovedBack(t: Table, x: Ptr, y: Ptr, u: Table, n': Ptr)
    requires Moved(t, x, y, u) && IsInner(u.nodes, u.sh, n')
    ensures n' != x && IsInner(t.nodes, t.sh, if n' == y then x else n')
  {
    assert MovedCell(t, x, y, u, n');
  }

  lemma MovedLinks(t: Table, x: Ptr, y: Ptr, u: Table, n: Ptr)
    requires Moved(t, x, y, u) && IsInner(t.nodes, t.sh, n) && NewCell(x, y, n) < |u.nodes|
    requires u.nodes[NewCell(x, y, n)].Inner?
    ensures u.nodes[NewCell(x, y, n)].left == NewCell(x, y, t.nodes[n].left)
    ensures u.nodes[NewCell(x, y, n)].right == NewCell(x, y, t.nodes[n].right)
  {
    Around(t, x, y);
    assert MovedCell(t, x, y, u, NewCell(x, y, n));
    assert InnerOk(t.nodes, t.sh, n);
    TwoSides(t.nodes, t.sh, n);
  }

  lemma MovedHead(t: Table, x: Ptr, y: Ptr, u: Table, g: Ptr)
    requires Moved(t, x, y, u)
    ensures IsHead(u.nodes, u.sh, g) <==> IsHead(t.nodes, t.sh, g)
    ensures IsHead(t.nodes, t.sh, g) ==> u.sh.under[g] == t.sh.under[g]
  {
    Around(t, x, y);
    assert MovedCell(t, x, y, u, g);
  }

  /** Upward links follow the move. */
  lemma MovedUp(t: Table, x: Ptr, y: Ptr, u: Table, c: Ptr)
    requires Moved(t, x, y, u) && (IsInner(t.nodes, t.sh, c) || IsHead(t.nodes, t.sh, c)) && c != t.sh.top
    ensures NewCell(x, y, c) < |u.nodes| && !u.nodes[NewCell(x, y, c)].Blank?
    ensures u.nodes[NewCell(x, y, c)].parent == NewCell(x, y, t.nodes[c].parent)
  {
    Around(t, x, y);
    Above(t.nodes, t.sh, c);
    assert InnerOk(t.nodes, t.sh, x);
    assert MovedCell(t, x, y, u, NewCell(x, y, c));
  }

  lemma MovedLeaf(t: Table, x: Ptr, y: Ptr, u: Table, k: Ptr)
    requires Moved(t, x, y, u)
    ensures LeafFrom(t, u, {}, k)
    ensures IsLeaf(t.nodes, t.sh, k) ==> u.nodes[k].lifted == t.nodes[k].lifted && u.nodes[k].dup == t.nodes[k].dup
    ensures IsLeaf(t.nodes, t.sh, k) && t.sh.under[k] == {} ==> u.nodes[k] == t.nodes[k] && u.sh.under[k] == {}
  {
    Around(t, x, y);
    assert InnerOk(t.nodes, t.sh, x);
    assert MovedCell(t, x, y, u, t.sh.top) && MovedCell(t, x, y, u, k);
    TwoSides(t.nodes, t.sh, x);
  }

  lemma MovedKin(t: Table, x: Ptr, y: Ptr, u: Table)
    requires Moved(t, x, y, u)
    ensures Kin(t, u, {})
  {
    forall k: Ptr ensures LeafFrom(t, u, {}, k) { MovedLeaf(t, x, y, u, k); }
  }

  lemma MovedChild(t: Table, x: Ptr, y: Ptr, u: Table, n: Ptr, c: Ptr, side: bool)
    requires Moved(t, x, y, u) && IsInner(t.nodes, t.sh, n) && ChildOk(t.nodes, t.sh, n, c, side)
    ensures IsInner(u.nodes, u.sh, NewCell(x, y, n)) && c < |t.nodes|
    ensures ChildFrom(t, u, {}, NewCell(x, y, n), c, NewCell(x, y, c))
  {
    Around(t, x, y);
    MovedInner(t, x, y, u, n);
    MovedUp(t, x, y, u, c);
    assert t.sh.under[c] - {} == t.sh.under[c];
    if IsInner(t.nodes, t.sh, c) {
      MovedInner(t, x, y, u, c);
    } else {
      MovedHead(t, x, y, u, c);
    }
  }

  lemma MovedStems(t: Table, x: Ptr, y: Ptr, u: Table, n: Ptr)
    requires Moved(t, x, y, u) && IsInner(t.nodes, t.sh, n)
    ensures InnerFrom(t, u, {}, n, NewCell(x, y, n))
  {
    MovedInner(t, x, y, u, n);
    MovedLinks(t, x, y, u, n);
    assert InnerOk(t.nodes, t.sh, n);
    assert t.sh.under[n] - {} == t.sh.under[n];
    MovedChild(t, x, y, u, n, t.nodes[n].left, false);
    MovedChild(t, x, y, u, n, t.nodes[n].right, true);
  }

  lemma MovedHeadOk(t: Table, x: Ptr, y: Ptr, u: Table, h: Ptr)
    requires Moved(t, x, y, u)
    ensures HeadStays(u, h)
  {
    if IsHead(u.nodes, u.sh, h) {
      MovedHead(t, x, y, u, h);
      assert HeadOk(t.nodes, t.sh, h);
      forall i: nat ensures Member(u.nodes, u.sh, h, i) {
        assert Member(t.nodes, t.sh, h, i);
        if i < |t.sh.chain[h]| { MovedLeaf(t, x, y, u, t.sh.chain[h][i]); }
      }
    }
  }

  lemma MovedParent(t: Table, x: Ptr, y: Ptr, u: Table, c': Ptr)
    requires Moved(t, x, y, u)
    ensures ParentStays(u, c')
  {
    if IsInner(u.nodes, u.sh, c') || IsHead(u.nodes, u.sh, c') {
      var c := if c' == y then x else c';
      MovedHead(t, x, y, u, c');
      if IsInner(u.nodes, u.sh, c') { MovedBack(t, x, y, u, c'); }
      Around(t, x, y);
      assert ParentOk(t.nodes, t.sh, c);
      if c == t.sh.top {
        MovedInner(t, x, y, u, c);
        assert MovedCell(t, x, y, u, c);
      } else {
        Above(t.nodes, t.sh, c);
        MovedUp(t, x, y, u, c);
        MovedInner(t, x, y, u, t.nodes[c].parent);
        MovedLinks(t, x, y, u, t.nodes[c].parent);
      }
    }
  }

  /** Moving a node keeps the tree well formed. */
  lemma MovedInv(t: Table, x: Ptr, y: Ptr, u: Table)
    requires Moved(t, x, y, u)
    ensures Kin(t, u, {}) && TreeInv(u.nodes, u.sh) && (KeysOk(t.nodes, t.sh) ==> KeysOk(u.nodes, u.sh))
  {
    MovedKin(t, x, y, u);
    MovedInner(t, x, y, u, t.sh.top);
    forall n: Ptr ensures Stems(t, u, {}, n) {
      if IsInner(u.nodes, u.sh, n) {
        MovedBack(t, x, y, u, n);
        MovedStems(t, x, y, u, if n == y then x else n);
      }
    }
    forall h: Ptr ensures HeadStays(u, h) { MovedHeadOk(t, x, y, u, h); }
    forall c: Ptr ensures ParentStays(u, c) { MovedParent(t, x, y, u, c); }
    GrownInv(t, u, {});
  }

  lemma MovedBit(t: Table, x: Ptr, y: Ptr, u: Table, c: Ptr)
    requires Moved(t, x, y, u) && (IsInner(t.nodes, t.sh, c) || IsHead(t.nodes, t.sh, c))
    ensures ParentBit(u.nodes, u.sh, NewCell(x, y, c)) == ParentBit(t.nodes, t.sh, c)
  {
    Around(t, x, y);
    if c != t.sh.top {
      Above(t.nodes, t.sh, c);
      MovedUp(t, x, y, u, c);
      MovedInner(t, x, y, u, t.nodes[c].parent);
    }
  }

  lemma MovedHeadFrom(t: Table, x: Ptr, y: Ptr, u: Table, h: Ptr)
    requires Moved(t, x, y, u) && IsHead(u.nodes, u.sh, h)
    ensures HeadFrom(t, u, {}, h, h) && h != x
  {
    MovedHead(t, x, y, u, h);
    assert t.sh.under[h] - {} == t.sh.under[h];
  }

  /** Moving a node keeps the routing table right. */
  lemma MovedRoutes(t: Table, x: Ptr, y: Ptr, u: Table)
    requires Moved(t, x, y, u) && RouteInv(t)
    ensures RouteInv(u)
  {
    MovedInv(t, x, y, u);
    forall h: Ptr ensures ChainStems(t, u, {}, h) {
      if IsHead(u.nodes, u.sh, h) { MovedHeadFrom(t, x, y, u, h); }
    }
    TreesGrown(t, u, {});
    forall n: Ptr ensures ListOk(u, {}, n) {
      if IsInner(u.nodes, u.sh, n) { MovedList(t, x, y, u, n); }
    }
    forall h: Ptr, k: Ptr ensures LiftOk(u, h, k) { MovedLift(t, x, y, u, h, k); }
  }

  lemma MovedList(t: Table, x: Ptr, y: Ptr, u: Table, n': Ptr)
    requires Moved(t, x, y, u) && RouteInv(t) && IsInner(u.nodes, u.sh, n')
    ensures ListOk(u, {}, n')
  {
    var n := if n' == y then x else n';
    MovedBack(t, x, y, u, n');
    MovedKin(t, x, y, u);
    MovedStems(t, x, y, u, n);
    MovedInner(t, x, y, u, n);
    MovedBit(t, x, y, u, n);
    assert ListOk(t, {}, n);
    ListGrown(t, u, {}, n, n');
  }

  lemma MovedLift(t: Table, x: Ptr, y: Ptr, u: Table, h: Ptr, k: Ptr)
    requires Moved(t, x, y, u) && RouteInv(t)
    ensures LiftOk(u, h, k)
  {
    if IsHead(u.nodes, u.sh, h) {
      MovedHeadFrom(t, x, y, u, h);
      MovedKin(t, x, y, u);
      MovedBit(t, x, y, u, h);
      MovedLeaf(t, x, y, u, k);
      assert LiftOk(t, h, k);
      LiftGrown(t, u, {}, h, h, k);
    }
  }

  // ---------- unused cells ----------

  /** u has in every cell that is used what t has. */
  ghost predicate SameUsed(t: Table, u: Table) {
    && TreeInv(t.nodes, t.sh) && u == t.(nodes := u.nodes) && |u.nodes| == |t.nodes|
    && forall c: Ptr {:trigger u.nodes[c]} ::
        c < |t.nodes| && (t.sh.under[c] != {} || c in t.sh.under[t.sh.top]) ==> u.nodes[c] == t.nodes[c]
  }

  lemma SameUsedStems(t: Table, u: Table, n: Ptr)
    requires SameUsed(t, u) && IsInner(t.nodes, t.sh, n)
    ensures InnerFrom(t, u, {}, n, n)
  {
    assert InnerOk(t.nodes, t.sh, n);
    var l, r := t.nodes[n].left, t.nodes[n].right;
    assert t.sh.under[l] - {} == t.sh.under[l] && t.sh.under[r] - {} == t.sh.under[r];
    assert t.sh.under[n] - {} == t.sh.under[n];
    TwoSides(t.nodes, t.sh, n);
    assert u.nodes[l] == t.nodes[l] && u.nodes[r] == t.nodes[r];
  }

  lemma SameUsedLeaf(t: Table, u: Table, k: Ptr)
    requires SameUsed(t, u)
    ensures LeafFrom(t, u, {}, k) && (IsHead(u.nodes, u.sh, k) <==> IsHead(t.nodes, t.sh, k))
    ensures IsLeaf(t.nodes, t.sh, k) ==> u.nodes[k] == t.nodes[k]
    ensures IsInner(u.nodes, u.sh, k) <==> IsInner(t.nodes, t.sh, k)
    ensures IsInner(t.nodes, t.sh, k) ==> u.nodes[k] == t.nodes[k]
  {
    if k < |t.nodes| { assert u.nodes[k] == u.nodes[k]; }
  }

  lemma SameUsedHead(t: Table, u: Table, h: Ptr)
    requires SameUsed(t, u)
    ensures HeadStays(u, h) && (IsHead(u.nodes, u.sh, h) ==> HeadFrom(t, u, {}, h, h))
  {
    SameUsedLeaf(t, u, h);
    if IsHead(u.nodes, u.sh, h) {
      assert HeadOk(t.nodes, t.sh, h) && t.sh.under[h] - {} == t.sh.under[h];
      forall i: nat ensures Member(u.nodes, u.sh, h, i) {
        assert Member(t.nodes, t.sh, h, i);
        if i < |t.sh.chain[h]| { SameUsedLeaf(t, u, t.sh.chain[h][i]); }
      }
    }
  }

  lemma SameUsedParent(t: Table, u: Table, c: Ptr)
    requires SameUsed(t, u)
    ensures ParentStays(u, c)
    ensures IsInner(u.nodes, u.sh, c) || IsHead(u.nodes, u.sh, c) ==>
      ParentBit(u.nodes, u.sh, c) == ParentBit(t.nodes, t.sh, c)
  {
    SameUsedLeaf(t, u, c);
    if IsInner(u.nodes, u.sh, c) || IsHead(u.nodes, u.sh, c) {
      assert u.nodes[c] == t.nodes[c] && ParentOk(t.nodes, t.sh, c);
      if c != t.sh.top { SameUsedLeaf(t, u, t.nodes[c].parent); }
    }
  }

  lemma SameUsedInv(t: Table, u: Table)
    requires SameUsed(t, u)
    ensures Kin(t, u, {}) && TreeInv(u.nodes, u.sh) && (KeysOk(t.nodes, t.sh) ==> KeysOk(u.nodes, u.sh))
  {
    forall k: Ptr ensures LeafFrom(t, u, {}, k) { SameUsedLeaf(t, u, k); }
    SameUsedLeaf(t, u, t.sh.top);
    forall n: Ptr ensures Stems(t, u, {}, n) {
      SameUsedLeaf(t, u, n);
      if IsInner(t.nodes, t.sh, n) { SameUsedStems(t, u, n); }
    }
    forall h: Ptr ensures HeadStays(u, h) { SameUsedHead(t, u, h); }
    forall c: Ptr ensures ParentStays(u, c) { SameUsedParent(t, u, c); }
    GrownInv(t, u, {});
  }

  /** What is in cells that no part of the tree uses does not matter. */
  lemma SameUsedRoutes(t: Table, u: Table)
    requires SameUsed(t, u) && RouteInv(t)
    ensures RouteInv(u)
  {
    SameUsedInv(t, u);
    forall h: Ptr ensures ChainStems(t, u, {}, h) { SameUsedHead(t, u, h); }
    TreesGrown(t, u, {});
    forall n: Ptr ensures ListOk(u, {}, n) {
      SameUsedLeaf(t, u, n);
      if IsInner(u.nodes, u.sh, n) {
        SameUsedStems(t, u, n);
        SameUsedParent(t, u, n);
        assert ListOk(t, {}, n);
        ListGrown(t, u, {}, n, n);
      }
    }
    forall h: Ptr, k: Ptr ensures LiftOk(u, h, k) {
      if IsHead(u.nodes, u.sh, h) {
        SameUsedHead(t, u, h);
        SameUsedParent(t, u, h);
        SameUsedLeaf(t, u, k);
        assert LiftOk(t, h, k);
        LiftGrown(t, u, {}, h, h, k);
      }
    }
  }
}
