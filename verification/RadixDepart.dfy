/** The ways a route can go, put together: who holds which cell afterwards, and that nothing else changed. */
module RadixDepart {

  import opened RadixTree
  import opened RadixInsert
  import opened RadixHead
  import opened RadixRoute
  import opened RadixChain
  import opened RadixAdd
  import opened RadixUnlist
  import opened RadixRegrow
  import opened RadixLeave
  import opened RadixMove
  import opened RadixPrune
  import opened RadixPairs

  /** u has the routes of t but for k. */
  ghost predicate Removed(t: Table, u: Table, k: Ptr) {
    && Sized(t.nodes, t.sh) && Sized(u.nodes, u.sh) && u.sh.lo == t.sh.lo && u.sh.hi == t.sh.hi
    && IsRoute(t, k) && !IsLeaf(u.nodes, u.sh, k)
    && forall j: Ptr {:trigger SameRoute(t, u, j)} :: j != k ==> SameRoute(t, u, j)
  }

  lemma KinRoute(t: Table, u: Table, gone: set<Ptr>, k: Ptr)
    requires Kin(t, u, gone) && k !in gone
    ensures SameRoute(t, u, k)
  {
    assert LeafFrom(t, u, gone, k);
  }

  /** Routes go with a first step and nothing happens to them in a second. */
  lemma RemovedThen(t: Table, w: Table, u: Table, k: Ptr)
    requires Removed(t, w, k) && Kin(w, u, {})
    ensures Removed(t, u, k)
  {
    assert LeafFrom(w, u, {}, k);
    forall j: Ptr | j != k ensures SameRoute(t, u, j) {
      assert SameRoute(t, w, j);
      KinRoute(w, u, {}, j);
    }
  }

  lemma KinRemoves(t: Table, u: Table, k: Ptr)
    requires Kin(t, u, {k}) && IsRoute(t, k)
    ensures Removed(t, u, k)
  {
    assert LeafFrom(t, u, {k}, k);
    forall j: Ptr | j != k ensures SameRoute(t, u, j) { KinRoute(t, u, {k}, j); }
  }

  /** A table ready to lose route k of the chain at h. */
  ghost predicate Ready(t: Table, h: Ptr, k: Ptr) {
    && LeavingInv(t, k) && PairsInv(t) && IsHead(t.nodes, t.sh, h) && k in t.sh.under[h] && IsRoute(t, k)
  }

  lemma NotRoot(t: Table, h: Ptr, k: Ptr)
    requires Ready(t, h, k)
    ensures k != 1 && k != 3 && k > 0
  {
    assert LeafOk(t, k);
  }

  // ---------- leaving a chain ----------

  lemma ExitCells(t: Table, e: Exit, u: Table, c: Ptr)
    requires LeftChain(t, e, u)
    ensures IsRoute(u, c) <==> IsRoute(t, c) && c != e.tt
    ensures IsInner(u.nodes, u.sh, c) <==> IsInner(t.nodes, t.sh, c)
    ensures Unused(t.nodes, t.sh, c) ==> Unused(u.nodes, u.sh, c) && u.nodes[c] == t.nodes[c]
    ensures Unused(u.nodes, u.sh, e.tt)
  {
    ExitTop(t, e, u);
    ExitLeaf(t, e, u, c);
    ExitInner(t, e, u, c);
    assert Exited(t, e, u, c) && Exited(t, e, u, e.tt);
    if Unused(t.nodes, t.sh, c) { ExitUnused(t, e, u, c); }
  }

  lemma ExitUnused(t: Table, e: Exit, u: Table, c: Ptr)
    requires LeftChain(t, e, u) && Unused(t.nodes, t.sh, c)
    ensures u.nodes[c] == t.nodes[c]
  {
    ExitTop(t, e, u);
    assert Exited(t, e, u, c);
    ChainFacts(t, e, 0);
    ChainFacts(t, e, 1);
    if e.i > 0 { ChainFacts(t, e, e.i - 1); }
    if e.i + 1 < |t.sh.chain[e.h]| { ChainFacts(t, e, e.i + 1); }
    HeadInTop(t.nodes, t.sh, e.h);
    Above(t.nodes, t.sh, e.h);
  }

  lemma ExitHeads(t: Table, e: Exit, u: Table, g: Ptr)
    requires LeftChain(t, e, u)
    ensures DepartureHead(t, u, e.tt, g)
  {
    if IsHead(u.nodes, u.sh, g) { ExitHeadFrom(t, e, u, g); }
  }

  /** A route that holds no node leaves its chain. */
  lemma LeaveDeparts(t: Table, e: Exit, u: Table)
    requires LeftChain(t, e, u) && Ready(t, e.h, e.tt) && !Holds(t, e.tt)
    ensures Departed(t, u, e.h, e.tt, 0) && RouteInv(u) && Removed(t, u, e.tt)
  {
    NotRoot(t, e.h, e.tt);
    ExitInv(t, e, u);
    ExitRoutes(t, e, u);
    KinRemoves(t, u, e.tt);
    assert PairOk(t, e.tt);
    ExitCells(t, e, u, e.tt + 1);
    forall c: Ptr ensures Departure(t, u, e.tt, 0, c) { ExitCells(t, e, u, c); }
    forall g: Ptr ensures DepartureHead(t, u, e.tt, g) { ExitHeads(t, e, u, g); }
  }

  /** The first route left in the chain of a route that holds a node has room for that node. */
  lemma RoomLeft(t: Table, e: Exit, u: Table)
    requires LeftChain(t, e, u) && Ready(t, e.h, e.tt) && Holds(t, e.tt)
    ensures var f := FirstLeft(t, e);
      && IsRoute(t, f) && f in t.sh.under[e.h] && f != e.tt && f > 0 && MoveOk(u, e.tt + 1, f + 1)
      && Unused(t.nodes, t.sh, f + 1)
  {
    var f := FirstLeft(t, e);
    ExitTop(t, e, u);
    assert OneHolds(t, e.h) && LeafOk(t, f);
    assert !HasRoot(t, e.h);
    assert PairOk(t, f) && PairOk(t, e.tt);
    assert !Holds(t, f);
    ExitCells(t, e, u, f + 1);
    ExitCells(t, e, u, e.tt + 1);
    ExitInv(t, e, u);
  }

  // ---------- moving ----------

  lemma MovedCells(t: Table, x: Ptr, y: Ptr, u: Table, c: Ptr)
    requires Moved(t, x, y, u)
    ensures IsRoute(u, c) <==> IsRoute(t, c)
    ensures IsInner(u.nodes, u.sh, c) <==> (IsInner(t.nodes, t.sh, c) && c != x) || c == y
    ensures Unused(t.nodes, t.sh, c) && c != y ==> Unused(u.nodes, u.sh, c) && u.nodes[c] == t.nodes[c]
    ensures Unused(u.nodes, u.sh, x) && x != y
  {
    Around(t, x, y);
    MovedLeaf(t, x, y, u, c);
    MovedLeaf(t, x, y, u, x);
    assert MovedCell(t, x, y, u, c) && MovedCell(t, x, y, u, x);
    if IsInner(t.nodes, t.sh, c) { MovedInner(t, x, y, u, c); }
    MovedInner(t, x, y, u, x);
    if IsInner(u.nodes, u.sh, c) { MovedBack(t, x, y, u, c); }
    assert InnerOk(t.nodes, t.sh, x);
    TwoSides(t.nodes, t.sh, x);
  }

  lemma ThenMoved(t: Table, w: Table, x: Ptr, y: Ptr, u: Table, k: Ptr, g: Ptr)
    requires Moved(w, x, y, u) && Sized(t.nodes, t.sh) && DepartureHead(t, w, k, g)
    ensures DepartureHead(t, u, k, g)
  {
    MovedHead(w, x, y, u, g);
  }

  /** A route leaves its chain, and the node it held moves to the first route left. */
  lemma LeaveMoveDeparts(t: Table, e: Exit, w: Table, u: Table)
    requires LeftChain(t, e, w) && Ready(t, e.h, e.tt) && Holds(t, e.tt)
    requires Moved(w, e.tt + 1, FirstLeft(t, e) + 1, u)
    ensures Departed(t, u, e.h, e.tt, FirstLeft(t, e)) && RouteInv(u) && Removed(t, u, e.tt)
  {
    var x, f := e.tt + 1, FirstLeft(t, e);
    NotRoot(t, e.h, e.tt);
    RoomLeft(t, e, w);
    ExitInv(t, e, w);
    ExitRoutes(t, e, w);
    KinRemoves(t, w, e.tt);
    MovedInv(w, x, f + 1, u);
    MovedRoutes(w, x, f + 1, u);
    RemovedThen(t, w, u, e.tt);
    ExitCells(t, e, w, e.tt);
    MovedCells(w, x, f + 1, u, e.tt);
    forall c: Ptr ensures Departure(t, u, e.tt, f, c) {
      ExitCells(t, e, w, c);
      MovedCells(w, x, f + 1, u, c);
    }
    forall g: Ptr ensures DepartureHead(t, u, e.tt, g) {
      ExitHeads(t, e, w, g);
      ThenMoved(t, w, x, f + 1, u, e.tt, g);
    }
  }

  // ---------- pruning ----------

  lemma PrunedCells(t: Table, tt: Ptr, d: Ptr, x: Ptr, u: Table, c: Ptr)
    requires Pruned(t, tt, d, x, u)
    ensures IsRoute(u, c) <==> IsRoute(t, c) && c != tt
    ensures IsInner(u.nodes, u.sh, c) <==> IsInner(t.nodes, t.sh, c) && c != d
    ensures Unused(t.nodes, t.sh, c) ==>
      Unused(u.nodes, u.sh, c) && (t.nodes[c].Inner? || !u.nodes[c].Inner?)
    ensures Unused(u.nodes, u.sh, tt) && Unused(u.nodes, u.sh, d)
  {
    Neighbours(t, tt, d, x);
    PrunedLeaf(t, tt, d, x, u, c);
    PrunedLeaf(t, tt, d, x, u, tt);
    PrunedLeaf(t, tt, d, x, u, d);
    PrunedInner(t, tt, d, x, u, c);
    assert CutCell(t, tt, d, x, u.nodes, c);
    assert u.sh.under[tt] == {} && u.sh.under[d] == {};
  }

  lemma PrunedHeads(t: Table, tt: Ptr, d: Ptr, x: Ptr, u: Table, g: Ptr)
    requires Pruned(t, tt, d, x, u)
    ensures DepartureHead(t, u, tt, g)
  {
    if IsHead(u.nodes, u.sh, g) { PrunedHeadFrom(t, tt, d, x, u, g); }
  }

  /** A route alone in its chain holds a node, and the node above it is not the top. */
  lemma AloneHolds(t: Table, tt: Ptr)
    requires Ready(t, tt, tt) && t.sh.chain[tt] == [tt]
    ensures Holds(t, tt) && PruneOk(t, tt) && t.sh.under[tt] == {tt}
  {
    NotRoot(t, tt, tt);
    assert HeadOk(t.nodes, t.sh, tt) && OneHolds(t, tt);
    assert t.sh.under[tt] == {tt};
    assert !HasRoot(t, tt);
    NotBelowTop(t, tt);
  }

  /** Each side of the top has a root leaf. */
  lemma NotBelowTop(t: Table, tt: Ptr)
    requires TreesOk(t) && IsHead(t.nodes, t.sh, tt) && t.sh.under[tt] == {tt} && tt != 1 && tt != 3
    ensures t.nodes[tt].parent != t.sh.top
  {
    var top := t.sh.top;
    HeadInTop(t.nodes, t.sh, tt);
    Above(t.nodes, t.sh, tt);
    assert InnerOk(t.nodes, t.sh, top) && ParentOk(t.nodes, t.sh, top);
    RootSides(t);
    Side(t.nodes, t.sh, top, t.nodes[top].left, 1);
    Side(t.nodes, t.sh, top, t.nodes[top].right, 3);
  }

  lemma RootSides(t: Table)
    requires TreesOk(t)
    ensures !t.sh.bits[1][t.sh.lo] && t.sh.bits[3][t.sh.lo]
  {
    RootBits(t.sh.bits[1], t.sh.bits[3], t.sh.lo);
  }

  /** The node above the route is the one it holds. */
  lemma PruneDeparts(t: Table, tt: Ptr, x: Ptr, u: Table)
    requires Pruned(t, tt, tt + 1, x, u) && Ready(t, tt, tt) && t.sh.under[tt] == {tt}
    ensures Departed(t, u, tt, tt, 0) && RouteInv(u) && Removed(t, u, tt)
  {
    NotRoot(t, tt, tt);
    PrunedInv(t, tt, tt + 1, x, u);
    PrunedRoutes(t, tt, tt + 1, x, u);
    KinRemoves(t, u, tt);
    PrunedCells(t, tt, tt + 1, x, u, tt);
    forall c: Ptr ensures Departure(t, u, tt, 0, c) { PrunedCells(t, tt, tt + 1, x, u, c); }
    forall g: Ptr ensures DepartureHead(t, u, tt, g) { PrunedHeads(t, tt, tt + 1, x, u, g); }
  }

  /** The node that the route holds takes the cell of the one that went. */
  lemma PruneMoveDeparts(t: Table, tt: Ptr, d: Ptr, x: Ptr, w: Table, u: Table)
    requires Pruned(t, tt, d, x, w) && Ready(t, tt, tt) && t.sh.under[tt] == {tt} && Holds(t, tt) && d != tt + 1
    requires Moved(w, tt + 1, d, u)
    ensures Departed(t, u, tt, tt, 0) && RouteInv(u) && Removed(t, u, tt)
  {
    NotRoot(t, tt, tt);
    PrunedInv(t, tt, d, x, w);
    PrunedRoutes(t, tt, d, x, w);
    KinRemoves(t, w, tt);
    MovedInv(w, tt + 1, d, u);
    MovedRoutes(w, tt + 1, d, u);
    RemovedThen(t, w, u, tt);
    PrunedCells(t, tt, d, x, w, tt);
    Neighbours(t, tt, d, x);
    MovedCells(w, tt + 1, d, u, tt);
    forall c: Ptr ensures Departure(t, u, tt, 0, c) {
      PrunedCells(t, tt, d, x, w, c);
      MovedCells(w, tt + 1, d, u, c);
    }
    forall g: Ptr ensures DepartureHead(t, u, tt, g) {
      PrunedHeads(t, tt, d, x, w, g);
      ThenMoved(t, w, tt + 1, d, u, tt, g);
    }
  }

  // ---------- clearing ----------

  /** The end of rn_delete: neither cell of the pair is active. */
  function Cleared(nodes: seq<Node>, k: Ptr): seq<Node>
    requires k + 1 < |nodes|
  {
    nodes[k := Blank][k + 1 := Blank]
  }

  /** What rn_delete promises about the route it returns. */
  ghost predicate Deleted(t: Table, u: Table, k: Ptr) {
    && RouteInv(u) && PairsInv(u) && Removed(t, u, k) && Spare(u, k)
    && forall c: Ptr :: Spare(t, c) ==> Spare(u, c)
  }

  lemma ClearedDeparts(t: Table, w: Table, u: Table, h: Ptr, k: Ptr, f: Ptr)
    requires Departed(t, w, h, k, f) && u == w.(nodes := Cleared(w.nodes, k)) && RouteInv(w) && Removed(t, w, k)
    ensures Deleted(t, u, k)
  {
    SameUsedInv(w, u);
    SameUsedRoutes(w, u);
    RemovedThen(t, w, u, k);
    forall c: Ptr ensures Departure(t, u, k, f, c) {
      assert Departure(t, w, k, f, c);
      SameUsedLeaf(w, u, c);
    }
    forall g: Ptr ensures DepartureHead(t, u, k, g) {
      assert DepartureHead(t, w, k, g);
      SameUsedLeaf(w, u, g);
    }
    DepartedPairs(t, u, h, k, f);
  }
}
