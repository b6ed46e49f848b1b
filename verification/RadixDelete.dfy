/** rn_delete on the stores: the mask list, the chain or the pair, and the cell of the inner node. */
module RadixDelete {

  import opened RadixTree
  import opened RadixRoute
  import opened RadixChain
  import opened RadixLift
  import opened RadixAdd
  import opened RadixUnlist
  import opened RadixRegrow
  import opened RadixLeave
  import opened RadixMove
  import opened RadixPrune
  import opened RadixPairs
  import opened RadixDepart
  import opened RadixDemote

  // ---------- the mask list ----------

  method FindEntry(l: seq<MaskEntry>, e: MaskEntry) returns (i: nat)
    requires e in l
    ensures i < |l| && l[i] == e
  {
    i := 0;
    while i < |l| && l[i] != e
      invariant 0 <= i <= |l| && e in l[i..]
    {
      i := i + 1;
    }
  }

  /** Up to label on1: the entry of leaf tt leaves the mask list it is in, if it is in one. */
  method Delist(nodes: seq<Node>, top: Ptr, ghost t: Table, h: Ptr, tt: Ptr) returns (m: seq<Node>)
    requires RouteInv(t) && nodes == t.nodes && top == t.sh.top && IsHead(nodes, t.sh, h) && tt in t.sh.under[h]
    requires IsLeaf(nodes, t.sh, tt)
    ensures Relisted(t, t.(nodes := m)) && LeavingInv(t.(nodes := m), tt) && (nodes[tt].mask == 0 ==> m == nodes)
  {
    m := nodes;
    Above(nodes, t.sh, h);
    assert LiftOk(t, h, tt);
    if nodes[tt].mask == 0 || !nodes[tt].lifted || Index(nodes[tt].bit) > nodes[nodes[h].parent].bit {
      NeverListed(t, h, tt);
      assert t.(nodes := m) == t;
      return;
    }
    var y := HighestNode(nodes, top, t, h, tt);
    assert ListOk(t, {}, y);
    var l := nodes[y].mklist;
    var i := FindEntry(l, EntryOf(nodes, tt));
    m := nodes[y := nodes[y].(mklist := Without(l, i))];
    UnlistedInv(t, h, y, i, tt);
    UnlistedLabels(t, h, y, i, tt);
  }

  // ---------- leaving a chain ----------

  ghost function LeftShape(t: Table, e: Exit): Shape
    requires ExitOk(t, e) && FirstLeft(t, e) < |t.nodes| && e.tt < |t.nodes|
  {
    t.sh.(under := seq(|t.sh.under|, c requires 0 <= c < |t.sh.under| =>
                     if c == e.tt then {} else if c == FirstLeft(t, e) then t.sh.under[e.h] - {e.tt}
                     else t.sh.under[c] - {e.tt}),
          chain := t.sh.chain[e.tt := []][FirstLeft(t, e) := Without(t.sh.chain[e.h], e.i)])
  }

  lemma ExitPlaces(t: Table, e: Exit)
    requires ExitOk(t, e)
    ensures FirstLeft(t, e) < |t.nodes| && e.tt < |t.nodes| && FirstLeft(t, e) != t.sh.top && e.tt != t.sh.top
  {
    ChainFacts(t, e, 0);
    ChainFacts(t, e, 1);
    ChainFacts(t, e, e.i);
  }

  lemma LeftByCells(t: Table, e: Exit, m: seq<Node>)
    requires ExitOk(t, e) && |m| == |t.nodes| && forall c: Ptr :: Unlinked(t, e, m, c)
    requires FirstLeft(t, e) < |t.nodes| && e.tt < |t.nodes| && FirstLeft(t, e) != t.sh.top && e.tt != t.sh.top
    ensures LeftChain(t, e, t.(nodes := m, sh := LeftShape(t, e)))
  {
    HeadInTop(t.nodes, t.sh, e.h);
  }

  /** Remove the head of the chain: the second member takes its place. */
  method LeaveFirst(nodes: seq<Node>, ghost t: Table, ghost e: Exit, h: Ptr) returns (m: seq<Node>, x: Ptr)
    requires ExitOk(t, e) && nodes == t.nodes && e.h == e.tt == h && e.i == 0
    ensures |m| == |nodes| && (forall c: Ptr :: Unlinked(t, e, m, c)) && x == FirstLeft(t, e)
  {
    HeadInTop(nodes, t.sh, h);
    Above(nodes, t.sh, h);
    ChainFacts(t, e, 0);
    ChainFacts(t, e, 1);
    var p := nodes[h].parent;
    x := nodes[h].dup;
    m := nodes[x := WithParent(nodes[x], p)];
    if m[p].left == h {
      m := m[p := m[p].(left := x)];
    } else {
      m := m[p := m[p].(right := x)];
    }
  }

  /** The member in front of tt. */
  method Before(nodes: seq<Node>, ghost t: Table, ghost e: Exit, h: Ptr, tt: Ptr) returns (p: Ptr)
    requires ExitOk(t, e) && nodes == t.nodes && e.h == h && e.tt == tt && e.i > 0
    ensures p == t.sh.chain[h][e.i - 1]
  {
    p := h;
    ghost var j := 0;
    ChainFacts(t, e, 0);
    ChainFacts(t, e, e.i);
    while nodes[p].dup != tt
      invariant j < e.i && p == t.sh.chain[h][j] && IsLeaf(nodes, t.sh, p)
      invariant nodes[p].dup == t.sh.chain[h][j + 1]
      decreases e.i - j
    {
      ChainFacts(t, e, j + 1);
      p, j := nodes[p].dup, j + 1;
    }
    ChainFacts(t, e, j + 1);
  }

  /** Remove a later member: the one in front of it links to the one behind. */
  method LeaveAfter(nodes: seq<Node>, ghost t: Table, ghost e: Exit, h: Ptr, tt: Ptr) returns (m: seq<Node>)
    requires ExitOk(t, e) && nodes == t.nodes && e.h == h && e.tt == tt && e.i > 0
    ensures |m| == |nodes| && forall c: Ptr :: Unlinked(t, e, m, c)
  {
    var p := Before(nodes, t, e, h, tt);
    ChainFacts(t, e, e.i - 1);
    ChainFacts(t, e, e.i);
    if e.i + 1 < |t.sh.chain[h]| { ChainFacts(t, e, e.i + 1); }
    var next := nodes[tt].dup;
    m := nodes[p := nodes[p].(dup := next)];
    if next != 0 {
      m := m[next := WithParent(m[next], p)];
    }
  }

  // ---------- moving ----------

  ghost function MovedShape(t: Table, x: Ptr, y: Ptr): Shape
    requires x < |t.sh.under| && y < |t.sh.under|
  {
    t.sh.(under := t.sh.under[x := {}][y := t.sh.under[x]])
  }

  lemma MovedByCells(t: Table, x: Ptr, y: Ptr, m: seq<Node>)
    requires MoveOk(t, x, y) && |m| == |t.nodes|
    requires var u := t.(nodes := m, sh := MovedShape(t, x, y)); forall c: Ptr :: MovedCell(t, x, y, u, c)
    ensures Moved(t, x, y, t.(nodes := m, sh := MovedShape(t, x, y)))
  {}

  /** Copy inner node x to cell y, and redirect the links to it. */
  method MoveNode(nodes: seq<Node>, ghost t: Table, x: Ptr, y: Ptr) returns (m: seq<Node>)
    requires MoveOk(t, x, y) && nodes == t.nodes
    ensures Moved(t, x, y, t.(nodes := m, sh := MovedShape(t, x, y)))
  {
    Around(t, x, y);
    assert InnerOk(nodes, t.sh, x);
    m := nodes[y := nodes[x]];
    var p := m[y].parent;
    if m[p].left == x {
      m := m[p := m[p].(left := y)];
    } else {
      m := m[p := m[p].(right := y)];
    }
    m := m[m[y].left := WithParent(m[m[y].left], y)];
    m := m[m[y].right := WithParent(m[m[y].right], y)];
    MovedByCells(t, x, y, m);
  }

  // ---------- pruning ----------

  /** What cell c is once the sibling hangs on the grandparent. */
  ghost predicate Rehung(t: Table, d: Ptr, x: Ptr, m: seq<Node>, c: Ptr)
    requires d < |t.nodes| && t.nodes[d].Inner? && |m| == |t.nodes|
  {
    c < |m| ==>
      var n, p := t.nodes[c], t.nodes[d].parent;
      m[c] == (if c == x && !n.Blank? then WithParent(n, p)
               else if c == p && n.Inner? then if n.right == d then n.(right := x) else n.(left := x)
               else n)
  }

  method Rehang(nodes: seq<Node>, ghost t: Table, ghost tt: Ptr, d: Ptr, x: Ptr) returns (m: seq<Node>)
    requires Cutting(t, tt, d, x) && nodes == t.nodes
    ensures |m| == |nodes| && forall c: Ptr {:trigger Rehung(t, d, x, m, c)} :: Rehung(t, d, x, m, c)
  {
    Neighbours(t, tt, d, x);
    Grandparent(t, tt, d, x);
    var p := nodes[d].parent;
    if nodes[p].right == d {
      m := nodes[p := nodes[p].(right := x)];
    } else {
      m := nodes[p := nodes[p].(left := x)];
    }
    m := m[x := WithParent(m[x], p)];
  }

  lemma CutInner(t: Table, tt: Ptr, d: Ptr, x: Ptr, m: seq<Node>, r: seq<Node>, c: Ptr)
    requires Cutting(t, tt, d, x) && |m| == |t.nodes| && Rehung(t, d, x, m, c) && x < |m|
    requires IsInner(t.nodes, t.sh, x) && m[x].Inner? && m[x].mklist == t.nodes[x].mklist
    requires r == m[x := m[x].(mklist := m[x].mklist + t.nodes[d].mklist)]
    ensures CutCell(t, tt, d, x, r, c)
  {
    Grandparent(t, tt, d, x);
  }

  lemma CutHead(t: Table, tt: Ptr, d: Ptr, x: Ptr, m: seq<Node>, r: seq<Node>, c: Ptr)
    requires Cutting(t, tt, d, x) && |m| == |t.nodes| && Rehung(t, d, x, m, c) && x < |m|
    requires IsHead(t.nodes, t.sh, x) && CellsFreed(t, d, x, m, r, |t.sh.chain[x]|)
    ensures CutCell(t, tt, d, x, r, c)
  {
    var n := |t.sh.chain[x]|;
    Grandparent(t, tt, d, x);
    assert HeadOk(t.nodes, t.sh, x) && CellFreed(t, d, x, m, r, n, c);
    if Demoted(t, d, x, c) {
      var a :| 0 <= a < n && t.sh.chain[x][a] == c;
      assert DemotedAt(t, d, x, a);
    } else {
      assert !exists a :: 0 <= a < n && DemotedAt(t, d, x, a) && t.sh.chain[x][a] == c;
    }
  }

  lemma RehungChain(t: Table, tt: Ptr, d: Ptr, x: Ptr, m: seq<Node>)
    requires Cutting(t, tt, d, x) && |m| == |t.nodes| && x < |m| && IsHead(t.nodes, t.sh, x)
    requires forall c: Ptr {:trigger Rehung(t, d, x, m, c)} :: Rehung(t, d, x, m, c)
    ensures SameChainCells(t, x, m) && m[d] == t.nodes[d]
  {
    Neighbours(t, tt, d, x);
    Grandparent(t, tt, d, x);
    assert Rehung(t, d, x, m, d);
    forall k: Ptr | IsLeaf(t.nodes, t.sh, k) && k in t.sh.under[x]
      ensures m[k].Leaf? && m[k] == t.nodes[k].(parent := m[k].parent)
    {
      assert Rehung(t, d, x, m, k);
    }
  }

  /** With nothing on the list nothing is demoted. */
  lemma NoDemotion(t: Table, tt: Ptr, d: Ptr, x: Ptr, m: seq<Node>, c: Ptr)
    requires Cutting(t, tt, d, x) && |m| == |t.nodes| && Rehung(t, d, x, m, c) && x < |m| && t.nodes[d].mklist == []
    ensures CutCell(t, tt, d, x, m, c)
  {
    Neighbours(t, tt, d, x);
    Grandparent(t, tt, d, x);
    assert ListOk(t, {tt}, d);
    assert !Demoted(t, d, x, c);
  }

  /** Hang the sibling on the grandparent and demote the routes attached to the node in between. */
  method Prune(nodes: seq<Node>, ghost t: Table, ghost tt: Ptr, d: Ptr, x: Ptr) returns (r: seq<Node>)
    requires Cutting(t, tt, d, x) && nodes == t.nodes
    ensures |r| == |nodes| && forall c: Ptr {:trigger CutCell(t, tt, d, x, r, c)} :: CutCell(t, tt, d, x, r, c)
  {
    Neighbours(t, tt, d, x);
    Grandparent(t, tt, d, x);
    var m := Rehang(nodes, t, tt, d, x);
    assert Rehung(t, d, x, m, d) && Rehung(t, d, x, m, x);
    if m[d].mklist == [] {
      forall c: Ptr ensures CutCell(t, tt, d, x, m, c) { NoDemotion(t, tt, d, x, m, c); }
      return m;
    }
    if m[x].bit >= 0 {
      r := m[x := m[x].(mklist := m[x].mklist + m[d].mklist)];
      forall c: Ptr ensures CutCell(t, tt, d, x, r, c) { CutInner(t, tt, d, x, m, r, c); }
    } else {
      RehungChain(t, tt, d, x, m);
      var left;
      r, left := DemoteChain(m, t, tt, d, x);
      forall c: Ptr ensures CutCell(t, tt, d, x, r, c) { CutHead(t, tt, d, x, m, r, c); }
    }
  }

  ghost function PrunedShape(t: Table, tt: Ptr, d: Ptr): Shape
    requires tt < |t.sh.chain|
  {
    t.sh.(under := seq(|t.sh.under|, c requires 0 <= c < |t.sh.under| =>
                     if c == tt || c == d then {} else t.sh.under[c] - {tt}),
          chain := t.sh.chain[tt := []])
  }

  lemma PrunedByCells(t: Table, tt: Ptr, d: Ptr, x: Ptr, m: seq<Node>)
    requires Cutting(t, tt, d, x) && |m| == |t.nodes|
    requires forall c: Ptr {:trigger CutCell(t, tt, d, x, m, c)} :: CutCell(t, tt, d, x, m, c)
    ensures tt < |t.sh.chain| && Pruned(t, tt, d, x, t.(nodes := m, sh := PrunedShape(t, tt, d)))
  {
    Neighbours(t, tt, d, x);
    HeadInTop(t.nodes, t.sh, tt);
  }

  // ---------- from label on1 to the end ----------

  /** RNF_ACTIVE of the second cell tells whether the route holds a node. */
  lemma Active(t: Table, e: Exit, u: Table)
    requires LeftChain(t, e, u) && Ready(t, e.h, e.tt)
    ensures e.tt + 1 < |u.nodes| && (u.nodes[e.tt + 1].Inner? <==> Holds(t, e.tt))
  {
    assert PairOk(t, e.tt);
    ExitCells(t, e, u, e.tt + 1);
    ExitInner(t, e, u, e.tt + 1);
  }

  method LeaveChain(nodes: seq<Node>, ghost t: Table, ghost e: Exit, h: Ptr, tt: Ptr)
    returns (m: seq<Node>, x: Ptr, ghost w: Table)
    requires ExitOk(t, e) && nodes == t.nodes && e.h == h && e.tt == tt && (e.i == 0 <==> tt == h)
    ensures LeftChain(t, e, w) && w == t.(nodes := m, sh := w.sh) && x == FirstLeft(t, e) && w.sh.top == t.sh.top
  {
    ExitPlaces(t, e);
    x := h;
    if tt == h {
      m, x := LeaveFirst(nodes, t, e, h);
    } else {
      m := LeaveAfter(nodes, t, e, h, tt);
    }
    LeftByCells(t, e, m);
    w := t.(nodes := m, sh := LeftShape(t, e));
  }

  /** The node that tt held moves to the second cell of x, unless tt held none. */
  method HandOn(nodes: seq<Node>, ghost t: Table, ghost e: Exit, ghost w: Table, tt: Ptr, x: Ptr)
    returns (m: seq<Node>, ghost th: Shape)
    requires LeftChain(t, e, w) && Ready(t, e.h, e.tt) && nodes == w.nodes && tt == e.tt && x == FirstLeft(t, e)
    ensures var u := w.(nodes := m, sh := th);
      && Departed(t, u, e.h, tt, if Holds(t, tt) then x else 0) && RouteInv(u) && Removed(t, u, tt)
      && th.top == t.sh.top
  {
    m, th := nodes, w.sh;
    Active(t, e, w);
    if m[tt + 1].Inner? {
      RoomLeft(t, e, w);
      m := MoveNode(m, w, tt + 1, x + 1);
      th := MovedShape(w, tt + 1, x + 1);
      LeaveMoveDeparts(t, e, w, w.(nodes := m, sh := th));
    } else {
      LeaveDeparts(t, e, w);
      assert w == w.(nodes := m, sh := th);
    }
  }

  /** Others have the same key: leave the chain, hand the node on, clear the pair. */
  method DeleteTwin(nodes: seq<Node>, ghost t: Table, h: Ptr, tt: Ptr) returns (m: seq<Node>, ghost th: Shape)
    requires Ready(t, h, tt) && nodes == t.nodes && nodes[h].dup != 0
    ensures Deleted(t, t.(nodes := m, sh := th), tt) && th.top == t.sh.top
  {
    ghost var e := FindExit(t, h, tt);
    var x;
    ghost var w;
    m, x, w := LeaveChain(nodes, t, e, h, tt);
    m, th := HandOn(m, t, e, w, tt, x);
    ClearedDeparts(t, t.(nodes := m, sh := th), t.(nodes := Cleared(m, tt), sh := th), h, tt,
        if Holds(t, tt) then x else 0);
    m := m[tt := Blank];
    m := m[tt + 1 := Blank];
  }

  lemma FindExit(t: Table, h: Ptr, tt: Ptr) returns (e: Exit)
    requires Ready(t, h, tt) && t.nodes[h].dup != 0
    ensures ExitOk(t, e) && e.h == h && e.tt == tt && (e.i == 0 <==> tt == h)
  {
    assert HeadOk(t.nodes, t.sh, h) && Member(t.nodes, t.sh, h, 0);
    var i :| 0 <= i < |t.sh.chain[h]| && t.sh.chain[h][i] == tt;
    e := Exit(h, i, tt);
  }

  /** The last route of its key: prune the tree, keep the node it held, clear the pair. */
  method DeleteAlone(nodes: seq<Node>, ghost t: Table, tt: Ptr) returns (m: seq<Node>, ghost th: Shape)
    requires Ready(t, tt, tt) && nodes == t.nodes && t.sh.chain[tt] == [tt]
    ensures Deleted(t, t.(nodes := m, sh := th), tt) && th.top == t.sh.top
  {
    AloneHolds(t, tt);
    Above(nodes, t.sh, tt);
    var d := nodes[tt].parent;
    var x := if nodes[d].left == tt then nodes[d].right else nodes[d].left;
    m := Prune(nodes, t, tt, d, x);
    PrunedByCells(t, tt, d, x, m);
    th := PrunedShape(t, tt, d);
    ghost var w := t.(nodes := m, sh := th);
    if d != tt + 1 {
      PruneRoom(t, tt, d, x, w);
      m := MoveNode(m, w, tt + 1, d);
      th := MovedShape(w, tt + 1, d);
      PruneMoveDeparts(t, tt, d, x, w, t.(nodes := m, sh := th));
    } else {
      PruneDeparts(t, tt, x, w);
    }
    ClearedDeparts(t, t.(nodes := m, sh := th), t.(nodes := Cleared(m, tt), sh := th), tt, tt, 0);
    m := m[tt := Blank];
    m := m[tt + 1 := Blank];
  }

  lemma PruneRoom(t: Table, tt: Ptr, d: Ptr, x: Ptr, w: Table)
    requires Pruned(t, tt, d, x, w) && Ready(t, tt, tt) && Holds(t, tt) && d != tt + 1
    ensures MoveOk(w, tt + 1, d)
  {
    assert PairOk(t, tt);
    PrunedInv(t, tt, d, x, w);
    PrunedCells(t, tt, d, x, w, tt + 1);
  }

  /** From label on1 to the end. */
  method DeleteLeaf(nodes: seq<Node>, ghost t: Table, h: Ptr, tt: Ptr) returns (m: seq<Node>, ghost th: Shape)
    requires Ready(t, h, tt) && nodes == t.nodes
    ensures Deleted(t, t.(nodes := m, sh := th), tt) && th.top == t.sh.top
  {
    assert HeadOk(nodes, t.sh, h) && Member(nodes, t.sh, h, 0) && Member(nodes, t.sh, h, 1);
    if nodes[h].dup != 0 {
      m, th := DeleteTwin(nodes, t, h, tt);
    } else {
      m, th := DeleteAlone(nodes, t, tt);
    }
  }
}
