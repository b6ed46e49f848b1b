/** Inserting a key that is new to the tree: a leaf and the inner node that joins it on. */
module RadixInsert {

  import opened RadixBits
  import opened RadixTree

  /** Where a new leaf goes: between p and its child x, with a new inner node at bit b. */
  datatype Site = Site(p: Ptr, x: Ptr, leaf: Ptr, node: Ptr, b: nat, v: Key, vb: Bits, above: set<Ptr>)

  /** A cell that no part of the tree uses. */
  ghost predicate Unused(nodes: seq<Node>, sh: Shape, c: Ptr)
    requires Sized(nodes, sh)
  {
    0 < c < |nodes| && sh.under[c] == {} && c !in sh.under[sh.top]
  }

  function Toward(nodes: seq<Node>, n: Ptr, v: Bits): Ptr
    requires n < |nodes| && nodes[n].Inner? && 0 <= nodes[n].bit < |v|
  {
    if v[nodes[n].bit] then nodes[n].right else nodes[n].left
  }

  ghost predicate SiteCells(nodes: seq<Node>, sh: Shape, s: Site)
    requires Sized(nodes, sh)
  {
    && |s.vb| >= sh.hi
    && Unused(nodes, sh, s.leaf) && Unused(nodes, sh, s.node) && s.leaf != s.node
    && IsInner(nodes, sh, s.p) && nodes[s.p].bit < s.b < sh.hi
    && s.x == Toward(nodes, s.p, s.vb)
    && ((IsInner(nodes, sh, s.x) && nodes[s.x].bit > s.b) || IsHead(nodes, sh, s.x))
    && s.x != sh.top && !nodes[s.x].Blank? && nodes[s.x].parent == s.p
  }

  /** The leaves below x all part from v exactly at bit b. */
  ghost predicate Parts(nodes: seq<Node>, sh: Shape, s: Site, k: Ptr)
    requires Sized(nodes, sh) && |s.vb| >= sh.hi && s.b < sh.hi
  {
    k < |nodes| && Agree(s.vb, sh.bits[k], sh.lo, s.b) && sh.bits[k][s.b] != s.vb[s.b]
  }

  /** The nodes on the way from the top down to p. */
  ghost predicate OnWay(nodes: seq<Node>, sh: Shape, s: Site, a: Ptr)
    requires Sized(nodes, sh) && |s.vb| >= sh.hi && s.x < |nodes|
  {
    && IsInner(nodes, sh, a) && nodes[a].bit < s.b
    && sh.under[s.x] <= sh.under[a]
    && (a != sh.top ==> nodes[a].parent in s.above)
    && (a != s.p ==> Toward(nodes, a, s.vb) in s.above)
  }

  ghost predicate SiteOk(nodes: seq<Node>, sh: Shape, s: Site) {
    && TreeInv(nodes, sh) && SiteCells(nodes, sh, s)
    && (forall k {:trigger Parts(nodes, sh, s, k)} :: k in sh.under[s.x] ==> Parts(nodes, sh, s, k))
    && (forall a {:trigger OnWay(nodes, sh, s, a)} :: a in s.above ==> OnWay(nodes, sh, s, a))
    && s.p in s.above && sh.top in s.above && s.x !in s.above
  }

  /** The store after linking the pair in. */
  function InsertedNodes(nodes: seq<Node>, s: Site): (r: seq<Node>)
    requires s.p < |nodes| && s.x < |nodes| && s.leaf < |nodes| && s.node < |nodes| && s.b < |s.vb|
    requires nodes[s.p].Inner? && 0 <= nodes[s.p].bit < |s.vb| && !nodes[s.x].Blank?
  {
    var right := s.vb[s.b];
    var pair := nodes[s.leaf := Leaf(-1, s.v, 0, 0, s.node, false, false, false)]
                     [s.node := Inner(s.b, BitMask(s.b % 8), s.b / 8, if right then s.x else s.leaf,
                         if right then s.leaf else s.x, s.p, [])];
    var parent := if s.vb[nodes[s.p].bit] then nodes[s.p].(right := s.node) else nodes[s.p].(left := s.node);
    var linked := pair[s.p := parent];
    linked[s.x := nodes[s.x].(parent := s.node)]
  }

  function InsertedShape(sh: Shape, s: Site): (r: Shape)
    requires s.x < |sh.under| == |sh.chain| == |sh.bits| && s.leaf < |sh.under|
  {
    sh.(under := seq(|sh.under|, c requires 0 <= c < |sh.under| =>
                    if c == s.leaf then {s.leaf} else if c == s.node then sh.under[s.x] + {s.leaf}
                    else if c in s.above then sh.under[c] + {s.leaf} else sh.under[c]),
        chain := sh.chain[s.leaf := [s.leaf]],
        bits := sh.bits[s.leaf := s.vb])
  }

  /** What cell c of the store and of the shape becomes. */
  ghost predicate Cell(nodes: seq<Node>, sh: Shape, s: Site, m: seq<Node>, th: Shape, c: Ptr)
    requires SiteOk(nodes, sh, s)
    requires |m| == |nodes| == |th.under| == |th.chain| == |th.bits|
  {
    c < |nodes| ==>
      var right := s.vb[s.b];
      && m[c] == (if c == s.leaf then Leaf(-1, s.v, 0, 0, s.node, false, false, false)
                  else if c == s.node then
                    Inner(s.b, BitMask(s.b % 8), s.b / 8, if right then s.x else s.leaf, if right then s.leaf else s.x,
                        s.p, [])
                  else if c == s.p then
                    if s.vb[nodes[c].bit] then nodes[c].(right := s.node) else nodes[c].(left := s.node)
                  else if c == s.x then nodes[c].(parent := s.node)
                  else nodes[c])
      && th.under[c] == (if c == s.leaf then {s.leaf} else if c == s.node then sh.under[s.x] + {s.leaf}
                         else if c in s.above then sh.under[c] + {s.leaf} else sh.under[c])
      && th.chain[c] == (if c == s.leaf then [s.leaf] else sh.chain[c])
      && th.bits[c] == (if c == s.leaf then s.vb else sh.bits[c])
  }

  /** m and th are the store and shape after the insertion. */
  ghost predicate Inserted(nodes: seq<Node>, sh: Shape, s: Site, m: seq<Node>, th: Shape) {
    && SiteOk(nodes, sh, s) && Sized(m, th) && |m| == |nodes|
    && th.top == sh.top && th.lo == sh.lo && th.hi == sh.hi
    && forall c {:trigger Cell(nodes, sh, s, m, th, c)} :: Cell(nodes, sh, s, m, th, c)
  }

  lemma InsertedByUpdates(nodes: seq<Node>, sh: Shape, s: Site)
    requires SiteOk(nodes, sh, s)
    ensures Inserted(nodes, sh, s, InsertedNodes(nodes, s), InsertedShape(sh, s))
  {}

  lemma TopGains(nodes: seq<Node>, sh: Shape, s: Site, m: seq<Node>, th: Shape)
    requires Inserted(nodes, sh, s, m, th)
    ensures th.under[th.top] == sh.under[sh.top] + {s.leaf}
  {
    assert OnWay(nodes, sh, s, sh.top);
    assert Cell(nodes, sh, s, m, th, sh.top);
  }

  lemma InnerKind(nodes: seq<Node>, sh: Shape, s: Site, m: seq<Node>, th: Shape, c: Ptr)
    requires Inserted(nodes, sh, s, m, th)
    ensures IsInner(m, th, c) <==> IsInner(nodes, sh, c) || c == s.node
    ensures IsInner(nodes, sh, c) ==> m[c].bit == nodes[c].bit
  {
    assert Cell(nodes, sh, s, m, th, c);
    assert c in s.above ==> OnWay(nodes, sh, s, c);
  }

  lemma HeadKind(nodes: seq<Node>, sh: Shape, s: Site, m: seq<Node>, th: Shape, c: Ptr)
    requires Inserted(nodes, sh, s, m, th)
    ensures IsHead(m, th, c) <==> IsHead(nodes, sh, c) || c == s.leaf
  {
    assert Cell(nodes, sh, s, m, th, c);
    assert c in s.above ==> OnWay(nodes, sh, s, c);
  }

  lemma LeafKind(nodes: seq<Node>, sh: Shape, s: Site, m: seq<Node>, th: Shape, c: Ptr)
    requires Inserted(nodes, sh, s, m, th)
    ensures IsLeaf(m, th, c) <==> IsLeaf(nodes, sh, c) || c == s.leaf
  {
    TopGains(nodes, sh, s, m, th);
    assert Cell(nodes, sh, s, m, th, c);
  }

  /** Cells other than the new pair stay unused. */
  lemma UnusedKept(nodes: seq<Node>, sh: Shape, s: Site, m: seq<Node>, th: Shape, c: Ptr)
    requires Inserted(nodes, sh, s, m, th) && Unused(nodes, sh, c) && c != s.leaf && c != s.node
    ensures Unused(m, th, c)
  {
    TopGains(nodes, sh, s, m, th);
    assert Cell(nodes, sh, s, m, th, c);
    assert c in s.above ==> OnWay(nodes, sh, s, c);
  }

  /** A child that is not on the way keeps its place; one on the way gains the new leaf. */
  lemma ChildKept(nodes: seq<Node>, sh: Shape, s: Site, m: seq<Node>, th: Shape, n: Ptr, c: Ptr, side: bool)
    requires Inserted(nodes, sh, s, m, th) && IsInner(nodes, sh, n) && ChildOk(nodes, sh, n, c, side)
    requires c in s.above ==> side == s.vb[nodes[n].bit]
    requires c != s.x
    ensures IsInner(m, th, n) && ChildOk(m, th, n, c, side)
  {
    InnerKind(nodes, sh, s, m, th, n);
    InnerKind(nodes, sh, s, m, th, c);
    HeadKind(nodes, sh, s, m, th, c);
    assert Cell(nodes, sh, s, m, th, c);
    forall k | k in th.under[c] ensures k < |m| && th.bits[k][m[n].bit] == side {
      assert Cell(nodes, sh, s, m, th, k);
    }
  }

  lemma InnerElsewhere(nodes: seq<Node>, sh: Shape, s: Site, m: seq<Node>, th: Shape, n: Ptr)
    requires Inserted(nodes, sh, s, m, th) && IsInner(nodes, sh, n) && n !in s.above
    ensures InnerOk(m, th, n)
  {
    assert InnerOk(nodes, sh, n);
    var l, r := nodes[n].left, nodes[n].right;
    assert l in s.above ==> OnWay(nodes, sh, s, l);
    assert r in s.above ==> OnWay(nodes, sh, s, r);
    ChildKept(nodes, sh, s, m, th, n, l, false);
    ChildKept(nodes, sh, s, m, th, n, r, true);
    assert Cell(nodes, sh, s, m, th, n) && Cell(nodes, sh, s, m, th, l) && Cell(nodes, sh, s, m, th, r);
  }

  /** Leaves below x lie on the side of v at every node on the way, so the other child is off it. */
  lemma OffWay(nodes: seq<Node>, sh: Shape, s: Site, a: Ptr, c: Ptr)
    requires SiteOk(nodes, sh, s) && a in s.above && IsInner(nodes, sh, a)
    requires c == if s.vb[nodes[a].bit] then nodes[a].left else nodes[a].right
    ensures c !in s.above && c != s.x
  {
    assert InnerOk(nodes, sh, a) && OnWay(nodes, sh, s, a);
    var k :| k in sh.under[s.x];
    assert Parts(nodes, sh, s, k);
    assert c in s.above ==> OnWay(nodes, sh, s, c);
  }

  lemma InnerOnWay(nodes: seq<Node>, sh: Shape, s: Site, m: seq<Node>, th: Shape, n: Ptr)
    requires Inserted(nodes, sh, s, m, th) && IsInner(nodes, sh, n) && n in s.above && n != s.p
    ensures InnerOk(m, th, n)
  {
    assert InnerOk(nodes, sh, n) && OnWay(nodes, sh, s, n);
    var l, r := nodes[n].left, nodes[n].right;
    OffWay(nodes, sh, s, n, if s.vb[nodes[n].bit] then l else r);
    ChildKept(nodes, sh, s, m, th, n, l, false);
    ChildKept(nodes, sh, s, m, th, n, r, true);
    assert Cell(nodes, sh, s, m, th, n) && Cell(nodes, sh, s, m, th, l) && Cell(nodes, sh, s, m, th, r);
  }

  lemma InnerAtP(nodes: seq<Node>, sh: Shape, s: Site, m: seq<Node>, th: Shape)
    requires Inserted(nodes, sh, s, m, th)
    ensures InnerOk(m, th, s.p)
  {
    var n := s.p;
    assert InnerOk(nodes, sh, n) && OnWay(nodes, sh, s, n);
    var l, r := nodes[n].left, nodes[n].right;
    var right := s.vb[nodes[n].bit];
    var c := if right then l else r;
    OffWay(nodes, sh, s, n, c);
    ChildKept(nodes, sh, s, m, th, n, c, !right);
    assert Cell(nodes, sh, s, m, th, n) && Cell(nodes, sh, s, m, th, c) && Cell(nodes, sh, s, m, th, s.node);
    InnerKind(nodes, sh, s, m, th, n);
    InnerKind(nodes, sh, s, m, th, s.node);
    NewNodeBelowP(nodes, sh, s, m, th, right);
  }

  lemma NewNodeBelowP(nodes: seq<Node>, sh: Shape, s: Site, m: seq<Node>, th: Shape, right: bool)
    requires Inserted(nodes, sh, s, m, th) && right == s.vb[nodes[s.p].bit] && IsInner(m, th, s.p)
    ensures ChildOk(m, th, s.p, s.node, right)
  {
    InnerKind(nodes, sh, s, m, th, s.p);
    InnerKind(nodes, sh, s, m, th, s.node);
    assert Cell(nodes, sh, s, m, th, s.node);
    forall k | k in th.under[s.node] ensures k < |m| && th.bits[k][m[s.p].bit] == right {
      assert Cell(nodes, sh, s, m, th, k);
      if k != s.leaf { assert Parts(nodes, sh, s, k); }
    }
  }

  lemma InnerAtNew(nodes: seq<Node>, sh: Shape, s: Site, m: seq<Node>, th: Shape)
    requires Inserted(nodes, sh, s, m, th)
    ensures InnerOk(m, th, s.node)
  {
    var right := s.vb[s.b];
    InnerKind(nodes, sh, s, m, th, s.node);
    InnerKind(nodes, sh, s, m, th, s.x);
    HeadKind(nodes, sh, s, m, th, s.x);
    HeadKind(nodes, sh, s, m, th, s.leaf);
    assert Cell(nodes, sh, s, m, th, s.node) && Cell(nodes, sh, s, m, th, s.x) && Cell(nodes, sh, s, m, th, s.leaf);
    forall k | k in th.under[s.x] ensures k < |m| && th.bits[k][s.b] == !right {
      assert Parts(nodes, sh, s, k);
      assert Cell(nodes, sh, s, m, th, k);
    }
  }

  lemma InsertedAlike(nodes: seq<Node>, sh: Shape, s: Site, m: seq<Node>, th: Shape, n: Ptr, j: Ptr, k: Ptr)
    requires Inserted(nodes, sh, s, m, th) && IsInner(m, th, n) && j in th.under[n] && k in th.under[n] && j != s.leaf
    ensures Alike(m, th, n, j, k)
  {
    InnerKind(nodes, sh, s, m, th, n);
    assert Cell(nodes, sh, s, m, th, n) && Cell(nodes, sh, s, m, th, j) && Cell(nodes, sh, s, m, th, k);
    if n == s.node {
      assert Parts(nodes, sh, s, j);
      if k != s.leaf { assert Parts(nodes, sh, s, k); }
    } else if k != s.leaf {
      assert Alike(nodes, sh, n, j, k);
    } else {
      assert n in s.above ==> OnWay(nodes, sh, s, n);
      var i :| i in sh.under[s.x];
      assert Parts(nodes, sh, s, i);
      assert Alike(nodes, sh, n, j, i);
    }
  }

  lemma InsertedMember(nodes: seq<Node>, sh: Shape, s: Site, m: seq<Node>, th: Shape, h: Ptr, i: nat)
    requires Inserted(nodes, sh, s, m, th) && IsHead(nodes, sh, h) && th.chain[h] == sh.chain[h]
    ensures Member(m, th, h, i)
  {
    assert HeadOk(nodes, sh, h) && Member(nodes, sh, h, i);
    if i < |sh.chain[h]| {
      var k := sh.chain[h][i];
      LeafKind(nodes, sh, s, m, th, k);
      assert Cell(nodes, sh, s, m, th, k) && Cell(nodes, sh, s, m, th, h);
      assert k in s.above ==> OnWay(nodes, sh, s, k);
    }
  }

  lemma InsertedHead(nodes: seq<Node>, sh: Shape, s: Site, m: seq<Node>, th: Shape, h: Ptr)
    requires Inserted(nodes, sh, s, m, th) && IsHead(m, th, h)
    ensures HeadOk(m, th, h)
  {
    HeadKind(nodes, sh, s, m, th, h);
    assert Cell(nodes, sh, s, m, th, h);
    if h == s.leaf {
      LeafKind(nodes, sh, s, m, th, s.leaf);
    } else {
      assert HeadOk(nodes, sh, h);
      assert h in s.above ==> OnWay(nodes, sh, s, h);
      forall i: nat ensures Member(m, th, h, i) {
        InsertedMember(nodes, sh, s, m, th, h, i);
      }
    }
  }

  lemma InsertedParent(nodes: seq<Node>, sh: Shape, s: Site, m: seq<Node>, th: Shape, c: Ptr)
    requires Inserted(nodes, sh, s, m, th) && (IsInner(nodes, sh, c) || IsHead(nodes, sh, c)) && c != s.x
    ensures ParentOk(m, th, c)
  {
    assert ParentOk(nodes, sh, c);
    assert Cell(nodes, sh, s, m, th, c);
    InnerKind(nodes, sh, s, m, th, c);
    if c != sh.top {
      var p := nodes[c].parent;
      assert Cell(nodes, sh, s, m, th, p);
      InnerKind(nodes, sh, s, m, th, p);
      assert InnerOk(nodes, sh, p);
    }
  }

  lemma InsertedNewParents(nodes: seq<Node>, sh: Shape, s: Site, m: seq<Node>, th: Shape)
    requires Inserted(nodes, sh, s, m, th)
    ensures ParentOk(m, th, s.x) && ParentOk(m, th, s.leaf) && ParentOk(m, th, s.node)
  {
    assert Cell(nodes, sh, s, m, th, s.node) && Cell(nodes, sh, s, m, th, s.leaf);
    assert Cell(nodes, sh, s, m, th, s.x) && Cell(nodes, sh, s, m, th, s.p);
    InnerKind(nodes, sh, s, m, th, s.node);
    InnerKind(nodes, sh, s, m, th, s.p);
  }

  lemma InsertedInners(nodes: seq<Node>, sh: Shape, s: Site, m: seq<Node>, th: Shape, n: Ptr)
    requires Inserted(nodes, sh, s, m, th) && IsInner(m, th, n)
    ensures InnerOk(m, th, n)
  {
    InnerKind(nodes, sh, s, m, th, n);
    if n == s.node {
      InnerAtNew(nodes, sh, s, m, th);
    } else if n == s.p {
      InnerAtP(nodes, sh, s, m, th);
    } else if n in s.above {
      InnerOnWay(nodes, sh, s, m, th, n);
    } else {
      InnerElsewhere(nodes, sh, s, m, th, n);
    }
  }

  lemma InsertedAllAlike(nodes: seq<Node>, sh: Shape, s: Site, m: seq<Node>, th: Shape, n: Ptr, j: Ptr, k: Ptr)
    requires Inserted(nodes, sh, s, m, th)
    ensures Alike(m, th, n, j, k)
  {
    if IsInner(m, th, n) && j in th.under[n] && k in th.under[n] {
      if j != s.leaf {
        InsertedAlike(nodes, sh, s, m, th, n, j, k);
      } else if k != s.leaf {
        InsertedAlike(nodes, sh, s, m, th, n, k, j);
      }
    }
  }

  /** Insertion at a site keeps the tree well formed. */
  lemma InsertedInv(nodes: seq<Node>, sh: Shape, s: Site, m: seq<Node>, th: Shape)
    requires Inserted(nodes, sh, s, m, th)
    ensures TreeInv(m, th)
  {
    InnerKind(nodes, sh, s, m, th, th.top);
    forall n | IsInner(m, th, n) ensures InnerOk(m, th, n) {
      InsertedInners(nodes, sh, s, m, th, n);
    }
    forall n, j, k ensures Alike(m, th, n, j, k) {
      InsertedAllAlike(nodes, sh, s, m, th, n, j, k);
    }
    forall h | IsHead(m, th, h) ensures HeadOk(m, th, h) {
      InsertedHead(nodes, sh, s, m, th, h);
    }
    InsertedParents(nodes, sh, s, m, th);
    forall k | k in th.under[th.top] ensures IsLeaf(m, th, k) {
      TopGains(nodes, sh, s, m, th);
      LeafKind(nodes, sh, s, m, th, k);
    }
  }

  lemma InsertedParents(nodes: seq<Node>, sh: Shape, s: Site, m: seq<Node>, th: Shape)
    requires Inserted(nodes, sh, s, m, th)
    ensures forall c {:trigger ParentOk(m, th, c)} :: IsInner(m, th, c) || IsHead(m, th, c) ==> ParentOk(m, th, c)
  {
    InsertedNewParents(nodes, sh, s, m, th);
    forall c | IsInner(m, th, c) || IsHead(m, th, c) ensures ParentOk(m, th, c) {
      InnerKind(nodes, sh, s, m, th, c);
      HeadKind(nodes, sh, s, m, th, c);
      if c != s.x && c != s.leaf && c != s.node {
        InsertedParent(nodes, sh, s, m, th, c);
      }
    }
  }

  /** The way down from the top, kept while looking for the place of a new leaf that parts from t at bit b. */
  ghost predicate WayOk(nodes: seq<Node>, sh: Shape, s: Site, t: Ptr) {
    && TreeInv(nodes, sh) && |s.vb| >= sh.hi && s.b < sh.hi && s.x < |nodes| && t in sh.under[s.x]
    && IsInner(nodes, sh, s.p) && nodes[s.p].bit < s.b && s.x == Toward(nodes, s.p, s.vb)
    && (forall a {:trigger OnWay(nodes, sh, s, a)} :: a in s.above ==>
        OnWay(nodes, sh, s, a) && nodes[a].bit <= nodes[s.p].bit)
    && s.p in s.above && sh.top in s.above
    && ((IsInner(nodes, sh, s.x) && nodes[s.x].bit > nodes[s.p].bit) || IsHead(nodes, sh, s.x))
    && s.x != sh.top && !nodes[s.x].Blank? && nodes[s.x].parent == s.p
  }

  lemma WayStep(nodes: seq<Node>, sh: Shape, s: Site, t: Ptr, r: Site)
    requires WayOk(nodes, sh, s, t) && t < |nodes| && IsInner(nodes, sh, s.x) && nodes[s.x].bit < s.b
    requires Agree(s.vb, sh.bits[t], sh.lo, s.b)
    requires r == s.(p := s.x, x := Toward(nodes, s.x, s.vb), above := s.above + {s.x})
    ensures WayOk(nodes, sh, r, t)
  {
    Side(nodes, sh, s.x, r.x, t);
    Above(nodes, sh, r.x);
    forall a | a in r.above ensures OnWay(nodes, sh, r, a) && nodes[a].bit <= nodes[r.p].bit {
      WayKept(nodes, sh, s, t, r, a);
    }
  }

  lemma WayKept(nodes: seq<Node>, sh: Shape, s: Site, t: Ptr, r: Site, a: Ptr)
    requires WayOk(nodes, sh, s, t) && t < |nodes| && IsInner(nodes, sh, s.x) && nodes[s.x].bit < s.b
    requires |s.vb| > nodes[s.x].bit
    requires r == s.(p := s.x, x := Toward(nodes, s.x, s.vb), above := s.above + {s.x})
    requires a in r.above && r.x < |nodes| && sh.under[r.x] <= sh.under[s.x]
    ensures OnWay(nodes, sh, r, a) && nodes[a].bit <= nodes[r.p].bit
  {
    Above(nodes, sh, s.x);
    if a in s.above {
      assert OnWay(nodes, sh, s, a) && nodes[a].bit <= nodes[s.p].bit;
    }
  }

  lemma WayStart(nodes: seq<Node>, sh: Shape, s: Site, t: Ptr)
    requires TreeInv(nodes, sh) && |s.vb| >= sh.hi && s.b < sh.hi && t < |nodes| && t in sh.under[sh.top]
    requires s.p == sh.top && s.above == {sh.top} && s.x == Toward(nodes, sh.top, s.vb)
    requires sh.lo < s.b && Agree(s.vb, sh.bits[t], sh.lo, s.b)
    ensures WayOk(nodes, sh, s, t)
  {
    assert ParentOk(nodes, sh, sh.top);
    Side(nodes, sh, sh.top, s.x, t);
    Above(nodes, sh, s.x);
  }

  /** No node over t tests the bit at which v parts from t: a leaf on v's side of it would be closer. */
  lemma NoTestAtPart(nodes: seq<Node>, sh: Shape, v: Bits, t: Ptr, b: nat, n: Ptr)
    requires TreeInv(nodes, sh) && sh.lo <= b < sh.hi <= |v| && IsInner(nodes, sh, n) && t < |nodes| && t in sh.under[n]
    requires Closest(nodes, sh, v, t) && Agree(v, sh.bits[t], sh.lo, b) && sh.bits[t][b] != v[b]
    ensures nodes[n].bit != b
  {
    if nodes[n].bit == b {
      assert InnerOk(nodes, sh, n);
      var k :| k in sh.under[Toward(nodes, n, v)];
      assert Alike(nodes, sh, n, t, k);
      assert AsClose(sh, v, t, k);
      assert Agree(v, sh.bits[k], sh.lo, b + 1);
      assert false;
    }
  }

  lemma WayEnd(nodes: seq<Node>, sh: Shape, s: Site, t: Ptr)
    requires WayOk(nodes, sh, s, t) && t < |nodes|
    requires Agree(s.vb, sh.bits[t], sh.lo, s.b) && sh.bits[t][s.b] != s.vb[s.b]
    requires IsHead(nodes, sh, s.x) || nodes[s.x].bit > s.b
    requires Unused(nodes, sh, s.leaf) && Unused(nodes, sh, s.node) && s.leaf != s.node
    ensures SiteOk(nodes, sh, s)
  {
    assert s.x in s.above ==> OnWay(nodes, sh, s, s.x);
    forall k | k in sh.under[s.x] ensures Parts(nodes, sh, s, k) {
      if IsInner(nodes, sh, s.x) {
        assert Alike(nodes, sh, s.x, t, k);
      } else {
        OneKey(nodes, sh, s.x, t);
        OneKey(nodes, sh, s.x, k);
      }
    }
  }

  lemma OneKey(nodes: seq<Node>, sh: Shape, h: Ptr, k: Ptr)
    requires TreeInv(nodes, sh) && IsHead(nodes, sh, h) && k in sh.under[h]
    ensures IsLeaf(nodes, sh, k) && Agree(sh.bits[h], sh.bits[k], sh.lo, sh.hi)
  {
    assert HeadOk(nodes, sh, h);
    var i :| 0 <= i < |sh.chain[h]| && sh.chain[h][i] == k;
    assert Member(nodes, sh, h, i);
  }
}
