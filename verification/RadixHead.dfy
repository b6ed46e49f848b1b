/** A radix tree head: the store with its top, created by rn_inithead and grown by rn_insert. */
module RadixHead {

  import opened RadixBits
  import opened RadixTree
  import opened RadixInsert

  const MAX_KEY_LEN := 32

  /** The keys of the two root leaves. */
  function Zeros(): Key { seq(MAX_KEY_LEN, _ => 0) }
  function Ones(): Key { seq(MAX_KEY_LEN, _ => 0xff) }

  /** The LEN macro: the first byte of a key is the length of the whole. */
  function Len(k: Key): nat
    requires |k| > 0
  {
    k[0] as nat
  }

  /** The bits of v up to its length decide the rest of the significant bits. */
  ghost predicate Settles(nodes: seq<Node>, sh: Shape, vb: Bits, len: nat)
    requires Sized(nodes, sh) && 8 * len <= sh.hi <= |vb|
  {
    forall k :: k in sh.under[sh.top] && k < |nodes| && Agree(vb, sh.bits[k], sh.lo, 8 * len) ==>
        Agree(vb, sh.bits[k], sh.lo, sh.hi)
  }

  ghost predicate HeadInv(nodes: seq<Node>, sh: Shape) {
    TreeInv(nodes, sh) && KeysOk(nodes, sh)
  }

  /** What rn_insert and rn_search ask of a key. */
  ghost predicate KeyFits(nodes: seq<Node>, sh: Shape, v: Key, vb: Bits) {
    && Sized(nodes, sh) && IsBits(v, vb) && |v| > 0
    && sh.lo <= 8 * Len(v) <= sh.hi <= |vb| && Settles(nodes, sh, vb, Len(v))
  }

  /** The first part of rn_insert: find a closest leaf and where v parts from it. */
  method FindPart(nodes: seq<Node>, top: Ptr, ghost sh: Shape, v: Key, ghost vb: Bits)
      returns (t: Ptr, dup: bool, b: nat)
    requires HeadInv(nodes, sh) && top == sh.top && KeyFits(nodes, sh, v, vb)
    ensures IsHead(nodes, sh, t) && Closest(nodes, sh, vb, t)
    ensures dup ==> Agree(vb, sh.bits[t], sh.lo, sh.hi)
    ensures !dup ==> sh.lo < b < sh.hi && Agree(vb, sh.bits[t], sh.lo, b) && sh.bits[t][b] != vb[b]
  {
    t := Search(nodes, top, sh, v, vb);
    assert InnerOk(nodes, sh, top) && ParentOk(nodes, sh, top);
    dup, b := CompareKeys(v, nodes[t].key, nodes[top].offset, Len(v), vb, sh.bits[t]);
    if !dup {
      NoTestAtPart(nodes, sh, vb, t, b, top);
    }
  }

  /** The second part: descend again, as far as nodes that test a bit before b. */
  method FindSite(nodes: seq<Node>, top: Ptr, ghost sh: Shape, v: Key, ghost vb: Bits, t: Ptr, b: nat, leaf: Ptr,
      node: Ptr)
    returns (p: Ptr, x: Ptr, ghost s: Site)
    requires HeadInv(nodes, sh) && top == sh.top && IsBits(v, vb) && sh.lo < b < sh.hi <= |vb|
    requires IsHead(nodes, sh, t) && Closest(nodes, sh, vb, t)
    requires Agree(vb, sh.bits[t], sh.lo, b) && sh.bits[t][b] != vb[b]
    requires Unused(nodes, sh, leaf) && Unused(nodes, sh, node) && leaf != node
    ensures s == Site(p, x, leaf, node, b, v, vb, s.above) && SiteOk(nodes, sh, s)
  {
    InnerHere(nodes, sh, top);
    var right := TestBit(v, nodes[top].bmask, nodes[top].offset, vb, nodes[top].bit);
    p, x := top, if right then nodes[top].right else nodes[top].left;
    s := Site(p, x, leaf, node, b, v, vb, {top});
    WayStart(nodes, sh, s, t);
    while nodes[x].bit >= 0 && b > nodes[x].bit
      invariant s == Site(p, x, leaf, node, b, v, vb, s.above) && WayOk(nodes, sh, s, t)
      decreases sh.hi - nodes[p].bit
    {
      p, x, s := Descend(nodes, sh, v, vb, t, x, s);
    }
    if IsInner(nodes, sh, x) {
      NoTestAtPart(nodes, sh, vb, t, b, x);
    }
    WayEnd(nodes, sh, s, t);
  }

  lemma InnerHere(nodes: seq<Node>, sh: Shape, n: Ptr)
    requires TreeInv(nodes, sh) && IsInner(nodes, sh, n)
    ensures InnerOk(nodes, sh, n)
  {}

  /** One step of the second descent, from node x to the child on v's side. */
  method Descend(nodes: seq<Node>, ghost sh: Shape, v: Key, ghost vb: Bits, ghost t: Ptr, x: Ptr, ghost s: Site)
    returns (p: Ptr, x': Ptr, ghost r: Site)
    requires WayOk(nodes, sh, s, t) && t < |nodes| && s.x == x && s.vb == vb && IsBits(v, vb)
    requires nodes[x].bit >= 0 && s.b > nodes[x].bit && Agree(vb, sh.bits[t], sh.lo, s.b)
    ensures p == x && r == s.(p := p, x := x', above := s.above + {x}) && WayOk(nodes, sh, r, t)
    ensures nodes[x].bit > nodes[s.p].bit && IsInner(nodes, sh, x)
  {
    assert !IsHead(nodes, sh, x);
    InnerHere(nodes, sh, x);
    r := s.(p := x, x := Toward(nodes, x, vb), above := s.above + {x});
    WayStep(nodes, sh, s, t, r);
    var right := TestBit(v, nodes[x].bmask, nodes[x].offset, vb, nodes[x].bit);
    p, x' := x, if right then nodes[x].right else nodes[x].left;
  }

  /** The third part: rn_newpair and the relinking, one cell at a time. */
  method Link(nodes: seq<Node>, ghost sh: Shape, v: Key, ghost vb: Bits, b: nat, p: Ptr, x: Ptr, leaf: Ptr, node: Ptr,
      ghost s: Site)
    returns (m: seq<Node>)
    requires s == Site(p, x, leaf, node, b, v, vb, s.above) && SiteOk(nodes, sh, s) && IsBits(v, vb)
    ensures m == InsertedNodes(nodes, s)
  {
    InnerHere(nodes, sh, p);
    var atP := TestBit(v, nodes[p].bmask, nodes[p].offset, vb, nodes[p].bit);
    var atB := TestBit(v, BitMask(b % 8), b / 8, vb, b);
    m := nodes[leaf := Leaf(-1, v, 0, 0, node, false, false, false)]
              [node := Inner(b, BitMask(b % 8), b / 8, leaf, 0, p, [])];
    m := LinkParent(m, p, node, atP);
    m := m[x := WithParent(m[x], node)];
    m := LinkChild(m, x, leaf, node, atB);
    LinkedOrder(nodes, s, atP, atB, m);
  }

  /** The parent's link on v's side leads to the new node. */
  method LinkParent(m: seq<Node>, p: Ptr, node: Ptr, right: bool) returns (m': seq<Node>)
    requires p < |m| && m[p].Inner?
    ensures m' == m[p := if right then m[p].(right := node) else m[p].(left := node)]
  {
    if !right {
      m' := m[p := m[p].(left := node)];
    } else {
      m' := m[p := m[p].(right := node)];
    }
  }

  /** The new node has the old subtree on one side and the new leaf, its left child so far, on the other. */
  method LinkChild(m: seq<Node>, x: Ptr, leaf: Ptr, node: Ptr, right: bool) returns (m': seq<Node>)
    requires node < |m| && m[node].Inner? && m[node].left == leaf
    ensures m' == m[node := m[node].(left := if right then x else leaf, right := if right then leaf else x)]
  {
    if !right {
      m' := m[node := m[node].(right := x)];
    } else {
      m' := m[node := m[node].(right := leaf, left := x)];
    }
  }

  /** The order of the assignments does not matter: the cells are different ones. */
  lemma LinkedOrder(nodes: seq<Node>, s: Site, atP: bool, atB: bool, m: seq<Node>)
    requires s.p < |nodes| && s.x < |nodes| && s.leaf < |nodes| && s.node < |nodes| && s.b < |s.vb|
    requires nodes[s.p].Inner? && 0 <= nodes[s.p].bit < |s.vb| && !nodes[s.x].Blank?
    requires s.leaf != s.node && s.p != s.x && s.leaf != s.p && s.leaf != s.x && s.node != s.p && s.node != s.x
    requires atP == s.vb[nodes[s.p].bit] && atB == s.vb[s.b]
    requires m == nodes[s.leaf := Leaf(-1, s.v, 0, 0, s.node, false, false, false)]
                       [s.node := Inner(s.b, BitMask(s.b % 8), s.b / 8, s.leaf, 0, s.p, [])]
                       [s.p := if atP then nodes[s.p].(right := s.node) else nodes[s.p].(left := s.node)]
                       [s.x := WithParent(nodes[s.x], s.node)]
                       [s.node := Inner(s.b, BitMask(s.b % 8), s.b / 8, if atB then s.x else s.leaf,
                           if atB then s.leaf else s.x, s.p, [])]
    ensures m == InsertedNodes(nodes, s)
  {}

  function InitNodes(cells: nat, off: nat): (nodes: seq<Node>)
    requires cells >= 4
    ensures |nodes| == cells
  {
    seq(cells, c => if c == 1 then Leaf(-1 - 8 * off, Zeros(), 0, 0, 2, false, true, false)
                    else if c == 2 then Inner(8 * off, BitMask(0), off, 1, 3, 2, [])
                    else if c == 3 then Leaf(-1 - 8 * off, Ones(), 0, 0, 2, false, true, false)
                    else Blank)
  }

  ghost predicate IsInitShape(sh: Shape, cells: nat, off: nat, width: nat) {
    && sh.top == 2 && sh.lo == 8 * off && sh.hi == 8 * width && cells >= 4
    && sh.under == seq(cells, c => if c == 1 then {1} else if c == 2 then {1, 3} else if c == 3 then {3} else {})
    && sh.chain == seq(cells, c => if c == 1 then [1] else if c == 3 then [3] else [])
    && |sh.bits| == cells && (forall c :: 0 <= c < cells ==> |sh.bits[c]| == 8 * MAX_KEY_LEN)
    && IsBits(Zeros(), sh.bits[1]) && IsBits(Ones(), sh.bits[3])
  }

  ghost function InitShape(cells: nat, off: nat, width: nat, zeros: Bits, ones: Bits): Shape {
    Shape(2, 8 * off, 8 * width,
          seq(cells, c => if c == 1 then {1} else if c == 2 then {1, 3} else if c == 3 then {3} else {}),
          seq(cells, c => if c == 1 then [1] else if c == 3 then [3] else []),
          seq(cells, c => if c == 3 then ones else zeros))
  }

  lemma InitInv(cells: nat, off: nat, width: nat) returns (sh: Shape)
    requires cells >= 4 && off < width <= MAX_KEY_LEN
    ensures IsInitShape(sh, cells, off, width) && HeadInv(InitNodes(cells, off), sh)
  {
    var zeros := Expand(Zeros());
    var ones := Expand(Ones());
    RootBits(zeros, ones, 8 * off);
    sh := InitShape(cells, off, width, zeros, ones);
    InitTree(InitNodes(cells, off), sh, cells, off, width);
  }

  lemma InitTree(nodes: seq<Node>, sh: Shape, cells: nat, off: nat, width: nat)
    requires cells >= 4 && off < width <= MAX_KEY_LEN && nodes == InitNodes(cells, off)
    requires IsInitShape(sh, cells, off, width)
    requires !sh.bits[1][8 * off] && sh.bits[3][8 * off]
    ensures HeadInv(nodes, sh)
  {
    assert InnerOk(nodes, sh, 2);
    assert Member(nodes, sh, 1, 0) && Member(nodes, sh, 3, 0);
    assert HeadOk(nodes, sh, 1) && HeadOk(nodes, sh, 3);
  }

  class Head {
    var nodes: seq<Node>
    var top: Ptr
    ghost var sh: Shape

    ghost predicate Valid()
      reads this
    {
      HeadInv(nodes, sh) && top == sh.top
    }

    /** rn_inithead_internal: a top over the all-zero and the all-one root leaf. */
    constructor (cells: nat, off: nat, width: nat)
      requires cells >= 4 && off < width <= MAX_KEY_LEN
      ensures Valid() && nodes == InitNodes(cells, off) && IsInitShape(sh, cells, off, width)
    {
      nodes := InitNodes(cells, off);
      top := 2;
      ghost var shape := InitInv(cells, off, width);
      sh := shape;
    }

    /**
     rn_insert: find the closest leaf; if it has the key of v, report the duplicate, otherwise
     link the pair of fresh cells in where v parts from it.
     */
    method Insert(v: Key, ghost vb: Bits, leaf: Ptr, node: Ptr) returns (tt: Ptr, dup: bool, ghost s: Site)
      requires Valid() && KeyFits(nodes, sh, v, vb)
      requires Unused(nodes, sh, leaf) && Unused(nodes, sh, node) && leaf != node
      modifies this
      ensures Valid() && top == old(top)
      ensures dup ==> nodes == old(nodes) && sh == old(sh) && IsHead(nodes, sh, tt)
      ensures dup ==> Agree(vb, sh.bits[tt], sh.lo, sh.hi)
      ensures !dup ==> tt == leaf && s.leaf == leaf && s.node == node && s.v == v && s.vb == vb
      ensures !dup ==> Inserted(old(nodes), old(sh), s, nodes, sh)
    {
      s := Site(0, 0, leaf, node, 0, v, vb, {});
      var b;
      tt, dup, b := FindPart(nodes, top, sh, v, vb);
      if !dup {
        var p, x;
        p, x, s := FindSite(nodes, top, sh, v, vb, tt, b, leaf, node);
        var m := Link(nodes, sh, v, vb, b, p, x, leaf, node, s);
        InsertedByUpdates(nodes, sh, s);
        InsertedInv(nodes, sh, s, m, InsertedShape(sh, s));
        InsertedKeys(nodes, sh, s, m, InsertedShape(sh, s));
        nodes, sh, tt := m, InsertedShape(sh, s), leaf;
      }
    }
  }

  lemma InsertedKeys(nodes: seq<Node>, sh: Shape, s: Site, m: seq<Node>, th: Shape)
    requires Inserted(nodes, sh, s, m, th) && KeysOk(nodes, sh) && IsBits(s.v, s.vb)
    ensures KeysOk(m, th)
  {
    TopGains(nodes, sh, s, m, th);
    forall k | k < |m| && k in th.under[th.top] ensures m[k].Leaf? && IsBits(m[k].key, th.bits[k]) {
      assert Cell(nodes, sh, s, m, th, k);
    }
  }

  lemma RootBits(zeros: Bits, ones: Bits, b: nat)
    requires IsBits(Zeros(), zeros) && IsBits(Ones(), ones) && b < 8 * MAX_KEY_LEN
    ensures !zeros[b] && ones[b]
  {
    assert zeros[b] == ReadBit(Zeros(), b) && ones[b] == ReadBit(Ones(), b);
    var m := BitMask(b % 8);
    assert 0xff & m == m && 0 & m == 0;
  }
}
