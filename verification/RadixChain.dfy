/** Adding a leaf to the duplicated-key chain of its key. */
module RadixChain {

  import opened RadixBits
  import opened RadixTree
  import opened RadixInsert

  /** A leaf tt for key v joins the chain of h at position i. */
  datatype Joint = Joint(h: Ptr, i: nat, tt: Ptr, v: Key, vb: Bits)

  ghost predicate JointOk(nodes: seq<Node>, sh: Shape, j: Joint) {
    && TreeInv(nodes, sh) && IsHead(nodes, sh, j.h) && j.i <= |sh.chain[j.h]| && Unused(nodes, sh, j.tt)
    && |j.vb| >= sh.hi && Agree(j.vb, sh.bits[j.h], sh.lo, sh.hi)
  }

  /** The chain with the new member. */
  function Joined(s: seq<Ptr>, i: nat, tt: Ptr): seq<Ptr>
    requires i <= |s|
  {
    s[..i] + [tt] + s[i..]
  }

  /** Where the tree refers to the chain. */
  function NewHead(j: Joint): Ptr {
    if j.i == 0 then j.tt else j.h
  }

  /** What cell c of the store becomes. */
  ghost predicate Relinked(nodes: seq<Node>, sh: Shape, j: Joint, m: seq<Node>, c: Ptr)
    requires JointOk(nodes, sh, j) && |m| == |nodes|
  {
    c < |nodes| ==>
      var s := sh.chain[j.h];
      var p := nodes[j.h].parent;
      m[c] == (if c == j.tt then
                 Leaf(-1, j.v, 0, if j.i < |s| then s[j.i] else 0, if j.i == 0 then p else s[j.i - 1], false, false,
                     false)
               else if j.i == 0 && c == p && nodes[c].Inner? then
                 if nodes[c].left == j.h then nodes[c].(left := j.tt) else nodes[c].(right := j.tt)
               else if j.i < |s| && c == s[j.i] && nodes[c].Leaf? then nodes[c].(parent := j.tt)
               else if j.i > 0 && c == s[j.i - 1] && nodes[c].Leaf? then nodes[c].(dup := j.tt)
               else nodes[c])
  }

  /** What cell c of store and shape becomes. */
  ghost predicate Spliced(nodes: seq<Node>, sh: Shape, j: Joint, m: seq<Node>, th: Shape, c: Ptr)
    requires JointOk(nodes, sh, j) && |m| == |nodes| == |th.under| == |th.chain| == |th.bits|
  {
    Relinked(nodes, sh, j, m, c) &&
    (c < |nodes| ==>
      && th.under[c] == (if c == j.tt then (if j.i == 0 then sh.under[j.h] + {j.tt} else {})
                         else if c == j.h && j.i == 0 then {}
                         else if j.h in sh.under[c] then sh.under[c] + {j.tt} else sh.under[c])
      && th.chain[c] == (if c == NewHead(j) then Joined(sh.chain[j.h], j.i, j.tt)
                         else if c == j.h then [] else sh.chain[c])
      && th.bits[c] == (if c == j.tt then j.vb else sh.bits[c]))
  }

  ghost predicate JoinedTree(nodes: seq<Node>, sh: Shape, j: Joint, m: seq<Node>, th: Shape) {
    && JointOk(nodes, sh, j) && Sized(m, th) && |m| == |nodes|
    && th.top == sh.top && th.lo == sh.lo && th.hi == sh.hi
    && forall c {:trigger Spliced(nodes, sh, j, m, th, c)} :: Spliced(nodes, sh, j, m, th, c)
  }

  /** Among the heads only h itself is over h. */
  lemma OnlyHead(nodes: seq<Node>, sh: Shape, g: Ptr, h: Ptr)
    requires TreeInv(nodes, sh) && IsHead(nodes, sh, g) && IsHead(nodes, sh, h) && h in sh.under[g]
    ensures g == h
  {
    assert HeadOk(nodes, sh, g);
    var i :| 0 <= i < |sh.chain[g]| && sh.chain[g][i] == h;
    assert Member(nodes, sh, g, i);
  }

  lemma HeadInTop(nodes: seq<Node>, sh: Shape, h: Ptr)
    requires TreeInv(nodes, sh) && IsHead(nodes, sh, h)
    ensures IsLeaf(nodes, sh, h) && h != sh.top && sh.chain[h] != [] && sh.chain[h][0] == h
  {
    assert HeadOk(nodes, sh, h) && Member(nodes, sh, h, 0);
  }

  lemma JoinedInner(nodes: seq<Node>, sh: Shape, j: Joint, m: seq<Node>, th: Shape, c: Ptr)
    requires JoinedTree(nodes, sh, j, m, th)
    ensures IsInner(m, th, c) <==> IsInner(nodes, sh, c)
    ensures IsInner(nodes, sh, c) ==> m[c].bit == nodes[c].bit && m[c].parent == nodes[c].parent
    ensures IsInner(nodes, sh, c) ==> m[c].bmask == nodes[c].bmask && m[c].offset == nodes[c].offset
    ensures IsInner(nodes, sh, c) ==> m[c].mklist == nodes[c].mklist
  {
    assert Spliced(nodes, sh, j, m, th, c);
    HeadInTop(nodes, sh, j.h);
  }

  lemma JoinedHead(nodes: seq<Node>, sh: Shape, j: Joint, m: seq<Node>, th: Shape, c: Ptr)
    requires JoinedTree(nodes, sh, j, m, th)
    ensures IsHead(m, th, c) <==> c == NewHead(j) || (IsHead(nodes, sh, c) && c != j.h)
  {
    assert Spliced(nodes, sh, j, m, th, c);
    HeadInTop(nodes, sh, j.h);
  }

  lemma JoinedTop(nodes: seq<Node>, sh: Shape, j: Joint, m: seq<Node>, th: Shape)
    requires JoinedTree(nodes, sh, j, m, th)
    ensures th.under[th.top] == sh.under[sh.top] + {j.tt}
  {
    assert Spliced(nodes, sh, j, m, th, sh.top);
    HeadInTop(nodes, sh, j.h);
  }

  lemma JoinedUnused(nodes: seq<Node>, sh: Shape, j: Joint, m: seq<Node>, th: Shape, c: Ptr)
    requires JoinedTree(nodes, sh, j, m, th) && Unused(nodes, sh, c) && c != j.tt
    ensures Unused(m, th, c)
  {
    JoinedTop(nodes, sh, j, m, th);
    assert Spliced(nodes, sh, j, m, th, c);
  }

  lemma JoinedLeaf(nodes: seq<Node>, sh: Shape, j: Joint, m: seq<Node>, th: Shape, c: Ptr)
    requires JoinedTree(nodes, sh, j, m, th)
    ensures IsLeaf(m, th, c) <==> IsLeaf(nodes, sh, c) || c == j.tt
    ensures IsLeaf(nodes, sh, c) ==> th.bits[c] == sh.bits[c]
    ensures IsLeaf(nodes, sh, c) ==> m[c] == nodes[c].(dup := m[c].dup, parent := m[c].parent)
  {
    JoinedTop(nodes, sh, j, m, th);
    assert Spliced(nodes, sh, j, m, th, c);
  }

  /** The parent of a node of the tree, other than the chain's old head, stays. */
  lemma JoinedParentField(nodes: seq<Node>, sh: Shape, j: Joint, m: seq<Node>, th: Shape, c: Ptr)
    requires JoinedTree(nodes, sh, j, m, th) && (IsInner(nodes, sh, c) || IsHead(nodes, sh, c)) && (c != j.h || j.i > 0)
    ensures !m[c].Blank? && m[c].parent == nodes[c].parent
  {
    assert Spliced(nodes, sh, j, m, th, c);
    HeadInTop(nodes, sh, j.h);
    assert HeadOk(nodes, sh, j.h) && Member(nodes, sh, j.h, j.i);
  }

  lemma JoinedChild(nodes: seq<Node>, sh: Shape, j: Joint, m: seq<Node>, th: Shape, n: Ptr, c: Ptr, side: bool)
    requires JoinedTree(nodes, sh, j, m, th) && IsInner(nodes, sh, n) && ChildOk(nodes, sh, n, c, side)
    ensures IsInner(m, th, n) && ChildOk(m, th, n, if c == j.h then NewHead(j) else c, side)
  {
    var d := if c == j.h then NewHead(j) else c;
    JoinedInner(nodes, sh, j, m, th, n);
    JoinedInner(nodes, sh, j, m, th, c);
    JoinedHead(nodes, sh, j, m, th, d);
    assert Spliced(nodes, sh, j, m, th, d);
    HeadInTop(nodes, sh, j.h);
    if d != j.tt {
      JoinedParentField(nodes, sh, j, m, th, c);
    }
    forall k | k in th.under[d] ensures k < |m| && th.bits[k][m[n].bit] == side {
      assert Spliced(nodes, sh, j, m, th, k);
    }
  }

  lemma JoinedInnerOk(nodes: seq<Node>, sh: Shape, j: Joint, m: seq<Node>, th: Shape, n: Ptr)
    requires JoinedTree(nodes, sh, j, m, th) && IsInner(m, th, n)
    ensures InnerOk(m, th, n)
  {
    JoinedInner(nodes, sh, j, m, th, n);
    assert InnerOk(nodes, sh, n);
    var l, r := nodes[n].left, nodes[n].right;
    JoinedChild(nodes, sh, j, m, th, n, l, false);
    JoinedChild(nodes, sh, j, m, th, n, r, true);
    HeadInTop(nodes, sh, j.h);
    JoinedChildren(nodes, sh, j, m, th, n);
    var d, e := if l == j.h then NewHead(j) else l, if r == j.h then NewHead(j) else r;
    assert Spliced(nodes, sh, j, m, th, n) && Spliced(nodes, sh, j, m, th, d) && Spliced(nodes, sh, j, m, th, e);
  }

  lemma JoinedChildren(nodes: seq<Node>, sh: Shape, j: Joint, m: seq<Node>, th: Shape, n: Ptr)
    requires JoinedTree(nodes, sh, j, m, th) && IsInner(nodes, sh, n) && m[n].Inner?
    ensures m[n].left == (if nodes[n].left == j.h then NewHead(j) else nodes[n].left)
    ensures m[n].right == (if nodes[n].right == j.h then NewHead(j) else nodes[n].right)
  {
    assert InnerOk(nodes, sh, n);
    assert Spliced(nodes, sh, j, m, th, n);
    Above(nodes, sh, j.h);
    HeadInTop(nodes, sh, j.h);
  }

  lemma JoinedAlike(nodes: seq<Node>, sh: Shape, j: Joint, m: seq<Node>, th: Shape, n: Ptr, a: Ptr, b: Ptr)
    requires JoinedTree(nodes, sh, j, m, th)
    ensures Alike(m, th, n, a, b)
  {
    if IsInner(m, th, n) && a in th.under[n] && b in th.under[n] {
      JoinedInner(nodes, sh, j, m, th, n);
      assert Spliced(nodes, sh, j, m, th, n) && Spliced(nodes, sh, j, m, th, a) && Spliced(nodes, sh, j, m, th, b);
      HeadInTop(nodes, sh, j.h);
      var c, d := if a == j.tt then j.h else a, if b == j.tt then j.h else b;
      assert Alike(nodes, sh, n, c, d);
    }
  }

  lemma JoinedOtherMember(nodes: seq<Node>, sh: Shape, j: Joint, m: seq<Node>, th: Shape, g: Ptr, i: nat)
    requires JoinedTree(nodes, sh, j, m, th) && IsHead(nodes, sh, g) && g != j.h && th.chain[g] == sh.chain[g]
    ensures Member(m, th, g, i)
  {
    HeadInTop(nodes, sh, j.h);
    assert HeadOk(nodes, sh, g) && Member(nodes, sh, g, i);
    if i < |sh.chain[g]| {
      var k := sh.chain[g][i];
      JoinedLeaf(nodes, sh, j, m, th, k);
      assert Spliced(nodes, sh, j, m, th, k) && Spliced(nodes, sh, j, m, th, g);
      ChainsApart(nodes, sh, j.h, g, k);
    }
  }

  /** Chains do not share members: every member's own links say where it is. */
  lemma {:induction false} ChainIndex(nodes: seq<Node>, sh: Shape, g: Ptr, h: Ptr, i: nat, q: nat)
    requires TreeInv(nodes, sh) && IsHead(nodes, sh, g) && IsHead(nodes, sh, h)
    requires i < |sh.chain[g]| && q < |sh.chain[h]| && sh.chain[g][i] == sh.chain[h][q]
    ensures g == h
    decreases i
  {
    assert HeadOk(nodes, sh, g) && HeadOk(nodes, sh, h);
    assert Member(nodes, sh, g, i) && Member(nodes, sh, h, q) && Member(nodes, sh, g, 0) && Member(nodes, sh, h, 0);
    if i > 0 && q > 0 {
      ChainIndex(nodes, sh, g, h, i - 1, q - 1);
    }
  }

  lemma ChainsApart(nodes: seq<Node>, sh: Shape, g: Ptr, h: Ptr, k: Ptr)
    requires TreeInv(nodes, sh) && IsHead(nodes, sh, g) && IsHead(nodes, sh, h) && g != h && k in sh.chain[h]
    ensures k !in sh.chain[g]
  {
    if k in sh.chain[g] {
      var i :| 0 <= i < |sh.chain[g]| && sh.chain[g][i] == k;
      var q :| 0 <= q < |sh.chain[h]| && sh.chain[h][q] == k;
      ChainIndex(nodes, sh, g, h, i, q);
    }
  }

  lemma JoinedMemberBefore(nodes: seq<Node>, sh: Shape, j: Joint, m: seq<Node>, th: Shape, i: nat)
    requires JoinedTree(nodes, sh, j, m, th) && th.chain[NewHead(j)] == Joined(sh.chain[j.h], j.i, j.tt) && i < j.i
    ensures Member(m, th, NewHead(j), i)
  {
    var k := sh.chain[j.h][i];
    assert HeadOk(nodes, sh, j.h) && Member(nodes, sh, j.h, i) && Member(nodes, sh, j.h, i + 1);
    JoinedLeaf(nodes, sh, j, m, th, k);
    assert Spliced(nodes, sh, j, m, th, k) && Spliced(nodes, sh, j, m, th, NewHead(j));
  }

  lemma JoinedMemberAfter(nodes: seq<Node>, sh: Shape, j: Joint, m: seq<Node>, th: Shape, i: nat)
    requires JoinedTree(nodes, sh, j, m, th) && th.chain[NewHead(j)] == Joined(sh.chain[j.h], j.i, j.tt)
    requires j.i < i <= |sh.chain[j.h]|
    ensures Member(m, th, NewHead(j), i)
  {
    var k := sh.chain[j.h][i - 1];
    assert HeadOk(nodes, sh, j.h) && Member(nodes, sh, j.h, i - 1) && Member(nodes, sh, j.h, i);
    HeadInTop(nodes, sh, j.h);
    JoinedLeaf(nodes, sh, j, m, th, k);
    assert Spliced(nodes, sh, j, m, th, k) && Spliced(nodes, sh, j, m, th, NewHead(j));
  }

  lemma JoinedMemberNew(nodes: seq<Node>, sh: Shape, j: Joint, m: seq<Node>, th: Shape)
    requires JoinedTree(nodes, sh, j, m, th) && th.chain[NewHead(j)] == Joined(sh.chain[j.h], j.i, j.tt)
    ensures Member(m, th, NewHead(j), j.i)
  {
    HeadInTop(nodes, sh, j.h);
    JoinedLeaf(nodes, sh, j, m, th, j.tt);
    assert Spliced(nodes, sh, j, m, th, j.tt) && Spliced(nodes, sh, j, m, th, NewHead(j));
  }

  lemma JoinedMember(nodes: seq<Node>, sh: Shape, j: Joint, m: seq<Node>, th: Shape, i: nat)
    requires JoinedTree(nodes, sh, j, m, th) && th.chain[NewHead(j)] == Joined(sh.chain[j.h], j.i, j.tt)
    ensures Member(m, th, NewHead(j), i)
  {
    if i < j.i {
      JoinedMemberBefore(nodes, sh, j, m, th, i);
    } else if i == j.i {
      JoinedMemberNew(nodes, sh, j, m, th);
    } else if i <= |sh.chain[j.h]| {
      JoinedMemberAfter(nodes, sh, j, m, th, i);
    }
  }

  lemma JoinedHeadOk(nodes: seq<Node>, sh: Shape, j: Joint, m: seq<Node>, th: Shape, g: Ptr)
    requires JoinedTree(nodes, sh, j, m, th) && IsHead(m, th, g)
    ensures HeadOk(m, th, g)
  {
    JoinedHead(nodes, sh, j, m, th, g);
    HeadInTop(nodes, sh, j.h);
    assert Spliced(nodes, sh, j, m, th, g);
    assert HeadOk(nodes, sh, j.h);
    if g == NewHead(j) {
      forall i: nat ensures Member(m, th, g, i) {
        JoinedMember(nodes, sh, j, m, th, i);
      }
      JoinedSet(sh.chain[j.h], j.i, j.tt);
    } else {
      assert HeadOk(nodes, sh, g);
      if j.h in sh.under[g] { OnlyHead(nodes, sh, g, j.h); }
      forall i: nat ensures Member(m, th, g, i) {
        JoinedOtherMember(nodes, sh, j, m, th, g, i);
      }
    }
  }

  lemma JoinedSet(s: seq<Ptr>, i: nat, tt: Ptr)
    requires i <= |s|
    ensures (set k | k in Joined(s, i, tt)) == (set k | k in s) + {tt}
  {
    var r := Joined(s, i, tt);
    assert r[i] == tt;
    forall k | k in s ensures k in r {
      var q :| 0 <= q < |s| && s[q] == k;
      assert r[if q < i then q else q + 1] == k;
    }
  }

  lemma JoinedParent(nodes: seq<Node>, sh: Shape, j: Joint, m: seq<Node>, th: Shape, c: Ptr)
    requires JoinedTree(nodes, sh, j, m, th) && (IsInner(m, th, c) || IsHead(m, th, c))
    ensures ParentOk(m, th, c)
  {
    JoinedInner(nodes, sh, j, m, th, c);
    JoinedHead(nodes, sh, j, m, th, c);
    HeadInTop(nodes, sh, j.h);
    var d := if c == NewHead(j) then j.h else c;
    assert ParentOk(nodes, sh, d);
    assert Spliced(nodes, sh, j, m, th, c);
    if c != j.tt { JoinedParentField(nodes, sh, j, m, th, c); }
    if d != sh.top {
      JoinedInner(nodes, sh, j, m, th, nodes[d].parent);
      JoinedChildren(nodes, sh, j, m, th, nodes[d].parent);
    }
  }

  /** Joining a chain keeps the tree well formed. */
  lemma JoinedInv(nodes: seq<Node>, sh: Shape, j: Joint, m: seq<Node>, th: Shape)
    requires JoinedTree(nodes, sh, j, m, th)
    ensures TreeInv(m, th)
  {
    JoinedInner(nodes, sh, j, m, th, th.top);
    forall n | IsInner(m, th, n) ensures InnerOk(m, th, n) {
      JoinedInnerOk(nodes, sh, j, m, th, n);
    }
    forall n, a, b ensures Alike(m, th, n, a, b) {
      JoinedAlike(nodes, sh, j, m, th, n, a, b);
    }
    forall h | IsHead(m, th, h) ensures HeadOk(m, th, h) {
      JoinedHeadOk(nodes, sh, j, m, th, h);
    }
    forall c: Ptr | IsInner(m, th, c) || IsHead(m, th, c) ensures ParentOk(m, th, c) {
      JoinedParent(nodes, sh, j, m, th, c);
    }
    forall k | k in th.under[th.top] ensures IsLeaf(m, th, k) {
      JoinedTop(nodes, sh, j, m, th);
      JoinedLeaf(nodes, sh, j, m, th, k);
    }
  }

  lemma JoinedKeys(nodes: seq<Node>, sh: Shape, j: Joint, m: seq<Node>, th: Shape)
    requires JoinedTree(nodes, sh, j, m, th) && KeysOk(nodes, sh) && IsBits(j.v, j.vb)
    ensures KeysOk(m, th)
  {
    JoinedTop(nodes, sh, j, m, th);
    forall k | k < |m| && k in th.under[th.top] ensures m[k].Leaf? && IsBits(m[k].key, th.bits[k]) {
      JoinedLeaf(nodes, sh, j, m, th, k);
      assert Spliced(nodes, sh, j, m, th, k);
    }
  }

  ghost function JoinedShape(sh: Shape, j: Joint): Shape
    requires j.h < |sh.chain| == |sh.under| == |sh.bits| && j.i <= |sh.chain[j.h]| && j.tt < |sh.chain|
  {
    sh.(under := seq(|sh.under|, c requires 0 <= c < |sh.under| =>
                   if c == j.tt then (if j.i == 0 then sh.under[j.h] + {j.tt} else {})
                   else if c == j.h && j.i == 0 then {}
                   else if j.h in sh.under[c] then sh.under[c] + {j.tt} else sh.under[c]),
        chain := sh.chain[j.h := []][NewHead(j) := Joined(sh.chain[j.h], j.i, j.tt)],
        bits := sh.bits[j.tt := j.vb])
  }

  lemma JoinedByCells(nodes: seq<Node>, sh: Shape, j: Joint, m: seq<Node>)
    requires JointOk(nodes, sh, j) && |m| == |nodes| && forall c: Ptr :: Relinked(nodes, sh, j, m, c)
    ensures JoinedTree(nodes, sh, j, m, JoinedShape(sh, j))
  {
    HeadInTop(nodes, sh, j.h);
  }

  /** Link leaf tt in at the head of the chain, in front of t. */
  method JoinFirst(nodes: seq<Node>, ghost sh: Shape, ghost j: Joint, t: Ptr, tt: Ptr, v: Key) returns (m: seq<Node>)
    requires JointOk(nodes, sh, j) && j.h == t && j.tt == tt && j.v == v && j.i == 0
    ensures JoinedTree(nodes, sh, j, m, JoinedShape(sh, j))
  {
    HeadInTop(nodes, sh, t);
    assert ParentOk(nodes, sh, t);
    var x := nodes[t].parent;
    m := nodes[tt := Leaf(-1, v, 0, t, x, false, false, false)];
    m := m[t := WithParent(m[t], tt)];
    if m[x].left == t {
      m := m[x := m[x].(left := tt)];
    } else {
      m := m[x := m[x].(right := tt)];
    }
    JoinedByCells(nodes, sh, j, m);
  }

  /** Link leaf tt in behind member t. */
  method JoinAfter(nodes: seq<Node>, ghost sh: Shape, ghost j: Joint, t: Ptr, tt: Ptr, v: Key) returns (m: seq<Node>)
    requires JointOk(nodes, sh, j) && j.tt == tt && j.v == v && j.i > 0 && sh.chain[j.h][j.i - 1] == t
    ensures JoinedTree(nodes, sh, j, m, JoinedShape(sh, j))
  {
    assert HeadOk(nodes, sh, j.h) && Member(nodes, sh, j.h, j.i) && Member(nodes, sh, j.h, j.i - 1);
    var next := nodes[t].dup;
    m := nodes[tt := Leaf(-1, v, 0, next, t, false, false, false)];
    m := m[t := m[t].(dup := tt)];
    if next != 0 {
      m := m[next := WithParent(m[next], tt)];
    }
    JoinedByCells(nodes, sh, j, m);
  }
}
