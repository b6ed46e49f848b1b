/**
 The binary radix (Patricia) tree of the routing table: the node store, the shape that a
 well-formed store has, and what descending and climbing in it means.

 Nodes are cells of a store and pointers are cell numbers; cell 0 is the null pointer.
 Two kinds of tree are kept in this form: the tree of routes, and the tree that interns masks.
 */
module RadixTree {

  import opened RadixBits

  type Ptr = nat

  /** A radix_mask: an entry of an inner node's mask list. */
  datatype MaskEntry = MaskEntry(bit: int, normal: bool, leaf: Ptr, mask: Ptr)

  /**
   A radix_node. The bit of an inner node is the bit position it tests; the bit of a leaf is
   negative. A leaf's rn_mklist is null or leads to the leaf's own entry: `lifted` says which.
   */
  datatype Node =
    | Blank
    | Inner(bit: int, bmask: bv8, offset: nat, left: Ptr, right: Ptr, parent: Ptr, mklist: seq<MaskEntry>)
    | Leaf(bit: int, key: Key, mask: Ptr, dup: Ptr, parent: Ptr, normal: bool, root: bool, lifted: bool)

  /** A leaf with the mask, the index and the flag of another. */
  function Labelled(n: Node, labels: Node): Node
    requires n.Leaf? && labels.Leaf?
  {
    n.(mask := labels.mask, bit := labels.bit, normal := labels.normal)
  }

  function WithParent(n: Node, p: Ptr): Node
    requires !n.Blank?
  {
    n.(parent := p)
  }

  /**
   What a store represents, cell by cell. `under` gives every node of the tree the leaves below
   it and every other cell the empty set, `chain` gives the head of every duplicated-key chain
   its members in order, `bits` gives every leaf its key. Only bits lo .. hi are significant.
   */
  datatype Shape = Shape(top: Ptr, lo: nat, hi: nat, under: seq<set<Ptr>>, chain: seq<seq<Ptr>>, bits: seq<Bits>)

  ghost predicate Sized(nodes: seq<Node>, sh: Shape) {
    && |sh.under| == |sh.chain| == |sh.bits| == |nodes|
    && sh.lo < sh.hi && sh.top < |nodes|
    && (forall k :: 0 <= k < |nodes| ==> |sh.bits[k]| >= sh.hi)
    && (forall c :: 0 <= c < |nodes| ==> sh.under[c] <= sh.under[sh.top])
  }

  /** n is an inner node of the tree. */
  ghost predicate IsInner(nodes: seq<Node>, sh: Shape, n: Ptr)
    requires Sized(nodes, sh)
  {
    0 < n < |nodes| && nodes[n].Inner? && sh.under[n] != {} && sh.lo <= nodes[n].bit < sh.hi
  }

  ghost predicate IsLeaf(nodes: seq<Node>, sh: Shape, k: Ptr)
    requires Sized(nodes, sh)
  {
    0 < k < |nodes| && nodes[k].Leaf? && nodes[k].bit < 0 && k in sh.under[sh.top]
  }

  /** h is the first leaf of a chain. */
  ghost predicate IsHead(nodes: seq<Node>, sh: Shape, h: Ptr)
    requires Sized(nodes, sh)
  {
    0 < h < |nodes| && nodes[h].Leaf? && nodes[h].bit < 0 && h in sh.under[h]
  }

  /** c is the child of inner node n on the given side. */
  ghost predicate ChildOk(nodes: seq<Node>, sh: Shape, n: Ptr, c: Ptr, side: bool)
    requires Sized(nodes, sh) && IsInner(nodes, sh, n)
  {
    && c != sh.top
    && ((IsInner(nodes, sh, c) && nodes[c].bit > nodes[n].bit) || IsHead(nodes, sh, c))
    && nodes[c].parent == n
    && forall k :: k in sh.under[c] ==> k < |nodes| && sh.bits[k][nodes[n].bit] == side
  }

  ghost predicate InnerOk(nodes: seq<Node>, sh: Shape, n: Ptr)
    requires Sized(nodes, sh)
  {
    && IsInner(nodes, sh, n)
    && nodes[n].bmask == BitMask(nodes[n].bit % 8) && nodes[n].offset == nodes[n].bit / 8
    && ChildOk(nodes, sh, n, nodes[n].left, false)
    && ChildOk(nodes, sh, n, nodes[n].right, true)
    && sh.under[n] == sh.under[nodes[n].left] + sh.under[nodes[n].right]
  }

  /** Leaves below one inner node agree on every bit before the node's. */
  ghost predicate Alike(nodes: seq<Node>, sh: Shape, n: Ptr, j: Ptr, k: Ptr)
    requires Sized(nodes, sh)
  {
    IsInner(nodes, sh, n) && j in sh.under[n] && k in sh.under[n] ==>
      j < |nodes| && k < |nodes| && Agree(sh.bits[j], sh.bits[k], sh.lo, nodes[n].bit)
  }

  /** Member i of the chain at h: same key, linked both ways to its neighbours. */
  ghost predicate Member(nodes: seq<Node>, sh: Shape, h: Ptr, i: nat)
    requires Sized(nodes, sh) && h < |nodes|
  {
    var s := sh.chain[h];
    i < |s| ==>
      && IsLeaf(nodes, sh, s[i])
      && nodes[s[i]].dup == (if i + 1 < |s| then s[i + 1] else 0)
      && (i > 0 ==> nodes[s[i]].parent == s[i - 1] && sh.under[s[i]] == {})
      && Agree(sh.bits[h], sh.bits[s[i]], sh.lo, sh.hi)
  }

  /** h heads a chain of leaves with one key. */
  ghost predicate HeadOk(nodes: seq<Node>, sh: Shape, h: Ptr)
    requires Sized(nodes, sh) && h < |nodes|
  {
    var s := sh.chain[h];
    && |s| > 0 && s[0] == h
    && sh.under[h] == (set k | k in s)
    && (forall i, j :: 0 <= i < j < |s| ==> s[i] != s[j])
    && (forall i {:trigger Member(nodes, sh, h, i)} :: Member(nodes, sh, h, i))
  }

  ghost predicate ParentOk(nodes: seq<Node>, sh: Shape, c: Ptr)
    requires Sized(nodes, sh)
  {
    if c == sh.top then IsInner(nodes, sh, c) && nodes[c].parent == c && nodes[c].bit == sh.lo
    else
      c < |nodes| && !nodes[c].Blank? &&
      var p := nodes[c].parent;
      IsInner(nodes, sh, p) && (nodes[p].left == c || nodes[p].right == c)
  }

  ghost predicate TreeInv(nodes: seq<Node>, sh: Shape) {
    && Sized(nodes, sh) && IsInner(nodes, sh, sh.top)
    && (forall n {:trigger InnerOk(nodes, sh, n)} :: IsInner(nodes, sh, n) ==> InnerOk(nodes, sh, n))
    && (forall n, j, k {:trigger Alike(nodes, sh, n, j, k)} :: Alike(nodes, sh, n, j, k))
    && (forall h {:trigger HeadOk(nodes, sh, h)} :: IsHead(nodes, sh, h) ==> HeadOk(nodes, sh, h))
    && (forall c {:trigger ParentOk(nodes, sh, c)} :: IsInner(nodes, sh, c) || IsHead(nodes, sh, c) ==>
        ParentOk(nodes, sh, c))
    && (forall k :: k in sh.under[sh.top] ==> IsLeaf(nodes, sh, k))
  }

  /** The bit of the parent, and -1 above the top. */
  function ParentBit(nodes: seq<Node>, sh: Shape, n: Ptr): int
  {
    if n == sh.top || n >= |nodes| || nodes[n].Blank? then -1
    else if nodes[n].parent >= |nodes| || nodes[nodes[n].parent].Blank? then -1
    else nodes[nodes[n].parent].bit
  }

  /** What a node knows about its parent. */
  lemma Above(nodes: seq<Node>, sh: Shape, n: Ptr)
    requires TreeInv(nodes, sh) && (IsInner(nodes, sh, n) || IsHead(nodes, sh, n)) && n != sh.top
    ensures var p := nodes[n].parent;
      && IsInner(nodes, sh, p) && nodes[p].bit == ParentBit(nodes, sh, n)
      && (nodes[p].left == n || nodes[p].right == n) && sh.under[n] <= sh.under[p]
      && (IsInner(nodes, sh, n) ==> nodes[p].bit < nodes[n].bit)
  {
    assert ParentOk(nodes, sh, n);
    assert InnerOk(nodes, sh, nodes[n].parent);
  }

  /** A leaf below n lies below the child on the side of its bit, and only there. */
  lemma Side(nodes: seq<Node>, sh: Shape, n: Ptr, c: Ptr, k: Ptr)
    requires TreeInv(nodes, sh) && IsInner(nodes, sh, n) && k in sh.under[n] && k < |nodes|
    requires c == if sh.bits[k][nodes[n].bit] then nodes[n].right else nodes[n].left
    ensures (IsInner(nodes, sh, c) || IsHead(nodes, sh, c)) && c != sh.top && k in sh.under[c]
    ensures nodes[c].parent == n && (IsInner(nodes, sh, c) ==> nodes[n].bit < nodes[c].bit)
    ensures forall d :: (d == nodes[n].left || d == nodes[n].right) && d < |nodes| && k in sh.under[d] ==> d == c
  {
    assert InnerOk(nodes, sh, n);
  }

  /** Every leaf is in some chain. */
  lemma {:induction false} HeadOver(nodes: seq<Node>, sh: Shape, n: Ptr, k: Ptr) returns (h: Ptr)
    requires TreeInv(nodes, sh) && (IsInner(nodes, sh, n) || IsHead(nodes, sh, n)) && k in sh.under[n] && k < |nodes|
    ensures IsHead(nodes, sh, h) && k in sh.under[h]
    decreases if IsHead(nodes, sh, n) then 0 else 1 + sh.hi - nodes[n].bit
  {
    if IsHead(nodes, sh, n) { return n; }
    var c := if sh.bits[k][nodes[n].bit] then nodes[n].right else nodes[n].left;
    Side(nodes, sh, n, c, k);
    h := HeadOver(nodes, sh, c, k);
  }

  /** Leaves j and k agree on every significant bit up to and including bit b. */
  ghost predicate SharePast(sh: Shape, j: Ptr, k: Ptr, b: int)
    requires j < |sh.bits| && k < |sh.bits| && |sh.bits[j]| >= sh.hi && |sh.bits[k]| >= sh.hi
  {
    forall i :: sh.lo <= i <= b && i < sh.hi ==> sh.bits[j][i] == sh.bits[k][i]
  }

  /** Every leaf that agrees with a leaf below n past the bit of n's parent is below n too. */
  lemma {:induction false} UnderByAgreement(nodes: seq<Node>, sh: Shape, n: Ptr, j: Ptr, k: Ptr)
    requires TreeInv(nodes, sh) && (IsInner(nodes, sh, n) || IsHead(nodes, sh, n))
    requires j in sh.under[n] && j < |nodes| && k in sh.under[sh.top] && k < |nodes|
    requires SharePast(sh, j, k, ParentBit(nodes, sh, n))
    ensures k in sh.under[n]
    decreases if n < |nodes| && nodes[n].Inner? then nodes[n].bit - sh.lo else sh.hi + 1
  {
    if n != sh.top {
      Above(nodes, sh, n);
      var p := nodes[n].parent;
      if p != sh.top { Above(nodes, sh, p); }
      UnderByAgreement(nodes, sh, p, j, k);
      Side(nodes, sh, p, if sh.bits[k][nodes[p].bit] then nodes[p].right else nodes[p].left, k);
      Side(nodes, sh, p, if sh.bits[j][nodes[p].bit] then nodes[p].right else nodes[p].left, j);
    }
  }

  lemma Siblings(nodes: seq<Node>, sh: Shape, m: Ptr, n: Ptr, k: Ptr)
    requires TreeInv(nodes, sh) && IsInner(nodes, sh, m) && IsInner(nodes, sh, n) && k in sh.under[m]
    requires k in sh.under[n]
    requires m != sh.top && n != sh.top && nodes[m].parent == nodes[n].parent
    ensures m == n
  {
    Above(nodes, sh, m);
    Above(nodes, sh, n);
    assert InnerOk(nodes, sh, nodes[m].parent);
  }

  /** Two inner nodes over a common leaf whose bit ranges overlap are one node. */
  lemma {:induction false} SameNode(nodes: seq<Node>, sh: Shape, m: Ptr, n: Ptr, k: Ptr)
    requires TreeInv(nodes, sh) && IsInner(nodes, sh, m) && IsInner(nodes, sh, n) && k in sh.under[m]
    requires k in sh.under[n]
    requires nodes[m].bit > ParentBit(nodes, sh, n) && nodes[n].bit > ParentBit(nodes, sh, m)
    ensures m == n
    decreases nodes[m].bit + nodes[n].bit - 2 * sh.lo
  {
    assert ParentOk(nodes, sh, sh.top);
    if m != sh.top { Above(nodes, sh, m); }
    if n != sh.top { Above(nodes, sh, n); }
    if m != sh.top && n != sh.top {
      var p, q := nodes[m].parent, nodes[n].parent;
      if p == q {
        Siblings(nodes, sh, m, n, k);
      } else {
        if p != sh.top { Above(nodes, sh, p); }
        if q != sh.top { Above(nodes, sh, q); }
        if nodes[p].bit < nodes[q].bit {
          SameNode(nodes, sh, m, q, k);
        } else if nodes[q].bit < nodes[p].bit {
          SameNode(nodes, sh, p, n, k);
        } else {
          SameNode(nodes, sh, p, q, k);
        }
      }
    }
  }

  /** Leaf j agrees with v at least as far as leaf k does. */
  ghost predicate AsClose(sh: Shape, v: Bits, j: Ptr, k: Ptr)
    requires j < |sh.bits| && k < |sh.bits| && |v| >= sh.hi && |sh.bits[j]| >= sh.hi && |sh.bits[k]| >= sh.hi
  {
    forall d :: sh.lo <= d <= sh.hi && Agree(v, sh.bits[k], sh.lo, d) ==> Agree(v, sh.bits[j], sh.lo, d)
  }

  /** No leaf outside the subtree at x is closer to v than the leaves inside. */
  ghost predicate Narrowed(nodes: seq<Node>, sh: Shape, v: Bits, x: Ptr)
    requires Sized(nodes, sh) && |v| >= sh.hi && x < |nodes|
  {
    forall j, k {:trigger AsClose(sh, v, j, k)} ::
      j < |nodes| && k < |nodes| && j in sh.under[x] && k in sh.under[sh.top] && k !in sh.under[x] ==>
          AsClose(sh, v, j, k)
  }

  /** No leaf at all is closer to v than t. */
  ghost predicate Closest(nodes: seq<Node>, sh: Shape, v: Bits, t: Ptr)
    requires Sized(nodes, sh) && |v| >= sh.hi && t < |nodes|
  {
    forall k {:trigger AsClose(sh, v, t, k)} :: k < |nodes| && k in sh.under[sh.top] ==> AsClose(sh, v, t, k)
  }

  lemma NarrowedStep(nodes: seq<Node>, sh: Shape, v: Bits, x: Ptr, c: Ptr)
    requires TreeInv(nodes, sh) && |v| >= sh.hi && IsInner(nodes, sh, x) && Narrowed(nodes, sh, v, x)
    requires c == if v[nodes[x].bit] then nodes[x].right else nodes[x].left
    ensures (IsInner(nodes, sh, c) && nodes[x].bit < nodes[c].bit) || IsHead(nodes, sh, c)
    ensures Narrowed(nodes, sh, v, c)
  {
    assert InnerOk(nodes, sh, x);
    forall j, k | j < |nodes| && k < |nodes| && j in sh.under[c] && k in sh.under[sh.top] && k !in sh.under[c]
      ensures AsClose(sh, v, j, k)
    {
      if k in sh.under[x] {
        assert Alike(nodes, sh, x, j, k);
        assert sh.bits[k][nodes[x].bit] != v[nodes[x].bit];
      }
    }
  }

  lemma ClosestAtHead(nodes: seq<Node>, sh: Shape, v: Bits, t: Ptr)
    requires TreeInv(nodes, sh) && |v| >= sh.hi && IsHead(nodes, sh, t) && Narrowed(nodes, sh, v, t)
    ensures Closest(nodes, sh, v, t)
  {
    assert HeadOk(nodes, sh, t);
    forall k | k < |nodes| && k in sh.under[sh.top] ensures AsClose(sh, v, t, k) {
      if k in sh.under[t] {
        var i :| 0 <= i < |sh.chain[t]| && sh.chain[t][i] == k;
        assert Member(nodes, sh, t, i);
      }
    }
  }

  /** Every leaf's key is stored in its cell. */
  ghost predicate KeysOk(nodes: seq<Node>, sh: Shape)
    requires Sized(nodes, sh)
  {
    && sh.lo % 8 == 0 && sh.hi % 8 == 0
    && forall k :: k < |nodes| && k in sh.under[sh.top] ==> nodes[k].Leaf? && IsBits(nodes[k].key, sh.bits[k])
  }

  /** rn_search: descend by the bits of v; the leaf reached is a closest one. */
  method Search(nodes: seq<Node>, top: Ptr, ghost sh: Shape, v: Key, ghost vb: Bits) returns (x: Ptr)
    requires TreeInv(nodes, sh) && top == sh.top && |vb| >= sh.hi && IsBits(v, vb)
    ensures IsHead(nodes, sh, x) && Closest(nodes, sh, vb, x)
  {
    x := top;
    while nodes[x].bit >= 0
      invariant IsInner(nodes, sh, x) || IsHead(nodes, sh, x)
      invariant Narrowed(nodes, sh, vb, x)
      decreases if nodes[x].Inner? then sh.hi - nodes[x].bit else 0
    {
      assert InnerOk(nodes, sh, x);
      NarrowedStep(nodes, sh, vb, x, if vb[nodes[x].bit] then nodes[x].right else nodes[x].left);
      var right := TestBit(v, nodes[x].bmask, nodes[x].offset, vb, nodes[x].bit);
      x := if right then nodes[x].right else nodes[x].left;
    }
    ClosestAtHead(nodes, sh, vb, x);
  }

  /** Two versions of a cell that differ only in what hangs on it: masks, flags and mask lists. */
  predicate SameLinks(a: Node, b: Node) {
    match (a, b)
    case (Inner(bit, bmask, offset, left, right, parent, _), Inner(bit', bmask', offset', left', right', parent', _)) =>
      bit == bit' && bmask == bmask' && offset == offset' && left == left' && right == right' && parent == parent'
    case (Leaf(bit, key, _, dup, parent, _, _, _), Leaf(bit', key', _, dup', parent', _, _, _)) =>
      (bit < 0 <==> bit' < 0) && key == key' && dup == dup' && parent == parent'
    case (Blank, Blank) => true
    case _ => false
  }

  ghost predicate Relabelled(nodes: seq<Node>, m: seq<Node>) {
    |m| == |nodes| && forall c {:trigger m[c]} :: 0 <= c < |m| ==> SameLinks(nodes[c], m[c])
  }

  /** The well-formedness of the tree does not depend on masks, flags and mask lists. */
  lemma RelabelledInv(nodes: seq<Node>, m: seq<Node>, sh: Shape)
    requires TreeInv(nodes, sh) && Relabelled(nodes, m)
    ensures TreeInv(m, sh) && (KeysOk(nodes, sh) ==> KeysOk(m, sh))
  {
    forall n | IsInner(m, sh, n) ensures InnerOk(m, sh, n) {
      RelabelledInner(nodes, m, sh, n);
    }
    forall n, j, k ensures Alike(m, sh, n, j, k) {
      assert Alike(nodes, sh, n, j, k);
    }
    forall h | IsHead(m, sh, h) ensures HeadOk(m, sh, h) {
      RelabelledHead(nodes, m, sh, h);
    }
    forall c: Ptr | IsInner(m, sh, c) || IsHead(m, sh, c) ensures ParentOk(m, sh, c) {
      assert ParentOk(nodes, sh, c);
      if c != sh.top { assert SameLinks(nodes[nodes[c].parent], m[nodes[c].parent]); }
    }
  }

  lemma RelabelledInner(nodes: seq<Node>, m: seq<Node>, sh: Shape, n: Ptr)
    requires TreeInv(nodes, sh) && Relabelled(nodes, m) && IsInner(m, sh, n)
    ensures InnerOk(m, sh, n)
  {
    assert SameLinks(nodes[n], m[n]);
    assert InnerOk(nodes, sh, n);
    assert SameLinks(nodes[nodes[n].left], m[nodes[n].left]);
    assert SameLinks(nodes[nodes[n].right], m[nodes[n].right]);
  }

  lemma RelabelledHead(nodes: seq<Node>, m: seq<Node>, sh: Shape, h: Ptr)
    requires TreeInv(nodes, sh) && Relabelled(nodes, m) && IsHead(m, sh, h)
    ensures HeadOk(m, sh, h)
  {
    assert SameLinks(nodes[h], m[h]);
    assert HeadOk(nodes, sh, h);
    forall i: nat ensures Member(m, sh, h, i) {
      assert Member(nodes, sh, h, i);
      if i < |sh.chain[h]| { assert SameLinks(nodes[sh.chain[h][i]], m[sh.chain[h][i]]); }
    }
  }
}
