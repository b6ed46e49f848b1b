/**
 The red-black tree of filters and members: nodes linked in place, with one shared sentinel.

 Nodes are cells of a memory and pointers are cell numbers; cell 0 is the null pointer. A view
 gives the memory its meaning: the nodes in search order, for every node the stretch of that order
 that its subtree holds, and its black height.
 */
module RbShape {

  type Ptr = nat

  /** The fields of every al_rbtree_node_t, the root and the sentinel. */
  datatype Mem = Mem(
    key: seq<nat>, left: seq<Ptr>, right: seq<Ptr>, parent: seq<Ptr>, red: seq<bool>, root: Ptr, nil: Ptr)

  /** The subtree of node n holds order[lo[n]..hi[n]], n itself being order[pos[n]]. */
  datatype View = View(order: seq<Ptr>, pos: seq<nat>, lo: seq<nat>, hi: seq<nat>, bh: seq<nat>)

  ghost predicate Sized(m: Mem, v: View) {
    && |m.left| == |m.right| == |m.parent| == |m.red| == |m.key|
    && |v.pos| == |v.lo| == |v.hi| == |v.bh| == |m.key|
    && 0 < m.nil < |m.key|
  }

  /** n is a node of the tree. */
  ghost predicate In(m: Mem, v: View, n: Ptr)
    requires Sized(m, v)
  {
    0 < n < |m.key| && n != m.nil && v.pos[n] < |v.order| && v.order[v.pos[n]] == n
  }

  /** The child c holds order[a..b], and is the sentinel exactly when that is empty. */
  ghost predicate Child(m: Mem, v: View, n: Ptr, c: Ptr, a: nat, b: nat)
    requires Sized(m, v)
  {
    if a == b then c == m.nil
    else In(m, v, c) && m.parent[c] == n && v.lo[c] == a && v.hi[c] == b
  }

  ghost predicate NodeOk(m: Mem, v: View, n: Ptr)
    requires Sized(m, v)
  {
    In(m, v, n) ==>
      && v.lo[n] <= v.pos[n] < v.hi[n] <= |v.order|
      && Child(m, v, n, m.left[n], v.lo[n], v.pos[n])
      && Child(m, v, n, m.right[n], v.pos[n] + 1, v.hi[n])
  }

  ghost predicate ParentOk(m: Mem, v: View, n: Ptr)
    requires Sized(m, v)
  {
    In(m, v, n) && n != m.root ==>
      In(m, v, m.parent[n]) && (m.left[m.parent[n]] == n || m.right[m.parent[n]] == n)
  }

  ghost predicate OrderOk(m: Mem, v: View, i: nat)
    requires Sized(m, v)
  {
    i < |v.order| ==> In(m, v, v.order[i]) && v.pos[v.order[i]] == i
  }

  /** The links, in full: the search tree without its keys and colours. */
  ghost predicate Links(m: Mem, v: View) {
    && Sized(m, v)
    && (if v.order == [] then m.root == m.nil else In(m, v, m.root) && v.lo[m.root] == 0 && v.hi[m.root] == |v.order|)
    && (forall n {:trigger NodeOk(m, v, n)} :: NodeOk(m, v, n))
    && (forall n {:trigger ParentOk(m, v, n)} :: ParentOk(m, v, n))
    && (forall i {:trigger OrderOk(m, v, i)} :: OrderOk(m, v, i))
  }

  /** Black nodes below and including c on any path; none for the sentinel. */
  function Bh(m: Mem, v: View, c: Ptr): nat
    requires c < |v.bh|
  {
    if c == m.nil then 0 else v.bh[c]
  }

  // ---------- rotation ----------

  /** What al_rbtree_left_rotate writes. */
  function LeftRotated(m: Mem, x: Ptr): Mem
    requires |m.left| == |m.right| == |m.parent| == |m.key| && x < |m.key| && m.right[x] < |m.key|
    requires m.left[m.right[x]] < |m.key|
    requires x != m.root ==> m.parent[x] < |m.key|
  {
    var y := m.right[x];
    var m1 := m.(right := m.right[x := m.left[y]]);
    var m2 := if m1.left[y] != m.nil then m1.(parent := m1.parent[m1.left[y] := x]) else m1;
    var m3 := m2.(parent := m2.parent[y := m2.parent[x]]);
    var m4 := if x == m.root then m3.(root := y)
              else if x == m3.left[m3.parent[x]] then m3.(left := m3.left[m3.parent[x] := y])
              else m3.(right := m3.right[m3.parent[x] := y]);
    m4.(left := m4.left[y := x], parent := m4.parent[x := y])
  }

  ghost function LeftRotatedView(m: Mem, v: View, x: Ptr, y: Ptr): View
    requires Sized(m, v) && x < |m.key| && y < |m.key|
  {
    v.(lo := v.lo[y := v.lo[x]], hi := v.hi[y := v.hi[x]][x := v.pos[y]])
  }

  /** x has a right child, y, to rotate up. */
  ghost predicate CanRotate(m: Mem, v: View, x: Ptr, y: Ptr) {
    && Links(m, v) && In(m, v, x) && In(m, v, y) && y == m.right[x] && y != x
    && m.left[y] < |m.key| && (x != m.root ==> m.parent[x] < |m.key|)
  }

  lemma RotationReady(m: Mem, v: View, x: Ptr)
    requires Links(m, v) && In(m, v, x) && m.right[x] != m.nil
    ensures CanRotate(m, v, x, m.right[x])
    ensures x != m.root ==> In(m, v, m.parent[x]) && m.parent[x] != x && m.parent[x] != m.right[x]
    ensures m.left[m.right[x]] != m.nil ==> In(m, v, m.left[m.right[x]]) && m.left[m.right[x]] != x
    ensures m.left[m.right[x]] != m.nil ==> m.left[m.right[x]] != m.right[x]
  {
    assert NodeOk(m, v, x) && ParentOk(m, v, x) && NodeOk(m, v, m.right[x]);
    if x != m.root { assert NodeOk(m, v, m.parent[x]); }
  }

  /** The links of node n after the rotation. */
  ghost predicate Turned(m: Mem, v: View, x: Ptr, y: Ptr, m': Mem, v': View, n: Ptr)
    requires CanRotate(m, v, x, y) && Sized(m', v') && |m'.key| == |m.key|
  {
    In(m, v, n) ==>
      && m'.left[n] == (if n == y then x
                        else if x != m.root && n == m.parent[x] && m.left[n] == x then y else m.left[n])
      && m'.right[n] == (if n == x then m.left[y]
                         else if x != m.root && n == m.parent[x] && m.left[n] != x then y else m.right[n])
      && m'.parent[n] == (if n == x then y else if n == y then m.parent[x]
                          else if n == m.left[y] then x else m.parent[n])
      && v'.lo[n] == (if n == y then v.lo[x] else v.lo[n])
      && v'.hi[n] == (if n == y then v.hi[x] else if n == x then v.pos[y] else v.hi[n])
  }

  /** m' and v' are m and v after rotating y up over x. */
  ghost predicate Rotated(m: Mem, v: View, x: Ptr, y: Ptr, m': Mem, v': View) {
    && CanRotate(m, v, x, y) && Sized(m', v') && m'.key == m.key && m'.red == m.red && m'.nil == m.nil
    && m'.root == (if x == m.root then y else m.root) && m'.parent[m.nil] == m.parent[m.nil]
    && v'.order == v.order && v'.pos == v.pos && v'.bh == v.bh
    && (forall n {:trigger Turned(m, v, x, y, m', v', n)} :: Turned(m, v, x, y, m', v', n))
  }

  lemma TurnedLinks(m: Mem, v: View, x: Ptr, y: Ptr, n: Ptr)
    requires CanRotate(m, v, x, y) && In(m, v, n)
    ensures var m' := LeftRotated(m, x);
      && m'.left[n] == (if n == y then x
                        else if x != m.root && n == m.parent[x] && m.left[n] == x then y else m.left[n])
      && m'.right[n] == (if n == x then m.left[y]
                         else if x != m.root && n == m.parent[x] && m.left[n] != x then y else m.right[n])
  {
    RotationReady(m, v, x);
  }

  lemma TurnedParent(m: Mem, v: View, x: Ptr, y: Ptr, n: Ptr)
    requires CanRotate(m, v, x, y) && (In(m, v, n) || n == m.nil)
    ensures n != m.nil ==>
              LeftRotated(m, x).parent[n] == (if n == x then y else if n == y then m.parent[x]
                                              else if n == m.left[y] then x else m.parent[n])
    ensures n == m.nil ==> LeftRotated(m, x).parent[n] == m.parent[n]
  {
    RotationReady(m, v, x);
  }

  lemma RotatedByWrites(m: Mem, v: View, x: Ptr, y: Ptr)
    requires CanRotate(m, v, x, y)
    ensures Rotated(m, v, x, y, LeftRotated(m, x), LeftRotatedView(m, v, x, y))
  {
    var m', v' := LeftRotated(m, x), LeftRotatedView(m, v, x, y);
    forall n: Ptr ensures Turned(m, v, x, y, m', v', n) { TurnedCell(m, v, x, y, n); }
    TurnedParent(m, v, x, y, m.nil);
  }

  lemma TurnedCell(m: Mem, v: View, x: Ptr, y: Ptr, n: Ptr)
    requires CanRotate(m, v, x, y)
    ensures Turned(m, v, x, y, LeftRotated(m, x), LeftRotatedView(m, v, x, y), n)
  {
    if In(m, v, n) {
      TurnedLinks(m, v, x, y, n);
      TurnedParent(m, v, x, y, n);
    }
  }

  /** A child away from the rotation. */
  lemma RotatedChild(m: Mem, v: View, x: Ptr, y: Ptr, m': Mem, v': View, n: Ptr, c: Ptr, a: nat, b: nat)
    requires Rotated(m, v, x, y, m', v') && Child(m, v, n, c, a, b) && c != x && c != y
    requires (c == m.nil || c != m.left[y])
    ensures Child(m', v', n, c, a, b)
  {
    assert Turned(m, v, x, y, m', v', c);
  }

  lemma RotatedAtX(m: Mem, v: View, x: Ptr, y: Ptr, m': Mem, v': View)
    requires Rotated(m, v, x, y, m', v')
    ensures NodeOk(m', v', x)
  {
    RotationReady(m, v, x);
    assert Turned(m, v, x, y, m', v', x) && Turned(m, v, x, y, m', v', m.left[y]);
    assert NodeOk(m, v, x) && NodeOk(m, v, y);
    RotatedChild(m, v, x, y, m', v', x, m.left[x], v.lo[x], v.pos[x]);
  }

  lemma RotatedAtY(m: Mem, v: View, x: Ptr, y: Ptr, m': Mem, v': View)
    requires Rotated(m, v, x, y, m', v')
    ensures NodeOk(m', v', y)
  {
    RotationReady(m, v, x);
    assert Turned(m, v, x, y, m', v', x) && Turned(m, v, x, y, m', v', y);
    assert NodeOk(m, v, x) && NodeOk(m, v, y);
    RotatedChild(m, v, x, y, m', v', y, m.right[y], v.pos[y] + 1, v.hi[y]);
  }

  /** The child that was x is y now. */
  lemma RotatedTop(m: Mem, v: View, x: Ptr, y: Ptr, m': Mem, v': View, n: Ptr, a: nat, b: nat)
    requires Rotated(m, v, x, y, m', v') && a < b && Child(m, v, n, x, a, b)
    ensures Child(m', v', n, y, a, b)
  {
    assert Turned(m, v, x, y, m', v', y);
  }

  /** The children of a node after the rotation. */
  lemma RotatedKids(m: Mem, v: View, x: Ptr, y: Ptr, m': Mem, v': View, n: Ptr)
    requires Rotated(m, v, x, y, m', v') && In(m, v, n)
    ensures n == x ==> m'.left[n] == m.left[n] && m'.right[n] == m.left[y] && m'.parent[n] == y
    ensures n == y ==> m'.left[n] == x && m'.right[n] == m.right[n] && m'.parent[n] == m.parent[x]
    ensures n != x && n != y ==> m'.left[n] == (if m.left[n] == x then y else m.left[n])
    ensures n != x && n != y ==> m'.right[n] == (if m.right[n] == x then y else m.right[n])
    ensures m.left[n] != y && (n != x ==> m.right[n] != y)
  {
    RotationReady(m, v, x);
    assert Turned(m, v, x, y, m', v', n) && NodeOk(m, v, n) && NodeOk(m, v, x);
    if x != m.root { assert ParentOk(m, v, x) && NodeOk(m, v, m.parent[x]); } else { NotAChild(m, v, n); }
  }

  /** The root is nobody's child. */
  lemma NotAChild(m: Mem, v: View, n: Ptr)
    requires Links(m, v) && In(m, v, n)
    ensures m.left[n] != m.root && m.right[n] != m.root
  {
    assert NodeOk(m, v, n);
  }

  /** A child of any other node. */
  lemma RotatedSide(m: Mem, v: View, x: Ptr, y: Ptr, m': Mem, v': View, n: Ptr, c: Ptr, a: nat, b: nat)
    requires Rotated(m, v, x, y, m', v') && In(m, v, n) && n != x && n != y && a <= b && Child(m, v, n, c, a, b)
    ensures Child(m', v', n, if c == x then y else c, a, b)
  {
    assert NodeOk(m, v, x) && NodeOk(m, v, y);
    if c == x {
      RotatedTop(m, v, x, y, m', v', n, a, b);
    } else {
      RotatedChild(m, v, x, y, m', v', n, c, a, b);
    }
  }

  lemma RotatedElsewhere(m: Mem, v: View, x: Ptr, y: Ptr, m': Mem, v': View, n: Ptr)
    requires Rotated(m, v, x, y, m', v') && In(m, v, n) && n != x && n != y
    ensures NodeOk(m', v', n)
  {
    assert Turned(m, v, x, y, m', v', n) && NodeOk(m, v, n);
    RotatedKids(m, v, x, y, m', v', n);
    RotatedSide(m, v, x, y, m', v', n, m.left[n], v.lo[n], v.pos[n]);
    RotatedSide(m, v, x, y, m', v', n, m.right[n], v.pos[n] + 1, v.hi[n]);
  }

  lemma RotatedParent(m: Mem, v: View, x: Ptr, y: Ptr, m': Mem, v': View, n: Ptr)
    requires Rotated(m, v, x, y, m', v')
    ensures ParentOk(m', v', n)
  {
    if In(m, v, n) && n != m'.root {
      RotationReady(m, v, x);
      assert Turned(m, v, x, y, m', v', n) && ParentOk(m, v, n);
      assert Turned(m, v, x, y, m', v', m'.parent[n]);
      assert NodeOk(m, v, x) && NodeOk(m, v, y) && ParentOk(m, v, x);
      if n != x && n != y && m.parent[n] != x { assert NodeOk(m, v, m.parent[n]); }
    }
  }

  /** A rotation keeps the tree, and its order. */
  lemma RotatedLinks(m: Mem, v: View, x: Ptr, y: Ptr, m': Mem, v': View)
    requires Rotated(m, v, x, y, m', v')
    ensures Links(m', v')
  {
    assert Turned(m, v, x, y, m', v', m'.root) && NodeOk(m, v, x);
    forall n ensures NodeOk(m', v', n) {
      if In(m, v, n) {
        if n == x {
          RotatedAtX(m, v, x, y, m', v');
        } else if n == y {
          RotatedAtY(m, v, x, y, m', v');
        } else {
          RotatedElsewhere(m, v, x, y, m', v', n);
        }
      }
    }
    forall n ensures ParentOk(m', v', n) {
      RotatedParent(m, v, x, y, m', v', n);
    }
    forall i ensures OrderOk(m', v', i) {
      assert OrderOk(m, v, i);
    }
  }
}
