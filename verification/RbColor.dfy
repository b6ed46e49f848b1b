/** Colours, and the two symmetries of the fix-up code: left and right, before and after a rotation. */
module RbColor {

  import opened RbShape

  // ---------- mirror images ----------

  /** Left and right exchanged. */
  function Mirror(m: Mem): Mem {
    m.(left := m.right, right := m.left)
  }

  function Flip(n: nat, i: nat): nat {
    if i <= n then n - i else i
  }

  function Reversed(s: seq<Ptr>): (r: seq<Ptr>)
    ensures |r| == |s| && forall i :: 0 <= i < |s| ==> r[i] == s[|s| - 1 - i]
  {
    seq(|s|, i requires 0 <= i < |s| => s[|s| - 1 - i])
  }

  lemma ReversedTwice(s: seq<Ptr>)
    ensures Reversed(Reversed(s)) == s
  {}

  function MirrorView(v: View): View
    requires |v.pos| == |v.lo| == |v.hi| == |v.bh|
  {
    var n := |v.order|;
    View(Reversed(v.order),
         seq(|v.pos|, c requires 0 <= c < |v.pos| => if v.pos[c] < n then n - 1 - v.pos[c] else v.pos[c]),
         seq(|v.pos|, c requires 0 <= c < |v.pos| => Flip(n, v.hi[c])),
         seq(|v.pos|, c requires 0 <= c < |v.pos| => Flip(n, v.lo[c])),
         v.bh)
  }

  /** w is the mirror image of v, cell by cell. */
  ghost predicate Mirrored(m: Mem, v: View, w: View, c: Ptr)
    requires Sized(m, v) && Sized(m, w)
  {
    c < |m.key| ==>
      && (In(m, v, c) <==> In(m, w, c))
      && (In(m, v, c) ==> w.pos[c] == |v.order| - 1 - v.pos[c])
      && w.lo[c] == Flip(|v.order|, v.hi[c]) && w.hi[c] == Flip(|v.order|, v.lo[c])
  }

  lemma MirroredCell(m: Mem, v: View, c: Ptr)
    requires Sized(m, v)
    ensures Sized(m, MirrorView(v)) && Sized(Mirror(m), MirrorView(v)) && Mirrored(m, v, MirrorView(v), c)
  {}

  lemma MirroredChild(m: Mem, v: View, w: View, n: Ptr, c: Ptr, a: nat, b: nat)
    requires Sized(m, v) && Sized(m, w) && |w.order| == |v.order| && a <= b <= |v.order| && c < |m.key|
    requires Child(m, v, n, c, a, b) && Mirrored(m, v, w, c)
    ensures Sized(Mirror(m), w) && Child(Mirror(m), w, n, c, |v.order| - b, |v.order| - a)
  {}

  lemma MirroredNode(m: Mem, v: View, n: Ptr)
    requires Links(m, v)
    ensures Sized(Mirror(m), MirrorView(v)) && NodeOk(Mirror(m), MirrorView(v), n)
  {
    var w := MirrorView(v);
    MirroredCell(m, v, n);
    if In(m, v, n) {
      assert NodeOk(m, v, n);
      MirroredCell(m, v, m.left[n]);
      MirroredCell(m, v, m.right[n]);
      MirroredChild(m, v, w, n, m.left[n], v.lo[n], v.pos[n]);
      MirroredChild(m, v, w, n, m.right[n], v.pos[n] + 1, v.hi[n]);
    }
  }

  /** The mirror image of a tree is a tree with the reversed order. */
  lemma MirroredLinks(m: Mem, v: View)
    requires Links(m, v)
    ensures Links(Mirror(m), MirrorView(v))
  {
    var w := MirrorView(v);
    MirroredCell(m, v, m.root);
    forall n: Ptr ensures NodeOk(Mirror(m), w, n) {
      MirroredNode(m, v, n);
    }
    forall n: Ptr ensures ParentOk(Mirror(m), w, n) {
      MirroredCell(m, v, n);
      if In(m, v, n) && n != m.root {
        assert ParentOk(m, v, n);
        MirroredCell(m, v, m.parent[n]);
      }
    }
    forall i: nat ensures OrderOk(Mirror(m), w, i) {
      if i < |w.order| {
        assert OrderOk(m, v, |v.order| - 1 - i);
        MirroredCell(m, v, w.order[i]);
      }
    }
  }

  // ---------- colours ----------

  /** A red node has no red child, except perhaps z. */
  ghost predicate RedOk(m: Mem, v: View, z: Ptr, n: Ptr)
    requires Sized(m, v)
  {
    In(m, v, n) && m.red[n] ==>
      && m.left[n] < |m.key| && m.right[n] < |m.key|
      && (m.red[m.left[n]] ==> m.left[n] == z) && (m.red[m.right[n]] ==> m.right[n] == z)
  }

  /** The black heights of the children agree, and add up. */
  ghost predicate BlackOk(m: Mem, v: View, n: Ptr)
    requires Sized(m, v)
  {
    In(m, v, n) ==>
      && m.left[n] < |m.key| && m.right[n] < |m.key|
      && Bh(m, v, m.left[n]) == Bh(m, v, m.right[n])
      && v.bh[n] == Bh(m, v, m.left[n]) + if m.red[n] then 0 else 1
  }

  /** The tree, coloured right but that the red node z may have a red parent. */
  ghost predicate ColoredBut(m: Mem, v: View, z: Ptr) {
    && Links(m, v) && !m.red[m.nil]
    && (forall n {:trigger RedOk(m, v, z, n)} :: RedOk(m, v, z, n))
    && (forall n {:trigger BlackOk(m, v, n)} :: BlackOk(m, v, n))
  }

  /** A red-black tree: coloured right, with a black root. */
  ghost predicate Colored(m: Mem, v: View) {
    ColoredBut(m, v, 0) && !m.red[m.root]
  }

  lemma MirroredColors(m: Mem, v: View, z: Ptr)
    requires ColoredBut(m, v, z)
    ensures ColoredBut(Mirror(m), MirrorView(v), z)
  {
    var w := MirrorView(v);
    MirroredLinks(m, v);
    forall n: Ptr ensures RedOk(Mirror(m), w, z, n) {
      MirroredCell(m, v, n);
      assert RedOk(m, v, z, n);
    }
    forall n: Ptr ensures BlackOk(Mirror(m), w, n) {
      MirroredCell(m, v, n);
      assert BlackOk(m, v, n);
    }
  }

  /** Colours and black heights do not matter to the links. */
  lemma RecoloredLinks(m: Mem, v: View, m': Mem, v': View)
    requires Links(m, v) && m' == m.(red := m'.red) && |m'.red| == |m.red| && v' == v.(bh := v'.bh) && |v'.bh| == |v.bh|
    ensures Links(m', v')
  {
    forall n: Ptr ensures NodeOk(m', v', n) { assert NodeOk(m, v, n); }
    forall n: Ptr ensures ParentOk(m', v', n) { assert ParentOk(m, v, n); }
    forall i: nat ensures OrderOk(m', v', i) { assert OrderOk(m, v, i); }
  }
}
