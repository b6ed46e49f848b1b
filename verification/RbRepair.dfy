/** The fix-up loop of al_rbtree_delete: one subtree is short of one black node. */
module RbRepair {

  import opened RbShape
  import opened RbColor

  /** A red node other than t has no red child, except perhaps t. */
  ghost predicate RedBut(m: Mem, v: View, t: Ptr, n: Ptr)
    requires Sized(m, v)
  {
    In(m, v, n) && m.red[n] && n != t ==>
      && m.left[n] < |m.key| && m.right[n] < |m.key|
      && (m.red[m.left[n]] ==> m.left[n] == t) && (m.red[m.right[n]] ==> m.right[n] == t)
  }

  /**
   Black heights agree once the missing node, on the left or right of p, is counted. No node is
   missing when p is null.
   */
  ghost predicate BlackBut(m: Mem, v: View, p: Ptr, onLeft: bool, n: Ptr)
    requires Sized(m, v)
  {
    In(m, v, n) ==>
      && m.left[n] < |m.key| && m.right[n] < |m.key|
      && var l := Bh(m, v, m.left[n]) + if n == p && onLeft then 1 else 0;
         var r := Bh(m, v, m.right[n]) + if n == p && !onLeft then 1 else 0;
         l == r && v.bh[n] == l + if m.red[n] then 0 else 1
  }

  /** The colours, but for red node t and the missing black node. */
  ghost predicate Balanced(m: Mem, v: View, t: Ptr, p: Ptr, onLeft: bool) {
    && Links(m, v) && !m.red[m.nil] && t < |m.key|
    && (forall n {:trigger RedBut(m, v, t, n)} :: RedBut(m, v, t, n))
    && (forall n {:trigger BlackBut(m, v, p, onLeft, n)} :: BlackBut(m, v, p, onLeft, n))
  }

  /** Subtree t, a child of p, is short of one black node; with p null, t is the root and nothing is missing. */
  ghost predicate Short(m: Mem, v: View, t: Ptr, p: Ptr, onLeft: bool) {
    && Balanced(m, v, t, p, onLeft)
    && (p == 0 ==> t == m.root)
    && (p != 0 ==> In(m, v, p) && t == (if onLeft then m.left[p] else m.right[p]) && t != p && m.parent[t] == p)
    && (p != 0 && m.red[m.root] ==> m.root == t)
  }

  lemma MirroredShort(m: Mem, v: View, t: Ptr, p: Ptr, onLeft: bool)
    requires Short(m, v, t, p, onLeft)
    ensures Short(Mirror(m), MirrorView(v), t, p, !onLeft)
  {
    var w := MirrorView(v);
    MirroredLinks(m, v);
    MirroredCell(m, v, p);
    forall n: Ptr ensures RedBut(Mirror(m), w, t, n) {
      MirroredCell(m, v, n);
      assert RedBut(m, v, t, n);
    }
    var onRight := !onLeft;
    forall n: Ptr ensures BlackBut(Mirror(m), w, p, onRight, n) {
      MirroredCell(m, v, n);
      assert BlackBut(m, v, p, onLeft, n);
    }
  }

  /** The sibling is a node, and so is whatever else the loop dereferences. */
  lemma Sibling(m: Mem, v: View, t: Ptr, p: Ptr)
    requires Short(m, v, t, p, true) && p != 0
    ensures var w := m.right[p];
      In(m, v, w) && w != p && w != t && m.parent[w] == p && m.left[w] < |m.key| && m.right[w] < |m.key|
          && m.left[p] == t && m.right[p] != t
  {
    assert BlackBut(m, v, p, true, p) && NodeOk(m, v, p);
    var w := m.right[p];
    assert NodeOk(m, v, w) && BlackBut(m, v, p, true, w);
  }

  // ---------- a red sibling ----------

  ghost function RedSibling(m: Mem, v: View, p: Ptr, w: Ptr): (Mem, View)
    requires Sized(m, v) && p < |m.key| && w < |m.key|
  {
    (m.(red := m.red[w := false][p := true]), v.(bh := v.bh[w := v.bh[w] + 1][p := v.bh[w]]))
  }

  ghost predicate Leaning(m: Mem, v: View, t: Ptr, p: Ptr, w: Ptr, m': Mem, v': View) {
    && Short(m, v, t, p, true) && p != 0 && !m.red[t] && w == m.right[p] && In(m, v, w) && m.red[w] && w != p && w != t
    && var r := RedSibling(m, v, p, w); Rotated(r.0, r.1, p, w, m', v')
  }

  lemma LeaningRed(m: Mem, v: View, t: Ptr, p: Ptr, w: Ptr, m': Mem, v': View, n: Ptr)
    requires Leaning(m, v, t, p, w, m', v')
    ensures RedBut(m', v', t, n)
  {
    var (a, b) := RedSibling(m, v, p, w);
    if In(m, v, n) {
      RotatedKids(a, b, p, w, m', v', n);
      assert RedBut(m, v, t, n) && RedBut(m, v, t, w) && BlackBut(m, v, p, true, n) && BlackBut(m, v, p, true, w);
      assert NodeOk(m, v, n) && NodeOk(m, v, w) && NodeOk(m, v, p);
    }
  }

  lemma LeaningBlackHere(m: Mem, v: View, t: Ptr, p: Ptr, w: Ptr, m': Mem, v': View)
    requires Leaning(m, v, t, p, w, m', v')
    ensures BlackBut(m', v', p, true, p) && BlackBut(m', v', p, true, w)
  {
    var (a, b) := RedSibling(m, v, p, w);
    RotatedKids(a, b, p, w, m', v', p);
    RotatedKids(a, b, p, w, m', v', w);
    assert BlackBut(m, v, p, true, p) && BlackBut(m, v, p, true, w) && NodeOk(m, v, p) && NodeOk(m, v, w);
  }

  lemma LeaningBlack(m: Mem, v: View, t: Ptr, p: Ptr, w: Ptr, m': Mem, v': View, n: Ptr)
    requires Leaning(m, v, t, p, w, m', v') && In(m, v, n) && n != p && n != w
    ensures BlackBut(m', v', p, true, n)
  {
    var (a, b) := RedSibling(m, v, p, w);
    RotatedKids(a, b, p, w, m', v', n);
    assert BlackBut(m, v, p, true, n) && BlackBut(m, v, p, true, p) && BlackBut(m, v, p, true, w) && RedBut(m, v, t, p);
  }

  /** Rotating a red sibling up gives t a black one, and leaves p red. */
  lemma LeaningShort(m: Mem, v: View, t: Ptr, p: Ptr, w: Ptr, m': Mem, v': View)
    requires Leaning(m, v, t, p, w, m', v')
    ensures Short(m', v', t, p, true) && m'.red[p] && m'.right[p] < |m'.red| && !m'.red[m'.right[p]] && m'.root != p
  {
    var (a, b) := RedSibling(m, v, p, w);
    Sibling(m, v, t, p);
    RecoloredLinks(m, v, a, b);
    RotatedLinks(a, b, p, w, m', v');
    RotatedKids(a, b, p, w, m', v', p);
    assert NodeOk(m, v, p) && NodeOk(m, v, w) && RedBut(m, v, t, w);
    assert Turned(a, b, p, w, m', v', t);
    forall n: Ptr ensures RedBut(m', v', t, n) {
      LeaningRed(m, v, t, p, w, m', v', n);
    }
    forall n: Ptr ensures BlackBut(m', v', p, true, n) {
      LeaningBlackHere(m, v, t, p, w, m', v');
      if In(m, v, n) && n != p && n != w { LeaningBlack(m, v, t, p, w, m', v', n); }
    }
  }

  // ---------- a black sibling with black children ----------

  /** The sibling turns red, and the shortage moves up to p. */
  ghost function Lent(m: Mem, v: View, p: Ptr, w: Ptr): (Mem, View)
    requires Sized(m, v) && p < |m.key| && w < |m.key| && v.bh[p] > 0 && v.bh[w] > 0
  {
    (m.(red := m.red[w := true]), v.(bh := v.bh[w := v.bh[w] - 1][p := v.bh[p] - 1]))
  }

  ghost predicate Lending(m: Mem, v: View, t: Ptr, p: Ptr, w: Ptr) {
    && Short(m, v, t, p, true) && p != 0 && !m.red[t] && w == m.right[p] && In(m, v, w) && !m.red[w] && w != p && w != t
    && m.left[w] < |m.red| && m.right[w] < |m.red| && !m.red[m.left[w]] && !m.red[m.right[w]] && v.bh[p] > 0
        && v.bh[w] > 0
  }

  lemma LendingReady(m: Mem, v: View, t: Ptr, p: Ptr)
    requires Short(m, v, t, p, true) && p != 0 && m.right[p] < |m.red| && !m.red[m.right[p]]
    ensures v.bh[p] > 0 && v.bh[m.right[p]] > 0
  {
    Sibling(m, v, t, p);
    assert BlackBut(m, v, p, true, p) && BlackBut(m, v, p, true, m.right[p]);
  }

  /** The parent of p, where the shortage is now. */
  ghost predicate Above(m: Mem, v: View, p: Ptr, q: Ptr, onLeft: bool)
    requires Sized(m, v) && p < |m.key|
  {
    if p == m.root then q == 0 else q == m.parent[p] && In(m, v, q) && (onLeft <==> m.left[q] == p)
  }

  lemma LentBlackHere(m: Mem, v: View, t: Ptr, p: Ptr, w: Ptr, q: Ptr, onLeft: bool)
    requires Lending(m, v, t, p, w) && Above(m, v, p, q, onLeft)
    ensures var r := Lent(m, v, p, w); BlackBut(r.0, r.1, q, onLeft, p) && BlackBut(r.0, r.1, q, onLeft, w)
  {
    assert BlackBut(m, v, p, true, p) && BlackBut(m, v, p, true, w) && NodeOk(m, v, p) && NodeOk(m, v, w);
    if p != m.root { assert NodeOk(m, v, q) && ParentOk(m, v, p); }
  }

  lemma LentBlackAbove(m: Mem, v: View, t: Ptr, p: Ptr, w: Ptr, q: Ptr, onLeft: bool)
    requires Lending(m, v, t, p, w) && Above(m, v, p, q, onLeft) && p != m.root
    ensures var r := Lent(m, v, p, w); BlackBut(r.0, r.1, q, onLeft, q)
  {
    assert NodeOk(m, v, q) && ParentOk(m, v, p) && BlackBut(m, v, p, true, q) && NodeOk(m, v, p);
  }

  lemma LentBlack(m: Mem, v: View, t: Ptr, p: Ptr, w: Ptr, q: Ptr, onLeft: bool, n: Ptr)
    requires Lending(m, v, t, p, w) && Above(m, v, p, q, onLeft)
    requires In(m, v, n) && n != p && n != q && n != w
    ensures var r := Lent(m, v, p, w); BlackBut(r.0, r.1, q, onLeft, n)
  {
    assert BlackBut(m, v, p, true, n) && NodeOk(m, v, n) && NodeOk(m, v, p);
    if p == m.root { NotAChild(m, v, n); }
  }

  lemma LentRed(m: Mem, v: View, t: Ptr, p: Ptr, w: Ptr, n: Ptr)
    requires Lending(m, v, t, p, w)
    ensures var r := Lent(m, v, p, w); RedBut(r.0, r.1, p, n)
  {
    assert RedBut(m, v, t, n) && BlackBut(m, v, p, true, n) && NodeOk(m, v, n) && NodeOk(m, v, p);
  }

  lemma LentShort(m: Mem, v: View, t: Ptr, p: Ptr, w: Ptr, q: Ptr, onLeft: bool)
    requires Lending(m, v, t, p, w) && Above(m, v, p, q, onLeft)
    ensures var r := Lent(m, v, p, w); Short(r.0, r.1, p, q, onLeft)
    ensures q != 0 ==> v.lo[q] <= v.lo[p] <= v.hi[p] <= v.hi[q] <= |v.order| && v.hi[p] + v.lo[q] < v.hi[q] + v.lo[p]
  {
    var (m', v') := Lent(m, v, p, w);
    RecoloredLinks(m, v, m', v');
    assert ParentOk(m, v, p) && NodeOk(m, v, p);
    if q != 0 { assert NodeOk(m, v, q); }
    forall n: Ptr ensures RedBut(m', v', p, n) { LentRed(m, v, t, p, w, n); }
    LentBlackHere(m, v, t, p, w, q, onLeft);
    if p != m.root { LentBlackAbove(m, v, t, p, w, q, onLeft); }
    forall n: Ptr ensures BlackBut(m', v', q, onLeft, n) {
      if In(m, v, n) && n != p && n != q && n != w { LentBlack(m, v, t, p, w, q, onLeft, n); }
    }
    SiblingNotRoot(m, v, p, w);
  }

  lemma SiblingNotRoot(m: Mem, v: View, p: Ptr, w: Ptr)
    requires Links(m, v) && In(m, v, p) && m.right[p] == w
    ensures w != m.root
  {
    NotAChild(m, v, p);
  }

  // ---------- a black sibling with a red inner child; t is on the right here ----------

  ghost predicate Tilting(m: Mem, v: View, t: Ptr, p: Ptr, w: Ptr, c: Ptr, m': Mem, v': View) {
    && Short(m, v, t, p, false) && p != 0 && !m.red[t] && w == m.left[p] && In(m, v, w) && !m.red[w] && w != p && w != t
    && c == m.right[w] && In(m, v, c) && m.red[c] && c != w && c != p && c != t && m.left[w] < |m.red|
        && !m.red[m.left[w]]
    && var r := RedSibling(m, v, w, c); Rotated(r.0, r.1, w, c, m', v')
  }

  lemma TiltingRed(m: Mem, v: View, t: Ptr, p: Ptr, w: Ptr, c: Ptr, m': Mem, v': View, n: Ptr)
    requires Tilting(m, v, t, p, w, c, m', v')
    ensures RedBut(m', v', t, n)
  {
    var (a, b) := RedSibling(m, v, w, c);
    if In(m, v, n) {
      RotatedKids(a, b, w, c, m', v', n);
      assert RedBut(m, v, t, n) && RedBut(m, v, t, c) && BlackBut(m, v, p, false, n) && BlackBut(m, v, p, false, c);
      assert NodeOk(m, v, n) && NodeOk(m, v, c) && NodeOk(m, v, w);
    }
  }

  lemma TiltingBlackHere(m: Mem, v: View, t: Ptr, p: Ptr, w: Ptr, c: Ptr, m': Mem, v': View)
    requires Tilting(m, v, t, p, w, c, m', v')
    ensures BlackBut(m', v', p, false, w) && BlackBut(m', v', p, false, c)
  {
    var (a, b) := RedSibling(m, v, w, c);
    RotatedKids(a, b, w, c, m', v', w);
    RotatedKids(a, b, w, c, m', v', c);
    assert BlackBut(m, v, p, false, w) && BlackBut(m, v, p, false, c) && NodeOk(m, v, w) && NodeOk(m, v, c);
  }

  lemma TiltingBlack(m: Mem, v: View, t: Ptr, p: Ptr, w: Ptr, c: Ptr, m': Mem, v': View, n: Ptr)
    requires Tilting(m, v, t, p, w, c, m', v') && In(m, v, n) && n != w && n != c
    ensures BlackBut(m', v', p, false, n)
  {
    var (a, b) := RedSibling(m, v, w, c);
    RotatedKids(a, b, w, c, m', v', n);
    assert BlackBut(m, v, p, false, n) && BlackBut(m, v, p, false, w) && BlackBut(m, v, p, false, c);
  }

  /** Rotating the red inner child up makes it the sibling, black with a red outer child. */
  lemma TiltingShort(m: Mem, v: View, t: Ptr, p: Ptr, w: Ptr, c: Ptr, m': Mem, v': View)
    requires Tilting(m, v, t, p, w, c, m', v')
    ensures Short(m', v', t, p, false) && m'.left[p] == c && !m'.red[c] && m'.left[c] == w && m'.red[w]
  {
    var (a, b) := RedSibling(m, v, w, c);
    RecoloredLinks(m, v, a, b);
    RotatedLinks(a, b, w, c, m', v');
    RotatedKids(a, b, w, c, m', v', p);
    RotatedKids(a, b, w, c, m', v', c);
    assert NodeOk(m, v, p) && NodeOk(m, v, w) && NodeOk(m, v, c);
    assert Turned(a, b, w, c, m', v', t);
    NotAChild(m, v, w);
    NotAChild(m, v, p);
    forall n: Ptr ensures RedBut(m', v', t, n) {
      TiltingRed(m, v, t, p, w, c, m', v', n);
    }
    forall n: Ptr ensures BlackBut(m', v', p, false, n) {
      TiltingBlackHere(m, v, t, p, w, c, m', v');
      if In(m, v, n) && n != w && n != c { TiltingBlack(m, v, t, p, w, c, m', v', n); }
    }
  }

  // ---------- a black sibling with a red outer child ----------

  ghost function Handed(m: Mem, v: View, p: Ptr, w: Ptr, c: Ptr): (Mem, View)
    requires Sized(m, v) && p < |m.key| && w < |m.key| && c < |m.key|
  {
    (m.(red := m.red[w := m.red[p]][p := false][c := false]),
        v.(bh := v.bh[w := v.bh[p]][p := v.bh[w]][c := v.bh[c] + 1]))
  }

  ghost predicate Closing(m: Mem, v: View, t: Ptr, p: Ptr, w: Ptr, c: Ptr, m': Mem, v': View) {
    && Short(m, v, t, p, true) && p != 0 && !m.red[t] && w == m.right[p] && In(m, v, w) && !m.red[w] && w != p && w != t
    && c == m.right[w] && In(m, v, c) && m.red[c] && c != w && c != p && c != t
    && var r := Handed(m, v, p, w, c); Rotated(r.0, r.1, p, w, m', v')
  }

  /** A node is the child of its parent only. */
  lemma OnlyParent(m: Mem, v: View, n: Ptr, w: Ptr, c: Ptr)
    requires Links(m, v) && In(m, v, n) && In(m, v, w) && (m.left[w] == c || m.right[w] == c) && c != m.nil && n != w
    ensures m.left[n] != c && m.right[n] != c
  {
    assert NodeOk(m, v, n) && NodeOk(m, v, w);
  }

  lemma ClosingRed(m: Mem, v: View, t: Ptr, p: Ptr, w: Ptr, c: Ptr, m': Mem, v': View, n: Ptr)
    requires Closing(m, v, t, p, w, c, m', v')
    ensures RedBut(m', v', m'.root, n)
  {
    var (a, b) := Handed(m, v, p, w, c);
    if In(m, v, n) {
      RotatedKids(a, b, p, w, m', v', n);
      assert RedBut(m, v, t, n) && BlackBut(m, v, p, true, n);
      if n != p && n != w { OnlyParent(m, v, n, p, w); }
    }
  }

  lemma ClosingBlackHere(m: Mem, v: View, t: Ptr, p: Ptr, w: Ptr, c: Ptr, m': Mem, v': View)
    requires Closing(m, v, t, p, w, c, m', v')
    ensures BlackBut(m', v', 0, true, p) && BlackBut(m', v', 0, true, w)
  {
    var (a, b) := Handed(m, v, p, w, c);
    RotatedKids(a, b, p, w, m', v', p);
    RotatedKids(a, b, p, w, m', v', w);
    assert BlackBut(m, v, p, true, p) && BlackBut(m, v, p, true, w) && BlackBut(m, v, p, true, c);
    assert NodeOk(m, v, p) && NodeOk(m, v, w) && NodeOk(m, v, c);
  }

  lemma ClosingBlack(m: Mem, v: View, t: Ptr, p: Ptr, w: Ptr, c: Ptr, m': Mem, v': View, n: Ptr)
    requires Closing(m, v, t, p, w, c, m', v') && In(m, v, n) && n != p && n != w
    ensures BlackBut(m', v', 0, true, n)
  {
    var (a, b) := Handed(m, v, p, w, c);
    RotatedKids(a, b, p, w, m', v', n);
    OnlyParent(m, v, n, w, c);
    OnlyParent(m, v, n, p, w);
    assert BlackBut(m, v, p, true, n);
  }

  /** The sibling, rotated up with p's colour, pays for the missing node. */
  lemma ClosingShort(m: Mem, v: View, t: Ptr, p: Ptr, w: Ptr, c: Ptr, m': Mem, v': View)
    requires Closing(m, v, t, p, w, c, m', v')
    ensures Short(m', v', m'.root, 0, true)
  {
    var (a, b) := Handed(m, v, p, w, c);
    RecoloredLinks(m, v, a, b);
    RotatedLinks(a, b, p, w, m', v');
    forall n: Ptr ensures RedBut(m', v', m'.root, n) {
      ClosingRed(m, v, t, p, w, c, m', v', n);
    }
    forall n: Ptr ensures BlackBut(m', v', 0, true, n) {
      ClosingBlackHere(m, v, t, p, w, c, m', v');
      if In(m, v, n) && n != p && n != w { ClosingBlack(m, v, t, p, w, c, m', v', n); }
    }
  }

  // ---------- the end of the loop ----------

  /** Painting t black ends the repair: either it was red, and pays, or it is the root. */
  ghost function Painted(m: Mem, v: View, t: Ptr): (Mem, View)
    requires Sized(m, v) && t < |m.key|
  {
    (m.(red := m.red[t := false]), if m.red[t] then v.(bh := v.bh[t := v.bh[t] + 1]) else v)
  }

  lemma PaintedBlack(m: Mem, v: View, t: Ptr, p: Ptr, onLeft: bool, n: Ptr)
    requires Short(m, v, t, p, onLeft) && In(m, v, t) && (t == m.root || m.red[t])
    ensures var r := Painted(m, v, t); BlackOk(r.0, r.1, n)
  {
    if In(m, v, n) {
      assert BlackBut(m, v, p, onLeft, n) && NodeOk(m, v, n);
      NotAChild(m, v, n);
      if p != 0 { assert NodeOk(m, v, p); NotAChild(m, v, p); }
    }
  }

  lemma PaintedColored(m: Mem, v: View, t: Ptr, p: Ptr, onLeft: bool)
    requires Short(m, v, t, p, onLeft) && In(m, v, m.root) && (t == m.root || m.red[t])
    ensures var r := Painted(m, v, t); Colored(r.0, r.1)
  {
    var (m', v') := Painted(m, v, t);
    if p != 0 { assert NodeOk(m, v, p); NotAChild(m, v, p); }
    RecoloredLinks(m, v, m', v');
    forall n: Ptr ensures RedOk(m', v', 0, n) {
      if In(m, v, n) { assert RedBut(m, v, t, n) && BlackBut(m, v, p, onLeft, n); }
    }
    forall n: Ptr ensures BlackOk(m', v', n) {
      PaintedBlack(m, v, t, p, onLeft, n);
    }
  }
}
