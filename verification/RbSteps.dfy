/** The branches of the two fix-up loops, for both sides of the tree. */
module RbSteps {

  import opened RbShape
  import opened RbColor
  import opened RbInsert
  import opened RbRepair

  lemma MirrorTwice(v: View)
    requires |v.pos| == |v.lo| == |v.hi| == |v.bh|
    ensures MirrorView(MirrorView(v)) == v
  {
    ReversedTwice(v.order);
    var w := MirrorView(MirrorView(v));
    assert w.pos == v.pos;
    assert w.lo == v.lo;
    assert w.hi == v.hi;
  }

  /** Black heights have no side. */
  lemma MirrorHeights(v: View, b: seq<nat>)
    requires |v.pos| == |v.lo| == |v.hi| == |v.bh| == |b|
    ensures MirrorView(v.(bh := b)) == MirrorView(v).(bh := b)
  {}

  /** Left and right rotation are each other's mirror image. */
  ghost predicate RotatedRight(m: Mem, v: View, x: Ptr, y: Ptr, m': Mem, v': View) {
    && Sized(m, v) && Sized(m', v') && v'.order == v.order && v'.bh == v.bh
    && Rotated(Mirror(m), MirrorView(v), x, y, Mirror(m'), MirrorView(v'))
  }

  // ---------- insertion ----------

  lemma MirroredClash(m: Mem, v: View, z: Ptr)
    requires Clash(m, v, z)
    ensures Clash(Mirror(m), MirrorView(v), z)
  {
    MirroredColors(m, v, z);
    MirroredCell(m, v, z);
  }

  lemma UnmirroredClash(m: Mem, v: View, z: Ptr)
    requires |v.pos| == |v.lo| == |v.hi| == |v.bh| && Clash(Mirror(m), MirrorView(v), z)
    ensures Clash(m, v, z)
  {
    MirroredClash(Mirror(m), MirrorView(v), z);
    MirrorTwice(v);
    assert Mirror(Mirror(m)) == m;
  }

  lemma MirroredRelated(m: Mem, v: View, z: Ptr, p: Ptr, g: Ptr)
    requires Related(m, v, z, p, g)
    ensures Related(Mirror(m), MirrorView(v), z, p, g)
  {
    MirroredClash(m, v, z);
    MirroredCell(m, v, p);
    MirroredCell(m, v, g);
  }

  /** Red uncle, parent on the right. */
  lemma PushedRight(m: Mem, v: View, z: Ptr, p: Ptr, g: Ptr, u: Ptr)
    requires Related(m, v, z, p, g) && m.right[g] == p && u == m.left[g] && u < |m.red| && m.red[u]
    ensures var r := Pushed(m, v, p, g, u); Clash(r.0, r.1, g) && v.hi[z] + v.lo[g] < v.hi[g] + v.lo[z]
  {
    MirroredRelated(m, v, z, p, g);
    PushedClash(Mirror(m), MirrorView(v), z, p, g, u);
    var (m', v') := Pushed(m, v, p, g, u);
    MirrorHeights(v, v'.bh);
    UnmirroredClash(m', v', g);
    assert NodeOk(m, v, p) && NodeOk(m, v, g);
  }

  /** Inner grandchild, parent on the right. */
  lemma TwistedRight(m: Mem, v: View, z: Ptr, p: Ptr, g: Ptr, m': Mem, v': View)
    requires Related(m, v, z, p, g) && m.right[g] == p && m.left[p] == z && RotatedRight(m, v, p, z, m', v')
    ensures Related(m', v', p, z, g) && m'.right[g] == z && m'.right[z] == p && m'.left[g] == m.left[g]
  {
    MirroredRelated(m, v, z, p, g);
    TwistedClash(Mirror(m), MirrorView(v), z, p, g, Mirror(m'), MirrorView(v'));
    MirroredRelated(Mirror(m'), MirrorView(v'), p, z, g);
    MirrorTwice(v');
    assert Mirror(Mirror(m')) == m';
  }

  /** Outer grandchild, parent on the left. */
  lemma SettledLeft(m: Mem, v: View, z: Ptr, p: Ptr, g: Ptr, m': Mem, v': View)
    requires Related(m, v, z, p, g) && m.left[g] == p && m.left[p] == z && m.right[g] < |m.red| && !m.red[m.right[g]]
    requires var r := Swapped(m, v, p, g); RotatedRight(r.0, r.1, g, p, m', v')
    ensures Clash(m', v', z) && z != m'.root && m'.parent[z] == p && !m'.red[p]
  {
    MirroredRelated(m, v, z, p, g);
    MirrorHeights(v, Swapped(m, v, p, g).1.bh);
    SettledClash(Mirror(m), MirrorView(v), z, p, g, Mirror(m'), MirrorView(v'));
    UnmirroredClash(m', v', z);
  }

  // ---------- deletion ----------

  lemma UnmirroredShort(m: Mem, v: View, t: Ptr, p: Ptr, onLeft: bool)
    requires |v.pos| == |v.lo| == |v.hi| == |v.bh| && Short(Mirror(m), MirrorView(v), t, p, onLeft)
    ensures Short(m, v, t, p, !onLeft)
  {
    MirroredShort(Mirror(m), MirrorView(v), t, p, onLeft);
    MirrorTwice(v);
    assert Mirror(Mirror(m)) == m;
  }

  lemma SiblingRight(m: Mem, v: View, t: Ptr, p: Ptr)
    requires Short(m, v, t, p, false) && p != 0
    ensures var w := m.left[p];
      In(m, v, w) && w != p && w != t && m.parent[w] == p && m.left[w] < |m.key| && m.right[w] < |m.key|
          && m.right[p] == t && m.left[p] != t
  {
    MirroredShort(m, v, t, p, false);
    Sibling(Mirror(m), MirrorView(v), t, p);
    MirroredCell(m, v, m.left[p]);
  }

  lemma LeaningRight(m: Mem, v: View, t: Ptr, p: Ptr, w: Ptr, m': Mem, v': View)
    requires Short(m, v, t, p, false) && p != 0 && !m.red[t] && w == m.left[p] && In(m, v, w) && m.red[w] && w != p
    requires w != t
    requires var r := RedSibling(m, v, p, w); RotatedRight(r.0, r.1, p, w, m', v')
    ensures Short(m', v', t, p, false) && m'.red[p] && m'.left[p] < |m'.red| && !m'.red[m'.left[p]] && m'.root != p
  {
    MirroredShort(m, v, t, p, false);
    MirroredCell(m, v, w);
    MirrorHeights(v, RedSibling(m, v, p, w).1.bh);
    LeaningShort(Mirror(m), MirrorView(v), t, p, w, Mirror(m'), MirrorView(v'));
    UnmirroredShort(m', v', t, p, true);
  }

  lemma LentRight(m: Mem, v: View, t: Ptr, p: Ptr, w: Ptr, q: Ptr, onLeft: bool)
    requires Short(m, v, t, p, false) && p != 0 && !m.red[t] && w == m.left[p] && In(m, v, w) && !m.red[w] && w != p
    requires w != t
    requires m.left[w] < |m.red| && m.right[w] < |m.red| && !m.red[m.left[w]] && !m.red[m.right[w]]
    requires Above(m, v, p, q, onLeft)
    ensures v.bh[p] > 0 && v.bh[w] > 0 && var r := Lent(m, v, p, w); Short(r.0, r.1, p, q, onLeft)
    ensures q != 0 ==> v.lo[q] <= v.lo[p] <= v.hi[p] <= v.hi[q] <= |v.order| && v.hi[p] + v.lo[q] < v.hi[q] + v.lo[p]
  {
    MirroredShort(m, v, t, p, false);
    MirroredCell(m, v, w);
    LendingReady(Mirror(m), MirrorView(v), t, p);
    MirroredCell(m, v, q);
    assert ParentOk(m, v, p) && NodeOk(m, v, p);
    if q != 0 { assert NodeOk(m, v, q); }
    var (m', v') := Lent(m, v, p, w);
    MirrorHeights(v, v'.bh);
    LentShort(Mirror(m), MirrorView(v), t, p, w, q, !onLeft);
    UnmirroredShort(m', v', p, q, !onLeft);
  }

  /** Inner child red, t on the left. */
  lemma TiltingLeft(m: Mem, v: View, t: Ptr, p: Ptr, w: Ptr, c: Ptr, m': Mem, v': View)
    requires Short(m, v, t, p, true) && p != 0 && !m.red[t] && w == m.right[p] && In(m, v, w) && !m.red[w] && w != p
    requires w != t
    requires c == m.left[w] && In(m, v, c) && m.red[c] && c != w && c != p && c != t && m.right[w] < |m.red|
    requires !m.red[m.right[w]]
    requires var r := RedSibling(m, v, w, c); RotatedRight(r.0, r.1, w, c, m', v')
    ensures Short(m', v', t, p, true) && m'.right[p] == c && !m'.red[c] && m'.right[c] == w && m'.red[w]
  {
    MirroredShort(m, v, t, p, true);
    MirroredCell(m, v, w);
    MirroredCell(m, v, c);
    MirrorHeights(v, RedSibling(m, v, w, c).1.bh);
    TiltingShort(Mirror(m), MirrorView(v), t, p, w, c, Mirror(m'), MirrorView(v'));
    UnmirroredShort(m', v', t, p, false);
  }

  /** Outer child red, t on the right. */
  lemma ClosingRight(m: Mem, v: View, t: Ptr, p: Ptr, w: Ptr, c: Ptr, m': Mem, v': View)
    requires Short(m, v, t, p, false) && p != 0 && !m.red[t] && w == m.left[p] && In(m, v, w) && !m.red[w] && w != p
    requires w != t
    requires c == m.left[w] && In(m, v, c) && m.red[c] && c != w && c != p && c != t
    requires var r := Handed(m, v, p, w, c); RotatedRight(r.0, r.1, p, w, m', v')
    ensures Short(m', v', m'.root, 0, false)
  {
    MirroredShort(m, v, t, p, false);
    MirroredCell(m, v, w);
    MirroredCell(m, v, c);
    MirrorHeights(v, Handed(m, v, p, w, c).1.bh);
    ClosingShort(Mirror(m), MirrorView(v), t, p, w, c, Mirror(m'), MirrorView(v'));
    UnmirroredShort(m', v', m'.root, 0, true);
  }
}
