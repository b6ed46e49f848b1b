/** al_rbtree_insert: the fix-up after a new red leaf, case by case. */
module RbInsert {

  import opened RbShape
  import opened RbColor

  /** The loop's invariant: only the red node z may clash with its parent, and the root is black unless it is z. */
  ghost predicate Clash(m: Mem, v: View, z: Ptr) {
    ColoredBut(m, v, z) && In(m, v, z) && m.red[z] && (z != m.root ==> !m.red[m.root])
  }

  /** p is the red parent of z, and g its black grandparent. */
  ghost predicate Related(m: Mem, v: View, z: Ptr, p: Ptr, g: Ptr) {
    && Clash(m, v, z) && z != m.root && p == m.parent[z] && In(m, v, p) && m.red[p] && p != m.root && p != z
    && g == m.parent[p] && In(m, v, g) && g != p && g != z && !m.red[g]
    && (m.left[p] == z || m.right[p] == z) && (m.left[g] == p || m.right[g] == p)
  }

  /** While the parent is red there is a grandparent, and it is black. */
  lemma Family(m: Mem, v: View, z: Ptr)
    requires Clash(m, v, z) && z != m.root && m.parent[z] < |m.red| && m.red[m.parent[z]]
    ensures m.parent[m.parent[z]] < |m.key| && Related(m, v, z, m.parent[z], m.parent[m.parent[z]])
  {
    assert ParentOk(m, v, z);
    var p := m.parent[z];
    assert ParentOk(m, v, p) && NodeOk(m, v, p);
    assert NodeOk(m, v, m.parent[p]) && RedOk(m, v, z, m.parent[p]);
  }

  /** A red uncle u: push the black down from the grandparent, and look there next. */
  ghost function Pushed(m: Mem, v: View, p: Ptr, g: Ptr, u: Ptr): (Mem, View)
    requires Sized(m, v) && p < |m.key| && g < |m.key| && u < |m.key|
  {
    (m.(red := m.red[p := false][u := false][g := true]), v.(bh := v.bh[p := v.bh[p] + 1][u := v.bh[u] + 1]))
  }

  lemma PushedClash(m: Mem, v: View, z: Ptr, p: Ptr, g: Ptr, u: Ptr)
    requires Related(m, v, z, p, g) && m.left[g] == p && u == m.right[g] && u < |m.red| && m.red[u]
    ensures var r := Pushed(m, v, p, g, u); Clash(r.0, r.1, g) && v.hi[z] + v.lo[g] < v.hi[g] + v.lo[z]
  {
    var (m', v') := Pushed(m, v, p, g, u);
    assert NodeOk(m, v, g) && NodeOk(m, v, p);
    assert In(m, v, u) && u != p && u != g;
    RecoloredLinks(m, v, m', v');
    forall n: Ptr ensures RedOk(m', v', g, n) {
      PushedRed(m, v, z, p, g, u, n);
    }
    forall n: Ptr ensures BlackOk(m', v', n) {
      PushedBlack(m, v, z, p, g, u, n);
    }
  }

  lemma PushedRed(m: Mem, v: View, z: Ptr, p: Ptr, g: Ptr, u: Ptr, n: Ptr)
    requires Related(m, v, z, p, g) && m.left[g] == p && u == m.right[g] && In(m, v, u) && m.red[u] && u != p && u != g
    ensures var r := Pushed(m, v, p, g, u); RedOk(r.0, r.1, g, n)
  {
    assert RedOk(m, v, z, n) && NodeOk(m, v, n) && BlackOk(m, v, n);
    if In(m, v, n) && m.parent[z] != n { assert m.left[n] != z && m.right[n] != z; }
  }

  lemma PushedBlack(m: Mem, v: View, z: Ptr, p: Ptr, g: Ptr, u: Ptr, n: Ptr)
    requires Related(m, v, z, p, g) && m.left[g] == p && u == m.right[g] && In(m, v, u) && m.red[u] && u != p && u != g
    ensures var r := Pushed(m, v, p, g, u); BlackOk(r.0, r.1, n)
  {
    assert BlackOk(m, v, n) && NodeOk(m, v, n) && NodeOk(m, v, g);
    if In(m, v, n) && n != g {
      assert m.left[n] != p && m.right[n] != p && m.left[n] != u && m.right[n] != u;
    }
  }

  /** An inner grandchild: rotate it up over its parent, which then clashes as the outer one. */
  lemma TwistedClash(m: Mem, v: View, z: Ptr, p: Ptr, g: Ptr, m': Mem, v': View)
    requires Related(m, v, z, p, g) && m.left[g] == p && m.right[p] == z && Rotated(m, v, p, z, m', v')
    ensures Related(m', v', p, z, g) && m'.left[g] == z && m'.left[z] == p && m'.right[g] == m.right[g]
  {
    assert NodeOk(m, v, g);
    RotatedLinks(m, v, p, z, m', v');
    RotatedKids(m, v, p, z, m', v', g);
    RotatedKids(m, v, p, z, m', v', z);
    RotatedKids(m, v, p, z, m', v', p);
    assert Turned(m, v, p, z, m', v', p) && Turned(m, v, p, z, m', v', z);
    forall n: Ptr ensures RedOk(m', v', p, n) {
      TwistedRed(m, v, z, p, g, m', v', n);
    }
    forall n: Ptr ensures BlackOk(m', v', n) {
      TwistedBlack(m, v, z, p, g, m', v', n);
    }
  }

  lemma TwistedRed(m: Mem, v: View, z: Ptr, p: Ptr, g: Ptr, m': Mem, v': View, n: Ptr)
    requires Related(m, v, z, p, g) && m.left[g] == p && m.right[p] == z && Rotated(m, v, p, z, m', v')
    ensures RedOk(m', v', p, n)
  {
    if In(m, v, n) {
      RotatedKids(m, v, p, z, m', v', n);
      assert RedOk(m, v, z, n) && RedOk(m, v, z, z) && RedOk(m, v, z, p) && BlackOk(m, v, n);
      assert NodeOk(m, v, n) && NodeOk(m, v, z) && BlackOk(m, v, z);
    }
  }

  lemma TwistedBlack(m: Mem, v: View, z: Ptr, p: Ptr, g: Ptr, m': Mem, v': View, n: Ptr)
    requires Related(m, v, z, p, g) && m.left[g] == p && m.right[p] == z && Rotated(m, v, p, z, m', v')
    ensures BlackOk(m', v', n)
  {
    if In(m, v, n) {
      RotatedKids(m, v, p, z, m', v', n);
      assert BlackOk(m, v, n) && BlackOk(m, v, z) && BlackOk(m, v, p);
    }
  }

  /** The colours before the last rotation: black parent, red grandparent. */
  ghost function Swapped(m: Mem, v: View, p: Ptr, g: Ptr): (Mem, View)
    requires Sized(m, v) && p < |m.key| && g < |m.key|
  {
    (m.(red := m.red[p := false][g := true]), v.(bh := v.bh[p := v.bh[p] + 1][g := v.bh[p]]))
  }

  /** An outer grandchild on the right: with colours swapped and p rotated up, nothing clashes any more. */
  ghost predicate Settling(m: Mem, v: View, z: Ptr, p: Ptr, g: Ptr, m': Mem, v': View) {
    && Related(m, v, z, p, g) && m.right[g] == p && m.right[p] == z && m.left[g] < |m.red| && !m.red[m.left[g]]
    && var r := Swapped(m, v, p, g); Rotated(r.0, r.1, g, p, m', v')
  }

  lemma SettledRed(m: Mem, v: View, z: Ptr, p: Ptr, g: Ptr, m': Mem, v': View, n: Ptr)
    requires Settling(m, v, z, p, g, m', v')
    ensures RedOk(m', v', z, n)
  {
    var (a, w) := Swapped(m, v, p, g);
    if In(m, v, n) {
      RotatedKids(a, w, g, p, m', v', n);
      assert RedOk(m, v, z, n) && RedOk(m, v, z, p) && BlackOk(m, v, n);
      assert NodeOk(m, v, p) && NodeOk(m, v, n) && NodeOk(m, v, g) && BlackOk(m, v, p);
    }
  }

  lemma SettledBlackHere(m: Mem, v: View, z: Ptr, p: Ptr, g: Ptr, m': Mem, v': View)
    requires Settling(m, v, z, p, g, m', v')
    ensures BlackOk(m', v', p) && BlackOk(m', v', g)
  {
    var (a, w) := Swapped(m, v, p, g);
    RotatedKids(a, w, g, p, m', v', p);
    RotatedKids(a, w, g, p, m', v', g);
    assert BlackOk(m, v, p) && BlackOk(m, v, g);
    assert NodeOk(m, v, p) && NodeOk(m, v, g);
  }

  lemma SettledBlackElsewhere(m: Mem, v: View, z: Ptr, p: Ptr, g: Ptr, m': Mem, v': View, n: Ptr)
    requires Settling(m, v, z, p, g, m', v') && In(m, v, n) && n != p && n != g
    ensures BlackOk(m', v', n)
  {
    var (a, w) := Swapped(m, v, p, g);
    RotatedKids(a, w, g, p, m', v', n);
    assert BlackOk(m, v, n) && BlackOk(m, v, g) && w.bh[p] == v.bh[g];
  }

  lemma SettledClash(m: Mem, v: View, z: Ptr, p: Ptr, g: Ptr, m': Mem, v': View)
    requires Settling(m, v, z, p, g, m', v')
    ensures Clash(m', v', z) && m'.parent[z] == p && !m'.red[p] && z != m'.root
  {
    var (a, w) := Swapped(m, v, p, g);
    RecoloredLinks(m, v, a, w);
    RotatedLinks(a, w, g, p, m', v');
    assert NodeOk(m, v, p) && NodeOk(m, v, g);
    assert Turned(a, w, g, p, m', v', z);
    forall n: Ptr ensures RedOk(m', v', z, n) {
      SettledRed(m, v, z, p, g, m', v', n);
    }
    forall n: Ptr ensures BlackOk(m', v', n) {
      SettledBlackHere(m, v, z, p, g, m', v');
      if In(m, v, n) && n != p && n != g { SettledBlackElsewhere(m, v, z, p, g, m', v', n); }
    }
  }

  /** When the clash is over, a black root completes the tree. */
  lemma BlackRoot(m: Mem, v: View, z: Ptr)
    requires Clash(m, v, z) && (z == m.root || (m.parent[z] < |m.red| && !m.red[m.parent[z]]))
    ensures m.left[m.root] < |v.bh|
    ensures Colored(m.(red := m.red[m.root := false]), v.(bh := v.bh[m.root := Bh(m, v, m.left[m.root]) + 1]))
  {
    var m' := m.(red := m.red[m.root := false]);
    assert BlackOk(m, v, m.root);
    var v' := v.(bh := v.bh[m.root := Bh(m, v, m.left[m.root]) + 1]);
    RecoloredLinks(m, v, m', v');
    forall n: Ptr ensures RedOk(m', v', 0, n) {
      if In(m, v, n) {
        assert RedOk(m, v, z, n) && NodeOk(m, v, n);
      }
    }
    forall n: Ptr ensures BlackOk(m', v', n) {
      if In(m, v, n) {
        assert BlackOk(m, v, n);
        NotAChild(m, v, n);
      }
    }
  }
}
