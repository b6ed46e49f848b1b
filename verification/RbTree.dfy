/** al_rbtree: insertion, deletion and look-up on nodes linked in place. */
module RbTree {

  import opened RbShape
  import opened RbColor
  import opened RbInsert
  import opened RbAttach
  import opened RbRepair
  import opened RbDelete
  import opened RbHeight
  import opened Powers
  import opened RbSteps
  import opened RbWrites

  /** How far the clash at z is from being over: nothing, or the nodes outside its subtree. */
  ghost function ToSettle(m: Mem, v: View, z: Ptr): int
    requires Sized(m, v) && z < |m.key|
  {
    if z == m.root || m.parent[z] >= |m.red| || !m.red[m.parent[z]] then 0
    else (1 + |v.order| + v.lo[z]) as int - v.hi[z]
  }

  /** How far the shortage of t, a child of p, is from being over. */
  ghost function ToRepair(m: Mem, v: View, t: Ptr, p: Ptr): int
    requires Sized(m, v) && t < |m.key| && p < |m.key|
  {
    if t == m.root || m.red[t] then 0 else (1 + |v.order| + v.lo[p]) as int - v.hi[p]
  }

  lemma NodeSpan(m: Mem, v: View, p: Ptr)
    requires Links(m, v) && In(m, v, p)
    ensures v.lo[p] < v.hi[p] <= |v.order|
  {
    assert NodeOk(m, v, p);
  }

  /** The same nodes, keys and order. */
  ghost predicate Same(m: Mem, v: View, m': Mem, v': View) {
    m'.key == m.key && m'.nil == m.nil && v'.order == v.order
  }

  lemma ParentInRange(m: Mem, v: View, n: Ptr)
    requires Links(m, v) && In(m, v, n)
    ensures n != m.root ==> In(m, v, m.parent[n])
  {
    assert ParentOk(m, v, n);
  }

  /** al_make_key: both numbers can be read off the key. */
  function MakeKey(fid: nat, id: nat): (k: nat)
    requires fid < 0x1_0000_0000 && id < 0x1_0000_0000
    ensures k / 0x1_0000_0000 == fid && k % 0x1_0000_0000 == id
  {
    fid * 0x1_0000_0000 + id
  }

  class Tree {
    var m: Mem
    ghost var v: View

    ghost predicate Valid()
      reads this
    {
      Colored(m, v) && Keyed(m, v)
    }

    /** al_rbtree_init over the given memory, with sentinel s. */
    constructor (nodes: Mem, s: Ptr)
      requires |nodes.left| == |nodes.right| == |nodes.parent| == |nodes.red| == |nodes.key| && 0 < s < |nodes.key|
      ensures Valid() && v.order == [] && m.key == nodes.key && m.nil == s
    {
      m := nodes.(red := nodes.red[s := false], root := s, nil := s);
      v := View([], seq(|nodes.key|, _ => 0), seq(|nodes.key|, _ => 0), seq(|nodes.key|, _ => 0),
          seq(|nodes.key|, _ => 0));
      new;
      forall n: Ptr ensures NodeOk(m, v, n) && ParentOk(m, v, n) && OrderOk(m, v, n) {}
      forall n: Ptr ensures RedOk(m, v, 0, n) && BlackOk(m, v, n) {}
    }

    method LeftRotate(x: Ptr)
      requires Links(m, v) && In(m, v, x) && m.right[x] != m.nil
      modifies this
      ensures Rotated(old(m), old(v), x, old(m.right[x]), m, v) && Links(m, v)
    {
      ghost var m0, v0 := m, v;
      RotationReady(m, v, x);
      var y := m.right[x];
      m := m.(right := m.right[x := m.left[y]]);
      if m.left[y] != m.nil {
        m := m.(parent := m.parent[m.left[y] := x]);
      }
      m := m.(parent := m.parent[y := m.parent[x]]);
      if x == m.root {
        m := m.(root := y);
      } else if x == m.left[m.parent[x]] {
        m := m.(left := m.left[m.parent[x] := y]);
      } else {
        m := m.(right := m.right[m.parent[x] := y]);
      }
      m := m.(left := m.left[y := x]);
      m := m.(parent := m.parent[x := y]);
      assert m == LeftRotated(m0, x);
      v := LeftRotatedView(m0, v0, x, y);
      RotatedByWrites(m0, v0, x, y);
      RotatedLinks(m0, v0, x, y, m, v);
    }

    method RightRotate(x: Ptr)
      requires Links(m, v) && In(m, v, x) && m.left[x] != m.nil
      modifies this
      ensures RotatedRight(old(m), old(v), x, old(m.left[x]), m, v) && Links(m, v)
    {
      ghost var m0, v0 := m, v;
      MirroredLinks(m, v);
      MirroredCell(m, v, x);
      RotationReady(Mirror(m), MirrorView(v), x);
      var y := m.left[x];
      m := m.(left := m.left[x := m.right[y]]);
      if m.right[y] != m.nil {
        m := m.(parent := m.parent[m.right[y] := x]);
      }
      m := m.(parent := m.parent[y := m.parent[x]]);
      if x == m.root {
        m := m.(root := y);
      } else if x == m.right[m.parent[x]] {
        m := m.(right := m.right[m.parent[x] := y]);
      } else {
        m := m.(left := m.left[m.parent[x] := y]);
      }
      m := m.(right := m.right[y := x]);
      m := m.(parent := m.parent[x := y]);
      assert Mirror(m) == LeftRotated(Mirror(m0), x);
      ghost var w := LeftRotatedView(Mirror(m0), MirrorView(v0), x, y);
      v := MirrorView(w);
      RightRotatedView(m0, v0, x, y, m, w);
    }

    /** The loop body of al_rbtree_insert for a parent that is a left child. */
    method SettleLeft(z: Ptr) returns (z': Ptr)
      requires Clash(m, v, z) && z != m.root && m.parent[z] < |m.red| && m.red[m.parent[z]]
      requires m.parent[m.parent[z]] < |m.key| && m.parent[z] == m.left[m.parent[m.parent[z]]]
      modifies this
      ensures Clash(m, v, z') && Same(old(m), old(v), m, v) && ToSettle(m, v, z') < old(ToSettle(m, v, z))
    {
      ghost var m0, v0 := m, v;
      Family(m, v, z);
      var p := m.parent[z];
      var g := m.parent[p];
      var u := m.right[g];
      assert NodeOk(m, v, g) && NodeOk(m, v, p) && NodeOk(m, v, z);
      if m.red[u] {
        PushLeft(z, p, g, u);
        z' := g;
      } else {
        z' := z;
        if z == m.right[p] {
          z' := p;
          LeftRotate(z');
          TwistedClash(m0, v0, z, p, g, m, v);
        }
        SettleLeftEnd(z');
      }
    }

    /** A red uncle: the grandparent's black goes to its children. */
    method PushLeft(ghost z: Ptr, p: Ptr, g: Ptr, u: Ptr)
      requires Clash(m, v, z) && z < |m.red| && m.red[z] && Related(m, v, z, p, g) && m.left[g] == p && m.right[g] == u
      requires u < |m.red| && m.red[u]
      modifies this
      ensures Clash(m, v, g) && Same(old(m), old(v), m, v) && ToSettle(m, v, g) < old(ToSettle(m, v, z))
    {
      ghost var m0 := m;
      assert NodeOk(m, v, g) && NodeOk(m, v, p) && NodeOk(m, v, z);
      PushedClash(m, v, z, p, g, u);
      m := m.(red := m.red[p := false]);
      m := m.(red := m.red[u := false]);
      m := m.(red := m.red[g := true]);
      v := Pushed(m0, v, p, g, u).1;
    }

    method SettleLeftEnd(z: Ptr)
      requires Clash(m, v, z) && m.parent[z] < |m.key| && m.parent[m.parent[z]] < |m.key|
      requires var p := m.parent[z]; var g := m.parent[p];
        Related(m, v, z, p, g) && m.left[g] == p && m.left[p] == z && m.right[g] < |m.red| && !m.red[m.right[g]]
      modifies this
      ensures Clash(m, v, z) && Same(old(m), old(v), m, v) && ToSettle(m, v, z) == 0
    {
      ghost var m0, v0 := m, v;
      var p := m.parent[z];
      var g := m.parent[p];
      m := m.(red := m.red[p := false]);
      m := m.(red := m.red[g := true]);
      v := Swapped(m0, v0, p, g).1;
      RecoloredLinks(m0, v0, m, v);
      RightRotate(g);
      SettledLeft(m0, v0, z, p, g, m, v);
    }

    /** The loop body of al_rbtree_insert for a parent that is a right child. */
    method SettleRight(z: Ptr) returns (z': Ptr)
      requires Clash(m, v, z) && z != m.root && m.parent[z] < |m.red| && m.red[m.parent[z]]
      requires m.parent[m.parent[z]] < |m.key| && m.parent[z] != m.left[m.parent[m.parent[z]]]
      modifies this
      ensures Clash(m, v, z') && Same(old(m), old(v), m, v) && ToSettle(m, v, z') < old(ToSettle(m, v, z))
    {
      ghost var m0, v0 := m, v;
      Family(m, v, z);
      var p := m.parent[z];
      var g := m.parent[p];
      var u := m.left[g];
      assert NodeOk(m, v, g) && NodeOk(m, v, p) && NodeOk(m, v, z);
      if m.red[u] {
        PushRight(z, p, g, u);
        z' := g;
      } else {
        z' := z;
        if z == m.left[p] {
          z' := p;
          RightRotate(z');
          TwistedRight(m0, v0, z, p, g, m, v);
        }
        SettleRightEnd(z');
      }
    }

    /** A red uncle: the grandparent's black goes to its children. */
    method PushRight(ghost z: Ptr, p: Ptr, g: Ptr, u: Ptr)
      requires Clash(m, v, z) && z < |m.red| && m.red[z] && Related(m, v, z, p, g) && m.right[g] == p && m.left[g] == u
      requires u < |m.red| && m.red[u]
      modifies this
      ensures Clash(m, v, g) && Same(old(m), old(v), m, v) && ToSettle(m, v, g) < old(ToSettle(m, v, z))
    {
      ghost var m0 := m;
      assert NodeOk(m, v, g) && NodeOk(m, v, p) && NodeOk(m, v, z);
      PushedRight(m, v, z, p, g, u);
      m := m.(red := m.red[p := false]);
      m := m.(red := m.red[u := false]);
      m := m.(red := m.red[g := true]);
      v := Pushed(m0, v, p, g, u).1;
    }

    method SettleRightEnd(z: Ptr)
      requires Clash(m, v, z) && m.parent[z] < |m.key| && m.parent[m.parent[z]] < |m.key|
      requires var p := m.parent[z]; var g := m.parent[p];
        Related(m, v, z, p, g) && m.right[g] == p && m.right[p] == z && m.left[g] < |m.red| && !m.red[m.left[g]]
      modifies this
      ensures Clash(m, v, z) && Same(old(m), old(v), m, v) && ToSettle(m, v, z) == 0
    {
      ghost var m0, v0 := m, v;
      var p := m.parent[z];
      var g := m.parent[p];
      m := m.(red := m.red[p := false]);
      m := m.(red := m.red[g := true]);
      v := Swapped(m0, v0, p, g).1;
      RecoloredLinks(m0, v0, m, v);
      LeftRotate(g);
      SettledClash(m0, v0, z, p, g, m, v);
    }

    /** al_rbtree_insert_value: the new node goes behind every node whose key is not above its own. */
    method InsertValue(z: Ptr) returns (ghost q: nat)
      requires Valid() && v.order != [] && 0 < z < |m.key| && z != m.nil && !In(m, v, z)
      modifies this
      ensures Clash(m, v, z) && Keyed(m, v) && m.key == old(m.key) && m.nil == old(m.nil)
      ensures Gap(old(m), old(v), m.key[z], q) && v.order == old(v.order)[..q] + [z] + old(v.order)[q..]
    {
      ghost var m0, v0 := m, v;
      q := GapFor(m, v, m.key[z]);
      var a := m.root;
      ghost var s := Spot(a, z, q, {a});
      assert OnPath(m, v, s, a);
      var toLeft := m.key[z] < m.key[a];
      ToLeft(m, v, m.key[z], q, a);
      while (if toLeft then m.left[a] else m.right[a]) != m.nil
        invariant m == m0 && v == v0 && Descending(m, v, s) && s.a == a && s.z == z && s.q == q
        invariant toLeft <==> q <= v.pos[a]
        decreases v.hi[a] as int - v.lo[a]
      {
        Descend(m, v, s);
        a := if toLeft then m.left[a] else m.right[a];
        s := s.(a := a, path := s.path + {a});
        toLeft := m.key[z] < m.key[a];
        ToLeft(m, v, m.key[z], q, a);
      }
      if toLeft {
        m := m.(left := m.left[a := z]);
      } else {
        m := m.(right := m.right[a := z]);
      }
      m := m.(parent := m.parent[z := a]);
      m := m.(left := m.left[z := m.nil]);
      m := m.(right := m.right[z := m.nil]);
      m := m.(red := m.red[z := true]);
      v := HungView(m0, v0, s);
      HungAttached(m0, v0, s);
      AttachedClash(m0, v0, s, m, v);
      AttachedKeys(m0, v0, s, m, v);
    }

    /** al_rbtree_insert: the node is in its place in the order, and the tree is red-black again. */
    method Insert(z: Ptr) returns (ghost q: nat)
      requires Valid() && 0 < z < |m.key| && z != m.nil && !In(m, v, z)
      modifies this
      ensures Valid() && m.key == old(m.key) && m.nil == old(m.nil)
      ensures Gap(old(m), old(v), m.key[z], q) && v.order == old(v.order)[..q] + [z] + old(v.order)[q..]
    {
      if m.root == m.nil {
        InsertFirst(z);
        q := 0;
      } else {
        q := InsertValue(z);
        ghost var m1, v1 := m, v;
        Settle(z);
        SameKeys(m1, v1, m, v);
      }
    }

    method InsertFirst(z: Ptr)
      requires Valid() && m.root == m.nil && 0 < z < |m.key| && z != m.nil
      modifies this
      ensures Valid() && m.key == old(m.key) && m.nil == old(m.nil) && v.order == [z] && old(v.order) == []
    {
      ghost var m0 := m;
      m := m.(parent := m.parent[z := 0]);
      m := m.(left := m.left[z := m.nil]);
      m := m.(right := m.right[z := m.nil]);
      m := m.(red := m.red[z := false]);
      m := m.(root := z);
      FirstColored(m0, v, z, m);
      v := FirstView(v, z);
    }

    /** The loop of al_rbtree_insert. */
    method Settle(z: Ptr)
      requires Clash(m, v, z)
      modifies this
      ensures Colored(m, v) && Same(old(m), old(v), m, v)
    {
      var node := z;
      ParentInRange(m, v, node);
      while node != m.root && m.red[m.parent[node]]
        invariant Clash(m, v, node) && Same(old(m), old(v), m, v) && (node != m.root ==> m.parent[node] < |m.red|)
        decreases ToSettle(m, v, node)
      {
        Family(m, v, node);
        assert NodeOk(m, v, node);
        if m.parent[node] == m.left[m.parent[m.parent[node]]] {
          node := SettleLeft(node);
        } else {
          node := SettleRight(node);
        }
        ParentInRange(m, v, node);
      }
      BlackRoot(m, v, node);
      v := v.(bh := v.bh[m.root := Bh(m, v, m.left[m.root]) + 1]);
      m := m.(red := m.red[m.root := false]);
    }

    /** A red sibling of a left child is rotated up. */
    method LeanLeft(t: Ptr, ghost p: Ptr)
      requires Short(m, v, t, p, true) && p != 0 && !m.red[t] && m.right[p] < |m.red| && m.red[m.right[p]]
      modifies this
      ensures Short(m, v, t, p, true) && !m.red[t] && m.red[p] && m.right[p] < |m.red| && !m.red[m.right[p]]
      ensures Same(old(m), old(v), m, v)
    {
      ghost var m0, v0 := m, v;
      Sibling(m, v, t, p);
      var w := m.right[m.parent[t]];
      m := m.(red := m.red[w := false]);
      m := m.(red := m.red[m.parent[t] := true]);
      v := RedSibling(m0, v0, p, w).1;
      RecoloredLinks(m0, v0, m, v);
      LeftRotate(m.parent[t]);
      LeaningShort(m0, v0, t, p, w, m, v);
    }

    /** A black sibling with black children turns red: the shortage is now at p. */
    method LendLeft(t: Ptr, ghost p: Ptr) returns (t': Ptr, ghost q: Ptr, ghost onLeft: bool)
      requires Short(m, v, t, p, true) && p != 0 && !m.red[t] && m.right[p] < |m.red| && !m.red[m.right[p]]
      requires var w := m.right[p];
          m.left[w] < |m.red| && m.right[w] < |m.red| && !m.red[m.left[w]] && !m.red[m.right[w]]
      modifies this
      ensures Short(m, v, t', q, onLeft) && t' == p && Same(old(m), old(v), m, v) && m.red[p] == old(m.red[p])
      ensures (q == 0 || p != m.root)
      ensures q != 0 ==>
          old(v.lo[q] <= v.lo[p] <= v.hi[p] <= v.hi[q] <= |v.order| && v.hi[p] + v.lo[q] < v.hi[q] + v.lo[p])
      ensures v.lo == old(v.lo) && v.hi == old(v.hi)
    {
      ghost var m0, v0 := m, v;
      Sibling(m, v, t, p);
      var w := m.right[m.parent[t]];
      ParentInRange(m, v, p);
      q := if p == m.root then 0 else m.parent[p];
      onLeft := p != m.root && m.left[q] == p;
      LendingReady(m, v, t, p);
      LentShort(m, v, t, p, w, q, onLeft);
      m := m.(red := m.red[w := true]);
      v := Lent(m0, v0, p, w).1;
      t' := m.parent[t];
    }

    /** A red inner child of the sibling is rotated up to be the sibling. */
    method TiltLeft(t: Ptr, ghost p: Ptr)
      requires Short(m, v, t, p, true) && p != 0 && !m.red[t] && m.right[p] < |m.red| && !m.red[m.right[p]]
      requires var w := m.right[p];
          m.left[w] < |m.red| && m.right[w] < |m.red| && m.red[m.left[w]] && !m.red[m.right[w]]
      modifies this
      ensures Short(m, v, t, p, true) && !m.red[t] && Same(old(m), old(v), m, v) && m.right[p] < |m.red|
      ensures !m.red[m.right[p]]
      ensures m.right[m.right[p]] < |m.red| && m.red[m.right[m.right[p]]]
    {
      ghost var m0, v0 := m, v;
      Sibling(m, v, t, p);
      var w := m.right[m.parent[t]];
      ghost var c := m.left[w];
      assert NodeOk(m, v, w) && NodeOk(m, v, p);
      m := m.(red := m.red[m.left[w] := false]);
      m := m.(red := m.red[w := true]);
      v := RedSibling(m0, v0, w, c).1;
      RecoloredLinks(m0, v0, m, v);
      RightRotate(w);
      TiltingLeft(m0, v0, t, p, w, c, m, v);
    }

    /** A red outer child of the sibling pays for the missing node. */
    method CloseLeft(t: Ptr, ghost p: Ptr)
      requires Short(m, v, t, p, true) && p != 0 && !m.red[t] && m.right[p] < |m.red| && !m.red[m.right[p]]
      requires m.right[m.right[p]] < |m.red| && m.red[m.right[m.right[p]]]
      modifies this
      ensures Short(m, v, m.root, 0, true) && Same(old(m), old(v), m, v)
    {
      ghost var m0, v0 := m, v;
      Sibling(m, v, t, p);
      var w := m.right[m.parent[t]];
      ghost var c := m.right[w];
      assert NodeOk(m, v, w) && NodeOk(m, v, p);
      m := m.(red := m.red[w := m.red[m.parent[t]]]);
      m := m.(red := m.red[m.parent[t] := false]);
      m := m.(red := m.red[m.right[w] := false]);
      v := Handed(m0, v0, p, w, c).1;
      RecoloredLinks(m0, v0, m, v);
      LeftRotate(m.parent[t]);
      ClosingShort(m0, v0, t, p, w, c, m, v);
    }

    /** The loop body of al_rbtree_delete for a left child. */
    method RepairLeft(t: Ptr, ghost p: Ptr) returns (t': Ptr, ghost q: Ptr, ghost onLeft: bool)
      requires Short(m, v, t, p, true) && p != 0 && t != m.root && !m.red[t]
      modifies this
      ensures Short(m, v, t', q, onLeft) && Same(old(m), old(v), m, v)
      ensures ToRepair(m, v, t', q) < old(ToRepair(m, v, t, p))
    {
      Sibling(m, v, t, p);
      NodeSpan(m, v, p);
      if m.red[m.right[m.parent[t]]] {
        LeanLeft(t, p);
        Sibling(m, v, t, p);
      }
      var w := m.right[m.parent[t]];
      if !m.red[m.left[w]] && !m.red[m.right[w]] {
        t', q, onLeft := LendLeft(t, p);
      } else {
        if !m.red[m.right[w]] {
          TiltLeft(t, p);
        }
        CloseLeft(t, p);
        t', q, onLeft := m.root, 0, true;
      }
    }

    /** A red sibling of a right child is rotated up. */
    method LeanRight(t: Ptr, ghost p: Ptr)
      requires Short(m, v, t, p, false) && p != 0 && !m.red[t] && m.left[p] < |m.red| && m.red[m.left[p]]
      modifies this
      ensures Short(m, v, t, p, false) && !m.red[t] && m.red[p] && m.left[p] < |m.red| && !m.red[m.left[p]]
      ensures Same(old(m), old(v), m, v)
    {
      ghost var m0, v0 := m, v;
      SiblingRight(m, v, t, p);
      var w := m.left[m.parent[t]];
      m := m.(red := m.red[w := false]);
      m := m.(red := m.red[m.parent[t] := true]);
      v := RedSibling(m0, v0, p, w).1;
      RecoloredLinks(m0, v0, m, v);
      RightRotate(m.parent[t]);
      LeaningRight(m0, v0, t, p, w, m, v);
    }

    /** A black sibling with black children turns red: the shortage is now at p. */
    method LendRight(t: Ptr, ghost p: Ptr) returns (t': Ptr, ghost q: Ptr, ghost onLeft: bool)
      requires Short(m, v, t, p, false) && p != 0 && !m.red[t] && m.left[p] < |m.red| && !m.red[m.left[p]]
      requires var w := m.left[p];
          m.left[w] < |m.red| && m.right[w] < |m.red| && !m.red[m.left[w]] && !m.red[m.right[w]]
      modifies this
      ensures Short(m, v, t', q, onLeft) && t' == p && Same(old(m), old(v), m, v) && m.red[p] == old(m.red[p])
      ensures (q == 0 || p != m.root)
      ensures q != 0 ==>
          old(v.lo[q] <= v.lo[p] <= v.hi[p] <= v.hi[q] <= |v.order| && v.hi[p] + v.lo[q] < v.hi[q] + v.lo[p])
      ensures v.lo == old(v.lo) && v.hi == old(v.hi)
    {
      ghost var m0, v0 := m, v;
      SiblingRight(m, v, t, p);
      var w := m.left[m.parent[t]];
      ParentInRange(m, v, p);
      q := if p == m.root then 0 else m.parent[p];
      onLeft := p != m.root && m.left[q] == p;
      LentRight(m, v, t, p, w, q, onLeft);
      m := m.(red := m.red[w := true]);
      v := Lent(m0, v0, p, w).1;
      t' := m.parent[t];
    }

    /** A red inner child of the sibling is rotated up to be the sibling. */
    method TiltRight(t: Ptr, ghost p: Ptr)
      requires Short(m, v, t, p, false) && p != 0 && !m.red[t] && m.left[p] < |m.red| && !m.red[m.left[p]]
      requires var w := m.left[p]; m.left[w] < |m.red| && m.right[w] < |m.red| && m.red[m.right[w]] && !m.red[m.left[w]]
      modifies this
      ensures Short(m, v, t, p, false) && !m.red[t] && Same(old(m), old(v), m, v) && m.left[p] < |m.red|
      ensures !m.red[m.left[p]]
      ensures m.left[m.left[p]] < |m.red| && m.red[m.left[m.left[p]]]
    {
      ghost var m0, v0 := m, v;
      SiblingRight(m, v, t, p);
      var w := m.left[m.parent[t]];
      ghost var c := m.right[w];
      assert NodeOk(m, v, w) && NodeOk(m, v, p);
      m := m.(red := m.red[m.right[w] := false]);
      m := m.(red := m.red[w := true]);
      v := RedSibling(m0, v0, w, c).1;
      RecoloredLinks(m0, v0, m, v);
      LeftRotate(w);
      TiltingShort(m0, v0, t, p, w, c, m, v);
    }

    /** A red outer child of the sibling pays for the missing node. */
    method CloseRight(t: Ptr, ghost p: Ptr)
      requires Short(m, v, t, p, false) && p != 0 && !m.red[t] && m.left[p] < |m.red| && !m.red[m.left[p]]
      requires m.left[m.left[p]] < |m.red| && m.red[m.left[m.left[p]]]
      modifies this
      ensures Short(m, v, m.root, 0, false) && Same(old(m), old(v), m, v)
    {
      ghost var m0, v0 := m, v;
      SiblingRight(m, v, t, p);
      var w := m.left[m.parent[t]];
      ghost var c := m.left[w];
      assert NodeOk(m, v, w) && NodeOk(m, v, p);
      m := m.(red := m.red[w := m.red[m.parent[t]]]);
      m := m.(red := m.red[m.parent[t] := false]);
      m := m.(red := m.red[m.left[w] := false]);
      v := Handed(m0, v0, p, w, c).1;
      RecoloredLinks(m0, v0, m, v);
      RightRotate(m.parent[t]);
      ClosingRight(m0, v0, t, p, w, c, m, v);
    }

    /** The loop body of al_rbtree_delete for a right child. */
    method RepairRight(t: Ptr, ghost p: Ptr) returns (t': Ptr, ghost q: Ptr, ghost onLeft: bool)
      requires Short(m, v, t, p, false) && p != 0 && t != m.root && !m.red[t]
      modifies this
      ensures Short(m, v, t', q, onLeft) && Same(old(m), old(v), m, v)
      ensures ToRepair(m, v, t', q) < old(ToRepair(m, v, t, p))
    {
      SiblingRight(m, v, t, p);
      NodeSpan(m, v, p);
      if m.red[m.left[m.parent[t]]] {
        LeanRight(t, p);
        SiblingRight(m, v, t, p);
      }
      var w := m.left[m.parent[t]];
      if !m.red[m.left[w]] && !m.red[m.right[w]] {
        t', q, onLeft := LendRight(t, p);
      } else {
        if !m.red[m.left[w]] {
          TiltRight(t, p);
        }
        CloseRight(t, p);
        t', q, onLeft := m.root, 0, false;
      }
    }

    /** The loop of al_rbtree_delete. */
    method Repair(t0: Ptr, ghost p0: Ptr, ghost onLeft0: bool)
      requires Short(m, v, t0, p0, onLeft0) && p0 != 0
      modifies this
      ensures Colored(m, v) && Same(old(m), old(v), m, v)
    {
      var t := t0;
      ghost var p, onLeft := p0, onLeft0;
      while t != m.root && !m.red[t]
        invariant Short(m, v, t, p, onLeft) && Same(old(m), old(v), m, v)
        decreases ToRepair(m, v, t, p)
      {
        SideOf(m, v, t, p, onLeft);
        NodeSpan(m, v, p);
        if t == m.left[m.parent[t]] {
          t, p, onLeft := RepairLeft(t, p);
        } else {
          t, p, onLeft := RepairRight(t, p);
        }
      }
      PaintedColored(m, v, t, p, onLeft);
      v := Painted(m, v, t).1;
      m := m.(red := m.red[t := false]);
    }

    /** al_rbtree_min: the first node of a subtree. */
    method Min(x: Ptr) returns (r: Ptr)
      requires Links(m, v) && In(m, v, x)
      ensures In(m, v, r) && v.lo[x] < |v.order| && r == v.order[v.lo[x]] && v.pos[r] == v.lo[x] == v.lo[r]
    {
      r := x;
      assert NodeOk(m, v, r);
      while m.left[r] != m.nil
        invariant In(m, v, r) && v.lo[r] == v.lo[x]
        decreases v.hi[r] as int - v.lo[r]
      {
        assert NodeOk(m, v, r) && NodeOk(m, v, m.left[r]);
        r := m.left[r];
      }
      assert NodeOk(m, v, r);
    }

    /** The root has at most one child, t, which becomes the root. */
    method DeleteRoot(d: Ptr, t: Ptr)
      requires Valid() && d == m.root && CanCut(m, v, d, t)
      modifies this
      ensures Valid() && Removed(old(m), old(v), d, m, v)
    {
      ghost var m0, v0 := m, v;
      RootCut(m, v, t);
      m := m.(root := t);
      v := CutView(v0, d);
      CutRootColored(m0, v0, t, m, v);
      CutIn(m0, v0, d, t, m, v, d);
      v := Painted(m, v, t).1;
      m := m.(red := m.red[t := false]);
      ClearedColored(m, v, d);
      Clear(d);
      RemovedKeys(m0, v0, d, m, v);
    }

    method Clear(d: Ptr)
      requires |m.left| == |m.right| == |m.parent| == |m.key| && d < |m.key|
      modifies this`m
      ensures m == Cleared(old(m), d)
    {
      m := m.(left := m.left[d := 0]);
      m := m.(right := m.right[d := 0]);
      m := m.(parent := m.parent[d := 0]);
      m := m.(key := m.key[d := 0]);
    }

    method Detach(s: Ptr, t: Ptr)
      requires |m.left| == |m.right| == |m.parent| == |m.key| && s < |m.key| && m.parent[s] < |m.key|
      modifies this`m
      ensures m == Detached(old(m), s, t)
    {
      if s == m.left[m.parent[s]] {
        m := m.(left := m.left[m.parent[s] := t]);
      } else {
        m := m.(right := m.right[m.parent[s] := t]);
      }
    }

    /** A node with at most one child, t, which goes up in its place. */
    method Unlink(d: Ptr, t: Ptr) returns (ghost p: Ptr, ghost onLeft: bool)
      requires Valid() && d != m.root && CanCut(m, v, d, t)
      modifies this
      ensures Lacking(m, v, old(m.red[d]), t, p, onLeft) && Removed(old(m), old(v), d, m, v)
    {
      ghost var m0, v0 := m, v;
      ParentInRange(m, v, d);
      p := m.parent[d];
      onLeft := m.left[p] == d;
      Detach(d, t);
      m := m.(parent := m.parent[t := m.parent[d]]);
      Unlinked(m0, v0, d, t, m, onLeft);
      Clear(d);
      v := CutView(v0, d);
    }

    /** A node with two children: s, the next in the order, leaves its place and takes that of d. */
    method Exchange(d: Ptr, s: Ptr, t: Ptr) returns (ghost p: Ptr, ghost onLeft: bool)
      requires Valid() && Swaps(m, v, d, s, t)
      modifies this
      ensures Lacking(m, v, old(m.red[s]), t, p, onLeft) && Removed(old(m), old(v), d, m, v)
    {
      ghost var m0, v0 := m, v;
      p := Instead(d, s, m.parent[s]);
      onLeft := m.left[m.parent[s]] == s;
      Part(d, s, t);
      TakePlace(d, s, m0, v0, t, onLeft);
      v := ExchangedView(v0, d, s);
    }

    method Part(d: Ptr, s: Ptr, t: Ptr)
      requires |m.left| == |m.right| == |m.parent| == |m.key| && s < |m.key| && m.parent[s] < |m.key| && t < |m.key|
      modifies this`m
      ensures Parted(old(m), d, s, t, m)
    {
      Detach(s, t);
      if m.parent[s] == d {
        m := m.(parent := m.parent[t := s]);
      } else {
        m := m.(parent := m.parent[t := m.parent[s]]);
      }
    }

    method TakePlace(d: Ptr, s: Ptr, ghost m0: Mem, ghost v0: View, ghost t: Ptr, ghost onLeft: bool)
      requires Swaps(m0, v0, d, s, t) && Parted(m0, d, s, t, m) && (onLeft <==> m0.left[m0.parent[s]] == s)
      modifies this`m
      ensures var v2 := ExchangedView(v0, d, s);
          Lacking(m, v2, m0.red[s], t, Instead(d, s, m0.parent[s]), onLeft) && Removed(m0, v0, d, m, v2)
    {
      ghost var m1 := m;
      PartedReady(m0, v0, d, s, t, m1);
      Substitute(d, s);
      Clear(d);
      ExchangedByWrites(m0, v0, d, s, t, m1, m, onLeft);
    }

    method Substitute(d: Ptr, s: Ptr)
      requires |m.left| == |m.right| == |m.parent| == |m.red| == |m.key| && d < |m.key| && s < |m.key|
      requires m.left[d] < |m.key| && m.right[d] < |m.key|
      requires (d != m.root ==> m.parent[d] < |m.key| && m.parent[d] != s)
      requires d != s && m.left[d] != d && m.right[d] != d
      modifies this`m
      ensures m == Substituted(old(m), d, s)
    {
      m := m.(left := m.left[s := m.left[d]]);
      m := m.(right := m.right[s := m.right[d]]);
      m := m.(parent := m.parent[s := m.parent[d]]);
      m := m.(red := m.red[s := m.red[d]]);
      if d == m.root {
        m := m.(root := s);
      } else if d == m.left[m.parent[d]] {
        m := m.(left := m.left[m.parent[d] := s]);
      } else {
        m := m.(right := m.right[m.parent[d] := s]);
      }
      if m.left[s] != m.nil {
        m := m.(parent := m.parent[m.left[s] := s]);
      }
      if m.right[s] != m.nil {
        m := m.(parent := m.parent[m.right[s] := s]);
      }
    }

    /** al_rbtree_delete: the node is gone from the order, and the tree is red-black again. */
    method Delete(d: Ptr)
      requires Valid() && In(m, v, d)
      modifies this
      ensures Valid() && Removed(old(m), old(v), d, m, v)
    {
      ghost var m0, v0 := m, v;
      var s, t := d, m.right[d];
      if m.left[d] == m.nil {
        t := m.right[d];
      } else if m.right[d] == m.nil {
        t := m.left[d];
      } else {
        assert NodeOk(m, v, d);
        s := Min(m.right[d]);
        t := if m.left[s] != m.nil then m.left[s] else m.right[s];
        NoLeft(m, v, s);
      }
      CutReady(m, v, s);
      if s == m.root {
        assert s == d by { if s != d { FollowerNotRoot(m, v, d, s); } }
        DeleteRoot(d, t);
        return;
      }
      var red := m.red[s];
      ghost var p, onLeft;
      if s == d {
        p, onLeft := Unlink(d, t);
      } else {
        p, onLeft := Exchange(d, s, t);
      }
      if !red {
        Repair(t, p, onLeft);
      }
      RemovedKeys(m0, v0, d, m, v);
    }

    /** al_rbtree_next: the next node in the order, or null behind the last. */
    method Next(x: Ptr) returns (r: Ptr)
      requires Links(m, v) && In(m, v, x)
      ensures r == if v.pos[x] + 1 < |v.order| then v.order[v.pos[x] + 1] else 0
    {
      assert NodeOk(m, v, x);
      if m.right[x] != m.nil {
        r := Min(m.right[x]);
        return;
      }
      var node := x;
      while true
        invariant In(m, v, node) && v.hi[node] == v.pos[x] + 1
        decreases |v.order| + v.lo[node] - v.hi[node]
      {
        var parent := m.parent[node];
        assert NodeOk(m, v, node) && ParentOk(m, v, node);
        if node == m.root {
          return 0;
        }
        assert NodeOk(m, v, parent);
        if node == m.left[parent] {
          return parent;
        }
        node := parent;
      }
    }

    /** From the minimum on, al_rbtree_next visits every node once, in order. */
    method Walk() returns (visited: seq<Ptr>)
      requires Links(m, v)
      ensures visited == v.order
    {
      visited := [];
      if m.root != m.nil {
        var node := Min(m.root);
        while node != 0
          invariant |visited| <= |v.order| && visited == v.order[..|visited|]
          invariant if |visited| < |v.order| then node == v.order[|visited|] else node == 0
          decreases |v.order| - |visited|
        {
          assert OrderOk(m, v, |visited|);
          visited := visited + [node];
          node := Next(node);
        }
        assert OrderOk(m, v, |visited|);
      }
    }

    /** al_rbtree_lookup: a node with the key, if there is one, in at most 2 log2(n + 1) steps. */
    method Lookup(k: nat) returns (r: Ptr, ghost steps: nat)
      requires Valid()
      ensures r == 0 <==> forall i :: 0 <= i < |v.order| ==> KeyAt(m, v, i) != k
      ensures r != 0 ==> In(m, v, r) && m.key[r] == k
      ensures Pow2(steps) <= (|v.order| + 1) * (|v.order| + 1)
    {
      HeightBound(m, v);
      var p := m.root;
      steps := 0;
      ghost var a: nat, b: nat := 0, |v.order|;
      while p != m.nil
        invariant Looking(m, v, k, p, a, b, steps)
        decreases b - a
      {
        Look(m, v, k, p, a, b, steps);
        steps := steps + 1;
        if k < m.key[p] {
          b := v.pos[p];
          p := m.left[p];
        } else if k > m.key[p] {
          a := v.pos[p] + 1;
          p := m.right[p];
        } else {
          Pow2Grows(steps, Height(m, v, m.root));
          return p, steps;
        }
      }
      Pow2Grows(steps, Height(m, v, m.root));
      r := 0;
    }
  }

  lemma SideOf(m: Mem, v: View, t: Ptr, p: Ptr, onLeft: bool)
    requires Short(m, v, t, p, onLeft) && p != 0
    ensures m.parent[t] == p && p < |m.key| && (onLeft <==> t == m.left[p])
  {
    if onLeft { Sibling(m, v, t, p); } else { SiblingRight(m, v, t, p); }
  }

  lemma NoLeft(m: Mem, v: View, s: Ptr)
    requires Links(m, v) && In(m, v, s) && v.lo[s] == v.pos[s]
    ensures m.left[s] == m.nil
  {
    assert NodeOk(m, v, s);
  }

  /** p is the subtree that holds order[a..b], and the only one where the key k can be. */
  ghost predicate Looking(m: Mem, v: View, k: nat, p: Ptr, a: nat, b: nat, steps: nat) {
    && Links(m, v) && Keyed(m, v) && a <= b <= |v.order|
    && (if a == b then p == m.nil else In(m, v, p) && v.lo[p] == a && v.hi[p] == b)
    && InOrNil(m, v, m.root) && steps + Height(m, v, p) <= Height(m, v, m.root)
    && (forall i :: 0 <= i < |v.order| && KeyAt(m, v, i) == k ==> a <= i < b)
  }

  lemma Look(m: Mem, v: View, k: nat, p: Ptr, a: nat, b: nat, steps: nat)
    requires Looking(m, v, k, p, a, b, steps) && p != m.nil
    ensures In(m, v, p) && a <= v.pos[p] < b && steps + 1 <= Height(m, v, m.root)
    ensures k < m.key[p] ==> Looking(m, v, k, m.left[p], a, v.pos[p], steps + 1)
    ensures k > m.key[p] ==> Looking(m, v, k, m.right[p], v.pos[p] + 1, b, steps + 1)
    ensures KeyAt(m, v, v.pos[p]) == m.key[p]
  {
    Sizes(m, v, p);
    assert NodeOk(m, v, p);
    assert KeyAt(m, v, v.pos[p]) == m.key[p];
  }

  /** The node after one with two children is below it. */
  lemma FollowerNotRoot(m: Mem, v: View, d: Ptr, s: Ptr)
    requires Links(m, v) && In(m, v, d) && m.left[d] != m.nil && In(m, v, s) && m.left[s] == m.nil
    requires v.pos[s] == v.pos[d] + 1
    ensures s != m.root
  {
    assert NodeOk(m, v, s) && NodeOk(m, v, d);
  }

  /** The order of the keys depends on the keys and the order alone. */
  lemma SameKeys(m: Mem, v: View, m': Mem, v': View)
    requires Links(m, v) && Links(m', v') && Keyed(m, v) && Same(m, v, m', v')
    ensures Keyed(m', v')
  {
    forall i, j | 0 <= i < j < |v'.order| ensures KeyAt(m', v', i) <= KeyAt(m', v', j) {
      assert KeyAt(m, v, i) <= KeyAt(m, v, j);
    }
  }

  /** A right rotation, seen in the mirror and back. */
  lemma RightRotatedView(m: Mem, v: View, x: Ptr, y: Ptr, m': Mem, w: View)
    requires Sized(m, v) && CanRotate(Mirror(m), MirrorView(v), x, y)
    requires w == LeftRotatedView(Mirror(m), MirrorView(v), x, y) && Mirror(m') == LeftRotated(Mirror(m), x)
    ensures |w.pos| == |w.lo| == |w.hi| == |w.bh|
    ensures RotatedRight(m, v, x, y, m', MirrorView(w)) && Links(m', MirrorView(w))
  {
    RotatedByWrites(Mirror(m), MirrorView(v), x, y);
    RotatedLinks(Mirror(m), MirrorView(v), x, y, Mirror(m'), w);
    MirroredLinks(Mirror(m'), w);
    assert Mirror(Mirror(m')) == m';
    MirrorTwice(w);
    ReversedTwice(v.order);
  }
}
