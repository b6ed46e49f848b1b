/** The assignments of al_rbtree_insert_value and al_rbtree_delete, and the relations they establish. */
module RbWrites {

  import opened RbShape
  import opened RbColor
  import opened RbAttach
  import opened RbRepair
  import opened RbDelete

  // ---------- insertion ----------

  function Hung(m: Mem, a: Ptr, z: Ptr, toLeft: bool): Mem
    requires |m.left| == |m.right| == |m.parent| == |m.red| == |m.key| && a < |m.key| && z < |m.key|
  {
    var m1 := if toLeft then m.(left := m.left[a := z]) else m.(right := m.right[a := z]);
    m1.(parent := m1.parent[z := a], left := m1.left[z := m.nil], right := m1.right[z := m.nil],
        red := m1.red[z := true])
  }

  ghost function HungView(m: Mem, v: View, s: Spot): View
    requires Sized(m, v) && s.q <= |v.order| && s.z < |m.key|
  {
    View(v.order[..s.q] + [s.z] + v.order[s.q..],
         seq(|v.pos|, n requires 0 <= n < |v.pos| =>
               if n == s.z then s.q else if v.pos[n] >= s.q then v.pos[n] + 1 else v.pos[n]),
         seq(|v.pos|, n requires 0 <= n < |v.pos| =>
               if n == s.z then s.q else if n !in s.path && v.lo[n] >= s.q then v.lo[n] + 1 else v.lo[n]),
         seq(|v.pos|, n requires 0 <= n < |v.pos| =>
               if n == s.z then s.q + 1 else if n in s.path || v.lo[n] >= s.q then v.hi[n] + 1 else v.hi[n]),
         v.bh[s.z := 0])
  }

  lemma HungAttached(m: Mem, v: View, s: Spot)
    requires SpotOk(m, v, s)
    ensures Attached(m, v, s, Hung(m, s.a, s.z, s.q <= v.pos[s.a]), HungView(m, v, s))
  {
    var m', v' := Hung(m, s.a, s.z, s.q <= v.pos[s.a]), HungView(m, v, s);
    forall n: Ptr ensures Grown(m, v, s, m', v', n) {}
  }

  /** The gap for a key exists: the nodes are in key order. */
  lemma GapFor(m: Mem, v: View, k: nat) returns (q: nat)
    requires Links(m, v) && Keyed(m, v)
    ensures Gap(m, v, k, q)
  {
    q := 0;
    while q < |v.order| && KeyAt(m, v, q) <= k
      invariant q <= |v.order| && forall i :: 0 <= i < q ==> KeyAt(m, v, i) <= k
    {
      q := q + 1;
    }
  }

  ghost function FirstView(v: View, z: Ptr): View
    requires z < |v.pos| && |v.pos| == |v.lo| == |v.hi| == |v.bh|
  {
    View([z], v.pos[z := 0], v.lo[z := 0], v.hi[z := 1], v.bh[z := 1])
  }

  /** The first node, black, is a tree. */
  lemma FirstColored(m: Mem, v: View, z: Ptr, m': Mem)
    requires Colored(m, v) && v.order == [] && 0 < z < |m.key| && z != m.nil
    requires m' == m.(parent := m.parent[z := 0], left := m.left[z := m.nil], right := m.right[z := m.nil],
        red := m.red[z := false], root := z)
    ensures Colored(m', FirstView(v, z)) && Keyed(m', FirstView(v, z))
  {
    var v' := FirstView(v, z);
    forall n: Ptr ensures NodeOk(m', v', n) {}
    forall n: Ptr ensures ParentOk(m', v', n) {}
    forall i: nat ensures OrderOk(m', v', i) {}
    forall n: Ptr ensures RedOk(m', v', 0, n) {}
    forall n: Ptr ensures BlackOk(m', v', n) {}
  }

  // ---------- deletion ----------

  ghost function CutView(v: View, s: Ptr): View
    requires |v.pos| == |v.lo| == |v.hi| == |v.bh| && s < |v.pos| && v.pos[s] < |v.order|
  {
    var q := v.pos[s];
    View(v.order[..q] + v.order[q + 1..],
         seq(|v.pos|, n requires 0 <= n < |v.pos| => Drop(q, v.pos[n])),
         seq(|v.pos|, n requires 0 <= n < |v.pos| => Drop(q, v.lo[n])),
         seq(|v.pos|, n requires 0 <= n < |v.pos| => Drop(q, v.hi[n])),
         v.bh)
  }

  /** The parent of s, which is not the root, takes t in its place. */
  function Detached(m: Mem, s: Ptr, t: Ptr): Mem
    requires |m.left| == |m.right| == |m.parent| == |m.key| && s < |m.key| && m.parent[s] < |m.key|
  {
    if s == m.left[m.parent[s]] then m.(left := m.left[m.parent[s] := t]) else m.(right := m.right[m.parent[s] := t])
  }

  /** The fields of a deleted node. */
  function Cleared(m: Mem, d: Ptr): Mem
    requires |m.left| == |m.right| == |m.parent| == |m.key| && d < |m.key|
  {
    m.(left := m.left[d := 0], right := m.right[d := 0], parent := m.parent[d := 0], key := m.key[d := 0])
  }

  lemma DetachedKids(m: Mem, v: View, s: Ptr, t: Ptr, n: Ptr)
    requires CanCut(m, v, s, t) && s != m.root && In(m, v, m.parent[s]) && In(m, v, n) && n != s
    ensures var m' := Detached(m, s, t);
      m'.left[n] == (if m.left[n] == s then t else m.left[n])
          && m'.right[n] == (if m.right[n] == s then t else m.right[n])
  {
    assert ParentOk(m, v, s) && NodeOk(m, v, n) && NodeOk(m, v, m.parent[s]);
  }

  /** s cut out below the root. */
  lemma DetachedCut(m: Mem, v: View, s: Ptr, t: Ptr, m': Mem)
    requires CanCut(m, v, s, t) && s != m.root && In(m, v, m.parent[s])
    requires var d := Detached(m, s, t); m' == d.(parent := d.parent[t := m.parent[s]])
    ensures Cut(m, v, s, t, m', CutView(v, s))
  {
    var v' := CutView(v, s);
    forall n: Ptr ensures Kept(m, v, s, t, m', v', n) {
      if In(m, v, n) && n != s { DetachedKids(m, v, s, t, n); }
    }
  }

  /** The root cut out. */
  lemma RootCut(m: Mem, v: View, t: Ptr)
    requires CanCut(m, v, m.root, t)
    ensures Cut(m, v, m.root, t, m.(root := t), CutView(v, m.root))
  {
    var v' := CutView(v, m.root);
    forall n: Ptr ensures Kept(m, v, m.root, t, m.(root := t), v', n) {
      if In(m, v, n) { NotAChild(m, v, n); }
    }
  }

  /** Clearing a node that is not in the tree changes nothing in it. */
  lemma ClearedColored(m: Mem, v: View, d: Ptr)
    requires Colored(m, v) && 0 < d < |m.key| && d != m.nil && !In(m, v, d)
    ensures Colored(Cleared(m, d), v)
  {
    var m' := Cleared(m, d);
    ClearedLinks(m, v, d);
    forall n: Ptr ensures RedOk(m', v, 0, n) { assert RedOk(m, v, 0, n); }
    forall n: Ptr ensures BlackOk(m', v, n) { assert BlackOk(m, v, n); }
  }

  lemma ClearedLinks(m: Mem, v: View, d: Ptr)
    requires Links(m, v) && 0 < d < |m.key| && d != m.nil && !In(m, v, d)
    ensures Links(Cleared(m, d), v)
  {
    var m' := Cleared(m, d);
    forall n: Ptr ensures NodeOk(m', v, n) { assert NodeOk(m, v, n); }
    forall n: Ptr ensures ParentOk(m', v, n) { assert ParentOk(m, v, n); }
    forall i: nat ensures OrderOk(m', v, i) { assert OrderOk(m, v, i); }
  }

  lemma ClearedShort(m: Mem, v: View, d: Ptr, t: Ptr, p: Ptr, onLeft: bool)
    requires Short(m, v, t, p, onLeft) && p != 0 && 0 < d < |m.key| && d != m.nil && !In(m, v, d) && t != d
    ensures Short(Cleared(m, d), v, t, p, onLeft)
  {
    var m' := Cleared(m, d);
    ClearedLinks(m, v, d);
    forall n: Ptr ensures RedBut(m', v, t, n) { assert RedBut(m, v, t, n); }
    forall n: Ptr ensures BlackBut(m', v, p, onLeft, n) { assert BlackBut(m, v, p, onLeft, n); }
  }

  // ---------- the node that takes the deleted one's place ----------

  /** s gets the links and colour of d, and d's neighbours point to s. */
  function Substituted(m: Mem, d: Ptr, s: Ptr): Mem
    requires |m.left| == |m.right| == |m.parent| == |m.red| == |m.key| && d < |m.key| && s < |m.key|
    requires m.left[d] < |m.key| && m.right[d] < |m.key| && (d != m.root ==> m.parent[d] < |m.key| && m.parent[d] != s)
  {
    var m2 := m.(left := m.left[s := m.left[d]], right := m.right[s := m.right[d]],
        parent := m.parent[s := m.parent[d]], red := m.red[s := m.red[d]]);
    var m3 := if d == m2.root then m2.(root := s)
              else if d == m2.left[m2.parent[d]] then m2.(left := m2.left[m2.parent[d] := s])
              else m2.(right := m2.right[m2.parent[d] := s]);
    var m4 := if m3.left[s] != m.nil then m3.(parent := m3.parent[m3.left[s] := s]) else m3;
    if m4.right[s] != m.nil then m4.(parent := m4.parent[m4.right[s] := s]) else m4
  }

  /** In m, d still stands where it was and s is out of the tree; only the parent of t may already be s. */
  ghost predicate Substitutes(m: Mem, v: View, d: Ptr, s: Ptr, t: Ptr, m1: Mem) {
    && CanReplace(m, v, d, s) && t < |m.key| && t != d && t != s && t != m.root && d != s
    && m1 == m.(parent := m.parent[t := Instead(d, s, m.parent[t])])
  }

  lemma SubstitutesReady(m: Mem, v: View, d: Ptr, s: Ptr, t: Ptr, m1: Mem)
    requires Substitutes(m, v, d, s, t, m1)
    ensures m1.left[d] < |m1.key| && m1.right[d] < |m1.key|
    ensures (d != m1.root ==> m1.parent[d] < |m1.key| && m1.parent[d] != s)
    ensures m1.left[d] != s && m1.right[d] != s && m1.left[d] != d && m1.right[d] != d
    ensures d != m.root ==> In(m, v, m.parent[d]) && m.parent[d] != d
  {
    assert NodeOk(m, v, d) && ParentOk(m, v, d);
    if d != m.root { assert NodeOk(m, v, m.parent[d]); }
  }

  /** What Substituted leaves in each field. */
  lemma SubstitutedFields(m: Mem, d: Ptr, s: Ptr)
    requires |m.left| == |m.right| == |m.parent| == |m.red| == |m.key| && d < |m.key| && s < |m.key| && d != s
    requires m.left[d] < |m.key| && m.right[d] < |m.key| && (d != m.root ==> m.parent[d] < |m.key| && m.parent[d] != s)
    ensures var m' := Substituted(m, d, s);
      && m'.left == (var l := m.left[s := m.left[d]];
          if d != m.root && d == l[m.parent[d]] then l[m.parent[d] := s] else l)
      && m'.right == (var r := m.right[s := m.right[d]];
          if d != m.root && d != m.left[m.parent[d]] then r[m.parent[d] := s] else r)
      && m'.parent == Adopted(m.parent[s := m.parent[d]], m.left[d], m.right[d], m.nil, s)
  {}

  function Adopted(parent: seq<Ptr>, l: Ptr, r: Ptr, nil: Ptr, s: Ptr): seq<Ptr>
    requires l < |parent| && r < |parent|
  {
    var p := if l != nil then parent[l := s] else parent;
    if r != nil then p[r := s] else p
  }

  lemma SubstitutedKids(m: Mem, v: View, d: Ptr, s: Ptr, t: Ptr, m1: Mem, n: Ptr)
    requires Substitutes(m, v, d, s, t, m1) && In(m, v, n)
    ensures m1.left[d] < |m1.key| && m1.right[d] < |m1.key|
    ensures (d != m1.root ==> m1.parent[d] < |m1.key| && m1.parent[d] != s)
    ensures var m' := Substituted(m1, d, s); var n' := Instead(d, s, n);
      m'.left[n'] == Instead(d, s, m.left[n]) && m'.right[n'] == Instead(d, s, m.right[n])
  {
    SubstitutesReady(m, v, d, s, t, m1);
    SubstitutedFields(m1, d, s);
    assert NodeOk(m, v, n);
    if d == m.root { NotAChild(m, v, n); } else { assert ParentOk(m, v, d) && NodeOk(m, v, m.parent[d]); }
  }

  lemma ChildOf(m: Mem, v: View, d: Ptr, n: Ptr)
    requires Links(m, v) && In(m, v, d) && (n == m.nil || In(m, v, n)) && n != m.root
    ensures n != m.nil ==> (m.parent[n] == d <==> n == m.left[d] || n == m.right[d])
  {
    assert NodeOk(m, v, d) && ParentOk(m, v, n);
  }

  lemma AdoptedParent(m: Mem, v: View, d: Ptr, s: Ptr, t: Ptr, m1: Mem, n: Ptr)
    requires Substitutes(m, v, d, s, t, m1) && (n == t == m.nil || In(m, v, n))
    ensures m1.left[d] < |m1.key| && m1.right[d] < |m1.key|
    ensures var parent := Adopted(m1.parent[s := m1.parent[d]], m1.left[d], m1.right[d], m1.nil, s);
      n == m.root || parent[Instead(d, s, n)] == Instead(d, s, m.parent[n])
  {
    SubstitutesReady(m, v, d, s, t, m1);
    if n != m.root { ChildOf(m, v, d, n); }
  }

  lemma SubstitutedParent(m: Mem, v: View, d: Ptr, s: Ptr, t: Ptr, m1: Mem, n: Ptr)
    requires Substitutes(m, v, d, s, t, m1) && (n == t == m.nil || In(m, v, n))
    ensures m1.left[d] < |m1.key| && m1.right[d] < |m1.key|
    ensures (d != m1.root ==> m1.parent[d] < |m1.key| && m1.parent[d] != s)
    ensures var m' := Substituted(m1, d, s); n == m.root || m'.parent[Instead(d, s, n)] == Instead(d, s, m.parent[n])
  {
    SubstitutesReady(m, v, d, s, t, m1);
    SubstitutedFields(m1, d, s);
    AdoptedParent(m, v, d, s, t, m1, n);
  }

  lemma SubstitutedReplaced(m: Mem, v: View, d: Ptr, s: Ptr, t: Ptr, m1: Mem)
    requires Substitutes(m, v, d, s, t, m1)
    ensures m1.left[d] < |m1.key| && m1.right[d] < |m1.key|
    ensures (d != m1.root ==> m1.parent[d] < |m1.key| && m1.parent[d] != s)
    ensures Replaced(m, v, d, s, Substituted(m1, d, s))
  {
    SubstitutesReady(m, v, d, s, t, m1);
    var m' := Substituted(m1, d, s);
    SubstitutedFields(m1, d, s);
    forall n: Ptr ensures Moved(m, v, d, s, m', n) { SubstitutedMoved(m, v, d, s, t, m1, n); }
  }

  lemma SubstitutedMoved(m: Mem, v: View, d: Ptr, s: Ptr, t: Ptr, m1: Mem, n: Ptr)
    requires Substitutes(m, v, d, s, t, m1)
    ensures m1.left[d] < |m1.key| && m1.right[d] < |m1.key|
    ensures (d != m1.root ==> m1.parent[d] < |m1.key| && m1.parent[d] != s)
    ensures Moved(m, v, d, s, Substituted(m1, d, s), n)
  {
    SubstitutesReady(m, v, d, s, t, m1);
    SubstitutedFields(m1, d, s);
    if In(m, v, n) {
      SubstitutedKids(m, v, d, s, t, m1, n);
      SubstitutedParent(m, v, d, s, t, m1, n);
    }
  }

  /** Without one of them, the other keys are still in order. */
  lemma FewerKeys(m: Mem, v: View, q: nat, m': Mem, v': View)
    requires Links(m, v) && Keyed(m, v) && q < |v.order| && Links(m', v') && v'.order == v.order[..q] + v.order[q + 1..]
    requires forall i :: 0 <= i < |v'.order| ==> KeyAt(m', v', i) == KeyAt(m, v, if i < q then i else i + 1)
    ensures Keyed(m', v')
  {}

  // ---------- the two ways a node leaves the tree ----------

  /** The order without d, and d's key forgotten. */
  ghost predicate Removed(m: Mem, v: View, d: Ptr, m': Mem, v': View)
    requires Links(m, v) && In(m, v, d)
  {
    && m'.key == m.key[d := 0] && m'.nil == m.nil
    && v'.order == v.order[..v.pos[d]] + v.order[v.pos[d] + 1..]
  }

  /** Red-black again, or, where a black node is gone, short of one below p. */
  ghost predicate Lacking(m: Mem, v: View, wasRed: bool, t: Ptr, p: Ptr, onLeft: bool) {
    if wasRed then Colored(m, v) else Short(m, v, t, p, onLeft) && p != 0
  }

  lemma RemovedKeys(m: Mem, v: View, d: Ptr, m': Mem, v': View)
    requires Links(m, v) && Keyed(m, v) && In(m, v, d) && Removed(m, v, d, m', v') && Links(m', v')
    ensures Keyed(m', v')
  {
    forall i | 0 <= i < |v'.order| ensures KeyAt(m', v', i) == KeyAt(m, v, if i < v.pos[d] then i else i + 1) {
      assert OrderOk(m, v, if i < v.pos[d] then i else i + 1) && OrderOk(m', v', i);
    }
    FewerKeys(m, v, v.pos[d], m', v');
  }

  /** A node with at most one child. */
  lemma Unlinked(m: Mem, v: View, d: Ptr, t: Ptr, m1: Mem, onLeft: bool)
    requires Colored(m, v) && CanCut(m, v, d, t) && d != m.root && In(m, v, m.parent[d])
    requires (onLeft <==> m.left[m.parent[d]] == d)
    requires var c := Detached(m, d, t); m1 == c.(parent := c.parent[t := m.parent[d]])
    ensures var v1 := CutView(v, d);
        Lacking(Cleared(m1, d), v1, m.red[d], t, m.parent[d], onLeft) && Removed(m, v, d, Cleared(m1, d), v1)
  {
    var v1 := CutView(v, d);
    DetachedCut(m, v, d, t, m1);
    CutLinks(m, v, d, t, m1, v1);
    CutIn(m, v, d, t, m1, v1, d);
    if m.red[d] {
      CutColored(m, v, d, t, m1, v1);
      ClearedColored(m1, v1, d);
    } else {
      CutShort(m, v, d, t, m1, v1, onLeft);
      ClearedShort(m1, v1, d, t, m.parent[d], onLeft);
    }
  }

  /** A node d with two children: s, next in the order, is taken out and put in its place. */
  ghost predicate Swaps(m: Mem, v: View, d: Ptr, s: Ptr, t: Ptr) {
    && Colored(m, v) && In(m, v, d) && CanCut(m, v, s, t) && s != d && v.pos[s] == v.pos[d] + 1
    && m.left[s] == m.nil && s != m.root && In(m, v, m.parent[s]) && m.parent[s] != s
  }

  lemma SwapsReady(m: Mem, v: View, d: Ptr, s: Ptr, t: Ptr, mc: Mem, m1: Mem)
    requires Swaps(m, v, d, s, t)
    requires var c := Detached(m, s, t);
      mc == c.(parent := c.parent[t := m.parent[s]])
          && m1 == c.(parent := c.parent[t := if m.parent[s] == d then s else m.parent[s]])
    ensures Cut(m, v, s, t, mc, CutView(v, s)) && Substitutes(mc, CutView(v, s), d, s, t, m1)
    ensures (t == mc.nil || In(mc, CutView(v, s), t))
    ensures mc.parent[t] == m.parent[s]
  {
    var vc := CutView(v, s);
    DetachedCut(m, v, s, t, mc);
    CutLinks(m, v, s, t, mc, vc);
    CutIn(m, v, s, t, mc, vc, d);
    CutIn(m, v, s, t, mc, vc, s);
    CutIn(m, v, s, t, mc, vc, t);
    assert NodeOk(m, v, s);
    assert t != m.nil ==> NodeOk(m, v, t);
    NotAChild(m, v, s);
    assert m1.parent == mc.parent[t := Instead(d, s, mc.parent[t])];
  }

  lemma SwappedOrder(v: View, d: Ptr, s: Ptr)
    requires |v.pos| == |v.lo| == |v.hi| == |v.bh| && d < |v.pos| && s < |v.pos| && v.pos[s] == v.pos[d] + 1 < |v.order|
    requires v.order[v.pos[s]] == s
    ensures ReplacedView(CutView(v, s), d, s).order == v.order[..v.pos[d]] + v.order[v.pos[d] + 1..]
  {}

  lemma SwappedColors(m: Mem, v: View, d: Ptr, s: Ptr, t: Ptr, mc: Mem, m2: Mem, onLeft: bool)
    requires Swaps(m, v, d, s, t) && (onLeft <==> m.left[m.parent[s]] == s) && Cut(m, v, s, t, mc, CutView(v, s))
    requires Replaced(mc, CutView(v, s), d, s, m2) && m2.parent[t] == Instead(d, s, m.parent[s]) && t != d && t != s
    ensures Lacking(m2, ReplacedView(CutView(v, s), d, s), m.red[s], t, Instead(d, s, m.parent[s]), onLeft)
  {
    var vc := CutView(v, s);
    if m.red[s] {
      CutColored(m, v, s, t, mc, vc);
      ReplacedColored(mc, vc, d, s, m2);
    } else {
      CutShort(m, v, s, t, mc, vc, onLeft);
      ReplacedShort(mc, vc, d, s, m2, t, m.parent[s], onLeft);
    }
  }

  lemma Exchanged(m: Mem, v: View, d: Ptr, s: Ptr, t: Ptr, mc: Mem, m2: Mem, onLeft: bool)
    requires Swaps(m, v, d, s, t) && (onLeft <==> m.left[m.parent[s]] == s) && Cut(m, v, s, t, mc, CutView(v, s))
    requires Replaced(mc, CutView(v, s), d, s, m2) && m2.parent[t] == Instead(d, s, m.parent[s]) && t != d && t != s
    requires m2.key == m.key
    ensures var v2 := ReplacedView(CutView(v, s), d, s);
      Lacking(Cleared(m2, d), v2, m.red[s], t, Instead(d, s, m.parent[s]), onLeft)
          && Removed(m, v, d, Cleared(m2, d), v2)
  {
    var vc := CutView(v, s);
    var v2 := ReplacedView(vc, d, s);
    SwappedColors(m, v, d, s, t, mc, m2, onLeft);
    SwappedOrder(v, d, s);
    ReplacedIn(mc, vc, d, s, m2, d);
    if m.red[s] {
      ClearedColored(m2, v2, d);
    } else {
      ClearedShort(m2, v2, d, t, Instead(d, s, m.parent[s]), onLeft);
    }
  }

  ghost function ExchangedView(v: View, d: Ptr, s: Ptr): View
    requires |v.pos| == |v.lo| == |v.hi| == |v.bh| && d < |v.pos| && s < |v.pos| && v.pos[s] == v.pos[d] + 1 < |v.order|
  {
    ReplacedView(CutView(v, s), d, s)
  }

  /** The links of s and t before the substitution. */
  ghost predicate Parted(m: Mem, d: Ptr, s: Ptr, t: Ptr, m1: Mem)
    requires |m.left| == |m.right| == |m.parent| == |m.key| && s < |m.key| && m.parent[s] < |m.key| && t < |m.key|
  {
    var c := Detached(m, s, t);
    m1 == c.(parent := c.parent[t := if m.parent[s] == d then s else m.parent[s]])
  }

  lemma PartedReady(m: Mem, v: View, d: Ptr, s: Ptr, t: Ptr, m1: Mem)
    requires Swaps(m, v, d, s, t) && Parted(m, d, s, t, m1)
    ensures |m1.left| == |m1.right| == |m1.parent| == |m1.red| == |m1.key| && d < |m1.key| && s < |m1.key|
    ensures m1.left[d] < |m1.key| && m1.right[d] < |m1.key|
    ensures (d != m1.root ==> m1.parent[d] < |m1.key| && m1.parent[d] != s)
    ensures d != s && m1.left[d] != d && m1.right[d] != d
  {
    var c := Detached(m, s, t);
    var mc := c.(parent := c.parent[t := m.parent[s]]);
    SwapsReady(m, v, d, s, t, mc, m1);
    SubstitutesReady(mc, CutView(v, s), d, s, t, m1);
  }

  lemma ExchangedByWrites(m: Mem, v: View, d: Ptr, s: Ptr, t: Ptr, m1: Mem, m2: Mem, onLeft: bool)
    requires Swaps(m, v, d, s, t) && Parted(m, d, s, t, m1) && (onLeft <==> m.left[m.parent[s]] == s)
    requires |m1.left| == |m1.right| == |m1.parent| == |m1.red| == |m1.key| && d < |m1.key| && s < |m1.key|
    requires m1.left[d] < |m1.key| && m1.right[d] < |m1.key|
    requires (d != m1.root ==> m1.parent[d] < |m1.key| && m1.parent[d] != s)
    requires m2 == Cleared(Substituted(m1, d, s), d)
    ensures var v2 := ExchangedView(v, d, s);
        Lacking(m2, v2, m.red[s], t, Instead(d, s, m.parent[s]), onLeft) && Removed(m, v, d, m2, v2)
  {
    var vc := CutView(v, s);
    var c := Detached(m, s, t);
    var mc := c.(parent := c.parent[t := m.parent[s]]);
    SwapsReady(m, v, d, s, t, mc, m1);
    SubstitutedReplaced(mc, vc, d, s, t, m1);
    SubstitutedParent(mc, vc, d, s, t, m1, t);
    Exchanged(m, v, d, s, t, mc, Substituted(m1, d, s), onLeft);
  }
}
