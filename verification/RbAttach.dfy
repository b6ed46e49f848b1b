/**
 al_rbtree_insert_value: descend by the keys, and hang a new red leaf behind all nodes with keys not
 above its own.
 */
module RbAttach {

  import opened RbShape
  import opened RbColor
  import opened RbInsert

  /** The nodes are in key order. */
  ghost predicate Keyed(m: Mem, v: View)
    requires Links(m, v)
  {
    forall i, j :: 0 <= i < j < |v.order| ==> KeyAt(m, v, i) <= KeyAt(m, v, j)
  }

  ghost function KeyAt(m: Mem, v: View, i: nat): nat
    requires Links(m, v) && i < |v.order|
  {
    assert OrderOk(m, v, i);
    m.key[v.order[i]]
  }

  /** q is where a key k goes: behind every key that is not above it. */
  ghost predicate Gap(m: Mem, v: View, k: nat, q: nat)
    requires Links(m, v)
  {
    && q <= |v.order|
    && (forall i :: 0 <= i < q ==> KeyAt(m, v, i) <= k)
    && (forall i :: q <= i < |v.order| ==> KeyAt(m, v, i) > k)
  }

  /** The node a new leaf z hangs on, at gap q of the order; `path` holds the nodes from the root to it. */
  datatype Spot = Spot(a: Ptr, z: Ptr, q: nat, path: set<Ptr>)

  function Toward(m: Mem, v: View, a: Ptr, q: nat): Ptr
    requires a < |v.pos| && a < |m.left| && a < |m.right|
  {
    if q <= v.pos[a] then m.left[a] else m.right[a]
  }

  ghost predicate OnPath(m: Mem, v: View, s: Spot, n: Ptr)
    requires Sized(m, v)
  {
    && In(m, v, n) && v.lo[n] <= s.q <= v.hi[n]
    && (n != m.root ==> m.parent[n] in s.path)
    && (n != s.a ==> Toward(m, v, n, s.q) in s.path)
  }

  /** The way down has come to s.a. */
  ghost predicate Descending(m: Mem, v: View, s: Spot) {
    && Links(m, v) && 0 < s.z < |m.key| && s.z != m.nil && !In(m, v, s.z) && s.q <= |v.order|
    && s.a in s.path && In(m, v, s.a) && m.root in s.path
    && (forall n {:trigger OnPath(m, v, s, n)} :: n in s.path ==> OnPath(m, v, s, n))
  }

  ghost predicate SpotOk(m: Mem, v: View, s: Spot) {
    Descending(m, v, s) && Toward(m, v, s.a, s.q) == m.nil
  }

  /** One level further down. */
  lemma Descend(m: Mem, v: View, s: Spot)
    requires Descending(m, v, s) && Toward(m, v, s.a, s.q) != m.nil
    ensures var c := Toward(m, v, s.a, s.q);
      Descending(m, v, s.(a := c, path := s.path + {c})) && v.lo[s.a] <= v.lo[c] <= v.hi[c] <= v.hi[s.a]
          && v.hi[c] + v.lo[s.a] < v.hi[s.a] + v.lo[c]
  {
    var c := Toward(m, v, s.a, s.q);
    var s' := s.(a := c, path := s.path + {c});
    assert NodeOk(m, v, s.a) && NodeOk(m, v, c) && OnPath(m, v, s, s.a);
    forall n | n in s'.path ensures OnPath(m, v, s', n) {
      assert n in s.path ==> OnPath(m, v, s, n);
    }
  }

  /** The comparison of keys tells on which side of the node the gap is. */
  lemma ToLeft(m: Mem, v: View, k: nat, q: nat, a: Ptr)
    requires Links(m, v) && In(m, v, a) && Gap(m, v, k, q)
    ensures k < m.key[a] <==> q <= v.pos[a]
  {
    assert KeyAt(m, v, v.pos[a]) == m.key[a];
  }

  /** The links of cell n, and its stretch of the order, with the new leaf in place. */
  ghost predicate Grown(m: Mem, v: View, s: Spot, m': Mem, v': View, n: Ptr)
    requires SpotOk(m, v, s) && Sized(m', v') && |m'.key| == |m.key|
  {
    n < |m.key| ==>
      && m'.left[n] == (if n == s.z then m.nil else if n == s.a && s.q <= v.pos[n] then s.z else m.left[n])
      && m'.right[n] == (if n == s.z then m.nil else if n == s.a && s.q > v.pos[n] then s.z else m.right[n])
      && m'.parent[n] == (if n == s.z then s.a else m.parent[n])
      && v'.pos[n] == (if n == s.z then s.q else if v.pos[n] >= s.q then v.pos[n] + 1 else v.pos[n])
      && v'.lo[n] == (if n == s.z then s.q else if n !in s.path && v.lo[n] >= s.q then v.lo[n] + 1 else v.lo[n])
      && v'.hi[n] == (if n == s.z then s.q + 1 else if n in s.path || v.lo[n] >= s.q then v.hi[n] + 1 else v.hi[n])
  }

  ghost predicate Attached(m: Mem, v: View, s: Spot, m': Mem, v': View) {
    && SpotOk(m, v, s) && Sized(m', v') && |m'.key| == |m.key| && m'.key == m.key && m'.root == m.root
        && m'.nil == m.nil
    && v'.order == v.order[..s.q] + [s.z] + v.order[s.q..]
    && m'.red == m.red[s.z := true] && v'.bh == v.bh[s.z := 0]
    && (forall n {:trigger Grown(m, v, s, m', v', n)} :: Grown(m, v, s, m', v', n))
  }

  lemma AttachedIn(m: Mem, v: View, s: Spot, m': Mem, v': View, n: Ptr)
    requires Attached(m, v, s, m', v')
    ensures In(m', v', n) <==> In(m, v, n) || n == s.z
  {
    assert Grown(m, v, s, m', v', n);
    if In(m', v', n) && n != s.z {
      var i := if v'.pos[n] < s.q then v'.pos[n] else v'.pos[n] - 1;
      assert OrderOk(m, v, i);
    }
  }

  /** Off the path, a subtree lies entirely on one side of the gap. */
  lemma {:induction false} OffPath(m: Mem, v: View, s: Spot, n: Ptr)
    requires SpotOk(m, v, s) && In(m, v, n) && n !in s.path && v.lo[n] <= v.hi[n] <= |v.order|
    ensures v.hi[n] <= s.q || v.lo[n] >= s.q
    decreases |v.order| - (v.hi[n] - v.lo[n])
  {
    assert ParentOk(m, v, n);
    var p := m.parent[n];
    assert NodeOk(m, v, p);
    if p in s.path {
      assert OnPath(m, v, s, p);
    } else {
      OffPath(m, v, s, p);
    }
  }

  /** A child and its stretch, both shifted past the gap or both before it. */
  lemma AttachedChildOff(m: Mem, v: View, s: Spot, m': Mem, v': View, n: Ptr, c: Ptr, a: nat, b: nat)
    requires Attached(m, v, s, m', v') && Child(m, v, n, c, a, b) && a <= b && (b <= s.q || a >= s.q) && c !in s.path
    ensures a >= s.q && b > a ==> Child(m', v', n, c, a + 1, b + 1)
    ensures a >= s.q && b == a ==> Child(m', v', n, c, a + 1, b + 1) && Child(m', v', n, c, a, b)
    ensures a < s.q ==> Child(m', v', n, c, a, b)
  {
    if a < b {
      AttachedIn(m, v, s, m', v', c);
      assert Grown(m, v, s, m', v', c);
    }
  }

  lemma AttachedChildOn(m: Mem, v: View, s: Spot, m': Mem, v': View, n: Ptr, c: Ptr, a: nat, b: nat)
    requires Attached(m, v, s, m', v') && Child(m, v, n, c, a, b) && a <= b && c in s.path
    ensures Child(m', v', n, c, a, b + 1)
  {
    AttachedIn(m, v, s, m', v', c);
    assert Grown(m, v, s, m', v', c) && OnPath(m, v, s, c);
  }

  lemma AttachedOff(m: Mem, v: View, s: Spot, m': Mem, v': View, n: Ptr)
    requires Attached(m, v, s, m', v') && In(m, v, n) && n !in s.path
    ensures NodeOk(m', v', n)
  {
    assert NodeOk(m, v, n) && Grown(m, v, s, m', v', n);
    OffPath(m, v, s, n);
    var l, r := m.left[n], m.right[n];
    assert (l in s.path ==> OnPath(m, v, s, l)) && (r in s.path ==> OnPath(m, v, s, r));
    AttachedChildOff(m, v, s, m', v', n, l, v.lo[n], v.pos[n]);
    AttachedChildOff(m, v, s, m', v', n, r, v.pos[n] + 1, v.hi[n]);
  }

  lemma AttachedOn(m: Mem, v: View, s: Spot, m': Mem, v': View, n: Ptr)
    requires Attached(m, v, s, m', v') && n in s.path && n != s.a && In(m, v, n)
    ensures NodeOk(m', v', n)
  {
    assert NodeOk(m, v, n) && Grown(m, v, s, m', v', n) && OnPath(m, v, s, n);
    var l, r := m.left[n], m.right[n];
    assert (l in s.path ==> OnPath(m, v, s, l)) && (r in s.path ==> OnPath(m, v, s, r));
    if s.q <= v.pos[n] {
      AttachedChildOn(m, v, s, m', v', n, l, v.lo[n], v.pos[n]);
      AttachedChildOff(m, v, s, m', v', n, r, v.pos[n] + 1, v.hi[n]);
    } else {
      AttachedChildOff(m, v, s, m', v', n, l, v.lo[n], v.pos[n]);
      AttachedChildOn(m, v, s, m', v', n, r, v.pos[n] + 1, v.hi[n]);
    }
  }

  lemma AttachedAtA(m: Mem, v: View, s: Spot, m': Mem, v': View)
    requires Attached(m, v, s, m', v')
    ensures NodeOk(m', v', s.a)
  {
    var n := s.a;
    assert NodeOk(m, v, n) && Grown(m, v, s, m', v', n) && OnPath(m, v, s, n);
    AttachedIn(m, v, s, m', v', s.z);
    assert Grown(m, v, s, m', v', s.z);
    var l, r := m.left[n], m.right[n];
    assert (l in s.path ==> OnPath(m, v, s, l)) && (r in s.path ==> OnPath(m, v, s, r));
    if s.q <= v.pos[n] {
      AttachedChildOff(m, v, s, m', v', n, r, v.pos[n] + 1, v.hi[n]);
    } else {
      AttachedChildOff(m, v, s, m', v', n, l, v.lo[n], v.pos[n]);
    }
  }

  lemma AttachedParent(m: Mem, v: View, s: Spot, m': Mem, v': View, n: Ptr)
    requires Attached(m, v, s, m', v')
    ensures ParentOk(m', v', n)
  {
    AttachedIn(m, v, s, m', v', n);
    assert Grown(m, v, s, m', v', n) && Grown(m, v, s, m', v', s.a);
    AttachedIn(m, v, s, m', v', s.a);
    if In(m, v, n) && n != m.root {
      assert ParentOk(m, v, n);
      AttachedIn(m, v, s, m', v', m.parent[n]);
      assert Grown(m, v, s, m', v', m.parent[n]);
    }
  }

  lemma AttachedOrder(m: Mem, v: View, s: Spot, m': Mem, v': View, i: nat)
    requires Attached(m, v, s, m', v')
    ensures OrderOk(m', v', i)
  {
    if i < |v'.order| {
      if i != s.q { assert OrderOk(m, v, if i < s.q then i else i - 1); }
      AttachedIn(m, v, s, m', v', v'.order[i]);
      assert Grown(m, v, s, m', v', v'.order[i]);
    }
  }

  /** The new leaf is in the tree, at its gap in the order. */
  lemma AttachedLinks(m: Mem, v: View, s: Spot, m': Mem, v': View)
    requires Attached(m, v, s, m', v')
    ensures Links(m', v')
  {
    assert OnPath(m, v, s, m.root) && Grown(m, v, s, m', v', m.root);
    AttachedIn(m, v, s, m', v', m.root);
    forall n: Ptr ensures NodeOk(m', v', n) {
      AttachedIn(m, v, s, m', v', n);
      assert Grown(m, v, s, m', v', n);
      if n == s.a {
        AttachedAtA(m, v, s, m', v');
      } else if In(m, v, n) {
        if n in s.path { AttachedOn(m, v, s, m', v', n); } else { AttachedOff(m, v, s, m', v', n); }
      }
    }
    forall n: Ptr ensures ParentOk(m', v', n) {
      AttachedParent(m, v, s, m', v', n);
    }
    forall i: nat ensures OrderOk(m', v', i) {
      AttachedOrder(m, v, s, m', v', i);
    }
  }

  /** It is the only node that may clash. */
  lemma AttachedClash(m: Mem, v: View, s: Spot, m': Mem, v': View)
    requires Attached(m, v, s, m', v') && Colored(m, v)
    ensures Clash(m', v', s.z)
  {
    AttachedLinks(m, v, s, m', v');
    AttachedIn(m, v, s, m', v', s.z);
    forall n: Ptr ensures RedOk(m', v', s.z, n) {
      AttachedIn(m, v, s, m', v', n);
      assert Grown(m, v, s, m', v', n) && RedOk(m, v, 0, n);
      if In(m, v, n) { assert NodeOk(m, v, n); }
    }
    forall n: Ptr ensures BlackOk(m', v', n) {
      AttachedIn(m, v, s, m', v', n);
      assert Grown(m, v, s, m', v', n) && BlackOk(m, v, n);
      if In(m, v, n) { assert NodeOk(m, v, n); }
    }
    NotRoot(m, v, s);
  }

  lemma NotRoot(m: Mem, v: View, s: Spot)
    requires SpotOk(m, v, s)
    ensures In(m, v, m.root) && s.z != m.root
  {
    assert OnPath(m, v, s, m.root);
  }

  lemma AttachedKeys(m: Mem, v: View, s: Spot, m': Mem, v': View)
    requires Attached(m, v, s, m', v') && Links(m', v') && Keyed(m, v) && Gap(m, v, m.key[s.z], s.q)
    ensures Keyed(m', v')
  {
    forall i, j | 0 <= i < j < |v'.order| ensures KeyAt(m', v', i) <= KeyAt(m', v', j) {
      var a, b := if i < s.q then i else i - 1, if j < s.q then j else j - 1;
      if i != s.q { assert KeyAt(m', v', i) == KeyAt(m, v, a); }
      if j != s.q { assert KeyAt(m', v', j) == KeyAt(m, v, b); }
    }
  }
}
