/** al_rbtree_delete: taking a node with at most one child out, and putting it in another one's place. */
module RbDelete {

  import opened RbShape
  import opened RbColor
  import opened RbRepair

  // ---------- taking s out, its only child t (or the sentinel) going up ----------

  function Drop(q: nat, i: nat): nat {
    if i > q then i - 1 else i
  }

  ghost predicate CanCut(m: Mem, v: View, s: Ptr, t: Ptr) {
    && Links(m, v) && In(m, v, s) && (m.left[s] == m.nil || m.right[s] == m.nil)
    && t == (if m.left[s] == m.nil then m.right[s] else m.left[s]) && t < |m.key| && t != s
  }

  lemma CutReady(m: Mem, v: View, s: Ptr)
    requires Links(m, v) && In(m, v, s) && (m.left[s] == m.nil || m.right[s] == m.nil)
    ensures CanCut(m, v, s, if m.left[s] == m.nil then m.right[s] else m.left[s])
    ensures s != m.root ==> In(m, v, m.parent[s]) && m.parent[s] != s
  {
    assert NodeOk(m, v, s) && ParentOk(m, v, s);
  }

  /** The links of node n, and its stretch of the order, without s. */
  ghost predicate Kept(m: Mem, v: View, s: Ptr, t: Ptr, m': Mem, v': View, n: Ptr)
    requires CanCut(m, v, s, t) && Sized(m', v') && |m'.key| == |m.key|
  {
    In(m, v, n) && n != s ==>
      && m'.left[n] == (if m.left[n] == s then t else m.left[n])
      && m'.right[n] == (if m.right[n] == s then t else m.right[n])
      && (n != t ==> m'.parent[n] == m.parent[n])
      && m'.key[n] == m.key[n]
      && v'.pos[n] == Drop(v.pos[s], v.pos[n])
      && v'.lo[n] == Drop(v.pos[s], v.lo[n])
      && v'.hi[n] == Drop(v.pos[s], v.hi[n])
  }

  ghost predicate Cut(m: Mem, v: View, s: Ptr, t: Ptr, m': Mem, v': View) {
    && CanCut(m, v, s, t) && Sized(m', v') && |m'.key| == |m.key| && m'.nil == m.nil
    && m'.root == (if s == m.root then t else m.root) && (s != m.root ==> m'.parent[t] == m.parent[s])
    && v'.order == v.order[..v.pos[s]] + v.order[v.pos[s] + 1..] && m'.red == m.red && v'.bh == v.bh
    && (forall n {:trigger Kept(m, v, s, t, m', v', n)} :: Kept(m, v, s, t, m', v', n))
  }

  lemma CutIn(m: Mem, v: View, s: Ptr, t: Ptr, m': Mem, v': View, n: Ptr)
    requires Cut(m, v, s, t, m', v')
    ensures In(m', v', n) <==> In(m, v, n) && n != s
  {
    assert Kept(m, v, s, t, m', v', n);
    if In(m', v', n) {
      var i := if v'.pos[n] < v.pos[s] then v'.pos[n] else v'.pos[n] + 1;
      assert OrderOk(m, v, i);
    }
  }

  lemma CutChild(m: Mem, v: View, s: Ptr, t: Ptr, m': Mem, v': View, n: Ptr, c: Ptr, a: nat, b: nat)
    requires Cut(m, v, s, t, m', v') && a <= b && Child(m, v, n, c, a, b) && c != s && n != s
    ensures Child(m', v', n, c, Drop(v.pos[s], a), Drop(v.pos[s], b))
  {
    if a < b {
      assert NodeOk(m, v, s) && NodeOk(m, v, c);
      CutIn(m, v, s, t, m', v', c);
      assert Kept(m, v, s, t, m', v', c);
    }
  }

  lemma CutChildS(m: Mem, v: View, s: Ptr, t: Ptr, m': Mem, v': View, n: Ptr, a: nat, b: nat)
    requires Cut(m, v, s, t, m', v') && a < b && Child(m, v, n, s, a, b) && s != m.root
    ensures Child(m', v', n, t, Drop(v.pos[s], a), Drop(v.pos[s], b))
  {
    assert NodeOk(m, v, s);
    CutIn(m, v, s, t, m', v', t);
    assert Kept(m, v, s, t, m', v', t);
  }

  lemma CutSide(m: Mem, v: View, s: Ptr, t: Ptr, m': Mem, v': View, n: Ptr, c: Ptr, a: nat, b: nat)
    requires Cut(m, v, s, t, m', v') && a <= b && Child(m, v, n, c, a, b) && In(m, v, n) && n != s && c != m.root
    ensures Child(m', v', n, if c == s then t else c, Drop(v.pos[s], a), Drop(v.pos[s], b))
  {
    if c == s { CutChildS(m, v, s, t, m', v', n, a, b); } else { CutChild(m, v, s, t, m', v', n, c, a, b); }
  }

  lemma CutNode(m: Mem, v: View, s: Ptr, t: Ptr, m': Mem, v': View, n: Ptr)
    requires Cut(m, v, s, t, m', v')
    ensures NodeOk(m', v', n)
  {
    CutIn(m, v, s, t, m', v', n);
    if In(m, v, n) && n != s {
      assert Kept(m, v, s, t, m', v', n) && NodeOk(m, v, n) && OrderOk(m, v, v.pos[s]) && v.pos[n] != v.pos[s];
      NotAChild(m, v, n);
      CutSide(m, v, s, t, m', v', n, m.left[n], v.lo[n], v.pos[n]);
      CutSide(m, v, s, t, m', v', n, m.right[n], v.pos[n] + 1, v.hi[n]);
    }
  }

  lemma CutParent(m: Mem, v: View, s: Ptr, t: Ptr, m': Mem, v': View, n: Ptr)
    requires Cut(m, v, s, t, m', v')
    ensures ParentOk(m', v', n)
  {
    CutIn(m, v, s, t, m', v', n);
    if In(m, v, n) && n != s && n != m'.root {
      assert NodeOk(m, v, s) && ParentOk(m, v, n) && ParentOk(m, v, s) && Kept(m, v, s, t, m', v', n);
      var p := if n == t then m.parent[s] else m.parent[n];
      if n != t { assert NodeOk(m, v, p); }
      CutIn(m, v, s, t, m', v', p);
      assert Kept(m, v, s, t, m', v', p) && NodeOk(m, v, p);
    }
  }

  lemma CutOrder(m: Mem, v: View, s: Ptr, t: Ptr, m': Mem, v': View, i: nat)
    requires Cut(m, v, s, t, m', v')
    ensures OrderOk(m', v', i)
  {
    if i < |v'.order| {
      var j := if i < v.pos[s] then i else i + 1;
      assert OrderOk(m, v, j);
      CutIn(m, v, s, t, m', v', v'.order[i]);
      assert Kept(m, v, s, t, m', v', v'.order[i]);
    }
  }

  lemma CutRoot(m: Mem, v: View, s: Ptr, t: Ptr, m': Mem, v': View)
    requires Cut(m, v, s, t, m', v')
    ensures v'.order == [] ==> m'.root == m'.nil
    ensures v'.order != [] ==> In(m', v', m'.root) && v'.lo[m'.root] == 0 && v'.hi[m'.root] == |v'.order|
  {
    assert NodeOk(m, v, s) && NodeOk(m, v, m.root);
    CutIn(m, v, s, t, m', v', m'.root);
    assert Kept(m, v, s, t, m', v', m'.root);
  }

  /** Without s the rest is a tree, in the same order. */
  lemma CutLinks(m: Mem, v: View, s: Ptr, t: Ptr, m': Mem, v': View)
    requires Cut(m, v, s, t, m', v')
    ensures Links(m', v')
  {
    CutRoot(m, v, s, t, m', v');
    forall n: Ptr ensures NodeOk(m', v', n) { CutNode(m, v, s, t, m', v', n); }
    forall n: Ptr ensures ParentOk(m', v', n) { CutParent(m, v, s, t, m', v', n); }
    forall i: nat ensures OrderOk(m', v', i) { CutOrder(m, v, s, t, m', v', i); }
  }

  // ---------- the colours without s ----------

  lemma CutRed(m: Mem, v: View, s: Ptr, t: Ptr, m': Mem, v': View, n: Ptr)
    requires Cut(m, v, s, t, m', v') && Colored(m, v)
    ensures RedBut(m', v', t, n)
  {
    CutIn(m, v, s, t, m', v', n);
    if In(m, v, n) && n != s { assert Kept(m, v, s, t, m', v', n) && RedOk(m, v, 0, n) && NodeOk(m, v, n); }
  }

  /** Where the black node s is missing: at its parent, unless s was the root or red. */
  ghost function Gone(m: Mem, s: Ptr): Ptr
    requires s < |m.parent| && s < |m.red|
  {
    if s == m.root || m.red[s] then 0 else m.parent[s]
  }

  lemma CutBlack(m: Mem, v: View, s: Ptr, t: Ptr, m': Mem, v': View, onLeft: bool, n: Ptr)
    requires Cut(m, v, s, t, m', v') && Colored(m, v)
    requires (s != m.root ==> m.parent[s] < |m.key| && (onLeft <==> m.left[m.parent[s]] == s))
    ensures BlackBut(m', v', Gone(m, s), onLeft, n)
  {
    CutIn(m, v, s, t, m', v', n);
    if In(m, v, n) && n != s {
      assert Kept(m, v, s, t, m', v', n) && BlackOk(m, v, n) && BlackOk(m, v, s) && NodeOk(m, v, n)
          && ParentOk(m, v, s);
      NotAChild(m, v, n);
    }
  }

  lemma CutBalanced(m: Mem, v: View, s: Ptr, t: Ptr, m': Mem, v': View, onLeft: bool)
    requires Cut(m, v, s, t, m', v') && Colored(m, v)
    requires (s != m.root ==> m.parent[s] < |m.key| && (onLeft <==> m.left[m.parent[s]] == s))
    ensures Balanced(m', v', t, Gone(m, s), onLeft)
  {
    CutLinks(m, v, s, t, m', v');
    forall n: Ptr ensures RedBut(m', v', t, n) { CutRed(m, v, s, t, m', v', n); }
    var p := Gone(m, s);
    forall n: Ptr ensures BlackBut(m', v', p, onLeft, n) { CutBlack(m, v, s, t, m', v', onLeft, n); }
  }

  /** A black s that is not the root leaves the subtree of t one short. */
  lemma CutShort(m: Mem, v: View, s: Ptr, t: Ptr, m': Mem, v': View, onLeft: bool)
    requires Cut(m, v, s, t, m', v') && Colored(m, v) && s != m.root && !m.red[s] && m.parent[s] < |m.key|
    requires (onLeft <==> m.left[m.parent[s]] == s)
    ensures Short(m', v', t, m.parent[s], onLeft)
  {
    CutBalanced(m, v, s, t, m', v', onLeft);
    assert ParentOk(m, v, s) && NodeOk(m, v, s);
    var p := m.parent[s];
    assert NodeOk(m, v, p);
    CutIn(m, v, s, t, m', v', p);
    assert Kept(m, v, s, t, m', v', p);
  }

  /** A red s leaves a red-black tree. */
  lemma CutColored(m: Mem, v: View, s: Ptr, t: Ptr, m': Mem, v': View)
    requires Cut(m, v, s, t, m', v') && Colored(m, v) && s != m.root && m.red[s]
    ensures Colored(m', v')
  {
    assert ParentOk(m, v, s) && RedOk(m, v, 0, s) && NodeOk(m, v, s);
    var onLeft := m.left[m.parent[s]] == s;
    CutBalanced(m, v, s, t, m', v', onLeft);
    BalancedColored(m', v', t, onLeft);
  }

  lemma BalancedColored(m: Mem, v: View, t: Ptr, onLeft: bool)
    requires Balanced(m, v, t, 0, onLeft) && !m.red[t] && m.root < |m.red| && !m.red[m.root]
    ensures Colored(m, v)
  {
    forall n: Ptr ensures RedOk(m, v, 0, n) { assert RedBut(m, v, t, n) && BlackBut(m, v, 0, onLeft, n); }
    forall n: Ptr ensures BlackOk(m, v, n) { assert BlackBut(m, v, 0, onLeft, n); }
  }

  /** The root with at most one child: the child, painted black, is the new root. */
  lemma CutRootColored(m: Mem, v: View, t: Ptr, m': Mem, v': View)
    requires Cut(m, v, m.root, t, m', v') && Colored(m, v)
    ensures var r := Painted(m', v', t); Colored(r.0, r.1)
  {
    CutBalanced(m, v, m.root, t, m', v', true);
    if t == m.nil {
      BalancedColored(m', v', t, true);
      assert m'.red[t := false] == m'.red;
    } else {
      CutRoot(m, v, m.root, t, m', v');
      PaintedColored(m', v', t, 0, true);
    }
  }

  // ---------- putting s in the place of d ----------

  function Instead(d: Ptr, s: Ptr, n: Ptr): Ptr {
    if n == d then s else n
  }

  ghost predicate CanReplace(m: Mem, v: View, d: Ptr, s: Ptr) {
    Links(m, v) && In(m, v, d) && 0 < s < |m.key| && s != m.nil && !In(m, v, s)
  }

  /** The fields of node n when s has taken the place of d. */
  ghost predicate Moved(m: Mem, v: View, d: Ptr, s: Ptr, m': Mem, n: Ptr)
    requires CanReplace(m, v, d, s) && |m'.left| == |m'.right| == |m'.parent| == |m'.red| == |m'.key| == |m.key|
  {
    In(m, v, n) ==>
      var n' := Instead(d, s, n);
      && m'.left[n'] == Instead(d, s, m.left[n])
      && m'.right[n'] == Instead(d, s, m.right[n])
      && (n == m.root || m'.parent[n'] == Instead(d, s, m.parent[n]))
      && m'.red[n'] == m.red[n]
      && (n != d ==> m'.key[n] == m.key[n])
  }

  ghost function ReplacedView(v: View, d: Ptr, s: Ptr): View
    requires |v.pos| == |v.lo| == |v.hi| == |v.bh| && d < |v.pos| && s < |v.pos| && v.pos[d] < |v.order|
  {
    View(v.order[v.pos[d] := s], v.pos[s := v.pos[d]], v.lo[s := v.lo[d]], v.hi[s := v.hi[d]], v.bh[s := v.bh[d]])
  }

  ghost predicate Replaced(m: Mem, v: View, d: Ptr, s: Ptr, m': Mem) {
    && CanReplace(m, v, d, s) && |m'.left| == |m'.right| == |m'.parent| == |m'.red| == |m'.key| == |m.key|
    && m'.nil == m.nil && m'.root == Instead(d, s, m.root) && m'.red[m.nil] == m.red[m.nil]
    && (forall n {:trigger Moved(m, v, d, s, m', n)} :: Moved(m, v, d, s, m', n))
  }

  lemma ReplacedIn(m: Mem, v: View, d: Ptr, s: Ptr, m': Mem, n: Ptr)
    requires Replaced(m, v, d, s, m')
    ensures Sized(m', ReplacedView(v, d, s))
    ensures In(m', ReplacedView(v, d, s), n) <==> n == s || (n != d && In(m, v, n))
  {
    if n < |m.key| && v.pos[n] < |v.order| { assert OrderOk(m, v, v.pos[n]); }
  }

  lemma ReplacedChild(m: Mem, v: View, d: Ptr, s: Ptr, m': Mem, n: Ptr, c: Ptr, a: nat, b: nat)
    requires Replaced(m, v, d, s, m') && In(m, v, n) && Child(m, v, n, c, a, b) && c != m.root
    ensures Sized(m', ReplacedView(v, d, s))
    ensures Child(m', ReplacedView(v, d, s), Instead(d, s, n), Instead(d, s, c), a, b)
  {
    ReplacedIn(m, v, d, s, m', Instead(d, s, c));
    assert Moved(m, v, d, s, m', c);
  }

  lemma ReplacedNode(m: Mem, v: View, d: Ptr, s: Ptr, m': Mem, n: Ptr)
    requires Replaced(m, v, d, s, m')
    ensures Sized(m', ReplacedView(v, d, s)) && NodeOk(m', ReplacedView(v, d, s), n)
  {
    ReplacedIn(m, v, d, s, m', n);
    var o := if n == s then d else n;
    if In(m, v, o) && n != d {
      assert NodeOk(m, v, o) && Moved(m, v, d, s, m', o);
      NotAChild(m, v, o);
      ReplacedChild(m, v, d, s, m', o, m.left[o], v.lo[o], v.pos[o]);
      ReplacedChild(m, v, d, s, m', o, m.right[o], v.pos[o] + 1, v.hi[o]);
    }
  }

  lemma ReplacedParent(m: Mem, v: View, d: Ptr, s: Ptr, m': Mem, n: Ptr)
    requires Replaced(m, v, d, s, m')
    ensures Sized(m', ReplacedView(v, d, s)) && ParentOk(m', ReplacedView(v, d, s), n)
  {
    ReplacedIn(m, v, d, s, m', n);
    var o := if n == s then d else n;
    if In(m, v, o) && n != d && o != m.root {
      assert ParentOk(m, v, o) && Moved(m, v, d, s, m', o) && Moved(m, v, d, s, m', m.parent[o]);
      ReplacedIn(m, v, d, s, m', Instead(d, s, m.parent[o]));
    }
  }

  /** The same tree, with s for d throughout. */
  lemma ReplacedLinks(m: Mem, v: View, d: Ptr, s: Ptr, m': Mem)
    requires Replaced(m, v, d, s, m')
    ensures Links(m', ReplacedView(v, d, s))
  {
    var v' := ReplacedView(v, d, s);
    ReplacedIn(m, v, d, s, m', m'.root);
    forall n: Ptr ensures NodeOk(m', v', n) { ReplacedNode(m, v, d, s, m', n); }
    forall n: Ptr ensures ParentOk(m', v', n) { ReplacedParent(m, v, d, s, m', n); }
    forall i: nat ensures OrderOk(m', v', i) {
      assert OrderOk(m, v, i);
      if i < |v.order| { ReplacedIn(m, v, d, s, m', v'.order[i]); }
    }
  }

  lemma ReplacedRed(m: Mem, v: View, d: Ptr, s: Ptr, m': Mem, t: Ptr, p: Ptr, onLeft: bool, n: Ptr)
    requires Replaced(m, v, d, s, m') && Balanced(m, v, t, p, onLeft) && t != d
    ensures Sized(m', ReplacedView(v, d, s)) && RedBut(m', ReplacedView(v, d, s), t, n)
  {
    ReplacedIn(m, v, d, s, m', n);
    var o := if n == s then d else n;
    if In(m, v, o) && n != d {
      assert NodeOk(m, v, o) && Moved(m, v, d, s, m', o) && Moved(m, v, d, s, m', m.left[o])
          && Moved(m, v, d, s, m', m.right[o]);
      assert RedBut(m, v, t, o);
    }
  }

  lemma ReplacedBlack(m: Mem, v: View, d: Ptr, s: Ptr, m': Mem, t: Ptr, p: Ptr, onLeft: bool, n: Ptr)
    requires Replaced(m, v, d, s, m') && Balanced(m, v, t, p, onLeft) && p != s
    ensures Sized(m', ReplacedView(v, d, s)) && BlackBut(m', ReplacedView(v, d, s), Instead(d, s, p), onLeft, n)
  {
    ReplacedIn(m, v, d, s, m', n);
    var o := if n == s then d else n;
    if In(m, v, o) && n != d {
      assert NodeOk(m, v, o) && Moved(m, v, d, s, m', o) && Moved(m, v, d, s, m', m.left[o])
          && Moved(m, v, d, s, m', m.right[o]);
      assert BlackBut(m, v, p, onLeft, o);
    }
  }

  /** Colours and heights go with the place. */
  lemma ReplacedBalanced(m: Mem, v: View, d: Ptr, s: Ptr, m': Mem, t: Ptr, p: Ptr, onLeft: bool)
    requires Replaced(m, v, d, s, m') && Balanced(m, v, t, p, onLeft) && t != d && p != s
    ensures Balanced(m', ReplacedView(v, d, s), t, Instead(d, s, p), onLeft)
  {
    var v' := ReplacedView(v, d, s);
    ReplacedLinks(m, v, d, s, m');
    forall n: Ptr ensures RedBut(m', v', t, n) { ReplacedRed(m, v, d, s, m', t, p, onLeft, n); }
    var p' := Instead(d, s, p);
    forall n: Ptr ensures BlackBut(m', v', p', onLeft, n) { ReplacedBlack(m, v, d, s, m', t, p, onLeft, n); }
  }

  lemma ReplacedShort(m: Mem, v: View, d: Ptr, s: Ptr, m': Mem, t: Ptr, p: Ptr, onLeft: bool)
    requires Replaced(m, v, d, s, m') && Short(m, v, t, p, onLeft) && t != d && p != 0 && p != s && !m.red[m.root]
    requires m'.parent[t] == Instead(d, s, p) && t != s
    ensures Short(m', ReplacedView(v, d, s), t, Instead(d, s, p), onLeft)
  {
    ReplacedBalanced(m, v, d, s, m', t, p, onLeft);
    ReplacedIn(m, v, d, s, m', Instead(d, s, p));
    assert Moved(m, v, d, s, m', p) && Moved(m, v, d, s, m', m.root);
  }

  lemma ReplacedColored(m: Mem, v: View, d: Ptr, s: Ptr, m': Mem)
    requires Replaced(m, v, d, s, m') && Colored(m, v)
    ensures Colored(m', ReplacedView(v, d, s))
  {
    forall n: Ptr ensures RedBut(m, v, 0, n) { assert RedOk(m, v, 0, n); }
    forall n: Ptr ensures BlackBut(m, v, 0, true, n) { assert BlackOk(m, v, n); }
    ReplacedBalanced(m, v, d, s, m', 0, 0, true);
    assert Moved(m, v, d, s, m', m.root);
    var v' := ReplacedView(v, d, s);
    forall n: Ptr ensures RedOk(m', v', 0, n) { assert RedBut(m', v', 0, n); }
    forall n: Ptr ensures BlackOk(m', v', n) { assert BlackBut(m', v', 0, true, n); }
  }
}
