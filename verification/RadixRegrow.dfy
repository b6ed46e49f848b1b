/** A tree that loses leaves: what of it stays well formed, and which parts of a routing table stay right. */
module RadixRegrow {

  import opened RadixBits
  import opened RadixTree
  import opened RadixHead
  import opened RadixRoute

  /** Leaf k of t stays a leaf of u, with its key and its labels, unless it is gone. */
  ghost predicate LeafFrom(t: Table, u: Table, gone: set<Ptr>, k: Ptr)
    requires Sized(t.nodes, t.sh) && Sized(u.nodes, u.sh)
  {
    && (IsLeaf(u.nodes, u.sh, k) <==> IsLeaf(t.nodes, t.sh, k) && k !in gone)
    && (k in u.sh.under[u.sh.top] <==> k in t.sh.under[t.sh.top] && k !in gone)
    && (IsLeaf(u.nodes, u.sh, k) ==>
      && u.sh.bits[k] == t.sh.bits[k]
      && u.nodes[k] ==
          t.nodes[k].(dup := u.nodes[k].dup, parent := u.nodes[k].parent, lifted := u.nodes[k].lifted))
  }

  /** The leaves of u are those of t but for the gone ones. */
  ghost predicate Kin(t: Table, u: Table, gone: set<Ptr>) {
    && TreeInv(t.nodes, t.sh) && Sized(u.nodes, u.sh) && |u.nodes| == |t.nodes|
    && u.masks == t.masks && u.maskShape == t.maskShape
    && u.sh.top == t.sh.top && u.sh.lo == t.sh.lo && u.sh.hi == t.sh.hi
    && (forall k: Ptr {:trigger LeafFrom(t, u, gone, k)} :: LeafFrom(t, u, gone, k))
  }

  /** c' is in u, below n', what c was in t. */
  ghost predicate ChildFrom(t: Table, u: Table, gone: set<Ptr>, n': Ptr, c: Ptr, c': Ptr)
    requires Sized(t.nodes, t.sh) && Sized(u.nodes, u.sh) && IsInner(u.nodes, u.sh, n') && c < |t.nodes|
  {
    && c' != u.sh.top
    && ((IsInner(u.nodes, u.sh, c') && u.nodes[c'].bit > u.nodes[n'].bit) || IsHead(u.nodes, u.sh, c'))
    && u.nodes[c'].parent == n' && u.sh.under[c'] == t.sh.under[c] - gone
  }

  /** Node n' of u was node n of t: same test, and the same leaves below but for the gone ones. */
  ghost predicate InnerFrom(t: Table, u: Table, gone: set<Ptr>, n: Ptr, n': Ptr)
    requires Sized(t.nodes, t.sh) && Sized(u.nodes, u.sh)
  {
    && IsInner(t.nodes, t.sh, n) && IsInner(u.nodes, u.sh, n')
    && u.nodes[n'].bit == t.nodes[n].bit && u.nodes[n'].bmask == t.nodes[n].bmask
    && u.nodes[n'].offset == t.nodes[n].offset && u.sh.under[n'] == t.sh.under[n] - gone
    && t.nodes[n].left < |t.nodes| && ChildFrom(t, u, gone, n', t.nodes[n].left, u.nodes[n'].left)
    && t.nodes[n].right < |t.nodes| && ChildFrom(t, u, gone, n', t.nodes[n].right, u.nodes[n'].right)
  }

  lemma ChildGrown(t: Table, u: Table, gone: set<Ptr>, n: Ptr, n': Ptr, c: Ptr, c': Ptr, side: bool)
    requires Kin(t, u, gone) && IsInner(t.nodes, t.sh, n) && IsInner(u.nodes, u.sh, n')
    requires u.nodes[n'].bit == t.nodes[n].bit && c < |t.nodes| && ChildFrom(t, u, gone, n', c, c')
    requires ChildOk(t.nodes, t.sh, n, c, side)
    ensures ChildOk(u.nodes, u.sh, n', c', side)
  {
    forall k | k in u.sh.under[c'] ensures k < |u.nodes| && u.sh.bits[k][u.nodes[n'].bit] == side {
      assert LeafFrom(t, u, gone, k);
      assert k in t.sh.under[t.sh.top];
      assert IsLeaf(t.nodes, t.sh, k);
    }
  }

  lemma InnerGrown(t: Table, u: Table, gone: set<Ptr>, n: Ptr, n': Ptr)
    requires Kin(t, u, gone) && InnerFrom(t, u, gone, n, n')
    ensures InnerOk(u.nodes, u.sh, n')
  {
    assert InnerOk(t.nodes, t.sh, n);
    ChildGrown(t, u, gone, n, n', t.nodes[n].left, u.nodes[n'].left, false);
    ChildGrown(t, u, gone, n, n', t.nodes[n].right, u.nodes[n'].right, true);
  }

  lemma AlikeGrown(t: Table, u: Table, gone: set<Ptr>, n: Ptr, n': Ptr, j: Ptr, k: Ptr)
    requires Kin(t, u, gone) && InnerFrom(t, u, gone, n, n')
    ensures Alike(u.nodes, u.sh, n', j, k)
  {
    assert Alike(t.nodes, t.sh, n, j, k);
    assert LeafFrom(t, u, gone, j) && LeafFrom(t, u, gone, k);
    if j in u.sh.under[n'] && k in u.sh.under[n'] {
      assert IsLeaf(t.nodes, t.sh, j) && IsLeaf(t.nodes, t.sh, k);
    }
  }

  /** Both sides of an inner node have leaves. */
  lemma TwoSides(nodes: seq<Node>, sh: Shape, n: Ptr)
    requires TreeInv(nodes, sh) && IsInner(nodes, sh, n)
    ensures nodes[n].left != nodes[n].right && nodes[n].left < |nodes| && sh.under[nodes[n].left] != {}
    ensures nodes[n].right < |nodes| && sh.under[nodes[n].right] != {}
  {
    assert InnerOk(nodes, sh, n);
    assert sh.under[nodes[n].left] != {} && sh.under[nodes[n].right] != {};
    var k :| k in sh.under[nodes[n].left];
    assert k !in sh.under[nodes[n].right];
  }

  /** So one is left when a leaf goes. */
  lemma TwoBelow(nodes: seq<Node>, sh: Shape, n: Ptr, tt: Ptr)
    requires TreeInv(nodes, sh) && IsInner(nodes, sh, n)
    ensures sh.under[n] - {tt} != {}
  {
    assert InnerOk(nodes, sh, n);
    TwoSides(nodes, sh, n);
    var j :| j in sh.under[nodes[n].left];
    var k :| k in sh.under[nodes[n].right];
    assert j in sh.under[n] && k in sh.under[n] && j != k;
    assert j in sh.under[n] - {tt} || k in sh.under[n] - {tt};
  }

  /** Every node of u was one of t. */
  ghost predicate Stems(t: Table, u: Table, gone: set<Ptr>, n': Ptr)
    requires Sized(t.nodes, t.sh) && Sized(u.nodes, u.sh)
  {
    IsInner(u.nodes, u.sh, n') ==> exists n: Ptr :: InnerFrom(t, u, gone, n, n')
  }

  lemma InnerStems(t: Table, u: Table, gone: set<Ptr>, n': Ptr)
    requires Kin(t, u, gone) && Stems(t, u, gone, n') && IsInner(u.nodes, u.sh, n')
    ensures InnerOk(u.nodes, u.sh, n')
  {
    var n: Ptr :| InnerFrom(t, u, gone, n, n');
    InnerGrown(t, u, gone, n, n');
  }

  lemma AlikeStems(t: Table, u: Table, gone: set<Ptr>, n': Ptr, j: Ptr, k: Ptr)
    requires Kin(t, u, gone) && Stems(t, u, gone, n')
    ensures Alike(u.nodes, u.sh, n', j, k)
  {
    if IsInner(u.nodes, u.sh, n') {
      var n: Ptr :| InnerFrom(t, u, gone, n, n');
      AlikeGrown(t, u, gone, n, n', j, k);
    }
  }

  ghost predicate HeadStays(u: Table, h: Ptr)
    requires Sized(u.nodes, u.sh)
  {
    IsHead(u.nodes, u.sh, h) ==> HeadOk(u.nodes, u.sh, h)
  }

  ghost predicate ParentStays(u: Table, c: Ptr)
    requires Sized(u.nodes, u.sh)
  {
    IsInner(u.nodes, u.sh, c) || IsHead(u.nodes, u.sh, c) ==> ParentOk(u.nodes, u.sh, c)
  }

  /** The tree of u is well formed if its nodes stem from t and its chains and upward links are right. */
  lemma GrownInv(t: Table, u: Table, gone: set<Ptr>)
    requires Kin(t, u, gone) && IsInner(u.nodes, u.sh, u.sh.top)
    requires forall n: Ptr {:trigger Stems(t, u, gone, n)} :: Stems(t, u, gone, n)
    requires forall h: Ptr {:trigger HeadStays(u, h)} :: HeadStays(u, h)
    requires forall c: Ptr {:trigger ParentStays(u, c)} :: ParentStays(u, c)
    ensures TreeInv(u.nodes, u.sh) && (KeysOk(t.nodes, t.sh) ==> KeysOk(u.nodes, u.sh))
  {
    forall n | IsInner(u.nodes, u.sh, n) ensures InnerOk(u.nodes, u.sh, n) {
      assert Stems(t, u, gone, n);
      InnerStems(t, u, gone, n);
    }
    forall n, j, k ensures Alike(u.nodes, u.sh, n, j, k) {
      assert Stems(t, u, gone, n);
      AlikeStems(t, u, gone, n, j, k);
    }
    forall h | IsHead(u.nodes, u.sh, h) ensures HeadOk(u.nodes, u.sh, h) { assert HeadStays(u, h); }
    forall c: Ptr | IsInner(u.nodes, u.sh, c) || IsHead(u.nodes, u.sh, c) ensures ParentOk(u.nodes, u.sh, c) {
      assert ParentStays(u, c);
    }
    GrownLeaves(t, u, gone);
  }

  lemma GrownLeaves(t: Table, u: Table, gone: set<Ptr>)
    requires Kin(t, u, gone)
    ensures forall k :: k in u.sh.under[u.sh.top] ==> IsLeaf(u.nodes, u.sh, k)
    ensures KeysOk(t.nodes, t.sh) ==> KeysOk(u.nodes, u.sh)
  {
    forall k | k in u.sh.under[u.sh.top]
      ensures IsLeaf(u.nodes, u.sh, k) && (KeysOk(t.nodes, t.sh) ==> IsBits(u.nodes[k].key, u.sh.bits[k]))
    {
      assert LeafFrom(t, u, gone, k);
      assert IsLeaf(t.nodes, t.sh, k);
    }
  }

  // ---------- the routing table ----------

  /** The sequence without its element i. */
  function Without<T>(s: seq<T>, i: nat): seq<T>
    requires i < |s|
  {
    s[..i] + s[i + 1..]
  }

  lemma WithoutKeeps<T>(s: seq<T>, i: nat, e: T)
    requires i < |s|
    ensures e in s && e != s[i] ==> e in Without(s, i)
    ensures e in Without(s, i) ==> exists q :: 0 <= q < |s| && q != i && s[q] == e
  {
    var r := Without(s, i);
    if e in s && e != s[i] {
      var q :| 0 <= q < |s| && s[q] == e;
      assert r[if q < i then q else q - 1] == e;
    }
    if e in r {
      var q :| 0 <= q < |r| && r[q] == e;
      assert s[if q < i then q else q + 1] == e;
    }
  }

  /** s is r, or r without one element. */
  ghost predicate Thinned(r: seq<Ptr>, s: seq<Ptr>) {
    s == r || exists i :: 0 <= i < |r| && s == Without(r, i)
  }

  /** The chain at h' of u was the one at h of t. */
  ghost predicate HeadFrom(t: Table, u: Table, gone: set<Ptr>, h: Ptr, h': Ptr)
    requires Sized(t.nodes, t.sh) && Sized(u.nodes, u.sh)
  {
    && IsHead(t.nodes, t.sh, h) && IsHead(u.nodes, u.sh, h')
    && u.sh.under[h'] == t.sh.under[h] - gone && Thinned(t.sh.chain[h], u.sh.chain[h'])
  }

  ghost predicate ChainStems(t: Table, u: Table, gone: set<Ptr>, h': Ptr)
    requires Sized(t.nodes, t.sh) && Sized(u.nodes, u.sh)
  {
    IsHead(u.nodes, u.sh, h') ==> exists h: Ptr :: HeadFrom(t, u, gone, h, h')
  }

  /** Elements of a thinned sequence come in the order they had. */
  lemma ThinnedOrder(r: seq<Ptr>, s: seq<Ptr>, a: nat, b: nat) returns (p: nat, q: nat)
    requires Thinned(r, s) && a < b < |s|
    ensures p < q < |r| && r[p] == s[a] && r[q] == s[b]
  {
    if s == r { return a, b; }
    var i :| 0 <= i < |r| && s == Without(r, i);
    p, q := if a < i then a else a + 1, if b < i then b else b + 1;
  }

  lemma ChainGrown(t: Table, u: Table, gone: set<Ptr>, h: Ptr, h': Ptr)
    requires TreesOk(t) && Kin(t, u, gone) && TreeInv(u.nodes, u.sh) && HeadFrom(t, u, gone, h, h')
    ensures ChainOk(u, h')
  {
    assert HeadOk(u.nodes, u.sh, h') && ChainOk(t, h);
    var r, s := t.sh.chain[h], u.sh.chain[h'];
    forall a: nat, b: nat ensures InOrder(u, h', a, b) {
      if a < b < |s| {
        var p, q := ThinnedOrder(r, s, a, b);
        assert InOrder(t, h, p, q);
        assert Member(u.nodes, u.sh, h', a) && Member(u.nodes, u.sh, h', b);
        assert LeafFrom(t, u, gone, s[a]) && LeafFrom(t, u, gone, s[b]);
      }
    }
  }

  lemma BelongsGrown(t: Table, u: Table, gone: set<Ptr>, n: Ptr, n': Ptr, k: Ptr)
    requires Kin(t, u, gone) && InnerFrom(t, u, gone, n, n')
    requires ParentBit(u.nodes, u.sh, n') == ParentBit(t.nodes, t.sh, n)
    ensures Belongs(u.nodes, u.sh, n', k) <==> Belongs(t.nodes, t.sh, n, k) && k !in gone
    ensures IsLeaf(u.nodes, u.sh, k) ==>
      k < |t.nodes| && t.nodes[k].Leaf? && EntryOf(u.nodes, k) == EntryOf(t.nodes, k)
  {
    assert LeafFrom(t, u, gone, k);
  }

  /** The list of a node that keeps its range of bits stays right. */
  lemma ListGrown(t: Table, u: Table, gone: set<Ptr>, n: Ptr, n': Ptr)
    requires Kin(t, u, gone) && InnerFrom(t, u, gone, n, n') && u.nodes[n'].mklist == t.nodes[n].mklist
    requires ParentBit(u.nodes, u.sh, n') == ParentBit(t.nodes, t.sh, n) && ListOk(t, gone, n)
    ensures ListOk(u, {}, n')
  {
    forall e | e in u.nodes[n'].mklist ensures EntryFrom(u, {}, n', e) {
      assert EntryFrom(t, gone, n, e);
      var k: Ptr :| k !in gone && Belongs(t.nodes, t.sh, n, k) && e == EntryOf(t.nodes, k);
      BelongsGrown(t, u, gone, n, n', k);
      assert k !in {} && Belongs(u.nodes, u.sh, n', k);
    }
    forall k: Ptr | Belongs(u.nodes, u.sh, n', k) ensures EntryOf(u.nodes, k) in u.nodes[n'].mklist {
      BelongsGrown(t, u, gone, n, n', k);
    }
  }

  lemma LiftGrown(t: Table, u: Table, gone: set<Ptr>, h: Ptr, h': Ptr, k: Ptr)
    requires Kin(t, u, gone) && HeadFrom(t, u, gone, h, h')
    requires ParentBit(u.nodes, u.sh, h') == ParentBit(t.nodes, t.sh, h)
    requires k !in gone ==> LiftOk(t, h, k)
    requires IsLeaf(u.nodes, u.sh, k) && IsLeaf(t.nodes, t.sh, k) ==> u.nodes[k].lifted == t.nodes[k].lifted
    ensures LiftOk(u, h', k)
  {
    assert LeafFrom(t, u, gone, k);
  }

  /** The trees of u, given that every chain comes from one of t. */
  lemma TreesGrown(t: Table, u: Table, gone: set<Ptr>)
    requires TreesOk(t) && Kin(t, u, gone) && HeadInv(u.nodes, u.sh) && 1 !in gone && 3 !in gone
    requires forall h': Ptr {:trigger ChainStems(t, u, gone, h')} :: ChainStems(t, u, gone, h')
    ensures TreesOk(u)
  {
    assert LeafFrom(t, u, gone, 1) && LeafFrom(t, u, gone, 3);
    forall k: Ptr ensures LeafOk(u, k) {
      assert LeafFrom(t, u, gone, k) && LeafOk(t, k);
    }
    forall h': Ptr ensures ChainOk(u, h') {
      assert ChainStems(t, u, gone, h');
      if IsHead(u.nodes, u.sh, h') {
        var h: Ptr :| HeadFrom(t, u, gone, h, h');
        ChainGrown(t, u, gone, h, h');
      }
    }
  }
}
