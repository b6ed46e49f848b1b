/** The middle of rn_addroute: a new inner node takes over the mask list entries that now belong to it. */
module RadixPromote {

  import opened RadixBits
  import opened RadixTree
  import opened RadixInsert
  import opened RadixHead
  import opened RadixRoute
  import opened RadixChain

  /**
   A table t, the site of the new pair, the store m just after the insertion, and the table u after
   the new leaf got its mask, the new node the list p and the old node x, if inner, the list q.
   */
  datatype Step = Step(t: Table, s: Site, m: seq<Node>, u: Table, p: seq<MaskEntry>, q: seq<MaskEntry>)

  /** Leaf k of the chain at x gets an entry in the new node's list. */
  ghost predicate Promotes(t: Table, s: Site, k: Ptr)
    requires Sized(t.nodes, t.sh)
  {
    && IsHead(t.nodes, t.sh, s.x) && k in t.sh.under[s.x] && IsLeaf(t.nodes, t.sh, k)
    && t.nodes[k].mask != 0 && Index(t.nodes[k].bit) <= s.b && !t.nodes[k].lifted
  }

  /** What cell c is after the step. */
  ghost predicate After(z: Step, c: Ptr)
    requires Sized(z.t.nodes, z.t.sh) && |z.u.nodes| == |z.m| == |z.t.nodes|
  {
    c < |z.m| ==>
      if c == z.s.leaf then
        z.u.nodes[c].Leaf? && z.m[c].Leaf? &&
        z.u.nodes[c] == z.m[c].(mask := z.u.nodes[c].mask, bit := z.u.nodes[c].bit, normal := z.u.nodes[c].normal)
            && z.u.nodes[c].bit < 0
      else if c == z.s.node then z.m[c].Inner? && z.u.nodes[c] == z.m[c].(mklist := z.p)
      else if c == z.s.x && z.m[c].Inner? then z.u.nodes[c] == z.m[c].(mklist := z.q)
      else if Promotes(z.t, z.s, c) then z.m[c].Leaf? && z.u.nodes[c] == z.m[c].(lifted := true)
      else z.u.nodes[c] == z.m[c]
  }

  /** How the lists were made. */
  ghost predicate Lists(z: Step)
    requires Sized(z.t.nodes, z.t.sh) && z.s.x < |z.t.nodes|
  {
    if IsInner(z.t.nodes, z.t.sh, z.s.x) then
      && z.t.nodes[z.s.x].mklist == z.q + z.p
      && (forall e :: e in z.q ==> Index(e.bit) > z.s.b)
      && (forall e :: e in z.p ==> Index(e.bit) <= z.s.b)
    else
      && Sorted(z.p)
      && (forall e :: e in z.p ==> exists k: Ptr :: Promotes(z.t, z.s, k) && e == EntryOf(z.t.nodes, k))
      && (forall k: Ptr {:trigger Promotes(z.t, z.s, k)} :: Promotes(z.t, z.s, k) ==> EntryOf(z.t.nodes, k) in z.p)
  }

  ghost predicate StepOk(z: Step) {
    && RouteInv(z.t) && Inserted(z.t.nodes, z.t.sh, z.s, z.m, z.u.sh) && IsBits(z.s.v, z.s.vb)
    && z.u.masks == z.t.masks && z.u.maskShape == z.t.maskShape && |z.u.nodes| == |z.m|
    && z.s.leaf != 1 && z.s.leaf != 3
    && (forall c {:trigger After(z, c)} :: After(z, c)) && Lists(z)
    && LeafOk(z.u, z.s.leaf)
  }

  lemma StepTree(z: Step)
    requires StepOk(z)
    ensures HeadInv(z.u.nodes, z.u.sh)
  {
    InsertedInv(z.t.nodes, z.t.sh, z.s, z.m, z.u.sh);
    InsertedKeys(z.t.nodes, z.t.sh, z.s, z.m, z.u.sh);
    assert Cell(z.t.nodes, z.t.sh, z.s, z.m, z.u.sh, z.s.leaf);
    forall c | 0 <= c < |z.m| ensures SameLinks(z.m[c], z.u.nodes[c]) {
      assert After(z, c);
    }
    RelabelledInv(z.m, z.u.nodes, z.u.sh);
  }

  /** Old leaves stay as they are but for the lifted mark. */
  lemma StepLeaf(z: Step, k: Ptr)
    requires StepOk(z) && k != z.s.leaf
    ensures IsLeaf(z.u.nodes, z.u.sh, k) <==> IsLeaf(z.t.nodes, z.t.sh, k)
    ensures IsLeaf(z.t.nodes, z.t.sh, k) ==>
      z.u.sh.bits[k] == z.t.sh.bits[k] &&
      z.u.nodes[k] == z.t.nodes[k].(parent := z.u.nodes[k].parent, lifted := z.t.nodes[k].lifted
          || Promotes(z.t, z.s, k))
  {
    TopGains(z.t.nodes, z.t.sh, z.s, z.m, z.u.sh);
    assert Cell(z.t.nodes, z.t.sh, z.s, z.m, z.u.sh, k) && After(z, k);
  }

  lemma StepNewLeaf(z: Step)
    requires StepOk(z)
    ensures IsLeaf(z.u.nodes, z.u.sh, z.s.leaf) && !z.u.nodes[z.s.leaf].lifted && z.u.nodes[z.s.leaf].parent == z.s.node
    ensures z.u.sh.under[z.s.leaf] == {z.s.leaf} && z.u.sh.chain[z.s.leaf] == [z.s.leaf]
  {
    TopGains(z.t.nodes, z.t.sh, z.s, z.m, z.u.sh);
    assert Cell(z.t.nodes, z.t.sh, z.s, z.m, z.u.sh, z.s.leaf) && After(z, z.s.leaf);
  }

  lemma StepChain(z: Step, h: Ptr)
    requires StepOk(z)
    ensures ChainOk(z.u, h)
  {
    if IsHead(z.u.nodes, z.u.sh, h) {
      assert Cell(z.t.nodes, z.t.sh, z.s, z.m, z.u.sh, h) && After(z, h);
      if h != z.s.leaf {
        assert h in z.s.above ==> OnWay(z.t.nodes, z.t.sh, z.s, h);
        assert IsHead(z.t.nodes, z.t.sh, h) && ChainOk(z.t, h) && HeadOk(z.t.nodes, z.t.sh, h);
        forall i: nat, j: nat ensures InOrder(z.u, h, i, j) {
          assert InOrder(z.t, h, i, j);
          assert Member(z.t.nodes, z.t.sh, h, i) && Member(z.t.nodes, z.t.sh, h, j);
          if i < j < |z.u.sh.chain[h]| {
            StepLeaf(z, z.t.sh.chain[h][i]);
            StepLeaf(z, z.t.sh.chain[h][j]);
          }
        }
      }
    }
  }

  lemma StepTrees(z: Step)
    requires StepOk(z)
    ensures TreesOk(z.u)
  {
    StepTree(z);
    forall k: Ptr ensures LeafOk(z.u, k) {
      if k != z.s.leaf {
        StepLeaf(z, k);
        assert LeafOk(z.t, k);
      }
    }
    forall h: Ptr ensures ChainOk(z.u, h) {
      StepChain(z, h);
    }
    StepLeaf(z, 1);
    StepLeaf(z, 3);
  }

  /** Inner nodes stay inner, with the same bit. */
  lemma StepInner(z: Step, n: Ptr)
    requires StepOk(z)
    ensures IsInner(z.u.nodes, z.u.sh, n) <==> IsInner(z.t.nodes, z.t.sh, n) || n == z.s.node
    ensures IsInner(z.t.nodes, z.t.sh, n) ==>
      && z.u.nodes[n].bit == z.t.nodes[n].bit && n != z.s.node
      && z.u.sh.under[n] == (if n in z.s.above then z.t.sh.under[n] + {z.s.leaf} else z.t.sh.under[n])
      && z.u.nodes[n].mklist == (if n == z.s.x then z.q else z.t.nodes[n].mklist)
  {
    InnerKind(z.t.nodes, z.t.sh, z.s, z.m, z.u.sh, n);
    assert Cell(z.t.nodes, z.t.sh, z.s, z.m, z.u.sh, n) && After(z, n);
  }

  /** Every inner node but x keeps the bit above it. */
  lemma StepParentBit(z: Step, n: Ptr)
    requires StepOk(z) && IsInner(z.t.nodes, z.t.sh, n)
    ensures ParentBit(z.u.nodes, z.u.sh, n) == (if n == z.s.x then z.s.b else ParentBit(z.t.nodes, z.t.sh, n))
  {
    assert Cell(z.t.nodes, z.t.sh, z.s, z.m, z.u.sh, n) && After(z, n);
    if n == z.s.x {
      assert Cell(z.t.nodes, z.t.sh, z.s, z.m, z.u.sh, z.s.node) && After(z, z.s.node);
    } else if n != z.t.sh.top {
      Above(z.t.nodes, z.t.sh, n);
      StepInner(z, z.t.nodes[n].parent);
    }
  }

  lemma StepNode(z: Step)
    requires StepOk(z)
    ensures IsInner(z.u.nodes, z.u.sh, z.s.node) && z.u.nodes[z.s.node].bit == z.s.b
    ensures z.u.nodes[z.s.node].mklist == z.p
    ensures z.u.sh.under[z.s.node] == z.t.sh.under[z.s.x] + {z.s.leaf}
    ensures ParentBit(z.u.nodes, z.u.sh, z.s.node) == z.t.nodes[z.s.p].bit == ParentBit(z.t.nodes, z.t.sh, z.s.x)
  {
    InnerKind(z.t.nodes, z.t.sh, z.s, z.m, z.u.sh, z.s.node);
    assert Cell(z.t.nodes, z.t.sh, z.s, z.m, z.u.sh, z.s.node) && After(z, z.s.node);
    assert Cell(z.t.nodes, z.t.sh, z.s, z.m, z.u.sh, z.s.p) && After(z, z.s.p);
  }

  /** An old leaf belongs where it did, except that entries up to bit b move from x to the new node. */
  lemma StepBelongs(z: Step, n: Ptr, k: Ptr)
    requires StepOk(z) && k != z.s.leaf && n != z.s.node
    ensures Belongs(z.u.nodes, z.u.sh, n, k) <==>
      Belongs(z.t.nodes, z.t.sh, n, k) && (n == z.s.x ==> Index(z.t.nodes[k].bit) > z.s.b)
  {
    StepInner(z, n);
    if IsInner(z.t.nodes, z.t.sh, n) { StepParentBit(z, n); }
    StepLeaf(z, k);
    Above(z.t.nodes, z.t.sh, z.s.x);
  }

  lemma StepBelongsNode(z: Step, k: Ptr)
    requires StepOk(z) && k != z.s.leaf
    ensures Belongs(z.u.nodes, z.u.sh, z.s.node, k) <==>
      && IsLeaf(z.t.nodes, z.t.sh, k) && k in z.t.sh.under[z.s.x] && z.t.nodes[k].mask != 0
      && ParentBit(z.t.nodes, z.t.sh, z.s.x) < Index(z.t.nodes[k].bit) <= z.s.b
  {
    StepNode(z);
    StepLeaf(z, k);
  }

  lemma StepEntry(z: Step, k: Ptr)
    requires StepOk(z) && k != z.s.leaf && IsLeaf(z.t.nodes, z.t.sh, k)
    ensures k < |z.u.nodes| && z.u.nodes[k].Leaf? && EntryOf(z.u.nodes, k) == EntryOf(z.t.nodes, k)
  {
    StepLeaf(z, k);
  }

  /** The old leaf behind an entry gives the entry in the new table. */
  lemma StepSound(z: Step, n: Ptr, e: MaskEntry)
    requires StepOk(z) && n != z.s.node && EntryFrom(z.t, {}, n, e) && (n == z.s.x ==> Index(e.bit) > z.s.b)
    ensures EntryFrom(z.u, {z.s.leaf}, n, e)
  {
    var k: Ptr :| k !in {} && Belongs(z.t.nodes, z.t.sh, n, k) && e == EntryOf(z.t.nodes, k);
    StepBelongs(z, n, k);
    StepEntry(z, k);
  }

  lemma StepComplete(z: Step, n: Ptr, k: Ptr)
    requires StepOk(z) && n != z.s.node && k != z.s.leaf && Belongs(z.u.nodes, z.u.sh, n, k)
    ensures Belongs(z.t.nodes, z.t.sh, n, k) && EntryOf(z.u.nodes, k) == EntryOf(z.t.nodes, k)
    ensures EntryOf(z.t.nodes, k) in z.t.nodes[n].mklist
    ensures n == z.s.x ==> Index(EntryOf(z.t.nodes, k).bit) > z.s.b
  {
    StepBelongs(z, n, k);
    StepEntry(z, k);
    assert ListOk(z.t, {}, n);
  }

  lemma SortedSplit(q: seq<MaskEntry>, p: seq<MaskEntry>)
    requires Sorted(q + p)
    ensures Sorted(q) && Sorted(p)
  {
    forall i, j | 0 <= i < j < |q| ensures q[i].bit < q[j].bit {
      assert (q + p)[i] == q[i] && (q + p)[j] == q[j];
    }
    forall i, j | 0 <= i < j < |p| ensures p[i].bit < p[j].bit {
      assert (q + p)[|q| + i] == p[i] && (q + p)[|q| + j] == p[j];
    }
  }

  /** Lists away from the site, and the rest of x's list. */
  lemma StepList(z: Step, n: Ptr)
    requires StepOk(z) && n != z.s.node && IsInner(z.t.nodes, z.t.sh, n)
    ensures ListOk(z.u, {z.s.leaf}, n)
  {
    StepInner(z, n);
    assert ListOk(z.t, {}, n);
    var l, r := z.t.nodes[n].mklist, z.u.nodes[n].mklist;
    if n == z.s.x { SortedSplit(z.q, z.p); }
    forall e | e in r ensures EntryFrom(z.u, {z.s.leaf}, n, e) {
      StepSound(z, n, e);
    }
    forall k: Ptr | k !in {z.s.leaf} && Belongs(z.u.nodes, z.u.sh, n, k) ensures EntryOf(z.u.nodes, k) in r {
      StepComplete(z, n, k);
    }
  }

  /** The list of the new node, when it comes from an inner x. */
  lemma StepListInner(z: Step)
    requires StepOk(z) && IsInner(z.t.nodes, z.t.sh, z.s.x)
    ensures ListOk(z.u, {z.s.leaf}, z.s.node)
  {
    StepNode(z);
    assert ListOk(z.t, {}, z.s.x);
    SortedSplit(z.q, z.p);
    var l := z.t.nodes[z.s.x].mklist;
    forall e | e in z.p ensures EntryFrom(z.u, {z.s.leaf}, z.s.node, e) {
      assert e in l;
      var k: Ptr :| k !in {} && Belongs(z.t.nodes, z.t.sh, z.s.x, k) && e == EntryOf(z.t.nodes, k);
      StepBelongsNode(z, k);
      StepEntry(z, k);
    }
    forall k: Ptr | k !in {z.s.leaf} && Belongs(z.u.nodes, z.u.sh, z.s.node, k) ensures EntryOf(z.u.nodes, k) in z.p {
      StepBelongsNode(z, k);
      StepEntry(z, k);
      assert Belongs(z.t.nodes, z.t.sh, z.s.x, k) && EntryOf(z.t.nodes, k) in l;
    }
  }

  /** The list of the new node, when x heads a chain. */
  lemma StepListHead(z: Step)
    requires StepOk(z) && IsHead(z.t.nodes, z.t.sh, z.s.x)
    ensures ListOk(z.u, {z.s.leaf}, z.s.node)
  {
    StepNode(z);
    Above(z.t.nodes, z.t.sh, z.s.x);
    forall e | e in z.p ensures EntryFrom(z.u, {z.s.leaf}, z.s.node, e) {
      var k: Ptr :| Promotes(z.t, z.s, k) && e == EntryOf(z.t.nodes, k);
      assert LiftOk(z.t, z.s.x, k);
      StepBelongsNode(z, k);
      StepEntry(z, k);
    }
    forall k: Ptr | k !in {z.s.leaf} && Belongs(z.u.nodes, z.u.sh, z.s.node, k) ensures EntryOf(z.u.nodes, k) in z.p {
      StepBelongsNode(z, k);
      assert LiftOk(z.t, z.s.x, k);
      StepEntry(z, k);
      assert Promotes(z.t, z.s, k);
    }
  }

  lemma StepLift(z: Step, h: Ptr, k: Ptr)
    requires StepOk(z) && k != z.s.leaf
    ensures LiftOk(z.u, h, k)
  {
    if IsHead(z.u.nodes, z.u.sh, h) && IsLeaf(z.u.nodes, z.u.sh, k) && k in z.u.sh.under[h] {
      assert Cell(z.t.nodes, z.t.sh, z.s, z.m, z.u.sh, h) && After(z, h);
      assert h in z.s.above ==> OnWay(z.t.nodes, z.t.sh, z.s, h);
      StepLeaf(z, k);
      assert LiftOk(z.t, h, k);
      StepHeadBit(z, h);
      StepPromoted(z, h, k);
    }
  }

  lemma StepHeadBit(z: Step, h: Ptr)
    requires StepOk(z) && IsHead(z.t.nodes, z.t.sh, h)
    ensures ParentBit(z.u.nodes, z.u.sh, h) == (if h == z.s.x then z.s.b else ParentBit(z.t.nodes, z.t.sh, h))
    ensures h == z.s.x ==> ParentBit(z.t.nodes, z.t.sh, h) < z.s.b
  {
    assert Cell(z.t.nodes, z.t.sh, z.s, z.m, z.u.sh, h) && After(z, h);
    Above(z.t.nodes, z.t.sh, h);
    if h == z.s.x {
      assert Cell(z.t.nodes, z.t.sh, z.s, z.m, z.u.sh, z.s.node) && After(z, z.s.node);
    } else {
      StepInner(z, z.t.nodes[h].parent);
    }
  }

  lemma StepPromoted(z: Step, h: Ptr, k: Ptr)
    requires StepOk(z) && IsHead(z.t.nodes, z.t.sh, h) && IsLeaf(z.t.nodes, z.t.sh, k) && k in z.t.sh.under[h]
    ensures Promotes(z.t, z.s, k) ==> h == z.s.x
  {
    if Promotes(z.t, z.s, k) && h != z.s.x {
      assert HeadOk(z.t.nodes, z.t.sh, h) && HeadOk(z.t.nodes, z.t.sh, z.s.x);
      ChainsApart(z.t.nodes, z.t.sh, h, z.s.x, k);
    }
  }

  /** After the step only the entry of the new leaf itself is missing. */
  lemma StepPending(z: Step)
    requires StepOk(z)
    ensures PendingInv(z.u, z.s.leaf)
  {
    StepTrees(z);
    StepNewLeaf(z);
    forall n: Ptr ensures ListOk(z.u, {z.s.leaf}, n) {
      if IsInner(z.u.nodes, z.u.sh, n) {
        StepInner(z, n);
        if n != z.s.node {
          StepList(z, n);
        } else if IsInner(z.t.nodes, z.t.sh, z.s.x) {
          StepListInner(z);
        } else {
          StepListHead(z);
        }
      }
    }
    forall h: Ptr, k: Ptr | k != z.s.leaf ensures LiftOk(z.u, h, k) {
      StepLift(z, h, k);
    }
  }
}
