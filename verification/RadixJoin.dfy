/** A route whose key is already in the tree joins the chain of that key. */
module RadixJoin {

  import opened RadixBits
  import opened RadixTree
  import opened RadixInsert
  import opened RadixHead
  import opened RadixRoute
  import opened RadixChain

  /** A table t, the joint, the store m after linking, and the table u after the leaf got its mask. */
  datatype Joining = Joining(t: Table, j: Joint, m: seq<Node>, u: Table)

  ghost predicate JoiningOk(z: Joining) {
    && RouteInv(z.t) && JoinedTree(z.t.nodes, z.t.sh, z.j, z.m, z.u.sh) && IsBits(z.j.v, z.j.vb)
    && z.u.masks == z.t.masks && z.u.maskShape == z.t.maskShape
    && z.j.tt != 1 && z.j.tt != 3 && |z.u.nodes| == |z.m|
    && z.m[z.j.tt].Leaf? && z.u.nodes[z.j.tt].Leaf? && z.u.nodes[z.j.tt].bit < 0
    && z.u.nodes == z.m[z.j.tt := Labelled(z.m[z.j.tt], z.u.nodes[z.j.tt])]
    && LeafOk(z.u, z.j.tt)
    && (forall i {:trigger Fits(z, i)} :: Fits(z, i))
  }

  /** The new leaf's place in the order of the chain. */
  ghost predicate Fits(z: Joining, i: nat)
    requires Sized(z.t.nodes, z.t.sh) && z.j.h < |z.t.nodes| && z.j.tt < |z.u.nodes| && z.u.nodes[z.j.tt].Leaf?
  {
    var s := z.t.sh.chain[z.j.h];
    i < |s| && IsLeaf(z.t.nodes, z.t.sh, s[i]) ==>
      if i < z.j.i then Rank(z.t.nodes, z.t.sh, s[i]) > Rank(z.u.nodes, z.t.sh, z.j.tt)
      else Rank(z.t.nodes, z.t.sh, s[i]) < Rank(z.u.nodes, z.t.sh, z.j.tt)
  }

  lemma JoiningTree(z: Joining)
    requires JoiningOk(z)
    ensures HeadInv(z.u.nodes, z.u.sh)
  {
    JoinedInv(z.t.nodes, z.t.sh, z.j, z.m, z.u.sh);
    JoinedKeys(z.t.nodes, z.t.sh, z.j, z.m, z.u.sh);
    assert Spliced(z.t.nodes, z.t.sh, z.j, z.m, z.u.sh, z.j.tt);
    RelabelledInv(z.m, z.u.nodes, z.u.sh);
  }

  lemma JoiningLeaf(z: Joining, k: Ptr)
    requires JoiningOk(z) && k != z.j.tt
    ensures IsLeaf(z.u.nodes, z.u.sh, k) <==> IsLeaf(z.t.nodes, z.t.sh, k)
    ensures IsLeaf(z.t.nodes, z.t.sh, k) ==>
      z.u.sh.bits[k] == z.t.sh.bits[k]
          && z.u.nodes[k] == z.t.nodes[k].(dup := z.u.nodes[k].dup, parent := z.u.nodes[k].parent)
  {
    JoinedLeaf(z.t.nodes, z.t.sh, z.j, z.m, z.u.sh, k);
  }

  lemma JoiningNewLeaf(z: Joining)
    requires JoiningOk(z)
    ensures IsLeaf(z.u.nodes, z.u.sh, z.j.tt) && !z.u.nodes[z.j.tt].lifted && z.u.sh.bits[z.j.tt] == z.j.vb
    ensures IsHead(z.u.nodes, z.u.sh, NewHead(z.j)) && z.j.tt in z.u.sh.under[NewHead(z.j)]
    ensures z.u.nodes[NewHead(z.j)].parent == z.t.nodes[z.j.h].parent
  {
    HeadInTop(z.t.nodes, z.t.sh, z.j.h);
    JoinedTop(z.t.nodes, z.t.sh, z.j, z.m, z.u.sh);
    JoinedHead(z.t.nodes, z.t.sh, z.j, z.m, z.u.sh, NewHead(z.j));
    assert Spliced(z.t.nodes, z.t.sh, z.j, z.m, z.u.sh, z.j.tt)
        && Spliced(z.t.nodes, z.t.sh, z.j, z.m, z.u.sh, NewHead(z.j));
    if z.j.i > 0 { JoinedParentField(z.t.nodes, z.t.sh, z.j, z.m, z.u.sh, z.j.h); }
  }

  lemma JoiningInner(z: Joining, n: Ptr)
    requires JoiningOk(z)
    ensures IsInner(z.u.nodes, z.u.sh, n) <==> IsInner(z.t.nodes, z.t.sh, n)
    ensures IsInner(z.t.nodes, z.t.sh, n) ==>
      && z.u.nodes[n].bit == z.t.nodes[n].bit && z.u.nodes[n].mklist == z.t.nodes[n].mklist
          && z.u.nodes[n].parent == z.t.nodes[n].parent
      && (z.u.sh.under[n] == z.t.sh.under[n] || z.u.sh.under[n] == z.t.sh.under[n] + {z.j.tt})
  {
    JoinedInner(z.t.nodes, z.t.sh, z.j, z.m, z.u.sh, n);
    assert Spliced(z.t.nodes, z.t.sh, z.j, z.m, z.u.sh, n);
  }

  lemma JoiningParentBit(z: Joining, n: Ptr)
    requires JoiningOk(z) && IsInner(z.t.nodes, z.t.sh, n)
    ensures ParentBit(z.u.nodes, z.u.sh, n) == ParentBit(z.t.nodes, z.t.sh, n)
  {
    JoiningInner(z, n);
    if n != z.t.sh.top {
      Above(z.t.nodes, z.t.sh, n);
      JoiningInner(z, z.t.nodes[n].parent);
    }
  }

  lemma JoiningBelongs(z: Joining, n: Ptr, k: Ptr)
    requires JoiningOk(z) && k != z.j.tt
    ensures Belongs(z.u.nodes, z.u.sh, n, k) <==> Belongs(z.t.nodes, z.t.sh, n, k)
    ensures IsLeaf(z.t.nodes, z.t.sh, k) ==> k < |z.u.nodes| && z.u.nodes[k].Leaf?
    ensures IsLeaf(z.t.nodes, z.t.sh, k) ==> EntryOf(z.u.nodes, k) == EntryOf(z.t.nodes, k)
  {
    JoiningInner(z, n);
    if IsInner(z.t.nodes, z.t.sh, n) { JoiningParentBit(z, n); }
    JoiningLeaf(z, k);
  }

  lemma JoiningList(z: Joining, n: Ptr)
    requires JoiningOk(z) && IsInner(z.t.nodes, z.t.sh, n)
    ensures ListOk(z.u, {z.j.tt}, n)
  {
    JoiningInner(z, n);
    assert ListOk(z.t, {}, n);
    forall e | e in z.u.nodes[n].mklist ensures EntryFrom(z.u, {z.j.tt}, n, e) {
      var k: Ptr :| k !in {} && Belongs(z.t.nodes, z.t.sh, n, k) && e == EntryOf(z.t.nodes, k);
      JoiningBelongs(z, n, k);
    }
    forall k: Ptr | k !in {z.j.tt} && Belongs(z.u.nodes, z.u.sh, n, k)
      ensures EntryOf(z.u.nodes, k) in z.u.nodes[n].mklist
    {
      JoiningBelongs(z, n, k);
    }
  }

  /** Member i of the new chain is the new leaf or an old member. */
  lemma JoiningRank(z: Joining, i: nat)
    requires JoiningOk(z) && i <= |z.t.sh.chain[z.j.h]|
    ensures var k := Joined(z.t.sh.chain[z.j.h], z.j.i, z.j.tt)[i];
      IsLeaf(z.u.nodes, z.u.sh, k) &&
      (i != z.j.i ==> var c := z.t.sh.chain[z.j.h][if i < z.j.i then i else i - 1];
        k == c && IsLeaf(z.t.nodes, z.t.sh, c) && Rank(z.u.nodes, z.u.sh, k) == Rank(z.t.nodes, z.t.sh, c))
  {
    JoiningNewLeaf(z);
    if i != z.j.i {
      var q := if i < z.j.i then i else i - 1;
      assert HeadOk(z.t.nodes, z.t.sh, z.j.h) && Member(z.t.nodes, z.t.sh, z.j.h, q);
      JoiningLeaf(z, z.t.sh.chain[z.j.h][q]);
    }
  }

  lemma JoiningOrder(z: Joining, a: nat, b: nat)
    requires JoiningOk(z) && z.u.sh.chain[NewHead(z.j)] == Joined(z.t.sh.chain[z.j.h], z.j.i, z.j.tt)
    ensures InOrder(z.u, NewHead(z.j), a, b)
  {
    if a < b <= |z.t.sh.chain[z.j.h]| {
      JoiningRank(z, a);
      JoiningRank(z, b);
      var p, q := if a < z.j.i then a else a - 1, if b < z.j.i then b else b - 1;
      assert ChainOk(z.t, z.j.h);
      if a == z.j.i {
        assert Fits(z, q);
      } else if b == z.j.i {
        assert Fits(z, p);
      } else {
        assert InOrder(z.t, z.j.h, p, q);
      }
    }
  }

  lemma JoiningChain(z: Joining, g: Ptr)
    requires JoiningOk(z)
    ensures ChainOk(z.u, g)
  {
    if IsHead(z.u.nodes, z.u.sh, g) {
      JoinedHead(z.t.nodes, z.t.sh, z.j, z.m, z.u.sh, g);
      HeadInTop(z.t.nodes, z.t.sh, z.j.h);
      assert Spliced(z.t.nodes, z.t.sh, z.j, z.m, z.u.sh, g);
      forall a: nat, b: nat ensures InOrder(z.u, g, a, b) {
        if g == NewHead(z.j) {
          JoiningOrder(z, a, b);
        } else {
          JoiningOtherOrder(z, g, a, b);
        }
      }
    }
  }

  lemma JoiningOtherOrder(z: Joining, g: Ptr, a: nat, b: nat)
    requires JoiningOk(z) && IsHead(z.t.nodes, z.t.sh, g) && z.u.sh.chain[g] == z.t.sh.chain[g]
    ensures InOrder(z.u, g, a, b)
  {
    assert ChainOk(z.t, g) && InOrder(z.t, g, a, b);
    if a < b < |z.u.sh.chain[g]| {
      JoiningLeaf(z, z.t.sh.chain[g][a]);
      JoiningLeaf(z, z.t.sh.chain[g][b]);
    }
  }

  lemma JoiningTrees(z: Joining)
    requires JoiningOk(z)
    ensures TreesOk(z.u)
  {
    JoiningTree(z);
    forall k: Ptr ensures LeafOk(z.u, k) {
      if k != z.j.tt {
        JoiningLeaf(z, k);
        assert LeafOk(z.t, k);
      }
    }
    forall g: Ptr ensures ChainOk(z.u, g) {
      JoiningChain(z, g);
    }
    JoiningLeaf(z, 1);
    JoiningLeaf(z, 3);
  }

  lemma JoiningLift(z: Joining, g: Ptr, k: Ptr)
    requires JoiningOk(z) && k != z.j.tt
    ensures LiftOk(z.u, g, k)
  {
    if IsHead(z.u.nodes, z.u.sh, g) && IsLeaf(z.u.nodes, z.u.sh, k) && k in z.u.sh.under[g] {
      HeadInTop(z.t.nodes, z.t.sh, z.j.h);
      JoinedHead(z.t.nodes, z.t.sh, z.j, z.m, z.u.sh, g);
      assert Spliced(z.t.nodes, z.t.sh, z.j, z.m, z.u.sh, g);
      JoiningLeaf(z, k);
      var h := if g == NewHead(z.j) then z.j.h else g;
      assert LiftOk(z.t, h, k);
      JoiningHeadBit(z, g, h);
    }
  }

  lemma JoiningHeadBit(z: Joining, g: Ptr, h: Ptr)
    requires JoiningOk(z) && IsHead(z.t.nodes, z.t.sh, h)
    requires (if g == NewHead(z.j) then h == z.j.h else g == h && h != z.j.h)
    ensures ParentBit(z.u.nodes, z.u.sh, g) == ParentBit(z.t.nodes, z.t.sh, h)
  {
    HeadInTop(z.t.nodes, z.t.sh, h);
    Above(z.t.nodes, z.t.sh, h);
    JoiningInner(z, z.t.nodes[h].parent);
    JoiningNewLeaf(z);
    if g != NewHead(z.j) { JoinedParentField(z.t.nodes, z.t.sh, z.j, z.m, z.u.sh, g); }
  }

  /** After joining only the entry of the new leaf itself is missing. */
  lemma JoiningPending(z: Joining)
    requires JoiningOk(z)
    ensures PendingInv(z.u, z.j.tt)
  {
    JoiningTrees(z);
    JoiningNewLeaf(z);
    forall n: Ptr ensures ListOk(z.u, {z.j.tt}, n) {
      JoiningInner(z, n);
      if IsInner(z.t.nodes, z.t.sh, n) { JoiningList(z, n); }
    }
    forall g: Ptr, k: Ptr | k != z.j.tt ensures LiftOk(z.u, g, k) {
      JoiningLift(z, g, k);
    }
  }
}
