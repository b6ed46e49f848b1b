/** The ways a route can come, seen from the pairs of cells. */
module RadixArrive {

  import opened RadixTree
  import opened RadixInsert
  import opened RadixRoute
  import opened RadixChain
  import opened RadixPromote
  import opened RadixJoin
  import opened RadixPairs

  // ---------- a new key ----------

  lemma StepCells(z: Step, c: Ptr)
    requires StepOk(z) && z.s.node == z.s.leaf + 1
    ensures Arrival(z.t, z.u, z.s.leaf, true, c)
  {
    StepInner(z, c);
    StepNewLeaf(z);
    assert LeafOk(z.u, z.s.leaf);
    if c != z.s.leaf {
      StepLeaf(z, c);
      if Unused(z.t.nodes, z.t.sh, c) && c != z.s.node {
        UnusedKept(z.t.nodes, z.t.sh, z.s, z.m, z.u.sh, c);
        assert Cell(z.t.nodes, z.t.sh, z.s, z.m, z.u.sh, c) && After(z, c);
      }
    }
  }

  lemma StepHeads(z: Step, h: Ptr)
    requires StepOk(z)
    ensures ArrivalHead(z.t, z.u, z.s.leaf, true, h)
  {
    if IsHead(z.u.nodes, z.u.sh, h) {
      StepNewLeaf(z);
      assert Cell(z.t.nodes, z.t.sh, z.s, z.m, z.u.sh, h) && After(z, h);
      assert h in z.s.above ==> OnWay(z.t.nodes, z.t.sh, z.s, h);
    }
  }

  /** A route with a new key holds the inner node that came with it. */
  lemma StepArrives(z: Step)
    requires StepOk(z) && PairsInv(z.t) && Spare(z.t, z.s.leaf) && z.s.node == z.s.leaf + 1
    ensures Arrived(z.t, z.u, z.s.leaf, true)
  {
    StepTree(z);
    forall c: Ptr ensures Arrival(z.t, z.u, z.s.leaf, true, c) { StepCells(z, c); }
    forall h: Ptr ensures ArrivalHead(z.t, z.u, z.s.leaf, true, h) { StepHeads(z, h); }
  }

  // ---------- a key that is there ----------

  lemma JoiningCells(z: Joining, c: Ptr)
    requires JoiningOk(z)
    ensures Arrival(z.t, z.u, z.j.tt, false, c)
  {
    JoiningInner(z, c);
    JoiningNewLeaf(z);
    assert LeafOk(z.u, z.j.tt);
    if c != z.j.tt {
      JoiningLeaf(z, c);
      if Unused(z.t.nodes, z.t.sh, c) { JoiningUnused(z, c); }
    }
  }

  lemma JoiningUnused(z: Joining, c: Ptr)
    requires JoiningOk(z) && Unused(z.t.nodes, z.t.sh, c) && c != z.j.tt
    ensures Unused(z.u.nodes, z.u.sh, c) && z.u.nodes[c] == z.t.nodes[c]
  {
    var nodes, sh, j := z.t.nodes, z.t.sh, z.j;
    JoinedUnused(nodes, sh, j, z.m, z.u.sh, c);
    assert Spliced(nodes, sh, j, z.m, z.u.sh, c);
    HeadInTop(nodes, sh, j.h);
    Above(nodes, sh, j.h);
    assert HeadOk(nodes, sh, j.h) && Member(nodes, sh, j.h, j.i);
    if j.i > 0 { assert Member(nodes, sh, j.h, j.i - 1); }
  }

  lemma JoiningHeads(z: Joining, g: Ptr)
    requires JoiningOk(z)
    ensures ArrivalHead(z.t, z.u, z.j.tt, false, g)
  {
    if IsHead(z.u.nodes, z.u.sh, g) {
      JoinedHead(z.t.nodes, z.t.sh, z.j, z.m, z.u.sh, g);
      HeadInTop(z.t.nodes, z.t.sh, z.j.h);
      assert Spliced(z.t.nodes, z.t.sh, z.j, z.m, z.u.sh, g);
      var h := if g == NewHead(z.j) then z.j.h else g;
      assert IsHead(z.t.nodes, z.t.sh, h);
      assert z.j.h in z.t.sh.under[z.j.h];
    }
  }

  /** A route that joins a chain leaves its second cell unused. */
  lemma JoiningArrives(z: Joining)
    requires JoiningOk(z) && PairsInv(z.t) && Spare(z.t, z.j.tt)
    ensures Arrived(z.t, z.u, z.j.tt, false)
  {
    JoiningTree(z);
    forall c: Ptr ensures Arrival(z.t, z.u, z.j.tt, false, c) { JoiningCells(z, c); }
    forall h: Ptr ensures ArrivalHead(z.t, z.u, z.j.tt, false, h) { JoiningHeads(z, h); }
  }
}
