/** A leaf leaves the duplicated-key chain of its key, where others stay. */
module RadixLeave {

  import opened RadixBits
  import opened RadixTree
  import opened RadixRoute
  import opened RadixChain
  import opened RadixUnlist
  import opened RadixRegrow

  /** Leaf tt is at position i of the chain at h. */
  datatype Exit = Exit(h: Ptr, i: nat, tt: Ptr)

  ghost predicate ExitOk(t: Table, e: Exit) {
    && TreeInv(t.nodes, t.sh) && IsHead(t.nodes, t.sh, e.h)
    && e.i < |t.sh.chain[e.h]| && t.sh.chain[e.h][e.i] == e.tt && |t.sh.chain[e.h]| > 1
  }

  /** Where the tree refers to the chain afterwards. */
  ghost function FirstLeft(t: Table, e: Exit): Ptr
    requires ExitOk(t, e)
  {
    if e.i == 0 then t.sh.chain[e.h][1] else e.h
  }

  /** What cell c of the store becomes. */
  ghost predicate Unlinked(t: Table, e: Exit, m: seq<Node>, c: Ptr)
    requires ExitOk(t, e) && |m| == |t.nodes|
  {
    c < |m| ==>
      var s, n := t.sh.chain[e.h], t.nodes[c];
      var next := if e.i + 1 < |s| then s[e.i + 1] else 0;
      m[c] == (if e.i == 0 && c == s[1] && n.Leaf? then n.(parent := t.nodes[e.h].parent)
               else if e.i == 0 && c == t.nodes[e.h].parent && n.Inner? then
                 if n.left == e.h then n.(left := s[1]) else n.(right := s[1])
               else if e.i > 0 && c == s[e.i - 1] && n.Leaf? then n.(dup := next)
               else if e.i > 0 && next != 0 && c == next && n.Leaf? then n.(parent := s[e.i - 1])
               else n)
  }

  /** What cell c of the store and of the shape becomes. */
  ghost predicate Exited(t: Table, e: Exit, u: Table, c: Ptr)
    requires ExitOk(t, e) && |u.nodes| == |u.sh.under| == |u.sh.chain| == |t.nodes|
  {
    Unlinked(t, e, u.nodes, c) &&
    (c < |t.nodes| ==>
      && u.sh.under[c] == (if c == e.tt then {} else if c == FirstLeft(t, e) then t.sh.under[e.h] - {e.tt}
                           else t.sh.under[c] - {e.tt})
      && u.sh.chain[c] == (if c == FirstLeft(t, e) then Without(t.sh.chain[e.h], e.i)
                           else if c == e.tt then [] else t.sh.chain[c]))
  }

  ghost predicate LeftChain(t: Table, e: Exit, u: Table) {
    && ExitOk(t, e) && Sized(u.nodes, u.sh) && |u.nodes| == |t.nodes|
    && u == t.(nodes := u.nodes, sh := t.sh.(under := u.sh.under, chain := u.sh.chain))
    && forall c {:trigger Exited(t, e, u, c)} :: Exited(t, e, u, c)
  }

  lemma ChainFacts(t: Table, e: Exit, i: nat)
    requires ExitOk(t, e) && i < |t.sh.chain[e.h]|
    ensures var s := t.sh.chain[e.h];
      && IsLeaf(t.nodes, t.sh, s[i]) && s[i] != t.sh.top && s[i] in t.sh.under[e.h]
      && (i > 0 ==> t.nodes[s[i]].parent == s[i - 1] && t.sh.under[s[i]] == {} && s[i] != e.h)
      && t.nodes[s[i]].dup == (if i + 1 < |s| then s[i + 1] else 0) && s[0] == e.h
      && Agree(t.sh.bits[e.h], t.sh.bits[s[i]], t.sh.lo, t.sh.hi)
      && t.sh.under[e.h] == (set k | k in s)
    ensures forall j :: 0 <= j < |t.sh.chain[e.h]| && j != i ==> t.sh.chain[e.h][j] != t.sh.chain[e.h][i]
  {
    assert HeadOk(t.nodes, t.sh, e.h) && Member(t.nodes, t.sh, e.h, i);
  }

  lemma ExitTop(t: Table, e: Exit, u: Table)
    requires LeftChain(t, e, u)
    ensures u.sh.under[u.sh.top] == t.sh.under[t.sh.top] - {e.tt} && u.sh.top == t.sh.top
    ensures 0 < FirstLeft(t, e) < |t.nodes| && e.tt < |t.nodes|
    ensures t.sh.under[FirstLeft(t, e)] == (if e.i == 0 then {} else t.sh.under[e.h])
    ensures IsLeaf(t.nodes, t.sh, FirstLeft(t, e)) && FirstLeft(t, e) != e.tt && FirstLeft(t, e) in t.sh.under[e.h]
    ensures FirstLeft(t, e) != t.sh.top && e.tt in t.sh.under[e.h] && IsLeaf(t.nodes, t.sh, e.tt)
    ensures e.i == 0 <==> e.tt == e.h
  {
    ChainFacts(t, e, 0);
    ChainFacts(t, e, 1);
    ChainFacts(t, e, e.i);
    assert Exited(t, e, u, t.sh.top);
  }

  lemma ExitLeaf(t: Table, e: Exit, u: Table, k: Ptr)
    requires LeftChain(t, e, u)
    ensures LeafFrom(t, u, {e.tt}, k)
    ensures IsLeaf(u.nodes, u.sh, k) && IsLeaf(t.nodes, t.sh, k) ==> u.nodes[k].lifted == t.nodes[k].lifted
  {
    ExitTop(t, e, u);
    assert Exited(t, e, u, k);
  }

  lemma ExitKin(t: Table, e: Exit, u: Table)
    requires LeftChain(t, e, u)
    ensures Kin(t, u, {e.tt})
  {
    forall k: Ptr ensures LeafFrom(t, u, {e.tt}, k) { ExitLeaf(t, e, u, k); }
  }

  lemma ExitInner(t: Table, e: Exit, u: Table, n: Ptr)
    requires LeftChain(t, e, u)
    ensures IsInner(u.nodes, u.sh, n) <==> IsInner(t.nodes, t.sh, n)
    ensures IsInner(t.nodes, t.sh, n) ==>
      && u.nodes[n] == t.nodes[n].(left := u.nodes[n].left, right := u.nodes[n].right)
      && u.sh.under[n] == t.sh.under[n] - {e.tt} && n != e.h && n != e.tt && n != FirstLeft(t, e)
  {
    ExitTop(t, e, u);
    assert Exited(t, e, u, n);
    if IsInner(t.nodes, t.sh, n) { TwoBelow(t.nodes, t.sh, n, e.tt); }
  }

  lemma ExitHead(t: Table, e: Exit, u: Table, g: Ptr)
    requires LeftChain(t, e, u)
    ensures IsHead(u.nodes, u.sh, g) <==> g == FirstLeft(t, e) || (IsHead(t.nodes, t.sh, g) && g != e.h)
  {
    ExitTop(t, e, u);
    assert Exited(t, e, u, g);
    if IsHead(t.nodes, t.sh, g) && g != e.h && g == e.tt { OnlyHead(t.nodes, t.sh, e.h, g); }
  }

  /** A head other than h keeps its parent, and a chain of its own. */
  lemma ExitOther(t: Table, e: Exit, u: Table, g: Ptr)
    requires LeftChain(t, e, u) && IsHead(t.nodes, t.sh, g) && g != e.h
    ensures g != e.tt && g != FirstLeft(t, e) && u.sh.chain[g] == t.sh.chain[g] && u.sh.under[g] == t.sh.under[g]
    ensures u.nodes[g].Leaf? && u.nodes[g].parent == t.nodes[g].parent
  {
    ExitTop(t, e, u);
    if g in t.sh.under[e.h] { OnlyHead(t.nodes, t.sh, e.h, g); }
    assert HeadOk(t.nodes, t.sh, g) && HeadOk(t.nodes, t.sh, e.h);
    ChainsApart(t.nodes, t.sh, g, e.h, e.tt);
    assert Exited(t, e, u, g);
    if e.i + 1 < |t.sh.chain[e.h]| { ChainFacts(t, e, e.i + 1); }
  }

  lemma ExitFirst(t: Table, e: Exit, u: Table)
    requires LeftChain(t, e, u)
    ensures var f := FirstLeft(t, e);
      && IsHead(u.nodes, u.sh, f) && u.sh.under[f] == t.sh.under[e.h] - {e.tt}
      && u.sh.chain[f] == Without(t.sh.chain[e.h], e.i) && u.nodes[f].parent == t.nodes[e.h].parent
  {
    ExitTop(t, e, u);
    ExitHead(t, e, u, FirstLeft(t, e));
    assert Exited(t, e, u, FirstLeft(t, e));
    if e.i + 1 < |t.sh.chain[e.h]| { ChainFacts(t, e, e.i + 1); }
  }

  lemma ExitLinks(t: Table, e: Exit, u: Table, n: Ptr)
    requires LeftChain(t, e, u) && IsInner(t.nodes, t.sh, n) && u.nodes[n].Inner?
    ensures u.nodes[n].left == (if t.nodes[n].left == e.h then FirstLeft(t, e) else t.nodes[n].left)
    ensures u.nodes[n].right == (if t.nodes[n].right == e.h then FirstLeft(t, e) else t.nodes[n].right)
  {
    assert InnerOk(t.nodes, t.sh, n) && Exited(t, e, u, n);
    HeadInTop(t.nodes, t.sh, e.h);
    Above(t.nodes, t.sh, e.h);
  }

  lemma ExitChild(t: Table, e: Exit, u: Table, n: Ptr, c: Ptr, side: bool)
    requires LeftChain(t, e, u) && IsInner(t.nodes, t.sh, n) && ChildOk(t.nodes, t.sh, n, c, side)
    ensures IsInner(u.nodes, u.sh, n) && c < |t.nodes|
    ensures ChildFrom(t, u, {e.tt}, n, c, if c == e.h then FirstLeft(t, e) else c)
  {
    ExitInner(t, e, u, n);
    ExitTop(t, e, u);
    if c == e.h {
      ExitFirst(t, e, u);
    } else if IsInner(t.nodes, t.sh, c) {
      ExitInner(t, e, u, c);
    } else {
      ExitHead(t, e, u, c);
      ExitOther(t, e, u, c);
      assert Exited(t, e, u, c);
    }
  }

  lemma ExitStems(t: Table, e: Exit, u: Table, n: Ptr)
    requires LeftChain(t, e, u)
    ensures IsInner(u.nodes, u.sh, n) ==> InnerFrom(t, u, {e.tt}, n, n)
  {
    ExitInner(t, e, u, n);
    if IsInner(t.nodes, t.sh, n) {
      assert InnerOk(t.nodes, t.sh, n);
      ExitLinks(t, e, u, n);
      ExitChild(t, e, u, n, t.nodes[n].left, false);
      ExitChild(t, e, u, n, t.nodes[n].right, true);
    }
  }

  lemma ExitOtherMember(t: Table, e: Exit, u: Table, g: Ptr, i: nat)
    requires LeftChain(t, e, u) && IsHead(t.nodes, t.sh, g) && g != e.h && u.sh.chain[g] == t.sh.chain[g]
    ensures Member(u.nodes, u.sh, g, i)
  {
    assert HeadOk(t.nodes, t.sh, g) && Member(t.nodes, t.sh, g, i);
    if i < |t.sh.chain[g]| {
      var k := t.sh.chain[g][i];
      ExitLeaf(t, e, u, k);
      ExitTop(t, e, u);
      assert HeadOk(t.nodes, t.sh, e.h);
      if k in t.sh.chain[e.h] { ChainsApart(t.nodes, t.sh, e.h, g, k); }
      assert Exited(t, e, u, k) && Exited(t, e, u, g);
    }
  }

  /** Members before tt stay where they are. */
  lemma ExitMemberBefore(t: Table, e: Exit, u: Table, i: nat)
    requires LeftChain(t, e, u) && i < e.i && u.sh.chain[e.h] == Without(t.sh.chain[e.h], e.i)
    ensures Member(u.nodes, u.sh, e.h, i)
  {
    var s := t.sh.chain[e.h];
    ExitTop(t, e, u);
    ChainFacts(t, e, i);
    ChainFacts(t, e, i + 1);
    ExitLeaf(t, e, u, s[i]);
    assert Exited(t, e, u, s[i]);
  }

  /** Members behind tt move up by one. */
  lemma ExitMemberAfter(t: Table, e: Exit, u: Table, i: nat)
    requires LeftChain(t, e, u) && e.i <= i < |t.sh.chain[e.h]| - 1 && FirstLeft(t, e) < |u.nodes|
    requires u.sh.chain[FirstLeft(t, e)] == Without(t.sh.chain[e.h], e.i)
    ensures Member(u.nodes, u.sh, FirstLeft(t, e), i)
  {
    var s := t.sh.chain[e.h];
    ExitTop(t, e, u);
    ChainFacts(t, e, i + 1);
    ChainFacts(t, e, if e.i == 0 then 1 else 0);
    ExitLeaf(t, e, u, s[i + 1]);
    assert Exited(t, e, u, s[i + 1]);
  }

  lemma WithoutSet(s: seq<Ptr>, i: nat)
    requires i < |s| && forall a, b :: 0 <= a < b < |s| ==> s[a] != s[b]
    ensures (set k | k in Without(s, i)) == (set k | k in s) - {s[i]}
    ensures forall a, b :: 0 <= a < b < |Without(s, i)| ==> Without(s, i)[a] != Without(s, i)[b]
  {
    forall k: Ptr ensures k in Without(s, i) <==> k in s && k != s[i] { WithoutKeeps(s, i, k); }
  }

  lemma ExitHeadOk(t: Table, e: Exit, u: Table, g: Ptr)
    requires LeftChain(t, e, u)
    ensures HeadStays(u, g)
  {
    if IsHead(u.nodes, u.sh, g) {
      ExitHead(t, e, u, g);
      if g == FirstLeft(t, e) {
        ExitFirst(t, e, u);
        assert HeadOk(t.nodes, t.sh, e.h);
        WithoutSet(t.sh.chain[e.h], e.i);
        forall i: nat ensures Member(u.nodes, u.sh, g, i) {
          if i < e.i {
            ExitMemberBefore(t, e, u, i);
          } else if i + 1 < |t.sh.chain[e.h]| {
            ExitMemberAfter(t, e, u, i);
          }
        }
      } else {
        ExitOther(t, e, u, g);
        assert HeadOk(t.nodes, t.sh, g);
        forall i: nat ensures Member(u.nodes, u.sh, g, i) { ExitOtherMember(t, e, u, g, i); }
      }
    }
  }

  lemma ExitParent(t: Table, e: Exit, u: Table, c: Ptr)
    requires LeftChain(t, e, u)
    ensures ParentStays(u, c)
  {
    if IsInner(u.nodes, u.sh, c) || IsHead(u.nodes, u.sh, c) {
      ExitInner(t, e, u, c);
      ExitHead(t, e, u, c);
      var d := if c == FirstLeft(t, e) then e.h else c;
      assert ParentOk(t.nodes, t.sh, d);
      ExitFirst(t, e, u);
      HeadInTop(t.nodes, t.sh, e.h);
      ExitTop(t, e, u);
      if c != FirstLeft(t, e) && IsHead(t.nodes, t.sh, c) { ExitOther(t, e, u, c); }
      if d != t.sh.top {
        ExitInner(t, e, u, t.nodes[d].parent);
        ExitLinks(t, e, u, t.nodes[d].parent);
      }
    }
  }

  /** The tree without the leaf is well formed. */
  lemma ExitInv(t: Table, e: Exit, u: Table)
    requires LeftChain(t, e, u)
    ensures Kin(t, u, {e.tt}) && TreeInv(u.nodes, u.sh) && (KeysOk(t.nodes, t.sh) ==> KeysOk(u.nodes, u.sh))
  {
    ExitKin(t, e, u);
    ExitInner(t, e, u, u.sh.top);
    forall n: Ptr ensures Stems(t, u, {e.tt}, n) { ExitStems(t, e, u, n); }
    forall h: Ptr ensures HeadStays(u, h) { ExitHeadOk(t, e, u, h); }
    forall c: Ptr ensures ParentStays(u, c) { ExitParent(t, e, u, c); }
    GrownInv(t, u, {e.tt});
  }

  // ---------- the routing table ----------

  lemma ExitBit(t: Table, e: Exit, u: Table, c: Ptr, c': Ptr)
    requires LeftChain(t, e, u) && (IsInner(t.nodes, t.sh, c) || IsHead(t.nodes, t.sh, c))
    requires c' == if c == e.h then FirstLeft(t, e) else c
    ensures ParentBit(u.nodes, u.sh, c') == ParentBit(t.nodes, t.sh, c)
  {
    ExitTop(t, e, u);
    ExitFirst(t, e, u);
    HeadInTop(t.nodes, t.sh, e.h);
    ExitInner(t, e, u, c);
    if c != e.h && IsHead(t.nodes, t.sh, c) { ExitOther(t, e, u, c); }
    if c != t.sh.top {
      Above(t.nodes, t.sh, c);
      ExitInner(t, e, u, t.nodes[c].parent);
    }
  }

  lemma ExitHeadFrom(t: Table, e: Exit, u: Table, g: Ptr)
    requires LeftChain(t, e, u) && IsHead(u.nodes, u.sh, g)
    ensures HeadFrom(t, u, {e.tt}, if g == FirstLeft(t, e) then e.h else g, g)
  {
    ExitHead(t, e, u, g);
    if g == FirstLeft(t, e) {
      ExitFirst(t, e, u);
    } else {
      ExitOther(t, e, u, g);
      assert Exited(t, e, u, g);
    }
  }

  lemma ExitTrees(t: Table, e: Exit, u: Table)
    requires LeftChain(t, e, u) && TreesOk(t) && e.tt != 1 && e.tt != 3
    ensures TreesOk(u)
  {
    ExitInv(t, e, u);
    forall g: Ptr ensures ChainStems(t, u, {e.tt}, g) {
      if IsHead(u.nodes, u.sh, g) { ExitHeadFrom(t, e, u, g); }
    }
    TreesGrown(t, u, {e.tt});
  }

  /** A leaf without an entry can leave its chain: the rest is a right table. */
  lemma ExitRoutes(t: Table, e: Exit, u: Table)
    requires LeftChain(t, e, u) && LeavingInv(t, e.tt) && e.tt != 1 && e.tt != 3
    ensures RouteInv(u)
  {
    ExitTrees(t, e, u);
    ExitKin(t, e, u);
    forall n: Ptr ensures ListOk(u, {}, n) {
      if IsInner(u.nodes, u.sh, n) {
        ExitStems(t, e, u, n);
        ExitInner(t, e, u, n);
        ExitBit(t, e, u, n, n);
        assert ListOk(t, {e.tt}, n);
        ListGrown(t, u, {e.tt}, n, n);
      }
    }
    forall g: Ptr, k: Ptr ensures LiftOk(u, g, k) { ExitLift(t, e, u, g, k); }
  }

  lemma ExitLift(t: Table, e: Exit, u: Table, g: Ptr, k: Ptr)
    requires LeftChain(t, e, u) && LeavingInv(t, e.tt)
    ensures LiftOk(u, g, k)
  {
    if IsHead(u.nodes, u.sh, g) {
      var h := if g == FirstLeft(t, e) then e.h else g;
      ExitKin(t, e, u);
      ExitHeadFrom(t, e, u, g);
      ExitHead(t, e, u, g);
      ExitTop(t, e, u);
      ExitBit(t, e, u, h, g);
      ExitLeaf(t, e, u, k);
      assert k != e.tt ==> LiftOk(t, h, k);
      LiftGrown(t, u, {e.tt}, h, g, k);
    }
  }
}
