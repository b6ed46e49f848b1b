/** The middle of rn_delete: the mask list entries on a node that goes pass down to what was below it. */
module RadixDemote {

  import opened RadixTree
  import opened RadixRoute
  import opened RadixUnlist
  import opened RadixPrune

  /** The pair around tt, with its list about to be demoted. */
  ghost predicate Cutting(t: Table, tt: Ptr, d: Ptr, x: Ptr) {
    && LeavingInv(t, tt) && PruneOk(t, tt) && d == t.nodes[tt].parent && d < |t.nodes| && t.nodes[d].Inner?
    && x == Sibling(t.nodes, d, tt)
  }

  /** Member j of the chain at x is demoted. */
  ghost predicate DemotedAt(t: Table, d: Ptr, x: Ptr, j: nat)
    requires Sized(t.nodes, t.sh) && x < |t.nodes|
  {
    j < |t.sh.chain[x]| && Demoted(t, d, x, t.sh.chain[x][j])
  }

  /** e is the entry of a demoted member at a position from lo on and before hi. */
  ghost predicate FromMember(t: Table, d: Ptr, x: Ptr, e: MaskEntry, lo: nat, hi: nat)
    requires Sized(t.nodes, t.sh) && x < |t.nodes|
  {
    exists j :: lo <= j < hi && DemotedAt(t, d, x, j) && e == EntryOf(t.nodes, t.sh.chain[x][j])
  }

  /** The first i entries are from the first j members, the others from later ones. */
  ghost predicate Abreast(t: Table, d: Ptr, x: Ptr, i: nat, j: nat)
    requires Sized(t.nodes, t.sh) && x < |t.nodes| && d < |t.nodes| && t.nodes[d].Inner?
  {
    var l := t.nodes[d].mklist;
    && i <= |l| && j <= |t.sh.chain[x]|
    && (forall q {:trigger l[q]} :: 0 <= q < i ==> FromMember(t, d, x, l[q], 0, j))
    && (forall q {:trigger l[q]} :: i <= q < |l| ==> FromMember(t, d, x, l[q], j, |t.sh.chain[x]|))
  }

  lemma AbreastStart(t: Table, tt: Ptr, d: Ptr, x: Ptr)
    requires Cutting(t, tt, d, x) && x < |t.nodes| && IsHead(t.nodes, t.sh, x)
    ensures Abreast(t, d, x, 0, 0)
  {
    Neighbours(t, tt, d, x);
    assert ListOk(t, {tt}, d) && HeadOk(t.nodes, t.sh, x);
    var l, s := t.nodes[d].mklist, t.sh.chain[x];
    forall q | 0 <= q < |l| ensures FromMember(t, d, x, l[q], 0, |s|) {
      assert EntryFrom(t, {tt}, d, l[q]);
      var k: Ptr :| k !in {tt} && Belongs(t.nodes, t.sh, d, k) && l[q] == EntryOf(t.nodes, k);
      var j :| 0 <= j < |s| && s[j] == k;
      assert DemotedAt(t, d, x, j);
    }
  }

  /** Entries of different members differ, in the order of the chain. */
  lemma MembersApart(t: Table, d: Ptr, x: Ptr, a: nat, b: nat)
    requires TreesOk(t) && x < |t.nodes| && IsHead(t.nodes, t.sh, x) && a < b < |t.sh.chain[x]|
    ensures var s := t.sh.chain[x]; IsLeaf(t.nodes, t.sh, s[a]) && IsLeaf(t.nodes, t.sh, s[b])
    ensures var s := t.sh.chain[x]; t.nodes[s[a]].mask != 0 && t.nodes[s[b]].mask != 0 ==>
      t.nodes[s[a]].bit < t.nodes[s[b]].bit
  {
    assert ChainOk(t, x) && InOrder(t, x, a, b);
  }

  /** A demoted member has an entry in the list, and is marked as lifted. */
  lemma DemotedListed(t: Table, tt: Ptr, d: Ptr, x: Ptr, j: nat)
    requires Cutting(t, tt, d, x) && x < |t.nodes| && IsHead(t.nodes, t.sh, x) && DemotedAt(t, d, x, j)
    ensures var k := t.sh.chain[x][j]; EntryOf(t.nodes, k) in t.nodes[d].mklist && t.nodes[k].lifted
  {
    Neighbours(t, tt, d, x);
    Above(t.nodes, t.sh, x);
    var k := t.sh.chain[x][j];
    assert ListOk(t, {tt}, d) && LiftOk(t, x, k);
  }

  /** The next entry is that of the next demoted member, so member j is demoted if it has that entry. */
  lemma NextEntry(t: Table, tt: Ptr, d: Ptr, x: Ptr, i: nat, j: nat)
    requires Cutting(t, tt, d, x) && x < |t.nodes| && IsHead(t.nodes, t.sh, x) && Abreast(t, d, x, i, j)
    requires i < |t.nodes[d].mklist| && j < |t.sh.chain[x]|
    ensures IsLeaf(t.nodes, t.sh, t.sh.chain[x][j])
    ensures var k := t.sh.chain[x][j];
      DemotedAt(t, d, x, j) <==> t.nodes[k].lifted && EntryOf(t.nodes, k) == t.nodes[d].mklist[i]
  {
    var l, s := t.nodes[d].mklist, t.sh.chain[x];
    assert HeadOk(t.nodes, t.sh, x) && Member(t.nodes, t.sh, x, j);
    assert FromMember(t, d, x, l[i], j, |s|);
    var a :| j <= a < |s| && DemotedAt(t, d, x, a) && l[i] == EntryOf(t.nodes, s[a]);
    if a == j {
      DemotedListed(t, tt, d, x, j);
    } else {
      MembersApart(t, d, x, j, a);
      assert LeafOk(t, s[j]) && LeafOk(t, s[a]);
      if DemotedAt(t, d, x, j) { NotPassed(t, tt, d, x, i, j, a); }
    }
  }

  /** A demoted member that is not reached yet cannot be before the member that the next entry is from. */
  lemma NotPassed(t: Table, tt: Ptr, d: Ptr, x: Ptr, i: nat, j: nat, a: nat)
    requires Cutting(t, tt, d, x) && x < |t.nodes| && IsHead(t.nodes, t.sh, x) && Abreast(t, d, x, i, j)
    requires i < |t.nodes[d].mklist| && j < a < |t.sh.chain[x]| && DemotedAt(t, d, x, a)
    requires t.nodes[d].mklist[i] == EntryOf(t.nodes, t.sh.chain[x][a])
    ensures !DemotedAt(t, d, x, j)
  {
    if DemotedAt(t, d, x, j) {
      var l, s := t.nodes[d].mklist, t.sh.chain[x];
      DemotedListed(t, tt, d, x, j);
      var q :| 0 <= q < |l| && l[q] == EntryOf(t.nodes, s[j]);
      MembersApart(t, d, x, j, a);
      Neighbours(t, tt, d, x);
      assert ListOk(t, {tt}, d);
      if q < i {
        assert FromMember(t, d, x, l[q], 0, j);
        var b :| 0 <= b < j && DemotedAt(t, d, x, b) && l[q] == EntryOf(t.nodes, s[b]);
        MembersApart(t, d, x, b, j);
      }
      assert false;
    }
  }

  lemma AbreastStep(t: Table, tt: Ptr, d: Ptr, x: Ptr, i: nat, j: nat)
    requires Cutting(t, tt, d, x) && x < |t.nodes| && IsHead(t.nodes, t.sh, x) && Abreast(t, d, x, i, j)
    requires i < |t.nodes[d].mklist| && j < |t.sh.chain[x]|
    ensures Abreast(t, d, x, if DemotedAt(t, d, x, j) then i + 1 else i, j + 1)
  {
    var l, n := t.nodes[d].mklist, j + 1;
    var i' := if DemotedAt(t, d, x, j) then i + 1 else i;
    NextEntry(t, tt, d, x, i, j);
    forall q | 0 <= q < i' ensures FromMember(t, d, x, l[q], 0, n) {
      if q < i { EarlierMember(t, d, x, l[q], j); } else { assert 0 <= j < n && DemotedAt(t, d, x, j); }
    }
    forall q | i' <= q < |l| ensures FromMember(t, d, x, l[q], n, |t.sh.chain[x]|) {
      LaterMember(t, tt, d, x, i, j, q);
    }
  }

  /** An entry that member j does not have is from a later member. */
  lemma LaterMember(t: Table, tt: Ptr, d: Ptr, x: Ptr, i: nat, j: nat, q: nat)
    requires Cutting(t, tt, d, x) && x < |t.nodes| && IsHead(t.nodes, t.sh, x) && Abreast(t, d, x, i, j)
    requires i <= q < |t.nodes[d].mklist| && j < |t.sh.chain[x]|
    requires DemotedAt(t, d, x, j) ==> i < q && EntryOf(t.nodes, t.sh.chain[x][j]) == t.nodes[d].mklist[i]
    ensures FromMember(t, d, x, t.nodes[d].mklist[q], j + 1, |t.sh.chain[x]|)
  {
    var l, s := t.nodes[d].mklist, t.sh.chain[x];
    Neighbours(t, tt, d, x);
    assert ListOk(t, {tt}, d);
    assert FromMember(t, d, x, l[q], j, |s|);
    var a :| j <= a < |s| && DemotedAt(t, d, x, a) && l[q] == EntryOf(t.nodes, s[a]);
    assert a != j;
  }

  lemma EarlierMember(t: Table, d: Ptr, x: Ptr, e: MaskEntry, j: nat)
    requires Sized(t.nodes, t.sh) && x < |t.nodes| && FromMember(t, d, x, e, 0, j)
    ensures FromMember(t, d, x, e, 0, j + 1)
  {
    var n := j + 1;
    var a :| 0 <= a < j && DemotedAt(t, d, x, a) && e == EntryOf(t.nodes, t.sh.chain[x][a]);
    assert 0 <= a < n && DemotedAt(t, d, x, a);
  }

  /** Once the list is used up, no later member is demoted. */
  lemma NoneLeft(t: Table, tt: Ptr, d: Ptr, x: Ptr, j: nat, a: nat)
    requires Cutting(t, tt, d, x) && x < |t.nodes| && IsHead(t.nodes, t.sh, x)
    requires Abreast(t, d, x, |t.nodes[d].mklist|, j) && j <= a
    ensures !DemotedAt(t, d, x, a)
  {
    if DemotedAt(t, d, x, a) {
      var l, s := t.nodes[d].mklist, t.sh.chain[x];
      DemotedListed(t, tt, d, x, a);
      var q :| 0 <= q < |l| && l[q] == EntryOf(t.nodes, s[a]);
      assert FromMember(t, d, x, l[q], 0, j);
      var b :| 0 <= b < j && DemotedAt(t, d, x, b) && l[q] == EntryOf(t.nodes, s[b]);
      MembersApart(t, d, x, b, a);
      assert false;
    }
  }

  /** Cell c after the first j members were looked at. */
  ghost predicate CellFreed(t: Table, d: Ptr, x: Ptr, m: seq<Node>, r: seq<Node>, j: nat, c: Ptr)
    requires Sized(t.nodes, t.sh) && x < |t.nodes| && |r| == |m|
  {
    c < |m| ==>
      if exists a :: 0 <= a < j && DemotedAt(t, d, x, a) && t.sh.chain[x][a] == c
      then m[c].Leaf? && r[c] == m[c].(lifted := false) else r[c] == m[c]
  }

  ghost predicate CellsFreed(t: Table, d: Ptr, x: Ptr, m: seq<Node>, r: seq<Node>, j: nat)
    requires Sized(t.nodes, t.sh) && x < |t.nodes|
  {
    |r| == |m| == |t.nodes| && forall c: Ptr {:trigger CellFreed(t, d, x, m, r, j, c)} :: CellFreed(t, d, x, m, r, j, c)
  }

  /** m has the leaves of the chain at x as t has them, but for the parent of x. */
  ghost predicate SameChainCells(t: Table, x: Ptr, m: seq<Node>)
    requires Sized(t.nodes, t.sh) && x < |t.nodes| && |m| == |t.nodes|
  {
    forall k: Ptr {:trigger m[k]} :: IsLeaf(t.nodes, t.sh, k) && k in t.sh.under[x] ==>
        m[k].Leaf? && m[k] == t.nodes[k].(parent := m[k].parent)
  }

  lemma MemberAhead(t: Table, d: Ptr, x: Ptr, m: seq<Node>, r: seq<Node>, j: nat)
    requires TreeInv(t.nodes, t.sh) && x < |t.nodes| && IsHead(t.nodes, t.sh, x) && j < |t.sh.chain[x]|
    requires |m| == |t.nodes| && SameChainCells(t, x, m) && CellsFreed(t, d, x, m, r, j)
    ensures var s := t.sh.chain[x]; var k := s[j];
      && 0 < k < |r| && IsLeaf(t.nodes, t.sh, k) && m[k].Leaf? && r[k] == m[k] && EntryOf(r, k) == EntryOf(t.nodes, k)
      && r[k].lifted == t.nodes[k].lifted && r[k].dup == (if j + 1 < |s| then s[j + 1] else 0)
  {
    assert HeadOk(t.nodes, t.sh, x) && Member(t.nodes, t.sh, x, j);
    var k := t.sh.chain[x][j];
    assert CellFreed(t, d, x, m, r, j, k);
    assert k in t.sh.under[x] && m[k] == m[k];
  }

  lemma CellsFreedStep(t: Table, d: Ptr, x: Ptr, m: seq<Node>, r: seq<Node>, j: nat, r': seq<Node>)
    requires TreeInv(t.nodes, t.sh) && x < |t.nodes| && IsHead(t.nodes, t.sh, x) && j < |t.sh.chain[x]|
    requires |m| == |t.nodes| && SameChainCells(t, x, m) && CellsFreed(t, d, x, m, r, j)
    requires t.sh.chain[x][j] < |r| && r[t.sh.chain[x][j]].Leaf?
    requires var k := t.sh.chain[x][j]; r' == if DemotedAt(t, d, x, j) then r[k := r[k].(lifted := false)] else r
    ensures CellsFreed(t, d, x, m, r', j + 1)
  {
    MemberAhead(t, d, x, m, r, j);
    var n := j + 1;
    forall c: Ptr ensures CellFreed(t, d, x, m, r', n, c) {
      assert CellFreed(t, d, x, m, r, j, c);
      if DemotedAt(t, d, x, j) && t.sh.chain[x][j] == c { assert 0 <= j < n && DemotedAt(t, d, x, j); }
    }
  }

  /** Members past the end of the list need no look. */
  lemma CellsFreedAll(t: Table, tt: Ptr, d: Ptr, x: Ptr, m: seq<Node>, r: seq<Node>, j: nat)
    requires Cutting(t, tt, d, x) && x < |t.nodes| && IsHead(t.nodes, t.sh, x)
    requires Abreast(t, d, x, |t.nodes[d].mklist|, j) && CellsFreed(t, d, x, m, r, j)
    ensures CellsFreed(t, d, x, m, r, |t.sh.chain[x]|)
  {
    var n := |t.sh.chain[x]|;
    forall c: Ptr ensures CellFreed(t, d, x, m, r, n, c) {
      assert CellFreed(t, d, x, m, r, j, c);
      forall a | j <= a < n ensures !DemotedAt(t, d, x, a) { NoneLeft(t, tt, d, x, j, a); }
    }
  }

  /** One turn of the loop: the test on member j tells whether it is demoted. */
  lemma DemoteStep(t: Table, tt: Ptr, d: Ptr, x: Ptr, m: seq<Node>, r: seq<Node>, i: nat, j: nat)
    requires Cutting(t, tt, d, x) && x < |t.nodes| && IsHead(t.nodes, t.sh, x) && |m| == |t.nodes|
    requires SameChainCells(t, x, m) && Abreast(t, d, x, i, j) && CellsFreed(t, d, x, m, r, j)
    requires i < |t.nodes[d].mklist| && j < |t.sh.chain[x]|
    ensures var s := t.sh.chain[x]; var k := s[j];
      && 0 < k < |r| && r[k].Leaf? && r[k].dup == (if j + 1 < |s| then s[j + 1] else 0)
      && if r[k].lifted && EntryOf(r, k) == t.nodes[d].mklist[i]
         then Abreast(t, d, x, i + 1, j + 1) && CellsFreed(t, d, x, m, r[k := r[k].(lifted := false)], j + 1)
         else Abreast(t, d, x, i, j + 1) && CellsFreed(t, d, x, m, r, j + 1)
  {
    MemberAhead(t, d, x, m, r, j);
    NextEntry(t, tt, d, x, i, j);
    AbreastStep(t, tt, d, x, i, j);
    var k := t.sh.chain[x][j];
    CellsFreedStep(t, d, x, m, r, j, if DemotedAt(t, d, x, j) then r[k := r[k].(lifted := false)] else r);
  }

  method DemoteOne(r: seq<Node>, l: seq<MaskEntry>, i: nat, k: Ptr) returns (r': seq<Node>, i': nat, next: Ptr)
    requires k < |r| && r[k].Leaf? && i < |l|
    ensures if r[k].lifted && EntryOf(r, k) == l[i]
            then r' == r[k := r[k].(lifted := false)] && i' == i + 1 else r' == r && i' == i
    ensures next == r[k].dup
  {
    r', i', next := r, i, r[k].dup;
    if r[k].lifted && EntryOf(r, k) == l[i] {
      r', i' := r[k := r[k].(lifted := false)], i + 1;
    }
  }

  /** The loop over a sibling chain: every entry of the list is met, so none is orphaned. */
  method DemoteChain(m: seq<Node>, ghost t: Table, ghost tt: Ptr, d: Ptr, x: Ptr) returns (r: seq<Node>, left: nat)
    requires Cutting(t, tt, d, x) && x < |t.nodes| && IsHead(t.nodes, t.sh, x) && |m| == |t.nodes|
    requires SameChainCells(t, x, m) && m[d].Inner? && m[d].mklist == t.nodes[d].mklist
    ensures CellsFreed(t, d, x, m, r, |t.sh.chain[x]|) && left == 0
  {
    r := m;
    var l, k := m[d].mklist, x;
    var i: nat := 0;
    ghost var s, j := t.sh.chain[x], 0;
    assert HeadOk(t.nodes, t.sh, x);
    AbreastStart(t, tt, d, x);
    while i < |l| && k != 0
      invariant Abreast(t, d, x, i, j) && CellsFreed(t, d, x, m, r, j)
      invariant k == if j < |s| then s[j] else 0
      decreases |s| - j
    {
      DemoteStep(t, tt, d, x, m, r, i, j);
      r, i, k := DemoteOne(r, l, i, k);
      j := j + 1;
    }
    ListUsedUp(t, tt, d, x, m, r, i, j, k);
    left := |l| - i;
  }

  /** The loop ends with the list used up and every demoted member met. */
  lemma ListUsedUp(t: Table, tt: Ptr, d: Ptr, x: Ptr, m: seq<Node>, r: seq<Node>, i: nat, j: nat, k: Ptr)
    requires Cutting(t, tt, d, x) && x < |t.nodes| && IsHead(t.nodes, t.sh, x) && |m| == |t.nodes|
    requires Abreast(t, d, x, i, j) && SameChainCells(t, x, m) && CellsFreed(t, d, x, m, r, j)
    requires (i >= |t.nodes[d].mklist| || k == 0) && k == if j < |t.sh.chain[x]| then t.sh.chain[x][j] else 0
    ensures i == |t.nodes[d].mklist| && CellsFreed(t, d, x, m, r, |t.sh.chain[x]|)
  {
    if j < |t.sh.chain[x]| { MemberAhead(t, d, x, m, r, j); }
    assert i < |t.nodes[d].mklist| ==> FromMember(t, d, x, t.nodes[d].mklist[i], j, |t.sh.chain[x]|);
    CellsFreedAll(t, tt, d, x, m, r, j);
  }
}
