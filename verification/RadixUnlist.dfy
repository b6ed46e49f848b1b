/** The first step of rn_delete: the mask list entry of the leaf that goes. */
module RadixUnlist {

  import opened RadixTree
  import opened RadixRoute
  import opened RadixLift
  import opened RadixRegrow

  /** Everything is in place, and leaf k has no mask list entry any more. */
  ghost predicate LeavingInv(t: Table, k: Ptr) {
    && TreesOk(t) && IsLeaf(t.nodes, t.sh, k)
    && (forall n: Ptr {:trigger ListOk(t, {k}, n)} :: ListOk(t, {k}, n))
    && (forall h: Ptr, j: Ptr {:trigger LiftOk(t, h, j)} :: j != k ==> LiftOk(t, h, j))
  }

  /** A list without an entry of leaf k. */
  lemma NotListed(t: Table, k: Ptr, n: Ptr)
    requires Sized(t.nodes, t.sh) && ListOk(t, {}, n) && !Belongs(t.nodes, t.sh, n, k)
    ensures ListOk(t, {k}, n)
  {
    if IsInner(t.nodes, t.sh, n) {
      forall e | e in t.nodes[n].mklist ensures EntryFrom(t, {k}, n, e) {
        var j: Ptr :| j !in {} && Belongs(t.nodes, t.sh, n, j) && e == EntryOf(t.nodes, j);
        assert j !in {k};
      }
    }
  }

  /** A leaf that was never lifted has no entry. */
  lemma NeverListed(t: Table, h: Ptr, k: Ptr)
    requires RouteInv(t) && IsHead(t.nodes, t.sh, h) && k in t.sh.under[h] && IsLeaf(t.nodes, t.sh, k)
    requires t.nodes[k].mask == 0 || !t.nodes[k].lifted
    ensures LeavingInv(t, k)
  {
    assert LiftOk(t, h, k);
    forall n: Ptr ensures ListOk(t, {k}, n) {
      assert ListOk(t, {}, n);
      if Belongs(t.nodes, t.sh, n, k) { Deepest(t.nodes, t.sh, n, h, k); }
      NotListed(t, k, n);
    }
  }

  /** The list of y without its entry i. */
  function Unlisted(t: Table, y: Ptr, i: nat): Table
    requires y < |t.nodes| && t.nodes[y].Inner? && i < |t.nodes[y].mklist|
  {
    t.(nodes := t.nodes[y := t.nodes[y].(mklist := Without(t.nodes[y].mklist, i))])
  }

  ghost predicate ListedAt(t: Table, h: Ptr, y: Ptr, i: nat, k: Ptr) {
    && RouteInv(t) && IsHead(t.nodes, t.sh, h) && k in t.sh.under[h] && Belongs(t.nodes, t.sh, y, k)
    && i < |t.nodes[y].mklist| && t.nodes[y].mklist[i] == EntryOf(t.nodes, k)
  }

  lemma UnlistedLabels(t: Table, h: Ptr, y: Ptr, i: nat, k: Ptr)
    requires ListedAt(t, h, y, i, k)
    ensures Relisted(t, Unlisted(t, y, i)) && TreesOk(Unlisted(t, y, i))
  {
    RelistedTrees(t, Unlisted(t, y, i));
  }

  /** No other entry of the list has the same index. */
  lemma OnlyEntry(t: Table, h: Ptr, y: Ptr, i: nat, k: Ptr, j: Ptr)
    requires ListedAt(t, h, y, i, k) && Belongs(t.nodes, t.sh, y, j) && j != k
    ensures EntryOf(t.nodes, j) != t.nodes[y].mklist[i]
  {
    if EntryOf(t.nodes, j) == t.nodes[y].mklist[i] { NoRival(t, h, y, j, k); }
  }

  /** An entry that stays is not from leaf k. */
  lemma UnlistedEntry(t: Table, h: Ptr, y: Ptr, i: nat, k: Ptr, e: MaskEntry)
    requires ListedAt(t, h, y, i, k) && e in Unlisted(t, y, i).nodes[y].mklist
    ensures Sized(Unlisted(t, y, i).nodes, t.sh) && EntryFrom(Unlisted(t, y, i), {k}, y, e)
  {
    var u, l := Unlisted(t, y, i), t.nodes[y].mklist;
    UnlistedLabels(t, h, y, i, k);
    assert ListOk(t, {}, y);
    WithoutKeeps(l, i, e);
    var q :| 0 <= q < |l| && q != i && l[q] == e;
    assert e != l[i];
    assert EntryFrom(t, {}, y, e);
    var j: Ptr :| j !in {} && Belongs(t.nodes, t.sh, y, j) && e == EntryOf(t.nodes, j);
    RelistedBelongs(t, u, y, j);
    assert j !in {k};
  }

  lemma UnlistedAtY(t: Table, h: Ptr, y: Ptr, i: nat, k: Ptr)
    requires ListedAt(t, h, y, i, k)
    ensures Sized(Unlisted(t, y, i).nodes, t.sh) && ListOk(Unlisted(t, y, i), {k}, y)
  {
    var u := Unlisted(t, y, i);
    UnlistedLabels(t, h, y, i, k);
    assert ListOk(t, {}, y);
    var l, r := t.nodes[y].mklist, u.nodes[y].mklist;
    forall e | e in r ensures EntryFrom(u, {k}, y, e) {
      UnlistedEntry(t, h, y, i, k, e);
    }
    forall j: Ptr | j !in {k} && Belongs(u.nodes, u.sh, y, j) ensures EntryOf(u.nodes, j) in r {
      RelistedBelongs(t, u, y, j);
      OnlyEntry(t, h, y, i, k, j);
      WithoutKeeps(l, i, EntryOf(t.nodes, j));
    }
  }

  lemma UnlistedElsewhere(t: Table, h: Ptr, y: Ptr, i: nat, k: Ptr, n: Ptr)
    requires ListedAt(t, h, y, i, k) && n != y
    ensures Sized(Unlisted(t, y, i).nodes, t.sh) && ListOk(Unlisted(t, y, i), {k}, n)
  {
    UnlistedLabels(t, h, y, i, k);
    assert ListOk(t, {}, n);
    if Belongs(t.nodes, t.sh, n, k) { SameNode(t.nodes, t.sh, n, y, k); }
    NotListed(t, k, n);
    RelistedList(t, Unlisted(t, y, i), {k}, n);
  }

  lemma UnlistedLift(t: Table, h: Ptr, y: Ptr, i: nat, k: Ptr, g: Ptr, j: Ptr)
    requires ListedAt(t, h, y, i, k)
    ensures Sized(Unlisted(t, y, i).nodes, t.sh) && LiftOk(Unlisted(t, y, i), g, j)
  {
    var u := Unlisted(t, y, i);
    UnlistedLabels(t, h, y, i, k);
    assert LiftOk(t, g, j);
    if IsHead(u.nodes, u.sh, g) && IsLeaf(u.nodes, u.sh, j) && j in u.sh.under[g] {
      assert SameLabels(t.nodes[g], u.nodes[g]) && SameLabels(t.nodes[j], u.nodes[j]);
      Above(t.nodes, t.sh, g);
      assert SameLabels(t.nodes[t.nodes[g].parent], u.nodes[t.nodes[g].parent]);
    }
  }

  /** With its entry gone, the leaf is ready to leave. */
  lemma UnlistedInv(t: Table, h: Ptr, y: Ptr, i: nat, k: Ptr)
    requires ListedAt(t, h, y, i, k)
    ensures LeavingInv(Unlisted(t, y, i), k)
  {
    var u := Unlisted(t, y, i);
    UnlistedLabels(t, h, y, i, k);
    assert SameLabels(t.nodes[k], u.nodes[k]);
    forall n: Ptr ensures ListOk(u, {k}, n) {
      if n == y { UnlistedAtY(t, h, y, i, k); } else { UnlistedElsewhere(t, h, y, i, k, n); }
    }
    forall g: Ptr, j: Ptr | j != k ensures LiftOk(u, g, j) { UnlistedLift(t, h, y, i, k, g, j); }
  }
}
