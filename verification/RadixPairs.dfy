/**
 The cells of a route come in pairs, as rn_addroute gets them: cell k is the leaf, and cell k + 1
 may be an inner node somewhere in the tree, whichever route of the key brought it there.
 */
module RadixPairs {

  import opened RadixTree
  import opened RadixInsert
  import opened RadixRoute
  import opened RadixChain
  import opened RadixLift

  /** The second cell of route k is an inner node. RNF_ACTIVE of that cell says so. */
  ghost predicate Holds(t: Table, k: Ptr)
    requires Sized(t.nodes, t.sh)
  {
    IsRoute(t, k) && IsInner(t.nodes, t.sh, k + 1)
  }

  /** The second cell of a route is an inner node or unused. */
  ghost predicate PairOk(t: Table, k: Ptr)
    requires Sized(t.nodes, t.sh)
  {
    IsRoute(t, k) ==>
      && k + 1 != t.sh.top
      && (IsInner(t.nodes, t.sh, k + 1) || (Unused(t.nodes, t.sh, k + 1) && !t.nodes[k + 1].Inner?))
  }

  /** Every inner node but the top is the second cell of a route. */
  ghost predicate TwinOk(t: Table, n: Ptr)
    requires Sized(t.nodes, t.sh)
  {
    IsInner(t.nodes, t.sh, n) && n != t.sh.top ==> IsRoute(t, n - 1)
  }

  ghost predicate HasRoot(t: Table, h: Ptr)
    requires Sized(t.nodes, t.sh) && h < |t.nodes|
  {
    1 in t.sh.under[h] || 3 in t.sh.under[h]
  }

  /** One route of every key holds an inner node, and none if the key has a root leaf. */
  ghost predicate OneHolds(t: Table, h: Ptr)
    requires Sized(t.nodes, t.sh)
  {
    IsHead(t.nodes, t.sh, h) ==>
      && (forall j: Ptr, k: Ptr :: j in t.sh.under[h] && k in t.sh.under[h] && Holds(t, j) && Holds(t, k) ==> j == k)
      && ((exists k: Ptr :: k in t.sh.under[h] && Holds(t, k)) <==> !HasRoot(t, h))
  }

  ghost predicate PairsInv(t: Table) {
    && TreeInv(t.nodes, t.sh)
    && (forall k: Ptr {:trigger PairOk(t, k)} :: PairOk(t, k))
    && (forall n: Ptr {:trigger TwinOk(t, n)} :: TwinOk(t, n))
    && (forall h: Ptr {:trigger OneHolds(t, h)} :: OneHolds(t, h))
  }

  /** A pair of cells for a new route: both unused, and no second cell of another route among them. */
  ghost predicate Spare(t: Table, c: Ptr)
    requires Sized(t.nodes, t.sh)
  {
    && Unused(t.nodes, t.sh, c) && Unused(t.nodes, t.sh, c + 1) && !t.nodes[c + 1].Inner?
    && !IsRoute(t, c - 1)
  }

  /** Cells other than those of route k stay unused, and so do pairs of them. */
  ghost predicate KeepsCells(t: Table, u: Table, k: Ptr) {
    && Sized(t.nodes, t.sh) && Sized(u.nodes, u.sh)
    && (forall c: Ptr :: Unused(t.nodes, t.sh, c) && c != k && c != k + 1 ==> Unused(u.nodes, u.sh, c))
    && (forall c: Ptr :: Spare(t, c) && (c + 1 < k || k + 1 < c) ==> Spare(u, c))
  }

  // ---------- a route comes ----------

  /** What the cells are after route k came; its second cell is an inner node if `alone`. */
  ghost predicate Arrival(t: Table, u: Table, k: Ptr, alone: bool, c: Ptr)
    requires Sized(t.nodes, t.sh) && Sized(u.nodes, u.sh) && |u.nodes| == |t.nodes|
  {
    && (IsRoute(u, c) <==> IsRoute(t, c) || c == k)
    && (IsInner(u.nodes, u.sh, c) <==> IsInner(t.nodes, t.sh, c) || (alone && c == k + 1))
    && (Unused(t.nodes, t.sh, c) && c != k && !(alone && c == k + 1) ==>
        Unused(u.nodes, u.sh, c) && u.nodes[c] == t.nodes[c])
  }

  /** The leaves of chain h: those of a chain before, with or without k, or k alone if `alone`. */
  ghost predicate ArrivalHead(t: Table, u: Table, k: Ptr, alone: bool, h: Ptr)
    requires Sized(t.nodes, t.sh) && Sized(u.nodes, u.sh)
  {
    IsHead(u.nodes, u.sh, h) ==>
      if alone && h == k then u.sh.under[h] == {k}
      else exists g: Ptr ::
        IsHead(t.nodes, t.sh, g)
        && (u.sh.under[h] == t.sh.under[g] || (!alone && u.sh.under[h] == t.sh.under[g] + {k}))
  }

  ghost predicate Arrived(t: Table, u: Table, k: Ptr, alone: bool) {
    && PairsInv(t) && TreeInv(u.nodes, u.sh) && |u.nodes| == |t.nodes| && u.sh.top == t.sh.top
    && Spare(t, k) && k != 1 && k != 3
    && (forall c: Ptr {:trigger Arrival(t, u, k, alone, c)} :: Arrival(t, u, k, alone, c))
    && (forall h: Ptr {:trigger ArrivalHead(t, u, k, alone, h)} :: ArrivalHead(t, u, k, alone, h))
  }

  lemma ArrivedHolds(t: Table, u: Table, k: Ptr, alone: bool, j: Ptr)
    requires Arrived(t, u, k, alone)
    ensures Holds(u, j) <==> if j == k then alone else Holds(t, j)
  {
    assert Arrival(t, u, k, alone, j) && Arrival(t, u, k, alone, j + 1);
  }

  lemma ArrivedPair(t: Table, u: Table, k: Ptr, alone: bool, j: Ptr)
    requires Arrived(t, u, k, alone)
    ensures PairOk(u, j)
  {
    assert PairOk(t, j) && Arrival(t, u, k, alone, j) && Arrival(t, u, k, alone, j + 1);
  }

  lemma ArrivedTwin(t: Table, u: Table, k: Ptr, alone: bool, n: Ptr)
    requires Arrived(t, u, k, alone)
    ensures TwinOk(u, n)
  {
    if IsInner(u.nodes, u.sh, n) && n != u.sh.top {
      assert TwinOk(t, n) && Arrival(t, u, k, alone, n) && Arrival(t, u, k, alone, n - 1);
    }
  }

  lemma ArrivedOne(t: Table, u: Table, k: Ptr, alone: bool, h: Ptr)
    requires Arrived(t, u, k, alone)
    ensures OneHolds(u, h)
  {
    if IsHead(u.nodes, u.sh, h) {
      assert ArrivalHead(t, u, k, alone, h);
      ArrivedHolds(t, u, k, alone, k);
      if alone && h == k {
        assert k in u.sh.under[h] && Holds(u, k);
      } else {
        var g: Ptr :| IsHead(t.nodes, t.sh, g)
          && (u.sh.under[h] == t.sh.under[g] || (!alone && u.sh.under[h] == t.sh.under[g] + {k}));
        assert OneHolds(t, g);
        SameHolds(t, u, k, alone, g, h);
      }
    }
  }

  lemma SameHolds(t: Table, u: Table, k: Ptr, alone: bool, g: Ptr, h: Ptr)
    requires Arrived(t, u, k, alone) && IsHead(t.nodes, t.sh, g) && IsHead(u.nodes, u.sh, h) && OneHolds(t, g)
    requires u.sh.under[h] == t.sh.under[g] || (!alone && u.sh.under[h] == t.sh.under[g] + {k})
    ensures OneHolds(u, h)
  {
    forall j: Ptr ensures j in u.sh.under[h] && Holds(u, j) <==> j in t.sh.under[g] && Holds(t, j) {
      ArrivedHolds(t, u, k, alone, j);
      assert k !in t.sh.under[g];
      assert j == k ==> !Holds(t, j);
    }
    if !HasRoot(t, g) {
      var j: Ptr :| j in t.sh.under[g] && Holds(t, j);
      assert j in u.sh.under[h] && Holds(u, j);
    }
  }

  /** A new route keeps the pairs, and the other spare pairs stay spare. */
  lemma ArrivedPairs(t: Table, u: Table, k: Ptr, alone: bool)
    requires Arrived(t, u, k, alone)
    ensures PairsInv(u) && KeepsCells(t, u, k)
  {
    forall j: Ptr ensures PairOk(u, j) { ArrivedPair(t, u, k, alone, j); }
    forall n: Ptr ensures TwinOk(u, n) { ArrivedTwin(t, u, k, alone, n); }
    forall h: Ptr ensures OneHolds(u, h) { ArrivedOne(t, u, k, alone, h); }
    forall c: Ptr | Unused(t.nodes, t.sh, c) && c != k && c != k + 1 ensures Unused(u.nodes, u.sh, c) {
      assert Arrival(t, u, k, alone, c);
    }
    forall c: Ptr | Spare(t, c) && (c + 1 < k || k + 1 < c) ensures Spare(u, c) {
      assert Arrival(t, u, k, alone, c) && Arrival(t, u, k, alone, c + 1) && Arrival(t, u, k, alone, c - 1);
    }
  }

  // ---------- a route goes ----------

  /** What the cells are after route k went; if it held a node, that is now held by f, or gone if f is null. */
  ghost predicate Departure(t: Table, u: Table, k: Ptr, f: Ptr, c: Ptr)
    requires Sized(t.nodes, t.sh) && Sized(u.nodes, u.sh) && |u.nodes| == |t.nodes|
  {
    && (IsRoute(u, c) <==> IsRoute(t, c) && c != k)
    && (IsInner(u.nodes, u.sh, c) <==> (IsInner(t.nodes, t.sh, c) && c != k + 1) || (f != 0 && c == f + 1))
    && (Unused(t.nodes, t.sh, c) && !(f != 0 && c == f + 1) ==>
        Unused(u.nodes, u.sh, c) && (t.nodes[c].Inner? || !u.nodes[c].Inner?))
  }

  ghost predicate DepartureHead(t: Table, u: Table, k: Ptr, h: Ptr)
    requires Sized(t.nodes, t.sh) && Sized(u.nodes, u.sh)
  {
    IsHead(u.nodes, u.sh, h) ==> exists g: Ptr :: IsHead(t.nodes, t.sh, g) && u.sh.under[h] == t.sh.under[g] - {k}
  }

  /** Route k went from the chain at h. */
  ghost predicate Departed(t: Table, u: Table, h: Ptr, k: Ptr, f: Ptr) {
    && PairsInv(t) && TreeInv(u.nodes, u.sh) && |u.nodes| == |t.nodes| && u.sh.top == t.sh.top
    && IsHead(t.nodes, t.sh, h) && IsRoute(t, k) && k in t.sh.under[h] && k != 1 && k != 3
    && Unused(u.nodes, u.sh, k) && Unused(u.nodes, u.sh, k + 1)
    && (if f != 0 then f in t.sh.under[h] && f != k && IsRoute(t, f) && Holds(t, k)
        else Holds(t, k) ==> t.sh.under[h] == {k})
    && (forall c: Ptr {:trigger Departure(t, u, k, f, c)} :: Departure(t, u, k, f, c))
    && (forall g: Ptr {:trigger DepartureHead(t, u, k, g)} :: DepartureHead(t, u, k, g))
  }

  lemma DepartedHolds(t: Table, u: Table, h: Ptr, k: Ptr, f: Ptr, j: Ptr)
    requires Departed(t, u, h, k, f)
    ensures Holds(u, j) <==> j != k && (Holds(t, j) || (f != 0 && j == f))
  {
    assert Departure(t, u, k, f, j) && Departure(t, u, k, f, j + 1);
  }

  lemma DepartedPair(t: Table, u: Table, h: Ptr, k: Ptr, f: Ptr, j: Ptr)
    requires Departed(t, u, h, k, f)
    ensures PairOk(u, j)
  {
    assert PairOk(t, j) && Departure(t, u, k, f, j) && Departure(t, u, k, f, j + 1);
  }

  lemma DepartedTwin(t: Table, u: Table, h: Ptr, k: Ptr, f: Ptr, n: Ptr)
    requires Departed(t, u, h, k, f)
    ensures TwinOk(u, n)
  {
    if IsInner(u.nodes, u.sh, n) && n != u.sh.top {
      assert TwinOk(t, n) && Departure(t, u, k, f, n) && Departure(t, u, k, f, n - 1);
    }
  }

  /** Chains that k was not in are as they were. */
  lemma DepartedElsewhere(t: Table, u: Table, h: Ptr, k: Ptr, f: Ptr, g: Ptr, g': Ptr)
    requires Departed(t, u, h, k, f) && IsHead(t.nodes, t.sh, g) && IsHead(u.nodes, u.sh, g') && g != h
    requires u.sh.under[g'] == t.sh.under[g] - {k}
    ensures OneHolds(u, g')
  {
    assert OneHolds(t, g) && HeadOk(t.nodes, t.sh, g) && HeadOk(t.nodes, t.sh, h);
    ChainsApart(t.nodes, t.sh, g, h, k);
    if f != 0 { ChainsApart(t.nodes, t.sh, g, h, f); }
    forall j: Ptr | j in t.sh.under[g] ensures Holds(u, j) <==> Holds(t, j) { DepartedHolds(t, u, h, k, f, j); }
    if !HasRoot(t, g) {
      var j: Ptr :| j in t.sh.under[g] && Holds(t, j);
      assert j in u.sh.under[g'] && Holds(u, j);
    }
  }

  /** In the chain that k was in, the node it held has a new holder. */
  lemma DepartedHere(t: Table, u: Table, h: Ptr, k: Ptr, f: Ptr, g': Ptr)
    requires Departed(t, u, h, k, f) && IsHead(u.nodes, u.sh, g') && u.sh.under[g'] == t.sh.under[h] - {k}
    ensures OneHolds(u, g')
  {
    assert OneHolds(t, h);
    assert f == 0 ==> !Holds(t, k);
    forall j: Ptr | j in u.sh.under[g'] ensures Holds(u, j) <==> if f != 0 then j == f else Holds(t, j) {
      DepartedHolds(t, u, h, k, f, j);
      assert f != 0 && Holds(t, j) ==> j == k;
    }
    if f != 0 {
      assert f in u.sh.under[g'] && Holds(u, f);
    } else if !HasRoot(t, h) {
      var j: Ptr :| j in t.sh.under[h] && Holds(t, j);
      assert j in u.sh.under[g'] && Holds(u, j);
    }
  }

  /** A route that goes keeps the pairs; its own pair becomes spare, and spare pairs stay spare. */
  lemma DepartedPairs(t: Table, u: Table, h: Ptr, k: Ptr, f: Ptr)
    requires Departed(t, u, h, k, f) && !u.nodes[k + 1].Inner?
    ensures PairsInv(u) && Spare(u, k) && forall c: Ptr :: Spare(t, c) ==> Spare(u, c)
  {
    forall j: Ptr ensures PairOk(u, j) { DepartedPair(t, u, h, k, f, j); }
    forall n: Ptr ensures TwinOk(u, n) { DepartedTwin(t, u, h, k, f, n); }
    forall g': Ptr ensures OneHolds(u, g') {
      if IsHead(u.nodes, u.sh, g') {
        assert DepartureHead(t, u, k, g');
        var g: Ptr :| IsHead(t.nodes, t.sh, g) && u.sh.under[g'] == t.sh.under[g] - {k};
        if g == h { DepartedHere(t, u, h, k, f, g'); } else { DepartedElsewhere(t, u, h, k, f, g, g'); }
      }
    }
    DepartedSpare(t, u, h, k, f);
  }

  lemma DepartedSpare(t: Table, u: Table, h: Ptr, k: Ptr, f: Ptr)
    requires Departed(t, u, h, k, f) && !u.nodes[k + 1].Inner?
    ensures Spare(u, k) && forall c: Ptr :: Spare(t, c) ==> Spare(u, c)
  {
    assert Departure(t, u, k, f, k - 1) && PairOk(t, k - 1);
    forall c: Ptr | Spare(t, c) ensures Spare(u, c) {
      assert Departure(t, u, k, f, c) && Departure(t, u, k, f, c + 1) && Departure(t, u, k, f, c - 1);
    }
  }

  // ---------- neither ----------

  ghost predicate SameKind(t: Table, u: Table, c: Ptr)
    requires Sized(t.nodes, t.sh) && Sized(u.nodes, u.sh) && u.sh == t.sh && |u.nodes| == |t.nodes|
  {
    && (IsRoute(u, c) <==> IsRoute(t, c)) && (IsInner(u.nodes, u.sh, c) <==> IsInner(t.nodes, t.sh, c))
    && (IsHead(u.nodes, u.sh, c) <==> IsHead(t.nodes, t.sh, c))
    && (c < |t.nodes| ==> (u.nodes[c].Inner? <==> t.nodes[c].Inner?))
  }

  lemma SameKindOne(t: Table, u: Table, h: Ptr)
    requires PairsInv(t) && Sized(u.nodes, u.sh) && u.sh == t.sh && |u.nodes| == |t.nodes|
    requires forall c: Ptr {:trigger SameKind(t, u, c)} :: SameKind(t, u, c)
    ensures OneHolds(u, h)
  {
    assert OneHolds(t, h) && SameKind(t, u, h);
    forall k: Ptr ensures Holds(u, k) <==> Holds(t, k) { assert SameKind(t, u, k) && SameKind(t, u, k + 1); }
  }

  lemma SameKindPairs(t: Table, u: Table)
    requires PairsInv(t) && TreeInv(u.nodes, u.sh) && u.sh == t.sh && |u.nodes| == |t.nodes|
    requires forall c: Ptr {:trigger SameKind(t, u, c)} :: SameKind(t, u, c)
    ensures PairsInv(u) && forall c: Ptr :: Spare(t, c) <==> Spare(u, c)
  {
    forall k: Ptr ensures PairOk(u, k) { assert PairOk(t, k) && SameKind(t, u, k) && SameKind(t, u, k + 1); }
    forall n: Ptr ensures TwinOk(u, n) {
      assert TwinOk(t, n) && SameKind(t, u, n);
      if n > 0 { assert SameKind(t, u, n - 1); }
    }
    forall h: Ptr ensures OneHolds(u, h) { SameKindOne(t, u, h); }
    forall c: Ptr ensures Spare(t, c) <==> Spare(u, c) {
      assert SameKind(t, u, c) && SameKind(t, u, c + 1);
      if c > 0 { assert SameKind(t, u, c - 1); }
    }
  }

  /** Mask lists do not matter to the pairs. */
  lemma RelistedPairs(t: Table, u: Table)
    requires PairsInv(t) && Relisted(t, u)
    ensures PairsInv(u) && forall c: Ptr :: Spare(t, c) <==> Spare(u, c)
  {
    RelabelledInv(t.nodes, u.nodes, t.sh);
    forall c: Ptr ensures SameKind(t, u, c) { if c < |t.nodes| { assert SameLabels(t.nodes[c], u.nodes[c]); } }
    SameKindPairs(t, u);
  }

  /** Nor do the masks that are interned. */
  lemma OtherMaskPairs(t: Table, u: Table)
    requires PairsInv(t) && u == t.(masks := u.masks, maskShape := u.maskShape)
    ensures PairsInv(u) && forall c: Ptr :: Spare(t, c) <==> Spare(u, c)
  {
    forall c: Ptr ensures SameKind(t, u, c) {}
    SameKindPairs(t, u);
  }

  /** A route came, and its mask was lifted. */
  lemma ArrivedLifted(t: Table, u: Table, w: Table, k: Ptr, alone: bool)
    requires Arrived(t, u, k, alone) && Relisted(u, w)
    ensures PairsInv(w) && KeepsCells(t, w, k)
  {
    ArrivedPairs(t, u, k, alone);
    RelistedPairs(u, w);
  }
}
