/** The lookup against a plain scan of the routes, and the query on which they differ. */
module RadixScan {

  import opened RadixBits
  import opened RadixTree
  import opened RadixHead
  import opened RadixMask
  import opened RadixRoute
  import opened RadixMatch
  import opened RadixOrder
  import opened RadixLift
  import opened RadixAdd
  import opened RadixTable
  import opened Options

  /** A linear scan over a list of leaves: keep the most specific route seen so far that covers v. */
  ghost function Scan(t: Table, ks: seq<Ptr>, vb: Bits): Ptr
    requires Sized(t.nodes, t.sh) && |vb| >= t.sh.hi
  {
    if ks == [] then 0
    else
      var best := Scan(t, ks[..|ks| - 1], vb);
      var k := ks[|ks| - 1];
      if Covers(t, k, vb) && (best == 0 || !IsLeaf(t.nodes, t.sh, best)
          || Rank(t.nodes, t.sh, k) > Rank(t.nodes, t.sh, best)) then k else best
  }

  lemma {:induction false} ScanBest(t: Table, ks: seq<Ptr>, vb: Bits)
    requires TreesOk(t) && |vb| >= t.sh.hi
    ensures var r := Scan(t, ks, vb);
      if r == 0 then forall k :: k in ks ==> !Covers(t, k, vb)
      else Covers(t, r, vb) && forall k :: k in ks && Covers(t, k, vb) ==>
          Rank(t.nodes, t.sh, k) <= Rank(t.nodes, t.sh, r)
  {
    if ks != [] {
      ScanBest(t, ks[..|ks| - 1], vb);
      assert ks == ks[..|ks| - 1] + [ks[|ks| - 1]];
    }
  }

  /** No two routes of one rank cover the same query, so the answer is unique. */
  lemma AnswerUnique(t: Table, vb: Bits, p: Ptr, q: Ptr)
    requires TreesOk(t) && |vb| >= t.sh.hi && IsAnswer(t, vb, p) && IsAnswer(t, vb, q)
    ensures p == q
  {
    if p != 0 && q != 0 {
      assert LeafOk(t, p) && LeafOk(t, q);
      var h := HeadOver(t.nodes, t.sh, t.sh.top, q);
      OneLeaf(t, h, p, q);
    }
  }

  /** Whatever rn_match returns, other than for a missed query, is what the scan over all leaves returns. */
  lemma MatchIsScan(t: Table, vb: Bits, r: Ptr, ks: seq<Ptr>)
    requires TreesOk(t) && |vb| >= t.sh.hi && IsAnswer(t, vb, r) && forall k :: k in t.sh.under[t.sh.top] ==> k in ks
    ensures r == Scan(t, ks, vb)
  {
    ScanBest(t, ks, vb);
    var s := Scan(t, ks, vb);
    assert IsAnswer(t, vb, s) by {
      forall k: Ptr | Covers(t, k, vb) ensures k in ks {}
    }
    AnswerUnique(t, vb, r, s);
  }

  /** In bytes: a masked route covers v exactly when no bit that its mask selects differs. */
  lemma CoversInBytes(t: Table, k: Ptr, v: Key, vb: Bits)
    requires TreesOk(t) && IsRoute(t, k) && t.nodes[k].mask != 0 && IsBits(v, vb) && |vb| >= t.sh.hi
    ensures var m := t.nodes[k].mask;
      m < |t.masks| && t.masks[m].Leaf? && |t.masks[m].key| == MAX_KEY_LEN && t.sh.hi <= 8 * |t.nodes[k].key|
    ensures Covers(t, k, vb) <==>
      forall j :: t.sh.lo <= 8 * j < t.sh.hi ==> SameUnder(v[j], t.nodes[k].key[j], t.masks[t.nodes[k].mask].key[j])
  {
    var key, idx := t.nodes[k].key, Index(t.nodes[k].bit);
    var m, mb := RouteMask(t, k);
    assert LeafOk(t, k);
    forall j | t.sh.lo <= 8 * j < t.sh.hi
      ensures SameUnder(v[j], key[j], m[j]) <==> AgreeUpTo(vb, t.sh.bits[k], 8 * j, 8 * j + 8, idx)
    {
      ByteCovered(v, vb, key, t.sh.bits[k], m, mb, idx, j);
    }
    if forall j :: t.sh.lo <= 8 * j < t.sh.hi ==> SameUnder(v[j], key[j], m[j]) {
      forall i | t.sh.lo <= i < t.sh.hi && i < idx ensures vb[i] == t.sh.bits[k][i] {
        var j := i / 8;
        assert SameUnder(v[j], key[j], m[j]) && AgreeUpTo(vb, t.sh.bits[k], 8 * j, 8 * j + 8, idx);
      }
    }
  }

  /** The bits from lo to hi agree, as far as they are before idx. */
  ghost predicate AgreeUpTo(a: Bits, b: Bits, lo: nat, hi: nat, idx: int)
    requires hi <= |a| && hi <= |b|
  {
    forall i :: lo <= i < hi && i < idx ==> a[i] == b[i]
  }

  lemma ByteCovered(v: Key, vb: Bits, key: Key, kb: Bits, m: Key, mb: Bits, idx: int, j: nat)
    requires IsBits(v, vb) && IsBits(key, kb) && IsBits(m, mb) && IsPrefix(mb, idx) && 1 <= j < |v| && j < |key|
    requires j < |m|
    ensures 8 * j + 8 <= |vb| && 8 * j + 8 <= |kb|
    ensures SameUnder(v[j], key[j], m[j]) <==> AgreeUpTo(vb, kb, 8 * j, 8 * j + 8, idx)
  {
    var x := (v[j] ^ key[j]) & m[j];
    if forall i :: 8 * j <= i < 8 * j + 8 && i < idx ==> vb[i] == kb[i] {
      forall i | 0 <= i < 8 ensures ByteBit(x, i) == ByteBit(0, i) {
        SelectedBit(v, vb, key, kb, m, mb, idx, j, i);
      }
      ByteExt(x, 0);
    } else {
      var i :| 8 * j <= i < 8 * j + 8 && i < idx && vb[i] != kb[i];
      SelectedBit(v, vb, key, kb, m, mb, idx, j, i - 8 * j);
    }
  }

  lemma SelectedBit(v: Key, vb: Bits, key: Key, kb: Bits, m: Key, mb: Bits, idx: int, j: nat, i: nat)
    requires IsBits(v, vb) && IsBits(key, kb) && IsBits(m, mb) && IsPrefix(mb, idx) && 1 <= j < |v| && j < |key|
    requires j < |m| && i < 8
    ensures ByteBit((v[j] ^ key[j]) & m[j], i) <==> 8 * j + i < idx && vb[8 * j + i] != kb[8 * j + i]
  {
    ByteDifference(v, vb, key, kb, j, i);
    ByteBits(m, mb, j, i);
    MaskedBit(v[j] ^ key[j], m[j], i);
  }

  lemma MaskedBit(x: bv8, m: bv8, i: nat)
    requires i < 8
    ensures ByteBit(x & m, i) <==> ByteBit(x, i) && ByteBit(m, i)
  {
    MaskOneBit(i);
    AndBit(x, m, BitMask(i));
  }

  lemma AndBit(x: bv8, m: bv8, b: bv8)
    requires OneBit(b)
    ensures (x & m) & b != 0 <==> x & b != 0 && m & b != 0
  {}

  /** Any table with a default route and without a route to the all-one address misses the latter. */
  lemma DefaultMissed(t: Table, k: Ptr, vb: Bits)
    requires TreesOk(t) && IsRoute(t, k) && Rank(t.nodes, t.sh, k) == 0 && |vb| >= t.sh.hi
    requires AllOnes(t.sh, vb) && !HasAllOnesRoute(t)
    ensures Missed(t, vb) && Covers(t, k, vb) && !IsAnswer(t, vb, 0)
  {
    assert Covers(t, k, vb);
  }

  lemma NothingTaken(t: Table, vb: Bits)
    requires TreesOk(t) && |vb| >= t.sh.hi && forall k: Ptr :: !IsRoute(t, k)
    ensures !Taken(t, vb, 0)
  {
    forall k: Ptr | IsLeaf(t.nodes, t.sh, k) ensures Rank(t.nodes, t.sh, k) != 0 {
      assert LeafOk(t, k) && !IsRoute(t, k);
    }
  }

  /** With one route, whose key is not all ones, no route has the all-one key. */
  lemma OneRoute(t: Table, u: Table, k: Ptr, vb: Bits)
    requires Sized(t.nodes, t.sh) && (forall j: Ptr :: !IsRoute(t, j)) && Added(t, u, k, vb, 0)
    requires u.sh.hi <= |vb| && !vb[u.sh.lo]
    ensures !HasAllOnesRoute(u)
  {
    forall j: Ptr | IsRoute(u, j) ensures !AllOnes(u.sh, u.sh.bits[j]) {
      assert j != k ==> SameRoute(t, u, j);
      assert !u.sh.bits[k][u.sh.lo];
    }
  }

  /** A table of two significant bytes, 4 and 5 of six-byte keys, whose only route is a default route. */
  method DefaultOnly() returns (table: RouteTable, k: Ptr)
    ensures table.Valid() && table.routes.sh.lo == 32 && table.routes.sh.hi == 48
    ensures IsRoute(table.Tab(), k) && Rank(table.routes.nodes, table.routes.sh, k) == 0
    ensures !HasAllOnesRoute(table.Tab())
  {
    table := new RouteTable(8, 8, 4, 6);
    var any: Key := [6, 2, 0, 0, 0, 0];
    ghost var anyBits := Expand(any);
    forall i | 32 <= i < 48 ensures !anyBits[i] {
      ZeroByte(any, anyBits, i / 8, i);
    }
    ghost var t := table.Tab();
    NothingTaken(t, anyBits);
    k := table.AddRoute(any, Some(any), 4, 4, 5, anyBits, anyBits, 32);
    OneRoute(t, table.Tab(), k, anyBits);
  }

  /** On a run: with a default route alone, a query that ends in 255.255 finds nothing. */
  method DefaultMissedRun() returns (table: RouteTable, k: Ptr, r: Ptr, ghost vb: Bits)
    ensures table.Valid() && |vb| >= table.routes.sh.hi
    ensures Covers(table.Tab(), k, vb) && r == 0 && !IsAnswer(table.Tab(), vb, r)
  {
    table, k := DefaultOnly();
    var query: Key := [6, 2, 10, 0, 255, 255];
    vb := Expand(query);
    forall i | 32 <= i < 48 ensures vb[i] {
      OnesByte(query, vb, i / 8, i);
    }
    DefaultMissed(table.Tab(), k, vb);
    r := table.Match(query, vb);
  }
}
