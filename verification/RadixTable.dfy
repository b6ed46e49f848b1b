/**
 The routing table: a tree of routes with its tree of masks, grown by rn_addroute, shrunk by
 rn_delete, read by rn_match.
 */
module RadixTable {

  import opened RadixBits
  import opened RadixTree
  import opened RadixInsert
  import opened RadixHead
  import opened RadixMask
  import opened RadixRoute
  import opened RadixOrder
  import opened RadixMatch
  import opened RadixLift
  import opened RadixChain
  import opened RadixAdd
  import opened RadixPairs
  import opened RadixArrive
  import opened RadixUnlist
  import opened RadixDepart
  import opened RadixDelete
  import opened Options

  /**
   A leaf with the key bits and rank of the new route is already there: the route, or a root leaf
   for a host route.
   */
  ghost predicate Taken(t: Table, vb: Bits, rank: int)
    requires Sized(t.nodes, t.sh) && |vb| >= t.sh.hi
  {
    exists k: Ptr ::
        IsLeaf(t.nodes, t.sh, k) && Agree(vb, t.sh.bits[k], t.sh.lo, t.sh.hi) && Rank(t.nodes, t.sh, k) == rank
  }

  /** The rank of a route with this prefix length; a route without a mask is a host route. */
  function RankFor(sh: Shape, netmask: Option<Key>, plen: nat): int {
    if netmask.None? then sh.hi + 1 else if plen == sh.lo then 0 else plen
  }

  /** What rn_addroute asks of its arguments: a contiguous mask, and no host bit set in the key. */
  ghost predicate RouteArgs(sh: Shape, v: Key, vb: Bits, netmask: Option<Key>, nb: Bits, plen: nat) {
    && IsBits(v, vb) && 0 < |v| && 8 * Len(v) == sh.hi <= |vb|
    && (netmask.Some? ==> Contiguous(sh, netmask.value, nb, plen) && forall i :: plen <= i < sh.hi ==> !vb[i])
  }

  /** u has the routes of t and one more. */
  ghost predicate Added(t: Table, u: Table, k: Ptr, vb: Bits, rank: int) {
    && Sized(t.nodes, t.sh) && Sized(u.nodes, u.sh) && u.sh.lo == t.sh.lo && u.sh.hi == t.sh.hi
        && !IsLeaf(t.nodes, t.sh, k)
    && IsRoute(u, k) && u.sh.bits[k] == vb && Rank(u.nodes, u.sh, k) == rank
    && forall j: Ptr {:trigger SameRoute(t, u, j)} :: j != k ==> SameRoute(t, u, j)
  }

  lemma SameRouteTrans(t: Table, u: Table, w: Table, k: Ptr)
    requires SameRoute(t, u, k) && SameRoute(u, w, k)
    ensures SameRoute(t, w, k)
  {}

  lemma RelistedRoute(t: Table, u: Table, k: Ptr)
    requires Relisted(t, u) && Sized(t.nodes, t.sh)
    ensures SameRoute(t, u, k)
  {
    if k < |t.nodes| { assert SameLabels(t.nodes[k], u.nodes[k]); }
  }

  lemma AddedByLift(t: Table, u: Table, w: Table, k: Ptr, vb: Bits, rank: int)
    requires Added(t, u, k, vb, rank) && Relisted(u, w)
    ensures Added(t, w, k, vb, rank)
  {
    RelistedRoute(u, w, k);
    assert SameLabels(u.nodes[k], w.nodes[k]);
    forall j: Ptr | j != k ensures SameRoute(t, w, j) {
      assert SameRoute(t, u, j);
      RelistedRoute(u, w, j);
      SameRouteTrans(t, u, w, j);
    }
  }

  /** The leaf joins the chain, and its mask is lifted. */
  method JoinTwin(nodes: seq<Node>, top: Ptr, ghost t: Table, h: Ptr, prev: Ptr, ghost i: nat, leaf: Ptr, v: Key,
      labels: Node, ghost vb: Bits)
    returns (w: seq<Node>, ghost th: Shape)
    requires RouteInv(t) && PairsInv(t) && nodes == t.nodes && top == t.sh.top
    requires IsHead(nodes, t.sh, h) && Spare(t, leaf) && IsBits(v, vb) && |vb| >= t.sh.hi
    requires Agree(vb, t.sh.bits[h], t.sh.lo, t.sh.hi)
    requires NewLabels(t, labels, vb) && labels.key == v && i <= |t.sh.chain[h]|
    requires Outrank(t, h, i, NewRank(t, labels)) && prev == (if i == 0 then 0 else t.sh.chain[h][i - 1])
    requires i < |t.sh.chain[h]| ==> IsLeaf(nodes, t.sh, t.sh.chain[h][i])
    requires i < |t.sh.chain[h]| ==> Rank(nodes, t.sh, t.sh.chain[h][i]) < NewRank(t, labels)
    ensures var u := t.(nodes := w, sh := th);
      RouteInv(u) && PairsInv(u) && Added(t, u, leaf, vb, NewRank(t, labels)) && th.top == t.sh.top
    ensures KeepsCells(t, t.(nodes := w, sh := th), leaf)
  {
    var m, head;
    ghost var z;
    m, head, th, z := JoinRoute(nodes, t, h, prev, i, leaf, v, vb, labels);
    w := LiftEntry(m, top, z.u, head, leaf);
    JoiningArrives(z);
    ArrivedLifted(t, z.u, t.(nodes := w, sh := th), leaf, false);
    AddedByLift(t, z.u, t.(nodes := w, sh := th), leaf, vb, NewRank(t, labels));
  }

  class RouteTable {
    const routes: Head
    const masks: Head

    ghost function Tab(): Table
      reads routes, masks
    {
      Table(routes.nodes, routes.sh, masks.nodes, masks.sh)
    }

    ghost predicate Valid()
      reads routes, masks
    {
      && routes != masks && RouteInv(Tab()) && PairsInv(Tab())
      && routes.top == routes.sh.top && masks.top == masks.sh.top
    }

    /** al_route_head_init, for keys of `width` bytes that are significant from byte `off` on. */
    constructor (cells: nat, maskCells: nat, off: nat, width: nat)
      requires cells >= 4 && maskCells >= 4 && 0 < off < width <= MAX_KEY_LEN
      ensures Valid() && fresh(routes) && fresh(masks)
      ensures routes.sh.lo == 8 * off && routes.sh.hi == 8 * width && |routes.nodes| == cells
      ensures |masks.nodes| == maskCells
      ensures forall k: Ptr :: !IsRoute(Tab(), k)
      ensures forall c :: 4 <= c < cells ==> Unused(routes.nodes, routes.sh, c)
      ensures forall c :: 4 <= c < cells - 1 ==> Spare(Tab(), c)
      ensures forall c :: 4 <= c < maskCells ==> Unused(masks.nodes, masks.sh, c)
    {
      routes := new Head(cells, off, width);
      masks := new Head(maskCells, 0, MAX_KEY_LEN);
      new;
      EmptyTable(Table(routes.nodes, routes.sh, masks.nodes, masks.sh), cells, maskCells, off, width);
    }

    /** The start of rn_addroute: intern the mask, and read off its index. */
    method Labels(v: Key, netmask: Option<Key>, node: Ptr, mleaf: Ptr, mnode: Ptr, ghost vb: Bits, ghost nb: Bits,
        ghost plen: nat)
      returns (labels: Node)
      requires Valid() && RouteArgs(routes.sh, v, vb, netmask, nb, plen)
      requires mleaf != 0 ==> Unused(masks.nodes, masks.sh, mleaf) && Unused(masks.nodes, masks.sh, mnode)
      requires mleaf != 0 ==> mleaf != mnode
      modifies masks
      ensures Valid()
      ensures forall c: Ptr :: old(Unused(masks.nodes, masks.sh, c)) && c != mleaf && c != mnode ==>
          Unused(masks.nodes, masks.sh, c)
      ensures labels.Blank? ==> netmask.Some? && mleaf == 0
      ensures !labels.Blank? ==> labels.Leaf? && NewLabels(Tab(), labels, vb)
      ensures !labels.Blank? ==> NewRank(Tab(), labels) == RankFor(routes.sh, netmask, plen)
      ensures labels.Leaf? ==> labels == Labelled(Leaf(-1, v, 0, 0, node, false, false, false), labels)
    {
      labels := Leaf(-1, v, 0, 0, node, false, false, false);
      if netmask.Some? {
        ghost var t := Tab();
        assert InnerOk(routes.nodes, routes.sh, routes.top) && ParentOk(routes.nodes, routes.sh, routes.top);
        var x := AddMask(masks, netmask.value, false, routes.nodes[routes.top].offset, mleaf, mnode);
        MasksGrown(t, Tab());
        OtherMaskPairs(t, Tab());
        if x == 0 {
          return Blank;
        }
        ContiguousMask(Tab(), netmask.value, nb, plen, x);
        labels := labels.(mask := x, bit := masks.nodes[x].bit, normal := masks.nodes[x].normal);
      }
    }

    /** The rest of rn_addroute for a key that is new to the tree. */
    method AddFresh(ghost t: Table, ghost s: Site, leaf: Ptr, node: Ptr, labels: Node)
      requires routes != masks && t.masks == masks.nodes && t.maskShape == masks.sh && masks.top == masks.sh.top
      requires FreshStart(routes.nodes, t, s, routes.sh, labels) && leaf == s.leaf && node == s.node
      requires routes.top == t.sh.top && PairsInv(t) && Spare(t, leaf) && node == leaf + 1
      modifies routes
      ensures Valid() && Added(t, Tab(), leaf, s.vb, NewRank(t, labels)) && !Taken(t, s.vb, NewRank(t, labels))
      ensures KeepsCells(t, Tab(), leaf)
    {
      NotTaken(routes.nodes, t, s, routes.sh, NewRank(t, labels));
      var r;
      ghost var z;
      r, z := FreshRoute(routes.nodes, t, s, routes.sh, leaf, node, labels);
      ghost var u := t.(nodes := r, sh := routes.sh);
      StepArrives(z);
      var m := LiftEntry(r, routes.top, u, leaf, leaf);
      routes.nodes := m;
      ArrivedLifted(t, u, Tab(), leaf, true);
      AddedByLift(t, u, Tab(), leaf, s.vb, NewRank(t, labels));
    }

    /** The rest of rn_addroute for a key that is in the tree, in the chain at h. */
    method AddTwin(h: Ptr, leaf: Ptr, v: Key, labels: Node, ghost vb: Bits) returns (r: Ptr)
      requires Valid() && IsHead(routes.nodes, routes.sh, h) && Spare(Tab(), leaf)
      requires IsBits(v, vb) && |vb| >= routes.sh.hi && Agree(vb, routes.sh.bits[h], routes.sh.lo, routes.sh.hi)
      requires NewLabels(Tab(), labels, vb) && labels.key == v
      modifies routes
      ensures Valid()
      ensures r != 0 ==> r == leaf && Added(old(Tab()), Tab(), leaf, vb, NewRank(old(Tab()), labels))
      ensures r != 0 ==> !Taken(old(Tab()), vb, NewRank(old(Tab()), labels))
      ensures r == 0 ==> routes.nodes == old(routes.nodes) && routes.sh == old(routes.sh)
      ensures r == 0 ==> Taken(old(Tab()), vb, NewRank(old(Tab()), labels))
      ensures KeepsCells(old(Tab()), Tab(), leaf)
    {
      ghost var t := Tab();
      var same, prev;
      ghost var i, twin;
      same, prev, i, twin := ChainPlace(routes.nodes, masks.nodes, t, h, labels, vb);
      if same {
        TwinTaken(t, h, twin, labels, vb);
        return 0;
      }
      NoTwin(t, h, i, labels, vb);
      var m;
      ghost var th;
      m, th := JoinTwin(routes.nodes, routes.top, t, h, prev, i, leaf, v, labels, vb);
      routes.nodes, routes.sh := m, th;
      r := leaf;
    }

    /**
     rn_addroute, with the caller's treenodes at cells `leaf` and `leaf + 1`. Null is returned when
     the key already has a route of this rank, or when there was no memory for a new mask (`mleaf`
     is null); the table then has the routes it had.
     */
    method AddRoute(v: Key, netmask: Option<Key>, leaf: Ptr, mleaf: Ptr, mnode: Ptr, ghost vb: Bits, ghost nb: Bits,
        ghost plen: nat)
      returns (r: Ptr)
      requires Valid() && RouteArgs(routes.sh, v, vb, netmask, nb, plen) && Spare(Tab(), leaf)
      requires mleaf != 0 ==> Unused(masks.nodes, masks.sh, mleaf) && Unused(masks.nodes, masks.sh, mnode)
      requires mleaf != 0 ==> mleaf != mnode
      modifies routes, masks
      ensures Valid()
      ensures r != 0 ==> r == leaf && Added(old(Tab()), Tab(), leaf, vb, RankFor(old(routes.sh), netmask, plen))
      ensures r != 0 ==> !Taken(old(Tab()), vb, RankFor(old(routes.sh), netmask, plen))
      ensures r == 0 ==> routes.nodes == old(routes.nodes) && routes.sh == old(routes.sh)
      ensures r == 0 ==> Taken(old(Tab()), vb, RankFor(old(routes.sh), netmask, plen)) || (netmask.Some? && mleaf == 0)
      ensures KeepsCells(old(Tab()), Tab(), leaf)
      ensures forall c: Ptr :: old(Unused(masks.nodes, masks.sh, c)) && c != mleaf && c != mnode ==>
          Unused(masks.nodes, masks.sh, c)
    {
      ghost var t := Tab();
      var node := leaf + 1;
      var labels := Labels(v, netmask, node, mleaf, mnode, vb, nb, plen);
      ghost var t' := Tab();
      OtherMaskPairs(t, t');
      if labels.Blank? {
        return 0;
      }
      r := Place(v, leaf, node, labels, vb);
      OtherMasksCells(t, t', Tab(), leaf);
      OtherMasks(t, t', Tab(), leaf, vb, RankFor(t.sh, netmask, plen));
    }

    /** rn_addroute once the mask is known: insert the key, or find its chain. */
    method Place(v: Key, leaf: Ptr, node: Ptr, labels: Node, ghost vb: Bits) returns (r: Ptr)
      requires Valid() && IsBits(v, vb) && 0 < |v| && 8 * Len(v) == routes.sh.hi <= |vb| && NewLabels(Tab(), labels, vb)
      requires labels.Leaf? && labels == Labelled(Leaf(-1, v, 0, 0, node, false, false, false), labels)
      requires Spare(Tab(), leaf) && node == leaf + 1
      modifies routes
      ensures Valid()
      ensures r != 0 ==> r == leaf && Added(old(Tab()), Tab(), leaf, vb, NewRank(old(Tab()), labels))
      ensures r != 0 ==> !Taken(old(Tab()), vb, NewRank(old(Tab()), labels))
      ensures r == 0 ==> routes.nodes == old(routes.nodes) && routes.sh == old(routes.sh)
      ensures r == 0 ==> Taken(old(Tab()), vb, NewRank(old(Tab()), labels))
      ensures KeepsCells(old(Tab()), Tab(), leaf)
    {
      ghost var t := Tab();
      var h, dup;
      ghost var s;
      h, dup, s := routes.Insert(v, vb, leaf, node);
      if dup {
        r := AddTwin(h, leaf, v, labels, vb);
      } else {
        assert Cell(t.nodes, t.sh, s, routes.nodes, routes.sh, leaf);
        AddFresh(t, s, leaf, node, labels);
        r := leaf;
      }
    }

    /** The start of rn_delete: the leaf of the key, and of the mask if one is given; null if there is none. */
    method Target(v: Key, netmask: Option<Key>, ghost vb: Bits) returns (h: Ptr, tt: Ptr)
      requires Valid() && QueryOk(Tab(), v, vb) && MaskArg(netmask)
      modifies masks
      ensures Valid() && Tab() == old(Tab())
      ensures tt == 0 ==> forall k: Ptr :: !Picked(Tab(), vb, netmask, k)
      ensures tt != 0 ==> Picked(Tab(), vb, netmask, tt)
      ensures tt != 0 ==> IsHead(routes.nodes, routes.sh, h) && tt in routes.sh.under[h]
    {
      h := Search(routes.nodes, routes.top, routes.sh, v, vb);
      assert InnerOk(routes.nodes, routes.sh, routes.top) && ParentOk(routes.nodes, routes.sh, routes.top);
      var off, key := routes.nodes[routes.top].offset, routes.nodes[h].key;
      var same := SameBytes(v, key, off, Len(v), vb, routes.sh.bits[h]);
      if !same {
        NoLeaf(Tab(), vb, h);
        return h, 0;
      }
      HeadInTop(routes.nodes, routes.sh, h);
      if netmask.None? {
        HeadFirst(Tab(), vb, h);
        return h, h;
      }
      var x := AddMask(masks, netmask.value, true, off, 0, 0);
      if x == 0 {
        return h, 0;
      }
      tt := FindMasked(routes.nodes, Tab(), h, x);
      PickedByMask(Tab(), vb, netmask.value, h, x, tt);
    }

    /**
     rn_delete: the route of the given key and mask goes; without a mask, the most specific leaf of
     the key. Null is returned, and nothing changes, if there is no such leaf or it is a root leaf.
     */
    method DeleteRoute(v: Key, netmask: Option<Key>, ghost vb: Bits) returns (r: Ptr)
      requires Valid() && QueryOk(Tab(), v, vb) && MaskArg(netmask)
      modifies routes, masks
      ensures Valid() && masks.nodes == old(masks.nodes) && masks.sh == old(masks.sh)
      ensures r == 0 ==> Tab() == old(Tab())
      ensures r == 0 ==> forall k: Ptr :: old(Picked(Tab(), vb, netmask, k)) ==> !old(IsRoute(Tab(), k))
      ensures r != 0 ==> old(Picked(Tab(), vb, netmask, r)) && Deleted(old(Tab()), Tab(), r)
    {
      ghost var t := Tab();
      var h, tt := Target(v, netmask, vb);
      if tt == 0 {
        return 0;
      }
      var ok, m;
      ghost var th;
      ok, m, th := Remove(routes.nodes, routes.top, t, h, tt);
      if ok {
        routes.nodes, routes.sh := m, th;
        r := tt;
      } else {
        RootPicked(t, vb, netmask, tt);
        r := 0;
      }
    }

    /**
     rn_addroute and then rn_delete with the same key and mask: the route that was added is the one
     that goes, its cells are spare again, and the table has the routes it had.
     */
    method AddAndDelete(v: Key, netmask: Option<Key>, leaf: Ptr, mleaf: Ptr, mnode: Ptr, ghost vb: Bits, ghost nb: Bits,
        ghost plen: nat)
      returns (r: Ptr, d: Ptr)
      requires Valid() && RouteArgs(routes.sh, v, vb, netmask, nb, plen) && Spare(Tab(), leaf)
      requires mleaf != 0 ==> Unused(masks.nodes, masks.sh, mleaf) && Unused(masks.nodes, masks.sh, mnode)
      requires mleaf != 0 ==> mleaf != mnode
      modifies routes, masks
      ensures Valid() && d == r && (r != 0 ==> r == leaf && Spare(Tab(), leaf))
      ensures forall j: Ptr {:trigger SameRoute(old(Tab()), Tab(), j)} :: SameRoute(old(Tab()), Tab(), j)
    {
      ghost var t := Tab();
      d := 0;
      r := AddRoute(v, netmask, leaf, mleaf, mnode, vb, nb, plen);
      if r != 0 {
        ghost var u := Tab();
        AddedPicked(t, u, r, v, vb, netmask, nb, plen);
        d := DeleteRoute(v, netmask, vb);
        if d != 0 { PickedOnce(u, vb, netmask, d, r); }
        AddThenDelete(t, u, Tab(), r, vb, RankFor(t.sh, netmask, plen), vb, 0);
      }
    }

    /** rn_match: the answer of a scan over all routes, but for the all-one address without a route of its own. */
    method Match(v: Key, ghost vb: Bits) returns (r: Ptr)
      requires Valid() && QueryOk(Tab(), v, vb)
      ensures Missed(Tab(), vb) ==> r == 0
      ensures IsAnswer(Tab(), vb, r) <==> !(Missed(Tab(), vb) && exists k: Ptr :: Covers(Tab(), k, vb))
    {
      r := RadixMatch.Match(routes.nodes, routes.top, masks.nodes, Tab(), v, vb);
    }
  }

  /** Which routes are stored does not depend on the masks that are interned. */
  lemma OtherMasks(t: Table, t': Table, u: Table, k: Ptr, vb: Bits, rank: int)
    requires Sized(t.nodes, t.sh) && t' == t.(masks := t'.masks, maskShape := t'.maskShape) && |vb| >= t.sh.hi
    ensures Added(t', u, k, vb, rank) ==> Added(t, u, k, vb, rank)
    ensures Taken(t', vb, rank) <==> Taken(t, vb, rank)
  {
    if Added(t', u, k, vb, rank) {
      forall j: Ptr | j != k ensures SameRoute(t, u, j) {
        assert SameRoute(t', u, j);
      }
    }
  }

  lemma OtherMasksCells(t: Table, t': Table, u: Table, k: Ptr)
    requires PairsInv(t) && t' == t.(masks := t'.masks, maskShape := t'.maskShape) && KeepsCells(t', u, k)
    ensures KeepsCells(t, u, k)
  {
    OtherMaskPairs(t, t');
  }

  /** A key that was linked in fresh had no leaf. */
  lemma NotTaken(m: seq<Node>, t: Table, s: Site, th: Shape, rank: int)
    requires RouteInv(t) && Inserted(t.nodes, t.sh, s, m, th)
    ensures !Taken(t, s.vb, rank)
  {
    InsertedInv(t.nodes, t.sh, s, m, th);
    forall k: Ptr | IsLeaf(t.nodes, t.sh, k) ensures !Agree(s.vb, t.sh.bits[k], t.sh.lo, t.sh.hi) {
      HeadKind(t.nodes, t.sh, s, m, th, s.leaf);
      LeafKind(t.nodes, t.sh, s, m, th, k);
      assert Cell(t.nodes, t.sh, s, m, th, s.leaf) && Cell(t.nodes, t.sh, s, m, th, k);
      if Agree(s.vb, t.sh.bits[k], t.sh.lo, t.sh.hi) {
        Above(m, th, s.leaf);
        UnderByAgreement(m, th, s.leaf, s.leaf, k);
      }
    }
  }

  lemma TwinTaken(t: Table, h: Ptr, k: Ptr, labels: Node, vb: Bits)
    requires TreesOk(t) && IsHead(t.nodes, t.sh, h) && k in t.sh.under[h] && IsLeaf(t.nodes, t.sh, k) && labels.Leaf?
    requires |vb| >= t.sh.hi && Agree(vb, t.sh.bits[h], t.sh.lo, t.sh.hi) && NewLabels(t, labels, vb)
    requires t.nodes[k].mask == labels.mask
    ensures Taken(t, vb, NewRank(t, labels))
  {
    OneKey(t.nodes, t.sh, h, k);
    assert LeafOk(t, k);
    assert Agree(vb, t.sh.bits[k], t.sh.lo, t.sh.hi);
  }

  lemma NoTwin(t: Table, h: Ptr, i: nat, labels: Node, vb: Bits)
    requires TreesOk(t) && IsHead(t.nodes, t.sh, h) && labels.Leaf? && i <= |t.sh.chain[h]|
    requires Outrank(t, h, i, NewRank(t, labels))
    requires |vb| >= t.sh.hi && Agree(vb, t.sh.bits[h], t.sh.lo, t.sh.hi)
    requires i < |t.sh.chain[h]| ==> IsLeaf(t.nodes, t.sh, t.sh.chain[h][i])
    requires i < |t.sh.chain[h]| ==> Rank(t.nodes, t.sh, t.sh.chain[h][i]) < NewRank(t, labels)
    ensures !Taken(t, vb, NewRank(t, labels))
  {
    forall k: Ptr | IsLeaf(t.nodes, t.sh, k) && Agree(vb, t.sh.bits[k], t.sh.lo, t.sh.hi)
      ensures Rank(t.nodes, t.sh, k) != NewRank(t, labels)
    {
      SameChain(t, h, k);
      assert ChainOk(t, h);
      var j :| 0 <= j < |t.sh.chain[h]| && t.sh.chain[h][j] == k;
      assert InOrder(t, h, i, j);
    }
  }

  lemma EmptyTable(t: Table, cells: nat, maskCells: nat, off: nat, width: nat)
    requires cells >= 4 && maskCells >= 4 && 0 < off < width <= MAX_KEY_LEN
    requires t.nodes == InitNodes(cells, off) && IsInitShape(t.sh, cells, off, width) && HeadInv(t.nodes, t.sh)
    requires t.masks == InitNodes(maskCells, 0) && IsInitShape(t.maskShape, maskCells, 0, MAX_KEY_LEN)
    requires HeadInv(t.masks, t.maskShape)
    ensures RouteInv(t) && PairsInv(t) && forall k: Ptr :: !IsRoute(t, k)
    ensures forall c :: 4 <= c < cells ==> Unused(t.nodes, t.sh, c)
    ensures forall c :: 4 <= c < cells - 1 ==> Spare(t, c)
    ensures forall c :: 4 <= c < maskCells ==> Unused(t.masks, t.maskShape, c)
  {
    EmptyTree(t.nodes, t.sh, cells, off, width);
    EmptyTree(t.masks, t.maskShape, maskCells, 0, MAX_KEY_LEN);
    EmptyPairs(t, cells, off, width);
  }

  lemma EmptyPairs(t: Table, cells: nat, off: nat, width: nat)
    requires cells >= 4 && off < width <= MAX_KEY_LEN
    requires t.nodes == InitNodes(cells, off) && IsInitShape(t.sh, cells, off, width) && HeadInv(t.nodes, t.sh)
    ensures PairsInv(t) && (forall k: Ptr :: !IsRoute(t, k)) && forall c :: 4 <= c < cells - 1 ==> Spare(t, c)
  {
    forall k: Ptr ensures !IsRoute(t, k) {}
    EmptyTree(t.nodes, t.sh, cells, off, width);
  }

  lemma EmptyTree(nodes: seq<Node>, sh: Shape, cells: nat, off: nat, width: nat)
    requires cells >= 4 && off < width <= MAX_KEY_LEN
    requires nodes == InitNodes(cells, off) && IsInitShape(sh, cells, off, width) && HeadInv(nodes, sh)
    ensures forall c :: 4 <= c < cells ==> Unused(nodes, sh, c)
  {}

  // ---------- deletion ----------

  ghost predicate MaskArg(netmask: Option<Key>) {
    netmask.Some? ==> 0 < |netmask.value| && Len(netmask.value) <= |netmask.value|
  }

  /** The leaf that rn_delete is about: of the key, and of the mask or else the most specific one. */
  ghost predicate Picked(t: Table, vb: Bits, netmask: Option<Key>, k: Ptr)
    requires Sized(t.nodes, t.sh) && Sized(t.masks, t.maskShape) && |vb| >= t.sh.hi
  {
    && IsLeaf(t.nodes, t.sh, k) && Agree(vb, t.sh.bits[k], t.sh.lo, t.sh.hi)
    && match netmask
       case None => FirstOfKey(t, vb, k)
       case Some(n) =>
         t.nodes[k].mask != 0 && Interns(t.masks, t.maskShape, t.sh.lo / 8, t.nodes[k].mask, n)
  }

  ghost predicate FirstOfKey(t: Table, vb: Bits, k: Ptr)
    requires Sized(t.nodes, t.sh) && |vb| >= t.sh.hi && IsLeaf(t.nodes, t.sh, k)
  {
    forall j: Ptr :: IsLeaf(t.nodes, t.sh, j) && Agree(vb, t.sh.bits[j], t.sh.lo, t.sh.hi) ==>
      Rank(t.nodes, t.sh, j) <= Rank(t.nodes, t.sh, k)
  }

  /** The bcmp of rn_delete: whether two keys have the same bytes from `off` to `len`. */
  method SameBytes(v: Key, key: Key, off: nat, len: nat, ghost vb: Bits, ghost kb: Bits) returns (same: bool)
    requires IsBits(v, vb) && IsBits(key, kb) && off <= len <= |v| && len <= |key|
    ensures same <==> Agree(vb, kb, 8 * off, 8 * len)
  {
    same := v[off..len] == key[off..len];
    AgreeBytes(v, vb, key, kb, off, len);
    if same {
      assert forall j :: off <= j < len ==> v[j] == v[off..len][j - off] && key[j] == key[off..len][j - off];
    }
  }

  /** If the closest leaf has another key, no leaf has the key. */
  lemma NoLeaf(t: Table, vb: Bits, h: Ptr)
    requires TreesOk(t) && |vb| >= t.sh.hi && IsHead(t.nodes, t.sh, h) && Closest(t.nodes, t.sh, vb, h)
    requires !Agree(vb, t.sh.bits[h], t.sh.lo, t.sh.hi)
    ensures forall k: Ptr :: IsLeaf(t.nodes, t.sh, k) ==> !Agree(vb, t.sh.bits[k], t.sh.lo, t.sh.hi)
  {
    forall k: Ptr | IsLeaf(t.nodes, t.sh, k) ensures !Agree(vb, t.sh.bits[k], t.sh.lo, t.sh.hi) {
      assert AsClose(t.sh, vb, h, k);
    }
  }

  lemma HeadFirst(t: Table, vb: Bits, h: Ptr)
    requires TreesOk(t) && |vb| >= t.sh.hi && IsHead(t.nodes, t.sh, h) && IsLeaf(t.nodes, t.sh, h)
    requires Agree(vb, t.sh.bits[h], t.sh.lo, t.sh.hi)
    ensures FirstOfKey(t, vb, h)
  {
    forall j: Ptr | IsLeaf(t.nodes, t.sh, j) && Agree(vb, t.sh.bits[j], t.sh.lo, t.sh.hi)
      ensures Rank(t.nodes, t.sh, j) <= Rank(t.nodes, t.sh, h)
    {
      SameChain(t, h, j);
      assert ChainOk(t, h) && HeadOk(t.nodes, t.sh, h);
      var i :| 0 <= i < |t.sh.chain[h]| && t.sh.chain[h][i] == j;
      assert InOrder(t, h, 0, i);
    }
  }

  /** The walk along the chain for the leaf with a mask. */
  method FindMasked(nodes: seq<Node>, ghost t: Table, h: Ptr, mask: Ptr) returns (k: Ptr)
    requires TreesOk(t) && nodes == t.nodes && IsHead(nodes, t.sh, h) && mask != 0
    ensures k != 0 ==> IsLeaf(nodes, t.sh, k) && k in t.sh.under[h] && nodes[k].mask == mask
    ensures k == 0 ==> forall j: Ptr :: IsLeaf(nodes, t.sh, j) && j in t.sh.under[h] ==> nodes[j].mask != mask
  {
    assert HeadOk(nodes, t.sh, h) && Member(nodes, t.sh, h, 0);
    ghost var s, i := t.sh.chain[h], 0;
    k := h;
    while nodes[k].mask != mask
      invariant i < |s| && k == s[i] && IsLeaf(nodes, t.sh, k)
      invariant forall q :: 0 <= q < i ==> s[q] < |nodes| && nodes[s[q]].Leaf? && nodes[s[q]].mask != mask
      decreases |s| - i
    {
      assert Member(nodes, t.sh, h, i) && Member(nodes, t.sh, h, i + 1);
      k, i := nodes[k].dup, i + 1;
      if k == 0 {
        assert i == |s|;
        return;
      }
    }
    assert k in t.sh.under[h];
  }

  /** A mask is interned once. */
  lemma InternsOnce(t: Table, netmask: Key, x: Ptr, y: Ptr)
    requires TreesOk(t) && Interns(t.masks, t.maskShape, t.sh.lo / 8, x, netmask)
    requires Interns(t.masks, t.maskShape, t.sh.lo / 8, y, netmask)
    ensures x == y
  {
    var skip := t.sh.lo / 8;
    assert MaskLeaf(t.masks, t.maskShape, skip, x) && MaskLeaf(t.masks, t.maskShape, skip, y);
    var a, b := t.masks[x].key, t.masks[y].key;
    assert x != ZERO_MASK ==> a[Len(a) - 1] == b[Len(a) - 1];
    assert y != ZERO_MASK ==> a[Len(b) - 1] == b[Len(b) - 1];
    if x != ZERO_MASK && y != ZERO_MASK {
      SameNormalForm(a, b, skip);
      AgreeBytes(a, t.maskShape.bits[x], b, t.maskShape.bits[y], 0, MAX_KEY_LEN);
      InternedOnce(t.masks, t.maskShape, skip, x, y);
    }
  }

  /** The leaf found by its interned mask is the one asked for, and there is none if none was found. */
  lemma PickedByMask(t: Table, vb: Bits, netmask: Key, h: Ptr, x: Ptr, k: Ptr)
    requires TreesOk(t) && |vb| >= t.sh.hi && IsHead(t.nodes, t.sh, h) && x != 0
    requires Agree(vb, t.sh.bits[h], t.sh.lo, t.sh.hi) && Interns(t.masks, t.maskShape, t.sh.lo / 8, x, netmask)
    requires k != 0 ==> IsLeaf(t.nodes, t.sh, k) && k in t.sh.under[h] && t.nodes[k].mask == x
    requires k == 0 ==> forall j: Ptr :: IsLeaf(t.nodes, t.sh, j) && j in t.sh.under[h] ==> t.nodes[j].mask != x
    ensures k != 0 ==> Picked(t, vb, Some(netmask), k)
    ensures k == 0 ==> forall j: Ptr :: !Picked(t, vb, Some(netmask), j)
  {
    if k != 0 {
      OneKey(t.nodes, t.sh, h, k);
    } else {
      forall j: Ptr ensures !Picked(t, vb, Some(netmask), j) {
        if Picked(t, vb, Some(netmask), j) {
          SameChain(t, h, j);
          InternsOnce(t, netmask, x, t.nodes[j].mask);
        }
      }
    }
  }

  /** At most one leaf is picked. */
  lemma PickedOnce(t: Table, vb: Bits, netmask: Option<Key>, j: Ptr, k: Ptr)
    requires TreesOk(t) && |vb| >= t.sh.hi && Picked(t, vb, netmask, j) && Picked(t, vb, netmask, k)
    ensures j == k
  {
    assert LeafOk(t, j) && LeafOk(t, k);
    if netmask.Some? { InternsOnce(t, netmask.value, t.nodes[j].mask, t.nodes[k].mask); }
    var h := HeadOver(t.nodes, t.sh, t.sh.top, k);
    OneLeaf(t, h, j, k);
  }

  /** With a contiguous mask, the leaf picked is the one of that key and prefix length. */
  lemma PickedRank(t: Table, vb: Bits, netmask: Key, nb: Bits, plen: nat, k: Ptr)
    requires TreesOk(t) && |vb| >= t.sh.hi && Contiguous(t.sh, netmask, nb, plen)
    ensures Picked(t, vb, Some(netmask), k) <==>
      && IsLeaf(t.nodes, t.sh, k) && Agree(vb, t.sh.bits[k], t.sh.lo, t.sh.hi)
      && t.nodes[k].mask != 0 && Rank(t.nodes, t.sh, k) == RankFor(t.sh, Some(netmask), plen)
  {
    if IsLeaf(t.nodes, t.sh, k) && t.nodes[k].mask != 0 {
      var x := t.nodes[k].mask;
      assert LeafOk(t, k);
      if Interns(t.masks, t.maskShape, t.sh.lo / 8, x, netmask) {
        ContiguousMask(t, netmask, nb, plen, x);
      } else if Rank(t.nodes, t.sh, k) == RankFor(t.sh, Some(netmask), plen) {
        MaskOfLength(t, netmask, nb, plen, k);
      }
    }
  }

  /** The mask of a route of that length is the interned form of the contiguous mask. */
  lemma MaskOfLength(t: Table, netmask: Key, nb: Bits, plen: nat, k: Ptr)
    requires TreesOk(t) && Contiguous(t.sh, netmask, nb, plen) && IsLeaf(t.nodes, t.sh, k) && t.nodes[k].mask != 0
    requires Rank(t.nodes, t.sh, k) == RankFor(t.sh, Some(netmask), plen)
    ensures Interns(t.masks, t.maskShape, t.sh.lo / 8, t.nodes[k].mask, netmask)
  {
    assert LeafOk(t, k);
    var key, mb := RouteMask(t, k);
    forall j | t.sh.lo / 8 <= j < MAX_KEY_LEN ensures key[j] == ByteOr0(netmask, j) {
      forall i | 0 <= i < 8 ensures ByteBit(key[j], i) == ByteBit(ByteOr0(netmask, j), i) {
        ByteBits(key, mb, j, i);
        if j < Len(netmask) { ByteBits(netmask, nb, j, i); }
      }
      ByteExt(key[j], ByteOr0(netmask, j));
    }
  }

  /** If the leaf picked is a root leaf, no route is picked. */
  lemma RootPicked(t: Table, vb: Bits, netmask: Option<Key>, k: Ptr)
    requires TreesOk(t) && |vb| >= t.sh.hi && Picked(t, vb, netmask, k) && t.nodes[k].root
    ensures forall j: Ptr :: Picked(t, vb, netmask, j) ==> !IsRoute(t, j)
  {
    forall j: Ptr | Picked(t, vb, netmask, j) ensures !IsRoute(t, j) { PickedOnce(t, vb, netmask, j, k); }
  }

  /** The rest of rn_delete, for leaf tt of the chain at h: a root leaf stays, any other leaf goes. */
  method Remove(nodes: seq<Node>, top: Ptr, ghost t: Table, h: Ptr, tt: Ptr)
    returns (ok: bool, m: seq<Node>, ghost th: Shape)
    requires RouteInv(t) && PairsInv(t) && nodes == t.nodes && top == t.sh.top
    requires IsHead(nodes, t.sh, h) && tt in t.sh.under[h] && IsLeaf(nodes, t.sh, tt)
    ensures ok <==> !nodes[tt].root
    ensures ok ==> Deleted(t, t.(nodes := m, sh := th), tt) && th.top == t.sh.top
    ensures !ok ==> m == nodes
  {
    assert LeafOk(t, tt);
    m := Delist(nodes, top, t, h, tt);
    th := t.sh;
    ghost var w := t.(nodes := m);
    assert SameLabels(nodes[tt], m[tt]);
    if m[tt].root {
      return false, m, th;
    }
    StillReady(t, w, h, tt);
    m, th := DeleteLeaf(m, w, h, tt);
    DeletedAll(t, w, t.(nodes := m, sh := th), tt);
    ok := true;
  }

  lemma StillReady(t: Table, w: Table, h: Ptr, k: Ptr)
    requires Relisted(t, w) && LeavingInv(w, k) && PairsInv(t) && IsHead(t.nodes, t.sh, h)
    requires k in t.sh.under[h] && IsLeaf(t.nodes, t.sh, k) && !t.nodes[k].root
    ensures Ready(w, h, k)
  {
    RelistedPairs(t, w);
    assert SameLabels(t.nodes[h], w.nodes[h]) && SameLabels(t.nodes[k], w.nodes[k]);
  }

  lemma DeletedAll(t: Table, w: Table, u: Table, k: Ptr)
    requires Relisted(t, w) && PairsInv(t) && Deleted(w, u, k)
    ensures Deleted(t, u, k)
  {
    RelistedPairs(t, w);
    RelistedRoute(t, w, k);
    forall j: Ptr | j != k ensures SameRoute(t, u, j) {
      RelistedRoute(t, w, j);
      assert SameRoute(w, u, j);
      SameRouteTrans(t, w, u, j);
    }
  }

  // ---------- what lookups see of it ----------

  lemma SameCovers(t: Table, u: Table, k: Ptr, vb: Bits)
    requires SameRoute(t, u, k) && u.sh.lo == t.sh.lo && u.sh.hi == t.sh.hi <= |vb|
    ensures Covers(u, k, vb) <==> Covers(t, k, vb)
  {}

  /** Deleting a route changes the answer of no lookup that it was not the answer of. */
  lemma OtherAnswers(t: Table, u: Table, k: Ptr, vb: Bits, r: Ptr)
    requires Removed(t, u, k) && |vb| >= t.sh.hi && IsAnswer(t, vb, r) && r != k
    ensures IsAnswer(u, vb, r)
  {
    forall j: Ptr | Covers(u, j, vb)
      ensures Covers(t, j, vb) && Rank(u.nodes, u.sh, j) == Rank(t.nodes, t.sh, j)
    {
      assert j != k;
      assert SameRoute(t, u, j);
      SameCovers(t, u, j, vb);
    }
    if r != 0 {
      assert SameRoute(t, u, r);
      SameCovers(t, u, r, vb);
    }
  }

  /** Adding a route and deleting it again leaves the routes, and so the answer of every lookup, as they were. */
  lemma AddThenDelete(t: Table, u: Table, w: Table, k: Ptr, kb: Bits, rank: int, vb: Bits, r: Ptr)
    requires Added(t, u, k, kb, rank) && Removed(u, w, k) && |vb| >= t.sh.hi
    ensures forall j: Ptr {:trigger SameRoute(t, w, j)} :: SameRoute(t, w, j)
    ensures IsAnswer(t, vb, r) <==> IsAnswer(w, vb, r)
  {
    forall j: Ptr ensures SameRoute(t, w, j) {
      if j != k {
        assert SameRoute(t, u, j) && SameRoute(u, w, j);
        SameRouteTrans(t, u, w, j);
      }
    }
    SameAnswer(t, w, vb, r);
  }

  /** The route just added is the one that rn_delete picks for the same key and mask. */
  lemma AddedPicked(t: Table, u: Table, k: Ptr, v: Key, vb: Bits, netmask: Option<Key>, nb: Bits, plen: nat)
    requires TreesOk(u) && RouteArgs(t.sh, v, vb, netmask, nb, plen)
    requires Added(t, u, k, vb, RankFor(t.sh, netmask, plen))
    ensures |vb| >= u.sh.hi && Picked(u, vb, netmask, k)
  {
    assert LeafOk(u, k);
    if netmask.Some? {
      PickedRank(u, vb, netmask.value, nb, plen, k);
    } else {
      forall j: Ptr | IsLeaf(u.nodes, u.sh, j) ensures Rank(u.nodes, u.sh, j) <= u.sh.hi + 1 { assert LeafOk(u, j); }
    }
  }

  lemma SameAnswer(t: Table, w: Table, vb: Bits, r: Ptr)
    requires Sized(t.nodes, t.sh) && Sized(w.nodes, w.sh) && w.sh.lo == t.sh.lo && w.sh.hi == t.sh.hi <= |vb|
    requires forall j: Ptr {:trigger SameRoute(t, w, j)} :: SameRoute(t, w, j)
    ensures IsAnswer(t, vb, r) <==> IsAnswer(w, vb, r)
  {
    forall j: Ptr ensures (Covers(w, j, vb) <==> Covers(t, j, vb))
        && (Covers(t, j, vb) ==> Rank(w.nodes, w.sh, j) == Rank(t.nodes, t.sh, j))
    {
      assert SameRoute(t, w, j);
      SameCovers(t, w, j, vb);
    }
  }
}
