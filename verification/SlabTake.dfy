/** al_slab_alloc_pages: the first free run that is long enough gives up its first pages. */
module SlabTake {

  import opened SlabLists
  import opened SlabPages

  /** Fields of descriptors that are on no list do not matter to the lists, as long as next stays null. */
  ghost predicate OffOnly(c: Links, g: Lists, c': Links, k: nat)
    requires SizedLists(c, g) && SizedLists(c', g)
  {
    k < |c.next| ==> c'.next[k] == c.next[k] && (g.on[k] >= 0 ==> c'.prev[k] == c.prev[k] && c'.tag[k] == c.tag[k])
  }

  lemma OffWrites(c: Links, g: Lists, e: set<nat>, c': Links)
    requires ListsOk(c, g, e) && SizedLists(c', g) && c'.first == c.first
    requires forall k: nat {:trigger OffOnly(c, g, c', k)} :: OffOnly(c, g, c', k)
    ensures ListsOk(c', g, e)
  {
    forall l: nat, i: nat ensures EntryOk(c', g, l, i) {
      assert EntryOk(c, g, l, i);
      if l < |g.lists| && i < |g.lists[l]| { assert OffOnly(c, g, c', g.lists[l][i]); }
    }
    forall l: nat ensures FirstOk(c', g, l) { assert FirstOk(c, g, l); }
    forall k: nat ensures PlaceOk(c', g, e, k) { assert PlaceOk(c, g, e, k) && OffOnly(c, g, c', k); }
  }

  /** k is the free run that n pages are taken from. */
  ghost predicate Fits(p: Pool, g: Lists, r: Runs, k: nat, n: nat) {
    PagesOk(p, g, r) && k < |p.slab| && r.head[k] == k && r.kind[k] == Free && 0 < n <= r.size[k]
  }

  /** The runs with the first n pages of the free run at k allocated. */
  ghost function TakenRuns(r: Runs, k: nat, n: nat): Runs
    requires |r.head| == |r.size| == |r.kind| && k < |r.head| && n <= r.size[k]
  {
    if n == r.size[k] then Painted(r, k, n, Whole) else Split(r, k, n)
  }

  /** The descriptor of page j after n pages were taken at k. */
  ghost predicate TakenCell(p: Pool, g: Lists, r: Runs, k: nat, n: nat, p': Pool, g': Lists, j: nat)
    requires Fits(p, g, r, k, n) && SizedPool(p', g', r)
  {
    var rest := r.size[k] - n;
    j < |p.slab| ==>
      if k <= j < k + n then
        p'.slab[j] == (if j == k then Start(n) else Busy) && g'.on[j] == -1 && p'.c.tag[j] == PAGE
            && p'.c.next[j] == Null
      else if rest > 0 && j == k + n then
        p'.slab[j] == Len(rest) && g'.on[j] == 0 && p'.c.tag[j] == PAGE
      else
        && p'.slab[j] == p.slab[j] && g'.on[j] == g.on[j] && p'.c.tag[j] == p.c.tag[j]
        && (g.on[j] < 0 ==>
            p'.c.next[j] == p.c.next[j]
            && p'.c.prev[j] == if rest > 0 && j == k + n + rest - 1 then At(k + n) else p.c.prev[j])
  }

  ghost predicate TookPages(p: Pool, g: Lists, r: Runs, k: nat, n: nat, p': Pool, g': Lists) {
    && Fits(p, g, r, k, n) && SizedPool(p', g', r) && ListsOk(p'.c, g', {})
    && (forall j: nat {:trigger TakenCell(p, g, r, k, n, p', g', j)} :: TakenCell(p, g, r, k, n, p', g', j))
  }

  lemma TookPage(p: Pool, g: Lists, r: Runs, k: nat, n: nat, p': Pool, g': Lists, j: nat)
    requires TookPages(p, g, r, k, n, p', g')
    ensures SizedPool(p', g', TakenRuns(r, k, n)) && PageOk(p', g', TakenRuns(r, k, n), j)
  {
    assert TakenCell(p, g, r, k, n, p', g', j) && PageOk(p, g, r, j) && RunOk(r, k) && SameRun(r, k, j);
    NextEdge(r, k);
    if j < |p.slab| {
      Aside(r, k, j);
      Aside(r, k + r.size[k], j);
      assert RunOk(r, j);
    }
  }

  /** Taking pages keeps all descriptors right. */
  lemma TookOk(p: Pool, g: Lists, r: Runs, k: nat, n: nat, p': Pool, g': Lists)
    requires TookPages(p, g, r, k, n, p', g')
    ensures PagesOk(p', g', TakenRuns(r, k, n))
  {
    var r' := TakenRuns(r, k, n);
    NextEdge(r, k);
    assert RunOk(r, k);
    if n == r.size[k] { PaintedOk(r, k, n, Whole); } else { SplitOk(r, k, n); }
    forall j: nat ensures PageOk(p', g', r', j) { TookPage(p, g, r, k, n, p', g', j); }
  }

  // ---------- the assignments ----------

  /** Descriptor j is as it was. */
  ghost predicate SamePage(p: Pool, p': Pool, j: nat)
    requires |p.slab| == |p'.slab| == |p.c.next| == |p'.c.next| == |p.c.prev| == |p'.c.prev| == |p.c.tag| == |p'.c.tag|
    requires j < |p.slab|
  {
    && p'.slab[j] == p.slab[j] && p'.c.next[j] == p.c.next[j]
    && p'.c.prev[j] == p.c.prev[j] && p'.c.tag[j] == p.c.tag[j]
  }

  /** The descriptors of an allocation, once its run is off the free list. */
  ghost predicate Filled(p: Pool, k: nat, n: nat, p': Pool, j: nat)
    requires |p.slab| == |p'.slab| == |p.c.next| == |p'.c.next| == |p.c.prev| == |p'.c.prev| == |p.c.tag| == |p'.c.tag|
  {
    j < |p.slab| ==>
      if k <= j < k + n then
        p'.slab[j] == (if j == k then Start(n) else Busy) && p'.c.next[j] == Null && p'.c.tag[j] == PAGE
      else
        SamePage(p, p', j)
  }

  ghost predicate FilledIn(p: Pool, k: nat, n: nat, p': Pool) {
    && |p.slab| == |p'.slab| == |p.c.next| == |p'.c.next| == |p.c.prev| == |p'.c.prev| == |p.c.tag| == |p'.c.tag|
        && p'.c.first == p.c.first
    && forall j: nat {:trigger Filled(p, k, n, p', j)} :: Filled(p, k, n, p', j)
  }

  /** The last part of al_slab_alloc_pages. */
  method Fill(p: Pool, k: nat, n: nat) returns (p': Pool)
    requires |p.slab| == |p.c.next| == |p.c.prev| == |p.c.tag| && 0 < n && k + n <= |p.slab|
    ensures FilledIn(p, k, n, p')
  {
    p' := p.(slab := p.slab[k := Start(n)],
        c := p.c.(next := p.c.next[k := Null], prev := p.c.prev[k := Null], tag := p.c.tag[k := PAGE]));
    var i := k + 1;
    while i < k + n
      invariant k < i <= k + n && |p'.slab| == |p.slab| == |p'.c.next| == |p'.c.prev| == |p'.c.tag|
      invariant p'.c.first == p.c.first
      invariant forall j: nat :: j < |p.slab| ==>
        if k <= j < i then
          p'.slab[j] == (if j == k then Start(n) else Busy) && p'.c.next[j] == Null && p'.c.tag[j] == PAGE
        else
          SamePage(p, p', j)
    {
      p' := p'.(slab := p'.slab[i := Busy],
          c := p'.c.(next := p'.c.next[i := Null], prev := p'.c.prev[i := Null], tag := p'.c.tag[i := PAGE]));
      i := i + 1;
    }
  }

  /** Off-list descriptors keep their prev when k leaves its list, and nobody's tag changes. */
  lemma ExactCell(p: Pool, g: Lists, r: Runs, k: nat, n: nat, c1: Links, p': Pool, j: nat)
    requires Fits(p, g, r, k, n) && n == r.size[k] && Taken(p.c, g, {}, k, c1) && FilledIn(p.(c := c1), k, n, p')
    ensures SizedPool(p', Dropped(g, k), r) && TakenCell(p, g, r, k, n, p', Dropped(g, k), j)
  {
    assert Filled(p.(c := c1), k, n, p', j) && Closed(p.c, g, k, c1, j) && PageOk(p, g, r, j) && SameRun(r, k, j);
    if j < |p.slab| && g.on[j] < 0 {
      assert PlaceOk(p.c, g, {}, k);
    }
  }

  /** A run of just n pages. */
  lemma ExactTook(p: Pool, g: Lists, r: Runs, k: nat, n: nat, c1: Links, p': Pool)
    requires Fits(p, g, r, k, n) && n == r.size[k] && Taken(p.c, g, {}, k, c1) && c1.next[k] == Null
    requires FilledIn(p.(c := c1), k, n, p')
    ensures TookPages(p, g, r, k, n, p', Dropped(g, k))
  {
    var g' := Dropped(g, k);
    TakenOk(p.c, g, {}, k, c1);
    forall j: nat ensures TakenCell(p, g, r, k, n, p', g', j) { ExactCell(p, g, r, k, n, c1, p', j); }
    forall j: nat ensures OffOnly(c1, g', p'.c, j) {
      assert Filled(p.(c := c1), k, n, p', j) && PlaceOk(c1, g', {}, j) && TakenCell(p, g, r, k, n, p', g', j);
    }
    OffWrites(c1, g', {}, p'.c);
  }

  /** The tail of the run points back to where its rest will begin. */
  ghost function Retailed(p: Pool, r: Runs, k: nat, n: nat): Links
    requires |p.c.prev| == |p.c.tag| == |r.size| && k < |r.size| && 0 < r.size[k] && k + r.size[k] <= |r.size|
  {
    p.c.(prev := p.c.prev[k + r.size[k] - 1 := At(k + n)], tag := p.c.tag[k + r.size[k] - 1 := PAGE])
  }

  lemma RetailedOk(p: Pool, g: Lists, r: Runs, k: nat, n: nat)
    requires Fits(p, g, r, k, n) && n < r.size[k]
    ensures k + r.size[k] <= |r.size| && ListsOk(Retailed(p, r, k, n), g, {})
    ensures CanSwap(Retailed(p, r, k, n), g, {}, k, k + n)
  {
    assert RunOk(r, k) && PageOk(p, g, r, k) && PlaceOk(p.c, g, {}, k);
    var t: nat := k + r.size[k] - 1;
    assert SameRun(r, k, t) && PageOk(p, g, r, t);
    assert SameRun(r, k, k + n) && PageOk(p, g, r, k + n);
    var c0 := Retailed(p, r, k, n);
    forall j: nat ensures OffOnly(p.c, g, c0, j) {}
    OffWrites(p.c, g, {}, c0);
  }

  ghost predicate Splitting(p: Pool, g: Lists, r: Runs, k: nat, n: nat, c1: Links, p': Pool) {
    && Fits(p, g, r, k, n) && n < r.size[k] && k + r.size[k] <= |r.size|
    && var c0 := Retailed(p, r, k, n);
       && CanSwap(c0, g, {}, k, k + n)
       && (c0.prev[k].At? ==> c0.prev[k].k < |c0.next|) && (c0.prev[k].Head? ==> c0.prev[k].l < |c0.first|)
       && (c0.next[k].At? ==> c0.next[k].k < |c0.next|)
       && c1 == Replaced(c0, k, k + n)
       && FilledIn(Pool(p.slab[k + n := Len(r.size[k] - n)], c1), k, n, p')
  }

  /** In the list the rest has taken the place of the run: no other prev is touched but that of the next on the list. */
  lemma SwapCell(c: Links, g: Lists, e: set<nat>, k: nat, n: nat, j: nat)
    requires CanSwap(c, g, e, k, n) && j < |c.next| && j != k
    ensures (c.prev[k].At? ==> c.prev[k].k < |c.next|) && (c.prev[k].Head? ==> c.prev[k].l < |c.first|)
    ensures (c.next[k].At? ==> c.next[k].k < |c.next|)
    ensures var c' := Replaced(c, k, n); j != n ==>
        c'.tag[j] == c.tag[j] && (g.on[j] < 0 ==> c'.next[j] == c.next[j] && c'.prev[j] == c.prev[j])
    ensures Replaced(c, k, n).tag[n] == c.tag[k]
  {
    Neighbours(c, g, e, k);
  }

  lemma SplitCell(p: Pool, g: Lists, r: Runs, k: nat, n: nat, c1: Links, p': Pool, j: nat)
    requires Splitting(p, g, r, k, n, c1, p')
    ensures SizedPool(p', Swapped(g, k, k + n), r) && TakenCell(p, g, r, k, n, p', Swapped(g, k, k + n), j)
  {
    var q := Pool(p.slab[k + n := Len(r.size[k] - n)], c1);
    assert Filled(q, k, n, p', j) && PageOk(p, g, r, k) && PageOk(p, g, r, j) && SameRun(r, k, j);
    if j < |p.slab| && j != k { SwapCell(Retailed(p, r, k, n), g, {}, k, k + n, j); }
  }

  /** A longer run. */
  lemma SplitTook(p: Pool, g: Lists, r: Runs, k: nat, n: nat, c1: Links, p': Pool)
    requires Splitting(p, g, r, k, n, c1, p')
    ensures TookPages(p, g, r, k, n, p', Swapped(g, k, k + n))
  {
    var g' := Swapped(g, k, k + n);
    ReplacedOk(Retailed(p, r, k, n), g, {}, k, k + n);
    forall j: nat ensures TakenCell(p, g, r, k, n, p', g', j) { SplitCell(p, g, r, k, n, c1, p', j); }
    forall j: nat ensures OffOnly(c1, g', p'.c, j) {
      assert Filled(Pool(p.slab[k + n := Len(r.size[k] - n)], c1), k, n, p', j) && PlaceOk(c1, g', {}, j)
          && TakenCell(p, g, r, k, n, p', g', j);
    }
    OffWrites(c1, g', {}, p'.c);
  }

  /** Every run before k on the free list is too short. */
  ghost predicate FirstFit(g: Lists, r: Runs, k: nat, n: nat) {
    && |g.lists| > 0 && k < |g.pos| && g.pos[k] < |g.lists[0]| && g.lists[0][g.pos[k]] == k
    && forall j :: 0 <= j < g.pos[k] && g.lists[0][j] < |r.size| ==> r.size[g.lists[0][j]] < n
  }

  /** The loop of al_slab_alloc_pages: first fit on the list. */
  method FindRun(p: Pool, n: nat, ghost g: Lists, ghost r: Runs) returns (page: Link)
    requires PagesOk(p, g, r) && n > 0
    ensures page.At? ==> Fits(p, g, r, page.k, n) && FirstFit(g, r, page.k, n)
    ensures !page.At? ==> page == Null && forall k :: 0 <= k < |p.slab| && r.head[k] == k && r.kind[k] == Free ==>
        r.size[k] < n
  {
    page := p.c.first[0];
    ghost var i := 0;
    assert FirstOk(p.c, g, 0);
    while page != Head(0)
      invariant i <= |g.lists[0]| && page == After(g, 0, i)
      invariant forall j :: 0 <= j < i && g.lists[0][j] < |r.size| ==> r.size[g.lists[0][j]] < n
      decreases |g.lists[0]| - i
    {
      assert EntryOk(p.c, g, 0, i) && PageOk(p, g, r, page.k);
      if p.slab[page.k].n >= n {
        return;
      }
      page := p.c.next[page.k];
      i := i + 1;
    }
    page := Null;
    forall k | 0 <= k < |p.slab| && r.head[k] == k && r.kind[k] == Free ensures r.size[k] < n {
      assert PageOk(p, g, r, k) && PlaceOk(p.c, g, {}, k);
    }
  }

  /** Take n pages of the free run at k. */
  method TakeRun(p: Pool, k: nat, n: nat, ghost g: Lists, ghost r: Runs) returns (p': Pool, ghost g': Lists)
    requires Fits(p, g, r, k, n)
    ensures TookPages(p, g, r, k, n, p', g')
  {
    assert PageOk(p, g, r, k) && PlaceOk(p.c, g, {}, k) && RunOk(r, k);
    var size := p.slab[k].n;
    if size > n {
      p', g' := TakePart(p, k, n, g, r);
    } else {
      UnlinkedCells(p.c, g, {}, k, k);
      var c := Unlinked(p.c, k);
      ghost var c1 := c.(next := c.next[k := Null]);
      UnlinkedTaken(p.c, g, {}, k, c1);
      p' := Fill(p.(c := c), k, n);
      g' := Dropped(g, k);
      FilledCleared(p.(c := c), k, n, p');
      ExactTook(p, g, r, k, n, c1, p');
    }
  }

  lemma FilledCleared(p: Pool, k: nat, n: nat, p': Pool)
    requires FilledIn(p, k, n, p') && 0 < n && k + n <= |p.slab|
    ensures FilledIn(p.(c := p.c.(next := p.c.next[k := Null])), k, n, p')
  {
    var q := p.(c := p.c.(next := p.c.next[k := Null]));
    forall j: nat ensures Filled(q, k, n, p', j) { assert Filled(p, k, n, p', j); }
  }

  method TakePart(p: Pool, k: nat, n: nat, ghost g: Lists, ghost r: Runs) returns (p': Pool, ghost g': Lists)
    requires Fits(p, g, r, k, n) && n < r.size[k] && p.slab[k] == Len(r.size[k])
    ensures TookPages(p, g, r, k, n, p', g')
  {
    RetailedOk(p, g, r, k, n);
    var size := p.slab[k].n;
    var c := p.c.(prev := p.c.prev[k + size - 1 := At(k + n)], tag := p.c.tag[k + size - 1 := PAGE]);
    ReplacedOk(c, g, {}, k, k + n);
    var c1 := Replaced(c, k, k + n);
    p' := Fill(Pool(p.slab[k + n := Len(size - n)], c1), k, n);
    g' := Swapped(g, k, k + n);
    SplitTook(p, g, r, k, n, c1, p');
  }
}
