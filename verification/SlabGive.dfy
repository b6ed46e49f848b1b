/** al_slab_free_pages: a run becomes free and is joined with the free runs that touch it. */
module SlabGive {

  import opened SlabLists
  import opened SlabPages
  import opened SlabTake

  /** Clearing a descriptor that is on no list. */
  lemma NullWrites(c: Links, g: Lists, e: set<nat>, k: nat, c': Links)
    requires ListsOk(c, g, e) && k < |c.next| && g.on[k] < 0 && |c'.prev| == |c'.tag| == |c.next|
    requires c' == c.(next := c.next[k := Null], prev := c.prev[k := c'.prev[k]], tag := c.tag[k := c'.tag[k]])
    ensures ListsOk(c', g, e - {k})
  {
    forall l: nat, i: nat ensures EntryOk(c', g, l, i) { assert EntryOk(c, g, l, i); }
    forall l: nat ensures FirstOk(c', g, l) { assert FirstOk(c, g, l); }
    forall j: nat ensures PlaceOk(c', g, e - {k}, j) { assert PlaceOk(c, g, e, j); }
  }

  /** Pages a..b are being freed: inside they are clear, and the first of them knows the length. */
  ghost predicate Clearing(p: Pool, g: Lists, r: Runs, a: nat, b: nat, k: nat)
    requires SizedPool(p, g, r)
  {
    k < |p.slab| ==> if a < k < b then Inner(p, g, k, Len(0)) else k != a ==> PageOk(p, g, r, k)
  }

  ghost predicate Region(p: Pool, g: Lists, r: Runs, a: nat, b: nat) {
    && SizedPool(p, g, r) && ListsOk(p.c, g, {a}) && RunsOk(r) && a < b <= |p.slab| && Edge(r, a) && Edge(r, b)
    && g.on[a] == -1 && p.slab[a] == Len(b - a)
    && (forall k: nat {:trigger Clearing(p, g, r, a, b, k)} :: Clearing(p, g, r, a, b, k))
  }

  // ---------- a free neighbour leaves its list ----------

  /** The free run at k off its list; nothing else that matters here has changed. */
  ghost predicate Lone(p: Pool, g: Lists, k: nat, c': Links, g': Lists, j: nat)
    requires SizedLists(p.c, g) && SizedLists(c', g')
  {
    |c'.next| == |p.c.next| && (j < |p.c.next| ==>
      && c'.tag[j] == p.c.tag[j] && g'.on[j] == (if j == k then -1 else g.on[j])
      && (g.on[j] < 0 ==> c'.prev[j] == p.c.prev[j] && c'.next[j] == p.c.next[j]))
  }

  lemma TakenLone(p: Pool, g: Lists, e: set<nat>, k: nat, c': Links, j: nat)
    requires Taken(p.c, g, e, k, c')
    ensures SizedLists(c', Dropped(g, k)) && Lone(p, g, k, c', Dropped(g, k), j)
  {
    assert Closed(p.c, g, k, c', j) && PlaceOk(p.c, g, e, k);
    if j < |p.c.next| { assert PlaceOk(p.c, g, e, j); }
  }

  /** A free run begins at b exactly when its tag is that of a page and it is on a list. */
  lemma FreeHere(p: Pool, g: Lists, r: Runs, a: nat, b: nat)
    requires Region(p, g, r, a, b) && b < |p.slab|
    ensures p.c.tag[b] == PAGE && p.c.next[b] != Null <==> r.kind[b] == Free
    ensures r.kind[b] == Free ==> OnList(p.c, g, {a}, b) && p.slab[b] == Len(r.size[b]) && b + r.size[b] <= |p.slab|
    ensures r.kind[b] == Free ==> Edge(r, b + r.size[b])
    ensures r.kind[b] == Free && b + r.size[b] < |p.slab| ==> r.kind[b + r.size[b]] != Free
  {
    assert Clearing(p, g, r, a, b, b) && PlaceOk(p.c, g, {a}, b) && RunOk(r, b);
    NextEdge(r, b);
    if r.kind[b] == Free {
      var l, i := g.on[b], g.pos[b];
      assert EntryOk(p.c, g, l, i);
      var f: nat := b + r.size[b];
      var t: nat := f - 1;
      assert SameRun(r, b, t) && EdgeOk(r, f);
    }
  }

  ghost predicate JoinsNext(p: Pool, g: Lists, r: Runs, a: nat, b: nat, c1: Links, p': Pool) {
    && Region(p, g, r, a, b) && b < |p.slab| && r.kind[b] == Free && Taken(p.c, g, {a}, b, c1) && c1.next[b] == Null
    && p'.slab == p.slab[a := Len(b - a + r.size[b])][b := Len(0)]
    && |p'.c.prev| == |p'.c.tag| == |c1.next|
    && p'.c == c1.(prev := c1.prev[b := p'.c.prev[b]], tag := c1.tag[b := PAGE])
  }

  lemma JoinedNextCell(p: Pool, g: Lists, r: Runs, a: nat, b: nat, c1: Links, p': Pool, k: nat)
    requires JoinsNext(p, g, r, a, b, c1, p')
    ensures SizedPool(p', Dropped(g, b), r) && Clearing(p', Dropped(g, b), r, a, b + r.size[b], k)
  {
    assert Clearing(p, g, r, a, b, k);
    TakenLone(p, g, {a}, b, c1, k);
    FreeHere(p, g, r, a, b);
    if b <= k < b + r.size[b] { assert SameRun(r, b, k); }
  }

  /** The free run behind is joined. */
  lemma JoinedNext(p: Pool, g: Lists, r: Runs, a: nat, b: nat, c1: Links, p': Pool)
    requires JoinsNext(p, g, r, a, b, c1, p')
    ensures Region(p', Dropped(g, b), r, a, b + r.size[b])
  {
    var g', b' := Dropped(g, b), b + r.size[b];
    FreeHere(p, g, r, a, b);
    TakenOk(p.c, g, {a}, b, c1);
    TakenLone(p, g, {a}, b, c1, a);
    forall k: nat ensures Clearing(p', g', r, a, b', k) { JoinedNextCell(p, g, r, a, b, c1, p', k); }
    TakenLone(p, g, {a}, b, c1, b);
    NullWrites(c1, g', {a}, b, p'.c);
    assert {a} - {b} == {a};
  }

  // ---------- the run before ----------

  /** How the code finds the run that ends just before a. */
  function Back(p: Pool, a: nat): nat
    requires 0 < a <= |p.slab| && |p.c.prev| == |p.slab|
  {
    if p.slab[a - 1] == Len(0) && p.c.prev[a - 1].At? then p.c.prev[a - 1].k else a - 1
  }

  lemma FreeBefore(p: Pool, g: Lists, r: Runs, a: nat, b: nat)
    requires Region(p, g, r, a, b) && 0 < a
    ensures r.kind[a - 1] == Free ==> p.c.tag[a - 1] == PAGE
    ensures p.c.tag[a - 1] == PAGE && p.slab[a - 1] == Len(0) ==> p.c.prev[a - 1] == At(r.head[a - 1])
    ensures p.c.tag[a - 1] == PAGE ==> Back(p, a) < |p.slab|
    ensures p.c.tag[a - 1] == PAGE ==> (p.c.next[Back(p, a)] != Null <==> r.kind[a - 1] == Free)
    ensures r.kind[a - 1] == Free ==> var h := r.head[a - 1];
      h == Back(p, a) && OnList(p.c, g, {a}, h) && h < a && r.head[h] == h && r.kind[h] == Free
          && p.slab[h] == Len(a - h) && r.size[h] == a - h
  {
    var j: nat := a - 1;
    assert Clearing(p, g, r, a, b, j) && PlaceOk(p.c, g, {a}, j) && RunOk(r, j);
    Aside(r, a, j);
    var h := r.head[j];
    assert SameRun(r, j, h) && Clearing(p, g, r, a, b, h) && PlaceOk(p.c, g, {a}, h);
    if r.kind[j] == Free {
      var l, i := g.on[h], g.pos[h];
      assert EntryOk(p.c, g, l, i);
    }
  }

  ghost predicate JoinsPrev(p: Pool, g: Lists, r: Runs, a: nat, b: nat, h: nat, c1: Links, p': Pool) {
    && Region(p, g, r, a, b) && 0 < a && r.kind[a - 1] == Free && h == r.head[a - 1] && h < a && r.size[h] == a - h
    && Taken(p.c, g, {a}, h, c1)
    && p'.slab == p.slab[h := Len(b - h)][a := Len(0)]
    && |p'.c.prev| == |p'.c.tag| == |c1.next|
    && p'.c == c1.(next := c1.next[a := Null], prev := c1.prev[a := p'.c.prev[a]], tag := c1.tag[a := PAGE])
  }

  lemma JoinedPrevCell(p: Pool, g: Lists, r: Runs, a: nat, b: nat, h: nat, c1: Links, p': Pool, k: nat)
    requires JoinsPrev(p, g, r, a, b, h, c1, p')
    ensures SizedPool(p', Dropped(g, h), r) && Clearing(p', Dropped(g, h), r, h, b, k)
  {
    assert Clearing(p, g, r, a, b, k);
    TakenLone(p, g, {a}, h, c1, k);
    FreeBefore(p, g, r, a, b);
    if h <= k < a { assert SameRun(r, h, k); }
  }

  /** The free run before is joined, and is where the run begins now. */
  lemma JoinedPrev(p: Pool, g: Lists, r: Runs, a: nat, b: nat, h: nat, c1: Links, p': Pool)
    requires JoinsPrev(p, g, r, a, b, h, c1, p')
    ensures Region(p', Dropped(g, h), r, h, b) && (h > 0 ==> r.kind[h - 1] != Free)
  {
    var g' := Dropped(g, h);
    FreeBefore(p, g, r, a, b);
    TakenOk(p.c, g, {a}, h, c1);
    TakenLone(p, g, {a}, h, c1, a);
    TakenLone(p, g, {a}, h, c1, h);
    forall k: nat ensures Clearing(p', g', r, h, b, k) { JoinedPrevCell(p, g, r, a, b, h, c1, p', k); }
    var e := if c1.next[h] == Null then {a} else {a} + {h};
    NullWrites(c1, g', e, a, p'.c);
    Exempt(p'.c, g', e - {a}, {h});
    assert EdgeOk(r, h);
  }

  /** Exempting more descriptors. */
  lemma Exempt(c: Links, g: Lists, e: set<nat>, e': set<nat>)
    requires ListsOk(c, g, e) && e <= e'
    ensures ListsOk(c, g, e')
  {
    forall k: nat ensures PlaceOk(c, g, e', k) { assert PlaceOk(c, g, e, k); }
  }

  // ---------- the beginning ----------

  /** All descriptors are right but perhaps that of k, which begins a run that is not free. */
  ghost predicate PagesBut(p: Pool, g: Lists, r: Runs, k: nat) {
    && SizedPool(p, g, r) && ListsOk(p.c, g, {}) && RunsOk(r) && k < |p.slab| && r.head[k] == k && r.kind[k] != Free
    && (forall j: nat {:trigger PageOk(p, g, r, j)} :: j != k ==> PageOk(p, g, r, j))
  }

  /** The descriptor of page j after the run at k was cleared. */
  ghost predicate Zeroed(p: Pool, k: nat, n: nat, p': Pool, j: nat)
    requires |p.slab| == |p'.slab| == |p.c.next| == |p'.c.next| == |p.c.prev| == |p'.c.prev| == |p.c.tag| == |p'.c.tag|
  {
    j < |p.slab| ==>
      if k < j < k + n then p'.slab[j] == Len(0) && p'.c.next[j] == Null && p'.c.tag[j] == PAGE
      else
        && p'.slab[j] == (if j == k then Len(n) else p.slab[j]) && p'.c.next[j] == p.c.next[j]
        && p'.c.prev[j] == p.c.prev[j] && p'.c.tag[j] == p.c.tag[j]
  }

  ghost predicate ZeroedIn(p: Pool, k: nat, n: nat, p': Pool) {
    && |p.slab| == |p'.slab| == |p.c.next| == |p'.c.next| == |p.c.prev| == |p'.c.prev| == |p.c.tag| == |p'.c.tag|
        && p'.c.first == p.c.first
    && forall j: nat {:trigger Zeroed(p, k, n, p', j)} :: Zeroed(p, k, n, p', j)
  }

  /** page->slab = pages, and the memset of the other descriptors. */
  method Zero(p: Pool, k: nat, n: nat) returns (p': Pool)
    requires |p.slab| == |p.c.next| == |p.c.prev| == |p.c.tag| && 0 < n && k + n <= |p.slab|
    ensures ZeroedIn(p, k, n, p')
  {
    p' := p.(slab := p.slab[k := Len(n)]);
    var i := k + 1;
    while i < k + n
      invariant k < i <= k + n && |p'.slab| == |p.slab| == |p'.c.next| == |p'.c.prev| == |p'.c.tag|
      invariant p'.c.first == p.c.first
      invariant forall j: nat :: j < |p.slab| ==>
        if k < j < i then p'.slab[j] == Len(0) && p'.c.next[j] == Null && p'.c.tag[j] == PAGE
        else
          && p'.slab[j] == (if j == k then Len(n) else p.slab[j]) && p'.c.next[j] == p.c.next[j]
          && p'.c.prev[j] == p.c.prev[j] && p'.c.tag[j] == p.c.tag[j]
    {
      p' := p'.(slab := p'.slab[i := Len(0)],
          c := p'.c.(next := p'.c.next[i := Null], prev := p'.c.prev[i := Null], tag := p'.c.tag[i := PAGE]));
      i := i + 1;
    }
  }

  lemma ZeroedLists(p: Pool, g: Lists, r: Runs, k: nat, p': Pool)
    requires PagesBut(p, g, r, k) && ZeroedIn(p, k, r.size[k], p')
    ensures ListsOk(p'.c, g, {})
  {
    forall j: nat ensures OffOnly(p.c, g, p'.c, j) {
      assert Zeroed(p, k, r.size[k], p', j);
      if k < j < k + r.size[k] {
        assert PageOk(p, g, r, j) && SameRun(r, k, j);
      }
    }
    OffWrites(p.c, g, {}, p'.c);
  }

  /** Off its slot list, if it was on one. */
  ghost predicate Begins(p: Pool, g: Lists, r: Runs, k: nat, p1: Pool, p': Pool, g': Lists) {
    && PagesBut(p, g, r, k) && ZeroedIn(p, k, r.size[k], p1) && p'.slab == p1.slab && ListsOk(p1.c, g, {})
    && if g.on[k] < 0 then p' == p1 && g' == g else Taken(p1.c, g, {}, k, p'.c) && g' == Dropped(g, k)
  }

  lemma BeganCell(p: Pool, g: Lists, r: Runs, k: nat, p1: Pool, p': Pool, g': Lists, j: nat)
    requires Begins(p, g, r, k, p1, p', g')
    ensures SizedPool(p', g', r) && Clearing(p', g', r, k, k + r.size[k], j)
  {
    assert Zeroed(p, k, r.size[k], p1, j);
    if g.on[k] >= 0 { TakenLone(p1, g, {}, k, p'.c, j); }
    if j < |p.slab| && j != k {
      assert PageOk(p, g, r, j) && SameRun(r, k, j);
    }
  }

  lemma Began(p: Pool, g: Lists, r: Runs, k: nat, p1: Pool, p': Pool, g': Lists)
    requires Begins(p, g, r, k, p1, p', g')
    ensures Region(p', g', r, k, k + r.size[k])
  {
    NextEdge(r, k);
    assert RunOk(r, k) && Zeroed(p, k, r.size[k], p1, k) && PlaceOk(p.c, g, {}, k);
    if g.on[k] >= 0 {
      TakenOk(p1.c, g, {}, k, p'.c);
      Exempt(p'.c, g', if p'.c.next[k] == Null then {} else {} + {k}, {k});
    } else {
      Exempt(p'.c, g', {}, {k});
    }
    var b := k + r.size[k];
    forall j: nat ensures Clearing(p', g', r, k, b, j) { BeganCell(p, g, r, k, p1, p', g', j); }
  }

  // ---------- the end ----------

  /** The tail of the run points back, and the run is first on the free list. */
  ghost predicate Ends(p: Pool, g: Lists, r: Runs, a: nat, b: nat, c1: Links, p': Pool) {
    && Region(p, g, r, a, b) && (a > 0 ==> r.kind[a - 1] != Free) && (b < |p.slab| ==> r.kind[b] != Free)
    && c1 == (if b - a > 1 then p.c.(prev := p.c.prev[b - 1 := At(a)], tag := p.c.tag[b - 1 := PAGE]) else p.c)
    && CanPush(c1, g, {a}, 0, a) && (c1.first[0].At? ==> c1.first[0].k < |c1.next|)
    && p' == p.(c := Pushed(c1, 0, a))
  }

  lemma TailWritten(p: Pool, g: Lists, r: Runs, a: nat, b: nat, c1: Links)
    requires Region(p, g, r, a, b)
    requires c1 == (if b - a > 1 then p.c.(prev := p.c.prev[b - 1 := At(a)], tag := p.c.tag[b - 1 := PAGE]) else p.c)
    ensures CanPush(c1, g, {a}, 0, a)
  {
    forall j: nat ensures OffOnly(p.c, g, c1, j) {
      assert Clearing(p, g, r, a, b, j);
    }
    OffWrites(p.c, g, {a}, c1);
  }

  lemma PushCell(c: Links, g: Lists, e: set<nat>, l: nat, k: nat, j: nat)
    requires CanPush(c, g, e, l, k) && j < |c.next|
    ensures c.first[l].At? ==> c.first[l].k < |c.next|
    ensures var c' := Pushed(c, l, k);
        (j != k ==> c'.tag[j] == c.tag[j] && (g.on[j] < 0 ==> c'.next[j] == c.next[j] && c'.prev[j] == c.prev[j]))
        && c'.tag[k] == TagOf(l)
    ensures Front(g, l, k).on[j] == if j == k then l else g.on[j]
  {
    PushReady(c, g, e, l, k);
  }

  lemma EndedInside(p: Pool, g: Lists, r: Runs, a: nat, b: nat, c1: Links, p': Pool, k: nat)
    requires Ends(p, g, r, a, b, c1, p') && a <= k < b
    ensures SizedPool(p', Front(g, 0, a), Painted(r, a, b - a, Free))
    ensures PageOk(p', Front(g, 0, a), Painted(r, a, b - a, Free), k)
  {
    assert Clearing(p, g, r, a, b, k);
    PushCell(c1, g, {a}, 0, a, k);
  }

  lemma EndedOutside(p: Pool, g: Lists, r: Runs, a: nat, b: nat, c1: Links, p': Pool, k: nat)
    requires Ends(p, g, r, a, b, c1, p') && k < |p.slab| && !(a <= k < b)
    ensures SizedPool(p', Front(g, 0, a), Painted(r, a, b - a, Free))
    ensures PageOk(p', Front(g, 0, a), Painted(r, a, b - a, Free), k)
  {
    assert Clearing(p, g, r, a, b, k);
    PushCell(c1, g, {a}, 0, a, k);
  }

  /** One free run from a to b, and no free run next to it. */
  lemma Ended(p: Pool, g: Lists, r: Runs, a: nat, b: nat, c1: Links, p': Pool)
    requires Ends(p, g, r, a, b, c1, p')
    ensures PagesOk(p', Front(g, 0, a), Painted(r, a, b - a, Free))
  {
    var g', r' := Front(g, 0, a), Painted(r, a, b - a, Free);
    PaintedOk(r, a, b - a, Free);
    PushedOk(c1, g, {a}, 0, a);
    assert {a} - {a} == {};
    forall k: nat ensures PageOk(p', g', r', k) {
      if a <= k < b { EndedInside(p, g, r, a, b, c1, p', k); }
      else if k < |p.slab| { EndedOutside(p, g, r, a, b, c1, p', k); }
    }
  }

  // ---------- the whole ----------

  /** Where the free run begins and ends once the run at k is free. */
  ghost function Low(r: Runs, k: nat): nat
    requires |r.head| == |r.size| == |r.kind| && k < |r.head|
  {
    if k > 0 && r.kind[k - 1] == Free then r.head[k - 1] else k
  }

  ghost function High(r: Runs, k: nat): nat
    requires |r.head| == |r.size| == |r.kind| && k < |r.head|
  {
    var b := k + r.size[k];
    if b < |r.head| && r.kind[b] == Free then b + r.size[b] else b
  }

  ghost function Freed(r: Runs, k: nat): Runs
    requires |r.head| == |r.size| == |r.kind| && k < |r.head| && Low(r, k) <= High(r, k)
  {
    Painted(r, Low(r, k), High(r, k) - Low(r, k), Free)
  }

  /** Only descriptors of the pages a..b have another slab field. */
  ghost predicate SlabsKept(p: Pool, a: nat, b: nat, p': Pool) {
    |p'.slab| == |p.slab| && forall j :: 0 <= j < |p.slab| && !(a <= j < b) ==> p'.slab[j] == p.slab[j]
  }

  /** The first part: k is cleared, and off its list. */
  method Begin(p: Pool, k: nat, n: nat, ghost g: Lists, ghost r: Runs) returns (p': Pool, ghost g': Lists)
    requires PagesBut(p, g, r, k) && n == r.size[k]
    ensures Region(p', g', r, k, k + n) && SlabsKept(p, k, k + n, p')
  {
    assert RunOk(r, k) && PlaceOk(p.c, g, {}, k);
    ghost var l, i := g.on[k], g.pos[k];
    assert l >= 0 ==> EntryOk(p.c, g, l, i);
    p' := Zero(p, k, n);
    g' := g;
    ghost var p1 := p';
    ZeroedLists(p, g, r, k, p1);
    assert Zeroed(p, k, n, p1, k);
    if p'.c.next[k] != Null {
      UnlinkedCells(p1.c, g, {}, k, k);
      p' := p'.(c := Unlinked(p'.c, k));
      UnlinkedTaken(p1.c, g, {}, k, p'.c);
      g' := Dropped(g, k);
    }
    Began(p, g, r, k, p1, p', g');
    forall j | 0 <= j < |p.slab| && !(k <= j < k + n) ensures p'.slab[j] == p.slab[j] { assert Zeroed(p, k, n, p1, j); }
  }

  /** The second part: join the free run behind. */
  method JoinNext(p: Pool, a: nat, b: nat, ghost g: Lists, ghost r: Runs) returns (p': Pool, b': nat, ghost g': Lists)
    requires Region(p, g, r, a, b)
    ensures Region(p', g', r, a, b') && SlabsKept(p, a, b', p') && (b' < |p.slab| ==> r.kind[b'] != Free)
    ensures b' == if b < |p.slab| && r.kind[b] == Free then b + r.size[b] else b
  {
    p', g', b' := p, g, b;
    if b < |p.slab| {
      FreeHere(p, g, r, a, b);
      if p.c.tag[b] == PAGE && p.c.next[b] != Null {
        b' := b + p.slab[b].n;
        p' := p'.(slab := p'.slab[a := Len(p'.slab[a].n + p'.slab[b].n)]);
        UnlinkedCells(p.c, g, {a}, b, b);
        var c := Unlinked(p.c, b);
        ghost var c1 := c.(next := c.next[b := Null]);
        UnlinkedTaken(p.c, g, {a}, b, c1);
        p' := Pool(p'.slab[b := Len(0)],
            c.(next := c.next[b := Null], prev := c.prev[b := Null], tag := c.tag[b := PAGE]));
        JoinedNext(p, g, r, a, b, c1, p');
        g' := Dropped(g, b);
      }
    }
  }

  /** The third part: join the free run before. */
  method JoinPrev(p: Pool, a: nat, b: nat, ghost g: Lists, ghost r: Runs) returns (p': Pool, a': nat, ghost g': Lists)
    requires Region(p, g, r, a, b)
    ensures Region(p', g', r, a', b) && SlabsKept(p, a', b, p') && (a' > 0 ==> r.kind[a' - 1] != Free)
    ensures a' == if a > 0 && r.kind[a - 1] == Free then r.head[a - 1] else a
  {
    p', g', a' := p, g, a;
    if a > 0 {
      FreeBefore(p, g, r, a, b);
      if p.c.tag[a - 1] == PAGE {
        var join := a - 1;
        if p.slab[join] == Len(0) {
          join := p.c.prev[join].k;
        }
        if p.c.next[join] != Null {
          p', g' := JoinAt(p, a, b, join, g, r);
          a' := join;
        }
      }
    }
  }

  method JoinAt(p: Pool, a: nat, b: nat, h: nat, ghost g: Lists, ghost r: Runs) returns (p': Pool, ghost g': Lists)
    requires Region(p, g, r, a, b) && 0 < a && r.kind[a - 1] == Free && h == r.head[a - 1]
    ensures Region(p', g', r, h, b) && SlabsKept(p, h, b, p') && (h > 0 ==> r.kind[h - 1] != Free)
  {
    FreeBefore(p, g, r, a, b);
    p' := p.(slab := p.slab[h := Len(p.slab[h].n + p.slab[a].n)]);
    UnlinkedCells(p.c, g, {a}, h, h);
    var c := Unlinked(p.c, h);
    UnlinkedTaken(p.c, g, {a}, h, c);
    p' := Pool(p'.slab[a := Len(0)], c.(next := c.next[a := Null], prev := c.prev[a := Null], tag := c.tag[a := PAGE]));
    JoinedPrev(p, g, r, a, b, h, c, p');
    g' := Dropped(g, h);
  }

  /** The last part: the tail points back, and the run goes to the front of the free list. */
  method Finish(p: Pool, a: nat, b: nat, ghost g: Lists, ghost r: Runs) returns (p': Pool, ghost g': Lists)
    requires Region(p, g, r, a, b) && (a > 0 ==> r.kind[a - 1] != Free) && (b < |p.slab| ==> r.kind[b] != Free)
    ensures PagesOk(p', g', Painted(r, a, b - a, Free)) && p'.slab == p.slab && g'.lists[0] != [] && g'.lists[0][0] == a
  {
    p' := p;
    if b - a > 1 {
      p' := p'.(c := p'.c.(prev := p'.c.prev[b - 1 := At(a)], tag := p'.c.tag[b - 1 := PAGE]));
    }
    ghost var c1 := p'.c;
    TailWritten(p, g, r, a, b, c1);
    PushReady(c1, g, {a}, 0, a);
    p' := p'.(c := Pushed(p'.c, 0, a));
    Ended(p, g, r, a, b, c1, p');
    g' := Front(g, 0, a);
  }

  lemma KeptThrough(p: Pool, a: nat, b: nat, p1: Pool, a': nat, b': nat, p2: Pool)
    requires SlabsKept(p, a, b, p1) && SlabsKept(p1, a', b', p2) && a' <= a && b <= b'
    ensures SlabsKept(p, a', b', p2)
  {}

  /** Both joins. */
  method JoinBoth(p: Pool, k: nat, b0: nat, ghost g: Lists, ghost r: Runs)
      returns (p': Pool, a: nat, b: nat, ghost g': Lists)
    requires Region(p, g, r, k, b0) && r.head[k] == k && b0 == k + r.size[k]
    ensures a == Low(r, k) <= k < b0 <= b == High(r, k) && Region(p', g', r, a, b) && SlabsKept(p, a, b, p')
    ensures (a > 0 ==> r.kind[a - 1] != Free) && (b < |p.slab| ==> r.kind[b] != Free)
  {
    var p1;
    ghost var g1;
    p1, b, g1 := JoinNext(p, k, b0, g, r);
    p', a, g' := JoinPrev(p1, k, b, g1, r);
    assert a <= k by { if k > 0 { var j: nat := k - 1; assert RunOk(r, j); } }
    KeptThrough(p, k, b, p1, a, b, p');
  }

  /** al_slab_free_pages. */
  method FreePages(p: Pool, k: nat, n: nat, ghost g: Lists, ghost r: Runs) returns (p': Pool, ghost g': Lists)
    requires PagesBut(p, g, r, k) && n == r.size[k]
    ensures Low(r, k) <= k < k + n <= High(r, k) <= |p.slab| && PagesOk(p', g', Freed(r, k))
    ensures SlabsKept(p, Low(r, k), High(r, k), p')
    ensures g'.lists[0] != [] && g'.lists[0][0] == Low(r, k)
  {
    assert RunOk(r, k);
    var p1, p2, a, b;
    ghost var g1, g2;
    p1, g1 := Begin(p, k, n, g, r);
    p2, a, b, g2 := JoinBoth(p1, k, k + n, g1, r);
    KeptThrough(p, k, k + n, p1, a, b, p2);
    p', g' := Finish(p2, a, b, g2, r);
  }
}
