/** The counters of the pool are the numbers of free pages, of chunks in use and of chunks there are. */
module SlabTally {

  import opened SlabPages
  import opened SlabCount
  import opened SlabLive

  /** The pages of one kind below page n. */
  ghost function PagesOf(r: Runs, kind: Kind, n: nat): set<nat>
    requires n <= |r.kind|
  {
    set k: nat | k < n && r.kind[k] == kind
  }

  /** The first n chunks in use of page k. */
  ghost function ChunksAt(p: Pool, k: nat, n: nat): set<Block>
    requires k < |p.slab| && n <= |Map(p.slab[k])|
  {
    set i: nat | i < n && Map(p.slab[k])[i] :: Chunk(k, i)
  }

  /** The chunks in use of class s on the pages below page n. */
  ghost function ChunksOf(p: Pool, r: Runs, s: nat, n: nat): set<Block>
    requires n <= |p.slab| == |r.kind|
  {
    set k: nat, i: nat | k < n && i < |Map(p.slab[k])| && r.kind[k] == Slab(s) && Map(p.slab[k])[i] :: Chunk(k, i)
  }

  lemma {:induction false} ChunksAtCount(p: Pool, k: nat, n: nat)
    requires k < |p.slab| && n <= |Map(p.slab[k])|
    ensures |ChunksAt(p, k, n)| == Ones(Map(p.slab[k])[..n])
  {
    if n > 0 {
      var m := n - 1;
      ChunksAtCount(p, k, m);
      assert Map(p.slab[k])[..n][..m] == Map(p.slab[k])[..m];
      var last := if Map(p.slab[k])[m] then {Chunk(k, m)} else {};
      assert ChunksAt(p, k, n) == ChunksAt(p, k, m) + last;
    } else {
      assert ChunksAt(p, k, n) == {};
    }
  }

  lemma SumNext(w: seq<nat>, n: nat)
    requires n < |w|
    ensures Sum(w[..n + 1]) == Sum(w[..n]) + w[n]
  {
    assert w[..n + 1][..n] == w[..n];
  }

  lemma NextPage(p: Pool, r: Runs, s: nat, n: nat)
    requires n < |p.slab| == |r.kind|
    ensures |ChunksOf(p, r, s, n + 1)| ==
        |ChunksOf(p, r, s, n)| + if r.kind[n] == Slab(s) then Ones(Map(p.slab[n])) else 0
  {
    var bits := Map(p.slab[n]);
    ChunksAtCount(p, n, |bits|);
    assert bits[..|bits|] == bits;
    var last := if r.kind[n] == Slab(s) then ChunksAt(p, n, |bits|) else {};
    assert ChunksOf(p, r, s, n + 1) == ChunksOf(p, r, s, n) + last;
  }

  lemma {:induction false} ChunksOfCount(p: Pool, r: Runs, s: nat, n: nat)
    requires n <= |p.slab| == |r.kind|
    ensures |ChunksOf(p, r, s, n)| == Sum(UsedIn(p, r, s)[..n])
  {
    if n > 0 {
      ChunksOfCount(p, r, s, n - 1);
      SumNext(UsedIn(p, r, s), n - 1);
      NextPage(p, r, s, n - 1);
    } else {
      assert ChunksOf(p, r, s, n) == {};
    }
  }

  lemma NextOfKind(r: Runs, kind: Kind, n: nat)
    requires n < |r.kind|
    ensures |PagesOf(r, kind, n + 1)| == |PagesOf(r, kind, n)| + if r.kind[n] == kind then 1 else 0
  {
    var last := if r.kind[n] == kind then {n} else {};
    assert PagesOf(r, kind, n + 1) == PagesOf(r, kind, n) + last;
  }

  lemma TimesMore(a: nat, x: nat)
    ensures (a + 1) * x == a * x + x
  {}

  /** x for every page of one kind. */
  lemma {:induction false} PagesOfCount(r: Runs, kind: Kind, n: nat, w: seq<nat>, x: nat)
    requires n <= |r.kind| == |w| && forall k :: 0 <= k < |w| ==> w[k] == if r.kind[k] == kind then x else 0
    ensures Sum(w[..n]) == |PagesOf(r, kind, n)| * x
  {
    if n > 0 {
      PagesOfCount(r, kind, n - 1, w, x);
      SumNext(w, n - 1);
      NextOfKind(r, kind, n - 1);
      TimesMore(|PagesOf(r, kind, n - 1)|, x);
    } else {
      assert PagesOf(r, kind, n) == {};
    }
  }

  /** Of class s: every chunk in use is counted once, and the chunks of its pages fill these. */
  lemma CountersMean(p: Pool, r: Runs, pfree: nat, used: seq<nat>, total: seq<nat>, s: nat)
    requires SizedRuns(r, |p.slab|) && Counted(p, r, pfree, used, total) && s < CLASSES
    ensures pfree == |set k: nat | k < |r.kind| && r.kind[k] == Free|
    ensures var live := ChunksOf(p, r, s, |p.slab|);
      && used[s] == |live|
      && forall b: Block :: b in live <==> b.Chunk? && Live(p, r, b) && r.kind[b.k] == Slab(s)
    ensures ChunkSize(s) * total[s] == 4096 * |set k: nat | k < |r.kind| && r.kind[k] == Slab(s)|
  {
    var n := |p.slab|;
    assert CountsOk(p, r, used, total, s);
    assert FreeIn(r)[..n] == FreeIn(r) && UsedIn(p, r, s)[..n] == UsedIn(p, r, s) && AllIn(r, s)[..n] == AllIn(r, s);
    PagesOfCount(r, Free, n, FreeIn(r), 1);
    ChunksOfCount(p, r, s, n);
    PagesOfCount(r, Slab(s), n, AllIn(r, s), PerPage(s));
    ChunksFit(s, |PagesOf(r, Slab(s), n)|);
  }

  lemma ChunksFit(s: nat, x: nat)
    requires s < CLASSES
    ensures ChunkSize(s) * (x * PerPage(s)) == 4096 * x
  {
    assert ChunkSize(s) * PerPage(s) == 4096;
    assert ChunkSize(s) * (x * PerPage(s)) == (ChunkSize(s) * PerPage(s)) * x;
  }
}
