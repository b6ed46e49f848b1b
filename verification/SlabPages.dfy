/** Page descriptors and the runs they form. */
module SlabPages {

  import opened SlabLists

  /**
   The slab field of a descriptor. It is the length of a free run, or zero inside one; the length of
   an allocation with the start bit, or all ones inside one; the bitmap of a page of the exact class;
   or the bitmap, in the upper half, and the shift of a page of a big class.
   */
  datatype Word = Len(n: nat) | Start(n: nat) | Busy | Bits(bits: seq<bool>) | Chunks(bits: seq<bool>, shift: nat)

  datatype Kind = Free | Whole | Slab(slot: nat)

  /** For every page the first page, the length and the kind of its run. */
  datatype Runs = Runs(head: seq<nat>, size: seq<nat>, kind: seq<Kind>)

  const CLASSES := 6

  /** Chunks in a page of the class: 64 of 64 bytes, down to 2 of 2048. */
  function PerPage(s: nat): nat {
    if s == 0 then 64 else if s == 1 then 32 else if s == 2 then 16 else if s == 3 then 8 else if s == 4 then 4 else 2
  }

  function ChunkSize(s: nat): nat {
    if s == 0 then 64 else if s == 1 then 128 else if s == 2 then 256
    else if s == 3 then 512 else if s == 4 then 1024 else 2048
  }

  function Map(w: Word): seq<bool> {
    if w.Bits? || w.Chunks? then w.bits else []
  }

  /** The bitmap of a page of class s, with at least one chunk in use. */
  predicate WordOk(w: Word, s: nat) {
    && s < CLASSES && (if s == 0 then w.Bits? else w.Chunks? && w.shift == 6 + s)
    && |Map(w)| == PerPage(s) && true in Map(w)
  }

  predicate Full(w: Word) {
    false !in Map(w)
  }

  ghost predicate SizedRuns(r: Runs, last: nat) {
    |r.head| == |r.size| == |r.kind| == last
  }

  ghost predicate RunOk(r: Runs, k: nat)
    requires |r.head| == |r.size| == |r.kind|
  {
    k < |r.head| ==> r.head[k] <= k < r.head[k] + r.size[k] <= |r.head|
  }

  /** Pages of one run agree on it. */
  ghost predicate SameRun(r: Runs, k: nat, j: nat)
    requires |r.head| == |r.size| == |r.kind|
  {
    k < |r.head| && j < |r.head| && r.head[k] <= j < r.head[k] + r.size[k] ==>
      r.head[j] == r.head[k] && r.size[j] == r.size[k] && r.kind[j] == r.kind[k]
  }

  /** Two free runs do not touch. */
  ghost predicate EdgeOk(r: Runs, k: nat)
    requires |r.head| == |r.size| == |r.kind|
  {
    0 < k < |r.head| && r.head[k] == k && r.kind[k] == Free ==> r.kind[k - 1] != Free
  }

  /** The runs partition the pages. */
  ghost predicate RunsOk(r: Runs) {
    && |r.head| == |r.size| == |r.kind|
    && (forall k: nat {:trigger RunOk(r, k)} :: RunOk(r, k))
    && (forall k: nat, j: nat {:trigger SameRun(r, k, j)} :: SameRun(r, k, j))
    && (forall k: nat {:trigger EdgeOk(r, k)} :: EdgeOk(r, k))
  }

  datatype Pool = Pool(slab: seq<Word>, c: Links)

  ghost predicate SizedPool(p: Pool, g: Lists, r: Runs) {
    && SizedLists(p.c, g) && |g.lists| == 1 + CLASSES && |p.slab| == |p.c.next| && SizedRuns(r, |p.slab|)
  }

  /** Inside a run. */
  ghost predicate Inner(p: Pool, g: Lists, k: nat, w: Word)
    requires SizedLists(p.c, g) && |p.slab| == |p.c.next|
  {
    k < |p.slab| ==> p.slab[k] == w && g.on[k] == -1 && p.c.tag[k] == PAGE && p.c.next[k] == Null
  }

  /** The descriptor says what its page is. */
  ghost predicate PageOk(p: Pool, g: Lists, r: Runs, k: nat)
    requires SizedPool(p, g, r)
  {
    k < |p.slab| ==>
      match r.kind[k]
      case Free =>
        if r.head[k] == k then p.slab[k] == Len(r.size[k]) && g.on[k] == 0 && p.c.tag[k] == PAGE
        else Inner(p, g, k, Len(0)) && (k + 1 == r.head[k] + r.size[k] < |p.slab| ==> p.c.prev[k] == At(r.head[k]))
      case Whole =>
        if r.head[k] == k then p.slab[k] == Start(r.size[k]) && g.on[k] == -1 && p.c.tag[k] == PAGE
        else Inner(p, g, k, Busy)
      case Slab(s) =>
        && r.size[k] == 1 && WordOk(p.slab[k], s) && p.c.tag[k] == TagOf(1 + s)
        && g.on[k] == if Full(p.slab[k]) then -1 else 1 + s
  }

  ghost predicate PagesOk(p: Pool, g: Lists, r: Runs) {
    && SizedPool(p, g, r) && ListsOk(p.c, g, {}) && RunsOk(r)
    && (forall k: nat {:trigger PageOk(p, g, r, k)} :: PageOk(p, g, r, k))
  }

  // ---------- painting a stretch of pages ----------

  ghost function Painted(r: Runs, a: nat, n: nat, kind: Kind): Runs
    requires |r.head| == |r.size| == |r.kind|
  {
    Runs(seq(|r.head|, k requires 0 <= k < |r.head| => if a <= k < a + n then a else r.head[k]),
         seq(|r.head|, k requires 0 <= k < |r.head| => if a <= k < a + n then n else r.size[k]),
         seq(|r.head|, k requires 0 <= k < |r.head| => if a <= k < a + n then kind else r.kind[k]))
  }

  /** a begins a run, or is the end of all pages. */
  ghost predicate Edge(r: Runs, a: nat)
    requires |r.head| == |r.size| == |r.kind|
  {
    a == |r.head| || (a < |r.head| && r.head[a] == a)
  }

  /** A run lies on one side of an edge. */
  lemma Aside(r: Runs, a: nat, k: nat)
    requires RunsOk(r) && Edge(r, a) && k < |r.head|
    ensures k < a ==> r.head[k] + r.size[k] <= a
    ensures k >= a ==> r.head[k] >= a
  {
    assert RunOk(r, k);
    if a < |r.head| { assert SameRun(r, k, a) && RunOk(r, a); }
  }

  /** The page after a run begins another. */
  lemma NextEdge(r: Runs, k: nat)
    requires RunsOk(r) && k < |r.head|
    ensures Edge(r, r.head[k]) && Edge(r, r.head[k] + r.size[k]) && r.head[k] + r.size[k] <= |r.head|
  {
    assert RunOk(r, k);
    var a, b := r.head[k], r.head[k] + r.size[k];
    assert SameRun(r, k, a) && RunOk(r, a);
    if b < |r.head| {
      assert RunOk(r, b);
      var j: nat := b - 1;
      assert SameRun(r, k, j) && SameRun(r, b, j) && SameRun(r, b, k);
    }
  }

  lemma PaintedPair(r: Runs, a: nat, n: nat, kind: Kind, k: nat, j: nat)
    requires RunsOk(r) && n > 0 && Edge(r, a) && Edge(r, a + n)
    ensures RunOk(Painted(r, a, n, kind), k) && SameRun(Painted(r, a, n, kind), k, j)
  {
    assert RunOk(r, k) && SameRun(r, k, j);
    if k < |r.head| { Aside(r, a, k); Aside(r, a + n, k); }
  }

  /** Whole runs made into one run. */
  lemma PaintedOk(r: Runs, a: nat, n: nat, kind: Kind)
    requires RunsOk(r) && n > 0 && Edge(r, a) && Edge(r, a + n)
    requires kind == Free && a > 0 && a < |r.kind| ==> r.kind[a - 1] != Free
    requires kind == Free && a + n < |r.kind| ==> r.kind[a + n] != Free
    ensures RunsOk(Painted(r, a, n, kind))
  {
    var r' := Painted(r, a, n, kind);
    forall k: nat ensures RunOk(r', k) { PaintedPair(r, a, n, kind, k, k); }
    forall k: nat, j: nat ensures SameRun(r', k, j) { PaintedPair(r, a, n, kind, k, j); }
    forall k: nat ensures EdgeOk(r', k) { assert EdgeOk(r, k); }
  }

  /** A free run of s pages at a split into an allocation of n and the rest. */
  ghost function Split(r: Runs, a: nat, n: nat): Runs
    requires |r.head| == |r.size| == |r.kind| && a < |r.head| && n < r.size[a]
  {
    Painted(Painted(r, a, n, Whole), a + n, r.size[a] - n, Free)
  }

  lemma SplitPair(r: Runs, a: nat, n: nat, k: nat, j: nat)
    requires RunsOk(r) && a < |r.head| && r.head[a] == a && 0 < n < r.size[a]
    ensures RunOk(Split(r, a, n), k) && SameRun(Split(r, a, n), k, j)
  {
    assert RunOk(r, k) && SameRun(r, k, j) && RunOk(r, a);
    NextEdge(r, a);
    if k < |r.head| { Aside(r, a, k); Aside(r, a + r.size[a], k); }
  }

  lemma SplitOk(r: Runs, a: nat, n: nat)
    requires RunsOk(r) && a < |r.head| && r.head[a] == a && 0 < n < r.size[a] && r.kind[a] == Free
    ensures RunsOk(Split(r, a, n))
  {
    var r' := Split(r, a, n);
    forall k: nat ensures RunOk(r', k) { SplitPair(r, a, n, k, k); }
    forall k: nat, j: nat ensures SameRun(r', k, j) { SplitPair(r, a, n, k, j); }
    NextEdge(r, a);
    forall k: nat ensures EdgeOk(r', k) {
      assert EdgeOk(r, k) && RunOk(r, a);
      var b: nat := a + r.size[a] - 1;
      assert SameRun(r, a, b) && EdgeOk(r, a + r.size[a]);
    }
  }
}
