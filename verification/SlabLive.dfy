/** The blocks that callers hold. */
module SlabLive {

  import opened Division
  import opened SlabLists
  import opened SlabPages
  import opened SlabTake
  import opened SlabGive
  import opened SlabChunks

  const PAGESIZE := 4096

  /** An allocation of whole pages from page k on, or chunk i of page k. */
  datatype Block = Pages(k: nat) | Chunk(k: nat, i: nat)

  ghost predicate Live(p: Pool, r: Runs, b: Block)
    requires SizedRuns(r, |p.slab|)
  {
    b.k < |p.slab| &&
    match b
    case Pages(k) => r.kind[k] == Whole && r.head[k] == k
    case Chunk(k, i) => r.kind[k].Slab? && i < |Map(p.slab[k])| && Map(p.slab[k])[i]
  }

  /** Where a block begins, counted from the first page, and how long it is. */
  ghost function Offset(r: Runs, b: Block): nat
    requires |r.head| == |r.size| == |r.kind| && b.k < |r.kind|
  {
    match b
    case Pages(k) => PAGESIZE * k
    case Chunk(k, i) => PAGESIZE * k + i * (if r.kind[k].Slab? then ChunkSize(r.kind[k].slot) else 0)
  }

  ghost function Length(r: Runs, b: Block): nat
    requires |r.head| == |r.size| == |r.kind| && b.k < |r.kind|
  {
    match b
    case Pages(k) => PAGESIZE * r.size[k]
    case Chunk(k, i) => if r.kind[k].Slab? then ChunkSize(r.kind[k].slot) else 0
  }

  lemma ChunksFill(s: nat, i: nat)
    requires s < CLASSES && i < PerPage(s)
    ensures i * ChunkSize(s) + ChunkSize(s) <= PAGESIZE
  {
    assert (i + 1) * ChunkSize(s) <= PerPage(s) * ChunkSize(s);
  }

  /** A block lies within the pages of its run. */
  lemma WithinRun(p: Pool, g: Lists, r: Runs, b: Block)
    requires PagesOk(p, g, r) && Live(p, r, b)
    ensures PAGESIZE * r.head[b.k] <= Offset(r, b)
    ensures Offset(r, b) + Length(r, b) <= PAGESIZE * (r.head[b.k] + r.size[b.k])
    ensures r.head[b.k] + r.size[b.k] <= |p.slab| && Length(r, b) > 0
  {
    assert PageOk(p, g, r, b.k) && RunOk(r, b.k);
    if b.Chunk? { ChunksFill(r.kind[b.k].slot, b.i); }
  }

  /** Every block is inside the pool, and aligned to its size or to a page. */
  lemma LiveInPool(p: Pool, g: Lists, r: Runs, b: Block)
    requires PagesOk(p, g, r) && Live(p, r, b)
    ensures Offset(r, b) + Length(r, b) <= PAGESIZE * |p.slab| && Length(r, b) > 0
    ensures match b case Pages(_) => Offset(r, b) % PAGESIZE == 0 case Chunk(_, _) => Offset(r, b) % Length(r, b) == 0
  {
    WithinRun(p, g, r, b);
    if b.Chunk? {
      assert PageOk(p, g, r, b.k);
      Aligned(b.k, b.i, r.kind[b.k].slot);
    } else {
      PageAligned(r.head[b.k]);
    }
  }

  lemma PageAligned(k: nat)
    ensures PAGESIZE * k % PAGESIZE == 0
  {}

  lemma PageChunks(k: nat, i: nat, s: nat)
    requires s < CLASSES
    ensures PAGESIZE * k + i * ChunkSize(s) == (k * PerPage(s) + i) * ChunkSize(s)
  {
    assert PerPage(s) * ChunkSize(s) == PAGESIZE;
    assert k * PerPage(s) * ChunkSize(s) == k * (PerPage(s) * ChunkSize(s));
  }

  lemma Aligned(k: nat, i: nat, s: nat)
    requires s < CLASSES
    ensures (PAGESIZE * k + i * ChunkSize(s)) % ChunkSize(s) == 0
  {
    PageChunks(k, i, s);
    AddMultiple(0, k * PerPage(s) + i, ChunkSize(s));
  }

  lemma ModPage(k: nat, t: nat, s: nat)
    requires s < CLASSES
    ensures (PAGESIZE * k + t) % ChunkSize(s) == t % ChunkSize(s)
  {
    PageChunks(k, 0, s);
    AddMultiple(t, k * PerPage(s), ChunkSize(s));
  }

  /** No two blocks overlap. */
  lemma LiveDisjoint(p: Pool, g: Lists, r: Runs, b: Block, d: Block)
    requires PagesOk(p, g, r) && Live(p, r, b) && Live(p, r, d) && b != d
    ensures Offset(r, b) + Length(r, b) <= Offset(r, d) || Offset(r, d) + Length(r, d) <= Offset(r, b)
  {
    WithinRun(p, g, r, b);
    WithinRun(p, g, r, d);
    assert PageOk(p, g, r, b.k) && PageOk(p, g, r, d.k) && RunOk(r, b.k) && RunOk(r, d.k);
    if r.head[b.k] == r.head[d.k] {
      assert SameRun(r, b.k, d.k);
      if b.Chunk? { ChunksApart(b.i, d.i, r.kind[b.k].slot); }
    } else {
      assert SameRun(r, b.k, r.head[d.k]) && SameRun(r, d.k, r.head[b.k]) && RunOk(r, r.head[b.k])
          && RunOk(r, r.head[d.k]);
      assert SameRun(r, b.k, r.head[b.k]) && SameRun(r, d.k, r.head[d.k]);
      Apart(r.head[b.k], r.size[b.k], r.head[d.k], r.size[d.k]);
    }
  }

  lemma ChunksApart(i: nat, j: nat, s: nat)
    requires i != j
    ensures i * ChunkSize(s) + ChunkSize(s) <= j * ChunkSize(s) || j * ChunkSize(s) + ChunkSize(s) <= i * ChunkSize(s)
  {
    if i < j { assert (i + 1) * ChunkSize(s) <= j * ChunkSize(s);
        } else { assert (j + 1) * ChunkSize(s) <= i * ChunkSize(s); }
  }

  lemma Apart(a: nat, m: nat, b: nat, n: nat)
    requires !(a <= b < a + m) && !(b <= a < b + n)
    ensures PAGESIZE * (a + m) <= PAGESIZE * b || PAGESIZE * (b + n) <= PAGESIZE * a
  {}

  // ---------- how the operations change what is live ----------

  /** Block x is live as before, and where it was. */
  ghost predicate SameBlock(p: Pool, r: Runs, p': Pool, r': Runs, x: Block)
    requires SizedRuns(r, |p.slab|) && SizedRuns(r', |p'.slab|) && |p'.slab| == |p.slab|
  {
    && (Live(p', r', x) <==> Live(p, r, x))
    && (Live(p, r, x) ==> Offset(r', x) == Offset(r, x) && Length(r', x) == Length(r, x))
  }

  ghost predicate Alike(p: Pool, r: Runs, p': Pool, r': Runs) {
    SizedRuns(r, |p.slab|) && SizedRuns(r', |p'.slab|) && |p'.slab| == |p.slab|
  }

  /** b is a new block, and the others are as before. */
  ghost predicate Gains(p: Pool, r: Runs, p': Pool, r': Runs, b: Block) {
    && Alike(p, r, p', r') && !Live(p, r, b) && Live(p', r', b)
    && (forall x {:trigger SameBlock(p, r, p', r', x)} :: x != b ==> SameBlock(p, r, p', r', x))
  }

  ghost predicate Loses(p: Pool, r: Runs, p': Pool, r': Runs, b: Block) {
    && Alike(p, r, p', r') && Live(p, r, b) && !Live(p', r', b)
    && (forall x {:trigger SameBlock(p, r, p', r', x)} :: x != b ==> SameBlock(p, r, p', r', x))
  }

  lemma TookGains(p: Pool, g: Lists, r: Runs, k: nat, n: nat, p': Pool, g': Lists)
    requires TookPages(p, g, r, k, n, p', g')
    ensures Gains(p, r, p', TakenRuns(r, k, n), Pages(k)) && TakenRuns(r, k, n).size[k] == n
    ensures TakenRuns(r, k, n).kind[k] == Whole
  {
    var r' := TakenRuns(r, k, n);
    assert RunOk(r, k);
    forall x | x != Pages(k) ensures SameBlock(p, r, p', r', x) {
      assert TakenCell(p, g, r, k, n, p', g', x.k) && SameRun(r, k, x.k);
      if x.k < |p.slab| { assert PageOk(p, g, r, x.k); }
    }
  }

  /** A page of its own that is cut into chunks, the first of them in use. */
  lemma CutGains(p: Pool, r: Runs, k: nat, s: nat, p': Pool)
    requires SizedRuns(r, |p.slab|) && k < |p.slab| && r.kind[k] == Whole && r.head[k] == k && r.size[k] == 1
    requires s < CLASSES && p'.slab == p.slab[k := NewWord(s)]
    ensures forall x {:trigger SameBlock(p, r, p', Painted(r, k, 1, Slab(s)), x)} ::
        x != Pages(k) && x != Chunk(k, 0) ==> SameBlock(p, r, p', Painted(r, k, 1, Slab(s)), x)
    ensures Live(p', Painted(r, k, 1, Slab(s)), Chunk(k, 0)) && !Live(p', Painted(r, k, 1, Slab(s)), Pages(k))
  {
    var r' := Painted(r, k, 1, Slab(s));
    NewWordOk(s);
    forall x | x != Pages(k) && x != Chunk(k, 0) ensures SameBlock(p, r, p', r', x) {}
  }

  lemma GainsThrough(p: Pool, r: Runs, p1: Pool, r1: Runs, k: nat, s: nat, p': Pool)
    requires Gains(p, r, p1, r1, Pages(k)) && r1.head[k] == k && r1.size[k] == 1 && r1.kind[k] == Whole && s < CLASSES
    requires !Live(p, r, Chunk(k, 0))
    requires p'.slab == p1.slab[k := NewWord(s)]
    ensures Gains(p, r, p', Painted(r1, k, 1, Slab(s)), Chunk(k, 0))
  {
    var r' := Painted(r1, k, 1, Slab(s));
    CutGains(p1, r1, k, s, p');
    forall x | x != Chunk(k, 0) ensures SameBlock(p, r, p', r', x) {
      assert SameBlock(p, r, p1, r1, x) || x == Pages(k);
      assert SameBlock(p1, r1, p', r', x) || x == Pages(k);
    }
  }

  lemma SetGains(p: Pool, r: Runs, k: nat, i: nat, p': Pool)
    requires SizedRuns(r, |p.slab|) && k < |p.slab| && r.kind[k].Slab? && (p.slab[k].Bits? || p.slab[k].Chunks?)
    requires i < |Map(p.slab[k])| && !Map(p.slab[k])[i]
    requires p'.slab == p.slab[k := WithMap(p.slab[k], Map(p.slab[k])[i := true])]
    ensures Gains(p, r, p', r, Chunk(k, i))
  {
    forall x | x != Chunk(k, i) ensures SameBlock(p, r, p', r, x) {}
  }

  lemma ClearLoses(p: Pool, r: Runs, k: nat, i: nat, p': Pool)
    requires SizedRuns(r, |p.slab|) && k < |p.slab| && r.kind[k].Slab? && (p.slab[k].Bits? || p.slab[k].Chunks?)
    requires i < |Map(p.slab[k])| && Map(p.slab[k])[i]
    requires p'.slab == p.slab[k := WithMap(p.slab[k], Map(p.slab[k])[i := false])]
    ensures Loses(p, r, p', r, Chunk(k, i))
  {
    forall x | x != Chunk(k, i) ensures SameBlock(p, r, p', r, x) {}
  }

  /** The only block of the run at k: all of it, or its only used chunk. */
  ghost predicate Sole(p: Pool, r: Runs, b: Block)
    requires SizedRuns(r, |p.slab|)
  {
    && Live(p, r, b)
    && match b
       case Pages(k) => true
       case Chunk(k, i) => r.size[k] == 1 && true !in Map(p.slab[k])[i := false]
  }

  lemma FreedLoses(p: Pool, g: Lists, r: Runs, b: Block, p': Pool)
    requires PagesOk(p, g, r) && Sole(p, r, b) && r.head[b.k] == b.k
    requires Low(r, b.k) <= b.k < High(r, b.k) <= |p.slab| && SlabsKept(p, Low(r, b.k), High(r, b.k), p')
    ensures Loses(p, r, p', Freed(r, b.k), b)
  {
    var k := b.k;
    var r' := Freed(r, k);
    forall x | x != b ensures SameBlock(p, r, p', r', x) {
      if x.k < |p.slab| && Low(r, k) <= x.k < High(r, k) {
        FreedZone(p, g, r, k, x.k);
        if x.k == k { SoleOnly(p, r, b, x); }
      }
    }
  }

  lemma SoleOnly(p: Pool, r: Runs, b: Block, x: Block)
    requires SizedRuns(r, |p.slab|) && Sole(p, r, b) && x != b && x.k == b.k
    ensures !Live(p, r, x)
  {
    if b.Chunk? && x.Chunk? && x.i < |Map(p.slab[x.k])| {
      assert Map(p.slab[b.k])[b.i := false][x.i] == Map(p.slab[b.k])[x.i];
    }
  }

  /** Apart from the run at k, the pages that become one free run are free already. */
  lemma FreedZone(p: Pool, g: Lists, r: Runs, k: nat, j: nat)
    requires PagesOk(p, g, r) && k < |p.slab| && r.head[k] == k && Low(r, k) <= j < High(r, k)
    ensures j < |p.slab| && (r.kind[j] == Free || (k <= j < k + r.size[k] && r.kind[j] == r.kind[k] && r.head[j] == k))
  {
    assert RunOk(r, k) && SameRun(r, k, j);
    NextEdge(r, k);
    if j < k {
      var h: nat := k - 1;
      assert RunOk(r, h) && SameRun(r, h, j);
    } else if j >= k + r.size[k] {
      var b: nat := k + r.size[k];
      assert RunOk(r, b) && SameRun(r, b, j);
    }
  }

  // ---------- from an address to its block ----------

  lemma DivChunk(t: nat, s: nat)
    requires s < CLASSES && t < PAGESIZE
    ensures t / ChunkSize(s) < PerPage(s) && (t % ChunkSize(s) == 0 ==> t == t / ChunkSize(s) * ChunkSize(s))
  {
    var c, q := ChunkSize(s), t / ChunkSize(s);
    assert t == q * c + t % c;
    assert PerPage(s) * c == PAGESIZE;
    Beyond(q - PerPage(s), c);
    assert q * c == PerPage(s) * c + (q - PerPage(s)) * c;
  }

  /** The chunk at an offset. */
  lemma Located(o: nat, k: nat, i: nat, s: nat)
    requires s < CLASSES && i < PerPage(s) && o == PAGESIZE * k + i * ChunkSize(s)
    ensures k == o / PAGESIZE && o % ChunkSize(s) == 0 && i == o % PAGESIZE / ChunkSize(s)
  {
    var t := i * ChunkSize(s);
    ChunksFill(s, i);
    Aligned(k, i, s);
    assert o == PAGESIZE * k + t && t < PAGESIZE;
    Unique(t, ChunkSize(s), i, 0);
  }

  /** The offset of a chunk. */
  lemma Placed(o: nat, s: nat)
    requires s < CLASSES
    ensures var i := o % PAGESIZE / ChunkSize(s);
        i < PerPage(s) && (o % ChunkSize(s) == 0 ==> o == PAGESIZE * (o / PAGESIZE) + i * ChunkSize(s))
  {
    var t := o % PAGESIZE;
    ModPage(o / PAGESIZE, t, s);
    DivChunk(t, s);
  }

  /** The only block that can begin at offset o. */
  lemma BlockAt(p: Pool, g: Lists, r: Runs, o: nat, b: Block)
    requires PagesOk(p, g, r) && Live(p, r, b) && Offset(r, b) == o
    ensures b.k == o / PAGESIZE
    ensures b.Pages? ==> o % PAGESIZE == 0
    ensures b.Chunk? ==> r.kind[b.k].Slab? && r.kind[b.k].slot < CLASSES && var c := ChunkSize(r.kind[b.k].slot);
        o % c == 0 && b.i == o % PAGESIZE / c
  {
    assert PageOk(p, g, r, b.k);
    if b.Chunk? { Located(o, b.k, b.i, r.kind[b.k].slot); }
  }

  /** What the tag of a descriptor says about its page. */
  lemma TagMeans(p: Pool, g: Lists, r: Runs, k: nat)
    requires PagesOk(p, g, r) && k < |p.slab|
    ensures p.c.tag[k] == EXACT ==> r.kind[k] == Slab(0)
    ensures p.c.tag[k] == BIG ==> r.kind[k].Slab? && 0 < r.kind[k].slot < CLASSES && p.slab[k].Chunks?
    ensures p.c.tag[k] == BIG ==> p.slab[k].shift == 6 + r.kind[k].slot
    ensures p.c.tag[k] == EXACT || p.c.tag[k] == BIG ==> WordOk(p.slab[k], r.kind[k].slot)
    ensures p.c.tag[k] != EXACT && p.c.tag[k] != BIG ==> p.c.tag[k] == PAGE && !r.kind[k].Slab?
    ensures p.c.tag[k] == PAGE ==> (p.slab[k].Start? <==> r.kind[k] == Whole && r.head[k] == k)
    ensures p.c.tag[k] == PAGE ==> (p.slab[k].Start? ==> p.slab[k] == Start(r.size[k]))
  {
    assert PageOk(p, g, r, k);
  }

  // ---------- nothing live ----------

  /** When nothing is live, all pages form one free run, the only one on the free list. */
  lemma AllFree(p: Pool, g: Lists, r: Runs)
    requires PagesOk(p, g, r) && |p.slab| > 0 && forall b :: !Live(p, r, b)
    ensures g.lists[0] == [0] && p.slab[0] == Len(|p.slab|)
    ensures forall k :: 0 <= k < |p.slab| ==> r.kind[k] == Free && r.head[k] == 0
    ensures forall l :: 0 < l <= CLASSES ==> g.lists[l] == []
  {
    forall k: nat | k < |p.slab| ensures r.kind[k] == Free { NotLive(p, g, r, k); }
    forall k: nat | k < |p.slab| ensures r.head[k] == 0 { OneRun(p, g, r, k); }
    assert PageOk(p, g, r, 0) && PlaceOk(p.c, g, {}, 0) && RunOk(r, 0);
    var last: nat := |p.slab| - 1;
    assert RunOk(r, last) && SameRun(r, last, 0);
    OnlyEntry(p, g, r);
    forall l: nat | 0 < l <= CLASSES ensures g.lists[l] == [] {
      assert EntryOk(p.c, g, l, 0);
      assert g.lists[l] != [] ==> PageOk(p, g, r, g.lists[l][0]);
    }
  }

  lemma NotLive(p: Pool, g: Lists, r: Runs, k: nat)
    requires PagesOk(p, g, r) && k < |p.slab| && forall b :: !Live(p, r, b)
    ensures r.kind[k] == Free
  {
    assert PageOk(p, g, r, k) && RunOk(r, k);
    if r.kind[k].Slab? {
      var i :| 0 <= i < |Map(p.slab[k])| && Map(p.slab[k])[i];
      assert Live(p, r, Chunk(k, i));
    } else {
      assert SameRun(r, k, r.head[k]);
      assert !Live(p, r, Pages(r.head[k]));
    }
  }

  lemma OneRun(p: Pool, g: Lists, r: Runs, k: nat)
    requires PagesOk(p, g, r) && k < |p.slab| && forall j :: 0 <= j < |p.slab| ==> r.kind[j] == Free
    ensures r.head[k] == 0
  {
    assert RunOk(r, k);
    var h := r.head[k];
    assert SameRun(r, k, h) && EdgeOk(r, h);
  }

  lemma OnlyEntry(p: Pool, g: Lists, r: Runs)
    requires PagesOk(p, g, r) && |p.slab| > 0 && forall k :: 0 <= k < |p.slab| ==> r.kind[k] == Free && r.head[k] == 0
    ensures g.lists[0] == [0]
  {
    assert PageOk(p, g, r, 0) && PlaceOk(p.c, g, {}, 0);
    forall i: nat | i < |g.lists[0]| ensures g.lists[0][i] == 0 && i == g.pos[0] {
      assert EntryOk(p.c, g, 0, i) && PageOk(p, g, r, g.lists[0][i]);
    }
    assert g.lists[0][0] == 0 && g.lists[0][|g.lists[0]| - 1] == 0;
  }
}
