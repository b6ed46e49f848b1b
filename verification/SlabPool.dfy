/** The slab pool: al_slab_init, al_slab_alloc and al_slab_free. */
module SlabPool {

  import opened SlabLists
  import opened SlabPages
  import opened SlabTake
  import opened SlabGive
  import opened SlabChunks
  import opened SlabLive
  import opened SlabCount
  import opened Powers

  const MAX_SIZE := 2048
  const MIN_SIZE := 64
  const DESCRIPTOR := 24

  // ---------- sizes ----------

  lemma ClassSizes()
    ensures Pow2(6) == 64 && Pow2(7) == 128 && Pow2(8) == 256 && Pow2(9) == 512 && Pow2(10) == 1024 && Pow2(11) == 2048
  {
    assert Pow2(3) == 8;
    assert Pow2(6) == 64;
    assert Pow2(9) == 512;
  }

  ghost function BitLength(x: nat): nat {
    if x == 0 then 0 else 1 + BitLength(x / 2)
  }

  lemma {:induction false} BitLengthBounds(x: nat)
    requires x > 0
    ensures BitLength(x) >= 1 && Pow2(BitLength(x) - 1) <= x < Pow2(BitLength(x))
  {
    if x > 1 {
      BitLengthBounds(x / 2);
    } else {
      assert BitLength(1) == 1 + BitLength(0);
    }
  }

  /** The shift loop: the length of size - 1 in bits. */
  method ShiftFor(size: nat) returns (shift: nat)
    requires size > 1
    ensures shift >= 1 && Pow2(shift - 1) < size <= Pow2(shift)
  {
    shift := 1;
    var s: nat := (size - 1) / 2;
    while s != 0
      invariant shift + BitLength(s) == BitLength(size - 1)
    {
      shift := shift + 1;
      s := s / 2;
    }
    BitLengthBounds(size - 1);
  }

  /** The class of a request: the smallest chunk that holds it. */
  method SlotFor(size: nat) returns (slot: nat)
    requires size <= MAX_SIZE
    ensures slot < CLASSES && size <= ChunkSize(slot) && (slot > 0 ==> ChunkSize(slot - 1) < size)
  {
    if size > MIN_SIZE {
      var shift := ShiftFor(size);
      ClassSizes();
      if shift <= 6 { Pow2Grows(shift, 6); }
      if shift > 11 { Pow2Grows(11, shift - 1); }
      slot := shift - 6;
    } else {
      slot := 0;
    }
  }

  // ---------- the layout of the pool ----------

  /** Where al_slab_init puts the descriptors (from q on) and the pages, in memory that ends at `end`. */
  method Layout(q: nat, end: nat) returns (start: nat, pages: nat, room: nat)
    requires q + PAGESIZE + DESCRIPTOR <= end
    ensures room >= 1 && 4120 * room <= end - q < 4120 * (room + 1) && (pages == room || pages == room - 1)
    ensures start % 4096 == 0 && q + 24 * room <= start < q + 24 * room + 4096
    ensures start + 4096 * pages <= end && (pages < room ==> start + 4096 * room > end)
  {
    var size := end - q;
    room := size / (PAGESIZE + DESCRIPTOR);
    pages := room;
    start := (q + room * DESCRIPTOR + PAGESIZE - 1) / PAGESIZE * PAGESIZE;
    Rounded(q + room * DESCRIPTOR);
    var m: int := pages - (end - start) / PAGESIZE;
    if m > 0 {
      pages := pages - m;
    }
  }

  lemma Rounded(x: nat)
    ensures var y := (x + PAGESIZE - 1) / PAGESIZE * PAGESIZE; x <= y < x + PAGESIZE && y % PAGESIZE == 0
  {}

  // ---------- the pool ----------

  /** A free run of n pages or more. */
  ghost predicate HasRun(r: Runs, n: nat) {
    |r.head| == |r.size| == |r.kind| && exists k ::
        0 <= k < |r.head| && r.head[k] == k && r.kind[k] == Free && r.size[k] >= n
  }

  /** A page of class s with a chunk to spare. */
  ghost predicate HasChunk(p: Pool, r: Runs, s: nat) {
    |p.slab| == |r.kind| && exists k :: 0 <= k < |p.slab| && r.kind[k] == Slab(s) && !Full(p.slab[k])
  }

  /** A free run of `size` bytes or more. */
  ghost predicate HasBytes(r: Runs, size: nat) {
    |r.head| == |r.size| == |r.kind| && exists k ::
        0 <= k < |r.head| && r.head[k] == k && r.kind[k] == Free && PAGESIZE * r.size[k] >= size
  }

  /** No class has chunks that large. */
  ghost predicate Oversize(size: nat) {
    forall s: nat :: s < CLASSES ==> ChunkSize(s) < size
  }

  /**
   What a request of `size` bytes needs: a free run of as many bytes if no class has such chunks,
   otherwise a free page or a chunk of the smallest class that holds it.
   */
  ghost predicate Room(p: Pool, r: Runs, size: nat) {
    if Oversize(size) then HasBytes(r, size)
    else HasRun(r, 1) || exists s: nat :: IsSlotFor(s, size) && HasChunk(p, r, s)
  }

  /** The length of a block for that request: whole pages, less than one page more, or the chunk of that class. */
  ghost predicate Snug(r: Runs, b: Block, size: nat)
    requires |r.head| == |r.size| == |r.kind| && b.k < |r.kind|
  {
    if Oversize(size) then b.Pages? && Length(r, b) - PAGESIZE < size <= Length(r, b)
    else b.Chunk? && exists s: nat :: IsSlotFor(s, size) && Length(r, b) == ChunkSize(s)
  }

  /** The classes and the pages in bytes: half a page is the most that a chunk holds. */
  lemma SizesInBytes(size: nat)
    ensures Oversize(size) <==> size > 2048
    ensures PAGESIZE == 4096 && forall s: nat :: s < CLASSES ==>
        ChunkSize(s) == 64 * Pow2(s) && ChunkSize(s) * PerPage(s) == 4096
  {
    ClassSizes();
    assert Pow2(0) == 1 && Pow2(1) == 2 && Pow2(2) == 4 && Pow2(3) == 8 && Pow2(4) == 16 && Pow2(5) == 32;
    assert ChunkSize(CLASSES - 1) == 2048;
  }

  predicate IsSlotFor(s: nat, size: nat) {
    s < CLASSES && size <= ChunkSize(s) && (s > 0 ==> ChunkSize(s - 1) < size)
  }

  function PagesFor(size: nat): (n: nat)
    ensures PAGESIZE * n - PAGESIZE < size <= PAGESIZE * n || size == n == 0
  {
    size / PAGESIZE + if size % PAGESIZE != 0 then 1 else 0
  }

  lemma RunOfBytes(r: Runs, size: nat)
    requires size > 0
    ensures HasRun(r, PagesFor(size)) <==> HasBytes(r, size)
  {
    if HasBytes(r, size) {
      var k :| 0 <= k < |r.head| && r.head[k] == k && r.kind[k] == Free && PAGESIZE * r.size[k] >= size;
      assert r.size[k] >= PagesFor(size);
    }
  }

  lemma OneSlot(s: nat, t: nat, size: nat)
    requires IsSlotFor(s, size) && IsSlotFor(t, size)
    ensures s == t
  {}

  class SlabPool {
    const start: nat
    const end: nat
    var p: Pool
    var pfree: nat
    var used: seq<nat>
    var total: seq<nat>
    ghost var g: Lists
    ghost var r: Runs

    ghost predicate Valid()
      reads this
    {
      && start > 0 && start % PAGESIZE == 0 && start + PAGESIZE * |p.slab| <= end
      && PagesOk(p, g, r) && Counted(p, r, pfree, used, total)
    }

    /** al_slab_init: all pages form one free run. */
    constructor (start: nat, end: nat, pages: nat)
      requires start > 0 && start % PAGESIZE == 0 && pages > 0 && start + PAGESIZE * pages <= end
      ensures Valid() && |p.slab| == pages && pfree == pages && this.start == start && this.end == end
      ensures (forall b :: !Live(p, r, b)) && used == total == seq(CLASSES, _ => 0)
    {
      this.start, this.end := start, end;
      p := Pool(seq(pages, k => if k == 0 then Len(pages) else Len(0)),
                Links(seq(pages, k => if k == 0 then Head(0) else Null),
                    seq(pages, k => if k == 0 then Head(0) else Null), seq(pages, _ => PAGE),
                      seq(1 + CLASSES, l requires l >= 0 => if l == 0 then At(0) else Head(l))));
      pfree := pages;
      used, total := seq(CLASSES, _ => 0), seq(CLASSES, _ => 0);
      g := InitLists(pages);
      r := Runs(seq(pages, _ => 0), seq(pages, _ => pages), seq(pages, _ => Kind.Free));
      new;
      InitOk(p, g, r, pages);
      InitCounted(p, r, pages);
    }

    /** al_slab_alloc_pages. */
    method AllocPages(n: nat) returns (page: Link)
      requires Valid() && n > 0
      modifies this
      ensures Valid() && (page.At? <==> old(HasRun(r, n))) && (page == Null || page.At?)
      ensures page.At? ==> Gains(old(p), old(r), p, r, Pages(page.k)) && r.kind[page.k] == Whole
      ensures page.At? ==> r.head[page.k] == page.k && r.size[page.k] == n
      ensures page.At? ==> pfree == old(pfree) - n && old(FirstFit(g, r, page.k, n))
      ensures page.At? ==> !old(Live(p, r, Chunk(page.k, 0)))
      ensures page.At? ==> forall l :: 0 < l <= CLASSES && old(g.lists[l]) == [] ==> g.lists[l] == []
      ensures page == Null ==> p == old(p) && r == old(r) && g == old(g) && pfree == old(pfree)
      ensures used == old(used) && total == old(total)
    {
      page := FindRun(p, n, g, r);
      if page.At? {
        var k := page.k;
        var p1;
        ghost var g1;
        p1, g1 := TakeRun(p, k, n, g, r);
        TookOk(p, g, r, k, n, p1, g1);
        TookGains(p, g, r, k, n, p1, g1);
        TookCounted(p, g, r, k, n, p1, g1, pfree, used, total);
        OtherLists(p, g, r, k, n, p1, g1);
        ghost var r1 := TakenRuns(r, k, n);
        p, g, pfree, r := p1, g1, pfree - n, r1;
      }
    }

    /** A request of more than half a page. */
    method AllocLarge(size: nat) returns (addr: nat, ghost b: Block)
      requires Valid() && size > MAX_SIZE
      modifies this
      ensures Valid() && (addr == 0 <==> !old(HasBytes(r, size)))
      ensures addr == 0 ==> p == old(p) && r == old(r)
      ensures addr != 0 ==> Gains(old(p), old(r), p, r, b) && addr == start + Offset(r, b) && b.Pages?
      ensures addr != 0 ==> Length(r, b) - PAGESIZE < size <= Length(r, b)
    {
      RunOfBytes(r, size);
      var page := AllocPages(PagesFor(size));
      b := Pages(0);
      addr := 0;
      if page.At? {
        addr := start + PAGESIZE * page.k;
        b := Pages(page.k);
      }
    }

    /** A request that a chunk of class s serves. */
    method AllocSmall(s: nat) returns (addr: nat, ghost b: Block)
      requires Valid() && s < CLASSES
      modifies this
      ensures Valid() && (addr == 0 <==> !old(HasRun(r, 1) || HasChunk(p, r, s)))
      ensures addr == 0 ==> p == old(p) && r == old(r)
      ensures addr != 0 ==> Gains(old(p), old(r), p, r, b) && addr == start + Offset(r, b)
      ensures addr != 0 ==> Length(r, b) == ChunkSize(s) && b.Chunk?
      ensures old(HasChunk(p, r, s)) ==> r == old(r) && pfree == old(pfree)
      ensures addr != 0 && !old(HasChunk(p, r, s)) ==> pfree == old(pfree) - 1
    {
      FirstHasRoom(p, g, r, s);
      addr, b := 0, Pages(0);
      if p.c.first[1 + s].At? {
        addr, b := AllocFrom(p.c.first[1 + s].k, s);
      } else {
        var page := AllocPages(1);
        if page.At? {
          addr, b := AllocFirst(page.k, s, old(p), old(r));
        }
      }
    }

    method AllocFrom(k: nat, s: nat) returns (addr: nat, ghost b: Block)
      requires Valid() && ChunkPage(p, g, r, k, s) && !Full(p.slab[k]) && s < CLASSES
      modifies this
      ensures Valid() && addr != 0 && Gains(old(p), old(r), p, r, b) && addr == start + Offset(r, b)
      ensures Length(r, b) == ChunkSize(s) && b.Chunk? && r == old(r) && pfree == old(pfree)
    {
      var p1, i;
      ghost var g1;
      p1, i, g1 := TakeChunk(p, k, s, g, r);
      SetGains(p, r, k, i, p1);
      SetCounted(p, r, k, s, i, p1, pfree, used, total);
      p, g, used := p1, g1, used[s := used[s] + 1];
      addr := start + PAGESIZE * k + i * ChunkSize(s);
      b := Chunk(k, i);
    }

    method AllocFirst(k: nat, s: nat, ghost p0: Pool, ghost r0: Runs) returns (addr: nat, ghost b: Block)
      requires Valid() && s < CLASSES && g.lists[1 + s] == [] && Gains(p0, r0, p, r, Pages(k))
      requires !Live(p0, r0, Chunk(k, 0))
      requires k < |p.slab| && r.kind[k] == Whole && r.head[k] == k && r.size[k] == 1
      modifies this
      ensures Valid() && addr != 0 && Gains(p0, r0, p, r, b) && addr == start + Offset(r, b)
      ensures Length(r, b) == ChunkSize(s) && b.Chunk? && pfree == old(pfree)
    {
      var p1;
      ghost var g1;
      p1, g1 := CutPage(p, k, s, g, r);
      GainsThrough(p0, r0, p, r, k, s, p1);
      CutCounted(p, r, k, s, p1, pfree, used, total);
      ghost var r1 := Painted(r, k, 1, Slab(s));
      p, g, used, total, r := p1, g1, used[s := used[s] + 1], total[s := total[s] + PerPage(s)], r1;
      addr := start + PAGESIZE * k;
      b := Chunk(k, 0);
    }

    /** al_slab_alloc: null exactly when there is no room; otherwise a new block, no longer than need be. */
    method Alloc(size: nat) returns (addr: nat, ghost b: Block)
      requires Valid()
      modifies this
      ensures Valid() && (addr == 0 <==> !old(Room(p, r, size)))
      ensures addr == 0 ==> p == old(p) && r == old(r)
      ensures addr != 0 ==> Gains(old(p), old(r), p, r, b) && addr == start + Offset(r, b) && size <= Length(r, b)
      ensures addr != 0 ==> Snug(r, b, size)
      ensures forall s: nat :: IsSlotFor(s, size) && old(HasChunk(p, r, s)) ==> r == old(r)
    {
      SizesInBytes(size);
      if size > MAX_SIZE {
        addr, b := AllocLarge(size);
      } else {
        var s := SlotFor(size);
        assert old(Room(p, r, size)) <==> old(HasRun(r, 1) || HasChunk(p, r, s)) by {
          forall t: nat | IsSlotFor(t, size) ensures t == s { OneSlot(s, t, size); }
        }
        addr, b := AllocSmall(s);
      }
    }

    /** Release chunk i of page k, of class s. */
    method FreeChunk(k: nat, s: nat, i: nat)
      requires Valid() && ChunkPage(p, g, r, k, s) && s < CLASSES && i < |Map(p.slab[k])| && Map(p.slab[k])[i]
      modifies this
      ensures Valid() && Loses(old(p), old(r), p, r, Chunk(k, i))
    {
      ChunkPageFacts(p, g, r, k, s);
      ghost var bits := Map(p.slab[k])[i := false];
      var p1, emptied;
      ghost var g1;
      p1, emptied, g1 := GiveChunk(p, k, s, i, g, r);
      ghost var r1 := RunsWithout(r, k, bits);
      if emptied {
        FreedLoses(p, g, r, Chunk(k, i), p1);
        FreedCells(p, g, r, k, p1);
        PageCounted(p, r, k, s, i, p1, pfree, used, total);
        pfree := pfree + 1;
        total := total[s := total[s] - PerPage(s)];
      } else {
        ClearLoses(p, r, k, i, p1);
        ClearCounted(p, r, k, s, i, p1, pfree, used, total);
      }
      p, g, used, r := p1, g1, used[s := used[s] - 1], r1;
    }

    /** Release the pages of the allocation that begins at page k. */
    method FreeWhole(k: nat)
      requires Valid() && k < |p.slab| && r.kind[k] == Whole && r.head[k] == k && p.slab[k] == Start(r.size[k])
      modifies this
      ensures Valid() && Loses(old(p), old(r), p, r, Pages(k))
    {
      var p1;
      ghost var g1;
      forall j: nat | j != k ensures PageOk(p, g, r, j) {}
      p1, g1 := FreePages(p, k, p.slab[k].n, g, r);
      FreedLoses(p, g, r, Pages(k), p1);
      FreedCells(p, g, r, k, p1);
      WholeCounted(p, r, k, p1, pfree, used, total);
      ghost var r1 := Freed(r, k);
      p, g, pfree, r := p1, g1, pfree + p.slab[k].n, r1;
    }

    /**
     al_slab_free: the block that begins at the address is released, and nothing else; where no block
     begins, nothing changes.
     */
    method Free(addr: nat)
      requires Valid() && !(start + PAGESIZE * |p.slab| <= addr <= end)
      modifies this
      ensures Valid()
      ensures forall b :: StartsAt(old(p), old(r), start, addr, b) ==> Loses(old(p), old(r), p, r, b)
      ensures (forall b :: !StartsAt(old(p), old(r), start, addr, b)) ==> p == old(p) && r == old(r)
    {
      if addr < start || addr > end {
        OutOfPool(p, g, r, start, addr);
        return;
      }
      var k := (addr - start) / PAGESIZE;
      TagMeans(p, g, r, k);
      if p.c.tag[k] == EXACT {
        Decode(p, g, r, addr, start, 0);
        if addr % ChunkSize(0) == 0 {
          var i := addr % PAGESIZE / ChunkSize(0);
          if Map(p.slab[k])[i] {
            FreeChunk(k, 0, i);
          }
        }
      } else if p.c.tag[k] == BIG {
        var s := p.slab[k].shift - 6;
        Decode(p, g, r, addr, start, s);
        if addr % ChunkSize(s) == 0 {
          var i := addr % PAGESIZE / ChunkSize(s);
          if Map(p.slab[k])[i] {
            FreeChunk(k, s, i);
          }
        }
      } else {
        DecodePages(p, g, r, addr, start);
        if addr % PAGESIZE == 0 && p.slab[k].Start? {
          FreeWhole(k);
        }
      }
    }
  }

  /** Block b begins at the address. */
  ghost predicate StartsAt(p: Pool, r: Runs, start: nat, addr: nat, b: Block) {
    SizedRuns(r, |p.slab|) && Live(p, r, b) && start + Offset(r, b) == addr
  }

  lemma OutOfPool(p: Pool, g: Lists, r: Runs, start: nat, addr: nat)
    requires PagesOk(p, g, r) && !(start <= addr < start + PAGESIZE * |p.slab|)
    ensures forall b :: !StartsAt(p, r, start, addr, b)
  {
    forall b | StartsAt(p, r, start, addr, b) ensures false { LiveInPool(p, g, r, b); }
  }

  /** The pages begin on a page boundary, so address and offset agree within a page. */
  lemma WithinPage(addr: nat, start: nat, s: nat)
    requires start <= addr && start % PAGESIZE == 0 && s < CLASSES
    ensures addr % PAGESIZE == (addr - start) % PAGESIZE && addr % ChunkSize(s) == (addr - start) % ChunkSize(s)
  {
    var q := start / PAGESIZE;
    assert addr == PAGESIZE * q + (addr - start);
    ModPage(q, addr - start, s);
  }

  /** On a page of class s. */
  lemma Decode(p: Pool, g: Lists, r: Runs, addr: nat, start: nat, s: nat)
    requires PagesOk(p, g, r) && start <= addr < start + PAGESIZE * |p.slab| && start % PAGESIZE == 0 && s < CLASSES
    requires r.kind[(addr - start) / PAGESIZE] == Slab(s)
    ensures var k, i := (addr - start) / PAGESIZE, addr % PAGESIZE / ChunkSize(s);
      && i < PerPage(s) && |Map(p.slab[k])| == PerPage(s)
      && (addr % ChunkSize(s) == 0 && Map(p.slab[k])[i] ==> StartsAt(p, r, start, addr, Chunk(k, i)))
      && (forall b :: StartsAt(p, r, start, addr, b) ==>
          addr % ChunkSize(s) == 0 && Map(p.slab[k])[i] && b == Chunk(k, i))
  {
    var o := addr - start;
    var k, i := o / PAGESIZE, addr % PAGESIZE / ChunkSize(s);
    WithinPage(addr, start, s);
    Placed(o, s);
    assert PageOk(p, g, r, k);
    forall b | StartsAt(p, r, start, addr, b)
      ensures addr % ChunkSize(s) == 0 && Map(p.slab[k])[i] && b == Chunk(k, i)
    {
      BlockAt(p, g, r, o, b);
    }
  }

  /** On a page that is not cut into chunks. */
  lemma DecodePages(p: Pool, g: Lists, r: Runs, addr: nat, start: nat)
    requires PagesOk(p, g, r) && start <= addr < start + PAGESIZE * |p.slab| && start % PAGESIZE == 0
    requires !r.kind[(addr - start) / PAGESIZE].Slab?
    ensures var k := (addr - start) / PAGESIZE;
      && (addr % PAGESIZE == 0 && r.kind[k] == Whole && r.head[k] == k ==> StartsAt(p, r, start, addr, Pages(k)))
      && (forall b :: StartsAt(p, r, start, addr, b) ==>
          addr % PAGESIZE == 0 && r.kind[k] == Whole && r.head[k] == k && b == Pages(k))
  {
    var o := addr - start;
    var k := o / PAGESIZE;
    WithinPage(addr, start, 0);
    forall b | StartsAt(p, r, start, addr, b)
      ensures addr % PAGESIZE == 0 && r.kind[k] == Whole && r.head[k] == k && b == Pages(k)
    {
      BlockAt(p, g, r, o, b);
    }
  }

  // ---------- the first state ----------

  ghost function InitLists(pages: nat): Lists {
    Lists(seq(1 + CLASSES, l => if l == 0 then [0] else []), seq(pages, k => if k == 0 then 0 else -1),
        seq(pages, _ => 0))
  }

  lemma InitOk(p: Pool, g: Lists, r: Runs, pages: nat)
    requires pages > 0 && g == InitLists(pages)
    requires r == Runs(seq(pages, _ => 0), seq(pages, _ => pages), seq(pages, _ => Kind.Free))
    requires p.slab == seq(pages, k => if k == 0 then Len(pages) else Len(0))
    requires p.c.next == seq(pages, k => if k == 0 then Head(0) else Null) && p.c.tag == seq(pages, _ => PAGE)
    requires p.c.prev == seq(pages, k => if k == 0 then Head(0) else Null)
    requires p.c.first == seq(1 + CLASSES, l requires l >= 0 => if l == 0 then At(0) else Head(l))
    ensures PagesOk(p, g, r) && forall b :: !Live(p, r, b)
  {
    forall l: nat, i: nat ensures EntryOk(p.c, g, l, i) {}
    forall l: nat ensures FirstOk(p.c, g, l) {}
    forall k: nat ensures PlaceOk(p.c, g, {}, k) && RunOk(r, k) && EdgeOk(r, k) && PageOk(p, g, r, k) {}
    forall k: nat, j: nat ensures SameRun(r, k, j) {}
  }

  lemma InitCounted(p: Pool, r: Runs, pages: nat)
    requires |p.slab| == pages && r.kind == seq(pages, _ => Kind.Free)
    ensures Counted(p, r, pages, seq(CLASSES, _ => 0), seq(CLASSES, _ => 0))
  {
    SumSame(FreeIn(r), 1);
    var zeros: seq<nat> := seq(CLASSES, _ => 0);
    forall s: nat ensures CountsOk(p, r, zeros, zeros, s) {
      SumSame(UsedIn(p, r, s), 0);
      SumSame(AllIn(r, s), 0);
    }
  }

  lemma {:induction false} SumSame(w: seq<nat>, x: nat)
    requires forall k :: 0 <= k < |w| ==> w[k] == x
    ensures Sum(w) == |w| * x
  {
    if w != [] {
      var n := |w| - 1;
      SumSame(w[..n], x);
      assert |w| * x == n * x + x;
    }
  }

  /** When nothing is live any more, the pool is as al_slab_init left it. */
  lemma Restored(p: Pool, g: Lists, r: Runs, pfree: nat, used: seq<nat>, total: seq<nat>)
    requires PagesOk(p, g, r) && Counted(p, r, pfree, used, total) && |p.slab| > 0 && forall b :: !Live(p, r, b)
    ensures pfree == |p.slab| && p.slab[0] == Len(|p.slab|) && g.lists[0] == [0]
    ensures used == total == seq(CLASSES, _ => 0)
  {
    AllFree(p, g, r);
    SumSame(FreeIn(r), 1);
    forall s: nat | s < CLASSES ensures used[s] == 0 && total[s] == 0 {
      assert CountsOk(p, r, used, total, s);
      SumSame(UsedIn(p, r, s), 0);
      SumSame(AllIn(r, s), 0);
    }
  }

  lemma FreedCells(p: Pool, g: Lists, r: Runs, k: nat, p': Pool)
    requires PagesOk(p, g, r) && k < |p.slab| && r.head[k] == k && r.kind[k] != Free
    requires Low(r, k) <= k < High(r, k) <= |p.slab| && SlabsKept(p, Low(r, k), High(r, k), p')
    ensures FreedRun(p, r, k, p')
  {
    assert RunOk(r, k);
    forall j: nat ensures FreedKinds(p, r, k, p', j) {
      if j < |p.slab| {
        assert SameRun(r, k, j);
        if Low(r, k) <= j < High(r, k) { FreedZone(p, g, r, k, j); }
        assert k <= j < k + r.size[k] ==> Low(r, k) <= j < High(r, k);
      }
    }
  }

  /** Taking pages puts nothing on the list of a class. */
  lemma OtherLists(p: Pool, g: Lists, r: Runs, k: nat, n: nat, p': Pool, g': Lists)
    requires TookPages(p, g, r, k, n, p', g')
    ensures forall l :: 0 < l <= CLASSES && g.lists[l] == [] ==> g'.lists[l] == []
  {
    forall l: nat | 0 < l <= CLASSES && g.lists[l] == [] ensures g'.lists[l] == [] {
      assert EntryOk(p'.c, g', l, 0);
      assert g'.lists[l] != [] ==>
          TakenCell(p, g, r, k, n, p', g', g'.lists[l][0]) && PlaceOk(p.c, g, {}, g'.lists[l][0]);
    }
  }
}
