/** Pages cut into chunks: bitmaps, and the lists of pages with a free chunk. */
module SlabChunks {

  import opened SlabLists
  import opened SlabPages
  import opened SlabTake
  import opened SlabGive

  /** The slab field with another bitmap. */
  function WithMap(w: Word, bits: seq<bool>): Word
    requires w.Bits? || w.Chunks?
  {
    match w
    case Bits(_) => Bits(bits)
    case Chunks(_, shift) => Chunks(bits, shift)
  }

  /** The first clear bit: the m <<= 1 loops of al_slab_alloc_locked. */
  method FirstClear(bits: seq<bool>) returns (i: nat)
    requires false in bits
    ensures i < |bits| && !bits[i] && forall j :: 0 <= j < i ==> bits[j]
  {
    i := 0;
    while bits[i]
      invariant i < |bits| && forall j :: 0 <= j < i ==> bits[j]
      decreases |bits| - i
    {
      i := i + 1;
      assert exists j :: 0 <= j < |bits| && !bits[j];
    }
  }

  /** k is a page of class s. */
  ghost predicate ChunkPage(p: Pool, g: Lists, r: Runs, k: nat, s: nat) {
    PagesOk(p, g, r) && k < |p.slab| && r.kind[k] == Slab(s)
  }

  lemma ChunkPageFacts(p: Pool, g: Lists, r: Runs, k: nat, s: nat)
    requires ChunkPage(p, g, r, k, s)
    ensures r.head[k] == k && r.size[k] == 1 && WordOk(p.slab[k], s) && p.c.tag[k] == TagOf(1 + s)
    ensures g.on[k] == (if Full(p.slab[k]) then -1 else 1 + s) && (Full(p.slab[k]) <==> p.c.next[k] == Null)
    ensures !Full(p.slab[k]) ==> OnList(p.c, g, {}, k)
  {
    assert PageOk(p, g, r, k) && RunOk(r, k) && PlaceOk(p.c, g, {}, k);
    var l, i := g.on[k], g.pos[k];
    assert l >= 0 ==> EntryOk(p.c, g, l, i);
  }

  /** The first page on the list of a class has a free chunk. */
  lemma FirstHasRoom(p: Pool, g: Lists, r: Runs, s: nat)
    requires PagesOk(p, g, r) && s < CLASSES
    ensures p.c.first[1 + s].At? || p.c.first[1 + s] == Head(1 + s)
    ensures p.c.first[1 + s].At? ==> var k := p.c.first[1 + s].k;
        ChunkPage(p, g, r, k, s) && !Full(p.slab[k]) && p.c.next[k] != At(k)
    ensures !p.c.first[1 + s].At? ==> g.lists[1 + s] == [] && forall k :: 0 <= k < |p.slab| && r.kind[k] == Slab(s) ==>
        Full(p.slab[k])
  {
    var l: nat := 1 + s;
    assert FirstOk(p.c, g, l) && EntryOk(p.c, g, l, 0);
    if g.lists[l] != [] {
      var k := g.lists[l][0];
      assert PageOk(p, g, r, k);
      assert EntryOk(p.c, g, l, 1);
    } else {
      forall k | 0 <= k < |p.slab| && r.kind[k] == Slab(s) ensures Full(p.slab[k]) {
        assert PageOk(p, g, r, k) && PlaceOk(p.c, g, {}, k);
      }
    }
  }

  /** Another bitmap that is neither empty nor changes whether the page is full. */
  lemma Remapped(p: Pool, g: Lists, r: Runs, k: nat, s: nat, bits: seq<bool>)
    requires ChunkPage(p, g, r, k, s) && |bits| == PerPage(s) && true in bits && (p.slab[k].Bits? || p.slab[k].Chunks?)
    requires Full(WithMap(p.slab[k], bits)) <==> Full(p.slab[k])
    ensures PagesOk(p.(slab := p.slab[k := WithMap(p.slab[k], bits)]), g, r)
  {
    var p' := p.(slab := p.slab[k := WithMap(p.slab[k], bits)]);
    forall j: nat ensures PageOk(p', g, r, j) { assert PageOk(p, g, r, j); }
  }

  /** The last chunk of a page: it leaves the list of its class. */
  lemma Filling(p: Pool, g: Lists, r: Runs, k: nat, s: nat, bits: seq<bool>, c1: Links, c': Links)
    requires ChunkPage(p, g, r, k, s) && !Full(p.slab[k]) && |bits| == PerPage(s) && false !in bits
    requires Taken(p.c, g, {}, k, c1) && c1.next[k] == Null && |c'.prev| == |c1.prev|
    requires c' == c1.(prev := c1.prev[k := c'.prev[k]])
    ensures PagesOk(Pool(p.slab[k := WithMap(p.slab[k], bits)], c'), Dropped(g, k), r)
  {
    ChunkPageFacts(p, g, r, k, s);
    assert bits[0];
    var p', g' := Pool(p.slab[k := WithMap(p.slab[k], bits)], c'), Dropped(g, k);
    TakenOk(p.c, g, {}, k, c1);
    TakenLone(p, g, {}, k, c1, k);
    forall j: nat ensures OffOnly(c1, g', c', j) {}
    OffWrites(c1, g', {}, c');
    forall j: nat ensures PageOk(p', g', r, j) {
      assert PageOk(p, g, r, j);
      TakenLone(p, g, {}, k, c1, j);
      if j < |p.slab| && j != k { assert g.on[j] < 0 ==> c'.next[j] == p.c.next[j] && c'.prev[j] == p.c.prev[j]; }
    }
  }

  /** A page, by itself, becomes one of class s with its first chunk in use. */
  ghost function NewWord(s: nat): Word {
    if s == 0 then Bits([true] + seq(63, _ => false)) else Chunks([true] + seq(PerPage(s) - 1, _ => false), 6 + s)
  }

  lemma NewWordOk(s: nat)
    requires s < CLASSES
    ensures WordOk(NewWord(s), s) && !Full(NewWord(s))
  {
    var m := Map(NewWord(s));
    assert m[0] && !m[1];
  }

  lemma Cutting(p: Pool, g: Lists, r: Runs, k: nat, s: nat)
    requires PagesOk(p, g, r) && k < |p.slab| && r.head[k] == k && r.size[k] == 1 && r.kind[k] == Whole && s < CLASSES
    ensures p.c.first[1 + s].At? ==> p.c.first[1 + s].k < |p.slab|
    ensures PagesOk(Pool(p.slab[k := NewWord(s)], Pushed(p.c, 1 + s, k)), Front(g, 1 + s, k), Painted(r, k, 1, Slab(s)))
  {
    NewWordOk(s);
    assert PageOk(p, g, r, k);
    PushedOk(p.c, g, {}, 1 + s, k);
    var p' := Pool(p.slab[k := NewWord(s)], Pushed(p.c, 1 + s, k));
    var g', r' := Front(g, 1 + s, k), Painted(r, k, 1, Slab(s));
    NextEdge(r, k);
    PaintedOk(r, k, 1, Slab(s));
    assert {} - {k} == {};
    forall j: nat ensures PageOk(p', g', r', j) { CutCell(p, g, r, k, s, j); }
  }

  lemma CutCell(p: Pool, g: Lists, r: Runs, k: nat, s: nat, j: nat)
    requires PagesOk(p, g, r) && k < |p.slab| && r.head[k] == k && r.size[k] == 1 && r.kind[k] == Whole && s < CLASSES
    requires p.c.first[1 + s].At? ==> p.c.first[1 + s].k < |p.slab|
    ensures var p' := Pool(p.slab[k := NewWord(s)], Pushed(p.c, 1 + s, k));
            var g', r' := Front(g, 1 + s, k), Painted(r, k, 1, Slab(s));
            SizedPool(p', g', r') && PageOk(p', g', r', j)
  {
    NewWordOk(s);
    NextEdge(r, k);
    assert PageOk(p, g, r, k) && PageOk(p, g, r, j);
    if j < |p.slab| { PushCell(p.c, g, {}, 1 + s, k, j); }
  }

  /** A full page goes back on the list of its class, when one of its chunks is freed. */
  lemma Reopening(p: Pool, g: Lists, r: Runs, k: nat, s: nat)
    requires ChunkPage(p, g, r, k, s) && Full(p.slab[k]) && s < CLASSES
    ensures p.c.first[1 + s].At? ==> p.c.first[1 + s].k < |p.slab|
    ensures PagesBut(Pool(p.slab, Pushed(p.c, 1 + s, k)), Front(g, 1 + s, k), r, k)
    ensures var c' := Pushed(p.c, 1 + s, k); c'.tag[k] == TagOf(1 + s) && Front(g, 1 + s, k).on[k] == 1 + s
  {
    ChunkPageFacts(p, g, r, k, s);
    PushedOk(p.c, g, {}, 1 + s, k);
    var p', g' := Pool(p.slab, Pushed(p.c, 1 + s, k)), Front(g, 1 + s, k);
    assert {} - {k} == {};
    forall j: nat | j != k ensures PageOk(p', g', r, j) {
      assert PageOk(p, g, r, j);
      if j < |p.slab| { PushCell(p.c, g, {}, 1 + s, k, j); }
    }
    PushCell(p.c, g, {}, 1 + s, k, k);
  }

  // ---------- the operations ----------

  /** Take the first free chunk of the page k, which has one. */
  method TakeChunk(p: Pool, k: nat, s: nat, ghost g: Lists, ghost r: Runs) returns (p': Pool, i: nat, ghost g': Lists)
    requires ChunkPage(p, g, r, k, s) && !Full(p.slab[k])
    ensures PagesOk(p', g', r) && i < |Map(p.slab[k])| && !Map(p.slab[k])[i]
    ensures (p.slab[k].Bits? || p.slab[k].Chunks?)
    ensures p'.slab == p.slab[k := WithMap(p.slab[k], Map(p.slab[k])[i := true])]
  {
    ChunkPageFacts(p, g, r, k, s);
    i := FirstClear(Map(p.slab[k]));
    var bits := Map(p.slab[k])[i := true];
    assert bits[i];
    p', g' := p.(slab := p.slab[k := WithMap(p.slab[k], bits)]), g;
    if false !in bits {
      UnlinkedCells(p.c, g, {}, k, k);
      var c := Unlinked(p.c, k);
      ghost var c1 := c.(next := c.next[k := Null]);
      UnlinkedTaken(p.c, g, {}, k, c1);
      c := c.(next := c.next[k := Null], prev := c.prev[k := Null], tag := c.tag[k := TagOf(1 + s)]);
      p' := p'.(c := c);
      assert c == c1.(prev := c1.prev[k := c.prev[k]]);
      Filling(p, g, r, k, s, bits, c1, c);
      g' := Dropped(g, k);
    } else {
      Remapped(p, g, r, k, s, bits);
    }
  }

  /** The page k, all to itself, is cut into chunks of class s. */
  method CutPage(p: Pool, k: nat, s: nat, ghost g: Lists, ghost r: Runs) returns (p': Pool, ghost g': Lists)
    requires PagesOk(p, g, r) && k < |p.slab| && r.head[k] == k && r.size[k] == 1 && r.kind[k] == Whole && s < CLASSES
    requires g.lists[1 + s] == []
    ensures PagesOk(p', g', Painted(r, k, 1, Slab(s))) && p'.slab == p.slab[k := NewWord(s)]
  {
    ghost var l: nat := 1 + s;
    assert FirstOk(p.c, g, l);
    var w := if s == 0 then Bits([true] + seq(63, _ => false))
             else Chunks([true] + seq(PerPage(s) - 1, _ => false), 6 + s);
    Cutting(p, g, r, k, s);
    p' := p.(slab := p.slab[k := w]);
    p' := p'.(c := p'.c.(next := p'.c.next[k := Head(1 + s)]));
    p' := p'.(c := p'.c.(prev := p'.c.prev[k := Head(1 + s)], tag := p'.c.tag[k := TagOf(1 + s)]));
    p' := p'.(c := p'.c.(first := p'.c.first[1 + s := At(k)]));
    assert p'.c == Pushed(p.c, 1 + s, k);
    g' := Front(g, 1 + s, k);
  }

  /** The runs when chunk i of page k, of bitmap bits, is free: a page without used chunks is a free page. */
  ghost function RunsWithout(r: Runs, k: nat, bits: seq<bool>): Runs
    requires |r.head| == |r.size| == |r.kind| && k < |r.head| && Low(r, k) <= High(r, k)
  {
    if true in bits then r else Freed(r, k)
  }

  lemma Emptied(p: Pool, g: Lists, r: Runs, k: nat, s: nat, w: Word)
    requires PagesBut(p, g, r, k) && r.kind[k] == Slab(s) && r.size[k] == 1 && WordOk(w, s) && !Full(w)
    requires p.slab[k] == w && p.c.tag[k] == TagOf(1 + s) && g.on[k] == 1 + s
    ensures PagesOk(p, g, r)
  {
    forall j: nat ensures PageOk(p, g, r, j) { assert j != k ==> PageOk(p, g, r, j); }
  }

  lemma RewordedBut(p: Pool, g: Lists, r: Runs, k: nat, w: Word)
    requires PagesBut(p, g, r, k)
    ensures PagesBut(p.(slab := p.slab[k := w]), g, r, k)
  {
    var p' := p.(slab := p.slab[k := w]);
    forall j: nat | j != k ensures PageOk(p', g, r, j) { assert PageOk(p, g, r, j); }
  }

  /** Before the bit is cleared: a full page is put back on its list. */
  method Reopen(p: Pool, k: nat, s: nat, ghost g: Lists, ghost r: Runs) returns (p': Pool, ghost g': Lists)
    requires ChunkPage(p, g, r, k, s) && s < CLASSES
    ensures PagesBut(p', g', r, k) && p'.slab == p.slab && p'.c.tag[k] == TagOf(1 + s) && g'.on[k] == 1 + s
  {
    ChunkPageFacts(p, g, r, k, s);
    p', g' := p, g;
    if if s == 0 then Full(p.slab[k]) else p.c.next[k] == Null {
      Reopening(p, g, r, k, s);
      p' := p.(c := Pushed(p.c, 1 + s, k));
      g' := Front(g, 1 + s, k);
    }
  }

  /** The chunk part of al_slab_free_locked. */
  method GiveChunk(p: Pool, k: nat, s: nat, i: nat, ghost g: Lists, ghost r: Runs)
      returns (p': Pool, emptied: bool, ghost g': Lists)
    requires ChunkPage(p, g, r, k, s) && i < |Map(p.slab[k])| && Map(p.slab[k])[i] && s < CLASSES
    ensures Low(r, k) <= k < High(r, k) <= |p.slab| && (emptied <==> true !in Map(p.slab[k])[i := false])
    ensures PagesOk(p', g', RunsWithout(r, k, Map(p.slab[k])[i := false])) && |p'.slab| == |p.slab|
    ensures emptied ==> SlabsKept(p, Low(r, k), High(r, k), p')
    ensures !emptied ==> (p.slab[k].Bits? || p.slab[k].Chunks?)
    ensures !emptied ==> p'.slab == p.slab[k := WithMap(p.slab[k], Map(p.slab[k])[i := false])]
  {
    ChunkPageFacts(p, g, r, k, s);
    var bits := Map(p.slab[k])[i := false];
    assert !bits[i];
    p', g' := Reopen(p, k, s, g, r);
    RewordedBut(p', g', r, k, WithMap(p.slab[k], bits));
    p' := p'.(slab := p'.slab[k := WithMap(p'.slab[k], bits)]);
    emptied := true !in bits;
    if emptied {
      p', g' := FreePages(p', k, 1, g', r);
    } else {
      Emptied(p', g', r, k, s, WithMap(p.slab[k], bits));
      Reach(r, k);
    }
  }

  lemma Reach(r: Runs, k: nat)
    requires RunsOk(r) && k < |r.head| && r.head[k] == k
    ensures Low(r, k) <= k < High(r, k) <= |r.head|
  {
    assert RunOk(r, k);
    if k > 0 { var j: nat := k - 1; assert RunOk(r, j); }
    var b: nat := k + r.size[k];
    assert RunOk(r, b);
    NextEdge(r, k);
  }
}
