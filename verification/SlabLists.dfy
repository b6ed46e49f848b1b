/**
 The doubly linked lists of the slab allocator: the list of free page runs, and one list of partly
 used pages for every size class. A page descriptor is on at most one of them.

 Links between descriptors are modelled by descriptor numbers. Of a list head only `next` is used.
 */
module SlabLists {

  datatype Link = Null | Head(l: nat) | At(k: nat)

  /**
   The next and prev fields of the descriptors, the low bits of prev being kept apart as tag, and
   the next fields of the heads.
   */
  datatype Links = Links(next: seq<Link>, prev: seq<Link>, tag: seq<nat>, first: seq<Link>)

  /** What is on the lists: on[k] is the list of descriptor k, or -1, and pos[k] its place there. */
  datatype Lists = Lists(lists: seq<seq<nat>>, on: seq<int>, pos: seq<nat>)

  const PAGE := 0
  const BIG := 1
  const EXACT := 2

  /** List 0 is pool->free, list 1 that of the exact class, and the others those of the big classes. */
  function TagOf(l: nat): nat {
    if l == 0 then PAGE else if l == 1 then EXACT else BIG
  }

  ghost predicate SizedLists(c: Links, g: Lists) {
    |c.next| == |c.prev| == |c.tag| == |g.on| == |g.pos| && |c.first| == |g.lists|
  }

  function After(g: Lists, l: nat, i: nat): Link
    requires l < |g.lists|
  {
    if i < |g.lists[l]| then At(g.lists[l][i]) else Head(l)
  }

  function Before(g: Lists, l: nat, i: nat): Link
    requires l < |g.lists| && i <= |g.lists[l]|
  {
    if i > 0 then At(g.lists[l][i - 1]) else Head(l)
  }

  /** The i-th descriptor of list l. */
  ghost predicate EntryOk(c: Links, g: Lists, l: nat, i: nat)
    requires SizedLists(c, g)
  {
    l < |g.lists| && i < |g.lists[l]| ==>
      var k := g.lists[l][i];
      && k < |c.next| && g.on[k] == l && g.pos[k] == i
      && c.next[k] == After(g, l, i + 1) && c.prev[k] == Before(g, l, i) && c.tag[k] == TagOf(l)
  }

  ghost predicate FirstOk(c: Links, g: Lists, l: nat)
    requires SizedLists(c, g)
  {
    l < |g.lists| ==> c.first[l] == After(g, l, 0)
  }

  /** A descriptor is where its place says; off the lists its next is null, unless it is in e. */
  ghost predicate PlaceOk(c: Links, g: Lists, e: set<nat>, k: nat)
    requires SizedLists(c, g)
  {
    k < |c.next| ==>
      if g.on[k] < 0 then g.on[k] == -1 && (k !in e ==> c.next[k] == Null)
      else g.on[k] < |g.lists| && g.pos[k] < |g.lists[g.on[k]]| && g.lists[g.on[k]][g.pos[k]] == k
  }

  ghost predicate ListsOk(c: Links, g: Lists, e: set<nat>) {
    && SizedLists(c, g)
    && (forall l: nat, i: nat {:trigger EntryOk(c, g, l, i)} :: EntryOk(c, g, l, i))
    && (forall l: nat {:trigger FirstOk(c, g, l)} :: FirstOk(c, g, l))
    && (forall k: nat {:trigger PlaceOk(c, g, e, k)} :: PlaceOk(c, g, e, k))
  }

  // ---------- assignments through a link ----------

  function SetNext(c: Links, at: Link, to: Link): Links
    requires |c.next| == |c.prev| == |c.tag| && (at.At? ==> at.k < |c.next|) && (at.Head? ==> at.l < |c.first|)
  {
    match at
    case Null => c
    case Head(l) => c.(first := c.first[l := to])
    case At(k) => c.(next := c.next[k := to])
  }

  function SetPrev(c: Links, at: Link, to: Link, tag: nat): Links
    requires |c.next| == |c.prev| == |c.tag| && (at.At? ==> at.k < |c.next|)
  {
    if at.At? then c.(prev := c.prev[at.k := to], tag := c.tag[at.k := tag]) else c
  }

  // ---------- taking a descriptor off its list ----------

  /** prev->next = next, next->prev = prev. */
  function Unlinked(c: Links, k: nat): Links
    requires |c.next| == |c.prev| == |c.tag| && k < |c.next|
    requires c.prev[k].At? ==> c.prev[k].k < |c.next|
    requires c.prev[k].Head? ==> c.prev[k].l < |c.first|
    requires c.next[k].At? ==> c.next[k].k < |c.next| && c.prev[k] != At(k)
  {
    var c1 := SetNext(c, c.prev[k], c.next[k]);
    SetPrev(c1, c1.next[k], c1.prev[k], c1.tag[k])
  }

  ghost function Dropped(g: Lists, k: nat): Lists
    requires |g.on| == |g.pos| && k < |g.on| && 0 <= g.on[k] < |g.lists| && g.pos[k] < |g.lists[g.on[k]]|
  {
    var l, i := g.on[k], g.pos[k];
    Lists(g.lists[l := g.lists[l][..i] + g.lists[l][i + 1..]], g.on[k := -1],
          seq(|g.pos|, j requires 0 <= j < |g.pos| => if g.on[j] == l && g.pos[j] > i then g.pos[j] - 1 else g.pos[j]))
  }

  ghost predicate OnList(c: Links, g: Lists, e: set<nat>, k: nat) {
    ListsOk(c, g, e) && k < |c.next| && 0 <= g.on[k] < |g.lists| && g.pos[k] < |g.lists[g.on[k]]|
  }

  lemma Neighbours(c: Links, g: Lists, e: set<nat>, k: nat)
    requires OnList(c, g, e, k)
    ensures var l, i := g.on[k], g.pos[k];
      && g.lists[l][i] == k && c.next[k] == After(g, l, i + 1) && c.prev[k] == Before(g, l, i) && c.tag[k] == TagOf(l)
      && (i > 0 ==> var a := g.lists[l][i - 1]; a < |c.next| && g.on[a] == l && g.pos[a] == i - 1)
      && (i + 1 < |g.lists[l]| ==> var b := g.lists[l][i + 1];
          b < |c.next| && g.on[b] == l && g.pos[b] == i + 1 && c.tag[b] == TagOf(l))
  {
    var l, i := g.on[k], g.pos[k];
    var n: nat := i + 1;
    assert PlaceOk(c, g, e, k) && EntryOk(c, g, l, i) && EntryOk(c, g, l, n);
    if i > 0 { var h: nat := i - 1; assert EntryOk(c, g, l, h); }
  }

  /** The links of the other descriptors once k is off its list. */
  ghost predicate Closed(c: Links, g: Lists, k: nat, c': Links, j: nat)
    requires SizedLists(c, g) && SizedLists(c', g) && k < |c.next| && 0 <= g.on[k] < |g.lists|
  {
    j < |c.next| ==>
      && (j != k && g.on[j] == g.on[k] && g.pos[j] + 1 == g.pos[k] ==> c'.next[j] == c.next[k])
      && (j != k && !(g.on[j] == g.on[k] && g.pos[j] + 1 == g.pos[k]) ==> c'.next[j] == c.next[j])
      && (g.on[j] >= 0 && j != k && g.on[j] == g.on[k] && g.pos[j] == g.pos[k] + 1 ==> c'.prev[j] == c.prev[k])
      && (g.on[j] >= 0 && j != k && !(g.on[j] == g.on[k] && g.pos[j] == g.pos[k] + 1) ==> c'.prev[j] == c.prev[j])
      && (g.on[j] < 0 ==> c'.prev[j] == c.prev[j])
  }

  lemma UnlinkedCells(c: Links, g: Lists, e: set<nat>, k: nat, j: nat)
    requires OnList(c, g, e, k)
    ensures (c.prev[k].At? ==> c.prev[k].k < |c.next|) && (c.prev[k].Head? ==> c.prev[k].l < |c.first|)
    ensures c.next[k].At? ==> c.next[k].k < |c.next| && c.prev[k] != At(k)
    ensures var c' := Unlinked(c, k); SizedLists(c', g) && Closed(c, g, k, c', j) && c'.tag == c.tag
    ensures Unlinked(c, k).first == if g.pos[k] == 0 then c.first[g.on[k] := c.next[k]] else c.first
  {
    Neighbours(c, g, e, k);
    var l, i := g.on[k], g.pos[k];
    var n: nat := i + 1;
    assert PlaceOk(c, g, e, j) && EntryOk(c, g, l, n);
    if i > 0 { var h: nat := i - 1; assert EntryOk(c, g, l, h); }
  }

  /** k is off its list; its own next field is whatever it is. */
  ghost predicate Taken(c: Links, g: Lists, e: set<nat>, k: nat, c': Links) {
    && OnList(c, g, e, k) && SizedLists(c', g) && c'.tag == c.tag
    && c'.first == (if g.pos[k] == 0 then c.first[g.on[k] := c.next[k]] else c.first)
    && (forall j: nat {:trigger Closed(c, g, k, c', j)} :: Closed(c, g, k, c', j))
  }

  lemma TakenEntry(c: Links, g: Lists, e: set<nat>, k: nat, c': Links, l: nat, i: nat)
    requires Taken(c, g, e, k, c')
    ensures SizedLists(c', Dropped(g, k)) && EntryOk(c', Dropped(g, k), l, i)
  {
    var g' := Dropped(g, k);
    if l < |g'.lists| && i < |g'.lists[l]| {
      var o: nat := if l == g.on[k] && i >= g.pos[k] then i + 1 else i;
      assert EntryOk(c, g, l, o);
      var j := g.lists[l][o];
      assert Closed(c, g, k, c', j) && g'.lists[l][i] == j;
      Neighbours(c, g, e, k);
      assert g'.pos[j] == i && g'.on[j] == l;
    }
  }

  lemma TakenPlace(c: Links, g: Lists, e: set<nat>, k: nat, c': Links, j: nat)
    requires Taken(c, g, e, k, c')
    ensures SizedLists(c', Dropped(g, k)) && PlaceOk(c', Dropped(g, k), if c'.next[k] == Null then e else e + {k}, j)
  {
    assert PlaceOk(c, g, e, j) && Closed(c, g, k, c', j) && PlaceOk(c, g, e, k);
  }

  /** The other lists, and the rest of its own, are as they were. */
  lemma TakenOk(c: Links, g: Lists, e: set<nat>, k: nat, c': Links)
    requires Taken(c, g, e, k, c')
    ensures ListsOk(c', Dropped(g, k), if c'.next[k] == Null then e else e + {k})
  {
    var g', e' := Dropped(g, k), if c'.next[k] == Null then e else e + {k};
    forall l: nat, i: nat ensures EntryOk(c', g', l, i) { TakenEntry(c, g, e, k, c', l, i); }
    forall l: nat ensures FirstOk(c', g', l) {
      assert FirstOk(c, g, l);
      Neighbours(c, g, e, k);
    }
    forall j: nat ensures PlaceOk(c', g', e', j) { TakenPlace(c, g, e, k, c', j); }
  }

  /** What the two assignments do, with or without clearing next after them. */
  lemma UnlinkedTaken(c: Links, g: Lists, e: set<nat>, k: nat, c': Links)
    requires OnList(c, g, e, k) && |c'.next| == |c.next|
    requires (c.prev[k].At? ==> c.prev[k].k < |c.next|) && (c.prev[k].Head? ==> c.prev[k].l < |c.first|)
    requires c.next[k].At? ==> c.next[k].k < |c.next| && c.prev[k] != At(k)
    requires c' == Unlinked(c, k).(next := Unlinked(c, k).next[k := c'.next[k]])
    ensures Taken(c, g, e, k, c')
  {
    forall j: nat ensures Closed(c, g, k, c', j) { UnlinkedCells(c, g, e, k, j); }
    UnlinkedCells(c, g, e, k, k);
  }

  // ---------- putting a descriptor first on a list ----------

  function Pushed(c: Links, l: nat, k: nat): Links
    requires |c.next| == |c.prev| == |c.tag| && k < |c.next| && l < |c.first|
    requires (c.first[l].At? ==> c.first[l].k < |c.next|)
  {
    var c1 := SetPrev(c, c.first[l], At(k), TagOf(l));
    c1.(next := c1.next[k := c.first[l]], prev := c1.prev[k := Head(l)], tag := c1.tag[k := TagOf(l)],
        first := c.first[l := At(k)])
  }

  ghost function Front(g: Lists, l: nat, k: nat): Lists
    requires |g.on| == |g.pos| && k < |g.on| && l < |g.lists|
  {
    Lists(g.lists[l := [k] + g.lists[l]], g.on[k := l],
          seq(|g.pos|,
              j requires 0 <= j < |g.pos| => if j == k then 0 else if g.on[j] == l then g.pos[j] + 1 else g.pos[j]))
  }

  ghost predicate CanPush(c: Links, g: Lists, e: set<nat>, l: nat, k: nat) {
    ListsOk(c, g, e) && k < |c.next| && l < |g.lists| && g.on[k] < 0
  }

  lemma PushReady(c: Links, g: Lists, e: set<nat>, l: nat, k: nat)
    requires CanPush(c, g, e, l, k)
    ensures c.first[l] == After(g, l, 0)
    ensures g.lists[l] != [] ==> var f := g.lists[l][0];
        f < |c.next| && f != k && g.on[f] == l && g.pos[f] == 0 && c.tag[f] == TagOf(l)
  {
    assert FirstOk(c, g, l) && EntryOk(c, g, l, 0);
  }

  lemma PushedEntry(c: Links, g: Lists, e: set<nat>, l: nat, k: nat, m: nat, i: nat)
    requires CanPush(c, g, e, l, k)
    ensures c.first[l].At? ==> c.first[l].k < |c.next|
    ensures SizedLists(Pushed(c, l, k), Front(g, l, k)) && EntryOk(Pushed(c, l, k), Front(g, l, k), m, i)
  {
    PushReady(c, g, e, l, k);
    if m < |g.lists| {
      if m == l {
        if i > 0 { var o: nat := i - 1; assert EntryOk(c, g, m, o); }
      } else {
        assert EntryOk(c, g, m, i);
      }
    }
  }

  /** k is first on the list, before everything that was there. */
  lemma PushedOk(c: Links, g: Lists, e: set<nat>, l: nat, k: nat)
    requires CanPush(c, g, e, l, k)
    ensures c.first[l].At? ==> c.first[l].k < |c.next|
    ensures ListsOk(Pushed(c, l, k), Front(g, l, k), e - {k})
  {
    PushReady(c, g, e, l, k);
    var c', g' := Pushed(c, l, k), Front(g, l, k);
    forall m: nat, i: nat ensures EntryOk(c', g', m, i) { PushedEntry(c, g, e, l, k, m, i); }
    forall m: nat ensures FirstOk(c', g', m) { assert FirstOk(c, g, m); }
    forall j: nat ensures PlaceOk(c', g', e - {k}, j) { assert PlaceOk(c, g, e, j); }
  }

  // ---------- putting one descriptor in the place of another ----------

  function Replaced(c: Links, k: nat, n: nat): Links
    requires |c.next| == |c.prev| == |c.tag| && k < |c.next| && n < |c.next|
    requires (c.prev[k].At? ==> c.prev[k].k < |c.next|) && (c.prev[k].Head? ==> c.prev[k].l < |c.first|)
    requires c.next[k].At? ==> c.next[k].k < |c.next|
  {
    var c1 := c.(next := c.next[n := c.next[k]], prev := c.prev[n := c.prev[k]], tag := c.tag[n := c.tag[k]]);
    var c2 := SetNext(c1, c.prev[k], At(n));
    var c3 := SetPrev(c2, c.next[k], At(n), c.tag[k]);
    c3.(next := c3.next[k := Null])
  }

  ghost function Swapped(g: Lists, k: nat, n: nat): Lists
    requires |g.on| == |g.pos| && k < |g.on| && n < |g.on| && 0 <= g.on[k] < |g.lists| && g.pos[k] < |g.lists[g.on[k]]|
  {
    var l, i := g.on[k], g.pos[k];
    var row: seq<nat> := g.lists[l];
    Lists(g.lists[l := row[..i] + [n] + row[i + 1..]], g.on[k := -1][n := l], g.pos[n := i])
  }

  ghost predicate CanSwap(c: Links, g: Lists, e: set<nat>, k: nat, n: nat) {
    OnList(c, g, e, k) && n < |c.next| && n != k && g.on[n] < 0
  }

  ghost predicate LinksIn(c: Links, k: nat) {
    && |c.next| == |c.prev| == |c.tag| && k < |c.next|
    && (c.prev[k].At? ==> c.prev[k].k < |c.next|) && (c.prev[k].Head? ==> c.prev[k].l < |c.first|)
    && (c.next[k].At? ==> c.next[k].k < |c.next|)
  }

  lemma ReplacedCell(c: Links, k: nat, n: nat, j: nat)
    requires LinksIn(c, k) && n < |c.next| && j < |c.next| && j != k && j != n
    ensures var c' := Replaced(c, k, n);
      && c'.next[j] == (if c.prev[k] == At(j) then At(n) else c.next[j])
      && c'.prev[j] == (if c.next[k] == At(j) then At(n) else c.prev[j])
      && c'.tag[j] == (if c.next[k] == At(j) then c.tag[k] else c.tag[j])
  {}

  lemma ReplacedOther(c: Links, g: Lists, e: set<nat>, k: nat, n: nat, l: nat, i: nat)
    requires CanSwap(c, g, e, k, n) && LinksIn(c, k) && l < |g.lists| && i < |g.lists[l]|
    requires (l != g.on[k] || i != g.pos[k])
    ensures SizedLists(Replaced(c, k, n), Swapped(g, k, n)) && EntryOk(Replaced(c, k, n), Swapped(g, k, n), l, i)
  {
    Neighbours(c, g, e, k);
    assert EntryOk(c, g, l, i);
    ReplacedCell(c, k, n, g.lists[l][i]);
  }

  lemma ReplacedHere(c: Links, g: Lists, e: set<nat>, k: nat, n: nat)
    requires CanSwap(c, g, e, k, n) && LinksIn(c, k)
    ensures SizedLists(Replaced(c, k, n), Swapped(g, k, n))
    ensures EntryOk(Replaced(c, k, n), Swapped(g, k, n), g.on[k], g.pos[k])
  {
    Neighbours(c, g, e, k);
  }

  /** n is where k was. */
  lemma ReplacedOk(c: Links, g: Lists, e: set<nat>, k: nat, n: nat)
    requires CanSwap(c, g, e, k, n)
    ensures LinksIn(c, k) && ListsOk(Replaced(c, k, n), Swapped(g, k, n), e)
  {
    Neighbours(c, g, e, k);
    var c', g' := Replaced(c, k, n), Swapped(g, k, n);
    forall l: nat, i: nat ensures EntryOk(c', g', l, i) {
      if l < |g.lists| && i < |g.lists[l]| {
        if l == g.on[k] && i == g.pos[k] { ReplacedHere(c, g, e, k, n); } else { ReplacedOther(c, g, e, k, n, l, i); }
      }
    }
    forall l: nat ensures FirstOk(c', g', l) { assert FirstOk(c, g, l); }
    forall j: nat ensures PlaceOk(c', g', e, j) { assert PlaceOk(c, g, e, j); }
  }
}
