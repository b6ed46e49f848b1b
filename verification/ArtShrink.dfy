/**
 remove_child4, remove_child16, remove_child48 and remove_child256: removing a child, to a smaller
 layout if few are left.
 */
module ArtShrink {

  import opened Octets
  import opened ArtLayout
  import opened ArtGrow

  /** Every layout has the children that keep it from being made smaller. */
  ghost predicate Steady(n: Node) {
    LayoutOk(n) && Degree(n) >= match n.kind case K4 => 2 case K16 => 4 case K48 => 13 case K256 => 38
  }

  // ---------- sorted layouts ----------

  /** The memmove that closes the gap at i. */
  function Closed<T>(s: seq<T>, i: nat, num: nat): (r: seq<T>)
    requires i < num <= |s|
    ensures |r| == |s| && (forall j :: 0 <= j < i ==> r[j] == s[j])
    ensures (forall j :: i <= j < num - 1 ==> r[j] == s[j + 1])
  {
    s[..i] + s[i + 1..num] + s[num - 1..]
  }

  lemma ClosedSorted(keys: seq<nat>, num: nat, i: nat)
    requires i < num <= |keys| && Sorted(keys, num)
    ensures Sorted(Closed(keys, i, num), num - 1)
  {}

  lemma ClosedFilled(kids: seq<Node>, num: nat, i: nat)
    requires i < num <= |kids| && Filled(kids, num)
    ensures Filled(Closed(kids, i, num), num - 1)
  {}

  lemma ClosedAt<T>(s: seq<T>, i: nat, num: nat, k: nat)
    requires i < num <= |s| && k < num - 1
    ensures Closed(s, i, num)[k] == s[if k < i then k else k + 1]
  {}

  /** n' is n without the entry at i. */
  ghost predicate ClosesAt(n: Node, n': Node, i: nat) {
    && LayoutOk(n) && IsSorted(n) && LayoutOk(n') && n'.kind == n.kind && i < n.num && n'.num == n.num - 1
    && n'.keys == Closed(n.keys, i, n.num) && n'.kids == Closed(n.kids, i, n.num)
  }

  lemma ClosedForth(n: Node, n': Node, i: nat, j: nat)
    requires ClosesAt(n, n', i) && j < n.num && j != i && n.keys[j] < 256
    ensures Child(n', n.keys[j]) == n.kids[j]
  {
    var k := if j < i then j else j - 1;
    ClosedAt(n.keys, i, n.num, k);
    ClosedAt(n.kids, i, n.num, k);
    SortedChild(n', n.keys[j], k);
  }

  lemma ClosedBack(n: Node, n': Node, i: nat, k: nat)
    requires ClosesAt(n, n', i) && k < n'.num && n'.keys[k] < 256
    ensures Slot(n, n'.keys[k]) == if k < i then k else k + 1
  {
    ClosedAt(n.keys, i, n.num, k);
    SortedChild(n, n'.keys[k], if k < i then k else k + 1);
  }

  lemma ClosedChild(n: Node, n': Node, i: nat, c: Byte, d: Byte)
    requires ClosesAt(n, n', i) && Slot(n, c) == i
    ensures Child(n', d) == if d == c then Nil else Child(n, d)
  {
    var j, k := Slot(n, d), Slot(n', d);
    if k >= 0 { ClosedBack(n, n', i, k); }
    if d != c && j >= 0 { ClosedForth(n, n', i, j); }
  }

  /** The first halves of remove_child4 and remove_child16. */
  method RemoveSorted(n: Node, c: Byte, pos: nat) returns (n': Node)
    requires LayoutOk(n) && IsSorted(n) && Child(n, c) != Nil && pos == Slot(n, c)
    ensures LayoutOk(n') && n'.kind == n.kind && SamePrefix(n, n') && ChildSet(n, n', c, Nil)
    ensures Degree(n') == Degree(n) - 1
  {
    ClosedSorted(n.keys, n.num, pos);
    ClosedFilled(n.kids, n.num, pos);
    n' := n.(num := n.num - 1, keys := Closed(n.keys, pos, n.num), kids := Closed(n.kids, pos, n.num));
    forall d: Byte ensures Child(n', d) == if d == c then Nil else Child(n, d) {
      ClosedChild(n, n', pos, c, d);
    }
  }

  /** K16 to K4: four entries are copied, of which three count. */
  method Shrink16(n: Node) returns (n': Node)
    requires LayoutOk(n) && n.kind == K16 && n.num == 3
    ensures LayoutOk(n') && n'.kind == K4 && SamePrefix(n, n') && SameKids(n, n') && Degree(n') == Degree(n)
  {
    n' := Inner(K4, n.num, n.plen, Header(n), n.keys[..4], n.kids[..4]);
    forall d: Byte ensures Child(n', d) == Child(n, d) { CopiedChild(n, n', d); }
  }

  // ---------- K48 ----------

  lemma MappedLess(keys: seq<nat>, kids: seq<Node>, c: nat)
    requires Mapped(keys, kids) && c < |keys| && keys[c] != 0
    ensures Mapped(keys[c := 0], kids[keys[c] - 1 := Nil])
  {}

  /** The first half of remove_child48. */
  method Remove48(n: Node, c: Byte) returns (n': Node)
    requires LayoutOk(n) && n.kind == K48 && Child(n, c) != Nil
    ensures LayoutOk(n') && n'.kind == K48 && SamePrefix(n, n') && ChildSet(n, n', c, Nil)
    ensures Degree(n') == Degree(n) - 1
  {
    var pos := n.keys[c];
    NonNilSet(n.kids, pos - 1, Nil);
    NonZeroSet(n.keys, c, 0);
    MappedLess(n.keys, n.kids, c);
    n' := n.(num := n.num - 1, keys := n.keys[c := 0], kids := n.kids[pos - 1 := Nil]);
  }

  ghost predicate Entry(keys: seq<nat>, kids: seq<Node>, i: nat, ks: seq<nat>, xs: seq<Node>, m: nat, j: nat) {
    j < m && j < |ks| && j < |xs| ==>
        ks[j] < i && ks[j] < |keys| && 0 < keys[ks[j]] <= |kids| && xs[j] == kids[keys[ks[j]] - 1] != Nil
  }

  ghost predicate Shown(keys: seq<nat>, i: nat, ks: seq<nat>, m: nat, c: nat) {
    c < i && c < |keys| && keys[c] != 0 ==> exists j :: 0 <= j < m && j < |ks| && ks[j] == c
  }

  /** The first m entries of ks and xs are the children of bytes below i, in order. */
  ghost predicate Listed(keys: seq<nat>, kids: seq<Node>, i: nat, ks: seq<nat>, xs: seq<Node>, m: nat) {
    && |keys| == 256 && i <= 256 && m <= |ks| && m <= |xs| && Sorted(ks, m)
    && (forall j: nat {:trigger Entry(keys, kids, i, ks, xs, m, j)} :: Entry(keys, kids, i, ks, xs, m, j))
    && (forall c: nat {:trigger Shown(keys, i, ks, m, c)} :: Shown(keys, i, ks, m, c))
  }

  lemma ListedSkip(keys: seq<nat>, kids: seq<Node>, i: nat, ks: seq<nat>, xs: seq<Node>, m: nat)
    requires Listed(keys, kids, i, ks, xs, m) && i < 256 && keys[i] == 0
    ensures Listed(keys, kids, i + 1, ks, xs, m)
  {
    var n := i + 1;
    forall j: nat ensures Entry(keys, kids, n, ks, xs, m, j) { assert Entry(keys, kids, i, ks, xs, m, j); }
    forall c: nat ensures Shown(keys, n, ks, m, c) { assert Shown(keys, i, ks, m, c); }
  }

  lemma ListedAdd(keys: seq<nat>, kids: seq<Node>, i: nat, ks: seq<nat>, xs: seq<Node>, m: nat)
    requires Listed(keys, kids, i, ks, xs, m) && i < 256 && 0 < keys[i] <= |kids| && kids[keys[i] - 1] != Nil
    requires m < |ks| && m < |xs|
    ensures Listed(keys, kids, i + 1, ks[m := i], xs[m := kids[keys[i] - 1]], m + 1)
  {
    var n, q, ks', xs' := i + 1, m + 1, ks[m := i], xs[m := kids[keys[i] - 1]];
    forall j: nat ensures Entry(keys, kids, n, ks', xs', q, j) { assert Entry(keys, kids, i, ks, xs, m, j); }
    forall c: nat ensures Shown(keys, n, ks', q, c) { ShownStill(keys, i, ks, m, c); }
    forall a, b | 0 <= a < b < q ensures ks'[a] < ks'[b] { assert Entry(keys, kids, i, ks, xs, m, a); }
  }

  lemma ShownStill(keys: seq<nat>, i: nat, ks: seq<nat>, m: nat, c: nat)
    requires Shown(keys, i, ks, m, c) && m < |ks|
    ensures Shown(keys, i + 1, ks[m := i], m + 1, c)
  {
    var ks' := ks[m := i];
    if c == i {
      assert ks'[m] == c;
    } else if c < i && c < |keys| && keys[c] != 0 {
      var j :| 0 <= j < m && j < |ks| && ks[j] == c;
      assert ks'[j] == c;
    }
  }

  /** The loop of remove_child48: the children in the order of their bytes. */
  method List48(keys: seq<nat>, kids: seq<Node>, cap: nat) returns (ks: seq<nat>, xs: seq<Node>)
    requires |keys| == 256 && Mapped(keys, kids) && NonZero(keys) <= cap
    ensures |ks| == |xs| == cap && Listed(keys, kids, 256, ks, xs, NonZero(keys))
  {
    ks, xs := seq(cap, _ => 0), seq(cap, _ => Nil);
    var i, m := 0, 0;
    while i < 256
      invariant i <= 256 && m == NonZero(keys[..i]) && |ks| == |xs| == cap && Listed(keys, kids, i, ks, xs, m)
    {
      assert keys[..i + 1][..i] == keys[..i];
      NonZeroUpTo(keys, i + 1);
      if keys[i] == 0 {
        ListedSkip(keys, kids, i, ks, xs, m);
      } else {
        ListedAdd(keys, kids, i, ks, xs, m);
        ks, xs := ks[m := i], xs[m := kids[keys[i] - 1]];
        m := m + 1;
      }
      i := i + 1;
    }
    assert keys[..256] == keys;
  }

  lemma ListedChild(n: Node, n': Node, d: Byte)
    requires LayoutOk(n) && n.kind == K48 && LayoutOk(n') && IsSorted(n')
    requires Listed(n.keys, n.kids, 256, n'.keys, n'.kids, n'.num)
    ensures Child(n', d) == Child(n, d)
  {
    assert Shown(n.keys, 256, n'.keys, n'.num, d);
    var k := Slot(n', d);
    if k >= 0 { assert Entry(n.keys, n.kids, 256, n'.keys, n'.kids, n'.num, k); }
    if n.keys[d] != 0 {
      var j :| 0 <= j < n'.num && n'.keys[j] == d;
      assert Entry(n.keys, n.kids, 256, n'.keys, n'.kids, n'.num, j);
      SortedChild(n', d, j);
    }
  }

  method Shrink48(n: Node) returns (n': Node)
    requires LayoutOk(n) && n.kind == K48 && n.num == 12
    ensures LayoutOk(n') && n'.kind == K16 && SamePrefix(n, n') && SameKids(n, n') && Degree(n') == Degree(n)
  {
    var ks, xs := List48(n.keys, n.kids, 16);
    forall j: nat | j < n.num ensures xs[j] != Nil { assert Entry(n.keys, n.kids, 256, ks, xs, n.num, j); }
    n' := Inner(K16, n.num, n.plen, Header(n), ks, xs);
    forall d: Byte ensures Child(n', d) == Child(n, d) { ListedChild(n, n', d); }
  }

  // ---------- K256 ----------

  /** The first half of remove_child256: the count is kept in one byte. */
  method Remove256(n: Node, c: Byte) returns (n': Node)
    requires LayoutOk(n) && n.kind == K256 && Child(n, c) != Nil
    ensures LayoutOk(n') && n'.kind == K256 && SamePrefix(n, n') && ChildSet(n, n', c, Nil)
    ensures Degree(n') == Degree(n) - 1
  {
    NonNilSet(n.kids, c, Nil);
    n' := n.(num := (n.num + 255) % 256, kids := n.kids[c := Nil]);
  }

  ghost predicate PackedByte(all: seq<Node>, i: nat, keys: seq<nat>, kids: seq<Node>, pos: nat, c: nat) {
    c < |all| && c < |keys| ==>
      if c < i && all[c] != Nil then 0 < keys[c] <= pos && keys[c] <= |kids| && kids[keys[c] - 1] == all[c]
      else keys[c] == 0
  }

  ghost predicate Differ(keys: seq<nat>, c: nat, d: nat) {
    c < d < |keys| && keys[c] != 0 ==> keys[c] != keys[d]
  }

  /** The children of bytes below i are the first pos of kids, and keys[] points to them. */
  ghost predicate Packed(all: seq<Node>, i: nat, keys: seq<nat>, kids: seq<Node>, pos: nat) {
    && |all| == |keys| == 256 && i <= 256 && pos <= |kids|
    && (forall j :: 0 <= j < |kids| ==> (kids[j] != Nil <==> j < pos))
    && (forall c: nat {:trigger PackedByte(all, i, keys, kids, pos, c)} :: PackedByte(all, i, keys, kids, pos, c))
    && (forall c: nat, d: nat {:trigger Differ(keys, c, d)} :: Differ(keys, c, d))
  }

  lemma PackedSkip(all: seq<Node>, i: nat, keys: seq<nat>, kids: seq<Node>, pos: nat)
    requires Packed(all, i, keys, kids, pos) && i < 256 && all[i] == Nil
    ensures Packed(all, i + 1, keys, kids, pos)
  {
    var n := i + 1;
    forall c: nat ensures PackedByte(all, n, keys, kids, pos, c) { assert PackedByte(all, i, keys, kids, pos, c); }
  }

  lemma PackedStep(all: seq<Node>, i: nat, keys: seq<nat>, kids: seq<Node>, pos: nat)
    requires Packed(all, i, keys, kids, pos) && i < 256 && all[i] != Nil && pos < |kids|
    ensures keys[i] == 0 && Packed(all, i + 1, keys[i := pos + 1], kids[pos := all[i]], pos + 1)
  {
    var n, keys', kids', q := i + 1, keys[i := pos + 1], kids[pos := all[i]], pos + 1;
    assert PackedByte(all, i, keys, kids, pos, i);
    forall c: nat ensures PackedByte(all, n, keys', kids', q, c) { assert PackedByte(all, i, keys, kids, pos, c); }
    forall c: nat, d: nat ensures Differ(keys', c, d) {
      assert Differ(keys, c, d) && PackedByte(all, i, keys, kids, pos, c) && PackedByte(all, i, keys, kids, pos, d);
    }
  }

  lemma PackedMapped(all: seq<Node>, keys: seq<nat>, kids: seq<Node>, pos: nat)
    requires Packed(all, 256, keys, kids, pos)
    ensures Mapped(keys, kids)
  {
    forall c: nat | c < |keys| ensures keys[c] <= |kids| && (keys[c] != 0 ==> kids[keys[c] - 1] != Nil) {
      assert PackedByte(all, 256, keys, kids, pos, c);
    }
    forall c: nat, d: nat | c < d < |keys| && keys[c] != 0 ensures keys[c] != keys[d] { assert Differ(keys, c, d); }
  }

  /** The loop of remove_child256. */
  method Pack(all: seq<Node>) returns (keys: seq<nat>, kids: seq<Node>)
    requires |all| == 256 && NonNil(all) <= 48
    ensures |kids| == 48 && Packed(all, 256, keys, kids, NonNil(all)) && NonZero(keys) == NonNil(all)
  {
    keys, kids := seq(256, _ => 0), seq(48, _ => Nil);
    NonZeroZeros(keys);
    var i, pos := 0, 0;
    while i < 256
      invariant i <= 256 && |kids| == 48 && pos == NonNil(all[..i]) && NonZero(keys) == pos
      invariant Packed(all, i, keys, kids, pos)
    {
      assert all[..i + 1][..i] == all[..i];
      NonNilUpTo(all, i + 1);
      if all[i] != Nil {
        PackedStep(all, i, keys, kids, pos);
        NonZeroSet(keys, i, pos + 1);
        keys, kids := keys[i := pos + 1], kids[pos := all[i]];
        pos := pos + 1;
      } else {
        PackedSkip(all, i, keys, kids, pos);
      }
      i := i + 1;
    }
    assert all[..256] == all;
  }

  method Shrink256(n: Node) returns (n': Node)
    requires LayoutOk(n) && n.kind == K256 && n.num == 37
    ensures LayoutOk(n') && n'.kind == K48 && SamePrefix(n, n') && SameKids(n, n') && Degree(n') == Degree(n) == 37
  {
    var keys, kids := Pack(n.kids);
    NonNilSplit(kids, NonNil(n.kids));
    PackedMapped(n.kids, keys, kids, NonNil(n.kids));
    n' := Inner(K48, n.num, n.plen, Header(n), keys, kids);
    forall d: Byte ensures Child(n', d) == Child(n, d) {
      assert PackedByte(n.kids, 256, keys, kids, NonNil(n.kids), d);
    }
  }

  // ---------- remove_child, but for the collapse of a K4 node with one child ----------

  lemma SameThrough(n: Node, m: Node, n': Node, c: Byte)
    requires n.Inner? && m.Inner? && n'.Inner? && ChildSet(n, m, c, Nil) && SameKids(m, n')
    ensures ChildSet(n, n', c, Nil)
  {
    forall d: Byte ensures Child(n', d) == if d == c then Nil else Child(n, d) {
      assert Child(m, d) == if d == c then Nil else Child(n, d);
    }
  }

  method RemoveChild(n: Node, c: Byte, pos: nat) returns (n': Node)
    requires Steady(n) && Child(n, c) != Nil && pos == Slot(n, c)
    ensures LayoutOk(n') && SamePrefix(n, n') && ChildSet(n, n', c, Nil) && Degree(n') == Degree(n) - 1
    ensures Steady(n') || (n.kind == n'.kind == K4 && n'.num == 1)
  {
    match n.kind {
      case K4 => n' := RemoveSorted(n, c, pos);
      case K16 => n' := RemoveSorted(n, c, pos);
      case K48 => n' := Remove48(n, c);
      case K256 => n' := Remove256(n, c);
    }
    ghost var m := n';
    if n'.kind == K16 && n'.num == 3 {
      n' := Shrink16(n');
      SameThrough(n, m, n', c);
    } else if n'.kind == K48 && n'.num == 12 {
      n' := Shrink48(n');
      SameThrough(n, m, n', c);
    } else if n'.kind == K256 && n'.num == 37 {
      n' := Shrink256(n');
      SameThrough(n, m, n', c);
    }
  }
}
