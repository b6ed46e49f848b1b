/** add_child4, add_child16, add_child48 and add_child256: adding a child, to a larger layout if need be. */
module ArtGrow {

  import opened Octets
  import opened ArtLayout

  predicate IsSorted(n: Node) {
    n.Inner? && (n.kind == K4 || n.kind == K16)
  }

  /** In a sorted layout the key at i belongs to the child at i. */
  lemma SortedChild(n: Node, d: Byte, i: nat)
    requires LayoutOk(n) && IsSorted(n) && i < n.num && n.keys[i] == d
    ensures Child(n, d) == n.kids[i] && Slot(n, d) == i
  {
    var j := IndexOf(n.keys, d, n.num, |n.kids|);
  }

  lemma SortedNone(n: Node, d: Byte)
    requires LayoutOk(n) && IsSorted(n)
    ensures Child(n, d) == Nil <==> forall i :: 0 <= i < n.num ==> n.keys[i] != d
  {
    var j := IndexOf(n.keys, d, n.num, |n.kids|);
  }

  // ---------- sorted layouts with room ----------

  /** The memmove that makes room at i, and the new entry there. */
  function Opened<T>(s: seq<T>, i: nat, num: nat, x: T): (r: seq<T>)
    requires i <= num < |s|
    ensures |r| == |s| && r[i] == x && (forall j :: 0 <= j < i ==> r[j] == s[j])
    ensures (forall j :: i < j <= num ==> r[j] == s[j - 1])
  {
    s[..i] + [x] + s[i..num] + s[num + 1..]
  }

  lemma OpenedSorted(keys: seq<nat>, num: nat, i: nat, c: Byte)
    requires num < |keys| && Sorted(keys, num) && i <= num
    requires (forall j :: 0 <= j < i ==> keys[j] < c) && (forall j :: i <= j < num ==> c < keys[j])
    ensures Sorted(Opened(keys, i, num, c), num + 1)
  {}

  lemma OpenedFilled(kids: seq<Node>, num: nat, i: nat, x: Node)
    requires num < |kids| && Filled(kids, num) && i <= num && x != Nil
    ensures Filled(Opened(kids, i, num, x), num + 1)
  {}

  lemma OpenedAt<T>(s: seq<T>, i: nat, num: nat, x: T, j: nat)
    requires i <= num < |s| && j < num
    ensures Opened(s, i, num, x)[if j < i then j else j + 1] == s[j]
  {}

  /** n' is n with another entry at i. */
  ghost predicate OpensAt(n: Node, n': Node, i: nat, c: Byte, x: Node) {
    && LayoutOk(n) && IsSorted(n) && LayoutOk(n') && n'.kind == n.kind && i <= n.num < |n.kids| && n'.num == n.num + 1
    && n'.keys == Opened(n.keys, i, n.num, c) && n'.kids == Opened(n.kids, i, n.num, x)
  }

  lemma OpenedForth(n: Node, n': Node, i: nat, c: Byte, x: Node, j: nat)
    requires OpensAt(n, n', i, c, x) && j < n.num && n.keys[j] < 256
    ensures Child(n', n.keys[j]) == n.kids[j]
  {
    OpenedAt(n.keys, i, n.num, c, j);
    OpenedAt(n.kids, i, n.num, x, j);
    SortedChild(n', n.keys[j], if j < i then j else j + 1);
  }

  lemma OpenedBack(n: Node, n': Node, i: nat, c: Byte, x: Node, k: nat)
    requires OpensAt(n, n', i, c, x) && k < n'.num && k != i && n'.keys[k] < 256
    ensures Child(n, n'.keys[k]) != Nil
  {
    var j := if k < i then k else k - 1;
    OpenedAt(n.keys, i, n.num, c, j);
    SortedChild(n, n'.keys[k], j);
  }

  lemma OpenedChild(n: Node, n': Node, i: nat, c: Byte, x: Node, d: Byte)
    requires OpensAt(n, n', i, c, x) && Child(n, c) == Nil
    ensures Child(n', d) == if d == c then x else Child(n, d)
  {
    var j, k := Slot(n, d), Slot(n', d);
    if k >= 0 && k != i { OpenedBack(n, n', i, c, x, k); }
    if d == c {
      SortedChild(n', c, i);
    } else if j >= 0 {
      OpenedForth(n, n', i, c, x, j);
    }
  }

  /** Where the key goes. */
  method Place(n: Node, c: Byte) returns (i: nat)
    requires LayoutOk(n) && IsSorted(n) && Child(n, c) == Nil
    ensures i <= n.num && (forall j :: 0 <= j < i ==> n.keys[j] < c) && (forall j :: i <= j < n.num ==> c < n.keys[j])
  {
    SortedNone(n, c);
    i := 0;
    while i < n.num && n.keys[i] <= c
      invariant i <= n.num && forall j :: 0 <= j < i ==> n.keys[j] < c
    {
      i := i + 1;
    }
  }

  /** The first halves of add_child4 and add_child16. */
  method AddSorted(n: Node, c: Byte, x: Node) returns (n': Node)
    requires LayoutOk(n) && IsSorted(n) && n.num < |n.kids| && x != Nil && Child(n, c) == Nil
    ensures LayoutOk(n') && n'.kind == n.kind && SamePrefix(n, n') && ChildSet(n, n', c, x)
    ensures Degree(n') == Degree(n) + 1
  {
    var i := Place(n, c);
    OpenedSorted(n.keys, n.num, i, c);
    OpenedFilled(n.kids, n.num, i, x);
    n' := n.(num := n.num + 1, keys := Opened(n.keys, i, n.num, c), kids := Opened(n.kids, i, n.num, x));
    forall d: Byte ensures Child(n', d) == if d == c then x else Child(n, d) {
      OpenedChild(n, n', i, c, x, d);
    }
  }

  // ---------- growing ----------

  /** Every byte has the same child. */
  ghost predicate SameKids(n: Node, n': Node)
    requires n.Inner? && n'.Inner?
  {
    forall d: Byte {:trigger Child(n', d)} :: Child(n', d) == Child(n, d)
  }

  /** copy_header: a new node has zeros where no prefix byte is copied. */
  function Header(n: Node): (partial: seq<Byte>)
    requires n.Inner? && |n.partial| == MAX_PREFIX
    ensures |partial| == MAX_PREFIX && forall i :: 0 <= i < n.plen && i < MAX_PREFIX ==> partial[i] == n.partial[i]
  {
    var m := if n.plen < MAX_PREFIX then n.plen else MAX_PREFIX;
    n.partial[..m] + seq(MAX_PREFIX - m, _ => 0)
  }

  /** K4 to K16: keys and children are copied. */
  method Grow4(n: Node) returns (n': Node)
    requires LayoutOk(n) && n.kind == K4 && n.num == 4
    ensures LayoutOk(n') && n'.kind == K16 && SamePrefix(n, n') && SameKids(n, n') && Degree(n') == Degree(n)
  {
    n' := Inner(K16, n.num, n.plen, Header(n), n.keys[..n.num] + seq(12, _ => 0), n.kids[..n.num] + seq(12, _ => Nil));
    forall d: Byte ensures Child(n', d) == Child(n, d) { CopiedChild(n, n', d); }
  }

  lemma CopiedChild(n: Node, n': Node, d: Byte)
    requires LayoutOk(n) && IsSorted(n) && LayoutOk(n') && IsSorted(n') && n'.num == n.num
    requires forall i :: 0 <= i < n.num ==> n'.keys[i] == n.keys[i] && n'.kids[i] == n.kids[i]
    ensures Child(n', d) == Child(n, d)
  {
    SortedNone(n, d);
    SortedNone(n', d);
    if Child(n, d) != Nil {
      var j :| 0 <= j < n.num && n.keys[j] == d;
      SortedChild(n, d, j);
      SortedChild(n', d, j);
    }
  }

  lemma {:induction false} NonZeroZeros(s: seq<nat>)
    requires forall i :: 0 <= i < |s| ==> s[i] == 0
    ensures NonZero(s) == 0
  {
    if s != [] { NonZeroZeros(s[..|s| - 1]); }
  }

  lemma {:induction false} NonNilSplit(s: seq<Node>, m: nat)
    requires m <= |s| && (forall i :: 0 <= i < m ==> s[i] != Nil) && (forall i :: m <= i < |s| ==> s[i] == Nil)
    ensures NonNil(s) == m
  {
    if s != [] { NonNilSplit(s[..|s| - 1], if m == |s| then m - 1 else m); }
  }

  ghost predicate Forth(ks: seq<nat>, i: nat, keys: seq<nat>, j: nat) {
    j < i && j < |ks| ==> ks[j] < |keys| && keys[ks[j]] == j + 1
  }

  ghost predicate Back(ks: seq<nat>, i: nat, keys: seq<nat>, c: nat) {
    c < |keys| && keys[c] != 0 ==> keys[c] <= i && keys[c] <= |ks| && ks[keys[c] - 1] == c
  }

  /** keys[keys16[j]] = j + 1 for the first i of them, and zero elsewhere. */
  ghost predicate Inverse(ks: seq<nat>, i: nat, keys: seq<nat>) {
    && |keys| == 256 && (forall j: nat {:trigger Forth(ks, i, keys, j)} :: Forth(ks, i, keys, j))
    && (forall c: nat {:trigger Back(ks, i, keys, c)} :: Back(ks, i, keys, c))
  }

  lemma InverseStep(ks: seq<nat>, num: nat, i: nat, keys: seq<nat>)
    requires num <= |ks| && Sorted(ks, num) && i < num && Inverse(ks, i, keys)
    ensures keys[ks[i]] == 0 && Inverse(ks, i + 1, keys[ks[i] := i + 1])
  {
    var k, n: nat := ks[i], i + 1;
    assert Back(ks, i, keys, k);
    var keys' := keys[k := n];
    forall j: nat ensures Forth(ks, n, keys', j) { assert Forth(ks, i, keys, j); }
    forall c: nat ensures Back(ks, n, keys', c) { assert Back(ks, i, keys, c); }
  }

  method Invert(ks: seq<nat>, num: nat) returns (keys: seq<nat>)
    requires num <= |ks| && Sorted(ks, num)
    ensures Inverse(ks, num, keys) && NonZero(keys) == num
  {
    keys := seq(256, _ => 0);
    NonZeroZeros(keys);
    var i := 0;
    while i < num
      invariant i <= num && Inverse(ks, i, keys) && NonZero(keys) == i
    {
      InverseStep(ks, num, i, keys);
      NonZeroSet(keys, ks[i], i + 1);
      keys := keys[ks[i] := i + 1];
      i := i + 1;
    }
  }

  lemma InvertedChild(n: Node, n': Node, d: Byte)
    requires LayoutOk(n) && IsSorted(n) && n'.Inner? && n'.kind == K48 && |n'.keys| == 256 && n.num <= |n'.kids|
    requires Inverse(n.keys, n.num, n'.keys)
    requires forall i :: 0 <= i < n.num ==> n'.kids[i] == n.kids[i]
    ensures Child(n', d) == Child(n, d)
  {
    SortedNone(n, d);
    assert Back(n.keys, n.num, n'.keys, d);
    if Child(n, d) != Nil {
      var j: nat :| 0 <= j < n.num && n.keys[j] == d;
      assert Forth(n.keys, n.num, n'.keys, j);
      SortedChild(n, d, j);
    }
  }

  lemma InverseMapped(ks: seq<nat>, num: nat, keys: seq<nat>, kids: seq<Node>)
    requires num <= |ks| && num <= |kids| && Inverse(ks, num, keys) && Filled(kids, num)
    ensures Mapped(keys, kids)
  {
    forall c: nat | c < |keys| ensures keys[c] <= |kids| && (keys[c] != 0 ==> kids[keys[c] - 1] != Nil) {
      assert Back(ks, num, keys, c);
    }
    forall c: nat, d: nat | c < d < |keys| && keys[c] != 0 ensures keys[c] != keys[d] {
      assert Back(ks, num, keys, c) && Back(ks, num, keys, d);
    }
  }

  /** K16 to K48: the children are copied, and keys[] becomes a map. */
  method Grow16(n: Node) returns (n': Node)
    requires LayoutOk(n) && n.kind == K16 && n.num == 16
    ensures LayoutOk(n') && n'.kind == K48 && SamePrefix(n, n') && SameKids(n, n') && Degree(n') == Degree(n)
  {
    var kids := n.kids[..n.num] + seq(32, _ => Nil);
    NonNilSplit(kids, 16);
    var keys := Invert(n.keys, n.num);
    InverseMapped(n.keys, n.num, keys, kids);
    n' := Inner(K48, n.num, n.plen, Header(n), keys, kids);
    forall d: Byte ensures Child(n', d) == Child(n, d) { InvertedChild(n, n', d); }
  }

  /** The children of a K48 node, each at the index of its byte. */
  method Spread(keys: seq<nat>, kids: seq<Node>) returns (all: seq<Node>)
    requires |keys| == 256 && Mapped(keys, kids)
    ensures |all| == 256 && NonNil(all) == NonZero(keys) && forall c :: 0 <= c < 256 ==>
        all[c] == if keys[c] != 0 then kids[keys[c] - 1] else Nil
  {
    all := seq(256, _ => Nil);
    NonNilSplit(all, 0);
    var i := 0;
    while i < 256
      invariant i <= 256 && |all| == 256 && NonNil(all) == NonZero(keys[..i])
      invariant forall c :: 0 <= c < 256 ==> all[c] == if c < i && keys[c] != 0 then kids[keys[c] - 1] else Nil
    {
      assert keys[..i + 1][..i] == keys[..i];
      if keys[i] != 0 {
        NonNilSet(all, i, kids[keys[i] - 1]);
        all := all[i := kids[keys[i] - 1]];
      }
      i := i + 1;
    }
    assert keys[..256] == keys;
  }

  /** K48 to K256. */
  method Grow48(n: Node) returns (n': Node)
    requires LayoutOk(n) && n.kind == K48
    ensures LayoutOk(n') && n'.kind == K256 && SamePrefix(n, n') && SameKids(n, n') && Degree(n') == Degree(n)
  {
    var all := Spread(n.keys, n.kids);
    n' := Inner(K256, n.num, n.plen, Header(n), [], all);
  }

  // ---------- the unsorted layouts ----------

  /** add_child256: the count is kept in one byte. */
  method Add256(n: Node, c: Byte, x: Node) returns (n': Node)
    requires LayoutOk(n) && n.kind == K256 && x != Nil && Child(n, c) == Nil
    ensures LayoutOk(n') && n'.kind == K256 && SamePrefix(n, n') && ChildSet(n, n', c, x) && Degree(n') == Degree(n) + 1
  {
    NonNilSet(n.kids, c, x);
    n' := n.(num := (n.num + 1) % 256, kids := n.kids[c := x]);
  }

  lemma MappedMore(keys: seq<nat>, kids: seq<Node>, c: nat, pos: nat, x: Node)
    requires Mapped(keys, kids) && c < |keys| && keys[c] == 0 && pos < |kids| && kids[pos] == Nil && x != Nil
    ensures Mapped(keys[c := pos + 1], kids[pos := x])
  {}

  /** The first half of add_child48. */
  method Add48(n: Node, c: Byte, x: Node) returns (n': Node)
    requires LayoutOk(n) && n.kind == K48 && n.num < 48 && x != Nil && Child(n, c) == Nil
    ensures LayoutOk(n') && n'.kind == K48 && SamePrefix(n, n') && ChildSet(n, n', c, x) && Degree(n') == Degree(n) + 1
  {
    var pos := 0;
    SomeNil(n.kids);
    while n.kids[pos] != Nil
      invariant pos < 48 && forall j :: 0 <= j < pos ==> n.kids[j] != Nil
      decreases 48 - pos
    {
      pos := pos + 1;
    }
    n' := n.(num := n.num + 1, keys := n.keys[c := pos + 1], kids := n.kids[pos := x]);
    Added48(n, c, x, pos, n');
  }

  lemma Added48(n: Node, c: Byte, x: Node, pos: nat, n': Node)
    requires LayoutOk(n) && n.kind == K48 && n.num < 48 && x != Nil && Child(n, c) == Nil && pos < 48
    requires n.kids[pos] == Nil
    requires n' == n.(num := n.num + 1, keys := n.keys[c := pos + 1], kids := n.kids[pos := x])
    ensures LayoutOk(n') && SamePrefix(n, n') && ChildSet(n, n', c, x) && Degree(n') == Degree(n) + 1
  {
    NonNilSet(n.kids, pos, x);
    NonZeroSet(n.keys, c, pos + 1);
    MappedMore(n.keys, n.kids, c, pos, x);
  }

  lemma {:induction false} SomeNil(s: seq<Node>)
    requires NonNil(s) < |s|
    ensures exists j :: 0 <= j < |s| && s[j] == Nil
  {
    var l := |s| - 1;
    if s[l] != Nil {
      SomeNil(s[..l]);
      var j :| 0 <= j < l && s[..l][j] == Nil;
      assert s[j] == Nil;
    }
  }

  /** add_child. */
  method AddChild(n: Node, c: Byte, x: Node) returns (n': Node)
    requires LayoutOk(n) && x != Nil && Child(n, c) == Nil
    ensures LayoutOk(n') && SamePrefix(n, n') && ChildSet(n, n', c, x) && Degree(n') == Degree(n) + 1
    ensures Degree(n') >= 5 ==> n'.kind != K4
    ensures n'.kind == n.kind || (n.kind == K4 && n.num == 4 && n'.kind == K16)
        || (n.kind == K16 && n.num == 16 && n'.kind == K48) || (n.kind == K48 && n.num == 48 && n'.kind == K256)
  {
    n' := n;
    if n.num == Capacity(n.kind) && n.kind != K256 {
      match n.kind {
        case K4 => n' := Grow4(n);
        case K16 => n' := Grow16(n);
        case K48 => n' := Grow48(n);
        case K256 =>
      }
    }
    ghost var n1 := n';
    assert SameKids(n, n1);
    match n'.kind {
      case K4 => n' := AddSorted(n', c, x);
      case K16 => n' := AddSorted(n', c, x);
      case K48 => n' := Add48(n', c, x);
      case K256 => n' := Add256(n', c, x);
    }
    forall d: Byte ensures Child(n', d) == if d == c then x else Child(n, d) {
      assert Child(n1, d) == Child(n, d);
    }
  }
}
