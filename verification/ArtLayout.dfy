/**
 The four node layouts of the adaptive radix tree, and what they have in common: a function from
 bytes to children.
 */
module ArtLayout {

  import opened Octets

  type Key = seq<Byte>

  const MAX_PREFIX := 10

  datatype Kind = K4 | K16 | K48 | K256

  /**
   A null reference, a leaf, or an inner node: its type, num_children, partial_len, partial[], keys[]
   and children[]. In a K48 node keys[c] is one more than the index of the child for byte c, or zero.
   */
  datatype Node =
    | Nil
    | Leaf(key: Key, val: nat)
    | Inner(kind: Kind, num: nat, plen: nat, partial: seq<Byte>, keys: seq<nat>, kids: seq<Node>)

  function Capacity(k: Kind): nat {
    match k case K4 => 4 case K16 => 16 case K48 => 48 case K256 => 256
  }

  // ---------- counting ----------

  function NonNil(s: seq<Node>): (n: nat)
    ensures n <= |s|
  {
    if s == [] then 0 else NonNil(s[..|s| - 1]) + if s[|s| - 1] == Nil then 0 else 1
  }

  function NonZero(s: seq<nat>): (n: nat)
    ensures n <= |s|
  {
    if s == [] then 0 else NonZero(s[..|s| - 1]) + if s[|s| - 1] == 0 then 0 else 1
  }

  lemma {:induction false} NonNilSet(s: seq<Node>, i: nat, x: Node)
    requires i < |s|
    ensures NonNil(s[i := x]) + (if s[i] == Nil then 0 else 1) == NonNil(s) + if x == Nil then 0 else 1
  {
    var l := |s| - 1;
    if i == l {
      assert s[i := x][..l] == s[..l];
    } else {
      NonNilSet(s[..l], i, x);
      assert s[i := x][..l] == s[..l][i := x];
    }
  }

  lemma {:induction false} NonZeroSet(s: seq<nat>, i: nat, x: nat)
    requires i < |s|
    ensures NonZero(s[i := x]) + (if s[i] == 0 then 0 else 1) == NonZero(s) + if x == 0 then 0 else 1
  {
    var l := |s| - 1;
    if i == l {
      assert s[i := x][..l] == s[..l];
    } else {
      NonZeroSet(s[..l], i, x);
      assert s[i := x][..l] == s[..l][i := x];
    }
  }

  lemma {:induction false} AllNonNil(s: seq<Node>)
    requires NonNil(s) == |s|
    ensures Nil !in s
  {
    if s != [] { AllNonNil(s[..|s| - 1]); }
  }

  lemma {:induction false} NonNilUpTo(s: seq<Node>, i: nat)
    requires i <= |s|
    ensures NonNil(s[..i]) <= NonNil(s)
  {
    if i < |s| {
      NonNilUpTo(s[..|s| - 1], i);
      assert s[..|s| - 1][..i] == s[..i];
    } else {
      assert s[..i] == s;
    }
  }

  lemma {:induction false} NonZeroUpTo(s: seq<nat>, i: nat)
    requires i <= |s|
    ensures NonZero(s[..i]) <= NonZero(s)
  {
    if i < |s| {
      NonZeroUpTo(s[..|s| - 1], i);
      assert s[..|s| - 1][..i] == s[..i];
    } else {
      assert s[..i] == s;
    }
  }

  // ---------- layouts ----------

  ghost predicate Sorted(keys: seq<nat>, num: nat)
    requires num <= |keys|
  {
    (forall i :: 0 <= i < num ==> keys[i] < 256) && forall i, j :: 0 <= i < j < num ==> keys[i] < keys[j]
  }

  ghost predicate Filled(kids: seq<Node>, num: nat)
    requires num <= |kids|
  {
    forall i :: 0 <= i < num ==> kids[i] != Nil
  }

  /** keys[] of a K48 node points one to one to children that exist. */
  ghost predicate Mapped(keys: seq<nat>, kids: seq<Node>) {
    && (forall c :: 0 <= c < |keys| ==> keys[c] <= |kids| && (keys[c] != 0 ==> kids[keys[c] - 1] != Nil))
    && (forall c, d :: 0 <= c < d < |keys| && keys[c] != 0 ==> keys[c] != keys[d])
  }

  ghost predicate LayoutOk(n: Node) {
    && n.Inner? && |n.partial| == MAX_PREFIX && |n.kids| == Capacity(n.kind)
    && match n.kind
       case K4 => |n.keys| == 4 && n.num <= 4 && Sorted(n.keys, n.num) && Filled(n.kids, n.num)
       case K16 => |n.keys| == 16 && n.num <= 16 && Sorted(n.keys, n.num) && Filled(n.kids, n.num)
       case K48 => |n.keys| == 256 && Mapped(n.keys, n.kids) && n.num == NonNil(n.kids) == NonZero(n.keys)
       case K256 => n.num == NonNil(n.kids) % 256
  }

  /** The number of children. */
  ghost function Degree(n: Node): nat
    requires n.Inner?
  {
    if n.kind == K256 then NonNil(n.kids) else n.num
  }

  /** The index of the child for byte c, or -1. */
  function Slot(n: Node, c: Byte): (i: int)
    requires n.Inner?
    ensures -1 <= i < |n.kids|
  {
    match n.kind
    case K4 => IndexOf(n.keys, c, n.num, |n.kids|)
    case K16 => IndexOf(n.keys, c, n.num, |n.kids|)
    case K48 => if c < |n.keys| && n.keys[c] <= |n.kids| then (n.keys[c] as int) - 1 else -1
    case K256 => if c < |n.kids| && n.kids[c] != Nil then c else -1
  }

  function IndexOf(keys: seq<nat>, c: Byte, num: nat, cap: nat): (i: int)
    ensures -1 <= i < cap && i < num && (i >= 0 ==> i < |keys| && keys[i] == c)
    ensures i == -1 && num <= |keys| && num <= cap ==> forall j :: 0 <= j < num ==> keys[j] != c
  {
    if num == 0 then -1
    else
      var i := IndexOf(keys, c, num - 1, cap);
      if i >= 0 then i else if num <= |keys| && num <= cap && keys[num - 1] == c then num - 1 else -1
  }

  /** The child for byte c. */
  function Child(n: Node, c: Byte): (r: Node)
    requires n.Inner?
    ensures r != Nil ==> r < n
  {
    var i := Slot(n, c);
    if i >= 0 then n.kids[i] else Nil
  }

  /** n' has the children of n, but x for byte c. */
  ghost predicate ChildSet(n: Node, n': Node, c: Byte, x: Node)
    requires n.Inner? && n'.Inner?
  {
    forall d: Byte {:trigger Child(n', d)} :: Child(n', d) == if d == c then x else Child(n, d)
  }

  /** The same prefix, as far as it is stored. */
  ghost predicate SamePrefix(n: Node, n': Node)
    requires n.Inner? && n'.Inner?
  {
    && n'.plen == n.plen && |n'.partial| == |n.partial| == MAX_PREFIX
    && forall i :: 0 <= i < n.plen && i < MAX_PREFIX ==> n'.partial[i] == n.partial[i]
  }
}
