/** recursive_iter, art_minimum and art_maximum: the keys in lexicographic order. */
module ArtOrder {

  import opened Octets
  import opened ArtLayout
  import opened ArtGrow
  import opened ArtShrink
  import opened ArtPaths
  import opened ArtOps

  type Entry = (Key, nat)

  lemma PrecedesNot(a: Key, b: Key)
    requires Precedes(a, b)
    ensures a != b && !Precedes(b, a)
  {
    var i: nat :| PartAt(a, b, i);
    forall j: nat ensures !PartAt(b, a, j) {
      if j < i { assert a[..i][j] == b[..i][j]; }
      if i < j <= |a| && j <= |b| { assert b[..j][i] == b[i] && a[..j][i] == a[i]; }
    }
  }

  /** Strictly ascending keys. */
  ghost predicate Ascending(s: seq<Entry>) {
    forall i, j :: 0 <= i < j < |s| ==> Precedes(s[i].0, s[j].0)
  }

  /** s lists what is below n, in order. */
  ghost predicate Lists(n: Node, s: seq<Entry>) {
    Ascending(s) && forall k: Key, v: nat {:trigger Has(n, k, v)} {:trigger (k, v) in s} :: (k, v) in s <==>
        Has(n, k, v)
  }

  /** s lists what is below the children of n for bytes less than b. */
  ghost predicate ListsUpTo(n: Node, b: nat, s: seq<Entry>)
    requires n.Inner?
  {
    Ascending(s) && forall k: Key, v: nat {:trigger HasUpTo(n, b, k, v)} {:trigger (k, v) in s} :: (k, v) in s <==>
        HasUpTo(n, b, k, v)
  }

  ghost predicate HasUpTo(n: Node, b: nat, k: Key, v: nat)
    requires n.Inner?
  {
    exists c: Byte :: c < b && Child(n, c) != Nil && Has(Child(n, c), k, v)
  }

  /** Skipping bytes without a child. */
  lemma Skip(n: Node, b: nat, b': nat, s: seq<Entry>)
    requires n.Inner? && ListsUpTo(n, b, s) && b <= b' && forall c: Byte :: b <= c < b' ==> Child(n, c) == Nil
    ensures ListsUpTo(n, b', s)
  {
    forall k: Key, v: nat ensures HasUpTo(n, b', k, v) <==> HasUpTo(n, b, k, v) {}
  }

  /** Appending what is below the next child. */
  lemma Append(n: Node, p: Key, q: Key, c: Byte, s: seq<Entry>, t: seq<Entry>)
    requires n.Inner? && Labelled(n, p, q) && ListsUpTo(n, c, s) && Child(n, c) != Nil && Lists(Child(n, c), t)
    ensures ListsUpTo(n, c + 1, s + t)
  {
    var u := s + t;
    forall i, j | 0 <= i < j < |u| ensures Precedes(u[i].0, u[j].0) {
      if i < |s| && j >= |s| { Across(n, p, q, c, s, t, i, j - |s|); }
    }
    forall k: Key, v: nat ensures (k, v) in u <==> HasUpTo(n, c + 1, k, v) {
      if (k, v) in s { assert HasUpTo(n, c, k, v); }
      if (k, v) in t { assert Has(Child(n, c), k, v); }
      if HasUpTo(n, c + 1, k, v) {
        var d: Byte :| d < c + 1 && Child(n, d) != Nil && Has(Child(n, d), k, v);
        if d < c { assert HasUpTo(n, c, k, v); }
      }
    }
  }

  lemma Across(n: Node, p: Key, q: Key, c: Byte, s: seq<Entry>, t: seq<Entry>, i: nat, j: nat)
    requires n.Inner? && Labelled(n, p, q) && ListsUpTo(n, c, s) && Child(n, c) != Nil && Lists(Child(n, c), t)
    requires i < |s| && j < |t|
    ensures Precedes(s[i].0, t[j].0)
  {
    var (a, v) := s[i];
    var (b, w) := t[j];
    assert (a, v) in s && (b, w) in t;
    assert HasUpTo(n, c, a, v);
    var d: Byte :| d < c && Child(n, d) != Nil && Has(Child(n, d), a, v);
    Below(Child(n, d), p + q + [d], a, v);
    Below(Child(n, c), p + q + [c], b, w);
    Parting(p + q, d, c, a, b);
  }

  lemma AllListed(n: Node, s: seq<Entry>)
    requires n.Inner? && ListsUpTo(n, 256, s)
    ensures Lists(n, s)
  {
    forall k: Key, v: nat ensures (k, v) in s <==> Has(n, k, v) {
      assert HasUpTo(n, 256, k, v) <==> (k, v) in s;
      if Has(n, k, v) {
        var c: Byte :| Child(n, c) != Nil && Has(Child(n, c), k, v);
        assert HasUpTo(n, 256, k, v);
      }
    }
  }

  /** recursive_iter with a callback that never stops: what it is called with. */
  method Iterate(n: Node, ghost p: Key) returns (s: seq<Entry>)
    requires IsNode(n, p)
    ensures Lists(n, s)
    decreases n, 2
  {
    s := [];
    if n == Nil {
    } else if n.Leaf? {
      s := [(n.key, n.val)];
    } else {
      ghost var q := Label(n, p);
      if n.kind == K4 || n.kind == K16 {
        s := IterateSorted(n, p, q);
      } else {
        s := IterateBytes(n, p, q);
      }
    }
  }

  method IterateSorted(n: Node, ghost p: Key, ghost q: Key) returns (s: seq<Entry>)
    requires LayoutOk(n) && IsSorted(n) && Labelled(n, p, q)
    ensures Lists(n, s)
    decreases n, 1
  {
    s := [];
    var i := 0;
    ghost var b: nat := 0;
    while i < n.num
      invariant i <= n.num && b <= 256 && ListsUpTo(n, b, s) && (forall j :: 0 <= j < i ==> n.keys[j] < b)
      invariant (forall j :: i <= j < n.num ==> b <= n.keys[j])
    {
      ghost var c: Byte := n.keys[i];
      SortedChild(n, c, i);
      ghost var x := Child(n, c);
      assert x == n.kids[i] && WF(x, p + q + [c]);
      var t := Iterate(n.kids[i], p + q + [c]);
      NoneBetween(n, b, c, i);
      Skip(n, b, c, s);
      Append(n, p, q, c, s, t);
      s := s + t;
      b := c + 1;
      i := i + 1;
    }
    NoneBetween(n, b, 256, i);
    Skip(n, b, 256, s);
    AllListed(n, s);
  }

  lemma NoneBetween(n: Node, b: nat, e: nat, i: nat)
    requires LayoutOk(n) && IsSorted(n) && i <= n.num && e <= 256 && (forall j :: 0 <= j < i ==> n.keys[j] < b)
    requires (forall j :: i <= j < n.num ==> e <= n.keys[j])
    ensures forall c: Byte :: b <= c < e ==> Child(n, c) == Nil
  {
    forall c: Byte | b <= c < e ensures Child(n, c) == Nil { SortedNone(n, c); }
  }

  method IterateBytes(n: Node, ghost p: Key, ghost q: Key) returns (s: seq<Entry>)
    requires LayoutOk(n) && !IsSorted(n) && Labelled(n, p, q)
    ensures Lists(n, s)
    decreases n, 1
  {
    s := [];
    var i := 0;
    while i < 256
      invariant i <= 256 && ListsUpTo(n, i, s)
    {
      var c: Byte := i;
      var j := if n.kind == K48 then n.keys[c] as int - 1 else if n.kids[c] != Nil then c else -1;
      ghost var x := Child(n, c);
      if j >= 0 {
        assert x == n.kids[j] && x != Nil && WF(x, p + q + [c]);
        var t := Iterate(n.kids[j], p + q + [c]);
        Append(n, p, q, c, s, t);
        s := s + t;
      } else {
        Skip(n, i, i + 1, s);
      }
      i := i + 1;
    }
    AllListed(n, s);
  }

  /** Every key below n is below l, or comes before all that is. */
  ghost predicate Trails(n: Node, l: Node) {
    && (forall k: Key, v: nat {:trigger Has(l, k, v)} :: Has(l, k, v) ==> Has(n, k, v))
    && (forall k: Key, v: nat {:trigger Has(n, k, v)} :: Has(n, k, v) ==> Has(l, k, v) || forall j: Key, w: nat ::
        Has(l, j, w) ==> Precedes(k, j))
  }

  lemma LastTrails(n: Node, p: Key, q: Key, c: Byte)
    requires n.Inner? && Labelled(n, p, q) && Child(n, c) != Nil && forall d: Byte :: d > c ==> Child(n, d) == Nil
    ensures Trails(n, Child(n, c))
  {
    var x := Child(n, c);
    forall k: Key, v: nat | Has(n, k, v) && !Has(x, k, v)
      ensures forall j: Key, w: nat :: Has(x, j, w) ==> Precedes(k, j)
    {
      var d: Byte :| Child(n, d) != Nil && Has(Child(n, d), k, v);
      forall j: Key, w: nat | Has(x, j, w) ensures Precedes(k, j) { Siblings(n, p, q, d, k, v, c, j, w); }
    }
    forall k: Key, v: nat | Has(x, k, v) ensures Has(n, k, v) { FromChild(n, c, k, v); }
  }

  lemma TrailsOn(n: Node, l: Node, x: Node)
    requires Trails(n, l) && Trails(l, x)
    ensures Trails(n, x)
  {}

  /** art_maximum: the last leaf in order. */
  method Last(root: Node, ghost p0: Key) returns (l: Node)
    requires WF(root, p0)
    ensures l.Leaf? && Has(root, l.key, l.val) && forall k: Key, v: nat :: Has(root, k, v) ==>
        k == l.key || Precedes(k, l.key)
  {
    l := root;
    ghost var p := p0;
    while !l.Leaf?
      invariant WF(l, p) && Trails(root, l)
      decreases l
    {
      ghost var q := Label(l, p);
      var c := LastByte(l);
      var i := FindChild(l, c);
      ghost var x := Child(l, c);
      assert x == l.kids[i] && WF(x, p + q + [c]);
      LastTrails(l, p, q, c);
      TrailsOn(root, l, x);
      l := l.kids[i];
      p := p + q + [c];
    }
    assert Has(l, l.key, l.val);
  }

  /** The largest byte that has a child. */
  method LastByte(n: Node) returns (c: Byte)
    requires Steady(n)
    ensures Child(n, c) != Nil && forall d: Byte :: d > c ==> Child(n, d) == Nil
  {
    ghost var e := SomeChild(n);
    if n.kind == K4 || n.kind == K16 {
      c := n.keys[n.num - 1];
      SortedChild(n, c, n.num - 1);
      forall d: Byte | d > c ensures Child(n, d) == Nil { SortedNone(n, d); }
    } else if n.kind == K48 {
      c := LastKey(n.keys, e);
    } else {
      c := LastKid(n.kids, e);
    }
  }

  /** The last byte that is mapped. */
  method LastKey(keys: seq<nat>, ghost e: nat) returns (c: Byte)
    requires |keys| == 256 && e < 256 && keys[e] != 0
    ensures keys[c] != 0 && forall d :: c < d < 256 ==> keys[d] == 0
  {
    var i: nat := 255;
    while keys[i] == 0
      invariant e <= i < 256 && forall d :: i < d < 256 ==> keys[d] == 0
      decreases i
    {
      i := i - 1;
    }
    c := i;
  }

  /** The last byte that has a child. */
  method LastKid(kids: seq<Node>, ghost e: nat) returns (c: Byte)
    requires |kids| == 256 && e < 256 && kids[e] != Nil
    ensures kids[c] != Nil && forall d :: c < d < 256 ==> kids[d] == Nil
  {
    var i: nat := 255;
    while kids[i] == Nil
      invariant e <= i < 256 && forall d :: i < d < 256 ==> kids[d] == Nil
      decreases i
    {
      i := i - 1;
    }
    c := i;
  }
}
