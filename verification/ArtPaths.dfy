/** What an adaptive radix tree stores, and how path compression keeps to it. */
module ArtPaths {

  import opened Octets
  import opened ArtLayout
  import opened ArtGrow
  import opened ArtShrink

  /** A leaf with this key and value is in the tree. */
  ghost predicate Has(n: Node, k: Key, v: nat)
    decreases n
  {
    match n
    case Nil => false
    case Leaf(key, val) => key == k && val == v
    case Inner(_, _, _, _, _, _) => exists c: Byte :: Child(n, c) != Nil && Has(Child(n, c), k, v)
  }

  /** The node stores the prefix q: its length, and its first bytes. */
  ghost predicate Stores(n: Node, q: Key)
    requires n.Inner?
  {
    |q| == n.plen && |n.partial| == MAX_PREFIX && forall i :: 0 <= i < |q| && i < MAX_PREFIX ==> n.partial[i] == q[i]
  }

  /** All keys below n begin with p, which is the way to n from the root. */
  ghost predicate WF(n: Node, p: Key)
    decreases n, 1
  {
    match n
    case Nil => false
    case Leaf(key, _) => p <= key
    case Inner(_, _, _, _, _, _) => Steady(n) && exists q: Key :: Labelled(n, p, q)
  }

  /** The keys below n go on with q, exactly, and then with the byte of their child. */
  ghost predicate Labelled(n: Node, p: Key, q: Key)
    requires n.Inner?
    decreases n, 0
  {
    Stores(n, q) && forall c: Byte {:trigger Child(n, c)} :: Child(n, c) != Nil ==> WF(Child(n, c), p + q + [c])
  }

  ghost predicate IsNode(n: Node, p: Key) {
    n == Nil || WF(n, p)
  }

  lemma {:induction false} Below(n: Node, p: Key, k: Key, v: nat)
    requires WF(n, p) && Has(n, k, v)
    ensures p <= k
    decreases n
  {
    if n.Inner? {
      var q: Key :| Labelled(n, p, q);
      var c: Byte :| Child(n, c) != Nil && Has(Child(n, c), k, v);
      Below(Child(n, c), p + q + [c], k, v);
    }
  }

  /** A key is found, if at all, by its bytes behind the prefix. */
  lemma ByPath(n: Node, p: Key, q: Key, k: Key, v: nat)
    requires n.Inner? && Labelled(n, p, q) && Has(n, k, v)
    ensures p + q < k && var c := k[|p| + |q|]; Child(n, c) != Nil && Has(Child(n, c), k, v)
  {
    var c: Byte :| Child(n, c) != Nil && Has(Child(n, c), k, v);
    Below(Child(n, c), p + q + [c], k, v);
    assert k[|p| + |q|] == (p + q + [c])[|p| + |q|] == c;
    assert p + q <= p + q + [c];
  }

  lemma FromChild(n: Node, c: Byte, k: Key, v: nat)
    requires n.Inner? && Child(n, c) != Nil && Has(Child(n, c), k, v)
    ensures Has(n, k, v)
  {}

  /** A key has at most one value. */
  lemma {:induction false} OneValue(n: Node, p: Key, k: Key, v: nat, w: nat)
    requires WF(n, p) && Has(n, k, v) && Has(n, k, w)
    ensures v == w
    decreases n
  {
    if n.Inner? {
      var q: Key :| Labelled(n, p, q);
      ByPath(n, p, q, k, v);
      ByPath(n, p, q, k, w);
      var c := k[|p| + |q|];
      OneValue(Child(n, c), p + q + [c], k, v, w);
    }
  }

  /** An inner node has a child. */
  lemma SomeChild(n: Node) returns (c: Byte)
    requires Steady(n)
    ensures Child(n, c) != Nil
  {
    match n.kind {
      case K4 => c := n.keys[0]; SortedChild(n, c, 0);
      case K16 => c := n.keys[0]; SortedChild(n, c, 0);
      case K48 => c := FirstNonZero(n.keys);
      case K256 => c := FirstNonNil(n.kids);
    }
  }

  lemma {:induction false} FirstNonZero(s: seq<nat>) returns (c: nat)
    requires NonZero(s) > 0
    ensures c < |s| && s[c] != 0
  {
    if s[|s| - 1] != 0 { c := |s| - 1; } else { c := FirstNonZero(s[..|s| - 1]); }
  }

  lemma {:induction false} FirstNonNil(s: seq<Node>) returns (c: nat)
    requires NonNil(s) > 0
    ensures c < |s| && s[c] != Nil
  {
    if s[|s| - 1] != Nil { c := |s| - 1; } else { c := FirstNonNil(s[..|s| - 1]); }
  }

  // ---------- changing one child ----------

  /** After an insertion: key k has value v, and all other keys are as before. */
  ghost predicate Updated(n: Node, n': Node, k: Key, v: nat) {
    forall j: Key, w: nat {:trigger Has(n', j, w)} :: Has(n', j, w) <==> if j == k then w == v else Has(n, j, w)
  }

  /** After a deletion: key k is gone, and all other keys are as before. */
  ghost predicate Without(n: Node, n': Node, k: Key) {
    forall j: Key, w: nat {:trigger Has(n', j, w)} :: Has(n', j, w) <==> j != k && Has(n, j, w)
  }

  /** The node for byte c changed from x to x'. */
  ghost predicate Rehung(n: Node, n': Node, p: Key, q: Key, c: Byte, x': Node) {
    && n.Inner? && n'.Inner? && Labelled(n, p, q) && SamePrefix(n, n') && ChildSet(n, n', c, x')
  }

  lemma RehungLabelled(n: Node, n': Node, p: Key, q: Key, c: Byte, x': Node)
    requires Rehung(n, n', p, q, c, x') && IsNode(x', p + q + [c])
    ensures Labelled(n', p, q)
  {
    forall d: Byte | Child(n', d) != Nil ensures WF(Child(n', d), p + q + [d]) {}
  }

  lemma RehungHas(n: Node, n': Node, p: Key, q: Key, c: Byte, x': Node, k: Key, j: Key, w: nat)
    requires Rehung(n, n', p, q, c, x') && p + q + [c] <= k
    requires forall i: Key, u: nat :: Has(x', i, u) && i != k ==> Has(Child(n, c), i, u)
    requires forall i: Key, u: nat :: Has(Child(n, c), i, u) && i != k ==> Has(x', i, u)
    ensures j != k ==> (Has(n', j, w) <==> Has(n, j, w))
    ensures Has(x', k, w) ==> Has(n', k, w)
  {
    if Has(x', k, w) { FromChild(n', c, k, w); }
    if j != k && Has(n', j, w) {
      var d: Byte :| Child(n', d) != Nil && Has(Child(n', d), j, w);
      FromChild(n, d, j, w);
    }
    if j != k && Has(n, j, w) {
      var d: Byte :| Child(n, d) != Nil && Has(Child(n, d), j, w);
      FromChild(n', d, j, w);
    }
  }

  lemma RehungUpdated(n: Node, n': Node, p: Key, q: Key, c: Byte, x': Node, k: Key, v: nat)
    requires Rehung(n, n', p, q, c, x') && p + q + [c] <= k && WF(x', p + q + [c]) && Updated(Child(n, c), x', k, v)
    ensures Updated(n, n', k, v)
  {
    RehungLabelled(n, n', p, q, c, x');
    forall j: Key, w: nat ensures Has(n', j, w) <==> if j == k then w == v else Has(n, j, w) {
      RehungHas(n, n', p, q, c, x', k, j, w);
      if j == k && Has(n', k, w) {
        ByPath(n', p, q, k, w);
        assert k[|p| + |q|] == (p + q + [c])[|p| + |q|];
      }
    }
  }

  lemma RehungWithout(n: Node, n': Node, p: Key, q: Key, c: Byte, x': Node, k: Key)
    requires Rehung(n, n', p, q, c, x') && p + q + [c] <= k && IsNode(x', p + q + [c]) && Without(Child(n, c), x', k)
    ensures Without(n, n', k)
  {
    RehungLabelled(n, n', p, q, c, x');
    assert k[|p| + |q|] == (p + q + [c])[|p| + |q|];
    forall j: Key, w: nat ensures Has(n', j, w) <==> j != k && Has(n, j, w) {
      RehungHas(n, n', p, q, c, x', k, j, w);
      if j == k && Has(n', k, w) {
        ByPath(n', p, q, k, w);
      }
    }
  }

  // ---------- the order of keys ----------

  /** a comes before b, and neither is a prefix of the other. */
  ghost predicate Precedes(a: Key, b: Key) {
    exists i :: PartAt(a, b, i)
  }

  ghost predicate PartAt(a: Key, b: Key, i: nat) {
    i < |a| && i < |b| && a[..i] == b[..i] && a[i] < b[i]
  }

  lemma Parting(p: Key, c: Byte, d: Byte, a: Key, b: Key)
    requires p + [c] <= a && p + [d] <= b && c < d
    ensures Precedes(a, b)
  {
    assert a[..|p|] == p && b[..|p|] == p && a[|p|] == (p + [c])[|p|] && b[|p|] == (p + [d])[|p|];
    assert PartAt(a, b, |p|);
  }

  /** Every key below n is below l, or comes after all that is. */
  ghost predicate Leads(n: Node, l: Node) {
    && (forall k: Key, v: nat {:trigger Has(l, k, v)} :: Has(l, k, v) ==> Has(n, k, v))
    && (forall k: Key, v: nat {:trigger Has(n, k, v)} :: Has(n, k, v) ==> Has(l, k, v) || forall j: Key, w: nat ::
        Has(l, j, w) ==> Precedes(j, k))
  }

  lemma Siblings(n: Node, p: Key, q: Key, c: Byte, j: Key, w: nat, d: Byte, k: Key, v: nat)
    requires n.Inner? && Labelled(n, p, q) && c < d && Child(n, c) != Nil && Child(n, d) != Nil
    requires Has(Child(n, c), j, w) && Has(Child(n, d), k, v)
    ensures Precedes(j, k)
  {
    Below(Child(n, c), p + q + [c], j, w);
    Below(Child(n, d), p + q + [d], k, v);
    Parting(p + q, c, d, j, k);
  }

  lemma FirstLeads(n: Node, p: Key, q: Key, c: Byte)
    requires n.Inner? && Labelled(n, p, q) && Child(n, c) != Nil && forall d: Byte :: d < c ==> Child(n, d) == Nil
    ensures Leads(n, Child(n, c))
  {
    var x := Child(n, c);
    forall k: Key, v: nat | Has(n, k, v) && !Has(x, k, v)
      ensures forall j: Key, w: nat :: Has(x, j, w) ==> Precedes(j, k)
    {
      var d: Byte :| Child(n, d) != Nil && Has(Child(n, d), k, v);
      forall j: Key, w: nat | Has(x, j, w) ensures Precedes(j, k) { Siblings(n, p, q, c, j, w, d, k, v); }
    }
    forall k: Key, v: nat | Has(x, k, v) ensures Has(n, k, v) { FromChild(n, c, k, v); }
  }

  lemma LeadsOn(n: Node, l: Node, x: Node)
    requires Leads(n, l) && Leads(l, x)
    ensures Leads(n, x)
  {}
}
