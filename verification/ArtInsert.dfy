/** recursive_insert. */
module ArtInsert {

  import opened Octets
  import opened ArtLayout
  import opened ArtGrow
  import opened ArtShrink
  import opened ArtPaths
  import opened Options
  import opened ArtOps

  /** The same node with another prefix. */
  ghost predicate Relabelled(n: Node, n': Node) {
    n.Inner? && n'.Inner? && n' == n.(plen := n'.plen, partial := n'.partial) && |n'.partial| == MAX_PREFIX
  }

  lemma RelabelledChild(n: Node, n': Node, c: Byte)
    requires Relabelled(n, n')
    ensures Child(n', c) == Child(n, c)
  {}

  lemma RelabelledHas(n: Node, n': Node, j: Key, w: nat)
    requires Relabelled(n, n')
    ensures Has(n', j, w) <==> Has(n, j, w)
  {
    forall c: Byte ensures Child(n', c) == Child(n, c) { RelabelledChild(n, n', c); }
  }

  /** The way to the children is what counts, not where it is cut. */
  lemma RelabelledWF(n: Node, n': Node, p: Key, q: Key, p': Key, q': Key)
    requires Relabelled(n, n') && Steady(n) && Labelled(n, p, q) && Stores(n', q') && p' + q' == p + q
    ensures WF(n', p')
  {
    forall c: Byte | Child(n', c) != Nil ensures WF(Child(n', c), p' + q' + [c]) { RelabelledChild(n, n', c); }
    assert Labelled(n', p', q');
  }

  /** The old node behind the split: d + 1 bytes of its prefix are gone, and the next ones are stored. */
  method Shorten(n: Node, l: Key, depth: nat, d: nat, ghost p: Key, ghost q: Key) returns (n': Node)
    requires n.Inner? && Stores(n, q) && d < |q| && |p| == depth && p + q < l
    ensures Relabelled(n, n') && Stores(n', q[d + 1..])
  {
    PrefixBytes(p, q, l);
    var rest := n.plen - (d + 1);
    var m := Min(MAX_PREFIX, rest);
    if n.plen <= MAX_PREFIX {
      n' := n.(plen := rest, partial := n.partial[d + 1..d + 1 + m] + n.partial[m..]);
    } else {
      n' := n.(plen := rest, partial := l[depth + d + 1..depth + d + 1 + m] + n.partial[m..]);
    }
  }

  lemma SplitWays(p: Key, q: Key, k: Key, d: nat)
    requires p <= k && d < |q| && |p| + d < |k| && forall i :: 0 <= i < d ==> k[|p| + i] == q[i]
    ensures (p + q[..d] + [q[d]]) + q[d + 1..] == p + q && p + q[..d] + [k[|p| + d]] <= k
  {
    assert q == q[..d] + [q[d]] + q[d + 1..];
    assert p + q[..d] + [k[|p| + d]] == k[..|p| + d + 1];
  }

  /** The prefix of a node is split where the key leaves it. */
  method SplitPrefix(n: Node, k: Key, v: nat, depth: nat, d: nat, ghost p: Key, ghost q: Key) returns (n': Node)
    requires WF(n, p) && n.Inner? && Labelled(n, p, q) && p <= k && |p| == depth && Apart(n, k)
    requires d < |q| && depth + d < |k| && k[depth + d] != q[d] && forall i :: 0 <= i < d ==> k[depth + i] == q[i]
    ensures WF(n', p) && Updated(n, n', k, v)
  {
    ghost var _ := Label(n, p);
    var l := LeafKey(n, k, p, q);
    PrefixBytes(p, q, l);
    var c := if n.plen <= MAX_PREFIX then n.partial[d] else l[depth + d];
    var n1 := Shorten(n, l, depth, d, p, q);
    SplitWays(p, q, k, d);
    RelabelledWF(n, n1, p, q, p + q[..d] + [c], q[d + 1..]);
    var y := Leaf(k, v);
    n' := Fork(d, n.partial, c, n1, k[depth + d], y);
    ForkWF(n', p, q[..d], c, n1, k[depth + d], y);
    forall j: Key, w: nat ensures Has(n', j, w) <==> if j == k then w == v else Has(n, j, w) {
      ForkHas(n', c, n1, k[depth + d], y, j, w);
      RelabelledHas(n, n1, j, w);
      if Has(n, k, w) { ByPath(n, p, q, k, w); PrefixBytes(p, q, k); }
    }
  }

  /** Another child in a slot that is in use. */
  lemma Reseated(n: Node, c: Byte, i: nat, x: Node, d: Byte)
    requires LayoutOk(n) && Slot(n, c) == i && Child(n, c) != Nil && x != Nil
    ensures var n' := n.(kids := n.kids[i := x]);
        LayoutOk(n') && SamePrefix(n, n') && Degree(n') == Degree(n)
        && Child(n', d) == if d == c then x else Child(n, d)
  {
    NonNilSet(n.kids, i, x);
    var n' := n.(kids := n.kids[i := x]);
    if IsSorted(n) {
      SortedSeat(n, n', i, d);
    }
  }

  lemma SortedSeat(n: Node, n': Node, i: nat, d: Byte)
    requires LayoutOk(n) && IsSorted(n) && i < |n.kids| && n'.Inner? && n' == n.(kids := n'.kids)
    requires |n'.kids| == |n.kids|
    ensures Slot(n', d) == Slot(n, d)
  {}

  lemma KeyGoesOn(p: Key, q: Key, k: Key)
    requires p <= k && |p| + |q| < |k| && forall i :: 0 <= i < |q| ==> k[|p| + i] == q[i]
    ensures p + q + [k[|p| + |q|]] <= k
  {
    assert p + q + [k[|p| + |q|]] == k[..|p| + |q| + 1];
  }

  /** Below the prefix: into the child for the next byte, or a new leaf there. */
  method InsertBelow(n: Node, k: Key, v: nat, depth: nat, ghost p: Key, ghost q: Key)
      returns (n': Node, was: Option<nat>)
    requires WF(n, p) && n.Inner? && Labelled(n, p, q) && p <= k && Apart(n, k) && depth == |p| + |q|
    requires |p| + |q| < |k| && forall i :: 0 <= i < |q| ==> k[|p| + i] == q[i]
    ensures WF(n', p) && Updated(n, n', k, v)
    ensures forall w: nat :: Has(n, k, w) <==> was == Some(w)
    decreases n, 0
  {
    ghost var _ := Label(n, p);
    KeyGoesOn(p, q, k);
    var c := k[depth];
    ghost var x := Child(n, c);
    forall w: nat ensures Has(n, k, w) <==> x != Nil && Has(x, k, w) { Descends(n, p, q, k, w, c); }
    var i := FindChild(n, c);
    if i >= 0 && n.kids[i] != Nil {
      var x';
      forall j: Key, w: nat | Has(x, j, w) ensures Has(n, j, w) { FromChild(n, c, j, w); }
      x', was := Insert(n.kids[i], k, v, depth + 1, p + q + [c]);
      n' := n.(kids := n.kids[i := x']);
      forall d: Byte ensures Child(n', d) == if d == c then x' else Child(n, d) { Reseated(n, c, i, x', d); }
      Reseated(n, c, i, x', c);
      RehungUpdated(n, n', p, q, c, x', k, v);
      RehungLabelled(n, n', p, q, c, x');
    } else {
      was := None;
      var y := Leaf(k, v);
      n' := AddChild(n, c, y);
      RehungUpdated(n, n', p, q, c, y, k, v);
      RehungLabelled(n, n', p, q, c, y);
    }
  }

  /** recursive_insert: the key has the value, all other keys are as before, and the old value is returned. */
  method Insert(n: Node, k: Key, v: nat, depth: nat, ghost p: Key) returns (n': Node, was: Option<nat>)
    requires IsNode(n, p) && p <= k && |p| == depth && Apart(n, k)
    ensures WF(n', p) && Updated(n, n', k, v)
    ensures forall w: nat :: Has(n, k, w) <==> was == Some(w)
    decreases n, 1
  {
    was := None;
    if n == Nil {
      n' := Leaf(k, v);
    } else if n.Leaf? {
      if n.key == k {
        was := Some(n.val);
        n' := Leaf(k, v);
      } else {
        n' := SplitLeaf(n, k, v, depth, p);
      }
    } else {
      ghost var q := Label(n, p);
      if n.plen > 0 {
        var d := PrefixMismatch(n, k, depth, p, q);
        if d < n.plen {
          forall w: nat ensures !Has(n, k, w) { LeavesPrefix(n, p, q, k, w, d); }
          n' := SplitPrefix(n, k, v, depth, d, p, q);
        } else {
          n', was := InsertBelow(n, k, v, depth + n.plen, p, q);
        }
      } else {
        ghost var l, w := AnyLeaf(n, p);
        LeafBeside(n, p, q, k, l, w);
        InPrefix(p, q, k, l, 0);
        n', was := InsertBelow(n, k, v, depth, p, q);
      }
    }
  }

  lemma LeavesPrefix(n: Node, p: Key, q: Key, k: Key, w: nat, d: nat)
    requires n.Inner? && Labelled(n, p, q) && d < |q| && |p| + d < |k| && k[|p| + d] != q[d]
    ensures !Has(n, k, w)
  {
    if Has(n, k, w) {
      ByPath(n, p, q, k, w);
      PrefixBytes(p, q, k);
    }
  }
}
