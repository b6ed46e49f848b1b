/** recursive_delete. */
module ArtDelete {

  import opened Octets
  import opened ArtLayout
  import opened ArtGrow
  import opened ArtShrink
  import opened ArtPaths
  import opened Options
  import opened ArtOps
  import opened ArtInsert

  /** n has a single child, x for byte c. */
  ghost predicate Single(n: Node, c: Byte, x: Node) {
    n.Inner? && x != Nil && forall d: Byte {:trigger Child(n, d)} :: Child(n, d) == if d == c then x else Nil
  }

  lemma OnlyChild(n: Node)
    requires LayoutOk(n) && n.kind == K4 && n.num == 1
    ensures Single(n, n.keys[0], n.kids[0])
  {
    forall d: Byte ensures Child(n, d) == if d == n.keys[0] then n.kids[0] else Nil {
      SortedNone(n, d);
      if d == n.keys[0] { SortedChild(n, d, 0); }
    }
  }

  lemma SingleHas(n: Node, c: Byte, x: Node, j: Key, w: nat)
    requires Single(n, c, x)
    ensures Has(n, j, w) <==> Has(x, j, w)
  {
    if Has(x, j, w) { FromChild(n, c, j, w); }
  }

  /** The prefix of a node that takes its parent's prefix and byte before its own. */
  method Concatenate(n: Node, c: Byte, x: Node, ghost q: Key, ghost r: Key) returns (x': Node)
    requires n.Inner? && Stores(n, q) && x.Inner? && Stores(x, r)
    ensures Relabelled(x, x') && Stores(x', q + [c] + r)
  {
    var prefix, bytes := n.plen, n.partial;
    if prefix < MAX_PREFIX {
      bytes := bytes[prefix := c];
      prefix := prefix + 1;
    }
    if prefix < MAX_PREFIX {
      var sub := Min(x.plen, MAX_PREFIX - prefix);
      bytes := bytes[..prefix] + x.partial[..sub] + bytes[prefix + sub..];
      prefix := prefix + sub;
    }
    var m := Min(prefix, MAX_PREFIX);
    x' := x.(plen := x.plen + n.plen + 1, partial := bytes[..m] + x.partial[m..]);
    ghost var t := q + [c] + r;
    forall i | 0 <= i < |t| && i < MAX_PREFIX ensures x'.partial[i] == t[i] {
      assert t[i] == if i < |q| then q[i] else if i == |q| then c else r[i - |q| - 1];
    }
  }

  /** The last part of remove_child4: a node with one child gives way to it. */
  method Collapse(n: Node, ghost p: Key, ghost q: Key) returns (x: Node)
    requires LayoutOk(n) && n.kind == K4 && n.num == 1 && Labelled(n, p, q)
    ensures WF(x, p) && forall j: Key, w: nat :: Has(x, j, w) <==> Has(n, j, w)
  {
    OnlyChild(n);
    var c: Byte := n.keys[0];
    x := n.kids[0];
    ghost var y := Child(n, c);
    assert x == y && WF(y, p + q + [c]);
    forall j: Key, w: nat ensures Has(x, j, w) <==> Has(n, j, w) { SingleHas(n, c, x, j, w); }
    if x.Inner? {
      ghost var r := Label(x, p + q + [c]);
      x := Concatenate(n, c, x, q, r);
      assert p + (q + [c] + r) == (p + q + [c]) + r;
      RelabelledWF(y, x, p + q + [c], r, p, q + [c] + r);
      forall j: Key, w: nat ensures Has(x, j, w) <==> Has(y, j, w) { RelabelledHas(y, x, j, w); }
    } else {
      assert p <= p + q + [c];
    }
  }

  /** remove_child. */
  method Remove(n: Node, c: Byte, i: nat, k: Key, ghost p: Key, ghost q: Key) returns (n': Node)
    requires WF(n, p) && n.Inner? && Steady(n) && Labelled(n, p, q) && Slot(n, c) == i && Child(n, c).Leaf?
    requires Child(n, c).key == k
    ensures WF(n', p) && Without(n, n', k)
  {
    ghost var x := Child(n, c);
    assert WF(x, p + q + [c]);
    n' := RemoveChild(n, c, i);
    RehungWithout(n, n', p, q, c, Nil, k);
    RehungLabelled(n, n', p, q, c, Nil);
    if n'.kind == K4 && n'.num == 1 {
      n' := Collapse(n', p, q);
    }
  }

  /** recursive_delete: the key is gone, all other keys are as before, and its value is returned. */
  method Delete(n: Node, k: Key, beyond: nat -> Byte, depth: nat, ghost p: Key) returns (n': Node, gone: Option<nat>)
    requires IsNode(n, p) && |p| == depth
    ensures IsNode(n', p) && (n.Inner? ==> n' != Nil)
    ensures forall w: nat :: Has(n, k, w) <==> gone == Some(w)
    ensures if gone.None? then n' == n else Without(n, n', k)
    decreases n, 1
  {
    n', gone := n, None;
    if n == Nil {
      return;
    }
    if n.Leaf? {
      if n.key == k {
        n', gone := Nil, Some(n.val);
      }
      return;
    }
    ghost var q := Label(n, p);
    if n.plen > 0 {
      var idx := CheckPrefix(n, k, depth);
      if idx != Min(MAX_PREFIX, n.plen) {
        forall w: nat ensures !Has(n, k, w) { Mismatch(n, p, q, k, w, idx); }
        return;
      }
    }
    n', gone := DeleteBelow(n, k, beyond, depth + n.plen, p, q);
  }

  method DeleteBelow(n: Node, k: Key, beyond: nat -> Byte, depth: nat, ghost p: Key, ghost q: Key)
      returns (n': Node, gone: Option<nat>)
    requires WF(n, p) && n.Inner? && Steady(n) && Labelled(n, p, q) && depth == |p| + |q|
    ensures WF(n', p)
    ensures forall w: nat :: Has(n, k, w) <==> gone == Some(w)
    ensures if gone.None? then n' == n else Without(n, n', k)
    decreases n, 0
  {
    n', gone := n, None;
    var c := ByteAt(k, beyond, depth);
    ghost var x := Child(n, c);
    assert x != Nil ==> WF(x, p + q + [c]);
    forall w: nat ensures Has(n, k, w) <==> x != Nil && Has(x, k, w) { Descends(n, p, q, k, w, c); }
    var i := FindChild(n, c);
    if i < 0 || n.kids[i] == Nil {
      return;
    }
    if n.kids[i].Leaf? {
      if n.kids[i].key == k {
        gone := Some(n.kids[i].val);
        n' := Remove(n, c, i, k, p, q);
      }
      return;
    }
    var x';
    x', gone := Delete(n.kids[i], k, beyond, depth + 1, p + q + [c]);
    n' := n.(kids := n.kids[i := x']);
    if gone.None? {
      assert n' == n;
    } else {
      Below(x, p + q + [c], k, gone.value);
      forall d: Byte ensures Child(n', d) == if d == c then x' else Child(n, d) { Reseated(n, c, i, x', d); }
      Reseated(n, c, i, x', c);
      RehungWithout(n, n', p, q, c, x', k);
      RehungLabelled(n, n', p, q, c, x');
    }
  }
}
