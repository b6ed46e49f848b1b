/** art_search, recursive_insert and recursive_delete. */
module ArtOps {

  import opened Octets
  import opened ArtLayout
  import opened ArtGrow
  import opened ArtShrink
  import opened ArtPaths
  import opened Options

  function Min(a: int, b: int): int {
    if a < b then a else b
  }

  /** The byte of the key at an index; what lies behind the end of the key may be anything. */
  function ByteAt(k: Key, beyond: nat -> Byte, i: nat): Byte {
    if i < |k| then k[i] else beyond(i)
  }

  lemma Label(n: Node, p: Key) returns (q: Key)
    requires WF(n, p) && n.Inner?
    ensures Labelled(n, p, q) && LayoutOk(n) && Steady(n)
  {
    q :| Labelled(n, p, q);
  }

  /** find_child: the index of the child for byte c. */
  method FindChild(n: Node, c: Byte) returns (i: int)
    requires LayoutOk(n)
    ensures i == Slot(n, c)
  {
    if n.kind == K4 || n.kind == K16 {
      i := 0;
      while i < n.num
        invariant 0 <= i <= n.num && forall j :: 0 <= j < i ==> n.keys[j] != c
      {
        if n.keys[i] == c {
          SortedChild(n, c, i);
          return;
        }
        i := i + 1;
      }
      SortedNone(n, c);
      i := -1;
    } else if n.kind == K48 {
      i := n.keys[c] as int - 1;
    } else {
      i := if n.kids[c] != Nil then c else -1;
    }
  }

  /** check_prefix: how many of the stored prefix bytes the key has. */
  method CheckPrefix(n: Node, k: Key, depth: nat) returns (idx: nat)
    requires n.Inner? && |n.partial| == MAX_PREFIX
    ensures idx <= n.plen && idx <= MAX_PREFIX && (idx == 0 || depth + idx <= |k|) && forall i :: 0 <= i < idx ==>
        n.partial[i] == k[depth + i]
    ensures idx < Min(MAX_PREFIX, n.plen) ==> depth + idx >= |k| || n.partial[idx] != k[depth + idx]
  {
    var max := Min(Min(n.plen, MAX_PREFIX), |k| - depth);
    idx := 0;
    while idx < max
      invariant 0 <= idx && (idx == 0 || idx <= max) && forall i :: 0 <= i < idx ==> n.partial[i] == k[depth + i]
    {
      if n.partial[idx] != k[depth + idx] {
        return;
      }
      idx := idx + 1;
    }
  }

  /** A key that differs in a stored prefix byte, or ends before it, is not below. */
  lemma Mismatch(n: Node, p: Key, q: Key, k: Key, v: nat, idx: nat)
    requires n.Inner? && Labelled(n, p, q) && idx < n.plen && idx < MAX_PREFIX
    requires |p| + idx >= |k| || n.partial[idx] != k[|p| + idx]
    ensures !Has(n, k, v)
  {
    assert (p + q)[|p| + idx] == q[idx];
    if Has(n, k, v) { ByPath(n, p, q, k, v); }
  }

  /** Below a node whose stored prefix matches, the key is below the child for its next byte, or nowhere. */
  lemma Descends(n: Node, p: Key, q: Key, k: Key, v: nat, c: Byte)
    requires n.Inner? && Labelled(n, p, q) && (|p| + |q| < |k| ==> c == k[|p| + |q|])
    ensures Has(n, k, v) <==> Child(n, c) != Nil && Has(Child(n, c), k, v)
  {
    if Has(n, k, v) { ByPath(n, p, q, k, v); }
  }

  /** art_search on the tree n. */
  method Search(root: Node, k: Key, beyond: nat -> Byte) returns (r: Option<nat>)
    requires IsNode(root, [])
    ensures forall v: nat :: Has(root, k, v) <==> r == Some(v)
  {
    var n, depth := root, 0;
    ghost var p: Key := [];
    while n != Nil
      invariant IsNode(n, p) && |p| == depth
      invariant forall v: nat :: Has(root, k, v) <==> Has(n, k, v)
      decreases n != Nil, n
    {
      if n.Leaf? {
        if n.key == k {
          return Some(n.val);
        }
        return None;
      }
      ghost var q := Label(n, p);
      if n.plen > 0 {
        var idx := CheckPrefix(n, k, depth);
        if idx != Min(MAX_PREFIX, n.plen) {
          forall v: nat ensures !Has(n, k, v) { Mismatch(n, p, q, k, v, idx); }
          return None;
        }
        depth := depth + n.plen;
      }
      var c := ByteAt(k, beyond, depth);
      forall v: nat ensures Has(n, k, v) <==> Child(n, c) != Nil && Has(Child(n, c), k, v) {
        Descends(n, p, q, k, v, c);
      }
      var i := FindChild(n, c);
      ghost var x := Child(n, c);
      assert x != Nil ==> WF(x, p + q + [c]);
      n := if i >= 0 then n.kids[i] else Nil;
      depth := depth + 1;
      p := p + q + [c];
    }
    r := None;
  }

  // ---------- insertion ----------

  /** No key below n is a proper prefix of k, or has k as one. */
  ghost predicate Apart(n: Node, k: Key) {
    forall j: Key, w: nat {:trigger Has(n, j, w)} :: Has(n, j, w) ==> j == k || (!(j <= k) && !(k <= j))
  }

  /** minimum: the first leaf in order. */
  method Minimum(root: Node, ghost p0: Key) returns (l: Node)
    requires WF(root, p0)
    ensures l.Leaf? && Has(root, l.key, l.val) && forall k: Key, v: nat :: Has(root, k, v) ==>
        k == l.key || Precedes(l.key, k)
  {
    l := root;
    ghost var p := p0;
    while !l.Leaf?
      invariant WF(l, p) && Leads(root, l)
      decreases l
    {
      ghost var q := Label(l, p);
      var c := FirstByte(l);
      var i := FindChild(l, c);
      ghost var x := Child(l, c);
      assert x == l.kids[i] && WF(x, p + q + [c]);
      FirstLeads(l, p, q, c);
      LeadsOn(root, l, x);
      l := l.kids[i];
      p := p + q + [c];
    }
    assert Has(l, l.key, l.val);
  }

  /** The smallest byte that has a child. */
  method FirstByte(n: Node) returns (c: Byte)
    requires Steady(n)
    ensures Child(n, c) != Nil && forall d: Byte :: d < c ==> Child(n, d) == Nil
  {
    ghost var e := SomeChild(n);
    if n.kind == K4 || n.kind == K16 {
      c := n.keys[0];
      SortedChild(n, c, 0);
      forall d: Byte | d < c ensures Child(n, d) == Nil { SortedNone(n, d); }
    } else if n.kind == K48 {
      var i: nat := 0;
      while n.keys[i] == 0
        invariant i <= e && forall d :: 0 <= d < i ==> n.keys[d] == 0
        decreases 256 - i
      {
        i := i + 1;
      }
      c := i;
    } else {
      var i: nat := 0;
      while n.kids[i] == Nil
        invariant i <= e && forall d :: 0 <= d < i ==> n.kids[d] == Nil
        decreases 256 - i
      {
        i := i + 1;
      }
      c := i;
    }
  }

  /** longest_common_prefix, from depth on. */
  method CommonPrefix(a: Key, b: Key, depth: nat) returns (idx: nat)
    requires depth <= |a| && depth <= |b|
    ensures depth + idx <= |a| && depth + idx <= |b| && forall i :: depth <= i < depth + idx ==> a[i] == b[i]
    ensures depth + idx == |a| || depth + idx == |b| || a[depth + idx] != b[depth + idx]
  {
    var max := Min(|a|, |b|) - depth;
    idx := 0;
    while idx < max
      invariant 0 <= idx <= max && forall i :: depth <= i < depth + idx ==> a[i] == b[i]
    {
      if a[depth + idx] != b[depth + idx] {
        return;
      }
      idx := idx + 1;
    }
  }

  /** A node with the children x for byte c and y for byte d. */
  ghost predicate Forks(n: Node, c: Byte, x: Node, d: Byte, y: Node) {
    n.Inner? && forall e: Byte {:trigger Child(n, e)} :: Child(n, e) == if e == c then x else if e == d then y else Nil
  }

  /** A new K4 node with a prefix of which `partial` is stored, and two children. */
  method Fork(plen: nat, partial: seq<Byte>, c: Byte, x: Node, d: Byte, y: Node) returns (n: Node)
    requires |partial| == MAX_PREFIX && c != d && x != Nil && y != Nil
    ensures Steady(n) && Forks(n, c, x, d, y) && n.plen == plen && |n.partial| == MAX_PREFIX
    ensures forall i :: 0 <= i < plen && i < MAX_PREFIX ==> n.partial[i] == partial[i]
  {
    var n0 := Inner(K4, 0, plen, partial, [0, 0, 0, 0], [Nil, Nil, Nil, Nil]);
    forall e: Byte ensures Child(n0, e) == Nil { SortedNone(n0, e); }
    var n1 := AddSorted(n0, c, x);
    n := AddSorted(n1, d, y);
    forall e: Byte ensures Child(n, e) == if e == c then x else if e == d then y else Nil {
      assert Child(n1, e) == if e == c then x else Child(n0, e);
    }
  }

  lemma ForkWF(n: Node, p: Key, q: Key, c: Byte, x: Node, d: Byte, y: Node)
    requires Steady(n) && Forks(n, c, x, d, y) && c != d && Stores(n, q) && WF(x, p + q + [c]) && WF(y, p + q + [d])
    ensures WF(n, p)
  {
    assert Labelled(n, p, q);
  }

  lemma ForkHas(n: Node, c: Byte, x: Node, d: Byte, y: Node, j: Key, w: nat)
    requires Forks(n, c, x, d, y) && c != d && x != Nil && y != Nil
    ensures Has(n, j, w) <==> Has(x, j, w) || Has(y, j, w)
  {
    if Has(x, j, w) { FromChild(n, c, j, w); }
    if Has(y, j, w) { FromChild(n, d, j, w); }
  }

  /** The first bytes of q, padded to the size of partial[]. */
  function Stored(q: Key): (r: seq<Byte>)
    ensures |r| == MAX_PREFIX && forall i :: 0 <= i < |q| && i < MAX_PREFIX ==> r[i] == q[i]
  {
    if |q| < MAX_PREFIX then q + seq(MAX_PREFIX - |q|, _ => 0) else q[..MAX_PREFIX]
  }

  lemma PrefixParts(p: Key, k: Key, m: nat)
    requires p <= k && |p| + m < |k|
    ensures p + k[|p|..|p| + m] + [k[|p| + m]] <= k
  {
    assert p + k[|p|..|p| + m] + [k[|p| + m]] == k[..|p| + m + 1];
  }

  /** A leaf with another key becomes a node with two leaves. */
  method SplitLeaf(l: Node, k: Key, v: nat, depth: nat, ghost p: Key) returns (n: Node)
    requires l.Leaf? && p <= l.key && p <= k && |p| == depth && Apart(l, k) && l.key != k
    ensures WF(n, p) && Updated(l, n, k, v)
  {
    assert Has(l, l.key, l.val);
    var m := CommonPrefix(l.key, k, depth);
    CommonEnd(l.key, k, depth, m);
    var c, d := l.key[depth + m], k[depth + m];
    ghost var q := k[depth..depth + m];
    assert l.key[depth..depth + m] == q;
    PrefixParts(p, k, m);
    PrefixParts(p, l.key, m);
    var y := Leaf(k, v);
    n := Fork(m, Stored(k[depth..depth + m]), c, l, d, y);
    ForkWF(n, p, q, c, l, d, y);
    forall j: Key, w: nat ensures Has(n, j, w) <==> if j == k then w == v else Has(l, j, w) {
      ForkHas(n, c, l, d, y, j, w);
    }
  }

  /** Keys that are not prefixes of each other part before either ends. */
  lemma CommonEnd(a: Key, b: Key, depth: nat, m: nat)
    requires depth + m <= |a| && depth + m <= |b| && !(a <= b) && !(b <= a) && a[..depth] == b[..depth]
    requires forall i :: depth <= i < depth + m ==> a[i] == b[i]
    requires depth + m == |a| || depth + m == |b| || a[depth + m] != b[depth + m]
    ensures depth + m < |a| && depth + m < |b| && a[depth + m] != b[depth + m]
  {
    assert forall i :: 0 <= i < depth ==> a[i] == a[..depth][i] == b[..depth][i] == b[i];
    assert a[..depth + m] == b[..depth + m] && a[..|a|] == a && b[..|b|] == b;
  }

  /** check_prefix, in terms of the prefix q that the node stores. */
  method CheckStored(n: Node, k: Key, depth: nat, ghost q: Key) returns (idx: nat)
    requires n.Inner? && Stores(n, q)
    ensures idx <= |q| && idx <= MAX_PREFIX && (idx == 0 || depth + idx <= |k|) && forall i :: 0 <= i < idx ==>
        k[depth + i] == q[i]
    ensures idx < Min(MAX_PREFIX, |q|) ==> depth + idx >= |k| || k[depth + idx] != q[idx]
  {
    idx := CheckPrefix(n, k, depth);
  }

  /** Key l goes on behind p with q, and neither of l and k is a proper prefix of the other. */
  ghost predicate Beside(p: Key, q: Key, k: Key, l: Key) {
    p + q < l && p <= k && (l == k || (!(k <= l) && !(l <= k)))
  }

  lemma LeafBeside(n: Node, p: Key, q: Key, k: Key, l: Key, v: nat)
    requires n.Inner? && Labelled(n, p, q) && p <= k && Apart(n, k) && Has(n, l, v)
    ensures Beside(p, q, k, l)
  {
    ByPath(n, p, q, l, v);
  }

  /** Some key below the node. */
  method LeafKey(n: Node, k: Key, ghost p: Key, ghost q: Key) returns (l: Key)
    requires WF(n, p) && n.Inner? && Labelled(n, p, q) && p <= k && Apart(n, k)
    ensures Beside(p, q, k, l)
  {
    var leaf := Minimum(n, p);
    l := leaf.key;
    LeafBeside(n, p, q, k, l, leaf.val);
  }

  /** Behind p, the key k has the first idx bytes of q, and leaves it there; or idx is behind q, and k goes on. */
  ghost predicate LeavesAt(p: Key, q: Key, k: Key, idx: nat) {
    && (forall i :: 0 <= i < idx && i < |q| ==> |p| + i < |k| && k[|p| + i] == q[i])
    && (idx < |q| ==> |p| + idx < |k| && k[|p| + idx] != q[idx])
    && (idx >= |q| ==> |p| + |q| < |k|)
  }

  /** prefix_mismatch: where the key leaves the prefix q of the node, or some index behind it if it does not. */
  method PrefixMismatch(n: Node, k: Key, depth: nat, ghost p: Key, ghost q: Key) returns (idx: nat)
    requires WF(n, p) && n.Inner? && Labelled(n, p, q) && p <= k && |p| == depth && Apart(n, k)
    ensures LeavesAt(p, q, k, idx)
  {
    idx := CheckStored(n, k, depth, q);
    if idx == MAX_PREFIX && n.plen > MAX_PREFIX {
      var l := LeafKey(n, k, p, q);
      SameSoFar(p, q, k, l, idx);
      idx := CompareOn(l, k, depth, idx);
      PastPrefix(p, q, k, l, idx);
    } else {
      StoredEnds(n, k, p, q, idx);
    }
  }

  lemma SameSoFar(p: Key, q: Key, k: Key, l: Key, idx: nat)
    requires Beside(p, q, k, l) && 0 < idx <= |q| && |p| + idx <= |k| && forall i :: 0 <= i < idx ==> k[|p| + i] == q[i]
    ensures |p| + idx <= |l| && forall i :: |p| <= i < |p| + idx ==> k[i] == l[i]
  {
    PrefixBytes(p, q, l);
    forall i | |p| <= i < |p| + idx ensures k[i] == l[i] { assert k[|p| + (i - |p|)] == q[i - |p|]; }
  }

  /** When the stored bytes decide, the key has not ended before. */
  lemma StoredEnds(n: Node, k: Key, p: Key, q: Key, idx: nat)
    requires WF(n, p) && n.Inner? && Labelled(n, p, q) && p <= k && Apart(n, k) && idx <= |q|
    requires (idx == 0 || |p| + idx <= |k|) && forall i :: 0 <= i < idx ==> k[|p| + i] == q[i]
    requires idx < |q| ==> |p| + idx >= |k| || k[|p| + idx] != q[idx]
    ensures LeavesAt(p, q, k, idx)
  {
    var l, v := AnyLeaf(n, p);
    LeafBeside(n, p, q, k, l, v);
    InPrefix(p, q, k, l, idx);
  }

  /** The second loop of prefix_mismatch. */
  method CompareOn(l: Key, k: Key, depth: nat, from: nat) returns (idx: nat)
    requires depth + from <= |k| && depth + from <= |l| && forall i :: depth <= i < depth + from ==> k[i] == l[i]
    ensures idx >= from && depth + idx <= |k| && depth + idx <= |l| && forall i :: depth <= i < depth + idx ==>
        k[i] == l[i]
    ensures depth + idx == |k| || depth + idx == |l| || k[depth + idx] != l[depth + idx]
  {
    idx := from;
    var max := Min(|l|, |k|) - depth;
    while idx < max
      invariant from <= idx && depth + idx <= |k| && depth + idx <= |l| && forall i :: depth <= i < depth + idx ==>
          k[i] == l[i]
    {
      if l[depth + idx] != k[depth + idx] {
        return;
      }
      idx := idx + 1;
    }
  }

  lemma {:induction false} AnyLeaf(n: Node, p: Key) returns (k: Key, v: nat)
    requires WF(n, p)
    ensures Has(n, k, v)
    decreases n
  {
    if n.Leaf? {
      k, v := n.key, n.val;
    } else {
      var q := Label(n, p);
      var c := SomeChild(n);
      k, v := AnyLeaf(Child(n, c), p + q + [c]);
      FromChild(n, c, k, v);
    }
  }

  lemma PrefixBytes(p: Key, q: Key, k: Key)
    requires p + q < k
    ensures forall i :: 0 <= i < |q| ==> k[|p| + i] == q[i]
    ensures forall i :: 0 <= i < |p| ==> k[i] == p[i]
  {
    assert forall i :: 0 <= i < |p| + |q| ==> k[i] == (p + q)[i];
  }

  /** Within the stored bytes the key has not ended: it would be a prefix of a key below the node. */
  lemma InPrefix(p: Key, q: Key, k: Key, l: Key, idx: nat)
    requires Beside(p, q, k, l) && idx <= |q|
    requires forall i :: 0 <= i < idx ==> |p| + i < |k| && k[|p| + i] == q[i]
    requires idx == 0 || |p| + idx <= |k|
    ensures |p| + idx < |k|
  {
    PrefixBytes(p, q, l);
    assert forall i :: 0 <= i < |p| ==> k[i] == p[i];
    var m := Min(|p| + idx, |k|);
    assert k[..m] == l[..m] && k[..|k|] == k;
  }

  /** Compared with a whole key below the node. */
  lemma PastPrefix(p: Key, q: Key, k: Key, l: Key, idx: nat)
    requires Beside(p, q, k, l) && |p| + idx <= |k| && |p| + idx <= |l|
    requires forall i :: |p| <= i < |p| + idx ==> k[i] == l[i]
    requires |p| + idx == |k| || |p| + idx == |l| || k[|p| + idx] != l[|p| + idx]
    ensures LeavesAt(p, q, k, idx)
  {
    PrefixBytes(p, q, l);
    assert forall i :: 0 <= i < |p| ==> k[i] == p[i];
    assert |p| + idx == |k| ==> k == l[..|k|];
  }
}
