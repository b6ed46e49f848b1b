/** How deep a red-black tree can be. */
module RbHeight {

  import opened RbShape
  import opened RbColor
  import opened Powers

  ghost predicate InOrNil(m: Mem, v: View, c: Ptr)
    requires Sized(m, v)
  {
    c == m.nil || In(m, v, c)
  }

  ghost function Size(m: Mem, v: View, c: Ptr): int
    requires Sized(m, v) && InOrNil(m, v, c)
  {
    if c == m.nil then 0 else v.hi[c] as int - v.lo[c]
  }

  /** The two subtrees and the node itself. */
  lemma Sizes(m: Mem, v: View, c: Ptr)
    requires Links(m, v) && In(m, v, c)
    ensures InOrNil(m, v, m.left[c]) && InOrNil(m, v, m.right[c])
    ensures Size(m, v, m.left[c]) >= 0 && Size(m, v, m.right[c]) >= 0
    ensures Size(m, v, c) == Size(m, v, m.left[c]) + 1 + Size(m, v, m.right[c])
  {
    assert NodeOk(m, v, c);
    assert m.left[c] != m.nil ==> NodeOk(m, v, m.left[c]);
    assert m.right[c] != m.nil ==> NodeOk(m, v, m.right[c]);
  }

  /** Nodes on the longest way down. */
  ghost function Height(m: Mem, v: View, c: Ptr): (h: nat)
    requires Links(m, v) && InOrNil(m, v, c)
    decreases Size(m, v, c)
  {
    if c == m.nil then 0 else
      Sizes(m, v, c);
      var l, r := Height(m, v, m.left[c]), Height(m, v, m.right[c]);
      1 + if l < r then r else l
  }

  /** Every other node on a way down is black. */
  lemma {:induction false} HeightBlack(m: Mem, v: View, c: Ptr)
    requires Colored(m, v) && InOrNil(m, v, c)
    ensures Height(m, v, c) <= 2 * Bh(m, v, c) + if m.red[c] then 1 else 0
    decreases Size(m, v, c)
  {
    if c != m.nil {
      Sizes(m, v, c);
      assert BlackOk(m, v, c) && RedOk(m, v, 0, c) && NodeOk(m, v, c);
      HeightBlack(m, v, m.left[c]);
      HeightBlack(m, v, m.right[c]);
    }
  }

  /** Black nodes on every way down fill a complete tree. */
  lemma {:induction false} SizeBlack(m: Mem, v: View, c: Ptr)
    requires Colored(m, v) && InOrNil(m, v, c)
    ensures Pow2(Bh(m, v, c)) <= Size(m, v, c) + 1
    decreases Size(m, v, c)
  {
    if c != m.nil {
      Sizes(m, v, c);
      assert BlackOk(m, v, c);
      SizeBlack(m, v, m.left[c]);
      SizeBlack(m, v, m.right[c]);
    }
  }

  lemma Squares(a: nat, b: nat)
    requires a <= b
    ensures a * a <= b * b
  {
    assert a * a <= a * b <= b * b;
  }

  /** A tree of n nodes is at most 2 log2(n + 1) high. */
  lemma HeightBound(m: Mem, v: View)
    requires Colored(m, v)
    ensures InOrNil(m, v, m.root) && Pow2(Height(m, v, m.root)) <= (|v.order| + 1) * (|v.order| + 1)
  {
    var b := Bh(m, v, m.root);
    HeightBlack(m, v, m.root);
    SizeBlack(m, v, m.root);
    Pow2Grows(Height(m, v, m.root), 2 * b);
    Pow2Twice(b);
    Squares(Pow2(b), |v.order| + 1);
  }
}
