/** rn_addroute on the stores: promoting, joining and lifting, one loop of the source at a time. */
module RadixAdd {

  import opened RadixBits
  import opened RadixTree
  import opened RadixInsert
  import opened RadixHead
  import opened RadixMask
  import opened RadixRoute
  import opened RadixOrder
  import opened RadixChain
  import opened RadixLift
  import opened RadixPromote
  import opened RadixJoin

  // ---------- lifting ----------

  /** The climb to the highest node whose bit is not before the mask's end. */
  method HighestNode(nodes: seq<Node>, top: Ptr, ghost t: Table, h: Ptr, k: Ptr) returns (y: Ptr)
    requires TreesOk(t) && nodes == t.nodes && top == t.sh.top && IsLeaf(nodes, t.sh, k)
    requires IsHead(nodes, t.sh, h) && k in t.sh.under[h] && nodes[k].mask != 0
    requires Index(nodes[k].bit) <= ParentBit(nodes, t.sh, h)
    ensures Belongs(nodes, t.sh, y, k)
  {
    assert LeafOk(t, k) && ParentOk(nodes, t.sh, top);
    Above(nodes, t.sh, h);
    y := nodes[h].parent;
    if y != top { Above(nodes, t.sh, y); }
    var p := nodes[y].parent;
    while Index(nodes[k].bit) <= nodes[p].bit && y != top
      invariant IsInner(nodes, t.sh, y) && k in t.sh.under[y] && Index(nodes[k].bit) <= nodes[y].bit
      invariant p == nodes[y].parent && IsInner(nodes, t.sh, p)
      invariant y != top ==> nodes[p].bit == ParentBit(nodes, t.sh, y)
      decreases nodes[y].bit
    {
      Above(nodes, t.sh, y);
      if p != top { Above(nodes, t.sh, p); }
      y := p;
      p := nodes[p].parent;
    }
  }

  /** The search for the place in the list; an entry of the same index would be a rival, and there is none. */
  method ListPlace(nodes: seq<Node>, ghost t: Table, ghost h: Ptr, y: Ptr, k: Ptr) returns (i: nat)
    requires PendingInv(t, k) && nodes == t.nodes && IsHead(nodes, t.sh, h) && k in t.sh.under[h]
    requires Belongs(nodes, t.sh, y, k)
    ensures LiftPlace(t, h, y, i, k)
  {
    assert ListOk(t, {k}, y);
    var l := nodes[y].mklist;
    i := 0;
    while i < |l| && l[i].bit < nodes[k].bit
      invariant 0 <= i <= |l| && forall q :: 0 <= q < i ==> l[q].bit < nodes[k].bit
    {
      i := i + 1;
    }
    if i < |l| {
      assert l[i] in l;
      ghost var j: Ptr :| j !in {k} && Belongs(nodes, t.sh, y, j) && l[i] == EntryOf(nodes, j);
      if nodes[j].bit == nodes[k].bit { NoRival(t, h, y, j, k); }
    }
  }

  /** From label on2 to the end: the entry of the new leaf, if its mask can be lifted at all. */
  method LiftEntry(nodes: seq<Node>, top: Ptr, ghost t: Table, h: Ptr, k: Ptr) returns (m: seq<Node>)
    requires PendingInv(t, k) && nodes == t.nodes && top == t.sh.top && IsHead(nodes, t.sh, h) && k in t.sh.under[h]
    ensures RouteInv(t.(nodes := m)) && Relisted(t, t.(nodes := m))
  {
    m := nodes;
    Above(nodes, t.sh, h);
    var b := Index(nodes[k].bit);
    if nodes[k].mask == 0 || b > nodes[nodes[h].parent].bit {
      NothingToLift(t, h, k);
      return;
    }
    var y := HighestNode(nodes, top, t, h, k);
    var i := ListPlace(nodes, t, h, y, k);
    LiftedInv(t, h, y, i, k);
    LiftedLabels(t, h, y, i, k);
    var l := m[y].mklist;
    m := m[y := m[y].(mklist := l[..i] + [EntryOf(nodes, k)] + l[i..])];
    m := m[k := m[k].(lifted := true)];
  }

  // ---------- promoting ----------

  /** Skip over the entries whose index is past the new node's bit. */
  method SplitList(l: seq<MaskEntry>, b: nat) returns (q: seq<MaskEntry>, p: seq<MaskEntry>)
    requires Sorted(l)
    ensures l == q + p && (forall e :: e in q ==> Index(e.bit) > b) && (forall e :: e in p ==> Index(e.bit) <= b)
  {
    var i := 0;
    while i < |l| && l[i].bit < -1 - b
      invariant 0 <= i <= |l| && forall j :: 0 <= j < i ==> Index(l[j].bit) > b
    {
      i := i + 1;
    }
    q, p := l[..i], l[i..];
    assert forall j :: i < j < |l| ==> l[i].bit < l[j].bit;
  }

  /** Member j of the chain at x is promoted. */
  ghost predicate PromotesAt(t: Table, s: Site, j: nat)
    requires Sized(t.nodes, t.sh) && s.x < |t.nodes|
  {
    j < |t.sh.chain[s.x]| && Promotes(t, s, t.sh.chain[s.x][j])
  }

  /** Cell c after i members of the chain were looked at. */
  ghost predicate CellDone(t: Table, s: Site, m: seq<Node>, r: seq<Node>, i: nat, c: Ptr)
    requires Sized(t.nodes, t.sh) && s.x < |t.nodes| && |r| == |m|
  {
    c < |m| ==>
      if exists j :: 0 <= j < i && PromotesAt(t, s, j) && t.sh.chain[s.x][j] == c
      then m[c].Leaf? && r[c] == m[c].(lifted := true) else r[c] == m[c]
  }

  ghost predicate CellsDone(t: Table, s: Site, m: seq<Node>, r: seq<Node>, i: nat)
    requires Sized(t.nodes, t.sh) && s.x < |t.nodes|
  {
    |r| == |m| == |t.nodes| && forall c: Ptr {:trigger CellDone(t, s, m, r, i, c)} :: CellDone(t, s, m, r, i, c)
  }

  /** The entries made for the first i members. */
  ghost predicate EntriesDone(t: Table, s: Site, p: seq<MaskEntry>, i: nat)
    requires Sized(t.nodes, t.sh) && s.x < |t.nodes|
  {
    && Sorted(p)
    && (forall e :: e in p ==> exists j ::
        0 <= j < i && PromotesAt(t, s, j) && e == EntryOf(t.nodes, t.sh.chain[s.x][j]))
    && (forall j {:trigger PromotesAt(t, s, j)} :: 0 <= j < i && PromotesAt(t, s, j) ==>
        EntryOf(t.nodes, t.sh.chain[s.x][j]) in p)
  }

  /** Leaves of the chain at x are the same before and after the insertion, but for x's parent. */
  lemma ChainCells(t: Table, s: Site, m: seq<Node>, th: Shape, j: nat)
    requires RouteInv(t) && Inserted(t.nodes, t.sh, s, m, th) && IsHead(t.nodes, t.sh, s.x) && j < |t.sh.chain[s.x]|
    ensures var k := t.sh.chain[s.x][j];
      && IsLeaf(t.nodes, t.sh, k) && k in t.sh.under[s.x] && k != s.leaf && k != s.node && m[k].Leaf?
      && m[k] == WithParent(t.nodes[k], m[k].parent)
          && m[k].dup == (if j + 1 < |t.sh.chain[s.x]| then t.sh.chain[s.x][j + 1] else 0)
  {
    assert HeadOk(t.nodes, t.sh, s.x) && Member(t.nodes, t.sh, s.x, j);
    assert Cell(t.nodes, t.sh, s, m, th, t.sh.chain[s.x][j]);
  }

  lemma EntriesBefore(t: Table, s: Site, p: seq<MaskEntry>, i: nat)
    requires RouteInv(t) && s.x < |t.nodes| && IsHead(t.nodes, t.sh, s.x) && i < |t.sh.chain[s.x]|
    requires EntriesDone(t, s, p, i) && PromotesAt(t, s, i)
    ensures forall e :: e in p ==> e.bit < t.nodes[t.sh.chain[s.x][i]].bit
  {
    var c := t.sh.chain[s.x];
    assert ChainOk(t, s.x);
    forall e | e in p ensures e.bit < t.nodes[c[i]].bit {
      var j :| 0 <= j < i && PromotesAt(t, s, j) && e == EntryOf(t.nodes, c[j]);
      assert InOrder(t, s.x, j, i);
    }
  }

  lemma EntriesStep(t: Table, s: Site, p: seq<MaskEntry>, i: nat, p': seq<MaskEntry>)
    requires RouteInv(t) && s.x < |t.nodes| && IsHead(t.nodes, t.sh, s.x) && i < |t.sh.chain[s.x]|
    requires EntriesDone(t, s, p, i)
    requires p' == if PromotesAt(t, s, i) then p + [EntryOf(t.nodes, t.sh.chain[s.x][i])] else p
    ensures EntriesDone(t, s, p', i + 1)
  {
    if PromotesAt(t, s, i) {
      EntriesBefore(t, s, p, i);
    }
  }

  lemma CellsStep(t: Table, s: Site, m: seq<Node>, th: Shape, r: seq<Node>, i: nat, r': seq<Node>)
    requires RouteInv(t) && Inserted(t.nodes, t.sh, s, m, th) && IsHead(t.nodes, t.sh, s.x) && i < |t.sh.chain[s.x]|
    requires CellsDone(t, s, m, r, i) && t.sh.chain[s.x][i] < |r| && r[t.sh.chain[s.x][i]].Leaf?
    requires r' == if PromotesAt(t, s, i) then r[t.sh.chain[s.x][i] := r[t.sh.chain[s.x][i]].(lifted := true)] else r
    ensures CellsDone(t, s, m, r', i + 1)
  {
    ChainCells(t, s, m, th, i);
    var n := i + 1;
    forall c: Ptr ensures CellDone(t, s, m, r', n, c) {
      assert CellDone(t, s, m, r, i, c);
      if PromotesAt(t, s, i) && t.sh.chain[s.x][i] == c {
        assert 0 <= i < n && PromotesAt(t, s, i);
      }
    }
  }

  /** A member that was not looked at yet is as the insertion left it, so the loop's test decides. */
  lemma CellAhead(t: Table, s: Site, m: seq<Node>, th: Shape, r: seq<Node>, i: nat)
    requires RouteInv(t) && Inserted(t.nodes, t.sh, s, m, th) && IsHead(t.nodes, t.sh, s.x) && i < |t.sh.chain[s.x]|
    requires CellsDone(t, s, m, r, i)
    ensures var k := t.sh.chain[s.x][i];
      && 0 < k < |r| && r[k].Leaf? && r[k].dup == (if i + 1 < |t.sh.chain[s.x]| then t.sh.chain[s.x][i + 1] else 0)
      && IsLeaf(t.nodes, t.sh, k) && EntryOf(r, k) == EntryOf(t.nodes, k)
      && (PromotesAt(t, s, i) <==> r[k].mask != 0 && Index(r[k].bit) <= s.b && !r[k].lifted)
  {
    ChainCells(t, s, m, th, i);
    assert HeadOk(t.nodes, t.sh, s.x);
    assert CellDone(t, s, m, r, i, t.sh.chain[s.x][i]);
  }

  /** One turn of the loop over the duplicated keys of a sibling leaf. */
  method PromoteOne(r: seq<Node>, p: seq<MaskEntry>, k: Ptr, b: nat) returns (r': seq<Node>, p': seq<MaskEntry>)
    requires k < |r| && r[k].Leaf?
    ensures if r[k].mask != 0 && Index(r[k].bit) <= b && !r[k].lifted
            then r' == r[k := r[k].(lifted := true)] && p' == p + [EntryOf(r, k)] else r' == r && p' == p
  {
    r', p' := r, p;
    if r[k].mask != 0 && r[k].bit >= -1 - b && !r[k].lifted {
      p' := p + [EntryOf(r, k)];
      r' := r[k := r[k].(lifted := true)];
    }
  }

  method PromoteChain(m: seq<Node>, ghost t: Table, ghost s: Site, ghost th: Shape, x: Ptr, b: nat)
    returns (r: seq<Node>, p: seq<MaskEntry>)
    requires RouteInv(t) && Inserted(t.nodes, t.sh, s, m, th) && IsHead(t.nodes, t.sh, s.x) && x == s.x && b == s.b
    ensures CellsDone(t, s, m, r, |t.sh.chain[x]|) && EntriesDone(t, s, p, |t.sh.chain[x]|)
  {
    r, p := m, [];
    var k := x;
    ghost var c, i := t.sh.chain[x], 0;
    assert HeadOk(t.nodes, t.sh, x);
    while k != 0
      invariant 0 <= i <= |c| && k == (if i < |c| then c[i] else 0) && (i < |c| ==> k != 0)
      invariant CellsDone(t, s, m, r, i) && EntriesDone(t, s, p, i)
      decreases |c| - i
    {
      CellAhead(t, s, m, th, r, i);
      var next := r[k].dup;
      var r', p' := PromoteOne(r, p, k, b);
      CellsStep(t, s, m, th, r, i, r');
      EntriesStep(t, s, p, i, p');
      r, p, k, i := r', p', next, i + 1;
      if i < |c| { CellAhead(t, s, m, th, r, i); }
    }
  }

  // ---------- a route with a new key ----------

  /** The cells and lists of the promoting step when x heads a chain. */
  lemma HeadStep(z: Step, r: seq<Node>)
    requires RouteInv(z.t) && Inserted(z.t.nodes, z.t.sh, z.s, z.m, z.u.sh) && IsHead(z.t.nodes, z.t.sh, z.s.x)
    requires var c := z.t.sh.chain[z.s.x]; CellsDone(z.t, z.s, z.m, r, |c|) && EntriesDone(z.t, z.s, z.p, |c|)
    requires z.m[z.s.leaf].Leaf? && z.m[z.s.node].Inner? && |z.u.nodes| == |r|
    requires z.u.nodes[z.s.leaf].Leaf? && z.u.nodes[z.s.leaf].bit < 0
    requires z.u.nodes == r[z.s.leaf := Labelled(z.m[z.s.leaf], z.u.nodes[z.s.leaf])]
                           [z.s.node := z.m[z.s.node].(mklist := z.p)]
    ensures Lists(z) && forall c {:trigger After(z, c)} :: After(z, c)
  {
    assert HeadOk(z.t.nodes, z.t.sh, z.s.x);
    forall k: Ptr | Promotes(z.t, z.s, k) ensures EntryOf(z.t.nodes, k) in z.p {
      var j :| 0 <= j < |z.t.sh.chain[z.s.x]| && z.t.sh.chain[z.s.x][j] == k;
      assert PromotesAt(z.t, z.s, j);
    }
    forall e | e in z.p ensures exists k: Ptr :: Promotes(z.t, z.s, k) && e == EntryOf(z.t.nodes, k) {
      var j :| 0 <= j < |z.t.sh.chain[z.s.x]| && PromotesAt(z.t, z.s, j)
               && e == EntryOf(z.t.nodes, z.t.sh.chain[z.s.x][j]);
      assert Promotes(z.t, z.s, z.t.sh.chain[z.s.x][j]);
    }
    forall c: Ptr ensures After(z, c) {
      HeadStepCell(z, r, c);
    }
  }

  lemma HeadStepCell(z: Step, r: seq<Node>, c: Ptr)
    requires RouteInv(z.t) && Inserted(z.t.nodes, z.t.sh, z.s, z.m, z.u.sh) && IsHead(z.t.nodes, z.t.sh, z.s.x)
    requires CellsDone(z.t, z.s, z.m, r, |z.t.sh.chain[z.s.x]|)
    requires z.m[z.s.leaf].Leaf? && z.m[z.s.node].Inner? && |z.u.nodes| == |r|
    requires z.u.nodes[z.s.leaf].Leaf? && z.u.nodes[z.s.leaf].bit < 0
    requires z.u.nodes == r[z.s.leaf := Labelled(z.m[z.s.leaf], z.u.nodes[z.s.leaf])]
                           [z.s.node := z.m[z.s.node].(mklist := z.p)]
    ensures After(z, c)
  {
    assert HeadOk(z.t.nodes, z.t.sh, z.s.x) && CellDone(z.t, z.s, z.m, r, |z.t.sh.chain[z.s.x]|, c);
    assert Cell(z.t.nodes, z.t.sh, z.s, z.m, z.u.sh, z.s.x);
    if Promotes(z.t, z.s, c) {
      var j :| 0 <= j < |z.t.sh.chain[z.s.x]| && z.t.sh.chain[z.s.x][j] == c;
      assert PromotesAt(z.t, z.s, j);
    }
  }

  /** The labels a route leaf gets from its mask, and what the caller's key and mask must satisfy. */
  ghost predicate NewLabels(t: Table, leaf: Node, vb: Bits)
    requires Sized(t.masks, t.maskShape) && |vb| >= t.sh.hi
  {
    && leaf.Leaf? && !leaf.root && !leaf.lifted && 0 < |leaf.key| && Len(leaf.key) <= |leaf.key| && leaf.bit < 0
    && (leaf.mask == 0 ==> !leaf.normal && leaf.bit == -1)
    && (leaf.mask != 0 ==>
      && IsLeaf(t.masks, t.maskShape, leaf.mask) && leaf.mask != ONES_LEAF
      && leaf.bit == t.masks[leaf.mask].bit && leaf.normal == t.masks[leaf.mask].normal
      && (leaf.normal <==> leaf.mask != ZERO_MASK)
      && (leaf.normal ==> t.sh.lo < Index(leaf.bit) <= t.sh.hi)
      && (forall i :: t.sh.lo <= i < t.sh.hi && Index(leaf.bit) <= i ==> !vb[i]))
  }

  /** What the promoting step starts from. */
  ghost predicate FreshStart(m: seq<Node>, t: Table, s: Site, th: Shape, labels: Node) {
    && RouteInv(t) && Inserted(t.nodes, t.sh, s, m, th) && IsBits(s.v, s.vb) && s.leaf != 1 && s.leaf != 3
    && m[s.leaf].Leaf? && labels.Leaf?
        && labels == m[s.leaf].(mask := labels.mask, bit := labels.bit, normal := labels.normal)
    && NewLabels(t, labels, s.vb)
  }

  /** Set the mask and promote, when the sibling is a leaf. */
  method FreshByLeaf(m: seq<Node>, ghost t: Table, ghost s: Site, ghost th: Shape, x: Ptr, leaf: Ptr, node: Ptr,
      labels: Node)
    returns (r: seq<Node>, ghost z: Step)
    requires FreshStart(m, t, s, th, labels) && leaf == s.leaf && node == s.node && x == s.x && IsHead(t.nodes, t.sh, x)
    ensures StepOk(z) && z.t == t && z.s == s && z.m == m && z.u == t.(nodes := r, sh := th) && r[leaf] == labels
  {
    assert Cell(t.nodes, t.sh, s, m, th, node);
    var p;
    r, p := PromoteChain(m, t, s, th, x, m[node].bit);
    ghost var r0 := r;
    r := r[leaf := labels];
    r := r[node := m[node].(mklist := p)];
    z := Step(t, s, m, t.(nodes := r, sh := th), p, []);
    HeadStep(z, r0);
    FreshLabels(z);
  }

  /** Set the mask and promote, when the sibling is an inner node. */
  method FreshByInner(m: seq<Node>, ghost t: Table, ghost s: Site, ghost th: Shape, x: Ptr, leaf: Ptr, node: Ptr,
      labels: Node)
    returns (r: seq<Node>, ghost z: Step)
    requires FreshStart(m, t, s, th, labels) && leaf == s.leaf && node == s.node && x == s.x
    requires IsInner(t.nodes, t.sh, x)
    ensures StepOk(z) && z.t == t && z.s == s && z.m == m && z.u == t.(nodes := r, sh := th) && r[leaf] == labels
  {
    assert Cell(t.nodes, t.sh, s, m, th, node) && Cell(t.nodes, t.sh, s, m, th, x);
    assert ListOk(t, {}, x);
    var q, p := SplitList(m[x].mklist, m[node].bit);
    r := m[leaf := labels];
    r := r[node := m[node].(mklist := p)];
    r := r[x := m[x].(mklist := q)];
    z := Step(t, s, m, t.(nodes := r, sh := th), p, q);
    InnerStep(z);
    FreshLabels(z);
  }

  /** Set the mask, promote from below: from the insertion to label on2. */
  method FreshRoute(m: seq<Node>, ghost t: Table, ghost s: Site, ghost th: Shape, leaf: Ptr, node: Ptr, labels: Node)
    returns (r: seq<Node>, ghost z: Step)
    requires FreshStart(m, t, s, th, labels) && leaf == s.leaf && node == s.node
    ensures StepOk(z) && z.t == t && z.s == s && z.u == t.(nodes := r, sh := th)
    ensures PendingInv(t.(nodes := r, sh := th), leaf) && IsHead(r, th, leaf) && r[leaf] == labels
    ensures th.bits[leaf] == s.vb
    ensures forall k: Ptr {:trigger SameRoute(t, t.(nodes := r, sh := th), k)} :: k != leaf ==>
        SameRoute(t, t.(nodes := r, sh := th), k)
  {
    assert Cell(t.nodes, t.sh, s, m, th, leaf) && Cell(t.nodes, t.sh, s, m, th, node)
        && Cell(t.nodes, t.sh, s, m, th, s.x);
    var x := if m[node].right == leaf then m[node].left else m[node].right;
    if m[x].bit < 0 {
      r, z := FreshByLeaf(m, t, s, th, x, leaf, node, labels);
    } else {
      r, z := FreshByInner(m, t, s, th, x, leaf, node, labels);
    }
    StepPending(z);
    StepNewLeaf(z);
    StepRoutes(z);
  }

  lemma StepRoutes(z: Step)
    requires StepOk(z)
    ensures forall k: Ptr {:trigger SameRoute(z.t, z.u, k)} :: k != z.s.leaf ==> SameRoute(z.t, z.u, k)
  {
    forall k: Ptr | k != z.s.leaf ensures SameRoute(z.t, z.u, k) {
      StepLeaf(z, k);
    }
  }

  /** Route k is stored in both tables or in neither, with one key and one rank. */
  ghost predicate SameRoute(t: Table, u: Table, k: Ptr) {
    && Sized(t.nodes, t.sh) && Sized(u.nodes, u.sh)
    && (IsRoute(u, k) <==> IsRoute(t, k))
    && (IsRoute(t, k) ==>
        u.sh.bits[k] == t.sh.bits[k] && Rank(u.nodes, u.sh, k) == Rank(t.nodes, t.sh, k)
        && u.nodes[k].key == t.nodes[k].key)
  }

  lemma InnerStep(z: Step)
    requires RouteInv(z.t) && Inserted(z.t.nodes, z.t.sh, z.s, z.m, z.u.sh) && IsInner(z.t.nodes, z.t.sh, z.s.x)
    requires z.m[z.s.leaf].Leaf? && z.m[z.s.node].Inner? && z.m[z.s.x].Inner? && |z.u.nodes| == |z.m|
    requires z.u.nodes[z.s.leaf].Leaf? && z.u.nodes[z.s.leaf].bit < 0
    requires z.u.nodes == z.m[z.s.leaf := Labelled(z.m[z.s.leaf], z.u.nodes[z.s.leaf])]
                             [z.s.node := z.m[z.s.node].(mklist := z.p)][z.s.x := z.m[z.s.x].(mklist := z.q)]
    requires z.m[z.s.x].mklist == z.q + z.p && (forall e :: e in z.q ==> Index(e.bit) > z.s.b)
    requires (forall e :: e in z.p ==> Index(e.bit) <= z.s.b)
    ensures Lists(z) && forall c {:trigger After(z, c)} :: After(z, c)
  {
    assert Cell(z.t.nodes, z.t.sh, z.s, z.m, z.u.sh, z.s.x);
  }

  lemma FreshLabels(z: Step)
    requires RouteInv(z.t) && Inserted(z.t.nodes, z.t.sh, z.s, z.m, z.u.sh) && |z.u.nodes| == |z.m|
    requires z.u.masks == z.t.masks && z.u.maskShape == z.t.maskShape
    requires z.s.leaf != 1 && z.s.leaf != 3 && NewLabels(z.t, z.u.nodes[z.s.leaf], z.s.vb)
    ensures Sized(z.u.nodes, z.u.sh) && LeafOk(z.u, z.s.leaf)
  {
    assert Cell(z.t.nodes, z.t.sh, z.s, z.m, z.u.sh, z.s.leaf);
  }

  // ---------- a route whose key is already stored ----------

  /** The rank that a leaf with these labels has. */
  function NewRank(t: Table, labels: Node): int
    requires labels.Leaf?
  {
    if labels.mask == 0 then t.sh.hi + 1 else Index(labels.bit)
  }

  lemma LabelMask(t: Table, labels: Node, vb: Bits) returns (key: Key, mb: Bits)
    requires TreesOk(t) && |vb| >= t.sh.hi && NewLabels(t, labels, vb) && labels.mask != 0
    ensures labels.mask < |t.masks| && t.masks[labels.mask].Leaf? && key == t.masks[labels.mask].key
    ensures IsMask(key) && IsBits(key, mb) && IsPrefix(mb, Index(labels.bit))
  {
    key, mb := InternedMask(t, labels.mask);
  }

  /** Two masks of one index are one interned mask. */
  lemma MaskOfIndex(t: Table, labels: Node, vb: Bits, k: Ptr)
    requires TreesOk(t) && |vb| >= t.sh.hi && NewLabels(t, labels, vb) && labels.mask != 0
    requires IsLeaf(t.nodes, t.sh, k) && t.nodes[k].mask != 0 && t.nodes[k].bit == labels.bit
    ensures t.nodes[k].mask == labels.mask
  {
    assert LeafOk(t, k);
    if labels.mask != ZERO_MASK {
      var x, y := labels.mask, t.nodes[k].mask;
      var keyX, mbX := InternedMask(t, x);
      var keyY, mbY := InternedMask(t, y);
      assert MaskLeaf(t.masks, t.maskShape, t.sh.lo / 8, x) && MaskLeaf(t.masks, t.maskShape, t.sh.lo / 8, y);
      SamePrefix(keyX, mbX, keyY, mbY, Index(labels.bit), t.sh.lo / 8);
      AgreeBytes(keyX, t.maskShape.bits[x], keyY, t.maskShape.bits[y], 0, MAX_KEY_LEN);
      InternedOnce(t.masks, t.maskShape, t.sh.lo / 8, x, y);
    }
  }

  lemma SamePrefix(a: Key, ab: Bits, b: Key, bb: Bits, idx: int, skip: nat)
    requires IsBits(a, ab) && IsBits(b, bb) && IsPrefix(ab, idx) && IsPrefix(bb, idx) && IsNormalForm(a, skip)
    requires IsNormalForm(b, skip)
    ensures a == b
  {
    AgreeBytes(a, ab, b, bb, 1, MAX_KEY_LEN);
    SameNormalForm(a, b, skip);
  }

  /** The loop's test on one member of the chain: equal, behind the new leaf, or before it. */
  method CompareMember(nodes: seq<Node>, masks: seq<Node>, ghost t: Table, k: Ptr, labels: Node, ghost vb: Bits)
      returns (same: bool, stop: bool)
    requires TreesOk(t) && nodes == t.nodes && masks == t.masks && |vb| >= t.sh.hi && NewLabels(t, labels, vb)
    requires IsLeaf(nodes, t.sh, k)
    ensures same <==> nodes[k].mask == labels.mask
    ensures same ==> Rank(nodes, t.sh, k) == NewRank(t, labels)
    ensures !same && stop ==> Rank(nodes, t.sh, k) < NewRank(t, labels)
    ensures !same && !stop ==> Rank(nodes, t.sh, k) > NewRank(t, labels)
  {
    assert LeafOk(t, k);
    same, stop := nodes[k].mask == labels.mask, false;
    if same || nodes[k].mask == 0 {
      return;
    }
    if labels.mask == 0 || labels.bit < nodes[k].bit {
      stop := true;
      return;
    }
    ghost var key, mb := LabelMask(t, labels, vb);
    ghost var key', mb' := RouteMask(t, k);
    var finer := RnRefines(masks[labels.mask].key, masks[nodes[k].mask].key);
    var better := RnLexobetter(masks[labels.mask].key, masks[nodes[k].mask].key);
    stop := finer || better;
    if finer { RefinesMeansLonger(key, mb, key', mb', Index(labels.bit), Index(nodes[k].bit)); }
    if better { LexoBetterMeansLonger(key, mb, key', mb', Index(labels.bit), Index(nodes[k].bit)); }
    if nodes[k].bit == labels.bit { MaskOfIndex(t, labels, vb, k); }
  }

  /** Every member before position i outranks the new leaf. */
  ghost predicate Outrank(t: Table, h: Ptr, i: nat, rank: int)
    requires Sized(t.nodes, t.sh) && h < |t.nodes|
  {
    forall j :: 0 <= j < i && j < |t.sh.chain[h]| ==>
        IsLeaf(t.nodes, t.sh, t.sh.chain[h][j]) && Rank(t.nodes, t.sh, t.sh.chain[h][j]) > rank
  }

  /** The loop over the chain: its place for the new leaf, or the same mask found. */
  method ChainPlace(nodes: seq<Node>, masks: seq<Node>, ghost t: Table, h: Ptr, labels: Node, ghost vb: Bits)
    returns (same: bool, prev: Ptr, ghost i: nat, ghost twin: Ptr)
    requires TreesOk(t) && nodes == t.nodes && masks == t.masks && |vb| >= t.sh.hi && NewLabels(t, labels, vb)
    requires IsHead(nodes, t.sh, h)
    ensures same ==> IsLeaf(nodes, t.sh, twin) && twin in t.sh.under[h] && nodes[twin].mask == labels.mask
    ensures !same ==> i <= |t.sh.chain[h]| && Outrank(t, h, i, NewRank(t, labels))
    ensures !same ==> prev == (if i == 0 then 0 else t.sh.chain[h][i - 1])
    ensures !same && i < |t.sh.chain[h]| ==>
      IsLeaf(nodes, t.sh, t.sh.chain[h][i]) && Rank(nodes, t.sh, t.sh.chain[h][i]) < NewRank(t, labels)
  {
    assert HeadOk(nodes, t.sh, h);
    var k := h;
    prev, i, twin := 0, 0, 0;
    assert Member(nodes, t.sh, h, 0);
    while k != 0
      invariant i <= |t.sh.chain[h]| && k == (if i < |t.sh.chain[h]| then t.sh.chain[h][i] else 0)
      invariant i < |t.sh.chain[h]| ==> IsLeaf(nodes, t.sh, k)
      invariant prev == if i == 0 then 0 else t.sh.chain[h][i - 1]
      invariant Outrank(t, h, i, NewRank(t, labels))
      decreases |t.sh.chain[h]| - i
    {
      var stop;
      same, stop := CompareMember(nodes, masks, t, k, labels, vb);
      if same {
        twin := k;
        return;
      }
      if stop {
        return;
      }
      assert Member(nodes, t.sh, h, i) && Member(nodes, t.sh, h, i + 1);
      prev, k, i := k, nodes[k].dup, i + 1;
    }
    same := false;
  }

  lemma AllFit(z: Joining, i: nat, labels: Node)
    requires TreesOk(z.t) && IsHead(z.t.nodes, z.t.sh, z.j.h) && z.j.tt < |z.u.nodes| && z.u.nodes[z.j.tt] == labels
    requires labels.Leaf?
    requires z.j.i <= |z.t.sh.chain[z.j.h]| && Outrank(z.t, z.j.h, z.j.i, NewRank(z.t, labels))
    requires z.j.i < |z.t.sh.chain[z.j.h]| ==>
      IsLeaf(z.t.nodes, z.t.sh, z.t.sh.chain[z.j.h][z.j.i])
          && Rank(z.t.nodes, z.t.sh, z.t.sh.chain[z.j.h][z.j.i]) < NewRank(z.t, labels)
    ensures Fits(z, i)
  {
    assert ChainOk(z.t, z.j.h) && InOrder(z.t, z.j.h, z.j.i, i);
  }

  /** Link the leaf into the chain and set its mask: from the loop's end to label on2. */
  method JoinRoute(nodes: seq<Node>, ghost t: Table, h: Ptr, prev: Ptr, ghost i: nat, tt: Ptr, v: Key, ghost vb: Bits,
      labels: Node)
    returns (r: seq<Node>, head: Ptr, ghost th: Shape, ghost z: Joining)
    requires RouteInv(t) && nodes == t.nodes && IsBits(v, vb) && tt != 1 && tt != 3 && |vb| >= t.sh.hi
    requires NewLabels(t, labels, vb)
    requires labels.key == v && JointOk(nodes, t.sh, Joint(h, i, tt, v, vb))
    requires prev == (if i == 0 then 0 else t.sh.chain[h][i - 1]) && Outrank(t, h, i, NewRank(t, labels))
    requires i < |t.sh.chain[h]| ==> IsLeaf(nodes, t.sh, t.sh.chain[h][i])
    requires i < |t.sh.chain[h]| ==> Rank(nodes, t.sh, t.sh.chain[h][i]) < NewRank(t, labels)
    ensures JoiningOk(z) && z.t == t && z.j == Joint(h, i, tt, v, vb) && z.u == t.(nodes := r, sh := th)
    ensures PendingInv(t.(nodes := r, sh := th), tt) && IsHead(r, th, head) && tt in th.under[head]
    ensures r[tt].Leaf? && r[tt].mask == labels.mask && r[tt].bit == labels.bit && r[tt].key == v && !r[tt].root
    ensures th.bits[tt] == vb
    ensures th.top == t.sh.top && th.lo == t.sh.lo && th.hi == t.sh.hi
    ensures forall c: Ptr :: Unused(nodes, t.sh, c) && c != tt ==> Unused(r, th, c)
    ensures forall k: Ptr {:trigger SameRoute(t, t.(nodes := r, sh := th), k)} :: k != tt ==>
        SameRoute(t, t.(nodes := r, sh := th), k)
  {
    ghost var j := Joint(h, i, tt, v, vb);
    th := JoinedShape(t.sh, j);
    assert HeadOk(nodes, t.sh, h) && (i > 0 ==> Member(nodes, t.sh, h, i - 1));
    var m;
    if prev == 0 {
      m := JoinFirst(nodes, t.sh, j, h, tt, v);
      head := tt;
    } else {
      m := JoinAfter(nodes, t.sh, j, prev, tt, v);
      head := h;
    }
    assert Spliced(nodes, t.sh, j, m, th, tt);
    r := m[tt := m[tt].(mask := labels.mask, bit := labels.bit, normal := labels.normal)];
    z := Joining(t, j, m, t.(nodes := r, sh := th));
    JoinedReady(z, labels);
    JoinedOutcome(z);
  }

  /** What holds of the table once the leaf has joined and has its mask. */
  lemma JoinedOutcome(z: Joining)
    requires JoiningOk(z)
    ensures PendingInv(z.u, z.j.tt) && z.u.sh.bits[z.j.tt] == z.j.vb
    ensures IsHead(z.u.nodes, z.u.sh, NewHead(z.j)) && z.j.tt in z.u.sh.under[NewHead(z.j)]
    ensures forall c: Ptr :: Unused(z.t.nodes, z.t.sh, c) && c != z.j.tt ==> Unused(z.u.nodes, z.u.sh, c)
    ensures forall k: Ptr {:trigger SameRoute(z.t, z.u, k)} :: k != z.j.tt ==> SameRoute(z.t, z.u, k)
  {
    JoiningPending(z);
    JoiningNewLeaf(z);
    JoiningRoutes(z);
    forall c: Ptr | Unused(z.t.nodes, z.t.sh, c) && c != z.j.tt ensures Unused(z.u.nodes, z.u.sh, c) {
      JoinedUnused(z.t.nodes, z.t.sh, z.j, z.m, z.u.sh, c);
    }
  }

  lemma JoinedReady(z: Joining, labels: Node)
    requires RouteInv(z.t) && JoinedTree(z.t.nodes, z.t.sh, z.j, z.m, z.u.sh) && IsBits(z.j.v, z.j.vb) && z.j.tt != 1
    requires z.j.tt != 3
    requires z.u.masks == z.t.masks && z.u.maskShape == z.t.maskShape
    requires NewLabels(z.t, labels, z.j.vb) && z.m[z.j.tt].Leaf? && labels.key == z.j.v
    requires z.u.nodes == z.m[z.j.tt := z.m[z.j.tt].(mask := labels.mask, bit := labels.bit, normal := labels.normal)]
    requires Outrank(z.t, z.j.h, z.j.i, NewRank(z.t, labels))
    requires z.j.i < |z.t.sh.chain[z.j.h]| ==>
      IsLeaf(z.t.nodes, z.t.sh, z.t.sh.chain[z.j.h][z.j.i])
          && Rank(z.t.nodes, z.t.sh, z.t.sh.chain[z.j.h][z.j.i]) < NewRank(z.t, labels)
    ensures JoiningOk(z)
  {
    assert Spliced(z.t.nodes, z.t.sh, z.j, z.m, z.u.sh, z.j.tt);
    forall i: nat ensures Fits(z, i) {
      AllFit(z, i, z.u.nodes[z.j.tt]);
    }
  }

  lemma JoiningRoutes(z: Joining)
    requires JoiningOk(z)
    ensures forall k: Ptr {:trigger SameRoute(z.t, z.u, k)} :: k != z.j.tt ==> SameRoute(z.t, z.u, k)
  {
    forall k: Ptr | k != z.j.tt ensures SameRoute(z.t, z.u, k) {
      JoiningLeaf(z, k);
    }
  }

  // ---------- masks ----------

  /** Interning another mask does not disturb the routes. */
  lemma MasksGrown(t: Table, u: Table)
    requires RouteInv(t) && u == t.(masks := u.masks, maskShape := u.maskShape)
    requires MaskInv(u.masks, u.maskShape, t.sh.lo / 8)
    requires forall k: Ptr {:trigger Kept(t.masks, t.maskShape, u.masks, u.maskShape, k)} ::
        Kept(t.masks, t.maskShape, u.masks, u.maskShape, k)
    ensures RouteInv(u)
  {
    assert Kept(t.masks, t.maskShape, u.masks, u.maskShape, ZERO_MASK);
    forall k: Ptr ensures LeafOk(u, k) {
      assert LeafOk(t, k);
      if IsLeaf(t.nodes, t.sh, k) { assert Kept(t.masks, t.maskShape, u.masks, u.maskShape, t.nodes[k].mask); }
    }
    forall h: Ptr ensures ChainOk(u, h) {
      assert ChainOk(t, h);
      if IsHead(u.nodes, u.sh, h) {
        forall i: nat, j: nat ensures InOrder(u, h, i, j) { assert InOrder(t, h, i, j); }
      }
    }
    forall n: Ptr ensures ListOk(u, {}, n) {
      assert ListOk(t, {}, n);
      if IsInner(u.nodes, u.sh, n) {
        forall e | e in u.nodes[n].mklist ensures EntryFrom(u, {}, n, e) { assert EntryFrom(t, {}, n, e); }
      }
    }
    forall h: Ptr, k: Ptr ensures LiftOk(u, h, k) { assert LiftOk(t, h, k); }
  }

  /** The caller's mask selects the bits before plen, and those only. */
  ghost predicate Contiguous(sh: Shape, netmask: Key, nb: Bits, plen: nat) {
    && IsBits(netmask, nb) && 0 < |netmask| && Len(netmask) <= |netmask| && 8 * Len(netmask) <= sh.hi
    && sh.lo <= plen && (plen == sh.lo || plen <= 8 * Len(netmask))
    && forall i :: sh.lo <= i < 8 * Len(netmask) ==> nb[i] == (i < plen)
  }

  /** The interned form of a contiguous mask has its prefix length as its index. */
  lemma ContiguousMask(t: Table, netmask: Key, nb: Bits, plen: nat, x: Ptr)
    requires TreesOk(t) && Contiguous(t.sh, netmask, nb, plen) && Interns(t.masks, t.maskShape, t.sh.lo / 8, x, netmask)
    ensures plen == t.sh.lo ==> x == ZERO_MASK
    ensures plen > t.sh.lo ==> x != ZERO_MASK && t.masks[x].normal && Index(t.masks[x].bit) == plen
  {
    var mb := t.maskShape.bits[x];
    forall i | t.sh.lo <= i < |mb| ensures mb[i] == (i < plen) {
      InternedBit(t, netmask, nb, plen, x, i);
    }
    assert MaskLeaf(t.masks, t.maskShape, t.sh.lo / 8, x);
    if x == ZERO_MASK {
      RootBits(mb, t.maskShape.bits[ONES_LEAF], t.sh.lo);
    } else {
      var i := SomeOne(t.masks[x].key, mb, Len(t.masks[x].key) - 1);
      var idx := Index(t.masks[x].bit);
      assert (idx < |mb| ==> mb[idx] == (idx < plen)) && (plen < |mb| ==> !mb[plen]);
    }
  }

  lemma InternedBit(t: Table, netmask: Key, nb: Bits, plen: nat, x: Ptr, i: nat)
    requires TreesOk(t) && Contiguous(t.sh, netmask, nb, plen) && Interns(t.masks, t.maskShape, t.sh.lo / 8, x, netmask)
    requires t.sh.lo <= i < 8 * MAX_KEY_LEN
    ensures i < |t.maskShape.bits[x]| && t.maskShape.bits[x][i] == (i < plen)
  {
    var j := i / 8;
    ByteBits(t.masks[x].key, t.maskShape.bits[x], j, i - 8 * j);
    assert t.masks[x].key[j] == ByteOr0(netmask, j);
    if j < Len(netmask) {
      ByteBits(netmask, nb, j, i - 8 * j);
    }
  }
}
