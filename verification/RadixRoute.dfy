/** Routes in the radix tree: what leaves and mask lists mean, and longest-prefix match. */
module RadixRoute {

  import opened RadixBits
  import opened RadixTree
  import opened RadixInsert
  import opened RadixHead
  import opened RadixMask

  /** The number of leading key bits that a mask with this rn_bit selects. */
  function Index(bit: int): int {
    -1 - bit
  }

  /** How specific a leaf is: host routes and root leaves before all masks. */
  function Rank(nodes: seq<Node>, sh: Shape, k: Ptr): int
    requires k < |nodes| && nodes[k].Leaf?
  {
    if nodes[k].mask == 0 then sh.hi + 1 else Index(nodes[k].bit)
  }

  /** The two trees together: routes, and the masks they refer to. */
  datatype Table = Table(nodes: seq<Node>, sh: Shape, masks: seq<Node>, maskShape: Shape)

  /** What a leaf's mask, index and flags say, and that no host bit of its key is set. */
  ghost predicate LeafOk(t: Table, k: Ptr)
    requires Sized(t.nodes, t.sh) && Sized(t.masks, t.maskShape)
  {
    IsLeaf(t.nodes, t.sh, k) ==>
      var n := t.nodes[k];
      && (n.root <==> k == 1 || k == 3)
      && (n.mask == 0 ==> !n.normal && n.bit == (if n.root then -1 - t.sh.lo else -1))
      && (n.mask != 0 ==>
        && IsLeaf(t.masks, t.maskShape, n.mask) && n.mask != ONES_LEAF && !n.root
        && 0 < |n.key| && Len(n.key) <= |n.key|
        && n.bit == t.masks[n.mask].bit && n.normal == t.masks[n.mask].normal
        && (n.normal <==> n.mask != ZERO_MASK)
        && (n.normal ==> t.sh.lo < Index(n.bit) <= t.sh.hi)
        && (forall i :: t.sh.lo <= i < t.sh.hi && Index(n.bit) <= i ==> !t.sh.bits[k][i]))
  }

  /** Member i of a chain is more specific than any later member j. */
  ghost predicate InOrder(t: Table, h: Ptr, i: nat, j: nat)
    requires Sized(t.nodes, t.sh) && h < |t.nodes|
  {
    var s := t.sh.chain[h];
    i < j < |s| ==>
      IsLeaf(t.nodes, t.sh, s[i]) && IsLeaf(t.nodes, t.sh, s[j])
          && Rank(t.nodes, t.sh, s[i]) > Rank(t.nodes, t.sh, s[j])
  }

  /** Chains run from the most to the least specific leaf. */
  ghost predicate ChainOk(t: Table, h: Ptr)
    requires Sized(t.nodes, t.sh)
  {
    IsHead(t.nodes, t.sh, h) ==> forall i, j {:trigger InOrder(t, h, i, j)} :: InOrder(t, h, i, j)
  }

  /** The mask list entry of a leaf with a mask. */
  function EntryOf(nodes: seq<Node>, k: Ptr): MaskEntry
    requires k < |nodes| && nodes[k].Leaf?
  {
    var n := nodes[k];
    MaskEntry(n.bit, n.normal, if n.normal then k else 0, if n.normal then 0 else n.mask)
  }

  /** n is the highest node over leaf k that tests a bit at or after the end of k's mask. */
  ghost predicate Belongs(nodes: seq<Node>, sh: Shape, n: Ptr, k: Ptr)
    requires Sized(nodes, sh)
  {
    && IsInner(nodes, sh, n) && IsLeaf(nodes, sh, k) && k in sh.under[n] && nodes[k].mask != 0
    && ParentBit(nodes, sh, n) < Index(nodes[k].bit) <= nodes[n].bit
  }

  /** Longer masks come first, and no index comes twice. */
  ghost predicate Sorted(l: seq<MaskEntry>) {
    forall i, j :: 0 <= i < j < |l| ==> l[i].bit < l[j].bit
  }

  /** The mask list of n: sorted, and exactly the entries that belong there, save those of `pending`. */
  ghost predicate ListOk(t: Table, pending: set<Ptr>, n: Ptr)
    requires Sized(t.nodes, t.sh)
  {
    IsInner(t.nodes, t.sh, n) ==>
      var l := t.nodes[n].mklist;
      && Sorted(l)
      && (forall e :: e in l ==> EntryFrom(t, pending, n, e))
      && (forall k {:trigger Belongs(t.nodes, t.sh, n, k)} :: k !in pending && Belongs(t.nodes, t.sh, n, k) ==>
          EntryOf(t.nodes, k) in l)
  }

  ghost predicate EntryFrom(t: Table, pending: set<Ptr>, n: Ptr, e: MaskEntry)
    requires Sized(t.nodes, t.sh)
  {
    exists k: Ptr :: k !in pending && Belongs(t.nodes, t.sh, n, k) && e == EntryOf(t.nodes, k)
  }

  /** A leaf is marked as lifted exactly when it has an entry in some mask list. */
  ghost predicate LiftOk(t: Table, h: Ptr, k: Ptr)
    requires Sized(t.nodes, t.sh)
  {
    IsHead(t.nodes, t.sh, h) && IsLeaf(t.nodes, t.sh, k) && k in t.sh.under[h] && t.nodes[k].mask != 0 ==>
      (t.nodes[k].lifted <==> Index(t.nodes[k].bit) <= ParentBit(t.nodes, t.sh, h))
  }

  ghost predicate TreesOk(t: Table) {
    && HeadInv(t.nodes, t.sh) && t.sh.lo % 8 == 0 && 0 < t.sh.lo && t.sh.hi <= 8 * MAX_KEY_LEN
    && MaskInv(t.masks, t.maskShape, t.sh.lo / 8)
    && t.masks[ZERO_MASK].bit == -1 && !t.masks[ZERO_MASK].normal
    && t.sh.top == 2 && IsLeaf(t.nodes, t.sh, 1) && t.nodes[1].key == Zeros() && IsLeaf(t.nodes, t.sh, 3)
        && t.nodes[3].key == Ones()
    && (forall k: Ptr {:trigger LeafOk(t, k)} :: LeafOk(t, k))
    && (forall h: Ptr {:trigger ChainOk(t, h)} :: ChainOk(t, h))
  }

  ghost predicate RouteInv(t: Table) {
    && TreesOk(t)
    && (forall n: Ptr {:trigger ListOk(t, {}, n)} :: ListOk(t, {}, n))
    && (forall h: Ptr, k: Ptr {:trigger LiftOk(t, h, k)} :: LiftOk(t, h, k))
  }

  /** Everything is in place but the mask list entry of leaf k. */
  ghost predicate PendingInv(t: Table, k: Ptr) {
    && TreesOk(t) && IsLeaf(t.nodes, t.sh, k) && !t.nodes[k].lifted
    && (forall n: Ptr {:trigger ListOk(t, {k}, n)} :: ListOk(t, {k}, n))
    && (forall h: Ptr, j: Ptr {:trigger LiftOk(t, h, j)} :: j != k ==> LiftOk(t, h, j))
  }

  // ---------- what a lookup should answer ----------

  /** k is a stored route. */
  ghost predicate IsRoute(t: Table, k: Ptr)
    requires Sized(t.nodes, t.sh)
  {
    IsLeaf(t.nodes, t.sh, k) && !t.nodes[k].root
  }

  /** Route k covers v: they agree on the bits that the mask selects, or on all for a host route. */
  ghost predicate Covers(t: Table, k: Ptr, vb: Bits)
    requires Sized(t.nodes, t.sh) && |vb| >= t.sh.hi
  {
    && IsRoute(t, k)
    && forall i :: t.sh.lo <= i < t.sh.hi && i < Rank(t.nodes, t.sh, k) ==> vb[i] == t.sh.bits[k][i]
  }

  /** r is the answer of a scan over all routes: the most specific one that covers v, or null if none does. */
  ghost predicate IsAnswer(t: Table, vb: Bits, r: Ptr)
    requires Sized(t.nodes, t.sh) && |vb| >= t.sh.hi
  {
    if r == 0 then forall k: Ptr :: !Covers(t, k, vb)
    else Covers(t, r, vb) && forall k: Ptr :: Covers(t, k, vb) ==> Rank(t.nodes, t.sh, k) <= Rank(t.nodes, t.sh, r)
  }

  /** Every significant bit is one. */
  ghost predicate AllOnes(sh: Shape, vb: Bits)
    requires |vb| >= sh.hi
  {
    forall i :: sh.lo <= i < sh.hi ==> vb[i]
  }

  /** A route to the all-one address itself is stored. */
  ghost predicate HasAllOnesRoute(t: Table)
    requires Sized(t.nodes, t.sh)
  {
    exists k: Ptr :: IsRoute(t, k) && AllOnes(t.sh, t.sh.bits[k])
  }
}
