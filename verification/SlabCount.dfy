/** The counters: free pages, and used and total chunks of every class. */
module SlabCount {

  import opened SlabLists
  import opened SlabPages
  import opened SlabTake
  import opened SlabGive
  import opened SlabChunks

  function Sum(w: seq<nat>): nat {
    if w == [] then 0 else Sum(w[..|w| - 1]) + w[|w| - 1]
  }

  lemma {:induction false} SumSet(w: seq<nat>, k: nat, x: nat)
    requires k < |w|
    ensures Sum(w[k := x]) + w[k] == Sum(w) + x
  {
    var l := |w| - 1;
    if k == l {
      assert w[k := x][..l] == w[..l];
    } else {
      SumSet(w[..l], k, x);
      assert w[k := x][..l] == w[..l][k := x];
    }
  }

  /** n entries set to x. */
  function SetAll(w: seq<nat>, k: nat, n: nat, x: nat): (r: seq<nat>)
    requires k + n <= |w|
    ensures |r| == |w| && forall j :: 0 <= j < |w| ==> r[j] == if k <= j < k + n then x else w[j]
  {
    if n == 0 then w else SetAll(w, k, n - 1, x)[k + n - 1 := x]
  }

  lemma {:induction false} SumSetAll(w: seq<nat>, k: nat, n: nat, x: nat, y: nat)
    requires k + n <= |w| && forall j :: k <= j < k + n ==> w[j] == y
    ensures Sum(SetAll(w, k, n, x)) + n * y == Sum(w) + n * x
  {
    if n > 0 {
      SumSetAll(w, k, n - 1, x, y);
      SumSet(SetAll(w, k, n - 1, x), k + n - 1, x);
      assert n * y == (n - 1) * y + y && n * x == (n - 1) * x + x;
    }
  }

  function Ones(bits: seq<bool>): nat {
    if bits == [] then 0 else Ones(bits[..|bits| - 1]) + if bits[|bits| - 1] then 1 else 0
  }

  lemma {:induction false} OnesSet(bits: seq<bool>, i: nat, x: bool)
    requires i < |bits|
    ensures Ones(bits[i := x]) + (if bits[i] then 1 else 0) == Ones(bits) + if x then 1 else 0
  {
    var l := |bits| - 1;
    if i == l {
      assert bits[i := x][..l] == bits[..l];
    } else {
      OnesSet(bits[..l], i, x);
      assert bits[i := x][..l] == bits[..l][i := x];
    }
  }

  lemma {:induction false} NoOnes(bits: seq<bool>)
    requires true !in bits
    ensures Ones(bits) == 0
  {
    if bits != [] { NoOnes(bits[..|bits| - 1]); }
  }

  // ---------- what is counted ----------

  ghost function FreeIn(r: Runs): (w: seq<nat>)
    ensures |w| == |r.kind|
  {
    seq(|r.kind|, k requires 0 <= k < |r.kind| => if r.kind[k] == Free then 1 else 0)
  }

  ghost function UsedIn(p: Pool, r: Runs, s: nat): (w: seq<nat>)
    requires |p.slab| == |r.kind|
    ensures |w| == |r.kind|
  {
    seq(|r.kind|, k requires 0 <= k < |r.kind| => if r.kind[k] == Slab(s) then Ones(Map(p.slab[k])) else 0)
  }

  ghost function AllIn(r: Runs, s: nat): (w: seq<nat>)
    ensures |w| == |r.kind|
  {
    seq(|r.kind|, k requires 0 <= k < |r.kind| => if r.kind[k] == Slab(s) then PerPage(s) else 0)
  }

  /** The counters of class s. */
  ghost predicate CountsOk(p: Pool, r: Runs, used: seq<nat>, total: seq<nat>, s: nat)
    requires |p.slab| == |r.kind| && |used| == |total| == CLASSES
  {
    s < CLASSES ==> used[s] == Sum(UsedIn(p, r, s)) && total[s] == Sum(AllIn(r, s))
  }

  ghost predicate Counted(p: Pool, r: Runs, pfree: nat, used: seq<nat>, total: seq<nat>) {
    && |p.slab| == |r.kind| && |used| == |total| == CLASSES && pfree == Sum(FreeIn(r))
    && (forall s: nat {:trigger CountsOk(p, r, used, total, s)} :: CountsOk(p, r, used, total, s))
  }

  /** The same pages free, but for n more or fewer at k. */
  lemma FreeBy(r: Runs, r': Runs, k: nat, n: nat, more: bool)
    requires |r'.kind| == |r.kind| && k + n <= |r.kind|
    requires forall j :: 0 <= j < |r.kind| ==>
        if k <= j < k + n then (r'.kind[j] == Free <==> more) && (r.kind[j] == Free <==>
        !more) else (r'.kind[j] == Free <==> r.kind[j] == Free)
    ensures if more then Sum(FreeIn(r')) == Sum(FreeIn(r)) + n else Sum(FreeIn(r')) + n == Sum(FreeIn(r))
  {
    var x, y := if more then 1 else 0, if more then 0 else 1;
    assert FreeIn(r') == SetAll(FreeIn(r), k, n, x);
    SumSetAll(FreeIn(r), k, n, x, y);
  }

  /** Class s counts the same pages, with the same bitmaps. */
  lemma SameClass(p: Pool, r: Runs, p': Pool, r': Runs, s: nat)
    requires |p.slab| == |r.kind| == |r'.kind| == |p'.slab|
    requires forall j :: 0 <= j < |r.kind| ==>
        (r'.kind[j] == Slab(s) <==> r.kind[j] == Slab(s))
        && (r.kind[j] == Slab(s) ==> Map(p'.slab[j]) == Map(p.slab[j]))
    ensures Sum(UsedIn(p', r', s)) == Sum(UsedIn(p, r, s)) && Sum(AllIn(r', s)) == Sum(AllIn(r, s))
  {
    assert UsedIn(p', r', s) == UsedIn(p, r, s);
    assert AllIn(r', s) == AllIn(r, s);
  }

  /** Class s counts the same but for page k. */
  lemma ClassBut(p: Pool, r: Runs, p': Pool, r': Runs, s: nat, k: nat)
    requires |p.slab| == |r.kind| == |r'.kind| == |p'.slab| && k < |r.kind|
    requires forall j :: 0 <= j < |r.kind| && j != k ==>
        (r'.kind[j] == Slab(s) <==> r.kind[j] == Slab(s))
        && (r.kind[j] == Slab(s) ==> Map(p'.slab[j]) == Map(p.slab[j]))
    ensures Sum(UsedIn(p', r', s)) + UsedIn(p, r, s)[k] == Sum(UsedIn(p, r, s)) + UsedIn(p', r', s)[k]
    ensures Sum(AllIn(r', s)) + AllIn(r, s)[k] == Sum(AllIn(r, s)) + AllIn(r', s)[k]
  {
    assert UsedIn(p', r', s) == UsedIn(p, r, s)[k := UsedIn(p', r', s)[k]];
    SumSet(UsedIn(p, r, s), k, UsedIn(p', r', s)[k]);
    assert AllIn(r', s) == AllIn(r, s)[k := AllIn(r', s)[k]];
    SumSet(AllIn(r, s), k, AllIn(r', s)[k]);
  }

  lemma TookKinds(p: Pool, g: Lists, r: Runs, k: nat, n: nat, p': Pool, g': Lists, j: nat)
    requires TookPages(p, g, r, k, n, p', g') && j < |p.slab|
    ensures k + n <= |p.slab| && TakenRuns(r, k, n).kind[j] == (if k <= j < k + n then Whole else r.kind[j])
    ensures (k <= j < k + n ==> r.kind[j] == Free)
    ensures r.kind[j].Slab? ==> p'.slab[j] == p.slab[j]
  {
    assert RunOk(r, k) && SameRun(r, k, j) && TakenCell(p, g, r, k, n, p', g', j);
  }

  /** Taking pages takes them from the free ones, and from no class. */
  lemma TookCounted(p: Pool, g: Lists, r: Runs, k: nat, n: nat, p': Pool, g': Lists, pfree: nat, used: seq<nat>,
      total: seq<nat>)
    requires TookPages(p, g, r, k, n, p', g') && Counted(p, r, pfree, used, total)
    ensures pfree >= n && Counted(p', TakenRuns(r, k, n), pfree - n, used, total)
  {
    var r' := TakenRuns(r, k, n);
    forall j: nat | j < |p.slab|
      ensures k + n <= |p.slab| && r'.kind[j] == (if k <= j < k + n then Whole else r.kind[j])
      ensures (k <= j < k + n ==> r.kind[j] == Free) && (r.kind[j].Slab? ==> p'.slab[j] == p.slab[j])
    {
      TookKinds(p, g, r, k, n, p', g', j);
    }
    assert k < |p.slab|;
    FreeBy(r, r', k, n, false);
    forall s: nat ensures CountsOk(p', r', used, total, s) {
      assert CountsOk(p, r, used, total, s);
      SameClass(p, r, p', r', s);
    }
  }

  /** A page cut into chunks of class s adds them, one in use. */
  lemma CutCounted(p: Pool, r: Runs, k: nat, s: nat, p': Pool, pfree: nat, used: seq<nat>, total: seq<nat>)
    requires SizedRuns(r, |p.slab|) && k < |p.slab| && r.kind[k] == Whole && s < CLASSES
    requires p'.slab == p.slab[k := NewWord(s)]
    requires Counted(p, r, pfree, used, total)
    ensures Counted(p', Painted(r, k, 1, Slab(s)), pfree, used[s := used[s] + 1], total[s := total[s] + PerPage(s)])
  {
    var r' := Painted(r, k, 1, Slab(s));
    assert FreeIn(r') == FreeIn(r);
    NewOnes(s);
    var u, a := used[s := used[s] + 1], total[s := total[s] + PerPage(s)];
    forall t: nat ensures CountsOk(p', r', u, a, t) {
      assert CountsOk(p, r, used, total, t);
      ClassBut(p, r, p', r', t, k);
    }
  }

  lemma NewOnes(s: nat)
    requires s < CLASSES
    ensures Ones(Map(NewWord(s))) == 1
  {
    var m := Map(NewWord(s));
    assert true !in m[0 := false];
    NoOnes(m[0 := false]);
    OnesSet(m[0 := false], 0, true);
    assert m[0 := false][0 := true] == m;
  }

  /** One chunk more in use. */
  lemma SetCounted(p: Pool, r: Runs, k: nat, s: nat, i: nat, p': Pool, pfree: nat, used: seq<nat>, total: seq<nat>)
    requires SizedRuns(r, |p.slab|) && k < |p.slab| && r.kind[k] == Slab(s) && s < CLASSES
    requires (p.slab[k].Bits? || p.slab[k].Chunks?)
    requires i < |Map(p.slab[k])| && !Map(p.slab[k])[i]
    requires p'.slab == p.slab[k := WithMap(p.slab[k], Map(p.slab[k])[i := true])]
    requires Counted(p, r, pfree, used, total)
    ensures Counted(p', r, pfree, used[s := used[s] + 1], total)
  {
    OnesSet(Map(p.slab[k]), i, true);
    var u := used[s := used[s] + 1];
    forall t: nat ensures CountsOk(p', r, u, total, t) {
      assert CountsOk(p, r, used, total, t);
      ClassBut(p, r, p', r, t, k);
    }
  }

  /** One chunk less in use. */
  lemma ClearCounted(p: Pool, r: Runs, k: nat, s: nat, i: nat, p': Pool, pfree: nat, used: seq<nat>, total: seq<nat>)
    requires SizedRuns(r, |p.slab|) && k < |p.slab| && r.kind[k] == Slab(s) && s < CLASSES
    requires (p.slab[k].Bits? || p.slab[k].Chunks?)
    requires i < |Map(p.slab[k])| && Map(p.slab[k])[i]
    requires p'.slab == p.slab[k := WithMap(p.slab[k], Map(p.slab[k])[i := false])]
    requires Counted(p, r, pfree, used, total)
    ensures used[s] > 0 && Counted(p', r, pfree, used[s := used[s] - 1], total)
  {
    OnesSet(Map(p.slab[k]), i, false);
    assert CountsOk(p, r, used, total, s);
    ClassBut(p, r, p', r, s, k);
    var u := used[s := used[s] - 1];
    forall t: nat ensures CountsOk(p', r, u, total, t) {
      assert CountsOk(p, r, used, total, t);
      ClassBut(p, r, p', r, t, k);
    }
  }

  /** What freeing the run at k does to the kinds of pages. */
  ghost predicate FreedKinds(p: Pool, r: Runs, k: nat, p': Pool, j: nat)
    requires |r.head| == |r.size| == |r.kind| == |p.slab| == |p'.slab| && k < |r.kind| && Low(r, k) <= High(r, k)
  {
    j < |p.slab| ==>
      if k <= j < k + r.size[k] then r.kind[j] == r.kind[k] && Freed(r, k).kind[j] == Free
      else Freed(r, k).kind[j] == r.kind[j] && (r.kind[j].Slab? ==> p'.slab[j] == p.slab[j])
  }

  ghost predicate FreedRun(p: Pool, r: Runs, k: nat, p': Pool) {
    && |r.head| == |r.size| == |r.kind| == |p.slab| == |p'.slab| && k < |r.kind| && Low(r, k) <= High(r, k)
    && k + r.size[k] <= |r.kind| && r.kind[k] != Free
    && forall j: nat {:trigger FreedKinds(p, r, k, p', j)} :: FreedKinds(p, r, k, p', j)
  }

  lemma FreedFacts(p: Pool, r: Runs, k: nat, p': Pool)
    requires FreedRun(p, r, k, p')
    ensures forall j :: 0 <= j < |r.kind| && k <= j < k + r.size[k] ==>
        r.kind[j] == r.kind[k] && Freed(r, k).kind[j] == Free
    ensures forall j :: 0 <= j < |r.kind| && !(k <= j < k + r.size[k]) ==>
        Freed(r, k).kind[j] == r.kind[j] && (r.kind[j].Slab? ==> p'.slab[j] == p.slab[j])
  {
    forall j | 0 <= j < |r.kind|
      ensures (if k <= j < k + r.size[k] then r.kind[j] == r.kind[k] && Freed(r, k).kind[j] == Free
               else Freed(r, k).kind[j] == r.kind[j] && (r.kind[j].Slab? ==> p'.slab[j] == p.slab[j]))
    {
      assert FreedKinds(p, r, k, p', j);
    }
  }

  /** A run of whole pages freed. */
  lemma WholeCounted(p: Pool, r: Runs, k: nat, p': Pool, pfree: nat, used: seq<nat>, total: seq<nat>)
    requires FreedRun(p, r, k, p') && r.kind[k] == Whole && Counted(p, r, pfree, used, total)
    ensures Counted(p', Freed(r, k), pfree + r.size[k], used, total)
  {
    var r' := Freed(r, k);
    FreedFacts(p, r, k, p');
    FreeBy(r, r', k, r.size[k], true);
    forall s: nat ensures CountsOk(p', r', used, total, s) {
      assert CountsOk(p, r, used, total, s);
      SameClass(p, r, p', r', s);
    }
  }

  lemma LastChunk(bits: seq<bool>, i: nat)
    requires i < |bits| && bits[i] && true !in bits[i := false]
    ensures Ones(bits) == 1
  {
    NoOnes(bits[i := false]);
    OnesSet(bits, i, false);
  }

  /** A page freed with the last of its chunks. */
  lemma PageCounted(p: Pool, r: Runs, k: nat, s: nat, i: nat, p': Pool, pfree: nat, used: seq<nat>, total: seq<nat>)
    requires FreedRun(p, r, k, p') && r.kind[k] == Slab(s) && r.size[k] == 1 && s < CLASSES
    requires Counted(p, r, pfree, used, total)
    requires WordOk(p.slab[k], s) && i < PerPage(s) && Map(p.slab[k])[i] && true !in Map(p.slab[k])[i := false]
    ensures used[s] > 0 && total[s] >= PerPage(s)
    ensures Counted(p', Freed(r, k), pfree + 1, used[s := used[s] - 1], total[s := total[s] - PerPage(s)])
  {
    var r' := Freed(r, k);
    FreedFacts(p, r, k, p');
    FreeBy(r, r', k, 1, true);
    LastChunk(Map(p.slab[k]), i);
    assert CountsOk(p, r, used, total, s);
    ClassBut(p, r, p', r', s, k);
    var u, a := used[s := used[s] - 1], total[s := total[s] - PerPage(s)];
    forall t: nat ensures CountsOk(p', r', u, a, t) {
      assert CountsOk(p, r, used, total, t);
      if t != s { SameClass(p, r, p', r', t); }
    }
  }
}
