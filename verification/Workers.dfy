/** The worker loop of al_work_proc: which queues a worker polls, with its 8-bit index. */
module Workers {

  import opened Division

  /** The k-th queue of a worker: lcore, lcore + threads, lcore + 2 * threads and so on. */
  function Own(lcore: nat, threads: nat, k: nat): nat {
    if k == 0 then lcore else Own(lcore, threads, k - 1) + threads
  }

  /** The index of the loop after k steps, in a uint8_t. */
  function Index(lcore: nat, threads: nat, k: nat): (i: nat)
    ensures i < 256
  {
    if k == 0 then lcore % 256 else (Index(lcore, threads, k - 1) + threads) % 256
  }

  /**
   The round of a worker ends after k steps, having polled its own queues below `queues`, once each,
   and no others.
   */
  ghost predicate EndsAfter(lcore: nat, threads: nat, queues: nat, k: nat) {
    && Index(lcore, threads, k) >= queues && Own(lcore, threads, k) >= queues
    && forall j: nat {:trigger Polls(lcore, threads, queues, j)} :: j < k ==> Polls(lcore, threads, queues, j)
  }

  ghost predicate Polls(lcore: nat, threads: nat, queues: nat, j: nat) {
    Index(lcore, threads, j) == Own(lcore, threads, j) < queues
  }

  ghost predicate RoundOk(lcore: nat, threads: nat, queues: nat) {
    exists k: nat :: EndsAfter(lcore, threads, queues, k)
  }

  lemma {:induction false} Grows(lcore: nat, threads: nat, j: nat, k: nat)
    requires j <= k
    ensures Own(lcore, threads, j) <= Own(lcore, threads, k) && (threads > 0 ==> Own(lcore, threads, k) >= k)
    decreases k
  {
    if j < k { Grows(lcore, threads, j, k - 1); } else if k > 0 { Grows(lcore, threads, k - 1, k - 1); }
  }

  lemma {:induction false} NoWrap(lcore: nat, threads: nat, k: nat)
    requires Own(lcore, threads, k) < 256
    ensures Index(lcore, threads, k) == Own(lcore, threads, k)
  {
    if k > 0 { NoWrap(lcore, threads, k - 1); }
  }

  lemma EndsHere(lcore: nat, threads: nat, queues: nat, k: nat)
    requires queues <= Own(lcore, threads, k) < 256 && (k > 0 ==> Own(lcore, threads, k - 1) < queues)
    ensures EndsAfter(lcore, threads, queues, k)
  {
    NoWrap(lcore, threads, k);
    forall j: nat | j < k ensures Polls(lcore, threads, queues, j) {
      Grows(lcore, threads, j, k - 1);
      NoWrap(lcore, threads, j);
    }
  }

  /** The loop has not ended before step k. */
  ghost predicate GoesOn(lcore: nat, threads: nat, queues: nat, k: nat) {
    forall j: nat {:trigger Below(lcore, threads, queues, j)} :: j < k ==> Below(lcore, threads, queues, j)
  }

  ghost predicate Below(lcore: nat, threads: nat, queues: nat, j: nat) {
    Index(lcore, threads, j) < queues
  }

  /** The first k indices of the loop. */
  function Indices(lcore: nat, threads: nat, k: nat): (s: seq<nat>)
    ensures |s| == k && forall j :: 0 <= j < k ==> s[j] == Index(lcore, threads, j)
  {
    if k == 0 then [] else Indices(lcore, threads, k - 1) + [Index(lcore, threads, k - 1)]
  }

  /** The loop has polled these indices, and is at i. */
  ghost predicate Polled(lcore: nat, threads: nat, queues: nat, polled: seq<nat>, i: nat) {
    && i == Index(lcore, threads, |polled|) && polled == Indices(lcore, threads, |polled|)
    && GoesOn(lcore, threads, queues, |polled|)
  }

  lemma PollOne(lcore: nat, threads: nat, queues: nat, polled: seq<nat>, i: nat)
    requires Polled(lcore, threads, queues, polled, i) && i < queues
    ensures Polled(lcore, threads, queues, polled + [i], (i + threads) % 256)
  {
    assert Index(lcore, threads, |polled| + 1) == (i + threads) % 256;
  }

  /** The loop of one worker over the queues: the first `limit` indices it polls, or all if it ends before. */
  method Round(lcore: nat, threads: nat, queues: nat, limit: nat) returns (polled: seq<nat>, i: nat)
    requires lcore < 256
    ensures |polled| <= limit && Polled(lcore, threads, queues, polled, i) && (|polled| < limit ==> i >= queues)
  {
    polled, i := [], lcore;
    while i < queues && |polled| < limit
      invariant |polled| <= limit && Polled(lcore, threads, queues, polled, i)
      decreases limit - |polled|
    {
      PollOne(lcore, threads, queues, polled, i);
      polled, i := polled + [i], (i + threads) % 256;
    }
  }

  /** With no more than 256 queues and workers together, the round of every worker is right. */
  lemma RoundsOk(lcore: nat, threads: nat, queues: nat)
    requires lcore < threads && queues + threads <= 256
    ensures RoundOk(lcore, threads, queues)
  {
    var k := 0;
    while Own(lcore, threads, k) < queues
      invariant Own(lcore, threads, k) < 256 && (k > 0 ==> Own(lcore, threads, k - 1) < queues)
      decreases queues as int - Own(lcore, threads, k)
    {
      k := k + 1;
    }
    EndsHere(lcore, threads, queues, k);
  }

  /** Every queue is in the share of one worker. */
  lemma {:induction false} Owner(q: nat, threads: nat) returns (lcore: nat, k: nat)
    requires threads > 0
    ensures lcore < threads && Own(lcore, threads, k) == q
  {
    if q < threads {
      lcore, k := q, 0;
    } else {
      lcore, k := Owner(q - threads, threads);
      k := k + 1;
    }
  }

  /** And of no other. */
  lemma {:induction false} OneOwner(threads: nat, a: nat, j: nat, b: nat, k: nat)
    requires a < threads && b < threads && Own(a, threads, j) == Own(b, threads, k)
    ensures a == b && j == k
    decreases j + k
  {
    if j > 0 && k > 0 { OneOwner(threads, a, j - 1, b, k - 1); }
  }

  /** With more than 256, the worker that polls the last queue goes on at the front. */
  lemma LastWraps(threads: nat, queues: nat) returns (lcore: nat)
    requires 0 < threads <= 256 && 0 < queues && queues + threads > 256
    ensures lcore < threads && !RoundOk(lcore, threads, queues)
  {
    var m;
    lcore, m := Owner(queues - 1, threads);
    forall k: nat ensures !EndsAfter(lcore, threads, queues, k) { Wrapped(lcore, threads, queues, m, k); }
  }

  lemma Wrapped(lcore: nat, threads: nat, queues: nat, m: nat, k: nat)
    requires 0 < threads <= 256 && 0 < queues && queues + threads > 256 && Own(lcore, threads, m) == queues - 1
    ensures !EndsAfter(lcore, threads, queues, k)
  {
    var n := m + 1;
    assert Index(lcore, threads, n) == (Index(lcore, threads, m) + threads) % 256
        && Own(lcore, threads, n) == queues - 1 + threads;
    if k <= m {
      Grows(lcore, threads, k, m);
    } else {
      assert EndsAfter(lcore, threads, queues, k) ==> Polls(lcore, threads, queues, m);
      assert EndsAfter(lcore, threads, queues, k) && k > n ==> Polls(lcore, threads, queues, n);
    }
  }

  /** Every worker's round is right exactly when queues and workers together are at most 256. */
  lemma AllRoundsOk(threads: nat, queues: nat)
    requires 0 < threads <= 256 && 0 < queues
    ensures (forall lcore :: 0 <= lcore < threads ==> RoundOk(lcore, threads, queues)) <==> queues + threads <= 256
  {
    if queues + threads <= 256 {
      forall lcore | 0 <= lcore < threads ensures RoundOk(lcore, threads, queues) { RoundsOk(lcore, threads, queues); }
    } else {
      var lcore := LastWraps(threads, queues);
    }
  }

  /** Two workers and 255 queues: worker 0 polls the even queues for ever, and never comes to its writes. */
  lemma {:induction false} NeverEnds(k: nat)
    ensures Index(0, 2, k) < 255 && Index(0, 2, k) % 2 == 0
  {
    if k > 0 { NeverEnds(k - 1); }
  }

  // ---------- who polls a queue ----------

  /** The worker's loop comes to index i. */
  ghost predicate ComesTo(lcore: nat, threads: nat, queues: nat, i: nat) {
    exists k: nat :: Index(lcore, threads, k) == i && GoesOn(lcore, threads, queues, k)
  }

  lemma ComesHere(lcore: nat, threads: nat, queues: nat, k: nat)
    requires GoesOn(lcore, threads, queues, k)
    ensures ComesTo(lcore, threads, queues, Index(lcore, threads, k))
  {}

  lemma ComesStart(lcore: nat, threads: nat, queues: nat)
    requires lcore < 256
    ensures ComesTo(lcore, threads, queues, lcore)
  {
    assert Index(lcore, threads, 0) == lcore && GoesOn(lcore, threads, queues, 0);
  }

  lemma ComesNext(lcore: nat, threads: nat, queues: nat, i: nat)
    requires ComesTo(lcore, threads, queues, i) && i < queues
    ensures ComesTo(lcore, threads, queues, (i + threads) % 256)
  {
    var k: nat :| Index(lcore, threads, k) == i && GoesOn(lcore, threads, queues, k);
    assert Index(lcore, threads, k + 1) == (i + threads) % 256 && GoesOn(lcore, threads, queues, k + 1);
  }

  lemma ComesAhead(lcore: nat, threads: nat, queues: nat, i: nat)
    requires ComesTo(lcore, threads, queues, i) && i < queues && i + threads < 256
    ensures ComesTo(lcore, threads, queues, i + threads)
  {
    ComesNext(lcore, threads, queues, i);
    assert (i + threads) % 256 == i + threads;
  }

  /** What keeps the workers apart: no wrap-around, or one that stays within the share. */
  predicate Apart(threads: nat, queues: nat) {
    threads > 0 && (queues + threads <= 256 || 256 % threads == 0)
  }

  /** Every queue is polled by one worker, and by one only. */
  ghost predicate OnePoller(threads: nat, queues: nat) {
    forall i: nat :: i < queues ==> SomePolls(threads, queues, i) && OnePolls(threads, queues, i)
  }

  ghost predicate SomePolls(threads: nat, queues: nat, i: nat) {
    exists a: nat :: a < threads && ComesTo(a, threads, queues, i)
  }

  ghost predicate OnePolls(threads: nat, queues: nat, i: nat) {
    forall a: nat, b: nat ::
        a < threads && b < threads && ComesTo(a, threads, queues, i) && ComesTo(b, threads, queues, i) ==> a == b
  }

  /** The owner of a queue comes to it, wrap-around or not. */
  lemma OwnerComes(lcore: nat, threads: nat, queues: nat, k: nat)
    requires threads > 0 && Own(lcore, threads, k) < queues && Own(lcore, threads, k) < 256
    ensures ComesTo(lcore, threads, queues, Own(lcore, threads, k)) && GoesOn(lcore, threads, queues, k + 1)
  {
    forall j: nat | j < k + 1 ensures Below(lcore, threads, queues, j) {
      Grows(lcore, threads, j, k);
      NoWrap(lcore, threads, j);
    }
    NoWrap(lcore, threads, k);
  }

  lemma {:induction false} OwnRem(lcore: nat, threads: nat, k: nat)
    requires lcore < threads
    ensures Own(lcore, threads, k) == lcore + k * threads && Own(lcore, threads, k) % threads == lcore
  {
    if k > 0 {
      OwnRem(lcore, threads, k - 1);
      assert k * threads == (k - 1) * threads + threads;
    } else {
      assert k * threads == 0;
    }
    AddMultiple(lcore, k, threads);
    Unique(lcore, threads, 0, lcore);
  }

  lemma WrappedRem(threads: nat, i: nat)
    requires 0 < threads <= 256 && 256 % threads == 0 && i + threads >= 256
    ensures (i + threads - 256) % threads == i % threads
  {
    var j, m := i + threads - 256, 256 / threads;
    assert 256 == m * threads;
    AddMultiple(j, m, threads);
    AddMultiple(i, 1, threads);
  }

  lemma Wrap(x: nat)
    requires x < 512
    ensures x % 256 == if x < 256 then x else x - 256
  {}

  /** No other worker's index wraps around into the residue class of queue i. */
  predicate Lone(threads: nat, queues: nat, i: nat)
    requires threads > 0
  {
    256 % threads == 0 || i % threads + 256 >= queues + threads
  }

  lemma ApartLone(threads: nat, queues: nat, i: nat)
    requires Apart(threads, queues)
    ensures Lone(threads, queues, i)
  {}

  /** A step to an index in such a class does not wrap around, or stays in the class. */
  lemma StepLone(threads: nat, queues: nat, i: nat, next: nat)
    requires 0 < threads <= 256 && i < queues && i < 256 && Lone(threads, queues, next)
    requires next == if i + threads < 256 then i + threads else i + threads - 256
    ensures next % threads == i % threads && Lone(threads, queues, i)
  {
    if i + threads < 256 {
      AddMultiple(i, 1, threads);
    } else {
      Unique(next, threads, 0, next);
      assert 256 % threads == 0;
      WrappedRem(threads, i);
    }
  }

  lemma {:induction false} IndexLone(lcore: nat, threads: nat, queues: nat, k: nat)
    requires lcore < threads <= 256 && GoesOn(lcore, threads, queues, k)
    requires Lone(threads, queues, Index(lcore, threads, k))
    ensures Index(lcore, threads, k) % threads == lcore
  {
    if k > 0 {
      var i := Index(lcore, threads, k - 1);
      assert Below(lcore, threads, queues, k - 1);
      Wrap(i + threads);
      StepLone(threads, queues, i, Index(lcore, threads, k));
      IndexLone(lcore, threads, queues, k - 1);
    } else {
      Unique(lcore, threads, 0, lcore);
    }
  }

  /** Whoever comes to such a queue is its owner. */
  lemma ComesRem(lcore: nat, threads: nat, queues: nat, i: nat)
    requires lcore < threads <= 256 && Lone(threads, queues, i) && ComesTo(lcore, threads, queues, i)
    ensures i % threads == lcore
  {
    var k: nat :| Index(lcore, threads, k) == i && GoesOn(lcore, threads, queues, k);
    IndexLone(lcore, threads, queues, k);
  }

  lemma {:induction false} ComesOn(lcore: nat, threads: nat, queues: nat, b: nat, m: nat)
    requires ComesTo(lcore, threads, queues, b) && Own(b, threads, m) < 256 && Own(b, threads, m) < queues
    ensures ComesTo(lcore, threads, queues, Own(b, threads, m))
  {
    if m > 0 {
      var i := Own(b, threads, m - 1);
      ComesOn(lcore, threads, queues, b, m - 1);
      ComesAhead(lcore, threads, queues, i);
    }
  }

  /** The class of queue i begins where the worker that polls queue j wraps around to. */
  lemma Intruder(threads: nat, queues: nat, b: nat) returns (a: nat)
    requires b < threads <= 256 && 256 % threads != 0 && b + 256 < queues + threads
    ensures a < threads && a != b && ComesTo(a, threads, queues, b)
  {
    var m;
    var j := 256 + b - threads;
    a, m := Owner(j, threads);
    WrapsTo(a, threads, queues, m, b);
    OwnRem(a, threads, m);
    if a == b { Whole(threads, m); }
  }

  /** Any other queue is polled by two workers, if it is polled at all. */
  lemma TwoPoll(threads: nat, queues: nat, i: nat) returns (a: nat, b: nat)
    requires 0 < threads <= 256 && i < queues && i < 256 && !Lone(threads, queues, i)
    ensures a < threads && b < threads && a != b
    ensures ComesTo(a, threads, queues, i) && ComesTo(b, threads, queues, i)
  {
    var m;
    b, m := Owner(i, threads);
    OwnRem(b, threads, m);
    OwnerComes(b, threads, queues, m);
    a := Intruder(threads, queues, b);
    ComesOn(a, threads, queues, b, m);
  }

  lemma WrapsTo(lcore: nat, threads: nat, queues: nat, m: nat, i: nat)
    requires 0 < threads <= 256 && Own(lcore, threads, m) < 256 && Own(lcore, threads, m) < queues
    requires i == Own(lcore, threads, m) + threads - 256
    ensures ComesTo(lcore, threads, queues, i)
  {
    OwnerComes(lcore, threads, queues, m);
    NoWrap(lcore, threads, m);
    assert Index(lcore, threads, m + 1) == i;
    ComesHere(lcore, threads, queues, m + 1);
  }

  lemma Whole(threads: nat, m: nat)
    requires threads > 0 && m * threads + threads == 256
    ensures 256 % threads == 0
  {
    assert (m + 1) * threads == 256;
    Unique(256, threads, m + 1, 0);
  }

  /** Which queues below 256 have one worker that polls them, and which have two. */
  lemma OnePollsIff(threads: nat, queues: nat, i: nat)
    requires 0 < threads <= 256 && i < queues && i < 256
    ensures OnePolls(threads, queues, i) <==> Lone(threads, queues, i)
  {
    if Lone(threads, queues, i) {
      forall x: nat | x < threads && ComesTo(x, threads, queues, i) ensures x == i % threads {
        ComesRem(x, threads, queues, i);
      }
    } else {
      var a, b := TwoPoll(threads, queues, i);
    }
  }

  /** A queue is polled by some worker exactly if its number fits into eight bits. */
  lemma SomePollsIff(threads: nat, queues: nat, i: nat)
    requires 0 < threads <= 256 && i < queues
    ensures SomePolls(threads, queues, i) <==> i < 256
  {
    if i < 256 {
      var a, k := Owner(i, threads);
      OwnerComes(a, threads, queues, k);
    }
  }

  /**
   Each queue has exactly one worker that polls it if and only if there are at most 256, and no
   index wraps around or the number of workers divides 256.
   */
  lemma OnePollerIff(threads: nat, queues: nat)
    requires 0 < threads <= 256 && 0 < queues
    ensures OnePoller(threads, queues) <==> queues <= 256 && Apart(threads, queues)
  {
    if queues > 256 {
      SomePollsIff(threads, queues, 256);
    } else if Apart(threads, queues) {
      forall i: nat | i < queues ensures SomePolls(threads, queues, i) && OnePolls(threads, queues, i) {
        SomePollsIff(threads, queues, i);
        OnePollsIff(threads, queues, i);
      }
    } else {
      OnePollsIff(threads, queues, 0);
    }
  }
}
