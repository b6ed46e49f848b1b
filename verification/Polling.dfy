/** Which workers read which queue of the hardware, the switch and the kernel: the queue table and the loop together. */
module Polling {

  import opened Queues
  import opened Workers

  /** Worker w comes to an entry of the table for queue e. */
  ghost predicate Reads(qcnts: seq<nat>, threads: nat, w: nat, e: Queue) {
    exists i: nat :: i < |Table(qcnts, threads)| && Table(qcnts, threads)[i] == e
        && ComesTo(w, threads, |Table(qcnts, threads)|, i)
  }

  ghost predicate ReadByOne(qcnts: seq<nat>, threads: nat, e: Queue) {
    && (exists a: nat :: a < threads && Reads(qcnts, threads, a, e))
    && (forall a: nat, b: nat ::
        a < threads && b < threads && Reads(qcnts, threads, a, e) && Reads(qcnts, threads, b, e) ==> a == b)
  }

  lemma ReadsAt(qcnts: seq<nat>, threads: nat, w: nat, e: Queue)
    requires IsQueue(qcnts, threads, e)
    ensures var i := PlaceOf(qcnts, threads, e);
      i < |Table(qcnts, threads)| && (Reads(qcnts, threads, w, e) <==> ComesTo(w, threads, |Table(qcnts, threads)|, i))
  {
    var i := PlaceOf(qcnts, threads, e);
    OneEntry(qcnts, threads, i, e);
    if Reads(qcnts, threads, w, e) {
      var j: nat :| j < |Table(qcnts, threads)| && Table(qcnts, threads)[j] == e
        && ComesTo(w, threads, |Table(qcnts, threads)|, j);
      OneEntry(qcnts, threads, j, e);
    }
  }

  /** Queue by queue. */
  lemma ReadByOneIff(qcnts: seq<nat>, threads: nat, e: Queue)
    requires IsQueue(qcnts, threads, e)
    ensures var n, i := |Table(qcnts, threads)|, PlaceOf(qcnts, threads, e);
      ReadByOne(qcnts, threads, e) <==> SomePolls(threads, n, i) && OnePolls(threads, n, i)
  {
    forall w: nat ensures
      Reads(qcnts, threads, w, e) <==>
        ComesTo(w, threads, |Table(qcnts, threads)|, PlaceOf(qcnts, threads, e))
    {
      ReadsAt(qcnts, threads, w, e);
    }
  }

  /**
   Each queue of the hardware, of the switch and of the kernel is read by exactly one worker if and
   only if the table has at most 256 entries, and together with the workers there are at most 256 or
   the number of workers divides 256.
   */
  lemma EachReadByOneIff(qcnts: seq<nat>, threads: nat)
    requires 0 < threads <= 256
    ensures (forall e: Queue :: IsQueue(qcnts, threads, e) ==> ReadByOne(qcnts, threads, e)) <==>
      var n := |Table(qcnts, threads)|; n <= 256 && (n + threads <= 256 || 256 % threads == 0)
  {
    var n := |Table(qcnts, threads)|;
    if n > 0 { OnePollerIff(threads, n); }
    if forall e: Queue :: IsQueue(qcnts, threads, e) ==> ReadByOne(qcnts, threads, e) {
      forall i: nat | i < n ensures SomePolls(threads, n, i) && OnePolls(threads, n, i) {
        EntryAt(qcnts, threads, i);
        ReadByOneIff(qcnts, threads, Table(qcnts, threads)[i]);
      }
    } else {
      var e: Queue :| IsQueue(qcnts, threads, e) && !ReadByOne(qcnts, threads, e);
      ReadByOneIff(qcnts, threads, e);
      QueueThere(qcnts, threads, e);
    }
  }
}
