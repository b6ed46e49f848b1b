/**
 The queue table that al_init_port fills: for each port its hardware queues, its switch queues and
 its kernel queue.
 */
module Queues {

  datatype Kind = Physical | Vport | Kni

  datatype Queue = Queue(port: nat, kind: Kind, id: nat)

  function Entries(port: nat, kind: Kind, n: nat): (s: seq<Queue>)
    ensures |s| == n && forall k :: 0 <= k < n ==> s[k] == Queue(port, kind, k)
  {
    seq(n, k requires k >= 0 => Queue(port, kind, k))
  }

  /** The entries of one port with qcnt hardware queues. */
  function OfPort(port: nat, qcnt: nat, threads: nat): (s: seq<Queue>)
    ensures |s| == qcnt + threads + 1
  {
    Entries(port, Physical, qcnt) + Entries(port, Vport, threads) + [Queue(port, Kni, 0)]
  }

  function Table(qcnts: seq<nat>, threads: nat): seq<Queue> {
    if qcnts == [] then []
    else var p := |qcnts| - 1; Table(qcnts[..p], threads) + OfPort(p, qcnts[p], threads)
  }

  /** The loop of al_init_port, as far as it fills the table. */
  method FillTable(qcnts: seq<nat>, threads: nat) returns (table: seq<Queue>)
    ensures table == Table(qcnts, threads)
  {
    table := [];
    for i := 0 to |qcnts|
      invariant table == Table(qcnts[..i], threads)
    {
      ghost var before := table;
      for k := 0 to qcnts[i]
        invariant table == before + Entries(i, Physical, k)
      {
        table := table + [Queue(i, Physical, k)];
      }
      for k := 0 to threads
        invariant table == before + Entries(i, Physical, qcnts[i]) + Entries(i, Vport, k)
      {
        table := table + [Queue(i, Vport, k)];
      }
      table := table + [Queue(i, Kni, 0)];
      assert qcnts[..i + 1][..i] == qcnts[..i];
      assert table == before + OfPort(i, qcnts[i], threads);
    }
    assert qcnts[..|qcnts|] == qcnts;
  }

  /** Where the entries of a port begin. */
  function Base(qcnts: seq<nat>, threads: nat, port: nat): nat
    requires port <= |qcnts|
  {
    if port == 0 then 0 else Base(qcnts, threads, port - 1) + qcnts[port - 1] + threads + 1
  }

  /** The index of switch queue q of a port. */
  function VportAt(qcnts: seq<nat>, threads: nat, port: nat, q: nat): nat
    requires port < |qcnts|
  {
    Base(qcnts, threads, port) + qcnts[port] + q
  }

  /** The index of hardware queue k of a port, and that of its kernel queue. */
  function PhysicalAt(qcnts: seq<nat>, threads: nat, port: nat, k: nat): nat
    requires port < |qcnts|
  {
    Base(qcnts, threads, port) + k
  }

  function KniAt(qcnts: seq<nat>, threads: nat, port: nat): nat
    requires port < |qcnts|
  {
    Base(qcnts, threads, port) + qcnts[port] + threads
  }

  /** The queues that there are. */
  predicate IsQueue(qcnts: seq<nat>, threads: nat, e: Queue) {
    && e.port < |qcnts|
    && match e.kind
       case Physical => e.id < qcnts[e.port]
       case Vport => e.id < threads
       case Kni => e.id == 0
  }

  /** And their places: port by port, first those of the hardware, then one for each worker, then the kernel's. */
  function PlaceOf(qcnts: seq<nat>, threads: nat, e: Queue): nat
    requires IsQueue(qcnts, threads, e)
  {
    match e.kind
    case Physical => PhysicalAt(qcnts, threads, e.port, e.id)
    case Vport => VportAt(qcnts, threads, e.port, e.id)
    case Kni => KniAt(qcnts, threads, e.port)
  }

  lemma {:induction false} BasePrefix(qcnts: seq<nat>, threads: nat, n: nat, port: nat)
    requires port <= n <= |qcnts|
    ensures Base(qcnts[..n], threads, port) == Base(qcnts, threads, port)
  {
    if port > 0 { BasePrefix(qcnts, threads, n, port - 1); }
  }

  lemma {:induction false} TableSize(qcnts: seq<nat>, threads: nat)
    ensures |Table(qcnts, threads)| == Base(qcnts, threads, |qcnts|)
  {
    if qcnts != [] {
      var p := |qcnts| - 1;
      TableSize(qcnts[..p], threads);
      BasePrefix(qcnts, threads, p, p);
    }
  }

  lemma PlacePrefix(qcnts: seq<nat>, threads: nat, n: nat, e: Queue)
    requires e.port < n <= |qcnts| && IsQueue(qcnts, threads, e)
    ensures IsQueue(qcnts[..n], threads, e)
    ensures PlaceOf(qcnts[..n], threads, e) == PlaceOf(qcnts, threads, e)
  {
    BasePrefix(qcnts, threads, n, e.port);
  }

  lemma LastPort(qcnts: seq<nat>, threads: nat, j: nat)
    requires qcnts != [] && j < qcnts[|qcnts| - 1] + threads + 1
    ensures var p := |qcnts| - 1; var e := OfPort(p, qcnts[p], threads)[j];
      IsQueue(qcnts, threads, e) && PlaceOf(qcnts, threads, e) == Base(qcnts, threads, p) + j
  {}

  /** Every entry is one of the queues there are, at its place. */
  lemma {:induction false} EntryAt(qcnts: seq<nat>, threads: nat, i: nat)
    requires i < |Table(qcnts, threads)|
    ensures var e := Table(qcnts, threads)[i]; IsQueue(qcnts, threads, e) && PlaceOf(qcnts, threads, e) == i
  {
    var p := |qcnts| - 1;
    var front := Table(qcnts[..p], threads);
    TableSize(qcnts[..p], threads);
    BasePrefix(qcnts, threads, p, p);
    if i < |front| {
      EntryAt(qcnts[..p], threads, i);
      assert IsQueue(qcnts, threads, front[i]);
      PlacePrefix(qcnts, threads, p, front[i]);
    } else {
      LastPort(qcnts, threads, i - |front|);
    }
  }

  /** And every queue there is, is in the table, at its place. */
  lemma {:induction false} QueueThere(qcnts: seq<nat>, threads: nat, e: Queue)
    requires IsQueue(qcnts, threads, e)
    ensures var i := PlaceOf(qcnts, threads, e);
        i < |Table(qcnts, threads)| && Table(qcnts, threads)[i] == e
  {
    var p := |qcnts| - 1;
    TableSize(qcnts[..p], threads);
    BasePrefix(qcnts, threads, p, p);
    if e.port < p {
      PlacePrefix(qcnts, threads, p, e);
      QueueThere(qcnts[..p], threads, e);
    } else {
      InLastPort(qcnts, threads, e);
    }
  }

  lemma InLastPort(qcnts: seq<nat>, threads: nat, e: Queue)
    requires IsQueue(qcnts, threads, e) && e.port == |qcnts| - 1
    ensures var p := |qcnts| - 1; var j := PlaceOf(qcnts, threads, e) - Base(qcnts, threads, p);
      0 <= j < qcnts[p] + threads + 1 && OfPort(p, qcnts[p], threads)[j] == e
  {}

  /** A queue of the hardware, of the switch or of the kernel has one entry, and the table has no others. */
  lemma OneEntry(qcnts: seq<nat>, threads: nat, i: nat, e: Queue)
    ensures i < |Table(qcnts, threads)| && Table(qcnts, threads)[i] == e <==>
      IsQueue(qcnts, threads, e) && PlaceOf(qcnts, threads, e) == i
  {
    if i < |Table(qcnts, threads)| { EntryAt(qcnts, threads, i); }
    if IsQueue(qcnts, threads, e) { QueueThere(qcnts, threads, e); }
  }

  /** Two ports, of two and of one hardware queue, and one worker. */
  lemma TableExample()
    ensures Table([2, 1], 1) == [Queue(0, Physical, 0), Queue(0, Physical, 1), Queue(0, Vport, 0), Queue(0, Kni, 0),
        Queue(1, Physical, 0), Queue(1, Vport, 0), Queue(1, Kni, 0)]
  {
    assert [2, 1][..1] == [2] && [2][..0] == [];
    assert OfPort(0, 2, 1) == [Queue(0, Physical, 0), Queue(0, Physical, 1), Queue(0, Vport, 0), Queue(0, Kni, 0)];
    assert OfPort(1, 1, 1) == [Queue(1, Physical, 0), Queue(1, Vport, 0), Queue(1, Kni, 0)];
    assert Table([2], 1) == OfPort(0, 2, 1);
  }
}
