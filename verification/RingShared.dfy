/** A ring with two consumers: a run in which both take from it. */
module RingShared {

  import opened Buffers
  import opened Queues
  import opened Rings
  import opened RingOwners
  import opened Workers

  /** A run, and the state it has come to. */
  ghost predicate At(c: Config, states: seq<State>, moves: seq<Move>, s: State) {
    Proper(c, states, moves) && states[|moves|] == s
  }

  lemma Goes(c: Config, states: seq<State>, moves: seq<Move>, m: Move) returns (states': seq<State>, moves': seq<Move>)
    requires Proper(c, states, moves) && Legal(c, states[|moves|], m.w, m.choice) && !m.choice.verdict.HandOver?
    ensures At(c, states', moves', Next(c, states[|moves|], m.w, m.choice)) && states <= states' && moves <= moves'
    ensures |moves'| == |moves| + 1 && moves'[|moves|] == m
  {
    var s := Next(c, states[|moves|], m.w, m.choice);
    RunMore(c, states, moves, m, s);
    states', moves' := states + [s], moves + [m];
  }

  ghost predicate Idle(x: Worker) {
    x.call.NoCall? && x.process.NoProcess? && x.write.NoWrite?
  }

  /** Worker t has received two buffers and is about to look at the thread rings. */
  lemma Receives(c: Config, states: seq<State>, moves: seq<Move>, t: nat, bufs: seq<Buffer>)
      returns (states': seq<State>, moves': seq<Move>)
    requires Proper(c, states, moves) && t < |states[|moves|].workers| && t < |c.table| && c.table[t].kind != Vport
    requires states[|moves|].workers[t].round == Poll(t) && Idle(states[|moves|].workers[t]) && 0 < |bufs| <= RX_BURST
    ensures Proper(c, states', moves') && states <= states' && moves <= moves'
    ensures var s, s' := states[|moves|], states'[|moves'|];
      && s'.rings == s.rings && |s'.workers| == |s.workers|
      && (forall v :: 0 <= v < |s.workers| && v != t ==> s'.workers[v] == s.workers[v])
      && s'.workers[t].write == Write(c.table[t].port, c.table[t].kind == Physical, 0, bufs)
      && s'.workers[t].call.NoCall? && s'.workers[t].process.NoProcess?
  {
    states', moves' := Goes(c, states, moves, Move(t, Choice(0, bufs, Discard)));
  }

  /** The thread rings are empty: the buffers are processed. */
  lemma {:induction false} PassesRings(c: Config, states: seq<State>, moves: seq<Move>, t: nat)
      returns (states': seq<State>, moves': seq<Move>)
    requires Proper(c, states, moves) && t < |states[|moves|].workers|
    requires var x := states[|moves|].workers[t]; x.write.Write? && x.call.NoCall? && x.process.NoProcess?
    requires forall k: nat :: Content(states[|moves|], ThreadRing(t, k)) == []
    ensures Proper(c, states', moves') && states <= states' && moves <= moves'
    ensures var s, s' := states[|moves|], states'[|moves'|];
      && s'.rings == s.rings && |s'.workers| == |s.workers|
      && (forall v :: 0 <= v < |s.workers| && v != t ==> s'.workers[v] == s.workers[v])
      && var w := s.workers[t].write;
      s'.workers[t].process == Process(w.port, w.toKernel, true, w.buf, []) && s'.workers[t].call.NoCall?
    decreases c.threads - states[|moves|].workers[t].write.k
  {
    var v := states[|moves|].workers[t].write;
    states', moves' := Goes(c, states, moves, Move(t, Choice(0, [], Discard)));
    if v.k < c.threads { states', moves' := PassesRings(c, states', moves', t); }
  }

  /** Worker t forwards one buffer to its switch ring. */
  lemma Feeds(c: Config, states: seq<State>, moves: seq<Move>, t: nat, p: nat)
      returns (states': seq<State>, moves': seq<Move>)
    requires Proper(c, states, moves) && t < |states[|moves|].workers| && p < |c.qcnts|
    requires var x := states[|moves|].workers[t]; x.call.NoCall? && x.process.Process? && x.process.todo != []
    ensures Proper(c, states', moves') && states <= states' && moves <= moves'
    ensures var s, s', r := states[|moves|], states'[|moves'|], SwitchRing(p, t);
      var q := s.workers[t].process;
      && s'.rings == s.rings[r := Content(s, r) + [q.todo[0]]] && |s'.workers| == |s.workers|
      && (forall v :: 0 <= v < |s.workers| && v != t ==> s'.workers[v] == s.workers[v])
      && s'.workers[t] == s.workers[t].(process := q.(todo := q.todo[1..]))
  {
    var one, b := Choice(1, [], Forward(p, false)), states[|moves|].workers[t].process.todo[0];
    assert [b][..1] == [b] && [b][1..] == [];
    states', moves' := Goes(c, states, moves, Move(t, one));
    states', moves' := Goes(c, states', moves', Move(t, one));
    states', moves' := Goes(c, states', moves', Move(t, one));
  }

  /** A worker that polls the queue of a switch ring with something in it takes from it. */
  lemma Takes(c: Config, states: seq<State>, moves: seq<Move>, w: nat, i: nat, r: Ring)
      returns (states': seq<State>, moves': seq<Move>)
    requires Proper(c, states, moves) && w < |states[|moves|].workers| && i < |c.table| && r.SwitchRing?
    requires states[|moves|].workers[w].round == Poll(i) && Idle(states[|moves|].workers[w])
    requires c.table[i] == Queue(r.port, Vport, r.of)
    requires r in states[|moves|].rings && 0 < |states[|moves|].rings[r]| <= RX_BURST
    ensures Proper(c, states', moves') && states <= states' && moves <= moves'
    ensures |moves'| == |moves| + 1 && moves'[|moves|].w == w && TakesAt(states', |moves|, r)
    ensures var s, s' := states[|moves|], states'[|moves'|];
      && s'.rings == s.rings[r := []] && |s'.workers| == |s.workers|
      && (forall v :: 0 <= v < |s.workers| && v != w ==> s'.workers[v] == s.workers[v])
  {
    states', moves' := Goes(c, states, moves, Move(w, Choice(0, [], Discard)));
  }

  /** Two workers that come to the queue of a ring are poised, and the ring's producer has two buffers to forward. */
  lemma Loaded(c: Config, s: State, r: Ring, a: nat, b: nat, bufs: seq<Buffer>)
      returns (states: seq<State>, moves: seq<Move>)
    requires ConfigOk(c) && Init(c, s) && r.SwitchRing? && Created(c, r) && |bufs| == 2
    requires a < c.threads && b < c.threads && a != b && r.of != a && r.of != b
    requires Consumes(c, a, r) && Consumes(c, b, r) && r.of < |c.table| && c.table[r.of].kind != Vport
    ensures Proper(c, states, moves)
    ensures var s', i := states[|moves|], VportAt(c.qcnts, c.threads, r.port, r.of);
      && |s'.workers| == c.threads && r in s'.rings && s'.rings[r] == []
      && s'.workers[a] == s.workers[a].(round := Poll(i)) && s'.workers[b] == s.workers[b].(round := Poll(i))
      && s'.workers[r.of].process.Process? && s'.workers[r.of].process.todo == bufs && s'.workers[r.of].call.NoCall?
  {
    var i := VportAt(c.qcnts, c.threads, r.port, r.of);
    states, moves := BothPoised(c, s, a, b, i);
    states, moves := Receives(c, states, moves, r.of, bufs);
    states, moves := PassesRings(c, states, moves, r.of);
  }

  /**
   If two workers come to the queue of a switch ring, other than the ring's producer, whose first
   queue is one of the hardware, then in some run both take from the ring.
   */
  lemma BothTake(c: Config, s: State, r: Ring, a: nat, b: nat, bufs: seq<Buffer>)
      returns (states: seq<State>, moves: seq<Move>, i: nat, j: nat)
    requires ConfigOk(c) && Init(c, s) && r.SwitchRing? && Created(c, r) && |bufs| == 2
    requires a < c.threads && b < c.threads && a != b && r.of != a && r.of != b
    requires Consumes(c, a, r) && Consumes(c, b, r) && r.of < |c.table| && c.table[r.of].kind != Vport
    requires var n := VportAt(c.qcnts, c.threads, r.port, r.of);
      n < |c.table| && c.table[n] == Queue(r.port, Vport, r.of)
    ensures Proper(c, states, moves) && i < |moves| && j < |moves| && moves[i].w == a && moves[j].w == b
    ensures TakesAt(states, i, r) && TakesAt(states, j, r)
  {
    var n := VportAt(c.qcnts, c.threads, r.port, r.of);
    states, moves := Loaded(c, s, r, a, b, bufs);
    states, moves := Feeds(c, states, moves, r.of, r.port);
    i := |moves|;
    states, moves := Takes(c, states, moves, a, n, r);
    states, moves := Feeds(c, states, moves, r.of, r.port);
    j := |moves|;
    states, moves := Takes(c, states, moves, b, n, r);
  }

  /**
   Three workers and two ports of 1 and 246 hardware queues, 255 queues in all: in some run workers
   1 and 2 both take from the first switch ring.
   */
  lemma TwoConsumers(c: Config, s: State, bufs: seq<Buffer>)
      returns (states: seq<State>, moves: seq<Move>, i: nat, j: nat)
    requires c.threads == 3 && c.qcnts == [1, 246] && c.table == Table(c.qcnts, 3) && Init(c, s) && |bufs| == 2
    ensures Proper(c, states, moves) && i < |moves| && j < |moves| && moves[i].w == 1 && moves[j].w == 2
    ensures TakesAt(states, i, SwitchRing(0, 0)) && TakesAt(states, j, SwitchRing(0, 0))
  {
    FilledOk(c);
    TableSize(c.qcnts, 3);
    assert Base(c.qcnts, 3, 0) == 0 && Base(c.qcnts, 3, 1) == 5 && Base(c.qcnts, 3, 2) == 255;
    assert VportAt(c.qcnts, 3, 0, 0) == 1;
    ComesStart(1, 3, 255);
    OwnRem(2, 3, 84);
    WrapsTo(2, 3, 255, 84, 1);
    QueueThere(c.qcnts, 3, Queue(0, Vport, 0));
    FirstHardware(c.qcnts, 3);
    states, moves, i, j := BothTake(c, s, SwitchRing(0, 0), 1, 2, bufs);
  }

  lemma {:induction false} FirstHardware(qcnts: seq<nat>, threads: nat)
    requires qcnts != [] && qcnts[0] > 0
    ensures |Table(qcnts, threads)| > 0 && Table(qcnts, threads)[0] == Queue(0, Physical, 0)
  {
    var p := |qcnts| - 1;
    if p > 0 { FirstHardware(qcnts[..p], threads); }
  }
}
