/** Between two rounds of polling a worker writes to the hardware, the switch and the kernel of every port, in order. */
module RingFlush {

  import opened Queues
  import opened Rings
  import opened RingSteps

  /** Worker x is in no call. */
  ghost predicate Idle(x: Worker) {
    x.call.NoCall? && x.process.NoProcess? && x.write.NoWrite?
  }

  /** An empty write for a port has begun: to its hardware, from its switch, or to its kernel interface. */
  ghost predicate BeginsWrite(x: Worker, x': Worker, port: nat, kind: Kind) {
    && Idle(x)
    && match kind
       case Physical => x'.call.Call? && x'.call.target == Hardware(port) && x'.call.buf == [] && x'.write.NoWrite?
       case Vport => x'.write == Write(port, true, 0, []) && x'.call.NoCall?
       case Kni => x'.call.Call? && x'.call.target == Kernel(port) && x'.call.buf == [] && x'.write.NoWrite?
  }

  /** The n-th of the writes: port by port, hardware, switch, kernel. */
  function NthKind(n: nat): Kind {
    if n % 3 == 0 then Physical else if n % 3 == 1 then Vport else Kni
  }

  /** How many writes have begun when the worker is here. */
  function Count(c: Config, r: Round): nat {
    match r
    case Poll(_) => 3 * |c.qcnts|
    case Flush(port, kind) => 3 * port + match kind case Physical => 0 case Vport => 1 case Kni => 2
  }

  /** The worker is among the writes, or about to begin the next round. */
  ghost predicate Flushing(c: Config, x: Worker) {
    x.round.Flush? && (x.round.port < |c.qcnts| || x.round == Flush(|c.qcnts|, Physical))
  }

  /** A step of the worker between calls: the next write begins, or the next round. */
  lemma FlushStep(c: Config, s: State, m: Move, s': State)
    requires Step(c, s, m, s') && Flushing(c, s.workers[m.w]) && Idle(s.workers[m.w])
    ensures m.w < |s'.workers|
    ensures var x, x' := s.workers[m.w], s'.workers[m.w];
      if x.round.port < |c.qcnts| then
        && BeginsWrite(x, x', x.round.port, x.round.kind) && Flushing(c, x')
        && Count(c, x'.round) == Count(c, x.round) + 1
      else x'.round == Poll(m.w)
  {}

  /** Any other step leaves it where it is. */
  lemma InCallStep(c: Config, s: State, m: Move, s': State, w: nat)
    requires Step(c, s, m, s') && w < |s.workers| && (m.w != w || !Idle(s.workers[w]))
    ensures w < |s'.workers| && s'.workers[w].round == s.workers[w].round
  {
    StepOthers(c, s, m, s');
    if m.w == w {
      var x := s.workers[w];
      if x.call.Call? {
        CallRound(c, s, w, m.choice.n);
      } else if x.process.Process? {
        ProcessRound(c, s, w, m.choice.verdict);
      }
    }
  }

  /** Step k is by worker w, and begins the n-th write. */
  ghost predicate NthBegins(states: seq<State>, moves: seq<Move>, w: nat, k: nat, n: nat) {
    && k < |moves| && k + 1 < |states| && w < |states[k].workers| && w < |states[k + 1].workers| && moves[k].w == w
    && BeginsWrite(states[k].workers[w], states[k + 1].workers[w], n / 3, NthKind(n))
  }

  /** The steps begin the first writes, in order. */
  ghost predicate InOrder(states: seq<State>, moves: seq<Move>, w: nat, i: nat, j: nat, steps: seq<nat>) {
    && (forall n: nat {:trigger steps[n]} :: n < |steps| ==>
        i <= steps[n] < j && NthBegins(states, moves, w, steps[n], n))
    && (forall n: nat, l: nat :: n < l < |steps| ==> steps[n] < steps[l])
  }

  /** From state i to state j the worker does not poll. */
  ghost predicate NoPolls(states: seq<State>, w: nat, i: nat, j: nat) {
    forall k: nat {:trigger states[k]} :: i <= k < j && k < |states| ==>
        w < |states[k].workers| && states[k].workers[w].round.Flush?
  }

  lemma OneMore(c: Config, states: seq<State>, moves: seq<Move>, w: nat, i: nat, k: nat, steps: seq<nat>)
      returns (steps': seq<nat>)
    requires Run(c, states, moves) && i <= k < |moves| && w < |states[k].workers| && Flushing(c, states[k].workers[w])
    requires InOrder(states, moves, w, i, k, steps) && |steps| == Count(c, states[k].workers[w].round)
    ensures w < |states[k + 1].workers|
    ensures InOrder(states, moves, w, i, k + 1, steps') && |steps'| == Count(c, states[k + 1].workers[w].round)
    ensures states[k + 1].workers[w].round.Poll? || Flushing(c, states[k + 1].workers[w])
  {
    var s, m, s', x := states[k], moves[k], states[k + 1], states[k].workers[w];
    steps' := steps;
    assert StepAt(c, states, moves, k);
    if m.w != w || !Idle(x) {
      InCallStep(c, s, m, s', w);
    } else {
      FlushStep(c, s, m, s');
      if x.round.port < |c.qcnts| {
        var n := |steps|;
        NthIs(c, x.round, n);
        assert NthBegins(states, moves, w, k, n);
        steps' := steps + [k];
      }
    }
  }

  lemma NthIs(c: Config, r: Round, n: nat)
    requires r.Flush? && n == Count(c, r)
    ensures n / 3 == r.port && NthKind(n) == r.kind
  {}

  lemma {:induction false} WritesSoFar(c: Config, states: seq<State>, moves: seq<Move>, w: nat, i: nat, j: nat)
      returns (steps: seq<nat>)
    requires Run(c, states, moves) && i <= j <= |moves| && NoPolls(states, w, i, j)
    requires w < |states[i].workers| && states[i].workers[w].round == Flush(0, Physical)
    ensures w < |states[j].workers| && InOrder(states, moves, w, i, j, steps)
    ensures |steps| == Count(c, states[j].workers[w].round)
    ensures states[j].workers[w].round.Poll? || Flushing(c, states[j].workers[w])
    decreases j - i
  {
    if i == j {
      steps := [];
    } else {
      var k := j - 1;
      steps := WritesSoFar(c, states, moves, w, i, k);
      assert states[k].workers[w].round.Flush?;
      steps := OneMore(c, states, moves, w, i, k, steps);
    }
  }

  /**
   In every run, from the end of a worker's polls to its next round: it has begun, in this order, the
   write to the hardware, that of the switch and that to the kernel, of port 0, port 1 and so on.
   */
  lemma AllWrites(c: Config, states: seq<State>, moves: seq<Move>, w: nat, i: nat, j: nat) returns (steps: seq<nat>)
    requires Run(c, states, moves) && i <= j <= |moves| && NoPolls(states, w, i, j)
    requires w < |states[i].workers| && states[i].workers[w].round == Flush(0, Physical)
    requires w < |states[j].workers| && states[j].workers[w].round.Poll?
    ensures |steps| == 3 * |c.qcnts| && InOrder(states, moves, w, i, j, steps)
  {
    steps := WritesSoFar(c, states, moves, w, i, j);
  }

  /** A worker whose polls are done comes to the writes, and it gets there in no other way. */
  lemma PollsDone(c: Config, s: State, m: Move, s': State, i: nat)
    requires Step(c, s, m, s') && Idle(s.workers[m.w]) && s.workers[m.w].round == Poll(i)
    ensures m.w < |s'.workers|
    ensures i >= |c.table| <==> s'.workers[m.w].round == Flush(0, Physical)
    ensures i < |c.table| <==> s'.workers[m.w].round.Poll?
  {}
}
