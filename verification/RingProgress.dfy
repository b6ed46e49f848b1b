/** Every write ends after a bounded number of steps of its own worker, whatever the other workers do. */
module RingProgress {

  import opened Rings
  import opened RingSteps

  /** The rings still to be looked at. */
  function RingsLeft(c: Config, q: nat): nat {
    if q < c.threads then c.threads - q else 0
  }

  /** A bound on the steps that a write still takes. */
  function Left(c: Config, k: Call): nat {
    if k.NoCall? then 0
    else match k.at
      case Take => 1000 * RingsLeft(c, k.q) + |k.buf| + 10
      case Send => 1000 * RingsLeft(c, k.q + 1) + |k.hand| + |k.buf| + 13
      case Drop => 1000 * RingsLeft(c, k.q + 1) + |k.hand| + |k.buf| + 12
      case Own => |k.buf| + 5
      case Put => |k.buf| + 5
      case Rest => |k.buf| + 4
  }

  /** Every step of the worker brings the end nearer, however full the rings have become. */
  lemma CallShrinks(c: Config, s: State, w: nat, n: nat)
    requires Inv(c, s) && w < c.threads && s.workers[w].call.Call?
    ensures Left(c, CallStep(c, s, w, n).workers[w].call) < Left(c, s.workers[w].call)
  {
    assert WorkerOk(c, s, w);
    var k := s.workers[w].call;
    assert k.at.Take? || k.at.Send? || k.at.Drop? ==> QueueCount(c, k.target) >= 1;
  }

  lemma LeftStep(c: Config, s: State, m: Move, s': State, w: nat)
    requires Inv(c, s) && Step(c, s, m, s') && !HandsToSelf(s, m) && w < c.threads && s.workers[w].call.Call?
    ensures w < |s'.workers| && Left(c, s'.workers[w].call) + (if m.w == w then 1 else 0) <= Left(c, s.workers[w].call)
  {
    StepKept(c, s, m, s');
    if m.w == w { CallShrinks(c, s, w, m.choice.n); }
  }

  lemma LeftAt(c: Config, states: seq<State>, moves: seq<Move>, w: nat, i: nat)
    requires ConfigOk(c) && Proper(c, states, moves) && w < c.threads && i < |moves| && InAWrite(states, w, i)
    ensures w < |states[i + 1].workers|
    ensures var own := if moves[i].w == w then 1 else 0;
      Left(c, states[i + 1].workers[w].call) + own <= Left(c, states[i].workers[w].call)
  {
    RunInv(c, states, moves, i);
    assert StepAt(c, states, moves, i);
    LeftStep(c, states[i], moves[i], states[i + 1], w);
  }

  /** How many of the moves from i up to j are by worker w. */
  function OwnMoves(moves: seq<Move>, w: nat, i: nat, j: nat): nat
    requires i <= j <= |moves|
    decreases j - i
  {
    if i == j then 0 else OwnMoves(moves, w, i, j - 1) + if moves[j - 1].w == w then 1 else 0
  }

  /** The worker is in a write from state i to state j. */
  ghost predicate Busy(states: seq<State>, w: nat, i: nat, j: nat) {
    forall k: nat {:trigger InAWrite(states, w, k)} :: i <= k <= j ==> InAWrite(states, w, k)
  }

  ghost predicate InAWrite(states: seq<State>, w: nat, k: nat) {
    k < |states| && w < |states[k].workers| && states[k].workers[w].call.Call?
  }

  /** While a worker stays in one write, its own steps are bounded by what was left at the start. */
  lemma {:induction false} CallEnds(c: Config, states: seq<State>, moves: seq<Move>, w: nat, i: nat, j: nat)
    requires ConfigOk(c) && Proper(c, states, moves) && w < c.threads && i <= j <= |moves| && Busy(states, w, i, j)
    ensures InAWrite(states, w, i) && InAWrite(states, w, j)
    ensures OwnMoves(moves, w, i, j) + Left(c, states[j].workers[w].call) <= Left(c, states[i].workers[w].call)
    decreases j - i
  {
    assert InAWrite(states, w, j) && InAWrite(states, w, i);
    if i < j {
      CallEnds(c, states, moves, w, i, j - 1);
      LeftAt(c, states, moves, w, j - 1);
    }
  }
}
