/** Which worker fills a ring and which one empties it, and when that is one, as the flags of the ring promise. */
module RingOwners {

  import opened Buffers
  import opened Division
  import opened Queues
  import opened Rings
  import opened RingSteps
  import opened Workers

  /** The worker that fills a ring. */
  function Producer(r: Ring): nat {
    match r
    case PhysRing(_, t) => t
    case KniRing(_, t) => t
    case SwitchRing(_, t) => t
    case ThreadRing(_, k) => k
  }

  /**
   Worker w empties the ring: as one of those with a queue of their own, by polling its queue, or as
   the one it leads to.
   */
  ghost predicate Consumes(c: Config, w: nat, r: Ring) {
    match r
    case PhysRing(p, t) => p < |c.qcnts| && Drains(c.qcnts[p], w, t)
    case KniRing(_, t) => Drains(1, w, t)
    case SwitchRing(p, t) => p < |c.qcnts| && ComesTo(w, c.threads, |c.table|, VportAt(c.qcnts, c.threads, p, t))
    case ThreadRing(d, _) => w == d
  }

  /** t is what is left of s when something was taken from the front. */
  ghost predicate Suffix(s: seq<Buffer>, t: seq<Buffer>) {
    |t| <= |s| && t == s[|s| - |t|..]
  }

  /** What a step of worker w may do to ring r. */
  ghost predicate Disciplined(c: Config, rings: RingMap, w: nat, rings': RingMap, r: Ring) {
    r in rings ==>
      && r in rings'
      && (|| rings'[r] == rings[r]
          || (w == Producer(r) && rings[r] <= rings'[r])
          || (Consumes(c, w, r) && Suffix(rings[r], rings'[r])))
  }

  lemma CallDisciplined(c: Config, s: State, w: nat, n: nat, r: Ring)
    requires Inv(c, s) && w < c.threads && s.workers[w].call.Call?
    ensures Disciplined(c, s.rings, w, CallStep(c, s, w, n).rings, r)
  {
    assert WorkerOk(c, s, w);
  }

  lemma PollDisciplined(c: Config, s: State, w: nat, i: nat, received: seq<Buffer>, r: Ring)
    requires ConfigOk(c) && w < |s.workers| && i < |c.table| && ComesTo(w, c.threads, |c.table|, i)
    ensures Disciplined(c, s.rings, w, PollStep(c, s, w, c.table[i], received).rings, r)
  {
    assert EntryOk(c, i);
  }

  lemma RoundDisciplined(c: Config, s: State, w: nat, received: seq<Buffer>, r: Ring)
    requires Inv(c, s) && w < c.threads
    ensures Disciplined(c, s.rings, w, RoundStep(c, s, w, received).rings, r)
  {
    assert WorkerOk(c, s, w);
    match s.workers[w].round
    case Poll(i) => PolledDisciplined(c, s, w, i, received, r);
    case Flush(port, kind) =>
  }

  lemma PolledDisciplined(c: Config, s: State, w: nat, i: nat, received: seq<Buffer>, r: Ring)
    requires ConfigOk(c) && w < |s.workers| && ComesTo(w, c.threads, |c.table|, i)
    ensures Disciplined(c, s.rings, w, PollRound(c, s, w, i, received).rings, r)
  {
    if i < |c.table| {
      var s1 := SetRound(s, w, Poll((i + c.threads) % 256));
      assert s1.rings == s.rings && PollRound(c, s, w, i, received) == PollStep(c, s1, w, c.table[i], received);
      PollDisciplined(c, s1, w, i, received, r);
    }
  }

  /** A step appends to a ring as its producer, takes from its front as its consumer, or leaves it alone. */
  lemma StepDisciplined(c: Config, s: State, m: Move, s': State, r: Ring)
    requires Inv(c, s) && Step(c, s, m, s')
    ensures Disciplined(c, s.rings, m.w, s'.rings, r)
  {
    var x := s.workers[m.w];
    if x.call.Call? {
      CallDisciplined(c, s, m.w, m.choice.n, r);
    } else if !x.process.Process? && !x.write.Write? {
      RoundDisciplined(c, s, m.w, m.choice.received, r);
    }
  }

  /** The one kind of ring that may have two consumers: a switch ring whose queue is not polled by its owner alone. */
  predicate Safe(c: Config, r: Ring)
    requires c.threads > 0
  {
    r.SwitchRing? && r.port < |c.qcnts| ==>
      Lone(c.threads, |c.table|, VportAt(c.qcnts, c.threads, r.port, r.of))
  }

  /** Any other ring has one consumer at most. */
  lemma OneConsumer(c: Config, a: nat, b: nat, r: Ring)
    requires ConfigOk(c) && Safe(c, r) && a < c.threads && b < c.threads
    requires Consumes(c, a, r) && Consumes(c, b, r)
    ensures a == b
  {
    if r.SwitchRing? {
      var n, i := |c.table|, VportAt(c.qcnts, c.threads, r.port, r.of);
      ComesRem(a, c.threads, n, i);
      ComesRem(b, c.threads, n, i);
    }
  }

  /** The side of ring r at which step i of a run works. */
  lemma OneSide(c: Config, states: seq<State>, moves: seq<Move>, i: nat, r: Ring)
    requires ConfigOk(c) && Proper(c, states, moves) && i < |moves| && Created(c, r)
    ensures r in states[i].rings && r in states[i + 1].rings && moves[i].w < c.threads
    ensures |states[i].rings[r]| < |states[i + 1].rings[r]| ==> moves[i].w == Producer(r)
    ensures |states[i + 1].rings[r]| < |states[i].rings[r]| ==> Consumes(c, moves[i].w, r)
  {
    RunInv(c, states, moves, i);
    assert StepAt(c, states, moves, i);
    StepDisciplined(c, states[i], moves[i], states[i + 1], r);
  }

  /** Step i of a run takes from ring r. */
  ghost predicate TakesAt(states: seq<State>, i: nat, r: Ring) {
    && i + 1 < |states| && r in states[i].rings && r in states[i + 1].rings
    && |states[i + 1].rings[r]| < |states[i].rings[r]|
  }

  ghost predicate AddsAt(states: seq<State>, i: nat, r: Ring) {
    && i + 1 < |states| && r in states[i].rings && r in states[i + 1].rings
    && |states[i].rings[r]| < |states[i + 1].rings[r]|
  }

  /** In a run, all steps that take from a ring are by one worker, and all steps that add to it are by one. */
  lemma SingleSided(c: Config, states: seq<State>, moves: seq<Move>, i: nat, j: nat, r: Ring)
    requires ConfigOk(c) && Proper(c, states, moves) && i < |moves| && j < |moves| && Created(c, r)
    ensures AddsAt(states, i, r) && AddsAt(states, j, r) ==> moves[i].w == moves[j].w
    ensures Safe(c, r) && TakesAt(states, i, r) && TakesAt(states, j, r) ==> moves[i].w == moves[j].w
  {
    OneSide(c, states, moves, i, r);
    OneSide(c, states, moves, j, r);
    if Safe(c, r) && Consumes(c, moves[i].w, r) && Consumes(c, moves[j].w, r) {
      OneConsumer(c, moves[i].w, moves[j].w, r);
    }
  }

  // ---------- exactly when ----------

  ghost predicate SoleConsumer(c: Config, r: Ring) {
    forall a: nat, b: nat :: a < c.threads && b < c.threads && Consumes(c, a, r) && Consumes(c, b, r) ==> a == b
  }

  ghost predicate HasConsumer(c: Config, r: Ring) {
    exists a: nat :: a < c.threads && Consumes(c, a, r)
  }

  /** No other ring is made in vain: worker 0 empties those to the kernel, and so on. */
  lemma Served(c: Config, r: Ring)
    requires ConfigOk(c) && Created(c, r) && !r.SwitchRing? && (r.PhysRing? ==> c.qcnts[r.port] > 0)
    ensures HasConsumer(c, r)
    ensures r.KniRing? ==> Consumes(c, 0, r)
    ensures r.PhysRing? ==> Consumes(c, r.of % c.qcnts[r.port], r)
    ensures r.ThreadRing? ==> Consumes(c, r.to, r)
  {
    if r.KniRing? { Unique(r.of, 1, r.of, 0); }
    var w := if r.KniRing? then 0 else if r.ThreadRing? then r.to else r.of % c.qcnts[r.port];
    assert w < c.threads && Consumes(c, w, r);
  }

  /** Which switch rings have a consumer, and which of these have two. */
  lemma ConsumersIff(c: Config, r: Ring)
    requires 0 < c.threads <= 256 && c.table == Table(c.qcnts, c.threads) && r.SwitchRing? && Created(c, r)
    ensures HasConsumer(c, r) <==> VportAt(c.qcnts, c.threads, r.port, r.of) < 256
    ensures HasConsumer(c, r) ==> (SoleConsumer(c, r) <==> Safe(c, r))
  {
    var n, i := |c.table|, VportAt(c.qcnts, c.threads, r.port, r.of);
    QueueThere(c.qcnts, c.threads, Queue(r.port, Vport, r.of));
    SomePollsIff(c.threads, n, i);
    assert HasConsumer(c, r) <==> SomePolls(c.threads, n, i) by {
      if SomePolls(c.threads, n, i) {
        var a: nat :| a < c.threads && ComesTo(a, c.threads, n, i);
        assert Consumes(c, a, r);
      }
    }
    if i < 256 {
      OnePollsIff(c.threads, n, i);
      SoleByPolls(c, r);
    }
  }

  lemma SoleByPolls(c: Config, r: Ring)
    requires r.SwitchRing? && Created(c, r)
    ensures SoleConsumer(c, r) <==> OnePolls(c.threads, |c.table|, VportAt(c.qcnts, c.threads, r.port, r.of))
  {
    var n, i := |c.table|, VportAt(c.qcnts, c.threads, r.port, r.of);
    if SoleConsumer(c, r) {
      forall a: nat, b: nat
        | a < c.threads && b < c.threads && ComesTo(a, c.threads, n, i) && ComesTo(b, c.threads, n, i)
        ensures a == b
      {
        assert Consumes(c, a, r) && Consumes(c, b, r);
      }
    }
  }

  /** If the workers are not apart, some switch ring of the first port has two consumers. */
  lemma SharedRing(c: Config) returns (r: Ring)
    requires 0 < c.threads <= 256 && c.table == Table(c.qcnts, c.threads) && c.qcnts != [] && c.qcnts[0] < 256
    requires !Apart(c.threads, |c.table|)
    ensures r.SwitchRing? && Created(c, r) && HasConsumer(c, r) && !SoleConsumer(c, r)
  {
    var t, n := c.threads, |c.table|;
    var q := if n >= 256 then 0 else (t - c.qcnts[0] % t) % t;
    r := SwitchRing(0, q);
    assert VportAt(c.qcnts, t, 0, q) == c.qcnts[0] + q;
    QueueThere(c.qcnts, t, Queue(0, Vport, q));
    if n < 256 { RoundUp(c.qcnts[0], t); }
    ConsumersIff(c, r);
  }

  lemma RoundUp(x: nat, t: nat)
    requires t > 0
    ensures 0 <= (t - x % t) % t < t && (x + (t - x % t) % t) % t == 0
  {
    var q := (t - x % t) % t;
    assert x == x / t * t + x % t;
    if x % t == 0 {
      Unique(t, t, 1, 0);
    } else {
      Unique(t - x % t, t, 0, t - x % t);
      assert x + q == (x / t + 1) * t;
      Unique(x + q, t, x / t + 1, 0);
    }
  }

  /** Every ring has at most one consumer if and only if the polls of the workers are apart. */
  lemma SoleConsumersIff(c: Config)
    requires 0 < c.threads <= 256 && c.table == Table(c.qcnts, c.threads) && c.qcnts != [] && c.qcnts[0] < 256
    ensures (forall r: Ring :: Created(c, r) ==> SoleConsumer(c, r)) <==> Apart(c.threads, |c.table|)
  {
    FilledOk(c);
    if Apart(c.threads, |c.table|) {
      forall r: Ring, a: nat, b: nat
        | Created(c, r) && a < c.threads && b < c.threads && Consumes(c, a, r) && Consumes(c, b, r)
        ensures a == b
      {
        if r.SwitchRing? { ApartLone(c.threads, |c.table|, VportAt(c.qcnts, c.threads, r.port, r.of)); }
        OneConsumer(c, a, b, r);
      }
    } else {
      var r := SharedRing(c);
    }
  }

  /** In some run two workers poll the same queue. */
  ghost predicate Collide(c: Config, states: seq<State>, a: nat, b: nat, i: nat) {
    && a != b && i < |c.table|
    && (exists s :: s in states && a < |s.workers| && s.workers[a].round == Poll(i))
    && (exists s :: s in states && b < |s.workers| && s.workers[b].round == Poll(i))
  }

  lemma ApartNoCollision(c: Config, states: seq<State>, moves: seq<Move>, a: nat, b: nat, i: nat)
    requires ConfigOk(c) && Apart(c.threads, |c.table|) && Run(c, states, moves)
    ensures !Collide(c, states, a, b, i)
  {
    if Collide(c, states, a, b, i) {
      PollerRem(c, states, moves, a, i);
      PollerRem(c, states, moves, b, i);
    }
  }

  lemma PollerRem(c: Config, states: seq<State>, moves: seq<Move>, a: nat, i: nat)
    requires ConfigOk(c) && Apart(c.threads, |c.table|) && Run(c, states, moves)
    requires exists s :: s in states && a < |s.workers| && s.workers[a].round == Poll(i)
    ensures a == i % c.threads
  {
    var s :| s in states && a < |s.workers| && s.workers[a].round == Poll(i);
    var j :| 0 <= j < |states| && states[j] == s;
    RunRounds(c, states, moves, j);
    ApartLone(c.threads, |c.table|, i);
    ComesRem(a, c.threads, |c.table|, i);
  }

  /** All rings are empty, and no worker has anything in its hands. */
  ghost predicate Quiet(c: Config, s: State) {
    && |s.workers| == c.threads && RingsOk(c, s) && (forall r :: r in s.rings ==> s.rings[r] == [])
    && forall w :: 0 <= w < c.threads ==>
        s.workers[w].write.NoWrite? && s.workers[w].process.NoProcess? && s.workers[w].call.NoCall?
  }

  const NOTHING := Choice(0, [], Discard)

  /** In quiet times a worker goes on to its next queue, and nothing else happens. */
  lemma IdlePoll(c: Config, s: State, w: nat, i: nat)
    requires ConfigOk(c) && Quiet(c, s) && w < c.threads && s.workers[w].round == Poll(i) && i < |c.table|
    ensures Step(c, s, Move(w, NOTHING), SetRound(s, w, Poll((i + c.threads) % 256)))
    ensures Quiet(c, SetRound(s, w, Poll((i + c.threads) % 256)))
  {
    assert EntryOk(c, i);
  }

  lemma RunMore(c: Config, states: seq<State>, moves: seq<Move>, m: Move, s: State)
    requires Proper(c, states, moves) && Step(c, states[|moves|], m, s) && !m.choice.verdict.HandOver?
    ensures Proper(c, states + [s], moves + [m]) && states <= states + [s] && moves <= moves + [m]
  {
    forall i: nat ensures StepAt(c, states + [s], moves + [m], i) { assert StepAt(c, states, moves, i); }
  }

  /** A run goes on by one idle poll. */
  lemma PollMore(c: Config, states: seq<State>, moves: seq<Move>, w: nat, i: nat)
      returns (states': seq<State>, moves': seq<Move>)
    requires ConfigOk(c) && Proper(c, states, moves) && Quiet(c, states[|moves|]) && w < c.threads
    requires states[|moves|].workers[w].round == Poll(i) && i < |c.table|
    ensures Proper(c, states', moves') && states <= states' && Quiet(c, states'[|moves'|])
    ensures states'[|moves'|] == SetRound(states[|moves|], w, Poll((i + c.threads) % 256))
  {
    var s, m := SetRound(states[|moves|], w, Poll((i + c.threads) % 256)), Move(w, NOTHING);
    IdlePoll(c, states[|moves|], w, i);
    RunMore(c, states, moves, m, s);
    states', moves' := states + [s], moves + [m];
  }

  /** A run can go on, in quiet times, until a worker at the start of its round is at any queue it comes to. */
  lemma {:induction false} PollReached(c: Config, states: seq<State>, moves: seq<Move>, w: nat, k: nat)
      returns (states': seq<State>, moves': seq<Move>)
    requires ConfigOk(c) && Proper(c, states, moves) && Quiet(c, states[|moves|]) && w < c.threads
    requires states[|moves|].workers[w].round == Poll(w) && GoesOn(w, c.threads, |c.table|, k)
    ensures Proper(c, states', moves') && states <= states' && Quiet(c, states'[|moves'|])
    ensures states'[|moves'|] == SetRound(states[|moves|], w, Poll(Index(w, c.threads, k)))
  {
    if k == 0 {
      states', moves' := states, moves;
      assert states[|moves|] == SetRound(states[|moves|], w, Poll(w));
    } else {
      var st, mv := PollReached(c, states, moves, w, k - 1);
      assert Below(w, c.threads, |c.table|, k - 1);
      states', moves' := PollMore(c, st, mv, w, Index(w, c.threads, k - 1));
    }
  }

  /** A run to a state in which two workers are about to poll the same queue, and all else is as at the start. */
  lemma BothPoised(c: Config, s: State, a: nat, b: nat, i: nat) returns (states: seq<State>, moves: seq<Move>)
    requires ConfigOk(c) && Init(c, s) && a < c.threads && b < c.threads && a != b
    requires ComesTo(a, c.threads, |c.table|, i) && ComesTo(b, c.threads, |c.table|, i)
    ensures Proper(c, states, moves) && Quiet(c, states[|moves|])
    ensures states[|moves|] == SetRound(SetRound(s, a, Poll(i)), b, Poll(i))
  {
    var n := |c.table|;
    var j: nat :| Index(a, c.threads, j) == i && GoesOn(a, c.threads, n, j);
    var k: nat :| Index(b, c.threads, k) == i && GoesOn(b, c.threads, n, k);
    var st, mv := PollReached(c, [s], [], a, j);
    states, moves := PollReached(c, st, mv, b, k);
  }

  /** Where the polls of the workers are not apart, some run lets two workers poll the first queue. */
  lemma CollisionRun(c: Config, s: State) returns (states: seq<State>, moves: seq<Move>, a: nat, b: nat, i: nat)
    requires ConfigOk(c) && Init(c, s) && c.table != [] && !Apart(c.threads, |c.table|)
    ensures Proper(c, states, moves) && Collide(c, states, a, b, i)
  {
    i := 0;
    a, b := TwoPoll(c.threads, |c.table|, i);
    states, moves := BothPoised(c, s, a, b, i);
    var s' := states[|moves|];
    assert s' in states && s'.workers[a].round == Poll(i) && s'.workers[b].round == Poll(i);
  }

  /** No run lets two workers poll the same queue if and only if the polls of the workers are apart. */
  lemma CollisionIff(c: Config, s: State)
    requires ConfigOk(c) && Init(c, s) && c.table != []
    ensures (exists states, moves, a, b, i :: Run(c, states, moves) && Collide(c, states, a, b, i)) <==>
        !Apart(c.threads, |c.table|)
  {
    if Apart(c.threads, |c.table|) {
      forall states, moves, a, b, i | Run(c, states, moves) ensures !Collide(c, states, a, b, i) {
        ApartNoCollision(c, states, moves, a, b, i);
      }
    } else {
      var states, moves, a, b, i := CollisionRun(c, s);
    }
  }
}
