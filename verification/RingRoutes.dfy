/** Where buffers go: from the queue they were received on, or the verdict on them, to the wire, a ring or the pool. */
module RingRoutes {

  import opened Buffers
  import opened Queues
  import opened Rings
  import opened RingSteps
  import opened RingProgress

  // ---------- from a queue to a write ----------

  /**
   Worker x deals with the buffers `got` from hardware or kernel queue e: it looks at the thread rings
   first, and then at the buffers one by one, those to go on together being in `out`.
   */
  ghost predicate Handling(x: Worker, e: Queue, got: seq<Buffer>, out: seq<Buffer>) {
    if x.write.Write? then
      && x.write.port == e.port && x.write.toKernel == (e.kind == Physical) && x.write.buf == got && out == []
      && (x.process.Process? ==> !x.process.fromNic)
    else
      && x.process.Process? && x.process.fromNic && x.process.port == e.port
      && x.process.toKernel == (e.kind == Physical) && x.process.out == out
      && |x.process.todo| <= |got| && x.process.todo == got[|got| - |x.process.todo|..]
  }

  /** Step m looks at the next of these buffers, or finds that there is none left. */
  ghost predicate Looks(s: State, m: Move) {
    && m.w < |s.workers| && !m.choice.verdict.Answer?
    && var x := s.workers[m.w]; x.call.NoCall? && x.process.Process? && x.process.fromNic
  }

  /** What step m collects. */
  function Collected(s: State, m: Move): seq<Buffer> {
    if m.w < |s.workers| && s.workers[m.w].call.NoCall? && s.workers[m.w].process.Process?
        && s.workers[m.w].process.fromNic && s.workers[m.w].process.todo != [] && m.choice.verdict.Collect?
    then [s.workers[m.w].process.todo[0]] else []
  }

  /** Step m ends the processing of a burst from outside. */
  ghost predicate Ends(s: State, m: Move) {
    Looks(s, m) && s.workers[m.w].process.todo == []
  }

  /** A write of these buffers has begun. */
  ghost predicate Begun(k: Call, t: Target, buf: seq<Buffer>) {
    k.Call? && k.target == t && k.buf == buf && k.hand == [] && (k.at == Take || k.at == Put)
  }

  /** A poll of hardware or kernel queue e that finds something: at most 256 buffers are received. */
  lemma Receives(c: Config, s: State, m: Move, s': State, i: nat)
    requires Step(c, s, m, s') && i < |c.table| && c.table[i].kind != Vport && m.choice.received != []
    requires var x := s.workers[m.w];
      x.call.NoCall? && x.process.NoProcess? && x.write.NoWrite? && x.round == Poll(i)
    ensures m.w < |s'.workers|
    ensures var n := |m.choice.received|;
      Handling(s'.workers[m.w], c.table[i], m.choice.received[..if n < 256 then n else 256], [])
  {}

  lemma CallHandles(c: Config, s: State, w: nat, n: nat, e: Queue, got: seq<Buffer>, out: seq<Buffer>)
    requires w < |s.workers| && s.workers[w].call.Call? && Handling(s.workers[w], e, got, out)
    ensures var s' := CallStep(c, s, w, n); w < |s'.workers| && Handling(s'.workers[w], e, got, out)
  {
    CallRound(c, s, w, n);
  }

  lemma WriteHandles(c: Config, s: State, w: nat, e: Queue, got: seq<Buffer>, out: seq<Buffer>)
    requires w < |s.workers| && s.workers[w].write.Write? && s.workers[w].process.NoProcess?
    requires Handling(s.workers[w], e, got, out)
    ensures var s' := WriteStep(c, s, w); w < |s'.workers| && Handling(s'.workers[w], e, got, out)
  {
    assert got[|got| - |got|..] == got;
  }

  /** Processing of buffers from a thread ring, which comes before the burst. */
  lemma InnerHandles(c: Config, s: State, w: nat, v: Verdict, e: Queue, got: seq<Buffer>, out: seq<Buffer>)
    requires w < |s.workers| && s.workers[w].process.Process? && s.workers[w].call.NoCall? && s.workers[w].write.Write?
    requires Handling(s.workers[w], e, got, out)
    ensures var s' := ProcessStep(c, s, w, v); w < |s'.workers| && Handling(s'.workers[w], e, got, out)
  {
    var x, x' := s.workers[w], ProcessStep(c, s, w, v).workers[w];
    assert x'.write == x.write && (x'.process.Process? ==> !x'.process.fromNic);
  }

  /** One buffer of the burst. */
  lemma BufferHandles(c: Config, s: State, m: Move, e: Queue, got: seq<Buffer>, out: seq<Buffer>)
    requires m.w < |s.workers| && s.workers[m.w].process.Process? && s.workers[m.w].call.NoCall?
    requires s.workers[m.w].write.NoWrite? && (s.workers[m.w].process.todo != [] || m.choice.verdict.Answer?)
    requires Handling(s.workers[m.w], e, got, out)
    ensures var s' := ProcessStep(c, s, m.w, m.choice.verdict);
      m.w < |s'.workers| && Handling(s'.workers[m.w], e, got, out + Collected(s, m))
  {
    var p := s.workers[m.w].process;
    assert out + [] == out;
    if p.todo != [] { assert p.todo[1..] == got[|got| - |p.todo| + 1..]; }
  }

  /** One buffer of the burst, or the end of it. */
  lemma ProcessHandles(c: Config, s: State, m: Move, s': State, e: Queue, got: seq<Buffer>, out: seq<Buffer>)
    requires m.w < |s.workers| && s.workers[m.w].process.Process? && s.workers[m.w].call.NoCall?
    requires Handling(s.workers[m.w], e, got, out) && s' == ProcessStep(c, s, m.w, m.choice.verdict)
    ensures m.w < |s'.workers|
    ensures if s.workers[m.w].write.NoWrite? && Ends(s, m) then
        && (e.kind == Physical ==> Begun(s'.workers[m.w].call, Kernel(e.port), out))
        && (e.kind != Physical ==> Begun(s'.workers[m.w].call, Switch(e.port), out))
      else Handling(s'.workers[m.w], e, got, out + Collected(s, m))
  {
    var x := s.workers[m.w];
    if x.write.Write? {
      InnerHandles(c, s, m.w, m.choice.verdict, e, got, out);
      assert out + Collected(s, m) == out;
    } else if !Ends(s, m) {
      BufferHandles(c, s, m, e, got, out);
    }
  }

  lemma HandlingStep(c: Config, s: State, m: Move, s': State, w: nat, e: Queue, got: seq<Buffer>, out: seq<Buffer>)
    requires Step(c, s, m, s') && w < |s.workers| && Handling(s.workers[w], e, got, out)
    requires !(m.w == w && Ends(s, m))
    ensures w < |s'.workers|
    ensures Handling(s'.workers[w], e, got, if m.w == w then out + Collected(s, m) else out)
  {
    StepOthers(c, s, m, s');
    if m.w == w {
      var x := s.workers[w];
      if x.call.Call? {
        CallHandles(c, s, w, m.choice.n, e, got, out);
      } else if x.process.Process? {
        ProcessHandles(c, s, m, s', e, got, out);
      } else {
        WriteHandles(c, s, w, e, got, out);
      }
    }
  }

  /** What worker w collects between states i and j. */
  function Chosen(states: seq<State>, moves: seq<Move>, w: nat, i: nat, j: nat): seq<Buffer>
    requires i <= j <= |moves| < |states|
    decreases j - i
  {
    if i == j then []
    else Chosen(states, moves, w, i, j - 1) + if moves[j - 1].w == w then Collected(states[j - 1], moves[j - 1]) else []
  }

  /** No step of worker w from state i to state j ends the processing of a burst. */
  ghost predicate GoesOnWith(states: seq<State>, moves: seq<Move>, w: nat, i: nat, j: nat) {
    forall k: nat :: i <= k < j && k < |moves| && k < |states| && moves[k].w == w ==> !Ends(states[k], moves[k])
  }

  /** Whatever the other workers do, the buffers stay with the worker and its direction. */
  lemma {:induction false} StillHandling(c: Config, states: seq<State>, moves: seq<Move>, w: nat, e: Queue,
      got: seq<Buffer>, i: nat, j: nat)
    requires Run(c, states, moves) && i <= j <= |moves| && w < |states[i].workers|
    requires Handling(states[i].workers[w], e, got, []) && GoesOnWith(states, moves, w, i, j)
    ensures w < |states[j].workers| && Handling(states[j].workers[w], e, got, Chosen(states, moves, w, i, j))
    decreases j - i
  {
    if i < j {
      StillHandling(c, states, moves, w, e, got, i, j - 1);
      assert StepAt(c, states, moves, j - 1);
      HandlingStep(c, states[j - 1], moves[j - 1], states[j], w, e, got, Chosen(states, moves, w, i, j - 1));
    }
  }

  /**
   In every run: what a worker received on a hardware queue and collected is written to the kernel
   interface of that port, and what it received from the kernel, to the switch.
   */
  lemma CollectedGoOn(c: Config, states: seq<State>, moves: seq<Move>, w: nat, e: Queue, got: seq<Buffer>, i: nat,
      k: nat)
    requires Run(c, states, moves) && i <= k < |moves| && w < |states[i].workers|
    requires Handling(states[i].workers[w], e, got, []) && GoesOnWith(states, moves, w, i, k)
    requires moves[k].w == w && Ends(states[k], moves[k]) && e.kind != Vport
    ensures w < |states[k + 1].workers|
    ensures e.kind == Physical ==>
      Begun(states[k + 1].workers[w].call, Kernel(e.port), Chosen(states, moves, w, i, k))
    ensures e.kind == Kni ==> Begun(states[k + 1].workers[w].call, Switch(e.port), Chosen(states, moves, w, i, k))
  {
    StillHandling(c, states, moves, w, e, got, i, k);
    assert StepAt(c, states, moves, k);
    ProcessHandles(c, states[k], moves[k], states[k + 1], e, got, Chosen(states, moves, w, i, k));
  }

  /** What the verdict on a buffer leads to. */
  lemma Verdicts(c: Config, s: State, m: Move, s': State)
    requires Step(c, s, m, s') && s.workers[m.w].call.NoCall? && s.workers[m.w].process.Process?
    requires s.workers[m.w].process.todo != [] && !m.choice.verdict.Answer?
    ensures m.w < |s'.workers| && s'.entered == s.entered
    ensures var v, k, b := m.choice.verdict, s'.workers[m.w].call, s.workers[m.w].process.todo[0];
      && (v.Forward? && v.toKernel ==> Begun(k, Kernel(v.port), [b]))
      && (v.Forward? && !v.toKernel ==> Begun(k, Switch(v.port), [b]))
      && (v.HandOver? ==> Begun(k, Thread(v.to), [b]))
      && (v.TakeOver? ==> k.NoCall? && s'.kept == s.kept + [b])
      && (v.Discard? ==> k.NoCall? && s'.freed == s.freed + [b])
  {}

  /** An answer is a new buffer, and goes to the switch. */
  lemma Answers(c: Config, s: State, m: Move, s': State)
    requires Step(c, s, m, s') && s.workers[m.w].call.NoCall? && s.workers[m.w].process.Process?
    requires m.choice.verdict.Answer?
    ensures m.w < |s'.workers| && s'.entered == s.entered + [m.choice.verdict.b]
    ensures Begun(s'.workers[m.w].call, Switch(m.choice.verdict.port), [m.choice.verdict.b])
  {}

  /** What comes out of a switch ring goes to the hardware of its port. */
  lemma SwitchedOut(c: Config, s: State, m: Move, s': State, i: nat)
    requires Step(c, s, m, s') && i < |c.table| && c.table[i].kind == Vport
    requires var x := s.workers[m.w];
      x.call.NoCall? && x.process.NoProcess? && x.write.NoWrite? && x.round == Poll(i)
    requires SwitchRing(c.table[i].port, c.table[i].id) in s.rings
    requires s.rings[SwitchRing(c.table[i].port, c.table[i].id)] != []
    ensures m.w < |s'.workers|
    ensures var r := SwitchRing(c.table[i].port, c.table[i].id);
      var n := if |s.rings[r]| < 256 then |s.rings[r]| else 256;
      && Begun(s'.workers[m.w].call, Hardware(c.table[i].port), s.rings[r][..n])
      && s'.rings == s.rings[r := s.rings[r][n..]]
  {}

  // ---------- from a write to its end ----------

  /** Buffers x were transmitted to the target by worker w, or put into its ring there if it has no queue of its own. */
  ghost predicate HandedOver(c: Config, s: State, w: nat, t: Target, x: seq<Buffer>, s': State) {
    match t
    case Hardware(p) =>
      p < |c.qcnts| && if w < c.qcnts[p] then Sent(s, t, x, s') else Stored(s, PhysRing(p, w), x, s')
    case Kernel(p) => if w == 0 then Sent(s, t, x, s') else Stored(s, KniRing(p, w), x, s')
    case Switch(p) => Stored(s, SwitchRing(p, w), x, s')
    case Thread(d) => Stored(s, ThreadRing(d, w), x, s')
  }

  ghost predicate Sent(s: State, t: Target, x: seq<Buffer>, s': State) {
    s'.rings == s.rings && s'.sent == s.sent + Tagged(t, x)
  }

  ghost predicate Stored(s: State, r: Ring, x: seq<Buffer>, s': State) {
    s'.sent == s.sent && r in s.rings && s'.rings == s.rings[r := s.rings[r] + x]
  }

  /** The first n of the buffers in hand were transmitted, and the others are still there. */
  ghost predicate SentFirst(s: State, k: Call, s': State, k': Call, n: nat) {
    k.Call? && k'.Call? && n <= |k.hand| && k'.hand == k.hand[n..] && s'.sent == s.sent + Tagged(k.target, k.hand[..n])
  }

  /** A burst of 512 buffers, or what there was, was taken from the front of ring r. */
  ghost predicate TookFront(s: State, r: Ring, s': State, k': Call) {
    && k'.Call? && r in s.rings && r in s'.rings && 0 < |k'.hand| == Min(512, |s.rings[r]|)
    && k'.hand + s'.rings[r] == s.rings[r]
  }

  /** A write takes from rings that lead to its target, and transmits there. */
  lemma TakesOwn(c: Config, s: State, m: Move, s': State)
    requires Inv(c, s) && Step(c, s, m, s') && s.workers[m.w].call.Call?
    ensures m.w < |s'.workers|
    ensures var k, k' := s.workers[m.w].call, s'.workers[m.w].call;
      && (k.at == Take && k'.Call? && k'.at == Send && k.target.Hardware? ==>
        TookFront(s, PhysRing(k.target.port, k.q), s', k'))
      && (k.at == Take && k'.Call? && k'.at == Send && k.target.Kernel? ==>
        TookFront(s, KniRing(k.target.port, k.q), s', k'))
      && (k.at == Take && k'.Call? && k'.at == Send ==> k.target.Hardware? || k.target.Kernel?)
      && (k.at == Send ==> exists n: nat :: SentFirst(s, k, s', k', n))
  {
    assert WorkerOk(c, s, m.w);
    var k := s.workers[m.w].call;
    RingThere(c, m.w, k);
    if k.at == Send {
      assert SentFirst(s, k, s', s'.workers[m.w].call, Min(m.choice.n, |k.hand|));
    }
  }

  /** The first n buffers of a write were handed over, and the others are still there. */
  ghost predicate HandedFirst(c: Config, s: State, w: nat, k: Call, s': State, k': Call, n: nat) {
    k.Call? && k'.Call? && n <= |k.buf| && k'.buf == k.buf[n..] && HandedOver(c, s, w, k.target, k.buf[..n], s')
  }

  /** Before its own burst is handed over a write does not touch it; after that, each step frees one buffer. */
  lemma OwnBurst(c: Config, s: State, m: Move, s': State)
    requires Inv(c, s) && Step(c, s, m, s') && s.workers[m.w].call.Call?
    ensures m.w < |s'.workers|
    ensures var k, k' := s.workers[m.w].call, s'.workers[m.w].call;
      && (k.at == Rest && k.buf != [] ==> k' == k.(buf := k.buf[1..]) && s'.freed == s.freed + [k.buf[0]])
      && (k.at == Rest && k.buf == [] ==> k'.NoCall? && s'.freed == s.freed)
      && (k.at != Rest ==> k'.Call? && k'.target == k.target && (k'.at != Rest ==> k'.buf == k.buf))
      && (k.at != Rest && k'.at == Rest ==> exists n: nat :: HandedFirst(c, s, m.w, k, s', k', n))
  {
    assert WorkerOk(c, s, m.w);
    var k := s.workers[m.w].call;
    RingThere(c, m.w, k);
    var n := Min(m.choice.n, |k.buf|);
    if k.at == Put || k.at == Own {
      OwnPlace(c, s, m.w, k);
      assert HandedFirst(c, s, m.w, k, s', s'.workers[m.w].call, n);
    }
  }

  /** A worker transmits where it has a queue of its own, and only there. */
  lemma OwnPlace(c: Config, s: State, w: nat, k: Call)
    requires Inv(c, s) && w < c.threads && s.workers[w].call == k && k.Call? && (k.at == Put || k.at == Own)
    ensures k.at == Own <==> w < QueueCount(c, k.target)
  {
    assert WorkerOk(c, s, w);
  }

  /** What the steps of worker w free between states i and j. */
  function FreedBy(states: seq<State>, moves: seq<Move>, w: nat, i: nat, j: nat): seq<Buffer>
    requires i <= j <= |moves| < |states|
    decreases j - i
  {
    if i == j then []
    else
      var a, b := states[j - 1].freed, states[j].freed;
      FreedBy(states, moves, w, i, j - 1) + if moves[j - 1].w == w && |a| <= |b| then b[|a|..] else []
  }

  /** How far a write of `buf` to t has come: step j handed its first n buffers over, and others have been freed. */
  ghost predicate Along(c: Config, states: seq<State>, moves: seq<Move>, w: nat, t: Target, buf: seq<Buffer>, j: nat,
      n: nat, b: nat)
  {
    && |states| == |moves| + 1 && j < b <= |moves| && w < |states[b].workers| && moves[j].w == w && n <= |buf|
    && HandedOver(c, states[j], w, t, buf[..n], states[j + 1])
    && var k := states[b].workers[w].call;
      k.Call? && k.at == Rest && FreedBy(states, moves, w, j + 1, b) + k.buf == buf[n..]
  }

  /** A write of `buf` to t has not come to it. */
  ghost predicate Ahead(states: seq<State>, w: nat, t: Target, buf: seq<Buffer>, b: nat) {
    && b < |states| && w < |states[b].workers|
    && var k := states[b].workers[w].call; k.Call? && k.target == t && k.buf == buf && k.at != Rest
  }

  /** A step within a write, its own or of another worker. */
  lemma FateStep(c: Config, states: seq<State>, moves: seq<Move>, w: nat, t: Target, buf: seq<Buffer>, b: nat)
      returns (n: nat)
    requires ConfigOk(c) && Proper(c, states, moves) && b < |moves| && Ahead(states, w, t, buf, b)
    requires InAWrite(states, w, b + 1)
    ensures Ahead(states, w, t, buf, b + 1) || Along(c, states, moves, w, t, buf, b, n, b + 1)
  {
    n := 0;
    RunInv(c, states, moves, b);
    assert StepAt(c, states, moves, b);
    StepOthers(c, states[b], moves[b], states[b + 1]);
    if moves[b].w == w {
      var k, k' := states[b].workers[w].call, states[b + 1].workers[w].call;
      OwnBurst(c, states[b], moves[b], states[b + 1]);
      if k'.at == Rest {
        n :| HandedFirst(c, states[b], w, k, states[b + 1], k', n);
        assert FreedBy(states, moves, w, b + 1, b + 1) == [];
      }
    }
  }

  lemma RestStepFate(c: Config, states: seq<State>, moves: seq<Move>, w: nat, t: Target, buf: seq<Buffer>, j: nat,
      n: nat, b: nat)
    requires ConfigOk(c) && Proper(c, states, moves) && b < |moves| && Along(c, states, moves, w, t, buf, j, n, b)
    requires InAWrite(states, w, b + 1)
    ensures Along(c, states, moves, w, t, buf, j, n, b + 1)
  {
    RunInv(c, states, moves, b);
    assert StepAt(c, states, moves, b);
    StepOthers(c, states[b], moves[b], states[b + 1]);
    if moves[b].w == w {
      var k := states[b].workers[w].call;
      OwnBurst(c, states[b], moves[b], states[b + 1]);
      FreedMore(states, moves, w, j + 1, b, k.buf);
    }
  }

  lemma FreedMore(states: seq<State>, moves: seq<Move>, w: nat, i: nat, b: nat, rest: seq<Buffer>)
    requires i <= b < |moves| < |states| && moves[b].w == w && rest != []
    requires states[b + 1].freed == states[b].freed + [rest[0]]
    ensures FreedBy(states, moves, w, i, b + 1) + rest[1..] == FreedBy(states, moves, w, i, b) + rest
  {
    assert states[b + 1].freed[|states[b].freed|..] == [rest[0]];
    assert [rest[0]] + rest[1..] == rest;
  }

  /** The burst of a write that began at state a is untouched, or was handed over in part and is being freed. */
  ghost predicate OnItsWay(c: Config, states: seq<State>, moves: seq<Move>, w: nat, t: Target, buf: seq<Buffer>, a: nat,
      b: nat)
  {
    || Ahead(states, w, t, buf, b)
    || exists j: nat, n: nat :: a <= j && Along(c, states, moves, w, t, buf, j, n, b)
  }

  lemma FateMore(c: Config, states: seq<State>, moves: seq<Move>, w: nat, t: Target, buf: seq<Buffer>, a: nat, b: nat,
      b': nat)
    requires ConfigOk(c) && Proper(c, states, moves) && a <= b < |moves| && b' == b + 1 && InAWrite(states, w, b')
    requires OnItsWay(c, states, moves, w, t, buf, a, b)
    ensures OnItsWay(c, states, moves, w, t, buf, a, b')
  {
    if Ahead(states, w, t, buf, b) {
      var n := FateStep(c, states, moves, w, t, buf, b);
    } else {
      var j: nat, n: nat :| a <= j && Along(c, states, moves, w, t, buf, j, n, b);
      RestStepFate(c, states, moves, w, t, buf, j, n, b);
    }
  }

  lemma BusyLess(states: seq<State>, w: nat, a: nat, b: nat)
    requires Busy(states, w, a, b) && a < b
    ensures Busy(states, w, a, b - 1) && InAWrite(states, w, b)
  {}

  lemma {:induction false} Fate(c: Config, states: seq<State>, moves: seq<Move>, w: nat, t: Target, buf: seq<Buffer>,
      a: nat, b: nat)
    requires ConfigOk(c) && Proper(c, states, moves) && a <= b <= |moves| && Busy(states, w, a, b)
    requires w < |states[a].workers| && Begun(states[a].workers[w].call, t, buf)
    ensures OnItsWay(c, states, moves, w, t, buf, a, b)
    decreases b - a
  {
    if a < b {
      BusyLess(states, w, a, b);
      Fate(c, states, moves, w, t, buf, a, b - 1);
      FateMore(c, states, moves, w, t, buf, a, b - 1, b);
    } else {
      assert Ahead(states, w, t, buf, b);
    }
  }

  /**
   A write from its beginning to its return, whatever the other workers do meanwhile: some of its
   buffers, from the front, are transmitted to its target, or put into the worker's ring there, in one
   step, and the worker frees the others.
   */
  lemma WholeWrite(c: Config, states: seq<State>, moves: seq<Move>, w: nat, t: Target, buf: seq<Buffer>, a: nat, b: nat)
      returns (j: nat, n: nat)
    requires ConfigOk(c) && Proper(c, states, moves) && a <= b < |moves| && Busy(states, w, a, b)
    requires w < |states[a].workers| && Begun(states[a].workers[w].call, t, buf)
    requires w < |states[b + 1].workers| && states[b + 1].workers[w].call.NoCall?
    ensures a <= j < b && moves[j].w == w && n <= |buf| && HandedOver(c, states[j], w, t, buf[..n], states[j + 1])
    ensures FreedBy(states, moves, w, j + 1, b + 1) == buf[n..]
  {
    Fate(c, states, moves, w, t, buf, a, b);
    j, n := AtReturn(c, states, moves, w, t, buf, a, b);
  }

  lemma AtReturn(c: Config, states: seq<State>, moves: seq<Move>, w: nat, t: Target, buf: seq<Buffer>, a: nat, b: nat)
      returns (j: nat, n: nat)
    requires ConfigOk(c) && Proper(c, states, moves) && a <= b < |moves| && OnItsWay(c, states, moves, w, t, buf, a, b)
    requires w < |states[b + 1].workers| && states[b + 1].workers[w].call.NoCall?
    ensures a <= j < b && moves[j].w == w && n <= |buf| && HandedOver(c, states[j], w, t, buf[..n], states[j + 1])
    ensures FreedBy(states, moves, w, j + 1, b + 1) == buf[n..]
  {
    RunInv(c, states, moves, b);
    assert StepAt(c, states, moves, b);
    StepOthers(c, states[b], moves[b], states[b + 1]);
    OwnBurst(c, states[b], moves[b], states[b + 1]);
    assert !Ahead(states, w, t, buf, b);
    j, n :| a <= j && Along(c, states, moves, w, t, buf, j, n, b);
    assert states[b + 1].freed[|states[b].freed|..] == [];
  }

  /**
   The frames received on a hardware queue and collected: the kernel interface of the port gets some,
   from the front, directly from worker 0 and through its ring there from any other, and the rest is
   freed. Those received from the kernel go into the worker's switch ring of the port in the same way.
   */
  lemma FramesGoOn(c: Config, states: seq<State>, moves: seq<Move>, w: nat, e: Queue, got: seq<Buffer>, i: nat, k: nat,
      b: nat)
    returns (j: nat, n: nat)
    requires ConfigOk(c) && Proper(c, states, moves) && i <= k < b < |moves| && w < |states[i].workers|
    requires Handling(states[i].workers[w], e, got, []) && GoesOnWith(states, moves, w, i, k) && e.kind != Vport
    requires moves[k].w == w && Ends(states[k], moves[k])
    requires Busy(states, w, k + 1, b) && w < |states[b + 1].workers| && states[b + 1].workers[w].call.NoCall?
    ensures k < j < b && moves[j].w == w && n <= |Chosen(states, moves, w, i, k)|
    ensures var s, s', x := states[j], states[j + 1], Chosen(states, moves, w, i, k)[..n];
      && (e.kind == Physical && w == 0 ==> s'.sent == s.sent + Tagged(Kernel(e.port), x))
      && (e.kind == Physical && w > 0 ==> Stored(s, KniRing(e.port, w), x, s'))
      && (e.kind == Kni ==> Stored(s, SwitchRing(e.port, w), x, s'))
    ensures FreedBy(states, moves, w, j + 1, b + 1) == Chosen(states, moves, w, i, k)[n..]
  {
    CollectedGoOn(c, states, moves, w, e, got, i, k);
    var t := if e.kind == Physical then Kernel(e.port) else Switch(e.port);
    j, n := WholeWrite(c, states, moves, w, t, Chosen(states, moves, w, i, k), k + 1, b);
  }
}
