/**
 The write paths of al_dev.c as the steps of workers that run side by side. One step is one burst
 to or from a ring or the hardware, one buffer freed, or one test of a loop; between two steps of a
 worker any other worker may step.
 */
module Rings {

  import opened Buffers
  import opened Queues

  /** How many buffers a write takes from a ring at once, and how many a read does. */
  const TX_BURST := 512
  const RX_BURST := 256

  /** The number of workers, the number of hardware queues of each port, and the queue table. */
  datatype Config = Config(threads: nat, qcnts: seq<nat>, table: seq<Queue>)

  ghost predicate ConfigOk(c: Config) {
    0 < c.threads <= 256 && forall i: nat {:trigger EntryOk(c, i)} :: EntryOk(c, i)
  }

  /** A table entry names a port there is, and a switch queue has one entry, at its place. */
  ghost predicate EntryOk(c: Config, i: nat) {
    i < |c.table| ==>
      var e := c.table[i];
      e.port < |c.qcnts| && (e.kind == Vport ==> e.id < c.threads && i == VportAt(c.qcnts, c.threads, e.port, e.id))
  }

  /** So it is in the table that al_init_port fills. */
  lemma FilledOk(c: Config)
    requires 0 < c.threads <= 256 && c.table == Table(c.qcnts, c.threads)
    ensures ConfigOk(c)
  {
    forall i: nat ensures EntryOk(c, i) {
      if i < |c.table| { EntryAt(c.qcnts, c.threads, i); }
    }
  }

  // ---------- rings ----------

  /** The rings of each port, by the worker that fills them, and those from worker to worker. */
  datatype Ring =
    | PhysRing(port: nat, of: nat)
    | KniRing(port: nat, of: nat)
    | SwitchRing(port: nat, of: nat)
    | ThreadRing(to: nat, from: nat)

  /** The rings that there are: none for a worker with a hardware queue of its own, or from a worker to itself. */
  ghost predicate Created(c: Config, r: Ring) {
    match r
    case PhysRing(p, t) => p < |c.qcnts| && c.qcnts[p] <= t < c.threads
    case KniRing(p, t) => p < |c.qcnts| && 1 <= t < c.threads
    case SwitchRing(p, t) => p < |c.qcnts| && t < c.threads
    case ThreadRing(d, k) => d < c.threads && k < c.threads && d != k
  }

  type RingMap = map<Ring, seq<Buffer>>

  // ---------- workers ----------

  /** Where a burst goes: the hardware, the kernel interface, the switch, or another worker. */
  datatype Target = Hardware(port: nat) | Kernel(port: nat) | Switch(port: nat) | Thread(to: nat)

  /** The workers below this number have a queue of their own there. */
  function QueueCount(c: Config, t: Target): nat {
    match t
    case Hardware(p) => if p < |c.qcnts| then c.qcnts[p] else 0
    case Kernel(_) => 1
    case Switch(_) => 0
    case Thread(_) => 0
  }

  /** The ring that worker w fills for a target. */
  function OwnRing(t: Target, w: nat): Ring {
    match t
    case Hardware(p) => PhysRing(p, w)
    case Kernel(p) => KniRing(p, w)
    case Switch(p) => SwitchRing(p, w)
    case Thread(d) => ThreadRing(d, w)
  }

  /**
   Where in port_burst_write, kni_burst_write or an enqueue a worker is: at the head of the loop
   over the rings, before the transmission of what it took, in the loop that frees the rest of it,
   before the transmission or the enqueue of its own burst, or in the loop that frees the rest of
   that.
   */
  datatype Place = Take | Send | Drop | Own | Put | Rest

  /** A write in progress: the ring it has come to, what it took from there, and its own burst. */
  datatype Call = NoCall | Call(target: Target, at: Place, q: nat, hand: seq<Buffer>, buf: seq<Buffer>)

  /** al_main_process in progress: the buffers to look at, and those that will go on together. */
  datatype Process = NoProcess | Process(port: nat, toKernel: bool, fromNic: bool, todo: seq<Buffer>, out: seq<Buffer>)

  /** vport_burst_write in progress: the thread ring it has come to, and its own burst. */
  datatype Write = NoWrite | Write(port: nat, toKernel: bool, k: nat, buf: seq<Buffer>)

  /** Where in its round a worker is: at an index of the queue table, or at the writes for a port. */
  datatype Round = Poll(i: nat) | Flush(port: nat, kind: Kind)

  datatype Worker = Worker(round: Round, write: Write, process: Process, call: Call)

  /** A buffer that was transmitted, and where to. */
  datatype Out = Out(to: Target, b: Buffer)

  /** A burst that was transmitted. */
  function Tagged(t: Target, s: seq<Buffer>): (r: seq<Out>)
    ensures |r| == |s| && forall i :: 0 <= i < |s| ==> r[i] == Out(t, s[i])
  {
    seq(|s|, i requires 0 <= i < |s| => Out(t, s[i]))
  }

  /** The rings, the workers, and what has come in, gone out, been freed or been taken over by a session. */
  datatype State = State(rings: RingMap, workers: seq<Worker>, entered: seq<Buffer>, sent: seq<Out>, freed: seq<Buffer>,
      kept: seq<Buffer>)

  /** What becomes of a buffer that is looked at. */
  datatype Verdict =
    | Discard
    | Collect
    | TakeOver
    | Forward(port: nat, toKernel: bool)
    | HandOver(to: nat)
    | Answer(port: nat, b: Buffer)

  /** What is not for the worker to decide: how much a burst gets rid of, what is received, and the verdict. */
  datatype Choice = Choice(n: nat, received: seq<Buffer>, verdict: Verdict)

  /** Packet processing names ports and workers that there are, and hands over to others only what came from outside. */
  ghost predicate Legal(c: Config, s: State, w: nat, ch: Choice) {
    && w < |s.workers|
    && match ch.verdict
       case Discard => true
       case Collect => true
       case TakeOver => true
       case Forward(p, _) => p < |c.qcnts|
       case HandOver(d) => d < c.threads && (s.workers[w].process.Process? ==> s.workers[w].process.fromNic)
       case Answer(p, _) => p < |c.qcnts|
  }

  // ---------- steps ----------

  function Content(s: State, r: Ring): seq<Buffer> {
    if r in s.rings then s.rings[r] else []
  }

  /** The beginning of a write: a worker with a queue of its own first looks after the rings of others. */
  function Begin(c: Config, w: nat, t: Target, buf: seq<Buffer>): Call {
    if w < QueueCount(c, t) then Call(t, Take, w + QueueCount(c, t), [], buf) else Call(t, Put, 0, [], buf)
  }

  function Set(s: State, w: nat, x: Worker): State
    requires w < |s.workers|
  {
    s.(workers := s.workers[w := x])
  }

  function SetCall(s: State, w: nat, k: Call): State
    requires w < |s.workers|
  {
    Set(s, w, s.workers[w].(call := k))
  }

  /** The head of the loop: a burst from ring q, or on to the worker's own burst. */
  function TakeStep(c: Config, s: State, w: nat): State
    requires w < |s.workers| && s.workers[w].call.Call?
  {
    var k := s.workers[w].call;
    if k.q >= c.threads then SetCall(s, w, k.(at := Own))
    else
      var r := OwnRing(k.target, k.q);
      var m := Min(TX_BURST, |Content(s, r)|);
      if m == 0 then SetCall(s, w, k.(q := k.q + QueueCount(c, k.target)))
      else SetCall(s, w, k.(at := Send, hand := Content(s, r)[..m])).(rings := s.rings[r := Content(s, r)[m..]])
  }

  /** Some prefix of what was taken is transmitted. */
  function SendStep(s: State, w: nat, n: nat): State
    requires w < |s.workers| && s.workers[w].call.Call?
  {
    var k := s.workers[w].call;
    var m := Min(n, |k.hand|);
    SetCall(s, w, k.(at := Drop, hand := k.hand[m..])).(sent := s.sent + Tagged(k.target, k.hand[..m]))
  }

  /** One buffer of the rest is freed, or on to the next ring. */
  function DropStep(c: Config, s: State, w: nat): State
    requires w < |s.workers| && s.workers[w].call.Call?
  {
    var k := s.workers[w].call;
    if k.hand == [] then SetCall(s, w, k.(at := Take, q := k.q + QueueCount(c, k.target)))
    else SetCall(s, w, k.(hand := k.hand[1..])).(freed := s.freed + [k.hand[0]])
  }

  /** Some prefix of the own burst is transmitted. */
  function OwnStep(s: State, w: nat, n: nat): State
    requires w < |s.workers| && s.workers[w].call.Call?
  {
    var k := s.workers[w].call;
    var m := Min(n, |k.buf|);
    SetCall(s, w, k.(at := Rest, buf := k.buf[m..])).(sent := s.sent + Tagged(k.target, k.buf[..m]))
  }

  /** Some prefix of it goes to the worker's own ring. */
  function PutStep(s: State, w: nat, n: nat): State
    requires w < |s.workers| && s.workers[w].call.Call?
  {
    var k := s.workers[w].call;
    var r, m := OwnRing(k.target, w), Min(n, |k.buf|);
    SetCall(s, w, k.(at := Rest, buf := k.buf[m..])).(rings := s.rings[r := Content(s, r) + k.buf[..m]])
  }

  /** One buffer of the rest is freed, or the call returns. */
  function RestStep(s: State, w: nat): State
    requires w < |s.workers| && s.workers[w].call.Call?
  {
    var k := s.workers[w].call;
    if k.buf == [] then SetCall(s, w, NoCall)
    else SetCall(s, w, k.(buf := k.buf[1..])).(freed := s.freed + [k.buf[0]])
  }

  function CallStep(c: Config, s: State, w: nat, n: nat): State
    requires w < |s.workers| && s.workers[w].call.Call?
  {
    match s.workers[w].call.at
    case Take => TakeStep(c, s, w)
    case Send => SendStep(s, w, n)
    case Drop => DropStep(c, s, w)
    case Own => OwnStep(s, w, n)
    case Put => PutStep(s, w, n)
    case Rest => RestStep(s, w)
  }

  /** send_to_switch. */
  function Toward(port: nat, toKernel: bool): Target {
    if toKernel then Kernel(port) else Switch(port)
  }

  /** One buffer of al_main_process, an answer on the way, or its end: those collected are sent on. */
  function ProcessStep(c: Config, s: State, w: nat, v: Verdict): State
    requires w < |s.workers| && s.workers[w].process.Process?
  {
    var x := s.workers[w];
    var p := x.process;
    if v.Answer? then Set(s, w, x.(call := Begin(c, w, Switch(v.port), [v.b]))).(entered := s.entered + [v.b])
    else if p.todo == [] then
      Set(s, w, x.(process := NoProcess, call := Begin(c, w, Toward(p.port, p.toKernel), p.out)))
    else
      var b, y := p.todo[0], x.(process := p.(todo := p.todo[1..]));
      match v
      case Discard => Set(s, w, y).(freed := s.freed + [b])
      case Collect => Set(s, w, x.(process := p.(todo := p.todo[1..], out := p.out + [b])))
      case TakeOver => Set(s, w, y).(kept := s.kept + [b])
      case Forward(port, toKernel) => Set(s, w, y.(call := Begin(c, w, Toward(port, toKernel), [b])))
      case HandOver(to) => Set(s, w, y.(call := Begin(c, w, Thread(to), [b])))
  }

  /** vport_burst_write: a burst from the next thread ring is processed, and at last the own burst. */
  function WriteStep(c: Config, s: State, w: nat): State
    requires w < |s.workers| && s.workers[w].write.Write?
  {
    var x := s.workers[w];
    var v := x.write;
    if v.k >= c.threads then Set(s, w, x.(write := NoWrite, process := Process(v.port, v.toKernel, true, v.buf, [])))
    else
      var r, y := ThreadRing(w, v.k), x.(write := v.(k := v.k + 1));
      var m := Min(RX_BURST, |Content(s, r)|);
      if v.k == w || m == 0 then Set(s, w, y)
      else
        var p := Process(0, v.toKernel, false, Content(s, r)[..m], []);
        Set(s, w, y.(process := p)).(rings := s.rings[r := Content(s, r)[m..]])
  }

  /** What a poll of queue e finds: buffers from outside, or a burst from a switch ring, which goes to the hardware. */
  function PollStep(c: Config, s: State, w: nat, e: Queue, received: seq<Buffer>): State
    requires w < |s.workers|
  {
    var x := s.workers[w];
    if e.kind == Vport then
      var r := SwitchRing(e.port, e.id);
      var m := Min(RX_BURST, |Content(s, r)|);
      if m == 0 then s
      else
        var k := Begin(c, w, Hardware(e.port), Content(s, r)[..m]);
        Set(s, w, x.(call := k)).(rings := s.rings[r := Content(s, r)[m..]])
    else
      var got := received[..Min(RX_BURST, |received|)];
      if got == [] then s
      else Set(s, w, x.(write := Write(e.port, e.kind == Physical, 0, got))).(entered := s.entered + got)
  }

  function SetRound(s: State, w: nat, r: Round): State
    requires w < |s.workers|
  {
    Set(s, w, s.workers[w].(round := r))
  }

  /** The next queue of the worker's round, by an 8-bit index. */
  function PollRound(c: Config, s: State, w: nat, i: nat, received: seq<Buffer>): State
    requires w < |s.workers|
  {
    if i >= |c.table| then SetRound(s, w, Flush(0, Physical))
    else PollStep(c, SetRound(s, w, Poll((i + c.threads) % 256)), w, c.table[i], received)
  }

  /** The next of the writes that flush the rings, or the next round. */
  function FlushRound(c: Config, s: State, w: nat, port: nat, kind: Kind): State
    requires w < |s.workers|
  {
    var x := s.workers[w];
    if port >= |c.qcnts| then SetRound(s, w, Poll(w))
    else match kind
      case Physical => Set(s, w, x.(round := Flush(port, Vport), call := Begin(c, w, Hardware(port), [])))
      case Vport => Set(s, w, x.(round := Flush(port, Kni), write := Write(port, true, 0, [])))
      case Kni => Set(s, w, x.(round := Flush(port + 1, Physical), call := Begin(c, w, Kernel(port), [])))
  }

  function RoundStep(c: Config, s: State, w: nat, received: seq<Buffer>): State
    requires w < |s.workers|
  {
    match s.workers[w].round
    case Poll(i) => PollRound(c, s, w, i, received)
    case Flush(port, kind) => FlushRound(c, s, w, port, kind)
  }

  /** The innermost call of a worker steps. */
  function Next(c: Config, s: State, w: nat, ch: Choice): State
    requires w < |s.workers|
  {
    var x := s.workers[w];
    if x.call.Call? then CallStep(c, s, w, ch.n)
    else if x.process.Process? then ProcessStep(c, s, w, ch.verdict)
    else if x.write.Write? then WriteStep(c, s, w)
    else RoundStep(c, s, w, ch.received)
  }

  // ---------- runs ----------

  /** All workers are at the beginning of a round, and all rings are empty. */
  ghost predicate Init(c: Config, s: State) {
    && |s.workers| == c.threads
        && (forall w :: 0 <= w < c.threads ==> s.workers[w] == Worker(Poll(w), NoWrite, NoProcess, NoCall))
    && (forall r: Ring :: r in s.rings <==> Created(c, r)) && (forall r: Ring :: r in s.rings ==> s.rings[r] == [])
    && s.entered == s.freed == s.kept == [] && s.sent == []
  }

  datatype Move = Move(w: nat, choice: Choice)

  ghost predicate Step(c: Config, s: State, m: Move, s': State) {
    Legal(c, s, m.w, m.choice) && s' == Next(c, s, m.w, m.choice)
  }

  /** The i-th move leads from the i-th state to the next. */
  ghost predicate StepAt(c: Config, states: seq<State>, moves: seq<Move>, i: nat) {
    i < |moves| && i + 1 < |states| ==> Step(c, states[i], moves[i], states[i + 1])
  }

  /** A run: any number of steps, of any workers in any order. */
  ghost predicate Run(c: Config, states: seq<State>, moves: seq<Move>) {
    && |states| == |moves| + 1 && Init(c, states[0])
    && forall i: nat {:trigger StepAt(c, states, moves, i)} :: StepAt(c, states, moves, i)
  }

  /**
   The worker hands a buffer over to itself: the buffer came from outside, and its connection is not
   known to the worker but listed as its own in the table of local ports. There is no ring for that.
   */
  ghost predicate HandsToSelf(s: State, m: Move) {
    && m.w < |s.workers| && m.choice.verdict == HandOver(m.w)
    && var x := s.workers[m.w]; x.call.NoCall? && x.process.Process? && x.process.todo != []
  }

  /** A run in which no worker does. */
  ghost predicate Proper(c: Config, states: seq<State>, moves: seq<Move>) {
    Run(c, states, moves) && forall i :: 0 <= i < |moves| ==> !HandsToSelf(states[i], moves[i])
  }

  /** The loops that create the rings: of init_port_dev for each port, and between the workers. */
  method CreateRings(c: Config) returns (rings: RingMap)
    ensures forall r: Ring :: r in rings <==> Created(c, r)
    ensures forall r: Ring :: r in rings ==> rings[r] == []
  {
    rings := map[];
    for p := 0 to |c.qcnts|
      invariant forall r: Ring :: r in rings <==> Created(c, r) && !r.ThreadRing? && r.port < p
      invariant forall r: Ring :: r in rings ==> rings[r] == []
    {
      rings := CreatePort(c, p, rings);
    }
    for d := 0 to c.threads
      invariant forall r: Ring :: r in rings <==> Created(c, r) && (r.ThreadRing? ==> r.to < d)
      invariant forall r: Ring :: r in rings ==> rings[r] == []
    {
      for k := 0 to c.threads
        invariant forall r: Ring :: r in rings <==>
            Created(c, r) && (r.ThreadRing? ==> r.to < d || (r.to == d && r.from < k))
        invariant forall r: Ring :: r in rings ==> rings[r] == []
      {
        if d != k {
          rings := rings[ThreadRing(d, k) := []];
        }
      }
    }
  }

  /** The rings of one port, towards the hardware, the switch and the kernel. */
  method CreatePort(c: Config, p: nat, rings0: RingMap) returns (rings: RingMap)
    requires p < |c.qcnts|
    requires forall r: Ring :: r in rings0 <==> Created(c, r) && !r.ThreadRing? && r.port < p
    requires forall r: Ring :: r in rings0 ==> rings0[r] == []
    ensures forall r: Ring :: r in rings <==> Created(c, r) && !r.ThreadRing? && r.port < p + 1
    ensures forall r: Ring :: r in rings ==> rings[r] == []
  {
    rings := rings0;
    var t := c.qcnts[p];
    while t < c.threads
      invariant c.qcnts[p] <= t
      invariant forall r: Ring :: r in rings <==>
          r in rings0 || (r.PhysRing? && r.port == p && c.qcnts[p] <= r.of < t && r.of < c.threads)
      invariant forall r: Ring :: r in rings ==> rings[r] == []
    {
      rings := rings[PhysRing(p, t) := []];
      t := t + 1;
    }
    ghost var rings1 := rings;
    t := 0;
    while t < c.threads
      invariant t <= c.threads
      invariant forall r: Ring :: r in rings <==> r in rings1 || (r.SwitchRing? && r.port == p && r.of < t)
      invariant forall r: Ring :: r in rings ==> rings[r] == []
    {
      rings := rings[SwitchRing(p, t) := []];
      t := t + 1;
    }
    ghost var rings2 := rings;
    t := 1;
    while t < c.threads
      invariant 1 <= t
      invariant forall r: Ring :: r in rings <==>
          r in rings2 || (r.KniRing? && r.port == p && 1 <= r.of < t && r.of < c.threads)
      invariant forall r: Ring :: r in rings ==> rings[r] == []
    {
      rings := rings[KniRing(p, t) := []];
      t := t + 1;
    }
  }
}
