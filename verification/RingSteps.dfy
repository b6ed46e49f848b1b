/** What every step of every worker keeps: no buffer is lost or doubled, and no ring is touched that was not created. */
module RingSteps {

  import opened Buffers
  import opened Division
  import opened Queues
  import opened Rings
  import opened Workers

  // ---------- where a buffer can be ----------

  ghost function InCall(k: Call, b: Buffer): nat {
    if k.Call? then Times(k.hand, b) + Times(k.buf, b) else 0
  }

  ghost function InProcess(p: Process, b: Buffer): nat {
    if p.Process? then Times(p.todo, b) + Times(p.out, b) else 0
  }

  ghost function InWrite(v: Write, b: Buffer): nat {
    if v.Write? then Times(v.buf, b) else 0
  }

  /** How often b is in the hands of a worker. */
  ghost function Carried(x: Worker, b: Buffer): nat {
    InCall(x.call, b) + InProcess(x.process, b) + InWrite(x.write, b)
  }

  ghost function Flying(workers: seq<Worker>, b: Buffer): nat {
    if workers == [] then 0 else var l := |workers| - 1; Flying(workers[..l], b) + Carried(workers[l], b)
  }

  lemma {:induction false} FlyingSet(workers: seq<Worker>, w: nat, x: Worker, b: Buffer)
    requires w < |workers|
    ensures Flying(workers[w := x], b) + Carried(workers[w], b) == Flying(workers, b) + Carried(x, b)
  {
    var l := |workers| - 1;
    if w == l {
      assert workers[w := x][..l] == workers[..l];
    } else {
      FlyingSet(workers[..l], w, x, b);
      assert workers[w := x][..l] == workers[..l][w := x];
    }
  }

  lemma {:induction false} NoneFlying(workers: seq<Worker>, b: Buffer)
    requires forall w :: 0 <= w < |workers| ==> Carried(workers[w], b) == 0
    ensures Flying(workers, b) == 0
  {
    if workers != [] { NoneFlying(workers[..|workers| - 1], b); }
  }

  /** The buffers that were transmitted, wherever to. */
  function Gone(s: seq<Out>): (r: seq<Buffer>)
    ensures |r| == |s| && forall i :: 0 <= i < |s| ==> r[i] == s[i].b
  {
    seq(|s|, i requires 0 <= i < |s| => s[i].b)
  }

  lemma GoneMore(s: seq<Out>, t: Target, x: seq<Buffer>, b: Buffer)
    ensures Times(Gone(s + Tagged(t, x)), b) == Times(Gone(s), b) + Times(x, b)
  {
    assert Gone(s + Tagged(t, x)) == Gone(s) + x;
    TimesConcat(Gone(s), x, b);
  }

  /** How often b is anywhere. */
  ghost function Total(s: State, b: Buffer): nat {
    Times(Gone(s.sent), b) + Times(s.freed, b) + Times(s.kept, b) + Held(s.rings, b) + Flying(s.workers, b)
  }

  /**
   Every buffer that came in was transmitted, freed or taken over, is in one ring or in the hands of
   one worker, once for each time it came in.
   */
  ghost predicate Balanced(s: State, b: Buffer) {
    Times(s.entered, b) == Total(s, b)
  }

  // ---------- where a worker can be ----------

  /** Worker w, with one of qcnt queues of its own, looks after ring q. */
  ghost predicate Drains(qcnt: nat, w: nat, q: nat) {
    w < qcnt <= q && q % qcnt == w
  }

  ghost predicate TargetOk(c: Config, w: nat, t: Target) {
    match t
    case Hardware(p) => p < |c.qcnts|
    case Kernel(p) => p < |c.qcnts|
    case Switch(p) => p < |c.qcnts|
    case Thread(d) => d < c.threads && d != w
  }

  /** A worker has something of another ring in its hands only where it is about to transmit or free it. */
  ghost predicate CallOk(c: Config, w: nat, k: Call) {
    k.Call? ==>
      && TargetOk(c, w, k.target)
      && (k.at.Take? || k.at.Send? || k.at.Drop? ==> Drains(QueueCount(c, k.target), w, k.q))
      && (k.at.Put? ==> w >= QueueCount(c, k.target))
      && (k.at.Own? ==> w < QueueCount(c, k.target))
      && (!k.at.Send? && !k.at.Drop? ==> k.hand == [])
      && (k.at.Send? || k.at.Drop? ==> k.q < c.threads)
      && |k.hand| <= TX_BURST
  }

  ghost predicate RoundAt(c: Config, w: nat, r: Round) {
    r.Poll? ==> ComesTo(w, c.threads, |c.table|, r.i)
  }

  ghost predicate WorkerOk(c: Config, s: State, w: nat) {
    w < |s.workers| && w < c.threads ==>
      var x := s.workers[w];
      && CallOk(c, w, x.call) && RoundAt(c, w, x.round)
      && (x.process.Process? ==> x.process.port < |c.qcnts|)
      && (x.write.Write? ==> x.write.port < |c.qcnts|)
  }

  /** The rings are those that were created. */
  ghost predicate RingsOk(c: Config, s: State) {
    forall r: Ring :: r in s.rings <==> Created(c, r)
  }

  ghost predicate Inv(c: Config, s: State) {
    && ConfigOk(c) && |s.workers| == c.threads && RingsOk(c, s)
    && (forall w: nat {:trigger WorkerOk(c, s, w)} :: WorkerOk(c, s, w))
    && (forall b: Buffer {:trigger Balanced(s, b)} :: Balanced(s, b))
  }

  // ---------- one step ----------

  /** What a step of worker w keeps. */
  ghost predicate Kept(c: Config, s: State, w: nat, s': State) {
    && |s'.workers| == |s.workers| && (forall v: nat :: v < |s.workers| && v != w ==> s'.workers[v] == s.workers[v])
    && RingsOk(c, s') && WorkerOk(c, s', w)
  }

  ghost predicate Moved(s: State, s': State, b: Buffer) {
    Balanced(s, b) ==> Balanced(s', b)
  }

  lemma SetTotal(s: State, w: nat, x: Worker, b: Buffer)
    requires w < |s.workers|
    ensures Total(Set(s, w, x), b) + Carried(s.workers[w], b) == Total(s, b) + Carried(x, b)
  {
    FlyingSet(s.workers, w, x, b);
  }

  /** What a worker keeps in its hands is not lost. */
  lemma Shifted(s: State, w: nat, x: Worker, b: Buffer)
    requires w < |s.workers| && Carried(x, b) == Carried(s.workers[w], b)
    ensures Moved(s, Set(s, w, x), b)
  {
    SetTotal(s, w, x, b);
  }

  /** What it takes from the front of a ring is in its hands. */
  lemma TookMoved(s: State, w: nat, x: Worker, r: Ring, m: nat, b: Buffer)
    requires w < |s.workers| && r in s.rings && m <= |s.rings[r]|
    requires Carried(x, b) == Carried(s.workers[w], b) + Times(s.rings[r][..m], b)
    ensures Moved(s, Set(s, w, x).(rings := s.rings[r := s.rings[r][m..]]), b)
  {
    SetTotal(s, w, x, b);
    HeldSet(s.rings, r, s.rings[r][m..], b);
    TimesSplit(s.rings[r], m, b);
  }

  /** The ring at which a worker takes, or to which it puts, was created. */
  lemma RingThere(c: Config, w: nat, k: Call)
    requires ConfigOk(c) && w < c.threads && k.Call? && CallOk(c, w, k)
    ensures k.at.Take? && k.q < c.threads ==> Created(c, OwnRing(k.target, k.q))
    ensures k.at.Put? ==> Created(c, OwnRing(k.target, w))
  {}

  lemma NextDrained(qcnt: nat, w: nat, q: nat)
    requires Drains(qcnt, w, q)
    ensures Drains(qcnt, w, q + qcnt)
  {
    AddMultiple(q, 1, qcnt);
  }

  lemma BeginOk(c: Config, w: nat, t: Target, buf: seq<Buffer>)
    requires TargetOk(c, w, t)
    ensures CallOk(c, w, Begin(c, w, t, buf)) && forall b :: InCall(Begin(c, w, t, buf), b) == Times(buf, b)
  {
    var n := QueueCount(c, t);
    if w < n {
      Unique(w, n, 0, w);
      AddMultiple(w, 1, n);
    }
  }

  lemma TakeKept(c: Config, s: State, w: nat)
    requires Inv(c, s) && w < c.threads && s.workers[w].call.Call? && s.workers[w].call.at.Take?
    ensures Kept(c, s, w, TakeStep(c, s, w))
  {
    assert WorkerOk(c, s, w);
    var k := s.workers[w].call;
    RingThere(c, w, k);
    NextDrained(QueueCount(c, k.target), w, k.q);
  }

  lemma TakeMoved(c: Config, s: State, w: nat, b: Buffer)
    requires Inv(c, s) && w < c.threads && s.workers[w].call.Call? && s.workers[w].call.at.Take?
    ensures Moved(s, TakeStep(c, s, w), b)
  {
    assert WorkerOk(c, s, w);
    var x := s.workers[w];
    var k := x.call;
    RingThere(c, w, k);
    assert Times([], b) == 0;
    if k.q >= c.threads {
      Shifted(s, w, x.(call := k.(at := Own)), b);
    } else {
      var r := OwnRing(k.target, k.q);
      var m := Min(TX_BURST, |s.rings[r]|);
      Shifted(s, w, x.(call := k.(q := k.q + QueueCount(c, k.target))), b);
      TookMoved(s, w, x.(call := k.(at := Send, hand := s.rings[r][..m])), r, m, b);
    }
  }

  lemma SendKept(c: Config, s: State, w: nat, n: nat)
    requires Inv(c, s) && w < c.threads && s.workers[w].call.Call? && s.workers[w].call.at.Send?
    ensures Kept(c, s, w, SendStep(s, w, n)) && forall b {:trigger Moved(s, SendStep(s, w, n), b)} ::
        Moved(s, SendStep(s, w, n), b)
  {
    assert WorkerOk(c, s, w);
    var x, s' := s.workers[w], SendStep(s, w, n);
    var m := Min(n, |x.call.hand|);
    forall b: Buffer ensures Moved(s, s', b) {
      SetTotal(s, w, s'.workers[w], b);
      TimesSplit(x.call.hand, m, b);
      GoneMore(s.sent, x.call.target, x.call.hand[..m], b);
    }
  }

  lemma DropKept(c: Config, s: State, w: nat)
    requires Inv(c, s) && w < c.threads && s.workers[w].call.Call? && s.workers[w].call.at.Drop?
    ensures Kept(c, s, w, DropStep(c, s, w))
  {
    assert WorkerOk(c, s, w);
    var k := s.workers[w].call;
    NextDrained(QueueCount(c, k.target), w, k.q);
  }

  lemma DropMoved(c: Config, s: State, w: nat, b: Buffer)
    requires w < |s.workers| && s.workers[w].call.Call?
    ensures Moved(s, DropStep(c, s, w), b)
  {
    var x, s' := s.workers[w], DropStep(c, s, w);
    SetTotal(s, w, s'.workers[w], b);
    if x.call.hand != [] {
      TimesSplit(x.call.hand, 1, b);
      assert x.call.hand[..1] == [x.call.hand[0]];
      TimesConcat(s.freed, [x.call.hand[0]], b);
    }
  }

  lemma OwnKept(c: Config, s: State, w: nat, n: nat)
    requires Inv(c, s) && w < c.threads && s.workers[w].call.Call? && s.workers[w].call.at.Own?
    ensures Kept(c, s, w, OwnStep(s, w, n)) && forall b {:trigger Moved(s, OwnStep(s, w, n), b)} ::
        Moved(s, OwnStep(s, w, n), b)
  {
    assert WorkerOk(c, s, w);
    var x, s' := s.workers[w], OwnStep(s, w, n);
    var m := Min(n, |x.call.buf|);
    forall b: Buffer ensures Moved(s, s', b) {
      SetTotal(s, w, s'.workers[w], b);
      TimesSplit(x.call.buf, m, b);
      GoneMore(s.sent, x.call.target, x.call.buf[..m], b);
    }
  }

  lemma PutKept(c: Config, s: State, w: nat, n: nat)
    requires Inv(c, s) && w < c.threads && s.workers[w].call.Call? && s.workers[w].call.at.Put?
    ensures Kept(c, s, w, PutStep(s, w, n))
  {
    assert WorkerOk(c, s, w);
    RingThere(c, w, s.workers[w].call);
  }

  lemma PutMoved(c: Config, s: State, w: nat, n: nat, b: Buffer)
    requires Inv(c, s) && w < c.threads && s.workers[w].call.Call? && s.workers[w].call.at.Put?
    ensures Moved(s, PutStep(s, w, n), b)
  {
    assert WorkerOk(c, s, w);
    var x, s' := s.workers[w], PutStep(s, w, n);
    var k := x.call;
    var r, m := OwnRing(k.target, w), Min(n, |k.buf|);
    RingThere(c, w, k);
    SetTotal(s, w, s'.workers[w], b);
    HeldSet(s.rings, r, s.rings[r] + k.buf[..m], b);
    TimesConcat(s.rings[r], k.buf[..m], b);
    TimesSplit(k.buf, m, b);
  }

  /** A call that returns leaves nothing in the worker's hands. */
  lemma RestKept(c: Config, s: State, w: nat)
    requires Inv(c, s) && w < c.threads && s.workers[w].call.Call? && s.workers[w].call.at.Rest?
    ensures Kept(c, s, w, RestStep(s, w)) && forall b {:trigger Moved(s, RestStep(s, w), b)} ::
        Moved(s, RestStep(s, w), b)
  {
    assert WorkerOk(c, s, w);
    var x, s' := s.workers[w], RestStep(s, w);
    forall b: Buffer ensures Moved(s, s', b) {
      SetTotal(s, w, s'.workers[w], b);
      if x.call.buf != [] {
        TimesSplit(x.call.buf, 1, b);
        assert x.call.buf[..1] == [x.call.buf[0]];
        TimesConcat(s.freed, [x.call.buf[0]], b);
      }
    }
  }

  lemma CallKept(c: Config, s: State, w: nat, n: nat)
    requires Inv(c, s) && w < c.threads && s.workers[w].call.Call?
    ensures var s' := CallStep(c, s, w, n); Kept(c, s, w, s') && forall b {:trigger Moved(s, s', b)} :: Moved(s, s', b)
  {
    match s.workers[w].call.at
    case Take => TakeKept(c, s, w); forall b { TakeMoved(c, s, w, b); }
    case Send => SendKept(c, s, w, n);
    case Drop => DropKept(c, s, w); forall b { DropMoved(c, s, w, b); }
    case Own => OwnKept(c, s, w, n);
    case Put => PutKept(c, s, w, n); forall b { PutMoved(c, s, w, n, b); }
    case Rest => RestKept(c, s, w);
  }

  lemma ProcessKept(c: Config, s: State, w: nat, ch: Choice)
    requires Inv(c, s) && Legal(c, s, w, ch) && s.workers[w].process.Process? && s.workers[w].call.NoCall?
    requires !HandsToSelf(s, Move(w, ch))
    ensures Kept(c, s, w, ProcessStep(c, s, w, ch.verdict))
  {
    assert WorkerOk(c, s, w);
    var p := s.workers[w].process;
    if ch.verdict.Answer? {
      BeginOk(c, w, Switch(ch.verdict.port), [ch.verdict.b]);
    } else if p.todo == [] {
      BeginOk(c, w, Toward(p.port, p.toKernel), p.out);
    } else if ch.verdict.Forward? {
      BeginOk(c, w, Toward(ch.verdict.port, ch.verdict.toKernel), [p.todo[0]]);
    } else if ch.verdict.HandOver? {
      BeginOk(c, w, Thread(ch.verdict.to), [p.todo[0]]);
    }
  }

  /** The first of the buffers to look at. */
  lemma TodoSplit(p: Process, b: Buffer)
    requires p.Process? && p.todo != []
    ensures Times(p.todo, b) == Times([p.todo[0]], b) + Times(p.todo[1..], b)
  {
    TimesSplit(p.todo, 1, b);
    assert p.todo[..1] == [p.todo[0]];
  }

  lemma ProcessEnds(c: Config, s: State, w: nat, v: Verdict, b: Buffer)
    requires w < |s.workers| && s.workers[w].process.Process? && s.workers[w].call.NoCall?
    requires s.workers[w].process.todo == [] && !v.Answer?
    ensures Moved(s, ProcessStep(c, s, w, v), b)
  {
    Shifted(s, w, ProcessStep(c, s, w, v).workers[w], b);
  }

  lemma ProcessLeaves(c: Config, s: State, w: nat, v: Verdict, b: Buffer)
    requires w < |s.workers| && s.workers[w].process.Process? && s.workers[w].call.NoCall?
    requires s.workers[w].process.todo != []
    requires v.Discard? || v.TakeOver? || v.Collect?
    ensures Moved(s, ProcessStep(c, s, w, v), b)
  {
    var p := s.workers[w].process;
    SetTotal(s, w, ProcessStep(c, s, w, v).workers[w], b);
    TodoSplit(p, b);
    TimesConcat(s.freed, [p.todo[0]], b);
    TimesConcat(s.kept, [p.todo[0]], b);
    TimesConcat(p.out, [p.todo[0]], b);
  }

  lemma ProcessCalls(c: Config, s: State, w: nat, v: Verdict, b: Buffer)
    requires w < |s.workers| && s.workers[w].process.Process? && s.workers[w].call.NoCall?
    requires s.workers[w].process.todo != []
    requires v.Forward? || v.HandOver?
    ensures Moved(s, ProcessStep(c, s, w, v), b)
  {
    TodoSplit(s.workers[w].process, b);
    Shifted(s, w, ProcessStep(c, s, w, v).workers[w], b);
  }

  lemma ProcessAnswers(c: Config, s: State, w: nat, v: Verdict, b: Buffer)
    requires w < |s.workers| && s.workers[w].process.Process? && s.workers[w].call.NoCall?
    requires v.Answer?
    ensures Moved(s, ProcessStep(c, s, w, v), b)
  {
    var x' := ProcessStep(c, s, w, v).workers[w];
    SetTotal(s, w, x', b);
    TimesConcat(s.entered, [v.b], b);
    assert Carried(x', b) == Carried(s.workers[w], b) + Times([v.b], b);
  }

  lemma ProcessMoved(c: Config, s: State, w: nat, v: Verdict, b: Buffer)
    requires w < |s.workers| && s.workers[w].process.Process? && s.workers[w].call.NoCall?
    ensures Moved(s, ProcessStep(c, s, w, v), b)
  {
    if v.Answer? {
      ProcessAnswers(c, s, w, v, b);
    } else if s.workers[w].process.todo == [] {
      ProcessEnds(c, s, w, v, b);
    } else if v.Discard? || v.TakeOver? || v.Collect? {
      ProcessLeaves(c, s, w, v, b);
    } else {
      ProcessCalls(c, s, w, v, b);
    }
  }

  lemma WriteKept(c: Config, s: State, w: nat)
    requires Inv(c, s) && w < c.threads && s.workers[w].write.Write? && s.workers[w].process.NoProcess?
    ensures Kept(c, s, w, WriteStep(c, s, w))
  {
    assert WorkerOk(c, s, w);
  }

  lemma WriteTakes(s: State, w: nat, b: Buffer)
    requires w < |s.workers| && s.workers[w].write.Write? && s.workers[w].process.NoProcess?
    requires ThreadRing(w, s.workers[w].write.k) in s.rings
    ensures var x := s.workers[w];
            var v, r := x.write, ThreadRing(w, x.write.k);
            var m := Min(RX_BURST, |s.rings[r]|);
            var y := x.(write := v.(k := v.k + 1), process := Process(0, v.toKernel, false, s.rings[r][..m], []));
            Moved(s, Set(s, w, y).(rings := s.rings[r := s.rings[r][m..]]), b)
  {
    var x := s.workers[w];
    var v, r := x.write, ThreadRing(w, x.write.k);
    var m := Min(RX_BURST, |s.rings[r]|);
    var y := x.(write := v.(k := v.k + 1), process := Process(0, v.toKernel, false, s.rings[r][..m], []));
    TookMoved(s, w, y, r, m, b);
  }

  lemma WriteMoved(c: Config, s: State, w: nat, b: Buffer)
    requires w < |s.workers| && s.workers[w].write.Write? && s.workers[w].process.NoProcess?
    ensures Moved(s, WriteStep(c, s, w), b)
  {
    var x, s' := s.workers[w], WriteStep(c, s, w);
    var v := x.write;
    if v.k < c.threads && v.k != w && Content(s, ThreadRing(w, v.k)) != [] {
      WriteTakes(s, w, b);
    } else {
      var x' := if v.k >= c.threads then x.(write := NoWrite, process := Process(v.port, v.toKernel, true, v.buf, []))
                else x.(write := v.(k := v.k + 1));
      assert s' == Set(s, w, x');
      Shifted(s, w, x', b);
    }
  }

  lemma PollKept(c: Config, s: State, w: nat, i: nat, received: seq<Buffer>)
    requires Inv(c, s) && w < c.threads && i < |c.table| && s.workers[w].call.NoCall? && s.workers[w].write.NoWrite?
    ensures Kept(c, s, w, PollStep(c, s, w, c.table[i], received))
  {
    assert WorkerOk(c, s, w);
    assert EntryOk(c, i);
    var e := c.table[i];
    var r := SwitchRing(e.port, e.id);
    BeginOk(c, w, Hardware(e.port), Content(s, r)[..Min(RX_BURST, |Content(s, r)|)]);
  }

  lemma PollMoved(c: Config, s: State, w: nat, i: nat, received: seq<Buffer>, b: Buffer)
    requires Inv(c, s) && w < c.threads && i < |c.table| && s.workers[w].call.NoCall? && s.workers[w].write.NoWrite?
    ensures Moved(s, PollStep(c, s, w, c.table[i], received), b)
  {
    assert EntryOk(c, i);
    var e, x := c.table[i], s.workers[w];
    if e.kind == Vport {
      var r := SwitchRing(e.port, e.id);
      var m := Min(RX_BURST, |s.rings[r]|);
      BeginOk(c, w, Hardware(e.port), s.rings[r][..m]);
      TookMoved(s, w, x.(call := Begin(c, w, Hardware(e.port), s.rings[r][..m])), r, m, b);
    } else {
      ReceiveMoved(c, s, w, e, received, b);
    }
  }

  lemma ReceiveMoved(c: Config, s: State, w: nat, e: Queue, received: seq<Buffer>, b: Buffer)
    requires w < |s.workers| && e.kind != Vport && s.workers[w].write.NoWrite?
    ensures Moved(s, PollStep(c, s, w, e, received), b)
  {
    var got := received[..Min(RX_BURST, |received|)];
    SetTotal(s, w, s.workers[w].(write := Write(e.port, e.kind == Physical, 0, got)), b);
    TimesConcat(s.entered, got, b);
  }

  /** The rest of the round moves no buffer. */
  lemma SetRoundInv(c: Config, s: State, w: nat, r: Round)
    requires Inv(c, s) && w < c.threads && RoundAt(c, w, r)
    ensures Inv(c, SetRound(s, w, r)) && Kept(c, s, w, SetRound(s, w, r))
  {
    var s' := SetRound(s, w, r);
    assert WorkerOk(c, s, w);
    forall v: nat ensures WorkerOk(c, s', v) { assert WorkerOk(c, s, v); }
    forall b: Buffer ensures Balanced(s', b) {
      assert Balanced(s, b);
      SetTotal(s, w, s'.workers[w], b);
    }
  }

  /** The flushing writes begin with nothing in the worker's hands. */
  lemma FlushKept(c: Config, s: State, w: nat, port: nat, kind: Kind)
    requires Inv(c, s) && w < c.threads && port < |c.qcnts|
    ensures Kept(c, s, w, FlushRound(c, s, w, port, kind))
  {
    assert WorkerOk(c, s, w);
    BeginOk(c, w, Hardware(port), []);
    BeginOk(c, w, Kernel(port), []);
  }

  lemma FlushMoved(c: Config, s: State, w: nat, port: nat, kind: Kind, b: Buffer)
    requires w < |s.workers| && s.workers[w].call.NoCall? && s.workers[w].write.NoWrite? && port < |c.qcnts|
    ensures Moved(s, FlushRound(c, s, w, port, kind), b)
  {
    var x := s.workers[w];
    assert Times([], b) == 0;
    Shifted(s, w, x.(round := Flush(port, Vport), call := Begin(c, w, Hardware(port), [])), b);
    Shifted(s, w, x.(round := Flush(port, Kni), write := Write(port, true, 0, [])), b);
    Shifted(s, w, x.(round := Flush(port + 1, Physical), call := Begin(c, w, Kernel(port), [])), b);
  }

  lemma FlushedKept(c: Config, s: State, w: nat, port: nat, kind: Kind)
    requires Inv(c, s) && w < c.threads && s.workers[w].call.NoCall? && s.workers[w].write.NoWrite?
    ensures var s' := FlushRound(c, s, w, port, kind); Kept(c, s, w, s') && forall b {:trigger Moved(s, s', b)} ::
        Moved(s, s', b)
  {
    if port < |c.qcnts| {
      FlushKept(c, s, w, port, kind);
      forall b { FlushMoved(c, s, w, port, kind, b); }
    } else {
      ComesStart(w, c.threads, |c.table|);
      SetRoundInv(c, s, w, Poll(w));
      Rebalanced(c, s, SetRound(s, w, Poll(w)));
    }
  }

  lemma Rebalanced(c: Config, s: State, s': State)
    requires Inv(c, s')
    ensures forall b {:trigger Moved(s, s', b)} :: Moved(s, s', b)
  {
    forall b: Buffer ensures Moved(s, s', b) { assert Balanced(s', b); }
  }

  lemma PolledKept(c: Config, s: State, w: nat, i: nat, received: seq<Buffer>)
    requires Inv(c, s) && w < c.threads && s.workers[w].call.NoCall? && s.workers[w].write.NoWrite?
    requires ComesTo(w, c.threads, |c.table|, i)
    ensures var s' := PollRound(c, s, w, i, received); Kept(c, s, w, s') && forall b {:trigger Moved(s, s', b)} ::
        Moved(s, s', b)
  {
    if i >= |c.table| {
      SetRoundInv(c, s, w, Flush(0, Physical));
      Rebalanced(c, s, SetRound(s, w, Flush(0, Physical)));
    } else {
      var next := Poll((i + c.threads) % 256);
      ComesNext(w, c.threads, |c.table|, i);
      SetRoundInv(c, s, w, next);
      PollFrom(c, s, w, i, SetRound(s, w, next), received);
    }
  }

  lemma PollFrom(c: Config, s: State, w: nat, i: nat, s1: State, received: seq<Buffer>)
    requires Inv(c, s1) && Kept(c, s, w, s1) && w < c.threads && i < |c.table|
    requires s1.workers[w].call.NoCall? && s1.workers[w].write.NoWrite?
    ensures var s' := PollStep(c, s1, w, c.table[i], received);
            Kept(c, s, w, s') && forall b {:trigger Moved(s, s', b)} :: Moved(s, s', b)
  {
    var s' := PollStep(c, s1, w, c.table[i], received);
    PollKept(c, s1, w, i, received);
    forall b: Buffer ensures Moved(s, s', b) {
      assert Balanced(s1, b);
      PollMoved(c, s1, w, i, received, b);
    }
  }

  lemma RoundKept(c: Config, s: State, w: nat, received: seq<Buffer>)
    requires Inv(c, s) && w < c.threads && s.workers[w].call.NoCall? && s.workers[w].write.NoWrite?
    ensures var s' := RoundStep(c, s, w, received); Kept(c, s, w, s') && forall b {:trigger Moved(s, s', b)} ::
        Moved(s, s', b)
  {
    assert WorkerOk(c, s, w);
    match s.workers[w].round
    case Poll(i) => PolledKept(c, s, w, i, received);
    case Flush(port, kind) => FlushedKept(c, s, w, port, kind);
  }

  /** A step of one worker changes no other, and moves no buffer out of sight. */
  lemma StepKept(c: Config, s: State, m: Move, s': State)
    requires Inv(c, s) && Step(c, s, m, s') && !HandsToSelf(s, m)
    ensures Kept(c, s, m.w, s') && forall b {:trigger Moved(s, s', b)} :: Moved(s, s', b)
  {
    var x := s.workers[m.w];
    if x.call.Call? {
      CallKept(c, s, m.w, m.choice.n);
    } else if x.process.Process? {
      assert m == Move(m.w, m.choice);
      ProcessKept(c, s, m.w, m.choice);
      forall b { ProcessMoved(c, s, m.w, m.choice.verdict, b); }
    } else if x.write.Write? {
      WriteKept(c, s, m.w);
      forall b { WriteMoved(c, s, m.w, b); }
    } else {
      RoundKept(c, s, m.w, m.choice.received);
    }
  }

  /** Every step keeps the invariant, unless it hands a buffer over to the worker itself. */
  lemma StepInv(c: Config, s: State, m: Move, s': State)
    requires Inv(c, s) && Step(c, s, m, s')
    ensures Inv(c, s') <==> !HandsToSelf(s, m)
  {
    if HandsToSelf(s, m) {
      assert !WorkerOk(c, s', m.w);
    } else {
      StepKept(c, s, m, s');
      KeptInv(c, s, m.w, s');
    }
  }

  /** What then goes wrong: the next step of the worker puts the buffer into a ring that was not created. */
  lemma NoSuchRing(c: Config, s: State, m: Move, s': State, ch: Choice)
    requires Inv(c, s) && Step(c, s, m, s') && HandsToSelf(s, m)
    ensures m.w < |s'.workers| && !RingsOk(c, Next(c, s', m.w, ch))
  {
    var r := ThreadRing(m.w, m.w);
    assert s'.workers[m.w].call.at == Put && r in Next(c, s', m.w, ch).rings && !Created(c, r);
  }

  lemma KeptInv(c: Config, s: State, w: nat, s': State)
    requires Inv(c, s) && w < c.threads && Kept(c, s, w, s') && forall b {:trigger Moved(s, s', b)} :: Moved(s, s', b)
    ensures Inv(c, s')
  {
    forall v: nat ensures WorkerOk(c, s', v) { assert WorkerOk(c, s, v); }
    forall b: Buffer ensures Balanced(s', b) { assert Balanced(s, b) && Moved(s, s', b); }
  }

  lemma InitInv(c: Config, s: State)
    requires ConfigOk(c) && Init(c, s)
    ensures Inv(c, s)
  {
    forall w: nat ensures WorkerOk(c, s, w) {
      if w < c.threads { ComesStart(w, c.threads, |c.table|); }
    }
    forall b: Buffer ensures Balanced(s, b) {
      NoneHeld(s.rings, b);
      NoneFlying(s.workers, b);
    }
  }

  /** In every state of every proper run, whatever the interleaving. */
  lemma {:induction false} RunInv(c: Config, states: seq<State>, moves: seq<Move>, i: nat)
    requires ConfigOk(c) && Proper(c, states, moves) && i < |states|
    ensures Inv(c, states[i])
  {
    if i == 0 {
      InitInv(c, states[0]);
    } else {
      RunInv(c, states, moves, i - 1);
      assert StepAt(c, states, moves, i - 1);
      StepInv(c, states[i - 1], moves[i - 1], states[i]);
    }
  }

  /** And in those runs only. */
  lemma RunInvIff(c: Config, states: seq<State>, moves: seq<Move>)
    requires ConfigOk(c) && Run(c, states, moves)
    ensures (forall i :: 0 <= i < |states| ==> Inv(c, states[i])) <==> Proper(c, states, moves)
  {
    if Proper(c, states, moves) {
      forall i | 0 <= i < |states| ensures Inv(c, states[i]) { RunInv(c, states, moves, i); }
    } else {
      var i :| 0 <= i < |moves| && HandsToSelf(states[i], moves[i]);
      assert StepAt(c, states, moves, i);
      if Inv(c, states[i]) { StepInv(c, states[i], moves[i], states[i + 1]); }
    }
  }

  // ---------- the buffers on a worker's stack ----------

  /** No burst is longer than the array it is in. */
  ghost predicate Bounded(x: Worker) {
    && (x.call.Call? ==> |x.call.hand| <= 512 && |x.call.buf| <= 256)
    && (x.process.Process? ==> |x.process.todo| + |x.process.out| <= 256)
    && (x.write.Write? ==> |x.write.buf| <= 256)
  }

  ghost predicate AllBounded(s: State) {
    forall w: nat {:trigger s.workers[w]} :: w < |s.workers| ==> Bounded(s.workers[w])
  }

  /** A step changes its own worker only. */
  lemma StaysBounded(s: State, w: nat, s': State)
    requires AllBounded(s) && |s'.workers| == |s.workers| && (w < |s'.workers| ==> Bounded(s'.workers[w]))
    requires forall v: nat :: v < |s.workers| && v != w ==> s'.workers[v] == s.workers[v]
    ensures AllBounded(s')
  {}

  lemma CallBounded(c: Config, s: State, w: nat, n: nat)
    requires w < |s.workers| && s.workers[w].call.Call? && Bounded(s.workers[w])
    ensures Bounded(CallStep(c, s, w, n).workers[w])
  {
    var k := s.workers[w].call;
    match k.at
    case Take =>
    case Send => assert |k.hand[Min(n, |k.hand|)..]| <= |k.hand|;
    case Drop =>
    case Own => assert |k.buf[Min(n, |k.buf|)..]| <= |k.buf|;
    case Put => assert |k.buf[Min(n, |k.buf|)..]| <= |k.buf|;
    case Rest =>
  }

  lemma ProcessBounded(c: Config, s: State, w: nat, v: Verdict)
    requires w < |s.workers| && s.workers[w].process.Process? && Bounded(s.workers[w])
    ensures Bounded(ProcessStep(c, s, w, v).workers[w])
  {}

  lemma WriteBounded(c: Config, s: State, w: nat)
    requires w < |s.workers| && s.workers[w].write.Write? && Bounded(s.workers[w])
    ensures Bounded(WriteStep(c, s, w).workers[w])
  {}

  lemma RoundBounded(c: Config, s: State, w: nat, received: seq<Buffer>)
    requires w < |s.workers| && Bounded(s.workers[w])
    ensures |RoundStep(c, s, w, received).workers| == |s.workers| && Bounded(RoundStep(c, s, w, received).workers[w])
  {}

  /** Every step, a proper one or not, changes one worker, and its place in the round only between calls. */
  lemma StepOthers(c: Config, s: State, m: Move, s': State)
    requires Step(c, s, m, s')
    ensures |s'.workers| == |s.workers|
    ensures forall v: nat :: v < |s.workers| && v != m.w ==> s'.workers[v] == s.workers[v]
  {
    var x := s.workers[m.w];
    if x.call.Call? {
      assert s'.workers == s.workers[m.w := s'.workers[m.w]];
    } else if x.process.Process? {
      assert s'.workers == s.workers[m.w := s'.workers[m.w]];
    } else if x.write.Write? {
      assert s'.workers == s.workers[m.w := s'.workers[m.w]];
    }
  }

  lemma StepBounded(c: Config, s: State, m: Move, s': State)
    requires Step(c, s, m, s') && AllBounded(s)
    ensures AllBounded(s')
  {
    var x := s.workers[m.w];
    assert Bounded(x);
    StepOthers(c, s, m, s');
    if x.call.Call? {
      CallBounded(c, s, m.w, m.choice.n);
    } else if x.process.Process? {
      ProcessBounded(c, s, m.w, m.choice.verdict);
    } else if x.write.Write? {
      WriteBounded(c, s, m.w);
    } else {
      RoundBounded(c, s, m.w, m.choice.received);
    }
    StaysBounded(s, m.w, s');
  }

  /** In every state of every run, no worker has more in its hands than fits. */
  lemma {:induction false} RunBounded(c: Config, states: seq<State>, moves: seq<Move>, i: nat)
    requires Run(c, states, moves) && i < |states|
    ensures AllBounded(states[i])
  {
    if i > 0 {
      RunBounded(c, states, moves, i - 1);
      assert StepAt(c, states, moves, i - 1);
      StepBounded(c, states[i - 1], moves[i - 1], states[i]);
    }
  }

  // ---------- where in its round a worker is ----------

  ghost predicate RoundsAt(c: Config, s: State) {
    && |s.workers| == c.threads
    && forall w: nat {:trigger s.workers[w]} :: w < c.threads ==> RoundAt(c, w, s.workers[w].round)
  }

  lemma CallRound(c: Config, s: State, w: nat, n: nat)
    requires w < |s.workers| && s.workers[w].call.Call?
    ensures |CallStep(c, s, w, n).workers| == |s.workers|
    ensures var x, x' := s.workers[w], CallStep(c, s, w, n).workers[w];
      x'.round == x.round && x'.process == x.process && x'.write == x.write
  {}

  lemma ProcessRound(c: Config, s: State, w: nat, v: Verdict)
    requires w < |s.workers| && s.workers[w].process.Process?
    ensures |ProcessStep(c, s, w, v).workers| == |s.workers|
    ensures ProcessStep(c, s, w, v).workers[w].round == s.workers[w].round
  {}

  lemma NextRound(c: Config, s: State, w: nat, received: seq<Buffer>)
    requires w < |s.workers| && w < c.threads <= 256 && RoundAt(c, w, s.workers[w].round)
    ensures |RoundStep(c, s, w, received).workers| == |s.workers|
    ensures RoundAt(c, w, RoundStep(c, s, w, received).workers[w].round)
  {
    ComesStart(w, c.threads, |c.table|);
    var r := s.workers[w].round;
    if r.Poll? && r.i < |c.table| { ComesNext(w, c.threads, |c.table|, r.i); }
  }

  lemma StepRounds(c: Config, s: State, m: Move, s': State)
    requires Step(c, s, m, s') && RoundsAt(c, s) && c.threads <= 256
    ensures RoundsAt(c, s')
  {
    var x := s.workers[m.w];
    StepOthers(c, s, m, s');
    if x.call.Call? {
      CallRound(c, s, m.w, m.choice.n);
    } else if x.process.Process? {
      ProcessRound(c, s, m.w, m.choice.verdict);
    } else if !x.write.Write? {
      NextRound(c, s, m.w, m.choice.received);
    }
    assert RoundAt(c, m.w, s'.workers[m.w].round);
  }

  /** In every state of every run, a worker that polls is at an index its loop comes to. */
  lemma {:induction false} RunRounds(c: Config, states: seq<State>, moves: seq<Move>, i: nat)
    requires Run(c, states, moves) && i < |states| && c.threads <= 256
    ensures RoundsAt(c, states[i])
  {
    if i > 0 {
      RunRounds(c, states, moves, i - 1);
      assert StepAt(c, states, moves, i - 1);
      StepRounds(c, states[i - 1], moves[i - 1], states[i]);
    } else {
      forall w: nat | w < c.threads ensures RoundAt(c, w, states[0].workers[w].round) {
        ComesStart(w, c.threads, |c.table|);
      }
    }
  }

  /** A write that returns has nothing left in its hands. */
  lemma ReturnsEmpty(c: Config, s: State, m: Move, s': State, b: Buffer)
    requires Inv(c, s) && Step(c, s, m, s') && s.workers[m.w].call.Call? && s'.workers[m.w].call.NoCall?
    ensures InCall(s.workers[m.w].call, b) == 0
  {
    assert WorkerOk(c, s, m.w);
    var k := s.workers[m.w].call;
    assert k.at.Rest?;
  }
}
