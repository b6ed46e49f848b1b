/** A write of one worker from its beginning to its return, with no other worker in between. */
module RingCalls {

  import opened Buffers
  import opened Division
  import opened Rings
  import opened RingSteps
  import opened RingOwners

  /** How many buffers of the burst from ring q, or of its own, the hardware takes. */
  function Accepted(transmit: seq<nat>, q: nat): nat {
    if q < |transmit| then transmit[q] else 0
  }

  /** The hardware takes whole bursts of up to n buffers from every ring, and there is room for as many. */
  ghost predicate Keen(c: Config, transmit: seq<nat>, room: nat, n: nat) {
    room >= n && |transmit| >= c.threads && forall q :: 0 <= q < |transmit| ==> transmit[q] >= n
  }

  /** Ring r leads to target t, and worker w looks after it. */
  ghost predicate Serves(c: Config, w: nat, t: Target, r: Ring) {
    r == OwnRing(t, Producer(r)) && Drains(QueueCount(c, t), w, Producer(r))
  }

  /** What is left after one burst. */
  function After(s: seq<Buffer>): seq<Buffer> {
    s[Min(512, |s|)..]
  }

  /**
   What the whole write does to a ring: a burst from each that the worker looks after, and what
   there is room for to its own.
   */
  ghost predicate Written(c: Config, s: State, w: nat, t: Target, room: nat, buf: seq<Buffer>, s': State, r: Ring) {
    r in s.rings ==>
      && r in s'.rings
      && s'.rings[r] == if Serves(c, w, t, r) then After(s.rings[r])
                        else if r == OwnRing(t, w) && w >= QueueCount(c, t) then s.rings[r] + buf[..Min(room, |buf|)]
                        else s.rings[r]
  }

  /** The loop over the rings has come to ring q. */
  ghost predicate Drained(c: Config, s: State, w: nat, t: Target, q: nat, s': State, r: Ring) {
    r in s.rings ==>
      && r in s'.rings
      && s'.rings[r] == if Serves(c, w, t, r) && Producer(r) < q then After(s.rings[r]) else s.rings[r]
  }

  /** The burst that the write takes from ring q. */
  function Burst(s: State, t: Target, q: nat): (h: seq<Buffer>)
    ensures |h| <= 512
  {
    Content(s, OwnRing(t, q))[..Min(512, |Content(s, OwnRing(t, q))|)]
  }

  /** The first n buffers of a burst, and the others. */
  function Front(h: seq<Buffer>, n: nat): seq<Buffer> {
    if n >= |h| then h else h[..n]
  }

  function Back(h: seq<Buffer>, n: nat): seq<Buffer> {
    if n >= |h| then [] else h[n..]
  }

  /** Of burst h the first n buffers were transmitted, and the others freed. */
  ghost predicate Parted(s: State, t: Target, h: seq<Buffer>, n: nat, s': State) {
    s'.sent == s.sent + Tagged(t, Front(h, n)) && s'.freed == s.freed + Back(h, n)
  }

  lemma TaggedConcat(t: Target, a: seq<Buffer>, b: seq<Buffer>)
    ensures Tagged(t, a + b) == Tagged(t, a) + Tagged(t, b)
  {}

  ghost predicate Recorded(c: Config, s: State, t: Target, hs: seq<seq<Buffer>>) {
    |hs| == c.threads && forall q :: 0 <= q < c.threads ==> hs[q] == Burst(s, t, q)
  }

  /** The burst of each ring. */
  function Bursts(c: Config, s: State, t: Target): (hs: seq<seq<Buffer>>)
    ensures Recorded(c, s, t, hs) && forall q :: 0 <= q < c.threads ==> |hs[q]| <= 512
  {
    seq(c.threads, q requires q >= 0 => Burst(s, t, q))
  }

  /** What is transmitted of bursts q, q + count and so on. */
  function Sent(hs: seq<seq<Buffer>>, q: nat, count: nat, transmit: seq<nat>): seq<Buffer>
    requires count > 0
    decreases |hs| - q
  {
    if q >= |hs| then [] else Front(hs[q], Accepted(transmit, q)) + Sent(hs, q + count, count, transmit)
  }

  /** And what is freed: the rest of each. */
  function Unsent(hs: seq<seq<Buffer>>, q: nat, count: nat, transmit: seq<nat>): seq<Buffer>
    requires count > 0
    decreases |hs| - q
  {
    if q >= |hs| then [] else Back(hs[q], Accepted(transmit, q)) + Unsent(hs, q + count, count, transmit)
  }

  lemma {:induction false} AllSent(hs: seq<seq<Buffer>>, q: nat, count: nat, transmit: seq<nat>)
    requires count > 0 && |transmit| >= |hs| && forall q :: 0 <= q < |hs| ==> transmit[q] >= |hs[q]|
    ensures Unsent(hs, q, count, transmit) == []
    decreases |hs| - q
  {
    if q < |hs| {
      assert Back(hs[q], Accepted(transmit, q)) == [];
      AllSent(hs, q + count, count, transmit);
    }
  }

  /** Worker w is in a write, and no other worker has moved since s. */
  ghost predicate Within(c: Config, s: State, w: nat, buf: seq<Buffer>, s': State, k: Call) {
    && Inv(c, s') && w < |s.workers| && s'.workers == s.workers[w := s.workers[w].(call := k)]
    && s'.entered == s.entered + buf && s'.kept == s.kept
  }

  /** One step more. */
  lemma Goes(c: Config, s: State, w: nat, buf: seq<Buffer>, s': State, k: Call, n: nat)
    requires Within(c, s, w, buf, s', k) && w < c.threads && k.Call?
    ensures var s2 := CallStep(c, s', w, n); Within(c, s, w, buf, s2, s2.workers[w].call)
  {
    CallKept(c, s', w, n);
    KeptInv(c, s', w, CallStep(c, s', w, n));
  }

  lemma SameClass(q: nat, r: nat, n: nat)
    requires n > 0 && q <= r < q + n && q % n == r % n
    ensures q == r
  {
    var d := r / n - q / n;
    assert q == q / n * n + q % n && r == r / n * n + r % n;
    assert r - q == r / n * n - q / n * n == d * n;
    Beyond(d, n);
  }

  lemma BeginDrained(c: Config, s: State, w: nat, t: Target, s': State, r: Ring)
    requires w < QueueCount(c, t) && s'.rings == s.rings
    ensures Drained(c, s, w, t, w + QueueCount(c, t), s', r)
  {
    var n := QueueCount(c, t);
    if Serves(c, w, t, r) && Producer(r) < w + n {
      Unique(w, n, 0, w);
      SameClass(w, Producer(r), n);
    }
  }

  lemma NextRing(c: Config, s: State, w: nat, t: Target, q: nat, s': State, s2: State, r: Ring)
    requires Drained(c, s, w, t, q, s', r) && Drains(QueueCount(c, t), w, q)
    requires r in s'.rings ==>
        r in s2.rings && s2.rings[r] == if r == OwnRing(t, q) then After(s'.rings[r]) else s'.rings[r]
    ensures Drained(c, s, w, t, q + QueueCount(c, t), s2, r)
  {
    var n := QueueCount(c, t);
    if Serves(c, w, t, r) && q <= Producer(r) < q + n { SameClass(q, Producer(r), n); }
  }

  /** One burst was taken from ring q, and no other ring changed. */
  ghost predicate TookBurst(t: Target, q: nat, s: State, s': State) {
    forall r {:trigger r in s.rings} :: r in s.rings ==>
        r in s'.rings && s'.rings[r] == if r == OwnRing(t, q) then After(s.rings[r]) else s.rings[r]
  }

  lemma NextRings(c: Config, s: State, w: nat, t: Target, q: nat, s1: State, q': nat, s': State)
    requires Drains(QueueCount(c, t), w, q) && q' == q + QueueCount(c, t)
    requires forall r {:trigger Drained(c, s, w, t, q, s1, r)} :: Drained(c, s, w, t, q, s1, r)
    requires TookBurst(t, q, s1, s')
    ensures forall r {:trigger Drained(c, s, w, t, q', s', r)} :: Drained(c, s, w, t, q', s', r)
  {
    forall r ensures Drained(c, s, w, t, q', s', r) {
      assert Drained(c, s, w, t, q, s1, r);
      NextRing(c, s, w, t, q, s1, s', r);
    }
  }

  /** The loop that frees what was taken and not transmitted. */
  method DropAll(c: Config, s0: State, w: nat, ghost s: State, ghost buf: seq<Buffer>, ghost t: Target, ghost q: nat)
      returns (s': State)
    requires w < c.threads && |s0.workers| == c.threads && s0.workers[w].call.Call?
    requires Within(c, s, w, buf, s0, s0.workers[w].call)
    requires s0.workers[w].call == Call(t, Drop, q, s0.workers[w].call.hand, buf)
    ensures Within(c, s, w, buf, s', Call(t, Take, q + QueueCount(c, t), [], buf)) && s'.rings == s0.rings
    ensures s'.freed == s0.freed + s0.workers[w].call.hand && s'.sent == s0.sent
  {
    s' := s0;
    while s'.workers[w].call.hand != []
      invariant |s'.workers| == c.threads && s'.workers[w].call.Call? && Within(c, s, w, buf, s', s'.workers[w].call)
      invariant s'.workers[w].call == Call(t, Drop, q, s'.workers[w].call.hand, buf) && s'.rings == s0.rings
      invariant s'.freed + s'.workers[w].call.hand == s0.freed + s0.workers[w].call.hand && s'.sent == s0.sent
      decreases |s'.workers[w].call.hand|
    {
      Goes(c, s, w, buf, s', s'.workers[w].call, 0);
      s' := CallStep(c, s', w, 0);
    }
    Goes(c, s, w, buf, s', s'.workers[w].call, 0);
    s' := CallStep(c, s', w, 0);
  }

  /** One round of the loop over the rings. */
  method DrainOne(c: Config, s0: State, w: nat, ghost s: State, ghost buf: seq<Buffer>, ghost t: Target, q: nat,
      n: nat, ghost next: nat) returns (s': State)
    requires w < c.threads && q < c.threads && Within(c, s, w, buf, s0, Call(t, Take, q, [], buf))
    requires |s0.workers| == c.threads && next == q + QueueCount(c, t)
    ensures Within(c, s, w, buf, s', Call(t, Take, next, [], buf))
    ensures TookBurst(t, q, s0, s')
    ensures Parted(s0, t, Burst(s0, t, q), n, s')
  {
    assert WorkerOk(c, s0, w);
    RingThere(c, w, s0.workers[w].call);
    Goes(c, s, w, buf, s0, s0.workers[w].call, 0);
    s' := CallStep(c, s0, w, 0);
    if s'.workers[w].call.at == Send {
      Goes(c, s, w, buf, s', s'.workers[w].call, n);
      s' := CallStep(c, s', w, n);
      s' := DropAll(c, s', w, s, buf, t, q);
    }
  }

  /** What was transmitted and freed, from ring q0 up to ring q. */
  ghost predicate Tally(t: Target, hs: seq<seq<Buffer>>, q0: nat, count: nat, transmit: seq<nat>, s0: State, q: nat,
      s': State)
    requires count > 0
  {
    && s'.sent + Tagged(t, Sent(hs, q, count, transmit)) == s0.sent + Tagged(t, Sent(hs, q0, count, transmit))
    && s'.freed + Unsent(hs, q, count, transmit) == s0.freed + Unsent(hs, q0, count, transmit)
  }

  lemma Regroup<T>(a: seq<T>, b: seq<T>, c: seq<T>)
    ensures a + b + c == a + (b + c)
  {}

  /** The ring that the loop has come to is as it was at the beginning. */
  lemma SameBurst(c: Config, s: State, w: nat, t: Target, q: nat, s': State)
    requires Drained(c, s, w, t, q, s', OwnRing(t, q)) && RingsOk(c, s') && RingsOk(c, s)
    ensures Burst(s', t, q) == Burst(s, t, q)
  {}

  /** So its burst is the one to count. */
  lemma TallyStep(t: Target, hs: seq<seq<Buffer>>, q0: nat, count: nat, transmit: seq<nat>, s0: State, q: nat,
      s1: State, q': nat, s': State)
    requires count > 0 && q < |hs| && q' == q + count && Tally(t, hs, q0, count, transmit, s0, q, s1)
    requires Parted(s1, t, hs[q], Accepted(transmit, q), s')
    ensures Tally(t, hs, q0, count, transmit, s0, q', s')
  {
    var front, later := Front(hs[q], Accepted(transmit, q)), Sent(hs, q', count, transmit);
    TaggedConcat(t, front, later);
    Regroup(s1.sent, Tagged(t, front), Tagged(t, later));
    Regroup(s1.freed, Back(hs[q], Accepted(transmit, q)), Unsent(hs, q', count, transmit));
  }

  /** The loop over the rings has come to ring q, and hs are the bursts it began with. */
  ghost predicate Draining(c: Config, s: State, w: nat, t: Target, hs: seq<seq<Buffer>>, transmit: seq<nat>, s0: State,
      q: nat, s': State)
  {
    && QueueCount(c, t) > 0 && |hs| == c.threads
    && Tally(t, hs, w + QueueCount(c, t), QueueCount(c, t), transmit, s0, q, s')
    && forall r {:trigger Drained(c, s, w, t, q, s', r)} :: Drained(c, s, w, t, q, s', r)
  }

  lemma DrainStart(c: Config, s: State, w: nat, t: Target, hs: seq<seq<Buffer>>, transmit: seq<nat>, s0: State)
    requires w < QueueCount(c, t) && |hs| == c.threads && s0.rings == s.rings
    ensures Draining(c, s, w, t, hs, transmit, s0, w + QueueCount(c, t), s0)
  {
    var q := w + QueueCount(c, t);
    forall r ensures Drained(c, s, w, t, q, s0, r) { BeginDrained(c, s, w, t, s0, r); }
  }

  lemma DrainStep(c: Config, s: State, w: nat, t: Target, hs: seq<seq<Buffer>>, transmit: seq<nat>, s0: State, q: nat,
      s1: State, q': nat, s': State)
    requires Draining(c, s, w, t, hs, transmit, s0, q, s1) && q < c.threads && q' == q + QueueCount(c, t)
    requires Drains(QueueCount(c, t), w, q) && Burst(s1, t, q) == hs[q]
    requires Parted(s1, t, Burst(s1, t, q), Accepted(transmit, q), s')
    requires TookBurst(t, q, s1, s')
    ensures Draining(c, s, w, t, hs, transmit, s0, q', s')
  {
    TallyStep(t, hs, w + QueueCount(c, t), QueueCount(c, t), transmit, s0, q, s1, q', s');
    NextRings(c, s, w, t, q, s1, q', s');
  }

  lemma AtRing(c: Config, s1: State, w: nat, s: State, buf: seq<Buffer>, t: Target, hs: seq<seq<Buffer>>,
      transmit: seq<nat>, s0: State, q: nat)
    requires w < c.threads && q < c.threads && Within(c, s, w, buf, s1, Call(t, Take, q, [], buf))
    requires RingsOk(c, s) && Recorded(c, s, t, hs)
    requires Draining(c, s, w, t, hs, transmit, s0, q, s1)
    ensures Drains(QueueCount(c, t), w, q) && Burst(s1, t, q) == hs[q]
  {
    assert WorkerOk(c, s1, w);
    assert Drained(c, s, w, t, q, s1, OwnRing(t, q));
    SameBurst(c, s, w, t, q, s1);
  }

  /** The write is at the head of the loop, with ring q before it. */
  ghost predicate Looping(c: Config, s: State, w: nat, buf: seq<Buffer>, t: Target, hs: seq<seq<Buffer>>,
      transmit: seq<nat>, s0: State, q: nat, s': State)
  {
    && Within(c, s, w, buf, s', Call(t, Take, q, [], buf)) && |s'.workers| == c.threads
    && Draining(c, s, w, t, hs, transmit, s0, q, s')
  }

  /** One round of the loop, seen from its beginning. */
  method DrainNext(c: Config, s1: State, w: nat, ghost s: State, ghost buf: seq<Buffer>, ghost t: Target, count: nat,
      ghost hs: seq<seq<Buffer>>, transmit: seq<nat>, ghost s0: State, q: nat)
    returns (s': State, q': nat)
    requires w < c.threads && count == QueueCount(c, t) > w && q < c.threads && RingsOk(c, s) && Recorded(c, s, t, hs)
    requires Looping(c, s, w, buf, t, hs, transmit, s0, q, s1)
    ensures q' == q + count && Looping(c, s, w, buf, t, hs, transmit, s0, q', s')
  {
    AtRing(c, s1, w, s, buf, t, hs, transmit, s0, q);
    q' := q + count;
    s' := DrainOne(c, s1, w, s, buf, t, q, Accepted(transmit, q), q');
    DrainStep(c, s, w, t, hs, transmit, s0, q, s1, q', s');
  }

  /** The loop over the rings of workers without a queue of their own. */
  method Drain(c: Config, s0: State, w: nat, ghost s: State, ghost buf: seq<Buffer>, ghost t: Target, count: nat,
      ghost hs: seq<seq<Buffer>>, transmit: seq<nat>)
    returns (s': State, q: nat)
    requires w < c.threads && count == QueueCount(c, t) > w && RingsOk(c, s) && Recorded(c, s, t, hs)
    requires Looping(c, s, w, buf, t, hs, transmit, s0, w + count, s0)
    ensures Looping(c, s, w, buf, t, hs, transmit, s0, q, s') && q >= c.threads
  {
    s', q := s0, w + count;
    while q < c.threads
      invariant Looping(c, s, w, buf, t, hs, transmit, s0, q, s')
    {
      s', q := DrainNext(c, s', w, s, buf, t, count, hs, transmit, s0, q);
    }
  }

  /** At the end of the loop everything is counted. */
  lemma DrainEnd(c: Config, s: State, w: nat, t: Target, hs: seq<seq<Buffer>>, transmit: seq<nat>, s0: State, q: nat,
      s': State)
    requires Draining(c, s, w, t, hs, transmit, s0, q, s') && q >= c.threads
    ensures s'.sent == s0.sent + Tagged(t, Sent(hs, w + QueueCount(c, t), QueueCount(c, t), transmit))
    ensures s'.freed == s0.freed + Unsent(hs, w + QueueCount(c, t), QueueCount(c, t), transmit)
  {}

  /** The loop that frees the rest of the worker's own burst, and the return. */
  method RestAll(c: Config, s0: State, w: nat, ghost s: State, ghost buf: seq<Buffer>, ghost k: Call)
      returns (s': State)
    requires w < c.threads && |s0.workers| == c.threads && k.Call? && k.at == Rest && k.hand == []
    requires Within(c, s, w, buf, s0, k)
    ensures Within(c, s, w, buf, s', NoCall) && s'.rings == s0.rings
    ensures s'.freed == s0.freed + k.buf && s'.sent == s0.sent
  {
    s' := s0;
    while s'.workers[w].call.buf != []
      invariant |s'.workers| == c.threads && s'.workers[w].call.Call?
      invariant s'.workers[w].call == k.(buf := s'.workers[w].call.buf)
      invariant Within(c, s, w, buf, s', s'.workers[w].call) && s'.rings == s0.rings
      invariant s'.freed + s'.workers[w].call.buf == s0.freed + k.buf && s'.sent == s0.sent
      decreases |s'.workers[w].call.buf|
    {
      Goes(c, s, w, buf, s', s'.workers[w].call, 0);
      s' := CallStep(c, s', w, 0);
    }
    Goes(c, s, w, buf, s', s'.workers[w].call, 0);
    s' := CallStep(c, s', w, 0);
  }

  /** The state with the call begun. */
  function Begun(c: Config, s: State, w: nat, t: Target, buf: seq<Buffer>): State
    requires w < |s.workers|
  {
    SetCall(s, w, Begin(c, w, t, buf)).(entered := s.entered + buf)
  }

  lemma BegunInv(c: Config, s: State, w: nat, t: Target, buf: seq<Buffer>)
    requires Inv(c, s) && w < c.threads && s.workers[w].call.NoCall? && TargetOk(c, w, t)
    ensures Within(c, s, w, buf, Begun(c, s, w, t, buf), Begin(c, w, t, buf))
  {
    var s' := Begun(c, s, w, t, buf);
    assert WorkerOk(c, s, w);
    BeginOk(c, w, t, buf);
    forall b: Buffer ensures Moved(s, s', b) {
      SetTotal(s, w, s'.workers[w], b);
      TimesConcat(s.entered, buf, b);
    }
    KeptInv(c, s, w, s');
  }

  /** The two transmissions at the end of a write by a worker with a queue of its own. */
  method SendOwn(c: Config, s0: State, w: nat, ghost s: State, ghost buf: seq<Buffer>, ghost t: Target, ghost q: nat,
      n: nat) returns (s': State)
    requires w < c.threads && |s0.workers| == c.threads && q >= c.threads
    requires Within(c, s, w, buf, s0, Call(t, Take, q, [], buf))
    ensures Within(c, s, w, buf, s', Call(t, Rest, q, [], buf[Min(n, |buf|)..])) && s'.rings == s0.rings
    ensures s'.freed == s0.freed && s'.sent == s0.sent + Tagged(t, buf[..Min(n, |buf|)])
  {
    Goes(c, s, w, buf, s0, s0.workers[w].call, 0);
    s' := CallStep(c, s0, w, 0);
    Goes(c, s, w, buf, s', s'.workers[w].call, n);
    s' := CallStep(c, s', w, n);
  }

  /** The enqueue of a write by any other worker. */
  method PutOwn(c: Config, s0: State, w: nat, ghost s: State, ghost buf: seq<Buffer>, ghost t: Target, room: nat)
      returns (s': State)
    requires w < c.threads && |s0.workers| == c.threads && Within(c, s, w, buf, s0, Call(t, Put, 0, [], buf))
    ensures Within(c, s, w, buf, s', Call(t, Rest, 0, [], buf[Min(room, |buf|)..]))
    ensures s'.freed == s0.freed && s'.sent == s0.sent
    ensures forall r :: r in s0.rings ==>
        r in s'.rings
        && s'.rings[r] == if r == OwnRing(t, w) then s0.rings[r] + buf[..Min(room, |buf|)] else s0.rings[r]
  {
    assert WorkerOk(c, s0, w);
    RingThere(c, w, s0.workers[w].call);
    Goes(c, s, w, buf, s0, s0.workers[w].call, room);
    s' := CallStep(c, s0, w, room);
  }

  lemma DrainedWritten(c: Config, s: State, w: nat, t: Target, q: nat, room: nat, buf: seq<Buffer>, s': State, r: Ring)
    requires Inv(c, s) && w < QueueCount(c, t) && q >= c.threads && Drained(c, s, w, t, q, s', r)
    ensures Written(c, s, w, t, room, buf, s', r)
  {}

  /**
   port_burst_write, kni_burst_write, and the enqueues of send_to_switch and of a hand-over: the
   write returns with nothing in its hands, each ring changes as it should, no buffer is lost, and
   what is transmitted is a prefix of each burst, in order, and what is freed the rest of each.
   */
  method BurstWrite(c: Config, s: State, w: nat, t: Target, buf: seq<Buffer>, transmit: seq<nat>, room: nat)
      returns (s': State)
    requires Inv(c, s) && w < c.threads && s.workers[w].call.NoCall? && TargetOk(c, w, t)
    ensures Inv(c, s') && s'.workers == s.workers && s'.entered == s.entered + buf && s'.kept == s.kept
    ensures forall r {:trigger Written(c, s, w, t, room, buf, s', r)} :: Written(c, s, w, t, room, buf, s', r)
    ensures var n := QueueCount(c, t);
      if w < n then
        && s'.sent == s.sent + Tagged(t, Sent(Bursts(c, s, t), w + n, n, transmit))
            + Tagged(t, Front(buf, Accepted(transmit, w)))
        && s'.freed == s.freed + Unsent(Bursts(c, s, t), w + n, n, transmit) + Back(buf, Accepted(transmit, w))
      else s'.sent == s.sent && s'.freed == s.freed + Back(buf, room)
    ensures Keen(c, transmit, room, 512) && Keen(c, transmit, room, |buf|) ==> s'.freed == s.freed
  {
    BegunInv(c, s, w, t, buf);
    s' := Begun(c, s, w, t, buf);
    if w < QueueCount(c, t) {
      s' := WriteOut(c, s', w, s, buf, t, transmit, room);
      if Keen(c, transmit, room, 512) { KeenSent(c, s, w, t, transmit, room); }
    } else {
      s' := WriteIn(c, s', w, s, buf, t, room);
    }
  }

  lemma KeenSent(c: Config, s: State, w: nat, t: Target, transmit: seq<nat>, room: nat)
    requires QueueCount(c, t) > 0 && Keen(c, transmit, room, 512)
    ensures Unsent(Bursts(c, s, t), w + QueueCount(c, t), QueueCount(c, t), transmit) == []
  {
    AllSent(Bursts(c, s, t), w + QueueCount(c, t), QueueCount(c, t), transmit);
  }

  /** The write of any other worker: what fits goes to its own ring. */
  method WriteIn(c: Config, s0: State, w: nat, ghost s: State, buf: seq<Buffer>, t: Target, room: nat)
    returns (s': State)
    requires w < c.threads && w >= QueueCount(c, t) && |s0.workers| == c.threads
    requires Within(c, s, w, buf, s0, Begin(c, w, t, buf)) && s0.rings == s.rings
    ensures Within(c, s, w, buf, s', NoCall)
    ensures forall r {:trigger Written(c, s, w, t, room, buf, s', r)} :: Written(c, s, w, t, room, buf, s', r)
    ensures s'.sent == s0.sent && s'.freed == s0.freed + Back(buf, room)
  {
    s' := PutOwn(c, s0, w, s, buf, t, room);
    s' := RestAll(c, s', w, s, buf, s'.workers[w].call);
    forall r ensures Written(c, s, w, t, room, buf, s', r) {}
  }

  /** The write of a worker with a queue of its own: the rings of others, then its own burst. */
  method WriteOut(c: Config, s0: State, w: nat, ghost s: State, buf: seq<Buffer>, t: Target, transmit: seq<nat>,
      ghost room: nat)
    returns (s': State)
    requires Inv(c, s) && w < c.threads && w < QueueCount(c, t) && |s0.workers| == c.threads
    requires Within(c, s, w, buf, s0, Begin(c, w, t, buf)) && s0.rings == s.rings
    ensures Within(c, s, w, buf, s', NoCall)
    ensures forall r {:trigger Written(c, s, w, t, room, buf, s', r)} :: Written(c, s, w, t, room, buf, s', r)
    ensures var n := QueueCount(c, t);
      && s'.sent == s0.sent + Tagged(t, Sent(Bursts(c, s, t), w + n, n, transmit))
          + Tagged(t, Front(buf, Accepted(transmit, w)))
      && s'.freed == s0.freed + Unsent(Bursts(c, s, t), w + n, n, transmit) + Back(buf, Accepted(transmit, w))
  {
    var q;
    DrainStart(c, s, w, t, Bursts(c, s, t), transmit, s0);
    s', q := Drain(c, s0, w, s, buf, t, QueueCount(c, t), Bursts(c, s, t), transmit);
    ghost var s1 := s';
    DrainEnd(c, s, w, t, Bursts(c, s, t), transmit, s0, q, s1);
    s' := SendOwn(c, s', w, s, buf, t, q, Accepted(transmit, w));
    s' := RestAll(c, s', w, s, buf, s'.workers[w].call);
    forall r ensures Written(c, s, w, t, room, buf, s', r) {
      assert Drained(c, s, w, t, q, s1, r);
      DrainedWritten(c, s, w, t, q, room, buf, s', r);
    }
  }
}
