/** The local port allocator of al_tuple5.c for IPv4, with its hash table of connections. */
module Ports {

  const FIRST := 1
  const LAST := 60000

  // ---------- the order in which ports are tried ----------

  /** port_start++ in 16 bits, and back to the first port behind the last. */
  function Next(port: nat): nat {
    if port == LAST then FIRST else (port + 1) % 65536
  }

  /** The k-th port tried after `start`. */
  function Nth(start: nat, k: nat): nat {
    if k == 0 then start else Next(Nth(start, k - 1))
  }

  /** From a start in range, the ports come round in order. */
  lemma {:induction false} InRange(start: nat, k: nat)
    requires start <= LAST && 1 <= k <= LAST
    ensures Nth(start, k) == if start + k <= LAST then start + k else start + k - LAST
  {
    if k > 1 { InRange(start, k - 1); } else { assert Nth(start, 1) == Next(Nth(start, 0)); }
  }

  /** Each port is tried. */
  lemma EachTried(start: nat, p: nat) returns (k: nat)
    requires start <= LAST && FIRST <= p <= LAST
    ensures 1 <= k <= LAST && Nth(start, k) == p
  {
    k := if p > start then p - start else p + LAST - start;
    InRange(start, k);
  }

  /** None is tried twice. */
  lemma TriedOnce(start: nat, j: nat, k: nat)
    requires start <= LAST && 1 <= j <= LAST && 1 <= k <= LAST && Nth(start, j) == Nth(start, k)
    ensures j == k
  {
    InRange(start, j);
    InRange(start, k);
  }

  lemma {:induction false} OutOfRange(start: nat, k: nat)
    requires LAST < start < 65536 && 1 <= k <= LAST
    ensures Nth(start, k) == if start + k < 65536 then start + k else start + k - 65536
  {
    if k > 1 { OutOfRange(start, k - 1); } else { assert Nth(start, 1) == Next(Nth(start, 0)); }
  }

  /** A full cycle from `start` stays within the range of local ports. */
  ghost predicate StaysInRange(start: nat) {
    forall k :: 1 <= k <= LAST ==> FIRST <= Nth(start, k) <= LAST
  }

  /** A full cycle from `start` tries all of them. */
  ghost predicate TriesAll(start: nat) {
    forall p :: FIRST <= p <= LAST ==> Tried(start, p)
  }

  ghost predicate Tried(start: nat, p: nat) {
    exists k :: 1 <= k <= LAST && Nth(start, k) == p
  }

  /** Both hold exactly for a start that is not above the range; which ports those are, in numbers. */
  lemma CycleOk(start: nat)
    requires start < 65536
    ensures StaysInRange(start) <==> start <= 0xea60
    ensures TriesAll(start) <==> start <= 0xea60
    ensures StaysInRange(start) <==> forall k :: 1 <= k <= 60000 ==> 1 <= Nth(start, k) <= 60000
    ensures TriesAll(start) <==> forall p :: 1 <= p <= 60000 ==> Tried(start, p)
  {
    if start <= LAST {
      forall k | 1 <= k <= LAST ensures FIRST <= Nth(start, k) <= LAST { InRange(start, k); }
      forall p | FIRST <= p <= LAST ensures Tried(start, p) { var k := EachTried(start, p); }
    } else {
      OutOfRange(start, 1);
      forall k | 1 <= k <= LAST ensures Nth(start, k) != LAST { OutOfRange(start, k); }
      assert !Tried(start, LAST);
    }
  }

  /** What port_init makes of a 16-bit random number: the number itself if it is odd, and otherwise the next. */
  function InitialStart(random: nat): (r: nat)
    ensures random < 65536 ==> r < 65536 && r % 2 == 1
    ensures r == random || r == random + 1
  {
    random - random % 2 + 1
  }

  /** Every odd 16-bit number is a start, and no other is. */
  lemma StartsAre(start: nat)
    ensures (exists random: nat :: random < 65536 && InitialStart(random) == start) <==> start < 65536 && start % 2 == 1
  {
    if start % 2 == 1 && start < 65536 { assert InitialStart(start) == start; }
  }

  /** So the first port tried can be zero. */
  lemma ZeroTried()
    ensures InitialStart(65534) == 65535 && Nth(65535, 1) == 0 && !StaysInRange(65535) && !TriesAll(65535)
  {
    OutOfRange(65535, 1);
    CycleOk(65535);
  }

  // ---------- the table ----------

  /** Remote and local address and port, and the protocol. */
  datatype Tuple = Tuple(rip: nat, lip: nat, rport: nat, lport: nat, proto: nat)

  /** An entry that keeps t from being used; a zero address stands for any. */
  predicate Clashes(e: Tuple, t: Tuple) {
    e.lport == t.lport && (e.rip == t.rip || t.rip == 0) && (e.lip == t.lip || t.lip == 0) && e.rport == t.rport
        && e.proto == t.proto
  }

  /** Without a zero address the entry is that of the connection itself; with one, some address stands in its place. */
  lemma ClashesIff(e: Tuple, t: Tuple)
    ensures Clashes(e, t) <==> exists rip: nat, lip: nat ::
        e == t.(rip := rip, lip := lip) && (t.rip != 0 ==> rip == t.rip) && (t.lip != 0 ==> lip == t.lip)
  {
    if Clashes(e, t) { assert e == t.(rip := e.rip, lip := e.lip); }
  }

  /** The port p is filtered or in use for the connection t. */
  ghost predicate Blocked(hash: Tuple -> nat, buckets: seq<seq<Tuple>>, t: Tuple, filtered: nat -> bool, p: nat)
    requires |buckets| > 0
  {
    var u := t.(lport := p);
    filtered(p) || exists e :: e in buckets[hash(u) % |buckets|] && Clashes(e, u)
  }

  /** From a start in range, a blocked cycle means that every port is blocked. */
  lemma AllBlocked(hash: Tuple -> nat, buckets: seq<seq<Tuple>>, start: nat, t: Tuple, filtered: nat -> bool)
    requires |buckets| > 0 && start <= LAST
    requires forall k :: 1 <= k <= LAST ==> Blocked(hash, buckets, t, filtered, Nth(start, k))
    ensures forall p :: FIRST <= p <= LAST ==> Blocked(hash, buckets, t, filtered, p)
  {
    forall p | FIRST <= p <= LAST ensures Blocked(hash, buckets, t, filtered, p) { var k := EachTried(start, p); }
  }

  class PortTable {
    const hash: Tuple -> nat
    var buckets: seq<seq<Tuple>>
    var start: nat

    /** Every entry is in the bucket of its key. */
    ghost predicate Valid()
      reads this
    {
      && |buckets| > 0 && start < 65536
      && forall i, e :: 0 <= i < |buckets| && e in buckets[i] ==> i == hash(e) % |buckets|
    }

    constructor (hash: Tuple -> nat, size: nat, random: nat)
      requires size > 0 && random < 65536
      ensures Valid() && start == InitialStart(random) && this.hash == hash && forall t :: !Holds(t)
    {
      this.hash, buckets, start := hash, seq(size, _ => []), InitialStart(random);
    }

    ghost predicate Holds(t: Tuple)
      reads this`buckets
    {
      exists i :: 0 <= i < |buckets| && t in buckets[i]
    }

    /** is_connect_port_already_used_v4. */
    method Used(t: Tuple) returns (used: bool)
      requires Valid()
      ensures used <==> exists e :: e in buckets[hash(t) % |buckets|] && Clashes(e, t)
      ensures !used ==> !Holds(t) && Count(t) == 0
      ensures t.rip != 0 && t.lip != 0 ==> (used <==> Holds(t))
    {
      var b := buckets[hash(t) % |buckets|];
      var i := 0;
      used := false;
      while i < |b| && !used
        invariant i <= |b| && (used ==> exists e :: e in b && Clashes(e, t))
        invariant (!used ==> forall j :: 0 <= j < i ==> !Clashes(b[j], t))
      {
        if Clashes(b[i], t) {
          used := true;
        }
        i := i + 1;
      }
    }

    /** How many entries t has. */
    ghost function Count(t: Tuple): nat
      requires |buckets| > 0
      reads this`buckets
    {
      multiset(buckets[hash(t) % |buckets|])[t]
    }

    /** No connection has two entries. */
    ghost predicate Distinct()
      requires |buckets| > 0
      reads this`buckets
    {
      forall t :: Count(t) <= 1
    }

    /** al_port_insert_v4: with memory for it, the connection has one entry more. */
    method Insert(t: Tuple, memory: bool) returns (ok: bool)
      requires Valid()
      modifies this`buckets
      ensures Valid() && ok == memory && |buckets| == old(|buckets|)
      ensures ok ==> Holds(t) && forall e :: e != t ==> (Holds(e) <==> old(Holds(e)))
      ensures ok ==> forall e :: Count(e) == old(Count(e)) + if e == t then 1 else 0
      ensures !ok ==> buckets == old(buckets)
    {
      if !memory {
        return false;
      }
      var k := hash(t) % |buckets|;
      ghost var before := buckets;
      buckets := buckets[k := [t] + buckets[k]];
      assert t in buckets[k];
      forall e | e != t ensures Holds(e) <==> old(Holds(e)) {
        if i :| 0 <= i < |before| && e in before[i] { assert e in buckets[i]; }
        if i :| 0 <= i < |buckets| && e in buckets[i] { assert e in before[i]; }
      }
      assert multiset([t] + before[k]) == multiset{t} + multiset(before[k]);
      ok := true;
    }

    /** al_port_del_v4: one entry of the connection goes, if it has any. */
    method Delete(t: Tuple) returns (gone: bool)
      requires Valid()
      modifies this`buckets
      ensures Valid() && (gone <==> old(Holds(t)))
      ensures |buckets| == old(|buckets|) && forall e :: Count(e) == old(Count(e)) - if e == t && gone then 1 else 0
    {
      var k := hash(t) % |buckets|;
      var b, i := buckets[k], 0;
      while i < |b| && b[i] != t
        invariant i <= |b| && t !in b[..i]
      {
        i := i + 1;
      }
      gone := i < |b|;
      if gone {
        assert b == b[..i] + [t] + b[i + 1..];
        buckets := buckets[k := b[..i] + b[i + 1..]];
        assert multiset(b) == multiset(b[..i]) + multiset{t} + multiset(b[i + 1..]);
      } else {
        assert b == b[..i];
      }
    }

    /** One try: the next port is taken if it is not blocked and there is memory for the entry. */
    method Try(t: Tuple, filtered: nat -> bool, memory: bool) returns (blocked: bool, ok: bool)
      requires Valid()
      modifies this
      ensures Valid() && start == Next(old(start)) && blocked == Blocked(hash, old(buckets), t, filtered, start)
      ensures (ok <==> memory && !blocked) && (!ok ==> buckets == old(buckets))
      ensures ok ==> !filtered(start) && !old(Holds(t.(lport := Next(start)))) && Holds(t.(lport := start))
      ensures ok ==> forall e :: e != t.(lport := start) ==> (Holds(e) <==> old(Holds(e)))
      ensures old(Distinct()) ==> Distinct()
    {
      start := Next(start);
      var u := t.(lport := start);
      blocked, ok := filtered(start), false;
      if !blocked {
        blocked := Used(u);
      }
      if !blocked {
        ok := Insert(u, memory);
      }
    }

    /**
     al_alocate_new_port_with_session: at most LAST ports are tried, one after the other, and the
     first that is not blocked is taken; without memory for the entry it is not. The k-th port is
     the last one tried.
     */
    method Allocate(t: Tuple, filtered: nat -> bool, memory: bool) returns (ok: bool, port: nat, ghost k: nat)
      requires Valid()
      modifies this
      ensures Valid() && 1 <= k <= LAST && start == Nth(old(start), k)
      ensures forall j :: 1 <= j < k ==> Blocked(hash, old(buckets), t, filtered, Nth(old(start), j))
      ensures k < LAST ==> !Blocked(hash, old(buckets), t, filtered, start)
      ensures ok <==> memory && !Blocked(hash, old(buckets), t, filtered, start)
      ensures ok ==> port == start && !filtered(port) && !old(Holds(t.(lport := Nth(start, k))))
      ensures ok ==> Holds(t.(lport := port))
      ensures ok ==> forall e :: e != t.(lport := port) ==> (Holds(e) <==> old(Holds(e)))
      ensures old(Distinct()) ==> Distinct()
      ensures !ok ==> buckets == old(buckets)
      ensures !ok && memory && old(start) <= LAST ==> forall p :: FIRST <= p <= LAST ==>
          Blocked(hash, old(buckets), t, filtered, p)
    {
      var n := 0;
      ok, port, k := false, 0, 0;
      ghost var start0 := start;
      var blocked := true;
      while blocked && n <= LAST - FIRST
        invariant n <= LAST && Valid() && start == Nth(start0, n) && k == n && (n == 0 ==> blocked)
        invariant buckets == old(buckets) || ok
        invariant forall j :: 1 <= j < n ==> Blocked(hash, old(buckets), t, filtered, Nth(start0, j))
        invariant n > 0 ==> blocked == Blocked(hash, old(buckets), t, filtered, start) && (ok <==> memory && !blocked)
        invariant n == 0 ==> !ok
        invariant ok ==> port == start && !filtered(port) && !old(Holds(t.(lport := Nth(start, n))))
        invariant ok ==> Holds(t.(lport := port))
        invariant ok ==> forall e :: e != t.(lport := port) ==> (Holds(e) <==> old(Holds(e)))
        invariant old(Distinct()) ==> Distinct()
        decreases LAST - n
      {
        blocked, ok := Try(t, filtered, memory);
        n := n + 1;
        k := n;
        if ok {
          port := start;
        }
      }
      if blocked && start0 <= LAST { AllBlocked(hash, buckets, start0, t, filtered); }
    }
  }
}
