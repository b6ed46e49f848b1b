/** Counting buffers. */
module Buffers {

  type Buffer = nat

  function Min(a: nat, b: nat): nat {
    if a < b then a else b
  }

  /** How often buffer b occurs in s. */
  ghost function Times(s: seq<Buffer>, b: Buffer): nat {
    multiset(s)[b]
  }

  lemma TimesConcat(s: seq<Buffer>, t: seq<Buffer>, b: Buffer)
    ensures Times(s + t, b) == Times(s, b) + Times(t, b)
  {}

  lemma TimesSplit(s: seq<Buffer>, k: nat, b: Buffer)
    requires k <= |s|
    ensures Times(s, b) == Times(s[..k], b) + Times(s[k..], b)
  {
    assert s == s[..k] + s[k..];
  }

  /** How often b occurs in the sequences that m names. */
  ghost function Held<K>(m: map<K, seq<Buffer>>, b: Buffer): nat
    decreases |m|
  {
    if m == map[] then 0 else var k :| k in m; Times(m[k], b) + Held(m - {k}, b)
  }

  /** Any of them can be counted first. */
  lemma {:induction false} HeldFirst<K>(m: map<K, seq<Buffer>>, r: K, b: Buffer)
    requires r in m
    ensures Held(m, b) == Times(m[r], b) + Held(m - {r}, b)
    decreases |m|
  {
    var k :| k in m && Held(m, b) == Times(m[k], b) + Held(m - {k}, b);
    if k != r {
      HeldFirst(m - {k}, r, b);
      HeldFirst(m - {r}, k, b);
      assert m - {k} - {r} == m - {r} - {k};
    }
  }

  lemma HeldSet<K>(m: map<K, seq<Buffer>>, r: K, s: seq<Buffer>, b: Buffer)
    requires r in m
    ensures Held(m[r := s], b) + Times(m[r], b) == Held(m, b) + Times(s, b)
  {
    HeldFirst(m, r, b);
    HeldFirst(m[r := s], r, b);
    assert m[r := s] - {r} == m - {r};
  }

  lemma {:induction false} NoneHeld<K>(m: map<K, seq<Buffer>>, b: Buffer)
    requires forall r :: r in m ==> m[r] == []
    ensures Held(m, b) == 0
    decreases |m|
  {
    if m != map[] {
      var k :| k in m && Held(m, b) == Times(m[k], b) + Held(m - {k}, b);
      NoneHeld(m - {k}, b);
    }
  }
}
