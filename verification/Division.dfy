/** Quotients and remainders. */
module Division {

  lemma Beyond(a: int, c: nat)
    ensures a >= 1 ==> a * c >= c
    ensures a <= -1 ==> a * c <= -(c as int)
  {
    if a >= 1 {
      assert a * c == (a - 1) * c + c && (a - 1) * c >= 0;
    } else if a <= -1 {
      assert a * c == (a + 1) * c - c && (-(a + 1)) * c >= 0;
    }
  }

  /** There is one way to divide. */
  lemma Unique(x: nat, c: nat, q: nat, r: nat)
    requires r < c && x == q * c + r
    ensures x / c == q && x % c == r
  {
    var d := x / c - q;
    assert x == x / c * c + x % c;
    assert d * c == x / c * c - q * c;
    Beyond(d, c);
  }

  lemma AddMultiple(y: nat, m: nat, c: nat)
    requires c > 0
    ensures (y + m * c) % c == y % c && (y + m * c) / c == y / c + m
  {
    assert y == y / c * c + y % c;
    assert y + m * c == (y / c + m) * c + y % c;
    Unique(y + m * c, c, y / c + m, y % c);
  }
}
