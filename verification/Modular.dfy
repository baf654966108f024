/** The few facts about remainders that the range and ring arithmetic rest on. */
module Modular {
  lemma Grows(m: nat, e: int)
    requires e != 0
    ensures m * e >= m || -(m * e) >= m
  {
    if e >= 1 {
      assert m * (e - 1) >= 0;
    } else {
      assert m * (-e - 1) >= 0;
    }
  }

  lemma MulMod(m: nat, k: int)
    requires m > 0
    ensures (m * k) % m == 0
  {
    var q, r := m * k / m, m * k % m;
    assert m * (k - q) == r by { assert m * k == m * q + r; }
    if k != q {
      Grows(m, k - q);
    }
  }

  lemma Quotient(m: nat, d: int) returns (k: int)
    requires m > 0 && d % m == 0
    ensures d == m * k
  {
    k := d / m;
  }

  lemma SameRemainder(a: int, b: int, m: nat)
    requires m > 0
    ensures a % m == b % m <==> (a - b) % m == 0
  {
    var qa, qb := a / m, b / m;
    assert a == m * qa + a % m && b == m * qb + b % m;
    if a % m == b % m {
      assert a - b == m * (qa - qb);
      MulMod(m, qa - qb);
    }
    if (a - b) % m == 0 {
      var k := Quotient(m, a - b);
      var e := k - qa + qb;
      assert a % m - b % m == m * e;
      if e != 0 {
        Grows(m, e);
      }
    }
  }

  lemma Below(m: nat, d: nat)
    requires d < m
    ensures d % m == d
  {
  }

  lemma Shift(a: int, m: nat, q: int)
    requires m > 0
    ensures (a + m * q) % m == a % m
  {
    MulMod(m, q);
    SameRemainder(a + m * q, a, m);
  }

  /** Reducing an index before subtracting changes nothing. */
  lemma SubMod(p: int, pos: int, m: nat)
    requires m > 0
    ensures (p % m - pos) % m == (p - pos) % m
  {
    assert p == m * (p / m) + p % m;
    Shift(p % m - pos, m, p / m);
    assert p % m - pos + m * (p / m) == p - pos;
  }
}
