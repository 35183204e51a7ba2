/** Products and quotients, kept behind named lemmas. */
module Arithmetic {
  function Times(a: int, b: int): int { a * b }

  lemma {:induction false} TimesAdds(k: int, a: int, b: int)
    ensures Times(k, a + b) == Times(k, a) + Times(k, b)
  {
  }

  lemma {:induction false} TimesRegroups(a: int, b: int, c: int)
    ensures Times(a, Times(b, c)) == Times(Times(a, b), c) == Times(b, Times(a, c))
  {
  }

  lemma {:induction false} OneMore(k: nat, m: int)
    ensures (k + 1) * m == k * m + m
  {
  }

  lemma {:induction false} AtLeastOne(m: nat, k: int)
    requires k >= 1
    ensures m * k >= m
  {
    assert m * k == m + m * (k - 1);
  }

  lemma {:induction false} QuotientUnique(m: nat, d: int, r: nat, e: int, t: nat)
    requires m > 0 && r < m && t < m && m * d + r == m * e + t
    ensures d == e
  {
    assert m * (d - e) == t - r && m * (e - d) == r - t;
    if d > e {
      AtLeastOne(m, d - e);
    } else if d < e {
      AtLeastOne(m, e - d);
    }
  }

  lemma {:induction false} ExactDivision(k: nat, m: nat)
    requires m > 0
    ensures (k * m) / m == k
  {
    var x := k * m;
    QuotientUnique(m, x / m, x % m, k, 0);
  }

  /** For an exact quotient, testing the factor is testing the product. */
  lemma {:induction false} QuotientTest(a: nat, b: nat, m: nat)
    requires m > 0 && (b / m) * m == b
    ensures a * m == b <==> a == b / m
  {
    if a * m == b {
      ExactDivision(a, m);
    }
  }
}
