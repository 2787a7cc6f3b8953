// Quotients and remainders.
module Division {

  lemma SmallMultiple(m: int, k: int)
    requires -m < m * k < m
    ensures k == 0
  {
  }

  lemma QuotientIs(n: int, m: int, q: int)
    requires 0 < m && m * q <= n < m * q + m
    ensures n / m == q
  {
    var k := n / m - q;
    assert m * k == m * (n / m) - m * q;
    assert n == m * (n / m) + n % m;
    SmallMultiple(m, k);
  }

  lemma RemainderOfOneLess(n: int, m: int)
    requires 0 < m <= n
    ensures n % m == (n - m) % m
  {
    var q := n / m;
    assert n == m * q + n % m;
    assert m * (q - 1) == m * q - m;
    QuotientIs(n - m, m, q - 1);
    assert n - m == m * ((n - m) / m) + (n - m) % m;
  }
}
