/** Products and quotients of variables. */
module Arith {

  lemma MulMono(a: int, b: int, c: int)
    requires a <= b && 0 <= c
    ensures a * c <= b * c
  {
    assert (b - a) * c >= 0;
    assert (b - a) * c == b * c - a * c;
  }

  lemma MulSucc(a: int, c: int)
    ensures (a + 1) * c == a * c + c
  {
  }

  lemma DivModIs(a: int, n: int, q: int, r: int)
    requires n >= 1 && a == q * n + r && 0 <= r < n
    ensures a / n == q && a % n == r
  {
    var q', r' := a / n, a % n;
    assert a == q' * n + r' && 0 <= r' < n;
    DivModUnique(n, q, r, q', r');
  }

  lemma DivModUnique(n: int, q: int, r: int, q': int, r': int)
    requires n >= 1 && q * n + r == q' * n + r' && 0 <= r < n && 0 <= r' < n
    ensures q == q' && r == r'
  {
    MulSucc(q, n);
    MulSucc(q', n);
    if q' < q {
      MulMono(q' + 1, q, n);
    } else if q < q' {
      MulMono(q + 1, q', n);
    }
  }

  /** How quotient and remainder move when the dividend grows by one. */
  lemma NextDiv(a: int, n: int)
    requires 0 <= a && n >= 1
    ensures (a + 1) % n == 0 ==> (a + 1) / n == a / n + 1 && a % n == n - 1
    ensures (a + 1) % n != 0 ==> (a + 1) / n == a / n && (a + 1) % n == a % n + 1
    ensures 0 <= a / n && 0 <= a % n < n
  {
    var q, r := a / n, a % n;
    assert a == q * n + r && 0 <= r < n;
    if q < 0 {
      MulMono(q, -1, n);
    }
    if r + 1 == n {
      MulSucc(q, n);
      DivModIs(a + 1, n, q + 1, 0);
    } else {
      DivModIs(a + 1, n, q, r + 1);
    }
  }
}
