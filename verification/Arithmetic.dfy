/** Division of natural numbers. */
module Arithmetic {

  lemma MulGrows(n: nat, a: nat, b: nat)
    requires a <= b
    ensures n * a <= n * b
  {}

  lemma DivUnique(a: nat, n: nat, q: nat, r: nat)
    requires n > 0 && a == n * q + r && r < n
    ensures a / n == q && a % n == r
  {
    assert n * (a / n) + a % n == a;
    if a / n > q {
      MulGrows(n, q + 1, a / n);
    } else if a / n < q {
      MulGrows(n, a / n + 1, q);
    }
  }

  lemma DivAtLeast(a: nat, n: nat, q: nat)
    requires n > 0 && a >= n * q
    ensures a / n >= q
  {
    if a / n < q { MulGrows(n, a / n + 1, q); }
  }

  lemma DivBounds(a: nat, n: nat)
    requires n > 0
    ensures n * (a / n) <= a < n * (a / n) + n
  {
    assert n * (a / n) + a % n == a;
  }

  lemma Distributes(n: nat, a: nat, b: nat)
    ensures n * (a + b) == n * a + n * b
  {}

  lemma ModOfSum(a: nat, b: nat, n: nat)
    requires n > 0
    ensures (a % n + b) % n == (a + b) % n
  {
    var c := a % n + b;
    assert a == n * (a / n) + a % n && c == n * (c / n) + c % n;
    Distributes(n, a / n, c / n);
    DivUnique(a + b, n, a / n + c / n, c % n);
  }

  lemma DivTwice(x: nat, m: nat, n: nat)
    requires m > 0 && n > 0
    ensures m * n > 0 && x / m / n == x / (m * n)
  {
    var a := x / m;
    Positive(m, n);
    Compose(x, m, n, a, a / n, a % n, x % m);
    DivUnique(x, m * n, a / n, m * (a % n) + x % m);
  }

  lemma Compose(x: nat, m: nat, n: nat, a: nat, q: nat, r: nat, s: nat)
    requires x == m * a + s && s < m && a == n * q + r && r < n
    ensures x == (m * n) * q + (m * r + s) && m * r + s < m * n
  {
    Distributes(m, n * q, r);
    Associates(m, n, q);
    MulGrows(m, r + 1, n);
    Distributes(m, r, 1);
  }

  lemma Associates(m: nat, n: nat, q: nat)
    ensures m * (n * q) == (m * n) * q
  {}

  lemma Positive(m: nat, n: nat)
    requires m > 0 && n > 0
    ensures m * n > 0
  {}
}
