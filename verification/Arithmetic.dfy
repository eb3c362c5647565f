/** Division facts that the schedule and the calendar share. */
module Arithmetic {
  lemma Scale(n: nat, x: int, y: int)
    requires n > 0
    ensures x > y ==> n * x >= n * y + n
  {
    var d := x - y;
    assert n * x == n * y + n * d;
    if d > 0 { assert n * d >= n; }
  }

  lemma SameQuotient(n: nat, x: int, y: int, l: int, m: int)
    requires n > 0 && n * x + l == n * y + m && l - m < n && m - l < n
    ensures x == y && l == m
  {
    Scale(n, x, y);
    Scale(n, y, x);
  }

  lemma Unique(a: nat, n: nat, q: nat, m: nat)
    requires n > 0 && m < n && a == n * q + m
    ensures a / n == q && a % n == m
  {
    SameQuotient(n, a / n, q, a % n, m);
  }

  lemma Wraps(a: nat, n: nat)
    requires 0 < n <= a < 2 * n
    ensures a % n == a - n
  {
    Unique(a, n, 1, a - n);
  }

  lemma ModAdds(i: nat, p: nat, n: nat)
    requires n > 0 && p < n
    ensures (i + p) % n == (i % n + p) % n
  {
    var q, m := i / n, i % n;
    assert i == n * q + m;
    Unique(i + p, n, q + (m + p) / n, (m + p) % n);
  }

  lemma FullTurn(a: nat, n: nat)
    requires n > 0
    ensures (a + n) % n == a % n
  {
    var q := a / n;
    assert n * (q + 1) == n * q + n;
    Unique(a + n, n, q + 1, a % n);
  }

  lemma ExactQuotient(n: nat, unit: nat)
    requires unit > 0
    ensures (n * unit) / unit == n && (n * unit) % unit == 0
  {
    Unique(n * unit, unit, n, 0);
  }

  lemma Grows(unit: nat, a: nat, b: nat)
    requires unit > 0
    ensures a >= b ==> unit * a >= unit * b
  {
    Scale(unit, a, b);
  }

  function Quotient(a: nat, b: nat): (q: nat)
    requires b > 0
  {
    a / b
  }
}
