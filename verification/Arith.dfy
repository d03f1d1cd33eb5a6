/** Division facts the solver does not find on its own. */
module Arith {

  lemma DivNonneg(a: nat, n: nat)
    requires n > 0
    ensures a / n >= 0
  {
  }

  /** a / n and a % n of natural numbers, with what callers need to know of them. */
  function Quotient(a: nat, n: nat): (q: nat)
    requires n > 0
  {
    DivNonneg(a, n);
    a / n
  }

  function Remainder(a: nat, n: nat): (r: nat)
    requires n > 0
    ensures r < n
  {
    a % n
  }

  lemma DivMod(a: nat, n: nat)
    requires n > 0
    ensures a == n * Quotient(a, n) + Remainder(a, n) && Remainder(a, n) < n
  {
  }

  lemma MulMonotone(n: nat, a: int, b: int)
    requires a <= b
    ensures n * a <= n * b
  {
  }

  lemma MulAssoc(a: int, b: int, c: int)
    ensures (a * b) * c == a * (b * c)
  {
  }

  lemma MulDistributes(a: int, b: int, c: int)
    ensures a * (b + c) == a * b + a * c
  {
  }

  lemma MulNonneg(a: nat, b: nat)
    ensures 0 <= a * b
  {
  }

  lemma MulSucc(a: int, n: int)
    ensures (a + 1) * n == a * n + n
  {
  }

  lemma DivModUnique(a: int, n: int, q: int, r: int)
    requires n > 0 && 0 <= r < n && a == n * q + r
    ensures a / n == q && a % n == r
  {
    var q', r' := a / n, a % n;
    assert a == n * q' + r';
    if q' < q {
      MulMonotone(n, q' + 1, q);
      assert false;
    } else if q' > q {
      MulMonotone(n, q + 1, q');
      assert false;
    }
  }

  lemma ModSmall(i: nat, n: nat)
    requires i < n
    ensures i % n == i
  {
    DivModUnique(i, n, 0, i);
  }

  /** Counting modulo n. */
  lemma ModSucc(i: nat, n: nat)
    requires n > 0
    ensures (i + 1) % n == if i % n == n - 1 then 0 else i % n + 1
  {
    if i % n == n - 1 {
      DivModUnique(i + 1, n, i / n + 1, 0);
    } else {
      DivModUnique(i + 1, n, i / n, i % n + 1);
    }
  }

  lemma DivMonotone(a: nat, b: nat, n: nat)
    requires a <= b && n > 0
    ensures a / n <= b / n
  {
    var q, p := a / n, b / n;
    assert a == n * q + a % n && b == n * p + b % n;
    if q > p {
      MulMonotone(n, p + 1, q);
      assert false;
    }
  }

  lemma DivLess(a: nat, n: nat, m: nat)
    requires n > 0 && a < n * m
    ensures a / n < m
  {
    var q := a / n;
    assert a == n * q + a % n;
    if q >= m {
      MulMonotone(n, m, q);
      assert false;
    }
  }

  lemma DivAtLeast(a: nat, n: nat, m: nat)
    requires n > 0 && a >= n * m
    ensures a / n >= m
  {
    var q := a / n;
    assert a == n * q + a % n;
    if q < m {
      MulMonotone(n, q + 1, m);
      assert false;
    }
  }

  function Power2(n: nat): (p: nat)
    ensures p > 0
  {
    if n == 0 then 1 else 2 * Power2(n - 1)
  }
}
