/** JavaScript's integer arithmetic where it differs from Dafny's. */
module Numbers {

  /** `Math.abs`. */
  function Abs(a: int): nat {
    if a < 0 then -a else a
  }

  /**
   * JavaScript's `a % n` on integers: the remainder truncates toward zero,
   * so it takes the sign of the dividend (Dafny's `%` never goes negative).
   */
  function JsRem(a: int, n: int): (r: int)
    requires n != 0
    ensures Abs(r) < Abs(n)
    ensures a >= 0 ==> r >= 0
    ensures a <= 0 ==> r <= 0
  {
    if a >= 0 then a % Abs(n) else -((-a) % Abs(n))
  }

  /** Truncation is symmetric: negating the dividend negates the remainder. */
  lemma {:induction false} JsRemOdd(a: int, n: int)
    requires n != 0
    ensures JsRem(-a, n) == -JsRem(a, n)
  {
  }

  /** On a non-negative dividend and a positive divisor both remainders agree. */
  lemma {:induction false} JsRemNatural(a: int, n: int)
    requires a >= 0 && n > 0
    ensures JsRem(a, n) == a % n && 0 <= JsRem(a, n) < n
  {
  }

  // ---------------------------------------------------------------------
  // Facts about Dafny's `%` with a positive divisor

  lemma MulAtLeast(n: int, x: int)
    requires n > 0 && x >= 1
    ensures n * x >= n
  {
    assert n * x == n * (x - 1) + n;
  }

  /** The remainder is the one `r` in `[0, n)` with `a == n * q + r`. */
  lemma ModUnique(a: int, n: int, q: int, r: int)
    requires n > 0 && 0 <= r < n && a == n * q + r
    ensures a % n == r
  {
    var q0, r0 := a / n, a % n;
    assert a == n * q0 + r0;
    assert n * (q - q0) == r0 - r;
    if q > q0 { MulAtLeast(n, q - q0); }
    else if q < q0 { MulAtLeast(n, q0 - q); }
  }

  lemma ModSmall(a: int, n: int)
    requires 0 <= a < n
    ensures a % n == a
  {
    ModUnique(a, n, 0, a);
  }

  lemma ModSucc(a: int, n: int)
    requires n > 0
    ensures (a % n + 1) % n == (a + 1) % n
  {
    var q, r := a / n, a % n;
    assert a == n * q + r;
    if r + 1 < n {
      ModUnique(a + 1, n, q, r + 1);
      ModSmall(r + 1, n);
    } else {
      ModUnique(a + 1, n, q + 1, 0);
      ModUnique(r + 1, n, 1, 0);
    }
  }

  /** One less than an odd number is even, and the other way round. */
  lemma ParityPred(n: int)
    ensures ((n - 1) % 2 == 1) == (n % 2 != 1)
  {
    ModSucc(n - 1, 2);
    if (n - 1) % 2 == 0 {
      ModSmall(1, 2);
    } else {
      ModUnique(2, 2, 1, 0);
    }
  }
}
