/** Products and quotients of whole numbers. */
module WholeNumbers {

  lemma TimesAtLeast(x: nat, y: nat, z: nat)
    requires x >= y
    ensures x * z >= y * z
  {
  }

  lemma OneMoreTimes(n: nat, m: nat, size: nat)
    requires m == n + 1
    ensures m * size == n * size + size
  {
  }

  lemma DivisionBounds(a: nat, b: nat, q: nat)
    requires b > 0 && q == a / b
    ensures q * b <= a < (q + 1) * b
  {
    assert a == q * b + a % b;
  }

  /** A quotient is the number of times the divisor fits. */
  lemma QuotientIs(a: nat, b: nat, q: nat)
    requires b > 0 && q * b <= a < (q + 1) * b
    ensures a / b == q
  {
    var r := a / b;
    DivisionBounds(a, b, r);
    if r > q { TimesAtLeast(r, q + 1, b); }
    if r < q { TimesAtLeast(q, r + 1, b); }
  }

  lemma QuotientAtMost(a: nat, b: nat, k: nat)
    requires b > 0
    ensures a / b <= k <==> a < (k + 1) * b
  {
    var q := a / b;
    DivisionBounds(a, b, q);
    if q <= k { TimesAtLeast(k + 1, q + 1, b); } else { TimesAtLeast(q, k + 1, b); }
  }
}
