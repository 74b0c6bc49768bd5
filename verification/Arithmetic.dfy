/** Rounding as machine arithmetic does it, and facts about products and quotients. */
module Arithmetic {

  function Max(a: int, b: int): int { if a >= b then a else b }

  function Min(a: int, b: int): int { if a <= b then a else b }

  function Abs(x: int): nat { if x >= 0 then x else -x }

  /** Rounding of a real toward zero: the `as i64` cast of a float. */
  function Truncate(x: real): (r: int)
    ensures x >= 0.0 ==> r as real <= x < r as real + 1.0 && r >= 0
    ensures x <= 0.0 ==> r as real - 1.0 < x <= r as real && r <= 0
  {
    if x >= 0.0 then x.Floor else -((-x).Floor)
  }

  /** Division of integers rounding toward zero: the `/` of signed machine integers. */
  function TruncDiv(a: int, b: int): (q: int)
    requires b > 0
    ensures a >= 0 ==> q * b <= a < (q + 1) * b
    ensures a <= 0 ==> (q - 1) * b < a <= q * b
  {
    if a >= 0 then a / b else -((-a) / b)
  }

  // ---------------------------------------------------------------------------
  // Integers
  // ---------------------------------------------------------------------------

  lemma MulMono(d: nat, x: int, y: int)
    ensures x <= y ==> d * x <= d * y
  {
    assert x <= y ==> d * (y - x) >= 0;
  }

  lemma Distribute(a: int, b: int, q: int, r: int)
    ensures a * (b * q + r) == (a * b) * q + a * r
  {
  }

  lemma DivMod(m: nat, d: nat)
    requires d >= 1
    ensures m == d * (m / d) + m % d && 0 <= m % d < d
  {
  }

  lemma DivUnique(m: nat, d: nat, q: nat, r: nat)
    requires d >= 1 && m == d * q + r && r < d
    ensures m / d == q
  {
    MulMono(d, q + 1, m / d);
    MulMono(d, m / d + 1, q);
  }

  lemma TwoDivisions(m: nat, a: nat, b: nat, n: nat, r: nat, q: nat, t: nat)
    requires m == a * n + r && r < a && n == b * q + t && t < b
    ensures a * b >= 1 && m / (a * b) == q
  {
    Distribute(a, b, q, t);
    MulMono(a, t, b - 1);
    Distribute(a, 1, b - 1, 1);
    MulMono(a, 1, b);
    DivUnique(m, a * b, q, a * t + r);
  }

  /** Dividing twice is dividing once by the product. */
  lemma DivDiv(m: nat, a: nat, b: nat)
    requires a >= 1 && b >= 1
    ensures a * b >= 1 && (m / a) / b == m / (a * b)
  {
    DivMod(m, a);
    DivMod(m / a, b);
    TwoDivisions(m, a, b, m / a, m % a, (m / a) / b, (m / a) % b);
  }

  lemma FloorToMultiple(x: nat, d: nat)
    requires d >= 1
    ensures 0 <= x / d * d <= x < x / d * d + d
  {
    DivMod(x, d);
  }

  lemma DivMono(x: nat, y: nat, d: nat)
    requires d >= 1 && x <= y
    ensures x / d * d <= y / d * d
  {
    DivMod(x, d);
    DivMod(y, d);
    MulMono(d, y / d + 1, x / d);
    MulMono(d, x / d, y / d);
  }

  lemma QuotientMono(x: nat, y: nat, d: nat)
    requires d >= 1 && x <= y
    ensures x / d <= y / d
  {
    DivMod(x, d);
    DivMod(y, d);
    MulMono(d, y / d + 1, x / d);
  }

  /** Rounding down counts from any multiple. */
  lemma ShiftedDivision(m: nat, base: nat, d: nat)
    requires d >= 1 && base % d == 0
    ensures (base + m) / d * d == base + m / d * d
  {
    DivMod(base, d);
    DivMod(m, d);
    ShiftedQuotient(base, m, d, base / d, m / d, m % d);
  }

  lemma ShiftedQuotient(base: nat, m: nat, d: nat, p: nat, q: nat, r: nat)
    requires d >= 1 && base == d * p && m == d * q + r && r < d
    ensures (base + m) / d * d == base + q * d
  {
    assert d * (p + q) == d * p + d * q;
    DivUnique(base + m, d, p + q, r);
  }

  lemma MultipleHasNoRemainder(q: nat, d: nat)
    requires d >= 1
    ensures q * d % d == 0
  {
    DivMod(q * d, d);
    DivUnique(q * d, d, q, 0);
  }

  // ---------------------------------------------------------------------------
  // Reals
  // ---------------------------------------------------------------------------

  lemma ProductSign(a: real, b: real)
    ensures a >= 0.0 && b >= 0.0 ==> a * b >= 0.0
    ensures a > 0.0 && b > 0.0 ==> a * b > 0.0
  {
  }

  lemma ProductOfDifference(a: real, b: real, c: real)
    ensures (a - b) * c == a * c - b * c
  {
  }

  lemma QuotientTimesDivisor(s: real, n: real)
    requires n > 0.0
    ensures s / n * n == s
  {
  }

  lemma CancelFactor(a: real, b: real, n: real)
    requires n > 0.0
    ensures a * n <= b * n ==> a <= b
    ensures a * n < b * n ==> a < b
  {
    ProductOfDifference(a, b, n);
    ProductSign(a - b, n);
  }

  lemma QuotientWithin(s: real, n: real, lo: real, hi: real)
    requires n > 0.0 && lo * n <= s <= hi * n
    ensures lo <= s / n <= hi
  {
    QuotientTimesDivisor(s, n);
    CancelFactor(lo, s / n, n);
    CancelFactor(s / n, hi, n);
  }
}
