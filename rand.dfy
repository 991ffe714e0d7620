/** Draws of `Math.random()` and the integer picks the games derive from
    them. A draw is a parameter of the operation that makes it. */
module Rand {
  /** A value `Math.random()` can return: a real in [0, 1). */
  predicate IsDraw(r: real) { 0.0 <= r < 1.0 }

  /** `Math.floor(Math.random() * n)` for a positive whole `n`: a whole
      number in [0, n). */
  function Pick(r: real, n: int): (k: int)
    requires IsDraw(r) && n >= 1
    ensures 0 <= k < n
  {
    ScaleBelow(r, n);
    (r * n as real).Floor
  }

  /** `Math.random() * n`: a real in [0, n) for positive `n`, and in
      (n, 0] otherwise. */
  function Scale(r: real, n: real): (v: real)
    requires IsDraw(r)
    ensures n > 0.0 ==> 0.0 <= v < n
    ensures n <= 0.0 ==> n <= v <= 0.0
  {
    var v := r * n;
    ScaleRealBelow(r, n, v);
    v
  }

  lemma ScaleRealBelow(r: real, n: real, v: real)
    requires IsDraw(r) && v == r * n
    ensures n > 0.0 ==> 0.0 <= v < n
    ensures n <= 0.0 ==> n <= v <= 0.0
  {
    if n > 0.0 {
      MulSigns(r, n);
      MulSigns(1.0 - r, n);
    } else if n < 0.0 {
      MulSigns(r, -n);
      MulSigns(1.0 - r, -n);
    }
  }

  /** Scaling a draw by a positive whole number stays below it. */
  lemma ScaleBelow(r: real, n: int)
    requires IsDraw(r) && n >= 1
    ensures 0.0 <= r * n as real < n as real
  {
    ScaleRealBelow(r, n as real, r * n as real);
  }

  /** A product of a non-negative and a positive factor is non-negative,
      and positive when both are. */
  lemma MulSigns(a: real, b: real)
    requires a >= 0.0 && b > 0.0
    ensures a * b >= 0.0
    ensures a > 0.0 ==> a * b > 0.0
  {
  }
}
