/** JavaScript's remainder operator on integral numbers, and the
    index normalisation the difference navigator builds from it. */
module JsArith {

  /** The quotient JavaScript's `%` is built on: `a / n` truncated toward zero. */
  function JsQuot(a: int, n: int): (q: int)
    requires n > 0
    ensures a >= 0 ==> q >= 0
    ensures a <= 0 ==> q <= 0
  {
    if a >= 0 then a / n else -((-a) / n)
  }

  /** `a % n` as JavaScript evaluates it: the quotient is truncated toward
      zero, so the remainder takes the sign of the dividend `a`.
      (A result of JavaScript's `-0` is represented by 0: it indexes and
      compares like 0.) */
  function JsRem(a: int, n: int): (r: int)
    requires n > 0
    ensures -n < r < n
    ensures a >= 0 ==> 0 <= r
    ensures a <= 0 ==> r <= 0
    ensures a == JsQuot(a, n) * n + r
  {
    if a >= 0 then a % n
    else
      var b := -a;
      assert b == (b / n) * n + b % n;
      assert (-(b / n)) * n == -((b / n) * n);
      -(b % n)
  }

  /** The navigator's normalisation: take the truncating remainder, then add
      `n` once if it came out negative. A single correction suffices for
      every integer `a`, however far outside `[0, n)` it lies: the result is
      exactly the Euclidean (always non-negative) residue. */
  function Wrap(a: int, n: int): (w: int)
    requires n > 0
    ensures 0 <= w < n
    ensures w == a % n
  {
    var q := JsQuot(a, n);
    var r := JsRem(a, n);
    if r < 0 then
      assert a == (q - 1) * n + (r + n) by {
        assert (q - 1) * n == q * n - n;
      }
      UniqueResidue(a, q - 1, n, r + n);
      r + n
    else
      UniqueResidue(a, q, n, r);
      r
  }

  /** A non-zero multiple of `n` is at least `n` away from 0. */
  lemma MultipleBounds(k: int, n: int)
    requires n > 0
    ensures k >= 1 ==> k * n >= n
    ensures k <= -1 ==> k * n <= -n
  {
  }

  /** A value in `[0, n)` that differs from `a` by a multiple of `n` is the
      Euclidean residue `a % n`. */
  lemma UniqueResidue(a: int, q: int, n: int, w: int)
    requires n > 0
    requires 0 <= w < n
    requires a == q * n + w
    ensures w == a % n
  {
    var d := a / n;
    assert a == d * n + a % n;
    assert (q - d) * n == q * n - d * n;
    MultipleBounds(q - d, n);
  }

  /** Reducing the first summand modulo `n` does not change the sum's residue. */
  lemma ShiftResidue(a: int, b: int, n: int)
    requires n > 0
    ensures (a % n + b) % n == (a + b) % n
  {
    var q1 := a / n;
    var q2 := (a % n + b) / n;
    assert a == q1 * n + a % n;
    assert a % n + b == q2 * n + (a % n + b) % n;
    assert a + b == (q1 + q2) * n + (a % n + b) % n by {
      assert (q1 + q2) * n == q1 * n + q2 * n;
    }
    UniqueResidue(a + b, q1 + q2, n, (a % n + b) % n);
  }
}
