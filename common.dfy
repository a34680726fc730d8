/** Small shared vocabulary: optional values, results, and the two numeric
    conversions Python performs implicitly (int() on a float, % on a float). */
module Common {

  datatype Option<T> = None | Some(value: T)

  datatype Result<T, E> = Ok(value: T) | Err(error: E)

  /** Python's `int(x)` on a float: truncation toward zero. */
  function Trunc(x: real): (r: int)
    ensures 0.0 <= x ==> r as real <= x < r as real + 1.0
    ensures x <= 0.0 ==> r as real - 1.0 < x <= r as real
  {
    if x >= 0.0 then x.Floor else -((-x).Floor)
  }

  /** Python's `x % m` on floats with a positive divisor: the result has the
      sign of the divisor, so it lies in [0, m). */
  function FMod(x: real, m: real): (r: real)
    requires m > 0.0
    ensures 0.0 <= r < m
    ensures ((x - r) / m).Floor as real == (x - r) / m
  {
    var q: real := (x / m).Floor as real;
    FloorScaled(x, m, q);
    x - m * q
  }

  lemma FloorScaled(x: real, m: real, q: real)
    requires m > 0.0 && q == (x / m).Floor as real
    ensures 0.0 <= x - m * q < m
    ensures (x - (x - m * q)) / m == q
  {
    var y := x / m;
    assert x == m * y;
    assert q <= y < q + 1.0;
    MulLe(m, q, y);
    MulLt(m, y, q + 1.0);
  }

  lemma MulLe(m: real, a: real, b: real)
    requires m > 0.0 && a <= b
    ensures m * a <= m * b
  {
  }

  lemma MulLt(m: real, a: real, b: real)
    requires m > 0.0 && a < b
    ensures m * a < m * b
  {
  }

  lemma MulNonneg(a: real, b: real)
    requires a >= 0.0 && b >= 0.0
    ensures a * b >= 0.0
  {
  }

  function Abs(x: real): real { if x < 0.0 then -x else x }

  function MaxR(a: real, b: real): real { if a >= b then a else b }

  function MinR(a: real, b: real): real { if a <= b then a else b }

  function MaxI(a: int, b: int): int { if a >= b then a else b }

  function MinI(a: int, b: int): int { if a <= b then a else b }
}
