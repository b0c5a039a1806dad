/** Values shared by every part of the model. */
module Common {

  /** Python's `None` or a present value. */
  datatype Option<+T> = None | Some(value: T)

  /** A ratio the source reports as `float('inf')` when its denominator is zero. */
  datatype Factor = Finite(value: real) | Infinite

  function Abs(x: int): nat
  {
    if x < 0 then -x else x
  }

  function Max(a: int, b: int): int
  {
    if a < b then b else a
  }

  function Min(a: int, b: int): int
  {
    if a < b then a else b
  }

  /** Nonlinear facts about Euclidean division that the solver does not find alone. */
  lemma MulAtLeast(s: int, d: int)
    requires s > 0 && d >= 1
    ensures s * d >= s
  {
  }

  lemma DivModUnique(a: int, s: int, q: int, r: int)
    requires s > 0 && 0 <= r < s && a == s * q + r
    ensures a / s == q && a % s == r
  {
    var q0, r0 := a / s, a % s;
    assert a == s * q0 + r0;
    if q > q0 {
      assert s * (q - q0) == s * q - s * q0;
      MulAtLeast(s, q - q0);
    } else if q < q0 {
      assert s * (q0 - q) == s * q0 - s * q;
      MulAtLeast(s, q0 - q);
    }
  }

  lemma ModShift(x: int, s: int)
    requires s > 0
    ensures (x - s) % s == x % s
  {
    DivModUnique(x - s, s, x / s - 1, x % s);
  }

  /** A ratio `q = w / n` of a non-negative `w` to a positive `n`; at most 1 when `w` is a part of `n`. */
  lemma RatioBounds(q: real, w: real, n: real)
    requires n > 0.0 && 0.0 <= w && q * n == w
    ensures 0.0 <= q
    ensures w <= n ==> q <= 1.0
    ensures q == 1.0 <==> w == n
    ensures q == 0.0 <==> w == 0.0
  {
    assert (1.0 - q) * n == n - w;
  }
}
