/** Facts about Euclidean remainder that the cyclic index arithmetic of the sliders rests on. */
module Modular {
  /** Reducing the left summand first does not change a sum modulo `n`. */
  lemma ModAddLeft(a: int, b: int, n: int)
    requires a >= 0 && b >= 0 && n > 0
    ensures (a % n + b) % n == (a + b) % n
  {
    var q := a / n;
    assert a == q * n + a % n;
    assert a + b == q * n + (a % n + b);
    ModShift(a % n + b, q, n);
  }

  lemma ModShift(x: int, q: int, n: int)
    requires n > 0
    ensures (q * n + x) % n == x % n
  {
    var p := x / n;
    assert x == p * n + x % n;
    assert q * n + x == (q + p) * n + x % n;
    ModUnique(q * n + x, q + p, x % n, n);
  }

  /** Euclidean division is unique: a remainder in `[0, n)` is the remainder. */
  lemma ModUnique(y: int, d: int, r: int, n: int)
    requires n > 0 && y == d * n + r && 0 <= r < n
    ensures y % n == r
  {
    var d', r' := y / n, y % n;
    assert y == d' * n + r';
    assert (d - d') * n == r' - r;
    if d > d' {
      MulAtLeast(d - d', n);
    } else if d < d' {
      MulAtLeast(d' - d, n);
    }
  }

  lemma MulAtLeast(a: int, n: int)
    requires a >= 1 && n > 0
    ensures a * n >= n
  {
    assert a * n == (a - 1) * n + n;
  }
}
