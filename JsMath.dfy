/** `Math.round` and the percentage formula built on it, on exact reals. */
module JsMath {
  /** `Math.round(x)`: the nearest integer, halves rounded up. */
  function Round(x: real): (r: int)
    ensures r as real <= x + 0.5 < r as real + 1.0
  {
    (x + 0.5).Floor
  }

  /** `Math.round((part / whole) * 100)`. */
  function Percent(part: int, whole: int): (r: int)
    requires whole > 0
    ensures r as real <= part as real / whole as real * 100.0 + 0.5 < r as real + 1.0
  {
    Round(part as real / whole as real * 100.0)
  }

  /** The percentage is the integer round-half-up formula. */
  lemma PercentExact(part: int, whole: int)
    requires whole > 0
    ensures Percent(part, whole) == (200 * part + whole) / (2 * whole)
  {
    var k := (200 * part + whole) / (2 * whole);
    var x := part as real / whole as real * 100.0 + 0.5;
    assert k * (2 * whole) <= 200 * part + whole < (k + 1) * (2 * whole);
    assert x == (200 * part + whole) as real / (2 * whole) as real;
    assert k as real <= x < (k + 1) as real by {
      var W := (2 * whole) as real;
      assert (k * (2 * whole)) as real == k as real * W;
      assert ((k + 1) * (2 * whole)) as real == (k + 1) as real * W;
    }
  }

  /** A share of a whole lies in 0..100, and the whole is 100. */
  lemma PercentBounds(part: int, whole: int)
    requires 0 <= part <= whole && whole > 0
    ensures 0 <= Percent(part, whole) <= 100
    ensures part == whole ==> Percent(part, whole) == 100
  {
    PercentExact(part, whole);
    var w := 2 * whole;
    var n := 200 * part + whole;
    assert 0 <= n < 101 * w;
    DivBelow(n, w, 101);
    if part == whole {
      DivBetween(n, w, 100);
    }
  }

  lemma DivBelow(n: int, d: int, m: int)
    requires 0 <= n < m * d && d > 0
    ensures 0 <= n / d < m
  {
    var q := n / d;
    assert q * d <= n;
    assert (m - q) * d > 0;
  }

  lemma DivBetween(n: int, d: int, q: int)
    requires d > 0 && q * d <= n < (q + 1) * d
    ensures n / d == q
  {
    var k := n / d;
    assert k * d <= n < (k + 1) * d;
    assert (k + 1 - q) * d == (k + 1) * d - q * d;
    assert (q + 1 - k) * d == (q + 1) * d - k * d;
    PositiveFactor(k + 1 - q, d);
    PositiveFactor(q + 1 - k, d);
  }

  lemma PositiveFactor(x: int, d: int)
    requires d > 0 && x * d > 0
    ensures x > 0
  {
  }

  /** A larger share never has a smaller percentage. */
  lemma PercentMono(p: int, q: int, whole: int)
    requires p <= q && whole > 0
    ensures Percent(p, whole) <= Percent(q, whole)
  {
    PercentExact(p, whole);
    PercentExact(q, whole);
    MonoDiv(200 * p + whole, 200 * q + whole, 2 * whole);
  }

  lemma MonoDiv(a: int, b: int, d: int)
    requires a <= b && d > 0
    ensures a / d <= b / d
  {
    if a / d > b / d {
      MulMono(b / d + 1, a / d, d);
    }
  }

  lemma MulMono(x: int, y: int, d: int)
    requires x <= y && d > 0
    ensures x * d <= y * d
  {
    assert y * d == x * d + (y - x) * d;
  }
}
