/** Arithmetic helpers, and Math.Round on decimals as .NET defines it. */
module Numerics {

  function Abs(x: real): real {
    if x < 0.0 then -x else x
  }

  function Max(a: int, b: int): int {
    if a < b then b else a
  }

  function Min(a: int, b: int): int {
    if a < b then a else b
  }

  function Pow10(n: nat): (r: nat)
    ensures r >= 1
  {
    if n == 0 then 1 else 10 * Pow10(n - 1)
  }

  /** 10^decimals as a real: one unit of the last kept place is 1 / Scale(decimals). */
  function Scale(decimals: nat): (s: real)
    ensures s >= 1.0
  {
    Pow10(decimals) as real
  }

  /**
   * Math.Round(decimal): the nearest integer, a tie going to the even
   * neighbour (MidpointRounding.ToEven, the .NET default).
   */
  function RoundToEven(x: real): (r: int)
    ensures Abs(r as real - x) <= 0.5
    ensures Abs(r as real - x) == 0.5 ==> r % 2 == 0
  {
    var f := x.Floor;
    var frac := x - f as real;
    if frac < 0.5 then f
    else if frac > 0.5 then f + 1
    else if f % 2 == 0 then f
    else f + 1
  }

  /**
   * Math.Round(decimal, decimals): banker's rounding to `decimals` places.
   */
  function Round(x: real, decimals: nat): real {
    RoundToEven(x * Scale(decimals)) as real / Scale(decimals)
  }

  /** Round is off by at most half a unit of the last kept place. */
  lemma RoundError(x: real, decimals: nat)
    ensures Abs(Round(x, decimals) - x) * Scale(decimals) <= 0.5
  {
    var s := Scale(decimals);
    var k := RoundToEven(x * Scale(decimals));
    assert Abs(k as real - x * s) <= 0.5;
    var d := k as real / s - x;
    assert d * s == k as real - x * s;
    if d < 0.0 {
      assert Abs(d) * s == -(d * s);
    } else {
      assert Abs(d) * s == d * s;
    }
  }

  /** A value that already has at most `decimals` places is left as it is. */
  lemma RoundExact(y: real, k: int, decimals: nat)
    requires y * Scale(decimals) == k as real
    ensures Round(y, decimals) == y
  {
    assert (k as real).Floor == k;
    assert RoundToEven(y * Scale(decimals)) == RoundToEven(k as real) == k;
    assert y == k as real / Scale(decimals);
  }

  /** Rounding twice to the same number of places is rounding once. */
  lemma RoundIdempotent(x: real, decimals: nat)
    ensures Round(Round(x, decimals), decimals) == Round(x, decimals)
  {
    var k := RoundToEven(x * Scale(decimals));
    assert Round(x, decimals) * Scale(decimals) == k as real;
    RoundExact(Round(x, decimals), k, decimals);
  }
}
