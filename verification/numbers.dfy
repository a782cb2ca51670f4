/** Arithmetic the dashboard borrows from Python and numpy: the
    zero-guarded percentage, `int()` truncation and `round()`. */
module Numbers {

  /** The guarded percentage `num / den * 100 if den > 0 else 0`
      (`np.where(den > 0, num / den * 100, 0)`). */
  function Pct(num: real, den: real): (r: real)
    ensures den > 0.0 ==> r * den == num * 100.0
    ensures den <= 0.0 ==> r == 0.0
  {
    if den > 0.0 then num / den * 100.0 else 0.0
  }

  /** `p` is the guarded percentage of `num` over `den`, stated without division. */
  predicate IsPct(p: real, num: real, den: real) {
    (den > 0.0 ==> p * den == num * 100.0) && (den <= 0.0 ==> p == 0.0)
  }

  lemma PctBounds(num: real, den: real)
    requires 0.0 <= num <= den
    ensures 0.0 <= Pct(num, den) <= 100.0
    ensures den > 0.0 ==> (Pct(num, den) == 100.0 <==> num == den)
  {
  }

  /** Percentages over one denominator add up like their numerators. */
  lemma PctAdd(a: real, b: real, den: real)
    ensures Pct(a, den) + Pct(b, den) == Pct(a + b, den)
  {
    if den > 0.0 {
      var x, y, z := Pct(a, den), Pct(b, den), Pct(a + b, den);
      assert (x + y - z) * den == 0.0;
    }
  }

  /** Python `int(v)` on a float: truncation toward zero. */
  function Trunc(v: real): (n: int)
    ensures v >= 0.0 ==> 0 <= n && n as real <= v < n as real + 1.0
    ensures v < 0.0 ==> n <= 0 && n as real - 1.0 < v <= n as real
  {
    if v >= 0.0 then v.Floor else -((-v).Floor)
  }

  /** Python `round(x)` on a number: the nearest integer, ties to the even one. */
  function RoundHalfEven(x: real): (n: int)
    ensures -0.5 <= x - n as real <= 0.5
    ensures (x - n as real == 0.5 || n as real - x == 0.5) ==> n % 2 == 0
  {
    var f := x.Floor;
    var d := x - f as real;
    if d < 0.5 then f
    else if d > 0.5 then f + 1
    else if f % 2 == 0 then f
    else f + 1
  }

  /** The two properties above pin `round` down: no other integer has them. */
  lemma RoundHalfEvenUnique(x: real, m: int)
    requires -0.5 <= x - m as real <= 0.5
    requires (x - m as real == 0.5 || m as real - x == 0.5) ==> m % 2 == 0
    ensures m == RoundHalfEven(x)
  {
  }
}
