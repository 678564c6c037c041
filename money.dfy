/** Monetary arithmetic. Amounts are exact reals; `parseFloat(x.toFixed(2))` is `Round2`. */
module Money {

  function Max(a: real, b: real): (r: real)
    ensures r >= a && r >= b && (r == a || r == b)
  {
    if a >= b then a else b
  }

  /** `Math.max(0, x)`. */
  function Max0(x: real): (r: real)
    ensures r >= 0.0 && r >= x && (r == 0.0 || r == x)
  {
    Max(0.0, x)
  }

  /** `x.toFixed(2)` read back as a number: the multiple of 0.01 nearest to `x`. ECMAScript
      rounds the magnitude and picks the larger one on a tie, so a half-way amount is
      rounded away from zero (0.005 gives 0.01, -0.005 gives -0.01). */
  function Round2(x: real): (r: real)
    ensures IsWhole(r * 100.0)
    ensures x - 0.005 <= r <= x + 0.005
    ensures x >= 0.0 ==> x - 0.005 < r
    ensures x <= 0.0 ==> r < x + 0.005
    ensures x >= 0.0 && IsWhole(x * 100.0 + 0.5) ==> r == x + 0.005
    ensures x < 0.0 && IsWhole(x * 100.0 - 0.5) ==> r == x - 0.005
  {
    if x < 0.0 then
      var m := RoundCents(-x);
      WholeNegated(m * 100.0);
      assert (-m) * 100.0 == -(m * 100.0);
      WholeNegated(x * 100.0 - 0.5);
      assert -(x * 100.0 - 0.5) == -x * 100.0 + 0.5;
      -m
    else RoundCents(x)
  }

  /** The negation of a whole amount is whole. */
  lemma WholeNegated(y: real)
    ensures IsWhole(y) ==> IsWhole(-y)
  {
    if IsWhole(y) {
      var k := y.Floor;
      assert -y == (-k) as real;
      IntWhole(-k);
    }
  }

  /** An integer amount is whole. */
  lemma IntWhole(k: int)
    ensures IsWhole(k as real)
  {
  }

  /** Whether an amount has no fractional part. */
  predicate IsWhole(y: real)
  {
    y.Floor as real == y
  }

  /** The multiple of 0.01 nearest to a non-negative `x`, the larger one on a tie. */
  function RoundCents(x: real): (r: real)
    requires x >= 0.0
    ensures IsWhole(r * 100.0)
    ensures x - 0.005 < r <= x + 0.005 && r >= 0.0
    ensures IsWhole(x * 100.0 + 0.5) ==> r == x + 0.005
  {
    (x * 100.0 + 0.5).Floor as real / 100.0
  }

  lemma Round2Monotone(x: real, y: real)
    requires x <= y
    ensures Round2(x) <= Round2(y)
  {
    if 0.0 <= x {
      assert (x * 100.0 + 0.5).Floor <= (y * 100.0 + 0.5).Floor;
    } else if y < 0.0 {
      assert (-y * 100.0 + 0.5).Floor <= (-x * 100.0 + 0.5).Floor;
    }
  }

  /** Rounding never turns a non-negative amount negative. */
  lemma Round2NonNegative(x: real)
    requires x >= 0.0
    ensures Round2(x) >= 0.0
  {
    Round2Monotone(0.0, x);
  }

  /** Rounding is symmetric about zero, and half a cent rounds away from zero. */
  lemma Round2Ties(x: real)
    ensures Round2(-x) == -Round2(x)
    ensures Round2(0.005) == 0.01 && Round2(-0.005) == -0.01
  {
    assert (0.005 * 100.0 + 0.5).Floor == 1;
  }

  /** An amount that is already a whole number of cents is unchanged by rounding. */
  lemma Round2OfCents(c: int)
    ensures Round2(c as real / 100.0) == c as real / 100.0
  {
    var x := c as real / 100.0;
    if c < 0 {
      assert -x * 100.0 + 0.5 == -c as real + 0.5;
      assert (-c as real + 0.5).Floor == -c;
    } else {
      assert x * 100.0 + 0.5 == c as real + 0.5;
      assert (c as real + 0.5).Floor == c;
    }
  }

  /** Rounding a value at least `c` cents gives at least `c` cents. */
  lemma Round2AtLeast(x: real, c: int)
    requires x >= c as real / 100.0
    ensures Round2(x) >= c as real / 100.0
  {
    Round2Monotone(c as real / 100.0, x);
    Round2OfCents(c);
  }
}
