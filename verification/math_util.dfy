/**
 * The two MathUtil helpers the drive core relies on: clamp, and the angle
 * wrap built on inputModulus. Both are written as WPILib defines them,
 * including Java's truncating (int) cast.
 */
module MathUtil {
  import opened Types
  import opened Algebra

  function Min(a: real, b: real): real { if a <= b then a else b }
  function Max(a: real, b: real): real { if a >= b then a else b }

  /** MathUtil.clamp(value, low, high) = max(low, min(value, high)). */
  function Clamp(value: real, low: real, high: real): (r: real)
    ensures low <= high ==> low <= r <= high
    ensures low <= value <= high ==> r == value
    ensures low <= high && value < low ==> r == low
    ensures low <= high && high < value ==> r == high
  {
    Max(low, Min(value, high))
  }

  /** Java's (int) cast of a double: truncation toward zero (saturation at the int range is not modelled). */
  function Trunc(x: real): int
  {
    if x >= 0.0 then x.Floor else -((-x).Floor)
  }

  /** Truncation moves a value toward zero by less than one. */
  lemma TruncBounds(x: real)
    ensures 0.0 <= x ==> Trunc(x) as real <= x < Trunc(x) as real + 1.0
    ensures x < 0.0 ==> Trunc(x) as real - 1.0 < x <= Trunc(x) as real
  {
  }

  /** MathUtil.inputModulus: wraps `input` into the span [minimumInput, maximumInput] in two steps. */
  function InputModulus(input: real, minimumInput: real, maximumInput: real): real
    requires minimumInput < maximumInput
  {
    var modulus := maximumInput - minimumInput;
    var numMax := Trunc((input - minimumInput) / modulus);
    var wrapped := input - numMax as real * modulus;
    var numMin := Trunc((wrapped - maximumInput) / modulus);
    wrapped - numMin as real * modulus
  }

  /** How many whole spans the two steps of inputModulus remove in total. */
  function WrapCount(input: real, minimumInput: real, maximumInput: real): int
    requires minimumInput < maximumInput
  {
    var modulus := maximumInput - minimumInput;
    var numMax := Trunc((input - minimumInput) / modulus);
    numMax + Trunc((input - numMax as real * modulus - maximumInput) / modulus)
  }

  /** MathUtil.angleModulus: inputModulus over [-pi, pi]. */
  function AngleModulus(angleRadians: real): real
  {
    InputModulus(angleRadians, -Pi, Pi)
  }

  /** Subtracting a truncated multiple of m leaves a remainder of t's sign, less than m in size. */
  lemma TruncatedRemainder(t: real, m: real)
    requires m > 0.0
    ensures 0.0 <= t ==> 0.0 <= t - Trunc(t / m) as real * m < m
    ensures t < 0.0 ==> -m < t - Trunc(t / m) as real * m <= 0.0
  {
    var u := t / m;
    var k := Trunc(u) as real;
    QuotientSign(t, m);
    TruncBounds(u);
    ScaledFraction(t, m, u, k);
    // The remainder is (u - k) * m with u - k in [0, 1) or (-1, 0], by the sign of t.
    UnitIntervalScaled(u - k, m, t - k * m);
  }

  /** inputModulus returns a value in the half-open span (minimumInput, maximumInput]. */
  lemma InputModulusRange(input: real, minimumInput: real, maximumInput: real)
    requires minimumInput < maximumInput
    ensures minimumInput < InputModulus(input, minimumInput, maximumInput) <= maximumInput
  {
    var modulus := maximumInput - minimumInput;
    var numMax := Trunc((input - minimumInput) / modulus);
    var wrapped := input - numMax as real * modulus;
    var numMin := Trunc((wrapped - maximumInput) / modulus);
    assert InputModulus(input, minimumInput, maximumInput) == wrapped - numMin as real * modulus;
    // After the first step the value is below the maximum, so the second step's
    // quotient is negative and lifts it into (minimumInput, maximumInput].
    FirstStep(input, minimumInput, modulus);
    SecondStep(wrapped, maximumInput, modulus);
  }

  /** The first step of inputModulus leaves a value below minimumInput + modulus. */
  lemma FirstStep(input: real, minimumInput: real, modulus: real)
    requires modulus > 0.0
    ensures input - Trunc((input - minimumInput) / modulus) as real * modulus < minimumInput + modulus
  {
    TruncatedRemainder(input - minimumInput, modulus);
  }

  /** The second step of inputModulus lifts a value below the maximum into the top span. */
  lemma SecondStep(wrapped: real, maximumInput: real, modulus: real)
    requires modulus > 0.0 && wrapped < maximumInput
    ensures var r := wrapped - Trunc((wrapped - maximumInput) / modulus) as real * modulus;
      maximumInput - modulus < r <= maximumInput
  {
    TruncatedRemainder(wrapped - maximumInput, modulus);
  }

  /** inputModulus changes its input by a whole number of spans only. */
  lemma InputModulusCongruent(input: real, minimumInput: real, maximumInput: real)
    requires minimumInput < maximumInput
    ensures InputModulus(input, minimumInput, maximumInput)
         == input - WrapCount(input, minimumInput, maximumInput) as real * (maximumInput - minimumInput)
  {
    var modulus := maximumInput - minimumInput;
    var numMax := Trunc((input - minimumInput) / modulus);
    var wrapped := input - numMax as real * modulus;
    var numMin := Trunc((wrapped - maximumInput) / modulus);
    SumTimes(numMax, numMin, modulus);
  }

  lemma SumTimes(a: int, b: int, m: real)
    ensures (a + b) as real * m == a as real * m + b as real * m
  {
  }

  /** angleModulus lands in (-pi, pi] and changes its input by whole turns only. */
  lemma AngleModulusRange(angleRadians: real)
    ensures -Pi < AngleModulus(angleRadians) <= Pi
    ensures AngleModulus(angleRadians) == angleRadians - WrapCount(angleRadians, -Pi, Pi) as real * (2.0 * Pi)
  {
    InputModulusRange(angleRadians, -Pi, Pi);
    InputModulusCongruent(angleRadians, -Pi, Pi);
    assert Pi - -Pi == 2.0 * Pi;
  }

  /** An angle already in (-pi, pi] is returned unchanged. */
  lemma AngleModulusFixesPrincipal(angleRadians: real)
    requires -Pi < angleRadians <= Pi
    ensures AngleModulus(angleRadians) == angleRadians
  {
    // The result differs from the input by whole turns and both lie in (-pi, pi].
    AngleModulusRange(angleRadians);
    var k := WrapCount(angleRadians, -Pi, Pi);
    var r := AngleModulus(angleRadians);
    assert angleRadians - r == k as real * (2.0 * Pi);
    assert -2.0 * Pi < angleRadians - r < 2.0 * Pi;
    if k >= 1 {
      ScaleBounds(k as real, 1.0, k as real + 1.0, 2.0 * Pi);
    } else if k <= -1 {
      ScaleBounds(k as real, k as real - 1.0, -1.0, 2.0 * Pi);
    }
  }

  /** The input -pi is sent to +pi: the wrap's range is (-pi, pi], not [-pi, pi). */
  lemma AngleModulusOfMinusPi()
    ensures AngleModulus(-Pi) == Pi
  {
    var modulus := 2.0 * Pi;
    assert (-Pi - -Pi) / modulus == 0.0;
    assert Trunc(0.0) == 0;
    assert (-Pi - Pi) / modulus == -1.0;
    assert Trunc(-1.0) == -1;
  }
}
