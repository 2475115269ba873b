/**
 * The per-cycle acceleration limiter of the swerve drive (SwerveDrive.limitAcceleration).
 *
 * The translational change desired - last is turned into an acceleration
 * (its length over dt), clamped to [0, maxTranslationalAccel] and applied along
 * the direction of the change; the angular change rate is clamped to
 * [-maxAngularAccel, maxAngularAccel] on its own.
 *
 * Math.hypot has no closed form over the reals: its value arrives as the
 * parameter `changeLength`, constrained by IsHypot. cos(atan2(dy, dx)) and
 * sin(atan2(dy, dx)) are dx / h and dy / h, and (1, 0) when h = 0, as atan2(0, 0) = 0.
 */
module AccelerationLimiter {
  import opened Types
  import opened Algebra
  import opened MathUtil

  /** h is the Euclidean length of (dx, dy): what Math.hypot(dx, dy) returns. */
  predicate IsHypot(h: real, dx: real, dy: real)
  {
    h >= 0.0 && Sq(h) == Sq(dx) + Sq(dy)
  }

  /** Math.hypot has one value: two lengths of the same vector agree. */
  lemma HypotUnique(h1: real, h2: real, dx: real, dy: real)
    requires IsHypot(h1, dx, dy) && IsHypot(h2, dx, dy)
    ensures h1 == h2
  {
    SquareInjective(h1, h2);
  }

  /** Only the zero vector has length zero. */
  lemma HypotZero(h: real, dx: real, dy: real)
    requires IsHypot(h, dx, dy)
    ensures h == 0.0 <==> dx == 0.0 && dy == 0.0
  {
    if h == 0.0 {
      SumOfSquaresZero(dx, dy);
    } else {
      SqSign(h);
    }
  }

  /** Dividing a vector by its length h > 0 gives a unit vector along it. */
  lemma UnitDirection(dx: real, dy: real, h: real)
    requires IsHypot(h, dx, dy) && h > 0.0
    ensures IsHypot(1.0, dx / h, dy / h)
    ensures dx / h * h == dx && dy / h * h == dy
  {
    var k := 1.0 / h;
    HypotScales(h, dx, dy, k);
    SqCongruent(k * h, 1.0);
    SqCongruent(k * dx, dx / h);
    SqCongruent(k * dy, dy / h);
    SqOne();
  }

  /** (cos theta, sin theta) for theta = atan2(dy, dx), given h = hypot(dx, dy). */
  function Direction(dx: real, dy: real, h: real): (real, real)
    requires IsHypot(h, dx, dy)
  {
    if h > 0.0 then (dx / h, dy / h) else (1.0, 0.0)
  }

  /** The direction is a unit vector, and a positive multiple of (dx, dy) when that is not zero. */
  lemma DirectionIsUnit(dx: real, dy: real, h: real)
    requires IsHypot(h, dx, dy)
    ensures var d := Direction(dx, dy, h);
      && IsHypot(1.0, d.0, d.1)
      && (h > 0.0 ==> d.0 * h == dx && d.1 * h == dy)
  {
    if h > 0.0 {
      UnitDirection(dx, dy, h);
    } else {
      SqOne();
      assert Sq(0.0) == 0.0;
    }
  }

  /**
   * The translational velocity change of one cycle: the change's direction times the
   * obtainable acceleration (hypot / dt clamped to [0, maxTranslationalAccel]) times dt.
   */
  function TranslationalStep(dx: real, dy: real, changeLength: real, dt: real, maxTranslationalAccel: real): (real, real)
    requires dt > 0.0
    requires IsHypot(changeLength, dx, dy)
  {
    var desiredAcceleration := changeLength / dt;
    var obtainableAcceleration := Clamp(desiredAcceleration, 0.0, maxTranslationalAccel);
    var theta := Direction(dx, dy, changeLength);
    (theta.0 * obtainableAcceleration * dt, theta.1 * obtainableAcceleration * dt)
  }

  /** The angular velocity change of one cycle: the omega change over dt, clamped to +-maxAngularAccel, times dt. */
  function AngularStep(dOmega: real, dt: real, maxAngularAccel: real): real
    requires dt > 0.0
  {
    var desiredOmegaAcceleration := dOmega / dt;
    var obtainableOmegaAcceleration := Clamp(desiredOmegaAcceleration, -maxAngularAccel, maxAngularAccel);
    obtainableOmegaAcceleration * dt
  }

  /** The limited field-relative speeds for one cycle of length dt: last plus both steps. */
  function LimitAcceleration(desired: ChassisSpeeds, last: ChassisSpeeds, dt: real,
                             maxTranslationalAccel: real, maxAngularAccel: real,
                             changeLength: real): ChassisSpeeds
    requires dt > 0.0
    requires IsHypot(changeLength, desired.vx - last.vx, desired.vy - last.vy)
  {
    var step := TranslationalStep(desired.vx - last.vx, desired.vy - last.vy, changeLength, dt, maxTranslationalAccel);
    ChassisSpeeds(
      last.vx + step.0,
      last.vy + step.1,
      last.omega + AngularStep(desired.omega - last.omega, dt, maxAngularAccel))
  }

  /** Clamping a rate and multiplying by dt > 0 is clamping the change to the scaled bounds. */
  lemma ClampScaled(change: real, low: real, high: real, dt: real)
    requires dt > 0.0
    ensures Clamp(change / dt, low, high) * dt == Clamp(change, low * dt, high * dt)
  {
    var v := change / dt;
    assert v * dt == change;
    ScaleOrder(v, high, dt);
    var m := Min(v, high);
    assert m * dt == Min(change, high * dt);
    ScaleOrder(low, m, dt);
  }

  /** ClampScaled with a lower bound of zero. */
  lemma ClampScaledFromZero(change: real, high: real, dt: real)
    requires dt > 0.0
    ensures Clamp(change / dt, 0.0, high) * dt == Clamp(change, 0.0, high * dt)
  {
    ClampScaled(change, 0.0, high, dt);
    assert 0.0 * dt == 0.0;
  }

  /** The angular step is the omega change clamped to [-maxAngularAccel * dt, maxAngularAccel * dt]. */
  lemma AngularStepIsClampedChange(dOmega: real, dt: real, maxAngularAccel: real)
    requires dt > 0.0
    ensures AngularStep(dOmega, dt, maxAngularAccel) == Clamp(dOmega, -maxAngularAccel * dt, maxAngularAccel * dt)
  {
    ClampScaled(dOmega, -maxAngularAccel, maxAngularAccel, dt);
  }

  lemma TranslationalStepUnfold(dx: real, dy: real, changeLength: real, dt: real, maxTranslationalAccel: real)
    requires dt > 0.0
    requires IsHypot(changeLength, dx, dy)
    ensures var step := TranslationalStep(dx, dy, changeLength, dt, maxTranslationalAccel);
      var a := Clamp(changeLength / dt, 0.0, maxTranslationalAccel);
      var d := Direction(dx, dy, changeLength);
      step.0 == d.0 * a * dt && step.1 == d.1 * a * dt
  {
  }

  lemma Regroup(s: real, d: real, a: real, dt: real, c: real)
    requires s == d * a * dt && a * dt == c
    ensures s == c * d
  {
  }

  /** The translational step is the unit direction scaled by the change's length clamped to [0, maxTranslationalAccel * dt]. */
  lemma TranslationalStepIsClampedLength(dx: real, dy: real, changeLength: real, dt: real, maxTranslationalAccel: real)
    requires dt > 0.0
    requires IsHypot(changeLength, dx, dy)
    ensures var step := TranslationalStep(dx, dy, changeLength, dt, maxTranslationalAccel);
      var d := Direction(dx, dy, changeLength);
      var c := Clamp(changeLength, 0.0, maxTranslationalAccel * dt);
      step.0 == c * d.0 && step.1 == c * d.1
  {
    var step := TranslationalStep(dx, dy, changeLength, dt, maxTranslationalAccel);
    var d := Direction(dx, dy, changeLength);
    var a := Clamp(changeLength / dt, 0.0, maxTranslationalAccel);
    var c := Clamp(changeLength, 0.0, maxTranslationalAccel * dt);
    TranslationalStepUnfold(dx, dy, changeLength, dt, maxTranslationalAccel);
    ClampScaledFromZero(changeLength, maxTranslationalAccel, dt);
    Regroup(step.0, d.0, a, dt, c);
    Regroup(step.1, d.1, a, dt, c);
  }

  /** A unit vector scaled by c >= 0 has length c. */
  lemma ScaledUnit(c: real, u0: real, u1: real, s0: real, s1: real)
    requires IsHypot(1.0, u0, u1) && c >= 0.0
    requires s0 == c * u0 && s1 == c * u1
    ensures IsHypot(c, s0, s1)
  {
    SqMul(c, u0);
    SqMul(c, u1);
    Distrib(Sq(u0), Sq(u1), Sq(c));
    SqOne();
    SqCongruent(s0, c * u0);
    SqCongruent(s1, c * u1);
  }

  /** The translational step's Euclidean length is clamp(|(dx, dy)|, 0, maxTranslationalAccel * dt). */
  lemma TranslationalStepLength(dx: real, dy: real, changeLength: real, dt: real, maxTranslationalAccel: real)
    requires dt > 0.0
    requires IsHypot(changeLength, dx, dy)
    ensures var step := TranslationalStep(dx, dy, changeLength, dt, maxTranslationalAccel);
      IsHypot(Clamp(changeLength, 0.0, maxTranslationalAccel * dt), step.0, step.1)
  {
    var step := TranslationalStep(dx, dy, changeLength, dt, maxTranslationalAccel);
    var d := Direction(dx, dy, changeLength);
    var c := Clamp(changeLength, 0.0, maxTranslationalAccel * dt);
    TranslationalStepIsClampedLength(dx, dy, changeLength, dt, maxTranslationalAccel);
    ClampNonNegative(changeLength, maxTranslationalAccel * dt);
    DirectionIsUnit(dx, dy, changeLength);
    ScaledUnit(c, d.0, d.1, step.0, step.1);
  }

  /** Clamping a non-negative value from below at zero gives a non-negative value, at most the value. */
  lemma ClampNonNegative(value: real, high: real)
    requires value >= 0.0
    ensures 0.0 <= Clamp(value, 0.0, high) <= value
  {
  }

  /**
   * The fraction of the requested translational change that one cycle applies:
   * the part of the change's length that fits in maxTranslationalAccel * dt, over that length.
   */
  function TranslationFraction(changeLength: real, dt: real, maxTranslationalAccel: real): real
  {
    if changeLength > 0.0 then Clamp(changeLength, 0.0, maxTranslationalAccel * dt) / changeLength else 0.0
  }

  /** For 0 <= c <= h, h > 0 and d * h == x: c / h lies in [0, 1] and c * d == (c / h) * x. */
  lemma FractionOfLength(c: real, h: real, d: real, x: real, s: real)
    requires 0.0 <= c <= h && h > 0.0 && d * h == x && s == c * d
    ensures 0.0 <= c / h <= 1.0
    ensures s == (c / h) * x
  {
    ProductSigns(c, 1.0 / h);
    ProductSigns(h - c, 1.0 / h);
  }

  /** The translational step is a fraction k in [0, 1] of (dx, dy): same direction, no overshoot. */
  lemma TranslationalStepAlongChange(dx: real, dy: real, changeLength: real, dt: real, maxTranslationalAccel: real)
    requires dt > 0.0
    requires IsHypot(changeLength, dx, dy)
    ensures var step := TranslationalStep(dx, dy, changeLength, dt, maxTranslationalAccel);
      var k := TranslationFraction(changeLength, dt, maxTranslationalAccel);
      0.0 <= k <= 1.0 && step.0 == k * dx && step.1 == k * dy
  {
    var h := changeLength;
    var step := TranslationalStep(dx, dy, h, dt, maxTranslationalAccel);
    var d := Direction(dx, dy, h);
    var c := Clamp(h, 0.0, maxTranslationalAccel * dt);
    TranslationalStepIsClampedLength(dx, dy, h, dt, maxTranslationalAccel);
    ClampNonNegative(h, maxTranslationalAccel * dt);
    DirectionIsUnit(dx, dy, h);
    if h > 0.0 {
      FractionOfLength(c, h, d.0, dx, step.0);
      FractionOfLength(c, h, d.1, dy, step.1);
    } else {
      HypotZero(h, dx, dy);
      assert c == 0.0;
    }
  }

  /** The change fits in one cycle exactly when the step is the whole change (for a non-negative limit). */
  lemma TranslationalStepWhole(dx: real, dy: real, changeLength: real, dt: real, maxTranslationalAccel: real)
    requires dt > 0.0
    requires IsHypot(changeLength, dx, dy)
    ensures var step := TranslationalStep(dx, dy, changeLength, dt, maxTranslationalAccel);
      && (changeLength <= maxTranslationalAccel * dt ==> step.0 == dx && step.1 == dy)
      && (maxTranslationalAccel >= 0.0 && step.0 == dx && step.1 == dy ==> changeLength <= maxTranslationalAccel * dt)
  {
    var h := changeLength;
    var step := TranslationalStep(dx, dy, h, dt, maxTranslationalAccel);
    var c := Clamp(h, 0.0, maxTranslationalAccel * dt);
    TranslationalStepAlongChange(dx, dy, h, dt, maxTranslationalAccel);
    TranslationalStepLength(dx, dy, h, dt, maxTranslationalAccel);
    if h <= maxTranslationalAccel * dt {
      if h > 0.0 {
        assert c == h;
        assert TranslationFraction(h, dt, maxTranslationalAccel) == 1.0;
      } else {
        HypotZero(h, dx, dy);
      }
    }
    if maxTranslationalAccel >= 0.0 && step.0 == dx && step.1 == dy {
      // The step is then the whole change, whose length is both c and h.
      HypotUnique(c, h, dx, dy);
      ProductSigns(maxTranslationalAccel, dt);
    }
  }

  lemma LimitUnfold(desired: ChassisSpeeds, last: ChassisSpeeds, dt: real,
                    maxTranslationalAccel: real, maxAngularAccel: real, changeLength: real)
    requires dt > 0.0
    requires IsHypot(changeLength, desired.vx - last.vx, desired.vy - last.vy)
    ensures var r := LimitAcceleration(desired, last, dt, maxTranslationalAccel, maxAngularAccel, changeLength);
      var step := TranslationalStep(desired.vx - last.vx, desired.vy - last.vy, changeLength, dt, maxTranslationalAccel);
      && r.vx == last.vx + step.0
      && r.vy == last.vy + step.1
      && r.omega == last.omega + AngularStep(desired.omega - last.omega, dt, maxAngularAccel)
  {
  }

  /** Two vectors with equal components have the same lengths. */
  lemma SameComponents(c: real, s0: real, s1: real, t0: real, t1: real)
    requires IsHypot(c, s0, s1) && t0 == s0 && t1 == s1
    ensures IsHypot(c, t0, t1)
  {
  }

  /** The limiter's translational change is a fraction k in [0, 1] of desired - last. */
  lemma LimitTranslationAlongChange(desired: ChassisSpeeds, last: ChassisSpeeds, dt: real,
                                    maxTranslationalAccel: real, maxAngularAccel: real, changeLength: real)
    requires dt > 0.0
    requires IsHypot(changeLength, desired.vx - last.vx, desired.vy - last.vy)
    ensures var r := LimitAcceleration(desired, last, dt, maxTranslationalAccel, maxAngularAccel, changeLength);
      var k := TranslationFraction(changeLength, dt, maxTranslationalAccel);
      && 0.0 <= k <= 1.0
      && r.vx - last.vx == k * (desired.vx - last.vx)
      && r.vy - last.vy == k * (desired.vy - last.vy)
  {
    LimitUnfold(desired, last, dt, maxTranslationalAccel, maxAngularAccel, changeLength);
    TranslationalStepAlongChange(desired.vx - last.vx, desired.vy - last.vy, changeLength, dt, maxTranslationalAccel);
  }

  /** The Euclidean length of the limiter's translational change is |desired - last| clamped to [0, maxTranslationalAccel * dt]. */
  lemma LimitTranslationLength(desired: ChassisSpeeds, last: ChassisSpeeds, dt: real,
                               maxTranslationalAccel: real, maxAngularAccel: real, changeLength: real)
    requires dt > 0.0
    requires IsHypot(changeLength, desired.vx - last.vx, desired.vy - last.vy)
    ensures var r := LimitAcceleration(desired, last, dt, maxTranslationalAccel, maxAngularAccel, changeLength);
      IsHypot(Clamp(changeLength, 0.0, maxTranslationalAccel * dt), r.vx - last.vx, r.vy - last.vy)
  {
    var r := LimitAcceleration(desired, last, dt, maxTranslationalAccel, maxAngularAccel, changeLength);
    var step := TranslationalStep(desired.vx - last.vx, desired.vy - last.vy, changeLength, dt, maxTranslationalAccel);
    LimitUnfold(desired, last, dt, maxTranslationalAccel, maxAngularAccel, changeLength);
    TranslationalStepLength(desired.vx - last.vx, desired.vy - last.vy, changeLength, dt, maxTranslationalAccel);
    SameComponents(Clamp(changeLength, 0.0, maxTranslationalAccel * dt), step.0, step.1, r.vx - last.vx, r.vy - last.vy);
  }

  /**
   * The limiter's translational step is a fraction k in [0, 1] of desired - last, and its
   * Euclidean length is |desired - last| clamped to [0, maxTranslationalAccel * dt].
   */
  lemma LimitTranslation(desired: ChassisSpeeds, last: ChassisSpeeds, dt: real,
                         maxTranslationalAccel: real, maxAngularAccel: real, changeLength: real)
    requires dt > 0.0
    requires IsHypot(changeLength, desired.vx - last.vx, desired.vy - last.vy)
    ensures var r := LimitAcceleration(desired, last, dt, maxTranslationalAccel, maxAngularAccel, changeLength);
      var k := TranslationFraction(changeLength, dt, maxTranslationalAccel);
      && 0.0 <= k <= 1.0
      && r.vx - last.vx == k * (desired.vx - last.vx)
      && r.vy - last.vy == k * (desired.vy - last.vy)
      && IsHypot(Clamp(changeLength, 0.0, maxTranslationalAccel * dt), r.vx - last.vx, r.vy - last.vy)
  {
    LimitTranslationAlongChange(desired, last, dt, maxTranslationalAccel, maxAngularAccel, changeLength);
    LimitTranslationLength(desired, last, dt, maxTranslationalAccel, maxAngularAccel, changeLength);
  }

  /**
   * The whole translational change is applied exactly when it fits in one cycle:
   * the output's vx, vy are desired's when |desired - last| <= maxTranslationalAccel * dt,
   * and (for a non-negative limit) only then.
   */
  lemma TranslationReachedIffWithinBound(desired: ChassisSpeeds, last: ChassisSpeeds, dt: real,
                                         maxTranslationalAccel: real, maxAngularAccel: real, changeLength: real)
    requires dt > 0.0
    requires IsHypot(changeLength, desired.vx - last.vx, desired.vy - last.vy)
    ensures var r := LimitAcceleration(desired, last, dt, maxTranslationalAccel, maxAngularAccel, changeLength);
      && (changeLength <= maxTranslationalAccel * dt ==> r.vx == desired.vx && r.vy == desired.vy)
      && (maxTranslationalAccel >= 0.0 && r.vx == desired.vx && r.vy == desired.vy
          ==> changeLength <= maxTranslationalAccel * dt)
  {
    LimitUnfold(desired, last, dt, maxTranslationalAccel, maxAngularAccel, changeLength);
    TranslationalStepWhole(desired.vx - last.vx, desired.vy - last.vy, changeLength, dt, maxTranslationalAccel);
  }

  /**
   * The translational step never exceeds the acceleration bound:
   * |r - last| <= maxTranslationalAccel * dt, stated on squares.
   */
  lemma TranslationalStepBounded(desired: ChassisSpeeds, last: ChassisSpeeds, dt: real,
                                 maxTranslationalAccel: real, maxAngularAccel: real, changeLength: real)
    requires dt > 0.0 && maxTranslationalAccel >= 0.0
    requires IsHypot(changeLength, desired.vx - last.vx, desired.vy - last.vy)
    ensures var r := LimitAcceleration(desired, last, dt, maxTranslationalAccel, maxAngularAccel, changeLength);
      Sq(r.vx - last.vx) + Sq(r.vy - last.vy) <= Sq(maxTranslationalAccel * dt)
  {
    LimitTranslation(desired, last, dt, maxTranslationalAccel, maxAngularAccel, changeLength);
    ProductSigns(maxTranslationalAccel, dt);
    MonotoneSquare(Clamp(changeLength, 0.0, maxTranslationalAccel * dt), maxTranslationalAccel * dt);
  }

  /**
   * For a non-negative limit the limiter's angular step lies in [-maxAngularAccel * dt, maxAngularAccel * dt],
   * is the whole requested change exactly when that fits, and is the bound with the change's sign otherwise.
   */
  lemma AngularStepClamped(desired: ChassisSpeeds, last: ChassisSpeeds, dt: real,
                           maxTranslationalAccel: real, maxAngularAccel: real, changeLength: real)
    requires dt > 0.0 && maxAngularAccel >= 0.0
    requires IsHypot(changeLength, desired.vx - last.vx, desired.vy - last.vy)
    ensures var r := LimitAcceleration(desired, last, dt, maxTranslationalAccel, maxAngularAccel, changeLength);
      var dOmega := desired.omega - last.omega;
      var bound := maxAngularAccel * dt;
      && -bound <= r.omega - last.omega <= bound
      && (-bound <= dOmega <= bound <==> r.omega == desired.omega)
      && (dOmega > bound ==> r.omega == last.omega + bound)
      && (dOmega < -bound ==> r.omega == last.omega - bound)
  {
    LimitUnfold(desired, last, dt, maxTranslationalAccel, maxAngularAccel, changeLength);
    AngularStepIsClampedChange(desired.omega - last.omega, dt, maxAngularAccel);
    ProductSigns(maxAngularAccel, dt);
    assert -maxAngularAccel * dt == -(maxAngularAccel * dt);
  }

  /**
   * Over dt seconds the speeds moved from `last` to `next` by at most maxTranslationalAccel * dt
   * in the plane (stated on squares) and by at most maxAngularAccel * dt in rotation.
   */
  ghost predicate WithinAccelerationLimits(last: ChassisSpeeds, next: ChassisSpeeds, dt: real,
                                           maxTranslationalAccel: real, maxAngularAccel: real)
  {
    && Sq(next.vx - last.vx) + Sq(next.vy - last.vy) <= Sq(maxTranslationalAccel * dt)
    && -(maxAngularAccel * dt) <= next.omega - last.omega <= maxAngularAccel * dt
  }

  /** For non-negative limits, every output of the limiter is within the limits of the last speeds. */
  lemma LimitWithinLimits(desired: ChassisSpeeds, last: ChassisSpeeds, dt: real,
                          maxTranslationalAccel: real, maxAngularAccel: real, changeLength: real)
    requires dt > 0.0 && maxTranslationalAccel >= 0.0 && maxAngularAccel >= 0.0
    requires IsHypot(changeLength, desired.vx - last.vx, desired.vy - last.vy)
    ensures WithinAccelerationLimits(last, LimitAcceleration(desired, last, dt, maxTranslationalAccel, maxAngularAccel, changeLength),
                                     dt, maxTranslationalAccel, maxAngularAccel)
  {
    TranslationalStepBounded(desired, last, dt, maxTranslationalAccel, maxAngularAccel, changeLength);
    AngularStepClamped(desired, last, dt, maxTranslationalAccel, maxAngularAccel, changeLength);
  }

  /**
   * The two limits are independent: the angular output depends only on the angular
   * inputs, and the translational output only on the translational ones.
   */
  lemma LimitsDecoupled(desired1: ChassisSpeeds, last1: ChassisSpeeds, desired2: ChassisSpeeds, last2: ChassisSpeeds,
                        dt: real, maxTranslationalAccel: real, maxAngularAccel: real,
                        changeLength1: real, changeLength2: real)
    requires dt > 0.0
    requires IsHypot(changeLength1, desired1.vx - last1.vx, desired1.vy - last1.vy)
    requires IsHypot(changeLength2, desired2.vx - last2.vx, desired2.vy - last2.vy)
    ensures var r1 := LimitAcceleration(desired1, last1, dt, maxTranslationalAccel, maxAngularAccel, changeLength1);
      var r2 := LimitAcceleration(desired2, last2, dt, maxTranslationalAccel, maxAngularAccel, changeLength2);
      && (desired1.omega == desired2.omega && last1.omega == last2.omega ==> r1.omega == r2.omega)
      && (desired1.vx == desired2.vx && desired1.vy == desired2.vy && last1.vx == last2.vx && last1.vy == last2.vy
          ==> r1.vx == r2.vx && r1.vy == r2.vy)
  {
    LimitUnfold(desired1, last1, dt, maxTranslationalAccel, maxAngularAccel, changeLength1);
    LimitUnfold(desired2, last2, dt, maxTranslationalAccel, maxAngularAccel, changeLength2);
    if desired1.vx == desired2.vx && desired1.vy == desired2.vy && last1.vx == last2.vx && last1.vy == last2.vy {
      HypotUnique(changeLength1, changeLength2, desired1.vx - last1.vx, desired1.vy - last1.vy);
    }
  }

  /**
   * Already at the desired speeds (so hypot is 0): the limiter returns the last speeds
   * unchanged, for any dt > 0 and any non-negative angular limit.
   */
  lemma LimitAtDesiredIsIdentity(speeds: ChassisSpeeds, dt: real,
                                 maxTranslationalAccel: real, maxAngularAccel: real, changeLength: real)
    requires dt > 0.0 && maxAngularAccel >= 0.0
    requires changeLength == 0.0
    ensures LimitAcceleration(speeds, speeds, dt, maxTranslationalAccel, maxAngularAccel, changeLength) == speeds
  {
    LimitTranslation(speeds, speeds, dt, maxTranslationalAccel, maxAngularAccel, changeLength);
    LimitUnfold(speeds, speeds, dt, maxTranslationalAccel, maxAngularAccel, changeLength);
    AngularStepIsClampedChange(speeds.omega - speeds.omega, dt, maxAngularAccel);
  }

  /**
   * Worked case: from rest, desired (3, 0, 0), dt = 0.02 s and 20 m/s^2: the requested
   * 150 m/s^2 is clamped to 20, giving (0.4, 0, 0).
   */
  lemma LimitFromRestExample(maxAngularAccel: real)
    requires maxAngularAccel >= 0.0
    ensures LimitAcceleration(ChassisSpeeds(3.0, 0.0, 0.0), ZeroSpeeds, 0.02, 20.0, maxAngularAccel, 3.0)
         == ChassisSpeeds(0.4, 0.0, 0.0)
  {
    assert 3.0 / 0.02 == 150.0;
    assert Clamp(150.0, 0.0, 20.0) == 20.0;
    assert Direction(3.0, 0.0, 3.0) == (1.0, 0.0);
    assert 0.0 / 0.02 == 0.0;
  }
}
