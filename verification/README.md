# Swerve drive core: acceleration limiter, periodic cycle, odometry forwarding, Pigeon2 gyro drain

This project models the control core of a four-module swerve drivetrain:

- **The acceleration limiter** (`AccelerationLimiter.LimitAcceleration`, from `limitAcceleration`). It takes the speeds the driver asks for and the speeds commanded last cycle.
  - **Translation.** The limiter steps along the direction of the translational change. The step's length is the change's length clamped to `[0, maxTranslationalAccel·dt]`.
  - **Rotation.** The angular change is clamped on its own to `±maxAngularAccel·dt`.
- **The subsystem** (`Drive.SwerveDrive`). It holds three pieces of state that the source updates in place:
  - the desired robot-relative speeds;
  - the obtainable (limited) field-relative speeds;
  - the previous loop time.

  Its `Periodic` method is one control cycle. It:
  1. measures `dt`;
  2. builds the modules' measured states;
  3. forwards one odometry observation per high-rate sample to the pose estimator;
  4. limits acceleration;
  5. converts to module setpoints, desaturates them, and optimizes each against its module's measured angle.

  `DriveRobotRelative` and `DriveFieldRelative` only record the desired speeds.
- **The odometry forwarding loop** (`Odometry.ForwardOdometry`). It is specified by the recursive `Odometry.Observations`: observation `i` carries:
  - the first module's timestamp `i`;
  - every module's drive distance and steer angle of sample `i`;
  - the measured states;
  - the gyro's yaw sample `i` and rate when the gyro is connected, and a zero angle and zero rate otherwise.
- **The Pigeon2 gyro layer** (`GyroPigeon2.GyroIOPigeon2`). Its two sample queues are `seq<real>` fields. `UpdateInputs` does the following:
  - it reports the gyro as connected;
  - it wraps the latency-compensated yaw with `angleModulus`;
  - it copies the timestamp queue;
  - it converts every queued yaw sample from degrees to a rotation;
  - it then empties both queues.

Speeds, angles and times are real numbers. A `Rotation2d` is represented by its angle in radians, and the model compares rotations by that radian value (WPILib's `Rotation2d.equals` compares angles modulo a full turn, so there 360 degrees equals the zero rotation). WPILib's kinematics and frame conversions are functions supplied to the `SwerveDrive` constructor:

- `fromRobotRelativeSpeeds` and `fromFieldRelativeSpeeds`;
- `toSwerveModuleStates`;
- `desaturateWheelSpeeds`;
- `SwerveModuleState.optimize`;
- `Math.hypot`.

`Valid()` states what the drive relies on about these functions:

- the configured translational and angular acceleration limits are non-negative;
- `hypot` returns the Euclidean length;
- the kinematics produce four states, and desaturation keeps four.

`Math.hypot` cannot be computed over the reals. `LimitAcceleration` therefore receives its value `changeLength` together with the requirement `IsHypot(changeLength, dx, dy)`, meaning `changeLength >= 0` and `changeLength² = dx² + dy²`. `Math.atan2` followed by `cos`/`sin` is the unit vector `(dx, dy)/changeLength`. When the change is zero it is `(1, 0)`, because `atan2(0, 0) = 0`.

Squares are written `Sq(x)` (module `Algebra`). This keeps the nonlinear facts in small lemmas of their own.

## Model

| member | source | states |
|---|---|---|
| Types.FromDegrees | src/main/java/frc/robot/subsystems/swerve/gyro/GyroIOPigeon2.java:64 | `Rotation2d.fromDegrees` is degrees·pi/180: 180 degrees is pi radians, and the stored angle is 0 only for 0 degrees |
| MathUtil.Clamp | src/main/java/frc/robot/subsystems/swerve/SwerveDrive.java:301-305 | `MathUtil.clamp` = max(low, min(value, high)): for low <= high the result is in [low, high], equals value inside the range, and is the violated bound outside it |
| MathUtil.InputModulus | src/main/java/frc/robot/subsystems/swerve/gyro/GyroIOPigeon2.java:60 | `MathUtil.inputModulus` as written: subtract the truncated number of spans above the minimum, then add back the truncated number below the maximum; its range and congruence are stated by `InputModulusRange` and `InputModulusCongruent` |
| MathUtil.AngleModulus | src/main/java/frc/robot/subsystems/swerve/gyro/GyroIOPigeon2.java:60 | `MathUtil.angleModulus` = inputModulus over [-pi, pi]; its range (-pi, pi] and whole-turn congruence are stated by `AngleModulusRange` |
| MathUtil.InputModulusRange | src/main/java/frc/robot/subsystems/swerve/gyro/GyroIOPigeon2.java:60 | the two truncating steps of `inputModulus` land in (minimumInput, maximumInput] |
| MathUtil.InputModulusCongruent | src/main/java/frc/robot/subsystems/swerve/gyro/GyroIOPigeon2.java:60 | `inputModulus` changes its input by a whole number of spans only |
| MathUtil.AngleModulusRange | src/main/java/frc/robot/subsystems/swerve/gyro/GyroIOPigeon2.java:60 | `angleModulus` lands in (-pi, pi] and differs from its input by whole turns |
| MathUtil.AngleModulusFixesPrincipal | src/main/java/frc/robot/subsystems/swerve/gyro/GyroIOPigeon2.java:60 | an angle already in (-pi, pi] is returned unchanged |
| MathUtil.AngleModulusOfMinusPi | src/main/java/frc/robot/subsystems/swerve/gyro/GyroIOPigeon2.java:60 | -pi is sent to +pi, so the wrap's range is (-pi, pi] |
| AccelerationLimiter.HypotUnique | src/main/java/frc/robot/subsystems/swerve/SwerveDrive.java:295-298 | the hypot of a change is unique: two non-negative lengths of the same vector are equal |
| AccelerationLimiter.HypotZero | src/main/java/frc/robot/subsystems/swerve/SwerveDrive.java:295-298 | the change's length is 0 exactly when both components are 0 |
| AccelerationLimiter.Direction | src/main/java/frc/robot/subsystems/swerve/SwerveDrive.java:308-311 | (cos theta, sin theta) for theta = atan2(dy, dx): (dx, dy)/hypot for a non-zero change, (1, 0) for the zero change; `DirectionIsUnit` states it is a unit vector along the change |
| AccelerationLimiter.TranslationalStep | src/main/java/frc/robot/subsystems/swerve/SwerveDrive.java:295-311 | the translational velocity change: direction times clamp(hypot/dt, 0, maxTranslationalAccel) times dt; `TranslationalStepIsClampedLength`, `TranslationalStepLength`, `TranslationalStepAlongChange` and `TranslationalStepWhole` characterize it |
| AccelerationLimiter.AngularStep | src/main/java/frc/robot/subsystems/swerve/SwerveDrive.java:313-326 | the angular velocity change: clamp(dOmega/dt, -maxAngularAccel, maxAngularAccel) times dt; `AngularStepIsClampedChange` states it is the change clamped to ±maxAngularAccel·dt |
| AccelerationLimiter.LimitAcceleration | src/main/java/frc/robot/subsystems/swerve/SwerveDrive.java:294-328 | `limitAcceleration`: last plus the translational and the angular step; `LimitTranslation`, `TranslationReachedIffWithinBound`, `TranslationalStepBounded`, `AngularStepClamped`, `LimitWithinLimits`, `LimitsDecoupled` and `LimitAtDesiredIsIdentity` characterize its output without its body |
| AccelerationLimiter.UnitDirection | src/main/java/frc/robot/subsystems/swerve/SwerveDrive.java:308-311 | for a non-zero change, (dx/h, dy/h) has length 1 and scales back to (dx, dy) |
| AccelerationLimiter.DirectionIsUnit | src/main/java/frc/robot/subsystems/swerve/SwerveDrive.java:308-311 | (cos theta, sin theta) of `atan2(dy, dx)` is a unit vector, and h times it is the change whenever the change is non-zero |
| AccelerationLimiter.ClampScaled | src/main/java/frc/robot/subsystems/swerve/SwerveDrive.java:313-320 | clamping a rate then multiplying by dt > 0 clamps the change to the bounds times dt |
| AccelerationLimiter.AngularStepIsClampedChange | src/main/java/frc/robot/subsystems/swerve/SwerveDrive.java:313-320 | the angular step is the angular change clamped to [-maxAngularAccel·dt, maxAngularAccel·dt] |
| AccelerationLimiter.TranslationalStepIsClampedLength | src/main/java/frc/robot/subsystems/swerve/SwerveDrive.java:295-311 | the translational step is the direction scaled by the change's length clamped to [0, maxTranslationalAccel·dt] |
| AccelerationLimiter.TranslationalStepLength | src/main/java/frc/robot/subsystems/swerve/SwerveDrive.java:295-311 | the translational step's length is the clamped change length |
| AccelerationLimiter.TranslationalStepAlongChange | src/main/java/frc/robot/subsystems/swerve/SwerveDrive.java:295-311 | the translational step is k·(dx, dy) for some k in [0, 1]: the original direction is kept |
| AccelerationLimiter.TranslationalStepWhole | src/main/java/frc/robot/subsystems/swerve/SwerveDrive.java:295-311 | the step is the whole change when the change fits in maxTranslationalAccel·dt, and, for a non-negative limit, only then |
| AccelerationLimiter.LimitTranslationAlongChange | src/main/java/frc/robot/subsystems/swerve/SwerveDrive.java:294-328 | the output minus last is k·(desired − last) with k in [0, 1]: the direction of the change is kept and never overshot |
| AccelerationLimiter.LimitTranslationLength | src/main/java/frc/robot/subsystems/swerve/SwerveDrive.java:294-328 | the length of output minus last is the change's length clamped to [0, maxTranslationalAccel·dt] |
| AccelerationLimiter.LimitTranslation | src/main/java/frc/robot/subsystems/swerve/SwerveDrive.java:294-328 | the output minus last is k·(desired − last) with k in [0, 1], and its length is the change length clamped to [0, maxTranslationalAccel·dt] |
| AccelerationLimiter.TranslationReachedIffWithinBound | src/main/java/frc/robot/subsystems/swerve/SwerveDrive.java:294-328 | the output's vx, vy equal desired's when the change fits in one cycle, and (for a non-negative limit) only then |
| AccelerationLimiter.TranslationalStepBounded | src/main/java/frc/robot/subsystems/swerve/SwerveDrive.java:295-305 | the translational step's length never exceeds maxTranslationalAccel·dt (stated on squares) |
| AccelerationLimiter.AngularStepClamped | src/main/java/frc/robot/subsystems/swerve/SwerveDrive.java:313-326 | the angular step lies in ±maxAngularAccel·dt; the output's omega equals desired's exactly when the change fits; otherwise the step is the bound with the change's sign |
| AccelerationLimiter.LimitWithinLimits | src/main/java/frc/robot/subsystems/swerve/SwerveDrive.java:294-328 | every output of the limiter is within both acceleration limits of the last speeds |
| AccelerationLimiter.LimitsDecoupled | src/main/java/frc/robot/subsystems/swerve/SwerveDrive.java:294-328 | the angular output depends only on the angular inputs, and the translational output only on the translational ones |
| AccelerationLimiter.LimitAtDesiredIsIdentity | src/main/java/frc/robot/subsystems/swerve/SwerveDrive.java:294-328 | desired == last gives last back exactly, for any dt > 0 |
| AccelerationLimiter.LimitFromRestExample | src/main/java/frc/robot/subsystems/swerve/SwerveDrive.java:294-328 | from rest, desired (3, 0, 0), dt 0.02 and limit 20 give (0.4, 0, 0) |
| Odometry.MeasuredStates | src/main/java/frc/robot/subsystems/swerve/SwerveDrive.java:234-239 | the four measured module states, module j at index j; `MeasuredStatesPairing` states the pairing of drive velocity and steer angle |
| Odometry.ObservationAt | src/main/java/frc/robot/subsystems/swerve/SwerveDrive.java:243-258 | the observation built for sample i; `ObservationContents` states every field of it |
| Odometry.Observations | src/main/java/frc/robot/subsystems/swerve/SwerveDrive.java:241-260 | the loop sends one observation per timestamp of the first module |
| Odometry.ObservationsIndexed | src/main/java/frc/robot/subsystems/swerve/SwerveDrive.java:241-260 | observation i of the batch is the one built from sample i, in order |
| Odometry.ObservationContents | src/main/java/frc/robot/subsystems/swerve/SwerveDrive.java:243-258 | observation i carries timestamp i, the gyro's flag, module j's drive position and steer angle of sample i, the measured states, and the gyro's yaw i and rate only when connected (zero angle and zero rate otherwise) |
| Odometry.ObservationTimestamps | src/main/java/frc/robot/subsystems/swerve/SwerveDrive.java:241-252 | the batch's timestamps are the first module's timestamps, in order |
| Odometry.MeasuredStatesPairing | src/main/java/frc/robot/subsystems/swerve/SwerveDrive.java:234-239 | the measured state j pairs module j's drive velocity with module j's steer angle |
| Odometry.MeasureModuleStates | src/main/java/frc/robot/subsystems/swerve/SwerveDrive.java:232-239 | fills a fresh four-entry array with the measured states |
| Odometry.ForwardOdometry | src/main/java/frc/robot/subsystems/swerve/SwerveDrive.java:241-260 | the nested loop, which reuses one positions array, sends exactly `Observations` of all samples |
| GyroPigeon2.YawRotations | src/main/java/frc/robot/subsystems/swerve/gyro/GyroIOPigeon2.java:64 | the converted yaw array has the queue's length and entry i is `fromDegrees` of queued sample i |
| GyroPigeon2.YawRotationsAppend | src/main/java/frc/robot/subsystems/swerve/gyro/GyroIOPigeon2.java:64 | converting two batches one after the other is converting them together |
| GyroPigeon2.GyroIOPigeon2.constructor | src/main/java/frc/robot/subsystems/swerve/gyro/GyroIOPigeon2.java:48-49 | both sample queues start empty |
| GyroPigeon2.GyroIOPigeon2.OfferSample | src/main/java/frc/robot/subsystems/swerve/gyro/GyroIOPigeon2.java:48-49 | the odometry thread's enqueue: one timestamp and one yaw sample are appended, in order |
| GyroPigeon2.GyroIOPigeon2.UpdateInputs | src/main/java/frc/robot/subsystems/swerve/gyro/GyroIOPigeon2.java:55-68 | connected; yaw wrapped into (-pi, pi]; the rate passed through; the timestamps equal the old queue; yaw i is `fromDegrees` of old sample i; both queues are empty afterwards |
| GyroPigeon2.UpdateTwice | src/main/java/frc/robot/subsystems/swerve/gyro/GyroIOPigeon2.java:63-67 | a second update with nothing enqueued in between reports empty sample arrays |
| GyroPigeon2.OfferThenUpdate | src/main/java/frc/robot/subsystems/swerve/gyro/GyroIOPigeon2.java:63-67 | samples offered between two updates are reported exactly once and in order |
| Drive.SwerveDrive.constructor | src/main/java/frc/robot/subsystems/swerve/SwerveDrive.java:73-76 | the desired and obtainable speeds start at zero, and prevLoopTime at the current clock reading |
| Drive.SwerveDrive.Limit | src/main/java/frc/robot/subsystems/swerve/SwerveDrive.java:270 | `limitAcceleration` with the drive's configured limits and `Math.hypot` of the change; `LimitBounds` and `LimitAtDesiredHolds` state its properties |
| Drive.SwerveDrive.ModuleCommands | src/main/java/frc/robot/subsystems/swerve/SwerveDrive.java:276-287 | one setpoint is sent per module |
| Drive.SwerveDrive.Periodic | src/main/java/frc/robot/subsystems/swerve/SwerveDrive.java:207-292 | dt = now − old prevLoopTime; prevLoopTime advances to the second clock reading; desired is unchanged; the odometry log grows by exactly the batch; obtainable becomes the limiter's output on the heading-rotated desired speeds; the modules receive the optimized, desaturated setpoints; the new obtainable speeds are within both acceleration limits of the old ones |
| Drive.SwerveDrive.OptimizeSetpoints | src/main/java/frc/robot/subsystems/swerve/SwerveDrive.java:284-287 | each module's setpoint is optimized in place against that module's measured angle |
| Drive.SwerveDrive.LimitBounds | src/main/java/frc/robot/subsystems/swerve/SwerveDrive.java:270 | the drive's limited step stays within its configured acceleration limits |
| Drive.SwerveDrive.LimitAtDesiredHolds | src/main/java/frc/robot/subsystems/swerve/SwerveDrive.java:270 | once obtainable equals desired, the limiter keeps it unchanged |
| Drive.SwerveDrive.DriveRobotRelative | src/main/java/frc/robot/subsystems/swerve/SwerveDrive.java:347-349 | only the desired robot-relative speeds change, to the given speeds |
| Drive.SwerveDrive.DriveFieldRelative | src/main/java/frc/robot/subsystems/swerve/SwerveDrive.java:351-354 | only the desired speeds change, to the given speeds rotated from the field frame by the heading |

## Left out

- **The odometry lock and thread-safety.** The lock, `synchronized` and the odometry thread's concurrency (SwerveDrive.java:216-228) are left out. Periodic receives the gyro and module inputs as parameters, as they stand after the locked refresh. PhoenixOdometryThread is not part of this model: `OfferSample` stands in for its enqueue.
- **Hardware and configuration.** Hardware construction, signal refresh, device configuration and the SysId routines are left out. They are I/O.
- **Logging.** All `Logger` calls are left out. They are a write-only side channel and do not affect control.
- **`compensateRobotRelativeSpeeds` and `resetGyro`.** The former is never called by `periodic`. The latter forwards to the device.
- **WPILib kinematics, desaturation, optimization and frame rotations.** These are supplied functions, not modelled. The model only relies on the shapes stated in `Valid()`. `toModuleStates` is a pure function of the speeds, so the kinematics object's remembered module headings (which WPILib returns for all-zero speeds) are not captured.
- **Clock and heading.** The clock (`Timer.getTimestamp`) and the estimated heading are parameters. The two clock reads become `now <= later`.
- **Floating point.** Rounding in `hypot`, `atan2`, `cos` and `sin` is not modelled: everything is real arithmetic. The `(int)` cast in `inputModulus` is modelled as truncation toward zero, without saturation at the int range.
- **The reused positions array.** Java hands the same positions array to every observation and refills it for the next sample. The model hands each observation a snapshot of the array's contents, so the aliasing is not captured.
- **Updating inputs in place.** Java's `updateInputs` fills a caller-owned record in place. `GyroIOPigeon2.UpdateInputs` returns a fresh record with every field set, which is the same state after the call.
- AccelerationLimiter.LimitAcceleration: requires `dt > 0`. The code divides by `dt` with no guard (SwerveDrive.java:298 and :313). A clock anomaly with `dt <= 0` is meant to hold the previous speeds, but the code has no such branch; the model follows the code, and the `dt <= 0` case is not modelled.
- Drive.SwerveDrive.constructor: requires non-negative translational and angular acceleration limits. The source accepts any configured values; the drivetrain's configuration is assumed to give non-negative limits, which the acceleration bounds of `Periodic` rely on.
- Drive.SwerveDrive.Periodic: requires `now` to exceed `prevLoopTime`, which carries the `dt > 0` requirement up to the cycle.
- AccelerationLimiter.TranslationalStepBounded: stated only for `maxTranslationalAccel >= 0`; a negative configured limit is outside the clamp's meaningful range.
- AccelerationLimiter.AngularStepClamped: stated only for `maxAngularAccel >= 0`, for the same reason.
- AccelerationLimiter.LimitAtDesiredIsIdentity: stated only for `maxAngularAccel >= 0`; with a negative limit, `clamp(0, -M, M)` is `-M` and not `0`.
- Odometry.ForwardOdometry: requires `OdometryAligned`, meaning every module's drive and steer arrays, and the connected gyro's yaw array, are at least as long as the first module's timestamp array. Java throws otherwise, and the model does not include that exception path.
- MathUtil.AngleModulusRange: the range is (-pi, pi]. WPILib documents `angleModulus` as wrapping into a single turn; the range here is the one the two truncating steps produce over the reals, so `angleModulus(-pi)` is `pi`.
