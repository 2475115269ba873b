/**
 * The swerve drive subsystem (SwerveDrive): the speeds a caller asks for, the
 * acceleration-limited speeds actually commanded, and the once-per-cycle
 * periodic step that forwards odometry, limits acceleration and sends one
 * setpoint to each of the four modules.
 *
 * WPILib's kinematics (fromRobotRelativeSpeeds, fromFieldRelativeSpeeds,
 * toSwerveModuleStates, desaturateWheelSpeeds, SwerveModuleState.optimize) and
 * Math.hypot are supplied at construction as functions; Valid() states what
 * the drive relies on about them. The clock readings, the robot's estimated
 * heading and the hardware inputs are parameters of Periodic.
 */
module Drive {
  import opened Types
  import opened Algebra
  import opened AccelerationLimiter
  import opened Odometry

  class SwerveDrive {
    /** Drivetrain configuration: acceleration limits and the module speed limit. */
    const maxTranslationalAccel: real
    const maxAngularAccel: real
    const maxModuleVelocity: real

    /** Math.hypot. */
    const hypot: (real, real) -> real
    /** ChassisSpeeds.fromRobotRelativeSpeeds(speeds, heading). */
    const fromRobotRelative: (ChassisSpeeds, Rotation2d) -> ChassisSpeeds
    /** ChassisSpeeds.fromFieldRelativeSpeeds(speeds, heading). */
    const fromFieldRelative: (ChassisSpeeds, Rotation2d) -> ChassisSpeeds
    /** kinematics.toSwerveModuleStates(speeds). */
    const toModuleStates: ChassisSpeeds -> seq<SwerveModuleState>
    /** SwerveDriveKinematics.desaturateWheelSpeeds(states, maxModuleVelocity), as a value. */
    const desaturate: (seq<SwerveModuleState>, real) -> seq<SwerveModuleState>
    /** SwerveModuleState.optimize(currentAngle), as a value. */
    const optimize: (SwerveModuleState, Rotation2d) -> SwerveModuleState

    /** What the last driveRobotRelative / driveFieldRelative asked for (robot-relative). */
    var desiredRobotRelativeSpeeds: ChassisSpeeds
    /** The acceleration-limited field-relative speeds of the last cycle. */
    var obtainableFieldRelativeSpeeds: ChassisSpeeds
    /** The clock reading taken at the end of the last cycle's timing (seconds). */
    var prevLoopTime: real
    /** Every odometry observation handed to the pose estimator, oldest first. */
    var odometryLog: seq<OdometryObservation>
    /** The setpoints the last cycle sent to modules 0..3 (empty before the first cycle). */
    var moduleSetpoints: seq<SwerveModuleState>

    /**
     * The limits are non-negative, hypot is the Euclidean length, and the kinematics
     * produce, and desaturation keeps, one state per module.
     */
    ghost predicate Valid()
    {
      && maxTranslationalAccel >= 0.0
      && maxAngularAccel >= 0.0
      && (forall dx: real, dy: real :: IsHypot(hypot(dx, dy), dx, dy))
      && (forall speeds: ChassisSpeeds :: |toModuleStates(speeds)| == ModuleCount)
      && (forall states: seq<SwerveModuleState>, limit: real ::
            |states| == ModuleCount ==> |desaturate(states, limit)| == ModuleCount)
    }

    /** The drive at construction: asked for nothing, commanding nothing, timed from `now`. */
    constructor (now: real, maxTranslationalAccel: real, maxAngularAccel: real, maxModuleVelocity: real,
                 hypot: (real, real) -> real,
                 fromRobotRelative: (ChassisSpeeds, Rotation2d) -> ChassisSpeeds,
                 fromFieldRelative: (ChassisSpeeds, Rotation2d) -> ChassisSpeeds,
                 toModuleStates: ChassisSpeeds -> seq<SwerveModuleState>,
                 desaturate: (seq<SwerveModuleState>, real) -> seq<SwerveModuleState>,
                 optimize: (SwerveModuleState, Rotation2d) -> SwerveModuleState)
      requires maxTranslationalAccel >= 0.0 && maxAngularAccel >= 0.0
      requires forall dx: real, dy: real :: IsHypot(hypot(dx, dy), dx, dy)
      requires forall speeds: ChassisSpeeds :: |toModuleStates(speeds)| == ModuleCount
      requires forall states: seq<SwerveModuleState>, limit: real ::
        |states| == ModuleCount ==> |desaturate(states, limit)| == ModuleCount
      ensures Valid()
      ensures desiredRobotRelativeSpeeds == ZeroSpeeds && obtainableFieldRelativeSpeeds == ZeroSpeeds
      ensures prevLoopTime == now
      ensures odometryLog == [] && moduleSetpoints == []
    {
      this.maxTranslationalAccel := maxTranslationalAccel;
      this.maxAngularAccel := maxAngularAccel;
      this.maxModuleVelocity := maxModuleVelocity;
      this.hypot := hypot;
      this.fromRobotRelative := fromRobotRelative;
      this.fromFieldRelative := fromFieldRelative;
      this.toModuleStates := toModuleStates;
      this.desaturate := desaturate;
      this.optimize := optimize;
      desiredRobotRelativeSpeeds := ZeroSpeeds;
      obtainableFieldRelativeSpeeds := ZeroSpeeds;
      prevLoopTime := now;
      odometryLog := [];
      moduleSetpoints := [];
    }

    /** limitAcceleration with this drive's limits and hypot. */
    function Limit(desired: ChassisSpeeds, last: ChassisSpeeds, dt: real): ChassisSpeeds
      requires Valid() && dt > 0.0
    {
      LimitAcceleration(desired, last, dt, maxTranslationalAccel, maxAngularAccel,
                        hypot(desired.vx - last.vx, desired.vy - last.vy))
    }

    /**
     * The setpoints sent to the modules for robot-relative speeds: the kinematics'
     * states, desaturated, each optimized against its module's measured angle.
     */
    function ModuleCommands(robotRelative: ChassisSpeeds, measured: seq<SwerveModuleState>): (commands: seq<SwerveModuleState>)
      requires Valid() && |measured| == ModuleCount
      ensures |commands| == ModuleCount
    {
      var setpoints := desaturate(toModuleStates(robotRelative), maxModuleVelocity);
      seq(ModuleCount, j requires 0 <= j < ModuleCount => optimize(setpoints[j], measured[j].angle))
    }

    /**
     * One control cycle. `now` and `later` are the two clock readings of the cycle,
     * `heading` the estimated pose's rotation, and the inputs what the gyro and the
     * modules reported under the odometry lock.
     */
    method Periodic(now: real, later: real, heading: Rotation2d,
                    gyroInputs: GyroIOInputs, moduleInputs: seq<ModuleIOInputs>)
      requires Valid()
      requires prevLoopTime < now <= later
      requires OdometryAligned(gyroInputs, moduleInputs)
      modifies this
      ensures prevLoopTime == later
      ensures desiredRobotRelativeSpeeds == old(desiredRobotRelativeSpeeds)
      ensures odometryLog == old(odometryLog)
        + Observations(gyroInputs, moduleInputs, MeasuredStates(moduleInputs), SampleCount(moduleInputs))
      ensures obtainableFieldRelativeSpeeds
           == Limit(fromRobotRelative(old(desiredRobotRelativeSpeeds), heading),
                    old(obtainableFieldRelativeSpeeds), now - old(prevLoopTime))
      ensures moduleSetpoints
           == ModuleCommands(fromFieldRelative(obtainableFieldRelativeSpeeds, heading), MeasuredStates(moduleInputs))
      ensures WithinAccelerationLimits(old(obtainableFieldRelativeSpeeds), obtainableFieldRelativeSpeeds,
                                       now - old(prevLoopTime), maxTranslationalAccel, maxAngularAccel)
    {
      var dt := now - prevLoopTime;
      prevLoopTime := later;

      var moduleStates := MeasureModuleStates(moduleInputs);
      var batch := ForwardOdometry(gyroInputs, moduleInputs, moduleStates);
      odometryLog := odometryLog + batch;

      var last := obtainableFieldRelativeSpeeds;
      var desiredFieldRelativeSpeeds := fromRobotRelative(desiredRobotRelativeSpeeds, heading);
      obtainableFieldRelativeSpeeds := Limit(desiredFieldRelativeSpeeds, last, dt);
      LimitBounds(desiredFieldRelativeSpeeds, last, dt);

      var obtainableRobotRelativeSpeeds := fromFieldRelative(obtainableFieldRelativeSpeeds, heading);
      var desaturated := desaturate(toModuleStates(obtainableRobotRelativeSpeeds), maxModuleVelocity);
      var setpoints := new SwerveModuleState[ModuleCount](j requires 0 <= j < ModuleCount => desaturated[j]);
      OptimizeSetpoints(setpoints, moduleStates);
      moduleSetpoints := setpoints[..];
    }

    /** Optimizes every module's setpoint, in place, against that module's measured angle. */
    method OptimizeSetpoints(setpoints: array<SwerveModuleState>, moduleStates: array<SwerveModuleState>)
      requires setpoints.Length == ModuleCount && moduleStates.Length == ModuleCount
      requires setpoints != moduleStates
      modifies setpoints
      ensures forall k :: 0 <= k < ModuleCount ==> setpoints[k] == optimize(old(setpoints[k]), moduleStates[k].angle)
    {
      for i := 0 to ModuleCount
        invariant forall k :: 0 <= k < i ==> setpoints[k] == optimize(old(setpoints[k]), moduleStates[k].angle)
        invariant forall k :: i <= k < ModuleCount ==> setpoints[k] == old(setpoints[k])
      {
        setpoints[i] := optimize(setpoints[i], moduleStates[i].angle);
      }
    }

    /** Every limited step keeps within the drive's limits. */
    lemma LimitBounds(desired: ChassisSpeeds, last: ChassisSpeeds, dt: real)
      requires Valid() && dt > 0.0
      ensures WithinAccelerationLimits(last, Limit(desired, last, dt), dt, maxTranslationalAccel, maxAngularAccel)
    {
      var h := hypot(desired.vx - last.vx, desired.vy - last.vy);
      LimitWithinLimits(desired, last, dt, maxTranslationalAccel, maxAngularAccel, h);
    }

    /** Once the commanded speeds equal the desired ones, the limiter keeps them unchanged. */
    lemma LimitAtDesiredHolds(speeds: ChassisSpeeds, dt: real)
      requires Valid() && dt > 0.0
      ensures Limit(speeds, speeds, dt) == speeds
    {
      var h := hypot(speeds.vx - speeds.vx, speeds.vy - speeds.vy);
      HypotZero(h, speeds.vx - speeds.vx, speeds.vy - speeds.vy);
      LimitAtDesiredIsIdentity(speeds, dt, maxTranslationalAccel, maxAngularAccel, h);
    }

    /** driveRobotRelative: records the requested robot-relative speeds; nothing else changes. */
    method DriveRobotRelative(speeds: ChassisSpeeds)
      modifies this`desiredRobotRelativeSpeeds
      ensures desiredRobotRelativeSpeeds == speeds
    {
      desiredRobotRelativeSpeeds := speeds;
    }

    /** driveFieldRelative: converts field-relative speeds with the current heading, then drives robot-relative. */
    method DriveFieldRelative(speeds: ChassisSpeeds, heading: Rotation2d)
      modifies this`desiredRobotRelativeSpeeds
      ensures desiredRobotRelativeSpeeds == fromFieldRelative(speeds, heading)
    {
      DriveRobotRelative(fromFieldRelative(speeds, heading));
    }
  }
}
