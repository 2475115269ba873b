/**
 * Value types exchanged by the swerve drive: chassis speeds, rotations,
 * per-module states and positions, and the input records filled by the
 * gyro and module hardware layers once per control cycle.
 *
 * All quantities are reals; floating-point rounding is not modelled.
 */
module Types {

  /** Java's Math.PI. */
  const Pi: real := 3.141592653589793

  /** A body velocity: vx, vy in m/s and omega in rad/s (ChassisSpeeds). */
  datatype ChassisSpeeds = ChassisSpeeds(vx: real, vy: real, omega: real)

  /** `new ChassisSpeeds()`: all components zero. */
  const ZeroSpeeds: ChassisSpeeds := ChassisSpeeds(0.0, 0.0, 0.0)

  /** A planar rotation, kept as the radian value it was built from (Rotation2d). */
  datatype Rotation2d = Rotation2d(radians: real)

  /** `new Rotation2d()`: the zero rotation. */
  const ZeroRotation: Rotation2d := Rotation2d(0.0)

  /** `Rotation2d.fromDegrees(d)`: the rotation of d degrees, in radians. */
  function FromDegrees(degrees: real): (r: Rotation2d)
    ensures degrees == 180.0 ==> r.radians == Pi
    ensures degrees == 0.0 <==> r == ZeroRotation
  {
    Rotation2d(degrees * Pi / 180.0)
  }

  /** A wheel's speed (m/s) and steering angle (SwerveModuleState). */
  datatype SwerveModuleState = SwerveModuleState(speedMetersPerSecond: real, angle: Rotation2d)

  /** A wheel's travelled distance (m) and steering angle (SwerveModulePosition). */
  datatype SwerveModulePosition = SwerveModulePosition(distanceMeters: real, angle: Rotation2d)

  /** What a module's updateInputs reports; only the fields the drive loop reads. */
  datatype ModuleIOInputs = ModuleIOInputs(
    driveVelocityMetersPerSec: real,
    steerPosition: Rotation2d,
    odometryTimestampsSeconds: seq<real>,
    odometryDrivePositionsMeters: seq<real>,
    odometrySteerPositions: seq<Rotation2d>)

  /** What the gyro's updateInputs reports (GyroIOInputs). */
  datatype GyroIOInputs = GyroIOInputs(
    isConnected: bool,
    yawPosition: Rotation2d,
    yawVelocityRadPerSec: real,
    odometryTimestampsSeconds: seq<real>,
    odometryYawPositions: seq<Rotation2d>)

  /** One observation handed to the pose estimator (RobotState.OdometryObservation). */
  datatype OdometryObservation = OdometryObservation(
    timestamp: real,
    isGyroConnected: bool,
    modulePositions: seq<SwerveModulePosition>,
    moduleStates: seq<SwerveModuleState>,
    gyroAngle: Rotation2d,
    yawVelocityRadPerSec: real)
}
