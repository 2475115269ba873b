/**
 * The odometry forwarding step of SwerveDrive.periodic: after the gyro and the
 * four modules have reported, every high-rate sample in the modules' odometry
 * arrays becomes one OdometryObservation for the pose estimator, in sample
 * order, paired with the gyro's yaw sample of the same index when the gyro is
 * connected.
 */
module Odometry {
  import opened Types

  /** The drivetrain has four modules. */
  const ModuleCount: nat := 4

  /** How many odometry samples this cycle forwards: the first module's timestamp count. */
  function SampleCount(modules: seq<ModuleIOInputs>): nat
    requires |modules| == ModuleCount
  {
    |modules[0].odometryTimestampsSeconds|
  }

  /**
   * The loop indexes, for every sample i below the first module's timestamp count,
   * each module's drive and steer arrays and (when connected) the gyro's yaw array:
   * all of them must be at least that long, or Java throws.
   */
  predicate OdometryAligned(gyro: GyroIOInputs, modules: seq<ModuleIOInputs>)
  {
    && |modules| == ModuleCount
    && (forall j :: 0 <= j < ModuleCount ==>
          && |modules[j].odometryDrivePositionsMeters| >= SampleCount(modules)
          && |modules[j].odometrySteerPositions| >= SampleCount(modules))
    && (gyro.isConnected ==> |gyro.odometryYawPositions| >= SampleCount(modules))
  }

  /** The measured state of one module: its current drive velocity and steer angle. */
  function MeasuredState(inputs: ModuleIOInputs): SwerveModuleState
  {
    SwerveModuleState(inputs.driveVelocityMetersPerSec, inputs.steerPosition)
  }

  /** The measured states of all four modules, module i at index i. */
  function MeasuredStates(modules: seq<ModuleIOInputs>): (states: seq<SwerveModuleState>)
    requires |modules| == ModuleCount
    ensures |states| == ModuleCount
  {
    seq(ModuleCount, j requires 0 <= j < ModuleCount => MeasuredState(modules[j]))
  }

  /** The position of every module at sample i: its drive distance and steer angle of that sample. */
  function PositionsAt(modules: seq<ModuleIOInputs>, i: nat): seq<SwerveModulePosition>
    requires |modules| == ModuleCount
    requires forall j :: 0 <= j < ModuleCount ==>
      i < |modules[j].odometryDrivePositionsMeters| && i < |modules[j].odometrySteerPositions|
  {
    seq(ModuleCount, j requires 0 <= j < ModuleCount =>
      SwerveModulePosition(modules[j].odometryDrivePositionsMeters[i], modules[j].odometrySteerPositions[i]))
  }

  /** The observation built for sample i: a disconnected gyro contributes a zero angle and a zero rate. */
  function ObservationAt(gyro: GyroIOInputs, modules: seq<ModuleIOInputs>, states: seq<SwerveModuleState>, i: nat)
    : OdometryObservation
    requires OdometryAligned(gyro, modules) && i < SampleCount(modules)
  {
    OdometryObservation(
      modules[0].odometryTimestampsSeconds[i],
      gyro.isConnected,
      PositionsAt(modules, i),
      states,
      if gyro.isConnected then gyro.odometryYawPositions[i] else ZeroRotation,
      if gyro.isConnected then gyro.yawVelocityRadPerSec else 0.0)
  }

  /** The observations of the first n samples, in the order the loop sends them. */
  function Observations(gyro: GyroIOInputs, modules: seq<ModuleIOInputs>, states: seq<SwerveModuleState>, n: nat)
    : (batch: seq<OdometryObservation>)
    requires OdometryAligned(gyro, modules) && n <= SampleCount(modules)
    ensures |batch| == n
  {
    if n == 0 then [] else Observations(gyro, modules, states, n - 1) + [ObservationAt(gyro, modules, states, n - 1)]
  }

  /** Observation i of the batch is the one built from sample i. */
  lemma {:induction false} ObservationsIndexed(gyro: GyroIOInputs, modules: seq<ModuleIOInputs>,
                                               states: seq<SwerveModuleState>, n: nat)
    requires OdometryAligned(gyro, modules) && n <= SampleCount(modules)
    ensures forall i :: 0 <= i < n ==> Observations(gyro, modules, states, n)[i] == ObservationAt(gyro, modules, states, i)
  {
    if n > 0 {
      ObservationsIndexed(gyro, modules, states, n - 1);
    }
  }

  /**
   * What the pose estimator receives for sample i: the first module's timestamp,
   * the gyro's connection flag, module j's drive distance and steer angle of that
   * sample, the measured states, and the gyro's yaw sample and rate only when connected.
   */
  lemma ObservationContents(gyro: GyroIOInputs, modules: seq<ModuleIOInputs>, states: seq<SwerveModuleState>, i: nat)
    requires OdometryAligned(gyro, modules) && i < SampleCount(modules)
    ensures var o := Observations(gyro, modules, states, SampleCount(modules))[i];
      && o.timestamp == modules[0].odometryTimestampsSeconds[i]
      && o.isGyroConnected == gyro.isConnected
      && |o.modulePositions| == ModuleCount
      && (forall j :: 0 <= j < ModuleCount ==>
            o.modulePositions[j].distanceMeters == modules[j].odometryDrivePositionsMeters[i]
            && o.modulePositions[j].angle == modules[j].odometrySteerPositions[i])
      && o.moduleStates == states
      && (gyro.isConnected ==> o.gyroAngle == gyro.odometryYawPositions[i] && o.yawVelocityRadPerSec == gyro.yawVelocityRadPerSec)
      && (!gyro.isConnected ==> o.gyroAngle == ZeroRotation && o.yawVelocityRadPerSec == 0.0)
  {
    ObservationsIndexed(gyro, modules, states, SampleCount(modules));
  }

  /** The timestamps of the batch are the first module's timestamps, in the same order. */
  lemma ObservationTimestamps(gyro: GyroIOInputs, modules: seq<ModuleIOInputs>, states: seq<SwerveModuleState>)
    requires OdometryAligned(gyro, modules)
    ensures var batch := Observations(gyro, modules, states, SampleCount(modules));
      |batch| == SampleCount(modules)
      && forall i :: 0 <= i < |batch| ==> batch[i].timestamp == modules[0].odometryTimestampsSeconds[i]
  {
    ObservationsIndexed(gyro, modules, states, SampleCount(modules));
  }

  /** The measured state of module j pairs module j's drive velocity with module j's steer angle. */
  lemma MeasuredStatesPairing(modules: seq<ModuleIOInputs>)
    requires |modules| == ModuleCount
    ensures |MeasuredStates(modules)| == ModuleCount
    ensures forall j :: 0 <= j < ModuleCount ==>
      MeasuredStates(modules)[j].speedMetersPerSecond == modules[j].driveVelocityMetersPerSec
      && MeasuredStates(modules)[j].angle == modules[j].steerPosition
  {
  }

  /** Fills a fresh four-entry array with the measured state of each module (the loop before the odometry loop). */
  method MeasureModuleStates(modules: seq<ModuleIOInputs>) returns (states: array<SwerveModuleState>)
    requires |modules| == ModuleCount
    ensures fresh(states)
    ensures states[..] == MeasuredStates(modules)
  {
    states := new SwerveModuleState[ModuleCount];
    for j := 0 to ModuleCount
      invariant forall k :: 0 <= k < j ==> states[k] == MeasuredState(modules[k])
    {
      states[j] := MeasuredState(modules[j]);
    }
  }

  /**
   * The odometry loop: one reused positions array, refilled for every sample and
   * handed to the pose estimator together with the measured states. Returns the
   * observations in the order they are added.
   */
  method ForwardOdometry(gyro: GyroIOInputs, modules: seq<ModuleIOInputs>, states: array<SwerveModuleState>)
    returns (batch: seq<OdometryObservation>)
    requires OdometryAligned(gyro, modules)
    ensures batch == Observations(gyro, modules, states[..], SampleCount(modules))
  {
    var modulePositions := new SwerveModulePosition[ModuleCount];
    var timestamps := modules[0].odometryTimestampsSeconds;
    batch := [];
    for i := 0 to |timestamps|
      invariant batch == Observations(gyro, modules, states[..], i)
    {
      for j := 0 to ModuleCount
        invariant forall k :: 0 <= k < j ==>
          modulePositions[k] == SwerveModulePosition(modules[k].odometryDrivePositionsMeters[i], modules[k].odometrySteerPositions[i])
      {
        modulePositions[j] := SwerveModulePosition(modules[j].odometryDrivePositionsMeters[i], modules[j].odometrySteerPositions[i]);
      }
      assert modulePositions[..] == PositionsAt(modules, i);
      var observation := OdometryObservation(
        timestamps[i],
        gyro.isConnected,
        modulePositions[..],
        states[..],
        if gyro.isConnected then gyro.odometryYawPositions[i] else ZeroRotation,
        if gyro.isConnected then gyro.yawVelocityRadPerSec else 0.0);
      batch := batch + [observation];
    }
  }
}
