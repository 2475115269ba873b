/**
 * The Pigeon2 gyro layer (GyroIOPigeon2). The odometry thread appends a
 * timestamp and a yaw sample (in degrees) to two queues at the odometry rate;
 * once per control cycle updateInputs copies both queues into the inputs record
 * (yaw samples turned into rotations) and empties them, and reports the
 * latency-compensated yaw wrapped into (-pi, pi] and the yaw rate.
 *
 * The two signal reads are parameters of UpdateInputs: the latency-compensated
 * yaw in radians and the yaw rate in radians per second.
 */
module GyroPigeon2 {
  import opened Types
  import opened MathUtil

  /** The rotations of a sequence of yaw samples in degrees, in the same order. */
  function YawRotations(degrees: seq<real>): (rotations: seq<Rotation2d>)
    ensures |rotations| == |degrees|
    ensures forall i :: 0 <= i < |degrees| ==> rotations[i] == FromDegrees(degrees[i])
  {
    if |degrees| == 0 then [] else [FromDegrees(degrees[0])] + YawRotations(degrees[1..])
  }

  /** Converting two batches one after the other is converting them together. */
  lemma {:induction false} YawRotationsAppend(first: seq<real>, second: seq<real>)
    ensures YawRotations(first + second) == YawRotations(first) + YawRotations(second)
  {
    var all := YawRotations(first + second);
    var parts := YawRotations(first) + YawRotations(second);
    assert |all| == |parts|;
    forall i | 0 <= i < |all|
      ensures all[i] == parts[i]
    {
      if i < |first| {
        assert (first + second)[i] == first[i];
      } else {
        assert (first + second)[i] == second[i - |first|];
      }
    }
  }

  class GyroIOPigeon2 {
    /** Timestamps (seconds) of the samples taken since the last updateInputs, oldest first. */
    var odometryTimestampQueue: seq<real>
    /** Yaw samples (degrees) taken since the last updateInputs, oldest first. */
    var yawPositionQueue: seq<real>

    /** The queues start empty when they are registered with the odometry thread. */
    constructor ()
      ensures odometryTimestampQueue == [] && yawPositionQueue == []
    {
      odometryTimestampQueue := [];
      yawPositionQueue := [];
    }

    /** The odometry thread's side of the queues: one sample is appended to each. */
    method OfferSample(timestamp: real, yawDegrees: real)
      modifies this
      ensures odometryTimestampQueue == old(odometryTimestampQueue) + [timestamp]
      ensures yawPositionQueue == old(yawPositionQueue) + [yawDegrees]
    {
      odometryTimestampQueue := odometryTimestampQueue + [timestamp];
      yawPositionQueue := yawPositionQueue + [yawDegrees];
    }

    /**
     * updateInputs: reports the gyro as connected, its yaw wrapped into (-pi, pi],
     * its rate, and every queued sample in order; then empties both queues.
     */
    method UpdateInputs(latencyCompensatedYawRadians: real, yawVelocityRadPerSec: real) returns (inputs: GyroIOInputs)
      modifies this
      ensures inputs.isConnected
      ensures inputs.yawPosition == Rotation2d(AngleModulus(latencyCompensatedYawRadians))
      ensures -Pi < inputs.yawPosition.radians <= Pi
      ensures inputs.yawVelocityRadPerSec == yawVelocityRadPerSec
      ensures inputs.odometryTimestampsSeconds == old(odometryTimestampQueue)
      ensures |inputs.odometryYawPositions| == |old(yawPositionQueue)|
      ensures forall i :: 0 <= i < |old(yawPositionQueue)| ==>
        inputs.odometryYawPositions[i] == FromDegrees(old(yawPositionQueue)[i])
      ensures odometryTimestampQueue == [] && yawPositionQueue == []
    {
      AngleModulusRange(latencyCompensatedYawRadians);
      var yawPosition := Rotation2d(AngleModulus(latencyCompensatedYawRadians));
      var timestamps := odometryTimestampQueue;
      var yawPositions := YawRotations(yawPositionQueue);
      inputs := GyroIOInputs(true, yawPosition, yawVelocityRadPerSec, timestamps, yawPositions);
      odometryTimestampQueue := [];
      yawPositionQueue := [];
    }
  }

  /**
   * Two updates with no sample in between: the first reports everything queued,
   * the second reports empty sample arrays.
   */
  method UpdateTwice(gyro: GyroIOPigeon2, yaw1: real, rate1: real, yaw2: real, rate2: real)
    returns (first: GyroIOInputs, second: GyroIOInputs)
    modifies gyro
    ensures first.odometryTimestampsSeconds == old(gyro.odometryTimestampQueue)
    ensures first.odometryYawPositions == YawRotations(old(gyro.yawPositionQueue))
    ensures second.odometryTimestampsSeconds == [] && second.odometryYawPositions == []
  {
    first := gyro.UpdateInputs(yaw1, rate1);
    second := gyro.UpdateInputs(yaw2, rate2);
  }

  /**
   * Samples offered between two updates are reported by the second update exactly
   * once and in order: nothing queued earlier reappears.
   */
  method OfferThenUpdate(gyro: GyroIOPigeon2, timestamps: seq<real>, yawDegrees: seq<real>, yaw: real, rate: real)
    returns (inputs: GyroIOInputs)
    requires gyro.odometryTimestampQueue == [] && gyro.yawPositionQueue == []
    requires |timestamps| == |yawDegrees|
    modifies gyro
    ensures inputs.odometryTimestampsSeconds == timestamps
    ensures inputs.odometryYawPositions == YawRotations(yawDegrees)
    ensures gyro.odometryTimestampQueue == [] && gyro.yawPositionQueue == []
  {
    for k := 0 to |timestamps|
      invariant gyro.odometryTimestampQueue == timestamps[..k]
      invariant gyro.yawPositionQueue == yawDegrees[..k]
    {
      gyro.OfferSample(timestamps[k], yawDegrees[k]);
      assert timestamps[..k + 1] == timestamps[..k] + [timestamps[k]];
      assert yawDegrees[..k + 1] == yawDegrees[..k] + [yawDegrees[k]];
    }
    assert timestamps[..|timestamps|] == timestamps;
    assert yawDegrees[..|yawDegrees|] == yawDegrees;
    inputs := gyro.UpdateInputs(yaw, rate);
  }
}
