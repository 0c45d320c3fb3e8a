/** The rotation bookkeeping of `PositionExtrapolator`
    (src/blitz/pos_extrapolator/position_extrapolator.py).

    The filter strategy is represented by the inputs handed to it, in
    order (`inserted`), and by its state vector where a position is read
    from it. Preparing the data is the manager's business; the prepared
    input (or `None`) is a parameter of `InsertSensorData`. */
module PositionExtrapolator {
  import opened Wrappers
  import opened KalmanPreparers

  /** `TagUseImuRotation`: only NEVER is distinguished. */
  datatype TagUseImuRotation = NEVER | OtherMode

  datatype Config = Config(tagUseImuRotation: TagUseImuRotation, odomConfig: OdomConfig,
                           imuConfig: map<string, ImuConfig>)

  /** `is_rotation_gotten`: an AprilTag input never gives rotation, odometry
      and IMU inputs do when their configuration uses rotation (an unknown
      IMU sensor id is a KeyError). No other sensor type is modelled. */
  function IsRotationGotten(config: Config, sensorType: SensorType, sensorId: string): (r: Result<bool, Error>)
    ensures sensorType == APRIL_TAG ==> r == Ok(false)
    ensures sensorType == ODOMETRY ==> r == Ok(config.odomConfig.useRotation)
    ensures sensorType == IMU ==>
      (r.Ok? <==> sensorId in config.imuConfig) && (r.Ok? ==> r.value == config.imuConfig[sensorId].useRotation)
  {
    match sensorType
    case APRIL_TAG => Ok(false)
    case ODOMETRY => Ok(config.odomConfig.useRotation)
    case IMU => if sensorId in config.imuConfig then Ok(config.imuConfig[sensorId].useRotation) else Err(KeyError)
  }

  /** The 2-D pose `get_robot_position` publishes: state entries 0, 1 as the
      position and 4, 5 as the direction; a shorter state is an IndexError
      (`None`). */
  function RobotPosition(state: seq<real>): (r: Option<(Vec2, Vec2)>)
    ensures r.Some? <==> |state| >= 6
    ensures r.Some? ==> r.value.0 == Vec2(state[0], state[1]) && r.value.1 == Vec2(state[4], state[5])
  {
    if |state| < 6 then None else Some((Vec2(state[0], state[1]), Vec2(state[4], state[5])))
  }

  /** The pose read back from a reading's own state is that reading's
      position and direction. */
  lemma RobotPositionOfReading(r: Reading)
    ensures RobotPosition(StateOf(r)) == Some((Vec2(r.position.x, r.position.y), Vec2(r.direction.x, r.direction.y)))
  {
  }

  class Extrapolator {
    const config: Config
    var hasGottenRotation: bool
    var inserted: seq<KalmanFilterInput>

    /** `__init__`: rotation counts as already known exactly when the tag
        rotation mode is NEVER. */
    constructor(config: Config)
      ensures this.config == config
      ensures hasGottenRotation <==> config.tagUseImuRotation == NEVER
      ensures inserted == []
    {
      this.config := config;
      hasGottenRotation := config.tagUseImuRotation == NEVER;
      inserted := [];
    }

    /** `insert_sensor_data` given what the manager prepared: `None` returns
        at once; otherwise the flag is raised when the input gives rotation,
        and the input is handed to the filter exactly once. A KeyError from
        `is_rotation_gotten` escapes before the filter sees the input. */
    method InsertSensorData(prepared: Option<KalmanFilterInput>) returns (r: Result<(), Error>)
      modifies this
      ensures prepared.None? ==> r.Ok? && hasGottenRotation == old(hasGottenRotation) && inserted == old(inserted)
      ensures prepared.Some? ==>
        var g := IsRotationGotten(config, prepared.value.sensorType, prepared.value.sensorId);
        if g.Err? then r == Err(g.error) && hasGottenRotation == old(hasGottenRotation) && inserted == old(inserted)
        else r.Ok? && (hasGottenRotation <==> old(hasGottenRotation) || g.value)
             && inserted == old(inserted) + [prepared.value]
      ensures old(hasGottenRotation) ==> hasGottenRotation
    {
      if prepared.None? {
        return Ok(());
      }
      var g := IsRotationGotten(config, prepared.value.sensorType, prepared.value.sensorId);
      if g.Err? {
        return Err(g.error);
      }
      if g.value {
        hasGottenRotation := true;
      }
      inserted := inserted + [prepared.value];
      r := Ok(());
    }
  }
}
