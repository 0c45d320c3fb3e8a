/** The Kalman-filter input preparers for IMU and odometry readings
    (src/blitz/pos_extrapolator/preparers/ImuDataPreparer.py and
    OdomDataPreparer.py).

    The filter state has six entries: position x, y, velocity x, y and
    direction x, y (`StateOf`). A preparer picks a subset of them, given by
    six flags, and produces the measurement vector together with `hx` (the
    same entries picked out of a state) and `jacobian_h` (the same rows
    picked out of the 6×6 identity). The `hx` and `jacobian_h` closures are
    represented by the flags they close over. */
module KalmanPreparers {
  import opened Wrappers
  import NumpyMath

  datatype SensorType = APRIL_TAG | ODOMETRY | IMU

  datatype Vec2 = Vec2(x: real, y: real)

  /** The fields of an `ImuData` or `OdometryData` message the preparers read. */
  datatype Reading = Reading(position: Vec2, direction: Vec2, velocity: Vec2)

  datatype ImuConfig = ImuConfig(usePosition: bool, useVelocity: bool, useRotation: bool)

  datatype OdomConfig = OdomConfig(usePosition: bool, useRotation: bool)

  datatype Error = KeyError

  /** `KalmanFilterInput`, with `hx` and `jacobian_h` given by `usedIndices`. */
  datatype KalmanFilterInput = KalmanFilterInput(inputList: seq<real>, sensorId: string, sensorType: SensorType,
                                                 usedIndices: seq<bool>)

  /** The filter state a reading describes, in the filter's order. */
  function StateOf(r: Reading): (s: seq<real>)
    ensures |s| == 6
  {
    [r.position.x, r.position.y, r.velocity.x, r.velocity.y, r.direction.x, r.direction.y]
  }

  /** `hx`: the used entries of a state. */
  function Hx(input: KalmanFilterInput, x: seq<real>): (r: seq<real>)
    ensures |input.usedIndices| <= |x| ==> |r| == NumpyMath.Count(input.usedIndices)
  {
    assert input.usedIndices[..|input.usedIndices|] == input.usedIndices;
    NumpyMath.TransformVectorToSize(x, input.usedIndices)
  }

  /** `jacobian_h`: the used rows of the 6×6 identity. */
  function JacobianH(input: KalmanFilterInput): (r: Result<NumpyMath.Matrix, NumpyMath.Error>)
    ensures |input.usedIndices| <= 6 ==> r.Ok? && |r.value| == NumpyMath.Count(input.usedIndices)
  {
    NumpyMath.TransformMatrixToSize(input.usedIndices, NumpyMath.Eye(6))
  }

  /** Six flags in three equal pairs. */
  function Pairs(a: bool, b: bool, c: bool): (r: seq<bool>)
    ensures |r| == 6 && r[0] == r[1] == a && r[2] == r[3] == b && r[4] == r[5] == c
  {
    [a, a, b, b, c, c]
  }

  /** The entries of a reading the three flags select, in state order. */
  function Measure(r: Reading, usePosition: bool, useVelocity: bool, useRotation: bool): seq<real>
  {
    (if usePosition then [r.position.x, r.position.y] else [])
    + (if useVelocity then [r.velocity.x, r.velocity.y] else [])
    + (if useRotation then [r.direction.x, r.direction.y] else [])
  }

  lemma CountPairs(a: bool, b: bool, c: bool)
    ensures NumpyMath.Count(Pairs(a, b, c)) == (if a then 2 else 0) + (if b then 2 else 0) + (if c then 2 else 0)
  {
    assert Pairs(a, b, c) == [a, a] + [b, b] + [c, c];
    NumpyMath.CountAppend([a, a] + [b, b], [c, c]);
    NumpyMath.CountAppend([a, a], [b, b]);
    CountPair(a);
    CountPair(b);
    CountPair(c);
  }

  lemma CountPair(a: bool)
    ensures NumpyMath.Count([a, a]) == if a then 2 else 0
  {
    assert [a][..0] == [];
    assert NumpyMath.Count([a]) == if a then 1 else 0;
    assert [a, a][..1] == [a];
  }

  /** One pair of state entries, kept or dropped together. */
  lemma SelectPair(x: real, y: real, a: bool)
    ensures NumpyMath.Select([x, y], [a, a]) == if a then [x, y] else []
  {
    assert [x, y][..1] == [x] && [a, a][..1] == [a];
    assert [x][..0] == [] && [a][..0] == [];
  }

  /** The flag-selected measurement is `hx` of the reading's own state: the
      measurement and the filter's prediction line up entry for entry. */
  lemma MeasureIsSelection(r: Reading, a: bool, b: bool, c: bool)
    ensures Measure(r, a, b, c) == NumpyMath.TransformVectorToSize(StateOf(r), Pairs(a, b, c))
  {
    var p := [r.position.x, r.position.y];
    var v := [r.velocity.x, r.velocity.y];
    var d := [r.direction.x, r.direction.y];
    assert StateOf(r) == p + v + d && StateOf(r)[..6] == StateOf(r);
    assert Pairs(a, b, c) == [a, a] + [b, b] + [c, c] && Pairs(a, b, c)[..6] == Pairs(a, b, c);
    NumpyMath.SelectAppend(p + v, [a, a] + [b, b], d, [c, c]);
    NumpyMath.SelectAppend(p, [a, a], v, [b, b]);
    SelectPair(p[0], p[1], a);
    SelectPair(v[0], v[1], b);
    SelectPair(d[0], d[1], c);
  }

  // ---- ImuDataPreparer -----------------------------------------------------------

  /** `get_used_indices(sensor_id)`: position, velocity, rotation flags of that
      sensor's configuration, each twice; an unknown sensor is a KeyError. */
  function ImuUsedIndices(config: map<string, ImuConfig>, sensorId: string): (r: Result<seq<bool>, Error>)
    ensures r.Ok? <==> sensorId in config
    ensures r.Ok? ==> var c := config[sensorId]; r.value == Pairs(c.usePosition, c.useVelocity, c.useRotation)
  {
    if sensorId !in config then Err(KeyError)
    else
      var c := config[sensorId];
      Ok(Pairs(c.usePosition, c.useVelocity, c.useRotation))
  }

  /** `prepare_input`: position, velocity and direction pairs, each only if
      its flag is set, tagged with the sensor id and type IMU. */
  function ImuPrepareInput(config: map<string, ImuConfig>, data: Reading, sensorId: string): (r: Result<KalmanFilterInput, Error>)
    ensures r.Ok? <==> sensorId in config
    ensures r.Ok? ==> r.value.sensorId == sensorId && r.value.sensorType == IMU
                      && r.value.usedIndices == ImuUsedIndices(config, sensorId).value
  {
    if sensorId !in config then Err(KeyError)
    else
      var c := config[sensorId];
      Ok(KalmanFilterInput(Measure(data, c.usePosition, c.useVelocity, c.useRotation), sensorId, IMU,
                           Pairs(c.usePosition, c.useVelocity, c.useRotation)))
  }

  /** The IMU input is `hx` of the reading's state, its length is the number
      of used indices, and `hx` of any 6-entry state is as long. */
  lemma ImuInputMatchesHx(config: map<string, ImuConfig>, data: Reading, sensorId: string, x: seq<real>)
    requires sensorId in config && |x| == 6
    ensures var input := ImuPrepareInput(config, data, sensorId).value;
      input.inputList == Hx(input, StateOf(data))
      && |input.inputList| == NumpyMath.Count(input.usedIndices) == |Hx(input, x)|
  {
    var c := config[sensorId];
    MeasureIsSelection(data, c.usePosition, c.useVelocity, c.useRotation);
    var f := Pairs(c.usePosition, c.useVelocity, c.useRotation);
    assert f[..6] == f;
  }

  // ---- OdomDataPreparer ------------------------------------------------------------

  /** `get_used_indices`: the position flag twice, velocity always, the
      rotation flag twice. */
  function OdomUsedIndices(config: OdomConfig): (r: seq<bool>)
    ensures r == Pairs(config.usePosition, true, config.useRotation)
  {
    [config.usePosition, config.usePosition, true, true, config.useRotation, config.useRotation]
  }

  /** `prepare_input`: the position pair if enabled, the velocity pair
      always, the direction pair if enabled; type ODOMETRY. */
  function OdomPrepareInput(config: OdomConfig, data: Reading, sensorId: string): (r: KalmanFilterInput)
    ensures r.sensorId == sensorId && r.sensorType == ODOMETRY && r.usedIndices == OdomUsedIndices(config)
  {
    KalmanFilterInput(Measure(data, config.usePosition, true, config.useRotation), sensorId, ODOMETRY,
                      OdomUsedIndices(config))
  }

  /** The odometry input has 2 + 2·[position] + 2·[rotation] entries, the
      number of used indices, and is `hx` of the reading's state. */
  lemma OdomInputMatchesHx(config: OdomConfig, data: Reading, sensorId: string)
    ensures var input := OdomPrepareInput(config, data, sensorId);
      input.inputList == Hx(input, StateOf(data))
      && |input.inputList| == NumpyMath.Count(input.usedIndices)
         == 2 + (if config.usePosition then 2 else 0) + (if config.useRotation then 2 else 0)
  {
    MeasureIsSelection(data, config.usePosition, true, config.useRotation);
    CountPairs(config.usePosition, true, config.useRotation);
    var f := OdomUsedIndices(config);
    assert f[..6] == f;
  }

  /** `jacobian_h` of either preparer has one row per used index: row k is
      the identity row of the k-th used index. */
  lemma JacobianRows(input: KalmanFilterInput)
    requires |input.usedIndices| == 6
    ensures JacobianH(input).Ok?
    ensures var j := JacobianH(input).value;
      |j| == NumpyMath.Count(input.usedIndices)
      && forall k :: 0 <= k < |j| ==> j[k] == NumpyMath.Eye(6)[NumpyMath.Indices(input.usedIndices)[k]]
  {
  }
}
