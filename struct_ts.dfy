/** The enum mappings and the record helper of
    src/config/config/util/struct.ts.

    A TypeScript numeric enum is a number at run time, so each numeric
    `fromEnum` is given that number; a value outside the enum falls to the
    `default` branch and throws, the `Err` side here. The camera enum is a
    string enum and is given the string. */
module StructUtil {
  import opened Wrappers

  /** The `Error` a `default` branch throws. */
  datatype Error = InvalidValue

  // ---- MapUtil.fromRecord -----------------------------------------------------------

  /** `new Map(entries)`: the entries in order, a later entry for a key
      replacing an earlier one. */
  function MapFromEntries<V>(entries: seq<(string, V)>): (m: map<string, V>)
    ensures m.Keys == set i | 0 <= i < |entries| :: entries[i].0
  {
    if entries == [] then map[]
    else
      var n := |entries| - 1;
      var m := MapFromEntries(entries[..n]);
      assert forall i :: 0 <= i < n ==> entries[..n][i] == entries[i];
      assert (set i | 0 <= i < |entries| :: entries[i].0) == (set i | 0 <= i < n :: entries[..n][i].0) + {entries[n].0};
      m[entries[n].0 := entries[n].1]
  }

  /** An entry that no later entry overrides is what the Map holds for its key. */
  lemma {:induction false} MapFromEntriesLookup<V>(entries: seq<(string, V)>, i: nat)
    requires i < |entries| && forall j :: i < j < |entries| ==> entries[j].0 != entries[i].0
    ensures MapFromEntries(entries)[entries[i].0] == entries[i].1
  {
    var n := |entries| - 1;
    if i < n {
      MapFromEntriesLookup(entries[..n], i);
    }
  }

  /** What `Object.entries(record)` returns: each key of the record once,
      with its value, in some order. */
  predicate EntriesOf<V(==)>(entries: seq<(string, V)>, record: map<string, V>)
  {
    (forall i, j :: 0 <= i < j < |entries| ==> entries[i].0 != entries[j].0)
    && (forall i :: 0 <= i < |entries| ==> entries[i].0 in record && record[entries[i].0] == entries[i].1)
    && (forall k :: k in record ==> exists i :: 0 <= i < |entries| && entries[i].0 == k)
  }

  /** `MapUtil.fromRecord`: the Map built from the record's entries holds
      exactly the record's own keys, each with its value, whatever order the
      entries come in. */
  function FromRecord<V(==)>(record: map<string, V>, entries: seq<(string, V)>): (r: map<string, V>)
    requires EntriesOf(entries, record)
    ensures r == record
  {
    var m := MapFromEntries(entries);
    assert m.Keys == record.Keys;
    assert forall k :: k in record ==> m[k] == record[k] by {
      forall k | k in record
        ensures m[k] == record[k]
      {
        var i :| 0 <= i < |entries| && entries[i].0 == k;
        MapFromEntriesLookup(entries, i);
      }
    }
    m
  }

  // ---- LogLevelUtil -----------------------------------------------------------------

  /** The configuration's `LogLevel`: DEBUG 0, INFO 1, WARN 2, ERROR 3. */
  datatype LogLevel = DEBUG | INFO | WARN | ERROR

  function LogLevelNumber(l: LogLevel): int
  {
    match l
    case DEBUG => 0
    case INFO => 1
    case WARN => 2
    case ERROR => 3
  }

  /** `LogLevelUtil.fromEnum`: each level to the Thrift `Level` of the same
      number; any other number throws. */
  function LogLevelFromEnum(level: int): (r: Result<int, Error>)
    ensures r.Ok? <==> exists l: LogLevel :: LogLevelNumber(l) == level
    ensures r.Ok? ==> r.value == level
  {
    if level == 0 then assert LogLevelNumber(DEBUG) == 0; Ok(0)
    else if level == 1 then assert LogLevelNumber(INFO) == 1; Ok(1)
    else if level == 2 then assert LogLevelNumber(WARN) == 2; Ok(2)
    else if level == 3 then assert LogLevelNumber(ERROR) == 3; Ok(3)
    else
      assert forall l: LogLevel :: LogLevelNumber(l) != level;
      Err(InvalidValue)
  }

  /** Different levels map to different Thrift levels. */
  lemma LogLevelInjective(a: LogLevel, b: LogLevel)
    requires LogLevelFromEnum(LogLevelNumber(a)) == LogLevelFromEnum(LogLevelNumber(b))
    ensures a == b
  {
  }

  // ---- KalmanFilterSensorTypeUtil ---------------------------------------------------

  /** The configuration's `SensorType`: APRIL_TAG 0, IMU 1, ODOM 2. */
  datatype SensorType = APRIL_TAG | IMU | ODOM

  function SensorTypeNumber(t: SensorType): int
  {
    match t
    case APRIL_TAG => 0
    case IMU => 1
    case ODOM => 2
  }

  /** `KalmanFilterSensorTypeUtil.fromEnum`: APRIL_TAG to 0, IMU to 2 and ODOM
      to 1, so IMU and ODOM trade numbers; any other number throws. */
  function SensorTypeFromEnum(t: int): (r: Result<int, Error>)
    ensures r.Ok? <==> exists s: SensorType :: SensorTypeNumber(s) == t
    ensures r.Ok? ==> 0 <= r.value <= 2
    ensures r == Ok(0) <==> t == 0
    ensures t == SensorTypeNumber(IMU) ==> r == Ok(SensorTypeNumber(ODOM))
    ensures t == SensorTypeNumber(ODOM) ==> r == Ok(SensorTypeNumber(IMU))
  {
    if t == 0 then assert SensorTypeNumber(APRIL_TAG) == 0; Ok(0)
    else if t == 1 then assert SensorTypeNumber(IMU) == 1; Ok(2)
    else if t == 2 then assert SensorTypeNumber(ODOM) == 2; Ok(1)
    else
      assert forall s: SensorType :: SensorTypeNumber(s) != t;
      Err(InvalidValue)
  }

  /** The sensor-type mapping is injective, agrees with the enum's own
      numbering only on APRIL_TAG, and undoes itself. */
  lemma SensorTypeMapping(a: SensorType, b: SensorType)
    ensures SensorTypeFromEnum(SensorTypeNumber(a)) == SensorTypeFromEnum(SensorTypeNumber(b)) ==> a == b
    ensures SensorTypeFromEnum(SensorTypeNumber(a)) == Ok(SensorTypeNumber(a)) <==> a == APRIL_TAG
    ensures SensorTypeFromEnum(SensorTypeFromEnum(SensorTypeNumber(a)).value) == Ok(SensorTypeNumber(a))
  {
  }

  // ---- CameraTypeUtil -----------------------------------------------------------------

  /** `CameraTypeUtil.fromEnum`: the string enum's one member "OV2311" to 0;
      any other string throws. */
  function CameraTypeFromEnum(t: string): (r: Result<int, Error>)
    ensures r.Ok? <==> t == "OV2311"
    ensures r.Ok? ==> r.value == 0
  {
    if t == "OV2311" then Ok(0) else Err(InvalidValue)
  }
}
