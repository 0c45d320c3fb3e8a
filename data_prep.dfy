/** `DataPreparerManager` of src/blitz/pos_extrapolator/data_prep.py: a
    registry from message type name to preparer class, and one from type
    name to the configuration handed to the preparer.

    Both dictionaries are class attributes in the source, so every manager
    shares them; the model has one `DataPreparerManager` object holding them.
    The preparer classes are the two of this model (IMU and odometry),
    registered at import time under their message type names. */
module DataPrep {
  import opened Wrappers
  import opened KalmanPreparers

  datatype PreparerClass = ImuDataPreparer | OdomDataPreparer

  /** `ImuDataPreparerConfig` (a dictionary of per-sensor configurations) or
      `OdomDataPreparerConfig`. */
  datatype PreparerConfig = ImuPreparerConfig(imu: map<string, ImuConfig>) | OdomPreparerConfig(odom: OdomConfig)

  /** A message: its Python class name and the fields the preparers read. */
  datatype SensorData = SensorData(typeName: string, reading: Reading)

  datatype PrepError =
    | ValueError       // no preparer registered for the message type
    | KeyError         // an IMU sensor id missing from its configuration
    | AttributeError   // a preparer built without (or with the wrong) configuration
    | TypeError        // an IMU preparer given the odometry configuration

  /** `preparer_class(config_instance).prepare_input(data, sensor_id)`. The
      IMU preparer indexes `config.config[sensor_id]`; the odometry one calls
      `config.get_config()` when built and reads `use_position` from it. */
  function Prepare(k: PreparerClass, config: Option<PreparerConfig>, data: Reading, sensorId: string): (r: Result<KalmanFilterInput, PrepError>)
    ensures config.None? ==> r == Err(AttributeError)
    ensures r.Ok? ==> r.value.sensorId == sensorId && r.value.sensorType == (if k.ImuDataPreparer? then IMU else ODOMETRY)
  {
    match (k, config)
    case (_, None) => Err(AttributeError)
    case (ImuDataPreparer, Some(ImuPreparerConfig(m))) =>
      (match ImuPrepareInput(m, data, sensorId)
       case Ok(input) => Ok(input)
       case Err(_) => Err(PrepError.KeyError))
    case (ImuDataPreparer, Some(OdomPreparerConfig(_))) => Err(TypeError)
    case (OdomDataPreparer, Some(OdomPreparerConfig(c))) => Ok(OdomPrepareInput(c, data, sensorId))
    case (OdomDataPreparer, Some(ImuPreparerConfig(_))) => Err(AttributeError)
  }

  /** A preparer with the configuration of its own kind fails only for an IMU
      sensor id missing from the configuration. */
  lemma PrepareWithOwnConfig(k: PreparerClass, config: PreparerConfig, data: Reading, sensorId: string)
    requires k.ImuDataPreparer? <==> config.ImuPreparerConfig?
    ensures Prepare(k, Some(config), data, sensorId).Ok? <==> (k.ImuDataPreparer? ==> sensorId in config.imu)
    ensures Prepare(k, Some(config), data, sensorId).Err? ==> Prepare(k, Some(config), data, sensorId).error == PrepError.KeyError
  {
  }

  class DataPreparerManager {
    var registry: map<string, PreparerClass>
    var configInstances: map<string, PreparerConfig>

    /** The state after the preparer modules are imported: both classes
        registered by their decorators, no configuration. */
    constructor()
      ensures registry == map["ImuData" := ImuDataPreparer, "OdometryData" := OdomDataPreparer]
      ensures configInstances == map[]
    {
      registry := map["ImuData" := ImuDataPreparer, "OdometryData" := OdomDataPreparer];
      configInstances := map[];
    }

    /** `register(proto_type, config_instance)` applied to a class: the class
        is recorded under the type name and returned unchanged; the
        configuration is recorded only when given. */
    method Register(protoTypeName: string, preparerClass: PreparerClass, config: Option<PreparerConfig>)
      returns (r: PreparerClass)
      modifies this
      ensures r == preparerClass
      ensures registry == old(registry)[protoTypeName := preparerClass]
      ensures configInstances == if config.Some? then old(configInstances)[protoTypeName := config.value] else old(configInstances)
    {
      registry := registry[protoTypeName := preparerClass];
      if config.Some? {
        configInstances := configInstances[protoTypeName := config.value];
      }
      r := preparerClass;
    }

    /** `set_config`: always overwrites the configuration of the type name. */
    method SetConfig(protoTypeName: string, config: PreparerConfig)
      modifies this
      ensures configInstances == old(configInstances)[protoTypeName := config]
      ensures registry == old(registry)
    {
      configInstances := configInstances[protoTypeName := config];
    }

    /** `prepare_data`: ValueError for an unregistered type name; otherwise
        the registered preparer, built with the stored configuration (or
        `None`), prepares the data. */
    method PrepareData(data: SensorData, sensorId: string) returns (r: Result<KalmanFilterInput, PrepError>)
      ensures data.typeName !in registry ==> r == Err(ValueError)
      ensures data.typeName in registry ==>
        r == Prepare(registry[data.typeName],
                     if data.typeName in configInstances then Some(configInstances[data.typeName]) else None,
                     data.reading, sensorId)
    {
      if data.typeName !in registry {
        return Err(ValueError);
      }
      var preparerClass := registry[data.typeName];
      var config := if data.typeName in configInstances then Some(configInstances[data.typeName]) else None;
      r := Prepare(preparerClass, config, data.reading, sensorId);
    }
  }
}
