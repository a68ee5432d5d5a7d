/** The records of the shared server state and the enumerations they use. */
module Records {

  datatype Option<+T> = None | Some(value: T)

  /** Values a C double can hold, as far as comparisons are concerned. */
  datatype Value = NaN | NegInf | Fin(r: real) | PosInf {
    predicate Greater(bound: real) {
      PosInf? || (Fin? && r > bound)
    }

    predicate Less(bound: real) {
      NegInf? || (Fin? && r < bound)
    }

    /** In the range of finite doubles. */
    predicate Finite() {
      Fin? && -MAX_DOUBLE <= r <= MAX_DOUBLE
    }
  }

  datatype SensorType = Temp | Vib | Power | Invalid

  datatype Status = Active | Inactive

  datatype Level = Normal | Alert

  /** One slot of the sensor table; `occupied` is the C field `active`. */
  datatype Sensor = Sensor(id: string, kind: SensorType, status: Status, level: Level,
                           lastValue: Value, lastTimestamp: string, occupied: bool)

  datatype Metric = Metric(sensorId: string, value: Value, timestamp: string, typeName: string)

  datatype AlertRecord = AlertRecord(sensorId: string, value: Value, threshold: real,
                                     timestamp: string, typeName: string)

  // (2 - 2^-52) * 2^1023
  const MAX_DOUBLE := 179769313486231570814527423731704356798070567525844996598917476803157260780028538760589558632766878171540458953514382464234321326889464182768467546703537516986049910576551282076245490090389328944075868508455133942304583236903222948165808559332123348274797826204144723168738177180919299881250404026184124858368.0

  const MAX_ID_LEN := 64
  const MAX_TIMESTAMP_LEN := 32
  const MAX_TYPE_LEN := 8
  const BUFFER_SIZE := 4096

  function TypeFromName(name: string): SensorType {
    if name == "TEMP" then Temp
    else if name == "VIB" then Vib
    else if name == "POWER" then Power
    else Invalid
  }

  function TypeName(kind: SensorType): string {
    match kind
    case Temp => "TEMP"
    case Vib => "VIB"
    case Power => "POWER"
    case Invalid => "UNKNOWN"
  }

  /** The anomaly rules of SMP 1.0. */
  predicate Anomalous(kind: SensorType, v: Value) {
    match kind
    case Temp => v.Greater(70.0)
    case Vib => v.Greater(50.0)
    case Power => v.Less(10.0) || v.Greater(100.0)
    case Invalid => false
  }

  /** The bound that an anomalous value crossed. */
  function CrossedBound(kind: SensorType, v: Value): (bound: real)
    requires Anomalous(kind, v)
    ensures v.Greater(bound) || v.Less(bound)
  {
    match kind
    case Temp => 70.0
    case Vib => 50.0
    case Power => if v.Less(10.0) then 10.0 else 100.0
  }

  function LevelFor(kind: SensorType, v: Value): Level {
    if Anomalous(kind, v) then Alert else Normal
  }

  /** The contents of a slot after a first registration. */
  function Fresh(id: string, kind: SensorType): Sensor {
    Sensor(id, kind, Active, Normal, Fin(0.0), "N/A", true)
  }
}
