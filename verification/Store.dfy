/** The sensor table and the two circular buffers, in place, as `state.c` keeps them. */
module Store {
  import opened Records
  import opened Text
  import opened Ring
  import opened Protocol
  import D = Database

  /** A value of a sensor of type `name` was evaluated: its alert, if any, is logged, and its level is set. */
  ghost predicate Evaluated(name: string, id: string, v: Value, ts: string, before: D.Db, after: D.Db) {
    && after.alerts == before.alerts + AlertsFor(name, KeptId(id), v, KeptStamp(ts)) && after.metrics == before.metrics
    && |after.table| == |before.table|
    && forall i :: 0 <= i < |after.table| ==>
         after.table[i] == if i == D.IndexOf(before.table, id) then before.table[i].(level := LevelIn(name, v))
                           else before.table[i]
  }

  lemma EvaluationIs(db: D.Db, id: string, v: Value, kind: SensorType, ts: string)
    ensures forall name :: Names(name, kind) ==>
      var db1 := if Anomalous(kind, v) then D.AddAlert(db, id, v, CrossedBound(kind, v), ts, TypeName(kind)) else db;
      && (Anomalous(kind, v) <==> Crossed(name, v).Some?)
      && Evaluated(name, id, v, ts, db, D.SetLevel(db1, id, LevelFor(kind, v)).0)
  {
    forall name | Names(name, kind)
      ensures Anomalous(kind, v) <==> Crossed(name, v).Some?
      ensures var db1 := if Anomalous(kind, v)
                         then D.AddAlert(db, id, v, CrossedBound(kind, v), ts, TypeName(kind)) else db;
              Evaluated(name, id, v, ts, db, D.SetLevel(db1, id, LevelFor(kind, v)).0)
    {
      RuleIs(name, kind, v);
      NameIs(name);
      hide Anomalous, Crossed, CrossedBound, D.IndexOf;
    }
  }

  class State {
    const sensors: array<Sensor>
    var sensorCount: nat
    const metrics: Buffer<Metric>
    const alerts: Buffer<AlertRecord>

    ghost predicate Valid()
      reads this, sensors, metrics, metrics.slots, alerts, alerts.slots
    {
      && sensorCount <= sensors.Length
      && (forall i :: 0 <= i < sensors.Length ==> (sensors[i].occupied <==> i < sensorCount))
      && metrics.Valid() && alerts.Valid()
    }

    ghost function Model(): D.Db
      requires sensorCount <= sensors.Length
      reads this, sensors, metrics, alerts
    {
      D.Db(sensors[..sensorCount], metrics.log, alerts.log)
    }

    constructor (maxSensors: nat, maxMetrics: nat, maxAlerts: nat)
      requires maxMetrics > 0 && maxAlerts > 0
      ensures Valid() && Model() == D.EMPTY
      ensures sensors.Length == maxSensors
      ensures metrics.slots.Length == maxMetrics && alerts.slots.Length == maxAlerts
    {
      sensors := new Sensor[maxSensors](_ => Sensor("", Temp, Active, Normal, Fin(0.0), "", false));
      sensorCount := 0;
      metrics := new Buffer(maxMetrics, Metric("", Fin(0.0), "", ""));
      alerts := new Buffer(maxAlerts, AlertRecord("", Fin(0.0), 0.0, "", ""));
    }

    /** The scan every operation starts with. */
    method Scan(id: string) returns (i: int)
      requires Valid()
      ensures i == D.IndexOf(Model().table, id) && i < sensorCount
    {
      i := 0;
      while i < sensors.Length
        invariant 0 <= i <= sensors.Length
        invariant forall j :: 0 <= j < i && j < sensorCount ==> sensors[j].id != id
      {
        if sensors[i].occupied && sensors[i].id == id {
          D.IndexIs(Model().table, id, i);
          return;
        }
        i := i + 1;
      }
      D.IndexIs(Model().table, id, -1);
      return -1;
    }

    method Register(id: string, kind: SensorType) returns (code: int)
      requires Valid()
      modifies sensors, this`sensorCount
      ensures Valid() && (Model(), code) == D.Register(old(Model()), sensors.Length, id, kind)
      ensures sensorCount > old(sensorCount) ==>
        code == 0 && sensorCount == old(sensorCount) + 1
        && forall name :: Names(name, kind) ==> Newcomer(sensors[old(sensorCount)], id, name)
    {
      if kind == Invalid {
        return -3;
      }
      var i := Scan(id);
      if i >= 0 {
        if sensors[i].status == Inactive {
          sensors[i] := sensors[i].(status := Active);
          return 0;
        }
        return -2;
      }
      var slot := -1;
      var k := 0;
      while k < sensors.Length && slot < 0
        invariant 0 <= k <= sensors.Length
        invariant slot < 0 ==> k <= sensorCount
        invariant slot < 0 || (slot == sensorCount && slot < sensors.Length)
      {
        if !sensors[k].occupied {
          slot := k;
        }
        k := k + 1;
      }
      if slot < 0 {
        return -1;
      }
      sensors[slot] := Sensor(Cut(id, MAX_ID_LEN), kind, Active, Normal, Fin(0.0), "N/A", true);
      ghost var s := sensors[slot];
      sensorCount := sensorCount + 1;
      assert sensors[..sensorCount] == old(sensors[..sensorCount]) + [s];
      return 0;
    }

    method FindSensor(id: string) returns (i: int, found: Option<Sensor>)
      requires Valid()
      ensures i == D.IndexOf(Model().table, id) && found == D.Lookup(Model().table, id)
    {
      i := Scan(id);
      found := if i >= 0 then Some(sensors[i]) else None;
    }

    method AddMetric(id: string, v: Value, ts: string, typeName: string) returns (code: int)
      requires Valid()
      modifies sensors, metrics`next, metrics`count, metrics`log, metrics.slots
      ensures Valid() && (Model(), code) == D.AddMetric(old(Model()), id, v, ts, typeName)
    {
      var i := Scan(id);
      if i < 0 {
        return -1;
      }
      sensors[i] := sensors[i].(lastValue := v, lastTimestamp := Cut(ts, MAX_TIMESTAMP_LEN));
      metrics.Push(Metric(Cut(id, MAX_ID_LEN), v, Cut(ts, MAX_TIMESTAMP_LEN), Cut(typeName, MAX_TYPE_LEN)));
      return 0;
    }

    method AddAlert(id: string, v: Value, bound: real, ts: string, typeName: string)
      requires Valid()
      modifies alerts`next, alerts`count, alerts`log, alerts.slots
      ensures Valid() && Model() == D.AddAlert(old(Model()), id, v, bound, ts, typeName)
    {
      alerts.Push(AlertRecord(Cut(id, MAX_ID_LEN), v, bound, Cut(ts, MAX_TIMESTAMP_LEN), Cut(typeName, MAX_TYPE_LEN)));
    }

    method DeactivateSensor(id: string) returns (code: int)
      requires Valid()
      modifies sensors
      ensures Valid() && (Model(), code) == D.Deactivate(old(Model()), id)
    {
      var i := Scan(id);
      if i < 0 {
        return -1;
      }
      sensors[i] := sensors[i].(status := Inactive);
      return 0;
    }

    method SetAlertLevel(id: string, level: Level) returns (code: int)
      requires Valid()
      modifies sensors
      ensures Valid() && (Model(), code) == D.SetLevel(old(Model()), id, level)
    {
      var i := Scan(id);
      if i < 0 {
        return -1;
      }
      sensors[i] := sensors[i].(level := level);
      return 0;
    }

    method ActiveSensorCount() returns (count: nat)
      requires Valid()
      ensures count == D.CountActive(Model().table)
    {
      count := 0;
      for i := 0 to sensors.Length
        invariant count == D.CountActive(sensors[..if i < sensorCount then i else sensorCount])
      {
        if i < sensorCount {
          assert sensors[..i + 1][..i] == sensors[..i];
        }
        if sensors[i].occupied && sensors[i].status == Active {
          count := count + 1;
        }
      }
    }

    /** `alerts_evaluate`: raises an alert exactly for an anomalous value, and sets the level. */
    method EvaluateAlerts(id: string, v: Value, kind: SensorType, ts: string) returns (isAlert: bool)
      requires Valid()
      modifies sensors, alerts`next, alerts`count, alerts`log, alerts.slots
      ensures Valid() && isAlert == Anomalous(kind, v)
      ensures var db := if isAlert then D.AddAlert(old(Model()), id, v, CrossedBound(kind, v), ts, TypeName(kind))
                        else old(Model());
              Model() == D.SetLevel(db, id, LevelFor(kind, v)).0
      ensures forall name :: Names(name, kind) ==>
        isAlert == Crossed(name, v).Some? && Evaluated(name, id, v, ts, old(Model()), Model())
    {
      EvaluationIs(Model(), id, v, kind, ts);
      hide Evaluated, Crossed, D.SetLevel, D.AddAlert;
      isAlert := false;
      var bound := 0.0;
      match kind {
        case Temp =>
          if v.Greater(70.0) { isAlert, bound := true, 70.0; }
        case Vib =>
          if v.Greater(50.0) { isAlert, bound := true, 50.0; }
        case Power =>
          if v.Less(10.0) { isAlert, bound := true, 10.0; }
          else if v.Greater(100.0) { isAlert, bound := true, 100.0; }
        case Invalid =>
      }
      if isAlert {
        AddAlert(id, v, bound, ts, TypeName(kind));
        var _ := SetAlertLevel(id, Alert);
      } else {
        var _ := SetAlertLevel(id, Normal);
      }
    }
  }
}
