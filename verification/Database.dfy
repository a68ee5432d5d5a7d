/**
 The shared state as one critical section sees it, and what each critical section does to it.
 `table` holds the occupied slots in slot order; the two logs hold everything ever appended,
 of which the server's circular buffers keep the end.
 */
module Database {
  import opened Records
  import opened Text

  datatype Db = Db(table: seq<Sensor>, metrics: seq<Metric>, alerts: seq<AlertRecord>)

  const EMPTY := Db([], [], [])

  /** The first slot whose stored id is `id`, or -1. */
  function IndexOf(table: seq<Sensor>, id: string): (r: int)
    ensures -1 <= r < |table|
    ensures r >= 0 ==> table[r].id == id
    ensures forall j :: 0 <= j < |table| && (r < 0 || j < r) ==> table[j].id != id
  {
    if table == [] then -1
    else
      var n := |table| - 1;
      var k := IndexOf(table[..n], id);
      if k >= 0 then k else if table[n].id == id then n else -1
  }

  function Lookup(table: seq<Sensor>, id: string): Option<Sensor> {
    var i := IndexOf(table, id);
    if i < 0 then None else Some(table[i])
  }

  function Put(table: seq<Sensor>, id: string, s: Sensor): seq<Sensor>
    requires IndexOf(table, id) >= 0
  {
    table[IndexOf(table, id) := s]
  }

  /** `state_register_sensor`: 0 done, -1 table full, -2 already active, -3 invalid type. */
  function Register(db: Db, cap: nat, id: string, kind: SensorType): (Db, int) {
    if kind == Invalid then (db, -3)
    else
      match Lookup(db.table, id)
      case Some(s) =>
        if s.status == Inactive then (db.(table := Put(db.table, id, s.(status := Active))), 0)
        else (db, -2)
      case None =>
        if |db.table| >= cap then (db, -1)
        else (db.(table := db.table + [Fresh(Cut(id, MAX_ID_LEN), kind)]), 0)
  }

  function MetricRecord(id: string, v: Value, ts: string, typeName: string): Metric {
    Metric(Cut(id, MAX_ID_LEN), v, Cut(ts, MAX_TIMESTAMP_LEN), Cut(typeName, MAX_TYPE_LEN))
  }

  /** `state_add_metric`: 0 done, -1 unknown sensor. */
  function AddMetric(db: Db, id: string, v: Value, ts: string, typeName: string): (Db, int) {
    match Lookup(db.table, id)
    case None => (db, -1)
    case Some(s) =>
      var s' := s.(lastValue := v, lastTimestamp := Cut(ts, MAX_TIMESTAMP_LEN));
      (db.(table := Put(db.table, id, s'), metrics := db.metrics + [MetricRecord(id, v, ts, typeName)]), 0)
  }

  function AlertEntry(id: string, v: Value, bound: real, ts: string, typeName: string): AlertRecord {
    AlertRecord(Cut(id, MAX_ID_LEN), v, bound, Cut(ts, MAX_TIMESTAMP_LEN), Cut(typeName, MAX_TYPE_LEN))
  }

  /** `state_add_alert`. */
  function AddAlert(db: Db, id: string, v: Value, bound: real, ts: string, typeName: string): Db {
    db.(alerts := db.alerts + [AlertEntry(id, v, bound, ts, typeName)])
  }

  /** `state_deactivate_sensor`: 0 done, -1 unknown sensor. */
  function Deactivate(db: Db, id: string): (Db, int) {
    match Lookup(db.table, id)
    case None => (db, -1)
    case Some(s) => (db.(table := Put(db.table, id, s.(status := Inactive))), 0)
  }

  /** `state_set_alert_level`: 0 done, -1 unknown sensor. */
  function SetLevel(db: Db, id: string, level: Level): (Db, int) {
    match Lookup(db.table, id)
    case None => (db, -1)
    case Some(s) => (db.(table := Put(db.table, id, s.(level := level))), 0)
  }

  // First-match lookups under the two table updates

  lemma IndexIs(table: seq<Sensor>, id: string, i: int)
    requires -1 <= i < |table| && (i >= 0 ==> table[i].id == id)
    requires forall j :: 0 <= j < |table| && (i < 0 || j < i) ==> table[j].id != id
    ensures IndexOf(table, id) == i
  {
    hide IndexOf;
    assert IndexOf(table, id) >= 0 ==> table[IndexOf(table, id)].id == id;
  }

  lemma LookupPut(table: seq<Sensor>, id: string, s: Sensor, z: string)
    requires IndexOf(table, id) >= 0 && s.id == id
    ensures IndexOf(Put(table, id, s), z) == IndexOf(table, z)
    ensures Lookup(Put(table, id, s), z) == if z == id then Some(s) else Lookup(table, z)
  {
    hide IndexOf;
    IndexIs(Put(table, id, s), z, IndexOf(table, z));
  }

  lemma LookupAppend(table: seq<Sensor>, s: Sensor, z: string)
    ensures IndexOf(table, z) >= 0 ==> IndexOf(table + [s], z) == IndexOf(table, z)
    ensures Lookup(table + [s], z)
         == if Lookup(table, z).Some? then Lookup(table, z) else if s.id == z then Some(s) else None
  {
    hide IndexOf;
    var i := IndexOf(table, z);
    IndexIs(table + [s], z, if i >= 0 then i else if s.id == z then |table| else -1);
  }

  // The table refines a finite map from ids to records

  ghost predicate Unique(table: seq<Sensor>) {
    forall i, j :: 0 <= i < j < |table| ==> table[i].id != table[j].id
  }

  ghost function Ids(table: seq<Sensor>): set<string> {
    set i | 0 <= i < |table| :: table[i].id
  }

  ghost function Abs(table: seq<Sensor>): map<string, Sensor> {
    map id | id in Ids(table) :: table[IndexOf(table, id)]
  }

  lemma AbsIsLookup(table: seq<Sensor>, id: string)
    ensures id in Abs(table) <==> IndexOf(table, id) >= 0
    ensures Lookup(table, id) == if id in Abs(table) then Some(Abs(table)[id]) else None
  {
    hide IndexOf;
    if IndexOf(table, id) >= 0 {
      assert table[IndexOf(table, id)].id in Ids(table);
    }
  }

  lemma {:induction false} UniqueCount(table: seq<Sensor>)
    requires Unique(table)
    ensures |Ids(table)| == |table|
    decreases |table|
  {
    if table != [] {
      var n := |table| - 1;
      UniqueCount(table[..n]);
      assert Ids(table) == Ids(table[..n]) + {table[n].id};
    }
  }

  lemma AbsSize(table: seq<Sensor>)
    requires Unique(table)
    ensures |Abs(table)| == |table|
  {
    UniqueCount(table);
    assert Abs(table).Keys == Ids(table);
  }

  function MapRegister(m: map<string, Sensor>, cap: nat, id: string, kind: SensorType): (map<string, Sensor>, int) {
    if kind == Invalid then (m, -3)
    else if id in m then
      if m[id].status == Active then (m, -2) else (m[id := m[id].(status := Active)], 0)
    else if |m| >= cap then (m, -1)
    else (m[id := Sensor(id, kind, Active, Normal, Fin(0.0), "N/A", true)], 0)
  }

  /** The change `f` at key `id`, or the error code of an unknown id. */
  function MapChange(m: map<string, Sensor>, id: string, f: Sensor -> Sensor): (map<string, Sensor>, int) {
    if id in m then (m[id := f(m[id])], 0) else (m, -1)
  }

  lemma AbsPut(table: seq<Sensor>, id: string, s: Sensor)
    requires IndexOf(table, id) >= 0 && s.id == id
    ensures Abs(Put(table, id, s)) == Abs(table)[id := s]
    ensures Unique(table) ==> Unique(Put(table, id, s))
  {
    hide IndexOf, Abs;
    var m, m' := Abs(table)[id := s], Abs(Put(table, id, s));
    forall z ensures z in m <==> z in m' {
      AbsSame(table, id, s, z);
    }
    forall z | z in m ensures m'[z] == m[z] {
      AbsSame(table, id, s, z);
    }
  }

  lemma AbsSame(table: seq<Sensor>, id: string, s: Sensor, z: string)
    requires IndexOf(table, id) >= 0 && s.id == id
    ensures z in Abs(Put(table, id, s)) <==> z in Abs(table)[id := s]
    ensures z in Abs(table)[id := s] ==> Abs(Put(table, id, s))[z] == Abs(table)[id := s][z]
  {
    hide IndexOf, Abs;
    AbsIsLookup(table, z);
    AbsIsLookup(table, id);
    AbsIsLookup(Put(table, id, s), z);
    LookupPut(table, id, s, z);
  }

  lemma AbsAppend(table: seq<Sensor>, s: Sensor)
    requires IndexOf(table, s.id) < 0
    ensures Abs(table + [s]) == Abs(table)[s.id := s]
    ensures Unique(table) ==> Unique(table + [s])
  {
    hide IndexOf, Abs;
    var m, m' := Abs(table)[s.id := s], Abs(table + [s]);
    forall z ensures (z in m <==> z in m') && (z in m ==> m'[z] == m[z]) {
      AbsIsLookup(table, z);
      AbsIsLookup(table + [s], z);
      LookupAppend(table, s, z);
    }
  }

  /** Registration is the map's, codes included, for ids the table can store whole. */
  lemma RegisterRefinesMap(db: Db, cap: nat, id: string, kind: SensorType)
    requires Unique(db.table) && |id| < MAX_ID_LEN
    ensures var (db', code) := Register(db, cap, id, kind);
            (Abs(db'.table), code) == MapRegister(Abs(db.table), cap, id, kind) && Unique(db'.table)
  {
    hide IndexOf, Abs;
    AbsIsLookup(db.table, id);
    AbsSize(db.table);
    match Lookup(db.table, id)
    case Some(s) => AbsPut(db.table, id, s.(status := Active));
    case None => AbsAppend(db.table, Fresh(id, kind));
  }

  /** Registration keeps ids unique exactly unless it appends a cut id that is already stored. */
  lemma RegisterKeepsUnique(db: Db, cap: nat, id: string, kind: SensorType)
    requires Unique(db.table)
    ensures Unique(Register(db, cap, id, kind).0.table) <==>
            (kind == Invalid || IndexOf(db.table, id) >= 0 || |db.table| >= cap
             || IndexOf(db.table, Cut(id, MAX_ID_LEN)) < 0)
  {
    hide IndexOf, Abs;
    match Lookup(db.table, id)
    case Some(s) => AbsPut(db.table, id, s.(status := Active));
    case None =>
      var s := Fresh(Cut(id, MAX_ID_LEN), kind);
      var i := IndexOf(db.table, s.id);
      if i < 0 {
        AbsAppend(db.table, s);
      } else {
        assert (db.table + [s])[i].id == (db.table + [s])[|db.table|].id;
      }
  }

  lemma AddMetricRefinesMap(db: Db, id: string, v: Value, ts: string, typeName: string)
    requires Unique(db.table)
    ensures var (db', code) := AddMetric(db, id, v, ts, typeName);
            && (Abs(db'.table), code) == MapChange(Abs(db.table), id,
                 (s: Sensor) => s.(lastValue := v, lastTimestamp := Cut(ts, MAX_TIMESTAMP_LEN)))
            && Unique(db'.table)
  {
    hide IndexOf, Abs;
    AbsIsLookup(db.table, id);
    if Lookup(db.table, id).Some? {
      var s := Lookup(db.table, id).value;
      AbsPut(db.table, id, s.(lastValue := v, lastTimestamp := Cut(ts, MAX_TIMESTAMP_LEN)));
    }
  }

  lemma DeactivateRefinesMap(db: Db, id: string)
    requires Unique(db.table)
    ensures var (db', code) := Deactivate(db, id);
            && (Abs(db'.table), code) == MapChange(Abs(db.table), id, (s: Sensor) => s.(status := Inactive))
            && Unique(db'.table)
  {
    hide IndexOf, Abs;
    AbsIsLookup(db.table, id);
    if Lookup(db.table, id).Some? {
      AbsPut(db.table, id, Lookup(db.table, id).value.(status := Inactive));
    }
  }

  lemma SetLevelRefinesMap(db: Db, id: string, level: Level)
    requires Unique(db.table)
    ensures var (db', code) := SetLevel(db, id, level);
            && (Abs(db'.table), code) == MapChange(Abs(db.table), id, (s: Sensor) => s.(level := level))
            && Unique(db'.table)
  {
    hide IndexOf, Abs;
    AbsIsLookup(db.table, id);
    if Lookup(db.table, id).Some? {
      AbsPut(db.table, id, Lookup(db.table, id).value.(level := level));
    }
  }

  /** The count the active-sensor scan makes. */
  function CountActive(table: seq<Sensor>): nat {
    if table == [] then 0
    else CountActive(table[..|table| - 1]) + if table[|table| - 1].status == Active then 1 else 0
  }

  ghost function ActiveIds(table: seq<Sensor>): set<string> {
    set i | 0 <= i < |table| && table[i].status == Active :: table[i].id
  }

  lemma ActiveIdsSnoc(table: seq<Sensor>, s: Sensor)
    ensures ActiveIds(table + [s]) == ActiveIds(table) + if s.status == Active then {s.id} else {}
  {
    forall id ensures id in ActiveIds(table) ==> id in ActiveIds(table + [s]) {
      if id in ActiveIds(table) {
        var i :| 0 <= i < |table| && table[i].status == Active && table[i].id == id;
        assert (table + [s])[i] == table[i];
      }
    }
    assert (table + [s])[|table|] == s;
  }

  lemma NotYetActive(table: seq<Sensor>, n: nat)
    requires Unique(table) && n < |table|
    ensures table[n].id !in ActiveIds(table[..n])
  {
  }

  lemma {:induction false} CountActiveIsCardinality(table: seq<Sensor>)
    requires Unique(table)
    ensures CountActive(table) == |ActiveIds(table)|
    decreases |table|
  {
    if table != [] {
      hide ActiveIds;
      var n := |table| - 1;
      CountActiveIsCardinality(table[..n]);
      ActiveIdsSnoc(table[..n], table[n]);
      assert table == table[..n] + [table[n]];
      NotYetActive(table, n);
    }
  }

  lemma ActiveCountRefinesMap(table: seq<Sensor>)
    requires Unique(table)
    ensures CountActive(table) == |set id | id in Abs(table) && Abs(table)[id].status == Active|
  {
    CountActiveIsCardinality(table);
    hide IndexOf;
    var m := Abs(table);
    assert ActiveIds(table) == set id | id in m && m[id].status == Active by {
      forall i | 0 <= i < |table| ensures IndexOf(table, table[i].id) == i {
        IndexIs(table, table[i].id, i);
      }
    }
  }
}
