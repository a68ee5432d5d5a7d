/**
 The functions that take a mutex, as instruction lists. One instruction locks or unlocks a mutex,
 reads or writes one piece of shared memory, or computes on local variables; early exits are jumps.
 Nothing here restricts where a lock, an unlock or an access may stand.
 */
module Programs {
  import opened Records
  import opened Text
  import opened Ring

  datatype Mutex = StateMutex | LogMutex

  /** `GlobalState` without its mutex. */
  datatype Memory = Memory(sensors: seq<Sensor>, sensorCount: int,
                           metrics: seq<Metric>, metricNext: int, metricCount: int,
                           alerts: seq<AlertRecord>, alertNext: int, alertCount: int)

  /** What the logger has written to the console and to its file. */
  datatype Log = Log(console: seq<string>, file: seq<string>)

  /** The array sizes of `config.h`. */
  datatype Limits = Limits(sensors: nat, metrics: nat, alerts: nat)

  datatype Cell = SensorCount | MetricNext | MetricCount | AlertNext | AlertCount

  datatype Field =
    | Zeroed
    | IdTo(id: string)
    | KindTo(kind: SensorType)
    | StatusTo(status: Status)
    | LevelTo(level: Level)
    | ValueTo(value: Value)
    | StampTo(ts: string)
    | Occupied

  datatype EntryField =
    | EntryId(id: string)
    | EntryValue(value: Value)
    | EntryBound(bound: real)
    | EntryStamp(ts: string)
    | EntryType(typeName: string)

  /** Local variables: the loop index, two numbers, the sensor last read and the rows of a page. */
  datatype Regs = Regs(i: int, n: int, tally: int, sensor: Sensor,
                       sensors: seq<Sensor>, metrics: seq<Metric>, alerts: seq<AlertRecord>)

  datatype Cond =
    | Always
    | KindInvalid(kind: SensorType)
    | PastEnd(bound: nat)          // i >= bound
    | Matches(id: string)          // the sensor read is occupied and has this id
    | StillActive                  // the sensor read is not INACTIVE
    | FreeSlot
    | NotActive                    // the sensor read does not count as active
    | Full(cap: nat)               // n >= cap
    | Through(room: nat)           // a backward walk is at its end, or has no room left
    | RowsFull(room: nat)

  datatype Result =
    | Code(code: int)
    | Copied(index: int, copy: Option<Sensor>)
    | SensorList(sensorRows: seq<Sensor>)
    | MetricList(metricRows: seq<Metric>)
    | AlertList(alertRows: seq<AlertRecord>)

  datatype Returned = Constant(code: int) | IndexAndCopy | NoCopy | Number | Tally | SensorRows | MetricRows | AlertRows

  datatype Instr =
    | Lock(m: Mutex)
    | Unlock(m: Mutex)
    // shared memory
    | ReadSensor                   // sensor := sensors[i]
    | ReadNumber(w: Cell)          // n := w
    | ReadTally(w: Cell)           // tally := w
    | ReadMetric                   // appends the metric at step i of the backward walk from n
    | ReadAlert
    | StoreSensor(f: Field)        // in sensors[i]
    | StoreMetric(e: EntryField)   // in metrics[n]
    | StoreAlert(e: EntryField)    // in alerts[n]
    | StoreNext(w: Cell, cap: nat) // w := (n + 1) % cap
    | StoreSucc(w: Cell)           // w := n + 1
    // the log
    | Print(toFile: bool, line: string)
    // local
    | ResetIndex
    | NextIndex
    | Count
    | KeepRow
    | Jump(c: Cond, target: nat)
    | Ret(value: Returned)

  datatype Proc =
    | RegisterSensor(id: string, kind: SensorType)
    | FindSensor(id: string)
    | AddMetric(id: string, value: Value, ts: string, typeName: string)
    | AddAlert(id: string, value: Value, bound: real, ts: string, typeName: string)
    | DeactivateSensor(id: string)
    | SetAlertLevel(id: string, level: Level)
    | GetSensorCount
    | GetActiveSensorCount
    | GetAlertCount
    | GetMetricCount
    | ReadSensors(room: nat)       // the locked loops of the pages; `room` is how many rows fit
    | ReadAlerts(room: nat)
    | ReadMetrics(room: nat)
    | WriteLog(line: string)

  predicate Scans(p: Proc) {
    p.RegisterSensor? || p.FindSensor? || p.AddMetric? || p.DeactivateSensor? || p.SetAlertLevel?
  }

  /** The lookup loop, with which five of the functions start; `missing` is where it ends without a match. */
  function ScanCode(lim: Limits, id: string, missing: nat, pc: nat): Instr {
    match pc
    case 1 => Lock(StateMutex)
    case 2 => ResetIndex
    case 3 => Jump(PastEnd(lim.sensors), missing)
    case 4 => ReadSensor
    case 5 => Jump(Matches(id), 8)
    case 6 => NextIndex
    case _ => Jump(Always, 3)
  }

  function RegisterCode(lim: Limits, id: string, kind: SensorType, pc: nat): Instr {
    match pc
    case 0 => Jump(KindInvalid(kind), 34)
    case 8 => Jump(StillActive, 12)
    case 9 => StoreSensor(StatusTo(Active))
    case 10 => Unlock(StateMutex)
    case 11 => Ret(Constant(0))
    case 12 => Unlock(StateMutex)
    case 13 => Ret(Constant(-2))
    case 14 => ResetIndex
    case 15 => Jump(PastEnd(lim.sensors), 32)
    case 16 => ReadSensor
    case 17 => Jump(FreeSlot, 20)
    case 18 => NextIndex
    case 19 => Jump(Always, 15)
    case 20 => StoreSensor(Zeroed)
    case 21 => StoreSensor(IdTo(id))
    case 22 => StoreSensor(KindTo(kind))
    case 23 => StoreSensor(StatusTo(Active))
    case 24 => StoreSensor(LevelTo(Normal))
    case 25 => StoreSensor(ValueTo(Fin(0.0)))
    case 26 => StoreSensor(Occupied)
    case 27 => StoreSensor(StampTo("N/A"))
    case 28 => ReadNumber(SensorCount)
    case 29 => StoreSucc(SensorCount)
    case 30 => Unlock(StateMutex)
    case 31 => Ret(Constant(0))
    case 32 => Unlock(StateMutex)
    case 33 => Ret(Constant(-1))
    case 34 => Ret(Constant(-3))
    case _ => ScanCode(lim, id, 14, pc)
  }

  function FindCode(lim: Limits, id: string, pc: nat): Instr {
    match pc
    case 8 => ReadSensor
    case 9 => Unlock(StateMutex)
    case 10 => Ret(IndexAndCopy)
    case 11 => Unlock(StateMutex)
    case 12 => Ret(NoCopy)
    case _ => ScanCode(lim, id, 11, pc)
  }

  function AddMetricCode(lim: Limits, id: string, v: Value, ts: string, typeName: string, pc: nat): Instr {
    match pc
    case 8 => StoreSensor(ValueTo(v))
    case 9 => StoreSensor(StampTo(ts))
    case 10 => ReadNumber(MetricNext)
    case 11 => StoreMetric(EntryId(id))
    case 12 => StoreMetric(EntryValue(v))
    case 13 => StoreMetric(EntryStamp(ts))
    case 14 => StoreMetric(EntryType(typeName))
    case 15 => ReadNumber(MetricNext)
    case 16 => StoreNext(MetricNext, lim.metrics)
    case 17 => ReadNumber(MetricCount)
    case 18 => Jump(Full(lim.metrics), 20)
    case 19 => StoreSucc(MetricCount)
    case 20 => Unlock(StateMutex)
    case 21 => Ret(Constant(0))
    case 22 => Unlock(StateMutex)
    case 23 => Ret(Constant(-1))
    case _ => ScanCode(lim, id, 22, pc)
  }

  function AddAlertCode(lim: Limits, id: string, v: Value, bound: real, ts: string, typeName: string, pc: nat): Instr {
    match pc
    case 1 => Lock(StateMutex)
    case 2 => ReadNumber(AlertNext)
    case 3 => StoreAlert(EntryId(id))
    case 4 => StoreAlert(EntryValue(v))
    case 5 => StoreAlert(EntryBound(bound))
    case 6 => StoreAlert(EntryStamp(ts))
    case 7 => StoreAlert(EntryType(typeName))
    case 8 => ReadNumber(AlertNext)
    case 9 => StoreNext(AlertNext, lim.alerts)
    case 10 => ReadNumber(AlertCount)
    case 11 => Jump(Full(lim.alerts), 13)
    case 12 => StoreSucc(AlertCount)
    case 13 => Unlock(StateMutex)
    case _ => Ret(Constant(0))
  }

  /** `state_deactivate_sensor` and `state_set_alert_level`. */
  function ChangeCode(lim: Limits, id: string, f: Field, pc: nat): Instr {
    match pc
    case 8 => StoreSensor(f)
    case 9 => Unlock(StateMutex)
    case 10 => Ret(Constant(0))
    case 11 => Unlock(StateMutex)
    case 12 => Ret(Constant(-1))
    case _ => ScanCode(lim, id, 11, pc)
  }

  /** The three counters that are one word. */
  function GetCode(w: Cell, pc: nat): Instr {
    match pc
    case 1 => Lock(StateMutex)
    case 2 => ReadNumber(w)
    case 3 => Unlock(StateMutex)
    case _ => Ret(Number)
  }

  function ActiveCode(lim: Limits, pc: nat): Instr {
    match pc
    case 1 => Lock(StateMutex)
    case 2 => ResetIndex
    case 3 => Jump(PastEnd(lim.sensors), 9)
    case 4 => ReadSensor
    case 5 => Jump(NotActive, 7)
    case 6 => Count
    case 7 => NextIndex
    case 8 => Jump(Always, 3)
    case 9 => Unlock(StateMutex)
    case _ => Ret(Tally)
  }

  /** `route_sensors`: rows for the occupied slots. */
  function SensorRowsCode(lim: Limits, room: nat, pc: nat): Instr {
    match pc
    case 1 => Lock(StateMutex)
    case 2 => ResetIndex
    case 3 => Jump(PastEnd(lim.sensors), 10)
    case 4 => Jump(RowsFull(room), 10)
    case 5 => ReadSensor
    case 6 => Jump(FreeSlot, 8)
    case 7 => KeepRow
    case 8 => NextIndex
    case 9 => Jump(Always, 3)
    case 10 => Unlock(StateMutex)
    case _ => Ret(SensorRows)
  }

  /** `route_metrics` and `route_alerts`: the newest-first walk. */
  function WalkCode(next: Cell, count: Cell, read: Instr, rows: Returned, room: nat, pc: nat): Instr {
    match pc
    case 1 => Lock(StateMutex)
    case 2 => ReadTally(count)
    case 3 => ResetIndex
    case 4 => Jump(Through(room), 9)
    case 5 => ReadNumber(next)
    case 6 => read
    case 7 => NextIndex
    case 8 => Jump(Always, 4)
    case 9 => Unlock(StateMutex)
    case _ => Ret(rows)
  }

  function WriteLogCode(line: string, pc: nat): Instr {
    match pc
    case 1 => Lock(LogMutex)
    case 2 => Print(false, line)
    case 3 => Print(true, line)
    case 4 => Unlock(LogMutex)
    case _ => Ret(Constant(0))
  }

  function Fetch(lim: Limits, p: Proc, pc: nat): Instr {
    match p
    case RegisterSensor(id, kind) => RegisterCode(lim, id, kind, pc)
    case FindSensor(id) => FindCode(lim, id, pc)
    case AddMetric(id, v, ts, typeName) => AddMetricCode(lim, id, v, ts, typeName, pc)
    case AddAlert(id, v, bound, ts, typeName) => AddAlertCode(lim, id, v, bound, ts, typeName, pc)
    case DeactivateSensor(id) => ChangeCode(lim, id, StatusTo(Inactive), pc)
    case SetAlertLevel(id, level) => ChangeCode(lim, id, LevelTo(level), pc)
    case GetSensorCount => GetCode(SensorCount, pc)
    case GetActiveSensorCount => ActiveCode(lim, pc)
    case GetAlertCount => GetCode(AlertCount, pc)
    case GetMetricCount => GetCode(MetricCount, pc)
    case ReadSensors(room) => SensorRowsCode(lim, room, pc)
    case ReadAlerts(room) => WalkCode(AlertNext, AlertCount, ReadAlert, AlertRows, room, pc)
    case ReadMetrics(room) => WalkCode(MetricNext, MetricCount, ReadMetric, MetricRows, room, pc)
    case WriteLog(line) => WriteLogCode(line, pc)
  }

  function Start(p: Proc): nat {
    if p.RegisterSensor? then 0 else 1
  }

  function Length(p: Proc): nat {
    match p
    case RegisterSensor(_, _) => 35
    case AddMetric(_, _, _, _) => 24
    case AddAlert(_, _, _, _, _) => 15
    case FindSensor(_) => 13
    case DeactivateSensor(_) => 13
    case SetAlertLevel(_, _) => 13
    case GetActiveSensorCount => 11
    case ReadSensors(_) => 12
    case ReadAlerts(_) => 11
    case ReadMetrics(_) => 11
    case WriteLog(_) => 6
    case _ => 5
  }

  // Execution

  datatype Frame = Frame(proc: Proc, pc: nat, r: Regs)

  const ZERO_SENSOR := Sensor("", Temp, Active, Normal, Fin(0.0), "", false)

  const ZERO_REGS := Regs(0, 0, 0, ZERO_SENSOR, [], [], [])

  function Entry(p: Proc): Frame {
    Frame(p, Start(p), ZERO_REGS)
  }

  function SetField(s: Sensor, f: Field): Sensor {
    match f
    case Zeroed => ZERO_SENSOR
    case IdTo(id) => s.(id := Cut(id, MAX_ID_LEN))
    case KindTo(kind) => s.(kind := kind)
    case StatusTo(status) => s.(status := status)
    case LevelTo(level) => s.(level := level)
    case ValueTo(v) => s.(lastValue := v)
    case StampTo(ts) => s.(lastTimestamp := Cut(ts, MAX_TIMESTAMP_LEN))
    case Occupied => s.(occupied := true)
  }

  function SetMetric(m: Metric, e: EntryField): Metric {
    match e
    case EntryId(id) => m.(sensorId := Cut(id, MAX_ID_LEN))
    case EntryValue(v) => m.(value := v)
    case EntryBound(_) => m
    case EntryStamp(ts) => m.(timestamp := Cut(ts, MAX_TIMESTAMP_LEN))
    case EntryType(name) => m.(typeName := Cut(name, MAX_TYPE_LEN))
  }

  function SetAlert(a: AlertRecord, e: EntryField): AlertRecord {
    match e
    case EntryId(id) => a.(sensorId := Cut(id, MAX_ID_LEN))
    case EntryValue(v) => a.(value := v)
    case EntryBound(bound) => a.(threshold := bound)
    case EntryStamp(ts) => a.(timestamp := Cut(ts, MAX_TIMESTAMP_LEN))
    case EntryType(name) => a.(typeName := Cut(name, MAX_TYPE_LEN))
  }

  function GetCell(mem: Memory, w: Cell): int {
    match w
    case SensorCount => mem.sensorCount
    case MetricNext => mem.metricNext
    case MetricCount => mem.metricCount
    case AlertNext => mem.alertNext
    case AlertCount => mem.alertCount
  }

  function SetCell(mem: Memory, w: Cell, n: int): Memory {
    match w
    case SensorCount => mem.(sensorCount := n)
    case MetricNext => mem.(metricNext := n)
    case MetricCount => mem.(metricCount := n)
    case AlertNext => mem.(alertNext := n)
    case AlertCount => mem.(alertCount := n)
  }

  predicate Satisfies(r: Regs, c: Cond) {
    match c
    case Always => true
    case KindInvalid(kind) => kind == Invalid
    case PastEnd(bound) => r.i >= bound
    case Matches(id) => r.sensor.occupied && r.sensor.id == id
    case StillActive => r.sensor.status != Inactive
    case FreeSlot => !r.sensor.occupied
    case NotActive => !(r.sensor.occupied && r.sensor.status == Active)
    case Full(cap) => r.n >= cap
    case Through(room) => r.i >= r.tally || r.i >= room
    case RowsFull(room) => |r.sensors| >= room
  }

  function ReturnValue(r: Regs, v: Returned): Result {
    match v
    case Constant(k) => Code(k)
    case IndexAndCopy => Copied(r.i, Some(r.sensor))
    case NoCopy => Copied(-1, None)
    case Number => Code(r.n)
    case Tally => Code(r.tally)
    case SensorRows => SensorList(r.sensors)
    case MetricRows => MetricList(r.metrics)
    case AlertRows => AlertList(r.alerts)
  }

  datatype Local = Local(fr: Frame, mem: Memory)

  function Following(fr: Frame, r: Regs): Frame {
    fr.(pc := fr.pc + 1, r := r)
  }

  /** The index an instruction uses is inside its array. */
  predicate InBounds(lim: Limits, l: Local) {
    var r, mem := l.fr.r, l.mem;
    match Fetch(lim, l.fr.proc, l.fr.pc)
    case ReadSensor => 0 <= r.i < |mem.sensors|
    case StoreSensor(_) => 0 <= r.i < |mem.sensors|
    case StoreMetric(_) => 0 <= r.n < |mem.metrics|
    case StoreAlert(_) => 0 <= r.n < |mem.alerts|
    case ReadMetric => 0 <= r.n < |mem.metrics| && 0 <= r.i < |mem.metrics|
    case ReadAlert => 0 <= r.n < |mem.alerts| && 0 <= r.i < |mem.alerts|
    case _ => true
  }

  /** One instruction that is neither about a mutex nor about the log, on the memory as it is now. */
  function Go(lim: Limits, l: Local): Local {
    var fr, r, mem := l.fr, l.fr.r, l.mem;
    if !InBounds(lim, l) then l
    else
      match Fetch(lim, fr.proc, fr.pc)
      case ReadSensor => Local(Following(fr, r.(sensor := mem.sensors[r.i])), mem)
      case ReadNumber(w) => Local(Following(fr, r.(n := GetCell(mem, w))), mem)
      case ReadTally(w) => Local(Following(fr, r.(tally := GetCell(mem, w))), mem)
      case ReadMetric =>
        Local(Following(fr, r.(metrics := r.metrics + [mem.metrics[BackIndex(r.n, r.i, |mem.metrics|)]])), mem)
      case ReadAlert =>
        Local(Following(fr, r.(alerts := r.alerts + [mem.alerts[BackIndex(r.n, r.i, |mem.alerts|)]])), mem)
      case StoreSensor(f) =>
        Local(Following(fr, r), mem.(sensors := mem.sensors[r.i := SetField(mem.sensors[r.i], f)]))
      case StoreMetric(e) =>
        Local(Following(fr, r), mem.(metrics := mem.metrics[r.n := SetMetric(mem.metrics[r.n], e)]))
      case StoreAlert(e) =>
        Local(Following(fr, r), mem.(alerts := mem.alerts[r.n := SetAlert(mem.alerts[r.n], e)]))
      case StoreNext(w, cap) => Local(Following(fr, r), SetCell(mem, w, if cap == 0 then 0 else (r.n + 1) % cap))
      case StoreSucc(w) => Local(Following(fr, r), SetCell(mem, w, r.n + 1))
      case ResetIndex => Local(Following(fr, r.(i := 0)), mem)
      case NextIndex => Local(Following(fr, r.(i := r.i + 1)), mem)
      case Count => Local(Following(fr, r.(tally := r.tally + 1)), mem)
      case KeepRow => Local(Following(fr, r.(sensors := r.sensors + [r.sensor])), mem)
      case Jump(c, target) => Local(fr.(pc := if Satisfies(r, c) then target else fr.pc + 1), mem)
      case _ => l
  }

  // Every path through every function

  datatype Phase = Before | Inside | After

  function MutexOf(p: Proc): Mutex {
    if p.WriteLog? then LogMutex else StateMutex
  }

  predicate InCode(p: Proc, pc: nat) {
    Start(p) <= pc < Length(p)
  }

  /** Where a point of the code claims to be with respect to the mutex of its function. */
  function PhaseAt(lim: Limits, p: Proc, pc: nat): Phase {
    if pc <= 1 || pc == 34 then Before
    else if Fetch(lim, p, pc).Ret? then After
    else Inside
  }

  predicate TouchesState(ins: Instr) {
    || ins.ReadSensor? || ins.ReadNumber? || ins.ReadTally? || ins.ReadMetric? || ins.ReadAlert?
    || ins.StoreSensor? || ins.StoreMetric? || ins.StoreAlert? || ins.StoreNext? || ins.StoreSucc?
  }

  /** Control can go from `pc` to `pc'`, whatever the data. */
  predicate Flows(lim: Limits, p: Proc, pc: nat, pc': nat) {
    match Fetch(lim, p, pc)
    case Ret(_) => false
    case Jump(c, target) => pc' == target || (c != Always && pc' == pc + 1)
    case _ => pc' == pc + 1
  }

  /** The claims agree along an edge. */
  ghost predicate EdgeAgrees(lim: Limits, p: Proc, pc: nat, pc': nat) {
    InCode(p, pc') &&
    match Fetch(lim, p, pc)
    case Lock(m) => m == MutexOf(p) && PhaseAt(lim, p, pc) == Before && PhaseAt(lim, p, pc') == Inside
    case Unlock(m) => m == MutexOf(p) && PhaseAt(lim, p, pc) == Inside && PhaseAt(lim, p, pc') == After
    case _ => PhaseAt(lim, p, pc') == PhaseAt(lim, p, pc)
  }

  lemma FlowOfRegister(lim: Limits, p: Proc, pc: nat, pc': nat)
    requires InCode(p, pc) && Flows(lim, p, pc, pc') && p.RegisterSensor?
    ensures EdgeAgrees(lim, p, pc, pc')
  {
  }

  lemma FlowOfScans(lim: Limits, p: Proc, pc: nat, pc': nat)
    requires InCode(p, pc) && Flows(lim, p, pc, pc') && (p.FindSensor? || p.DeactivateSensor? || p.SetAlertLevel?)
    ensures EdgeAgrees(lim, p, pc, pc')
  {
  }

  lemma FlowOfAppends(lim: Limits, p: Proc, pc: nat, pc': nat)
    requires InCode(p, pc) && Flows(lim, p, pc, pc') && (p.AddMetric? || p.AddAlert?)
    ensures EdgeAgrees(lim, p, pc, pc')
  {
  }

  lemma FlowOfReads(lim: Limits, p: Proc, pc: nat, pc': nat)
    requires InCode(p, pc) && Flows(lim, p, pc, pc') && !Scans(p) && !p.AddAlert?
    ensures EdgeAgrees(lim, p, pc, pc')
  {
  }

  lemma FlowKeepsPhase(lim: Limits, p: Proc, pc: nat, pc': nat)
    requires InCode(p, pc) && Flows(lim, p, pc, pc')
    ensures EdgeAgrees(lim, p, pc, pc')
  {
    hide EdgeAgrees, Flows;
    if p.RegisterSensor? {
      FlowOfRegister(lim, p, pc, pc');
    } else if p.AddMetric? || p.AddAlert? {
      FlowOfAppends(lim, p, pc, pc');
    } else if Scans(p) {
      FlowOfScans(lim, p, pc, pc');
    } else {
      FlowOfReads(lim, p, pc, pc');
    }
  }

  lemma StandsInside(lim: Limits, p: Proc, pc: nat)
    requires InCode(p, pc)
    ensures var ins := Fetch(lim, p, pc);
            && (TouchesState(ins) ==> PhaseAt(lim, p, pc) == Inside && MutexOf(p) == StateMutex)
            && (ins.Print? ==> PhaseAt(lim, p, pc) == Inside && MutexOf(p) == LogMutex)
            && (ins.Lock? ==> PhaseAt(lim, p, pc) == Before && ins.m == MutexOf(p))
            && (ins.Unlock? ==> PhaseAt(lim, p, pc) == Inside && ins.m == MutexOf(p))
            && (ins.Ret? ==> PhaseAt(lim, p, pc) != Inside)
            && (ins.Ret? && PhaseAt(lim, p, pc) == Before ==> p.RegisterSensor? && ins.value == Constant(-3))
  {
  }

  /** A path through the code of `p`, from its start. */
  predicate IsPath(lim: Limits, p: Proc, path: seq<nat>) {
    && path != [] && path[0] == Start(p)
    && forall j :: 0 < j < |path| ==> Flows(lim, p, path[j - 1], path[j])
  }

  /** The mutex operations on the way. */
  function MutexOps(lim: Limits, p: Proc, path: seq<nat>): seq<Instr> {
    if path == [] then []
    else
      var n := |path| - 1;
      var ins := Fetch(lim, p, path[n]);
      MutexOps(lim, p, path[..n]) + if ins.Lock? || ins.Unlock? then [ins] else []
  }

  lemma {:induction false} OpsBefore(lim: Limits, p: Proc, path: seq<nat>, j: nat)
    requires IsPath(lim, p, path) && j < |path|
    ensures InCode(p, path[j])
    ensures MutexOps(lim, p, path[..j]) ==
            match PhaseAt(lim, p, path[j])
            case Before => []
            case Inside => [Lock(MutexOf(p))]
            case After => [Lock(MutexOf(p)), Unlock(MutexOf(p))]
  {
    if j == 0 {
      assert path[..0] == [];
    } else {
      OpsBefore(lim, p, path, j - 1);
      hide Fetch, PhaseAt;
      assert Flows(lim, p, path[j - 1], path[j]);
      FlowKeepsPhase(lim, p, path[j - 1], path[j]);
      assert path[..j][..j - 1] == path[..j - 1] && path[..j][j - 1] == path[j - 1];
    }
  }

  /**
   On every path through every function, to whichever of its returns, the function's mutex is acquired
   once and released once, no other is touched, and shared memory is used only in between. The one
   return without locking is that of REGISTER with an invalid type.
   */
  lemma EveryPathIsBalanced(lim: Limits, p: Proc, path: seq<nat>)
    requires IsPath(lim, p, path)
    ensures Fetch(lim, p, path[|path| - 1]).Ret? ==>
      || MutexOps(lim, p, path) == [Lock(MutexOf(p)), Unlock(MutexOf(p))]
      || (p.RegisterSensor? && path[|path| - 1] == 34 && MutexOps(lim, p, path) == [])
    ensures forall j :: 0 <= j < |path| && (TouchesState(Fetch(lim, p, path[j])) || Fetch(lim, p, path[j]).Print?) ==>
      MutexOps(lim, p, path[..j]) == [Lock(if TouchesState(Fetch(lim, p, path[j])) then StateMutex else LogMutex)]
  {
    hide Flows, PhaseAt, Fetch;
    forall j | 0 <= j < |path| && (TouchesState(Fetch(lim, p, path[j])) || Fetch(lim, p, path[j]).Print?)
      ensures MutexOps(lim, p, path[..j]) == [Lock(if TouchesState(Fetch(lim, p, path[j])) then StateMutex
           else LogMutex)]
    {
      OpsBefore(lim, p, path, j);
      StandsInside(lim, p, path[j]);
    }
    var n := |path| - 1;
    OpsBefore(lim, p, path, n);
    StandsInside(lim, p, path[n]);
    if Fetch(lim, p, path[n]).Ret? {
      assert MutexOps(lim, p, path) == MutexOps(lim, p, path[..n]) + [];
      if PhaseAt(lim, p, path[n]) == Before {
        ReturnsWithoutLock(lim, p, path[n]);
      }
    }
  }

  lemma ReturnsWithoutLock(lim: Limits, p: Proc, pc: nat)
    requires InCode(p, pc) && Fetch(lim, p, pc).Ret? && PhaseAt(lim, p, pc) == Before
    ensures p.RegisterSensor? && pc == 34
  {
  }
}
