/**
 What the functions of `Programs` compute when the memory they read is changed by nobody else: each
 does in its critical section what `Database` says, and ends.
 */
module Sections {
  import opened Records
  import opened Text
  import opened Ring
  import opened Programs
  import D = Database

  // Memory and the abstract state

  ghost predicate TableImage(slots: seq<Sensor>, count: int, table: seq<Sensor>) {
    && count == |table| <= |slots| && slots[..count] == table
    && forall i :: 0 <= i < |slots| ==> (slots[i].occupied <==> i < count)
  }

  ghost predicate Represents(lim: Limits, mem: Memory, db: D.Db) {
    && |mem.sensors| == lim.sensors && |mem.metrics| == lim.metrics && |mem.alerts| == lim.alerts
    && TableImage(mem.sensors, mem.sensorCount, db.table)
    && Image(mem.metrics, mem.metricNext, mem.metricCount, db.metrics)
    && Image(mem.alerts, mem.alertNext, mem.alertCount, db.alerts)
  }

  /** What each function does to the abstract state and what it returns. */
  ghost function Meaning(lim: Limits, p: Proc, db: D.Db): (D.Db, Result)
    requires MutexOf(p) == StateMutex
  {
    match p
    case RegisterSensor(id, kind) => var (db', code) := D.Register(db, lim.sensors, id, kind); (db', Code(code))
    case FindSensor(id) => (db, Copied(D.IndexOf(db.table, id), D.Lookup(db.table, id)))
    case AddMetric(id, v, ts, typeName) => var (db', code) := D.AddMetric(db, id, v, ts, typeName); (db', Code(code))
    case AddAlert(id, v, bound, ts, typeName) => (D.AddAlert(db, id, v, bound, ts, typeName), Code(0))
    case DeactivateSensor(id) => var (db', code) := D.Deactivate(db, id); (db', Code(code))
    case SetAlertLevel(id, level) => var (db', code) := D.SetLevel(db, id, level); (db', Code(code))
    case GetSensorCount => (db, Code(|db.table|))
    case GetActiveSensorCount => (db, Code(D.CountActive(db.table)))
    case GetAlertCount => (db, Code(Min(|db.alerts|, lim.alerts)))
    case GetMetricCount => (db, Code(Min(|db.metrics|, lim.metrics)))
    case ReadSensors(room) => (db, SensorList(db.table[..Min(room, |db.table|)]))
    case ReadAlerts(room) => (db, AlertList(Newest(db.alerts, Min(room, Min(|db.alerts|, lim.alerts)))))
    case ReadMetrics(room) => (db, MetricList(Newest(db.metrics, Min(room, Min(|db.metrics|, lim.metrics)))))
  }

  /** What a reading function returns, entry by entry. */
  ghost predicate Returns(lim: Limits, p: Proc, db: D.Db, out: Result) {
    match p
    case GetSensorCount => out == Code(|db.table|)
    case GetActiveSensorCount => out == Code(|ActiveSlots(db.table)|)
    case GetMetricCount => out.Code? && CountIs(out.code, |db.metrics|, lim.metrics)
    case GetAlertCount => out.Code? && CountIs(out.code, |db.alerts|, lim.alerts)
    case ReadSensors(room) =>
      && out.SensorList? && CountIs(|out.sensorRows|, |db.table|, room)
      && forall i :: 0 <= i < |out.sensorRows| ==> out.sensorRows[i] == db.table[i]
    case ReadMetrics(room) =>
      && out.MetricList? && CountIs(|out.metricRows|, Min(|db.metrics|, lim.metrics), room)
      && forall i :: 0 <= i < |out.metricRows| ==> out.metricRows[i] == db.metrics[|db.metrics| - 1 - i]
    case ReadAlerts(room) =>
      && out.AlertList? && CountIs(|out.alertRows|, Min(|db.alerts|, lim.alerts), room)
      && forall i :: 0 <= i < |out.alertRows| ==> out.alertRows[i] == db.alerts[|db.alerts| - 1 - i]
    case _ => true
  }

  /** The smaller of what there is and what there is room for. */
  predicate CountIs(n: int, there: nat, room: nat) {
    n <= there && n <= room && (n == there || n == room)
  }

  ghost function ActiveSlots(table: seq<Sensor>): set<int> {
    set i | 0 <= i < |table| && table[i].status.Active?
  }

  lemma ActiveSlotsSnoc(table: seq<Sensor>, s: Sensor)
    ensures ActiveSlots(table + [s]) == ActiveSlots(table) + if s.status.Active? then {|table|} else {}
    ensures |table| !in ActiveSlots(table)
  {
    var t := table + [s];
    assert forall i :: 0 <= i < |table| ==> t[i] == table[i];
    assert t[|table|] == s;
  }

  lemma {:induction false} CountActiveIs(table: seq<Sensor>)
    ensures D.CountActive(table) == |ActiveSlots(table)|
    decreases |table|
  {
    if table == [] {
      assert ActiveSlots([]) == {};
    } else {
      var n := |table| - 1;
      CountActiveIs(table[..n]);
      ActiveSlotsSnoc(table[..n], table[n]);
      assert table == table[..n] + [table[n]];
      hide ActiveSlots;
    }
  }

  lemma MeaningReturns(lim: Limits, p: Proc, db: D.Db)
    requires MutexOf(p) == StateMutex
    ensures Returns(lim, p, db, Meaning(lim, p, db).1)
  {
    CountActiveIs(db.table);
  }

  // Every section ends

  ghost predicate MemoryOk(lim: Limits, mem: Memory) {
    && |mem.sensors| == lim.sensors && |mem.metrics| == lim.metrics && |mem.alerts| == lim.alerts
    && 0 <= mem.metricNext < lim.metrics && 0 <= mem.metricCount <= lim.metrics
    && 0 <= mem.alertNext < lim.alerts && 0 <= mem.alertCount <= lim.alerts
  }

  /** The local variables are within bounds where the code needs them to be. */
  ghost predicate RegsOk(lim: Limits, fr: Frame) {
    var pc, r := fr.pc, fr.r;
    && InCode(fr.proc, pc) && 0 <= r.i
    && (Scans(fr.proc) && (pc == 3 || pc == 7) ==> r.i <= lim.sensors)
    && (Scans(fr.proc) && 4 <= pc <= 8 && pc != 7 ==> r.i < lim.sensors)
    && match fr.proc
       case RegisterSensor(_, _) =>
         && (pc == 15 || pc == 19 ==> r.i <= lim.sensors)
         && (pc == 9 || (16 <= pc <= 27 && pc != 19) ==> r.i < lim.sensors)
       case AddMetric(_, _, _, _) =>
         && (pc == 9 ==> r.i < lim.sensors) && ((11 <= pc <= 14) || pc == 16 || pc == 19 ==> 0 <= r.n < lim.metrics)
         && (pc == 18 ==> 0 <= r.n)
       case AddAlert(_, _, _, _, _) =>
         ((3 <= pc <= 7) || pc == 9 || pc == 12 ==> 0 <= r.n < lim.alerts) && (pc == 11 ==> 0 <= r.n)
       case GetActiveSensorCount => (pc == 3 || pc == 8 ==> r.i <= lim.sensors) && (4 <= pc <= 7 ==> r.i < lim.sensors)
       case ReadSensors(_) => (pc == 3 || pc == 9 ==> r.i <= lim.sensors) && (4 <= pc <= 8 ==> r.i < lim.sensors)
       case ReadAlerts(_) => WalkOk(lim.alerts, pc, r)
       case ReadMetrics(_) => WalkOk(lim.metrics, pc, r)
       case _ => true
  }

  ghost predicate WalkOk(cap: nat, pc: nat, r: Regs) {
    && (3 <= pc <= 8 ==> 0 <= r.tally <= cap) && (pc == 4 || pc == 8 ==> r.i <= r.tally)
    && (5 <= pc <= 7 ==> r.i < r.tally) && (pc == 6 ==> 0 <= r.n < cap)
  }

  /** A thread inside a section of the state mutex. */
  ghost predicate Ready(lim: Limits, l: Local) {
    && RegsOk(lim, l.fr) && MemoryOk(lim, l.mem)
    && MutexOf(l.fr.proc) == StateMutex && PhaseAt(lim, l.fr.proc, l.fr.pc) == Inside
  }

  /** A bound on the instructions up to the unlock. */
  ghost function Left(lim: Limits, fr: Frame): nat
    requires RegsOk(lim, fr)
  {
    var pc, i := fr.pc, fr.r.i;
    match fr.proc
    case RegisterSensor(_, _) =>
      if 2 <= pc <= 7 then 80 + 16 * lim.sensors + ScanLeft(lim.sensors, pc, i)
      else if 14 <= pc <= 19 then 60 + ScanLeft(lim.sensors, pc - 12, i) else 50 - pc
    case GetActiveSensorCount =>
      if pc == 2 then 60 + 16 * lim.sensors + 10
      else if 3 <= pc <= 8 then 60 + Round(lim.sensors, i, if pc == 8 then 9 else 9 - pc) else 50 - pc
    case ReadSensors(_) =>
      if pc == 2 then 60 + 16 * lim.sensors + 10
      else if 3 <= pc <= 9 then 60 + Round(lim.sensors, i, if pc == 9 then 9 else 10 - pc) else 50 - pc
    case ReadAlerts(_) => WalkLeft(lim.alerts, pc, fr.r)
    case ReadMetrics(_) => WalkLeft(lim.metrics, pc, fr.r)
    case _ => if Scans(fr.proc) && 2 <= pc <= 7 then 60 + ScanLeft(lim.sensors, pc, i) else 50 - pc
  }

  ghost function Round(bound: nat, i: int, rest: nat): nat
    requires i <= bound
  {
    16 * (bound - i) + rest
  }

  ghost function ScanLeft(bound: nat, pc: nat, i: int): nat
    requires 2 <= pc <= 7 && (pc == 2 || i <= bound)
  {
    if pc == 2 then 16 * bound + 10 else Round(bound, i, if pc == 7 then 9 else 8 - pc)
  }

  ghost function WalkLeft(cap: nat, pc: nat, r: Regs): nat
    requires WalkOk(cap, pc, r) && pc < 50
  {
    if pc == 2 then 80 + 16 * cap
    else if pc == 3 then 70 + 16 * r.tally
    else if 4 <= pc <= 8 then 60 + Round(r.tally, r.i, if pc == 8 then 9 else 9 - pc)
    else 50 - pc
  }

  predicate Ordinary(ins: Instr) {
    !ins.Lock? && !ins.Unlock? && !ins.Ret? && !ins.Print?
  }

  lemma GoFlows(lim: Limits, l: Local)
    requires InBounds(lim, l) && Ordinary(Fetch(lim, l.fr.proc, l.fr.pc))
    ensures var l' := Go(lim, l); l'.fr.proc == l.fr.proc && Flows(lim, l.fr.proc, l.fr.pc, l'.fr.pc)
  {
    hide Fetch;
  }

  /** Stored indices and counts are those of the ring they belong to. */
  ghost predicate StoresFit(lim: Limits, ins: Instr, r: Regs) {
    match ins
    case StoreNext(w, cap) => (w == MetricNext && cap == lim.metrics) || (w == AlertNext && cap == lim.alerts)
    case StoreSucc(w) =>
      w == SensorCount || (w == MetricCount && 0 <= r.n < lim.metrics) || (w == AlertCount && 0 <= r.n < lim.alerts)
    case _ => true
  }

  lemma AppendFits(lim: Limits, l: Local)
    requires RegsOk(lim, l.fr) && MemoryOk(lim, l.mem) && (l.fr.proc.AddMetric? || l.fr.proc.AddAlert?)
    ensures InBounds(lim, l) && StoresFit(lim, Fetch(lim, l.fr.proc, l.fr.pc), l.fr.r)
  {
  }

  lemma OtherFits(lim: Limits, l: Local)
    requires RegsOk(lim, l.fr) && MemoryOk(lim, l.mem) && !l.fr.proc.AddMetric? && !l.fr.proc.AddAlert?
    ensures InBounds(lim, l) && StoresFit(lim, Fetch(lim, l.fr.proc, l.fr.pc), l.fr.r)
  {
  }

  lemma Fits(lim: Limits, l: Local)
    requires RegsOk(lim, l.fr) && MemoryOk(lim, l.mem)
    ensures InBounds(lim, l) && StoresFit(lim, Fetch(lim, l.fr.proc, l.fr.pc), l.fr.r)
  {
    hide RegsOk, MemoryOk, InBounds, StoresFit;
    if l.fr.proc.AddMetric? || l.fr.proc.AddAlert? {
      AppendFits(lim, l);
    } else {
      OtherFits(lim, l);
    }
  }

  lemma MemoryStays(lim: Limits, l: Local)
    requires MemoryOk(lim, l.mem) && InBounds(lim, l) && StoresFit(lim, Fetch(lim, l.fr.proc, l.fr.pc), l.fr.r)
    ensures MemoryOk(lim, Go(lim, l).mem)
  {
    hide Fetch;
  }

  /** How an instruction changes the program counter and the numbers that bounds depend on. */
  ghost predicate Moves(lim: Limits, ins: Instr, fr: Frame, fr': Frame) {
    var r, r' := fr.r, fr'.r;
    && fr'.proc == fr.proc
    && (fr'.pc == if ins.Jump? && Satisfies(r, ins.c) then ins.target else fr.pc + 1)
    && (r'.i == if ins.ResetIndex? then 0 else if ins.NextIndex? then r.i + 1 else r.i)
    && (ins.ReadTally? || ins.Count? || r'.tally == r.tally)
    && (ins.ReadNumber? || r'.n == r.n)
    && (ins == ReadNumber(MetricNext) ==> 0 <= r'.n < lim.metrics)
    && (ins == ReadNumber(AlertNext) ==> 0 <= r'.n < lim.alerts)
    && (ins == ReadNumber(MetricCount) || ins == ReadNumber(AlertCount) ==> 0 <= r'.n)
    && (ins == ReadTally(MetricCount) ==> 0 <= r'.tally <= lim.metrics)
    && (ins == ReadTally(AlertCount) ==> 0 <= r'.tally <= lim.alerts)
  }

  lemma GoMoves(lim: Limits, l: Local)
    requires MemoryOk(lim, l.mem) && InBounds(lim, l) && Ordinary(Fetch(lim, l.fr.proc, l.fr.pc))
    ensures Moves(lim, Fetch(lim, l.fr.proc, l.fr.pc), l.fr, Go(lim, l).fr)
  {
    hide Fetch;
  }

  /** One instruction inside a section keeps the local variables in bounds and comes nearer to the unlock. */
  ghost predicate GoesOn(lim: Limits, fr: Frame, fr': Frame) {
    RegsOk(lim, fr) && RegsOk(lim, fr') && Left(lim, fr') < Left(lim, fr)
  }

  ghost predicate StepsTo(lim: Limits, fr: Frame, fr': Frame) {
    && RegsOk(lim, fr) && PhaseAt(lim, fr.proc, fr.pc) == Inside && Ordinary(Fetch(lim, fr.proc, fr.pc))
    && Moves(lim, Fetch(lim, fr.proc, fr.pc), fr, fr')
  }

  lemma RegisterGoesOn(lim: Limits, fr: Frame, fr': Frame)
    requires StepsTo(lim, fr, fr') && fr.proc.RegisterSensor?
    ensures GoesOn(lim, fr, fr')
  {
  }

  lemma ScanGoesOn(lim: Limits, fr: Frame, fr': Frame)
    requires StepsTo(lim, fr, fr') && (fr.proc.FindSensor? || fr.proc.DeactivateSensor? || fr.proc.SetAlertLevel?)
    ensures GoesOn(lim, fr, fr')
  {
  }

  lemma AppendGoesOn(lim: Limits, fr: Frame, fr': Frame)
    requires StepsTo(lim, fr, fr') && (fr.proc.AddMetric? || fr.proc.AddAlert?)
    ensures GoesOn(lim, fr, fr')
  {
  }

  lemma CountGoesOn(lim: Limits, fr: Frame, fr': Frame)
    requires StepsTo(lim, fr, fr') && (fr.proc.GetActiveSensorCount? || fr.proc.ReadSensors?)
    ensures GoesOn(lim, fr, fr')
  {
  }

  lemma WalkGoesOn(lim: Limits, fr: Frame, fr': Frame)
    requires StepsTo(lim, fr, fr') && (fr.proc.ReadAlerts? || fr.proc.ReadMetrics?)
    ensures GoesOn(lim, fr, fr')
  {
  }

  lemma GetGoesOn(lim: Limits, fr: Frame, fr': Frame)
    requires StepsTo(lim, fr, fr') && (fr.proc.GetSensorCount? || fr.proc.GetAlertCount? || fr.proc.GetMetricCount?)
    ensures GoesOn(lim, fr, fr')
  {
  }

  lemma KeepsGoing(lim: Limits, l: Local)
    requires Ready(lim, l) && !Fetch(lim, l.fr.proc, l.fr.pc).Unlock?
    ensures var l' := Go(lim, l);
            && InBounds(lim, l) && Ordinary(Fetch(lim, l.fr.proc, l.fr.pc))
            && Ready(lim, l') && l'.fr.proc == l.fr.proc && GoesOn(lim, l.fr, l'.fr)
  {
    hide Fetch, Go, InBounds, PhaseAt, Moves, GoesOn, RegsOk, MemoryOk, Flows;
    var fr, fr' := l.fr, Go(lim, l).fr;
    StandsInsideOf(lim, fr);
    Fits(lim, l);
    GoFlows(lim, l);
    FlowKeepsPhase(lim, fr.proc, fr.pc, fr'.pc);
    MemoryStays(lim, l);
    GoMoves(lim, l);
    if fr.proc.RegisterSensor? {
      RegisterGoesOn(lim, fr, fr');
    } else if fr.proc.AddMetric? || fr.proc.AddAlert? {
      AppendGoesOn(lim, fr, fr');
    } else if Scans(fr.proc) {
      ScanGoesOn(lim, fr, fr');
    } else if fr.proc.GetActiveSensorCount? || fr.proc.ReadSensors? {
      CountGoesOn(lim, fr, fr');
    } else if fr.proc.ReadAlerts? || fr.proc.ReadMetrics? {
      WalkGoesOn(lim, fr, fr');
    } else {
      GetGoesOn(lim, fr, fr');
    }
    assert RegsOk(lim, fr') by { assert GoesOn(lim, fr, fr'); }
  }

  lemma StandsInsideOf(lim: Limits, fr: Frame)
    requires RegsOk(lim, fr) && PhaseAt(lim, fr.proc, fr.pc) == Inside && MutexOf(fr.proc) == StateMutex
    ensures var ins := Fetch(lim, fr.proc, fr.pc); InCode(fr.proc, fr.pc) && (ins.Unlock? || Ordinary(ins))
  {
    assert InCode(fr.proc, fr.pc);
    StandsInside(lim, fr.proc, fr.pc);
  }

  /** Runs a section alone, up to its unlock. */
  ghost function Finish(lim: Limits, l: Local): Local
    requires Ready(lim, l)
    decreases Left(lim, l.fr)
  {
    if Fetch(lim, l.fr.proc, l.fr.pc).Unlock? then l
    else
      KeepsGoing(lim, l);
      Finish(lim, Go(lim, l))
  }

  /** Where the section ends when it is run alone from `l`. */
  ghost function End(lim: Limits, l: Local): Option<Local> {
    if Ready(lim, l) then Some(Finish(lim, l)) else None
  }

  lemma FinishGo(lim: Limits, l: Local)
    requires Ready(lim, l) && !Fetch(lim, l.fr.proc, l.fr.pc).Unlock?
    ensures Ready(lim, Go(lim, l)) && Finish(lim, l) == Finish(lim, Go(lim, l))
  {
    KeepsGoing(lim, l);
  }

  // The lookup loop

  function Missing(p: Proc): nat {
    match p
    case RegisterSensor(_, _) => 14
    case AddMetric(_, _, _, _) => 22
    case _ => 11
  }

  lemma FetchScan(lim: Limits, p: Proc, pc: nat)
    requires Scans(p) && 1 <= pc <= 7
    ensures Fetch(lim, p, pc) == ScanCode(lim, p.id, Missing(p), pc)
  {
  }

  /** One round of the loop: the slot looked at matches, or the next one is looked at. */
  lemma ScanRound(lim: Limits, l: Local) returns (l': Local)
    requires Ready(lim, l) && Scans(l.fr.proc) && l.fr.pc == 3 && 0 <= l.fr.r.i < |l.mem.sensors| == lim.sensors
    ensures End(lim, l') == End(lim, l) && l'.mem == l.mem && l'.fr.proc == l.fr.proc
    ensures var s, i := l.mem.sensors[l.fr.r.i], l.fr.r.i;
            if s.occupied && s.id == l.fr.proc.id then l'.fr.pc == 8 && l'.fr.r.i == i && l'.fr.r.sensor == s
            else l'.fr.pc == 3 && l'.fr.r.i == i + 1
  {
    hide Fetch, Finish, Ready;
    var p := l.fr.proc;
    FetchScan(lim, p, 3);
    FetchScan(lim, p, 4);
    FetchScan(lim, p, 5);
    FetchScan(lim, p, 6);
    FetchScan(lim, p, 7);
    FinishGo(lim, l);
    var l1 := Go(lim, l);
    FinishGo(lim, l1);
    var l2 := Go(lim, l1);
    FinishGo(lim, l2);
    l' := Go(lim, l2);
    if l'.fr.pc == 6 {
      FinishGo(lim, l');
      var l4 := Go(lim, l');
      FinishGo(lim, l4);
      l' := Go(lim, l4);
    }
  }

  lemma {:induction false} ScanFinds(lim: Limits, l: Local, table: seq<Sensor>) returns (l': Local)
    requires Ready(lim, l) && Scans(l.fr.proc) && l.fr.pc == 3 && 0 <= l.fr.r.i <= |l.mem.sensors| == lim.sensors
    requires TableImage(l.mem.sensors, l.mem.sensorCount, table)
    requires forall j :: 0 <= j < l.fr.r.i && j < |table| ==> table[j].id != l.fr.proc.id
    ensures End(lim, l') == End(lim, l) && l'.mem == l.mem && l'.fr.proc == l.fr.proc
    ensures var k := D.IndexOf(table, l.fr.proc.id);
            if k < 0 then l'.fr.pc == Missing(l.fr.proc)
            else l'.fr.pc == 8 && l'.fr.r.i == k && l'.fr.r.sensor == table[k] == l.mem.sensors[k]
    decreases lim.sensors - l.fr.r.i
  {
    hide Fetch, Finish, Ready, D.IndexOf;
    var i := l.fr.r.i;
    if i == lim.sensors {
      FetchScan(lim, l.fr.proc, 3);
      FinishGo(lim, l);
      l' := Go(lim, l);
      D.IndexIs(table, l.fr.proc.id, -1);
    } else {
      l' := ScanRound(lim, l);
      var s := l.mem.sensors[i];
      assert i < |table| ==> l.mem.sensors[..|table|][i] == s;
      if l'.fr.pc == 3 {
        l' := ScanFinds(lim, l', table);
      } else {
        D.IndexIs(table, l.fr.proc.id, i);
      }
    }
  }

  // What each section does

  /** At a return of this value. */
  ghost predicate AtReturn(lim: Limits, fr: Frame, out: Result) {
    Fetch(lim, fr.proc, fr.pc).Ret? && ReturnValue(fr.r, Fetch(lim, fr.proc, fr.pc).value) == out
  }

  /** At an unlock with the section's work done and the right value about to be returned. */
  ghost predicate Completes(lim: Limits, e: Local, db: D.Db)
    requires MutexOf(e.fr.proc) == StateMutex
  {
    && Fetch(lim, e.fr.proc, e.fr.pc).Unlock?
    && Represents(lim, e.mem, Meaning(lim, e.fr.proc, db).0)
    && AtReturn(lim, e.fr.(pc := e.fr.pc + 1), Meaning(lim, e.fr.proc, db).1)
  }

  function Inner(p: Proc): Frame {
    Frame(p, 2, ZERO_REGS)
  }

  lemma Entered(lim: Limits, p: Proc, mem: Memory, db: D.Db)
    requires Represents(lim, mem, db) && MutexOf(p) == StateMutex
    ensures Ready(lim, Local(Inner(p), mem))
  {
    assert PhaseAt(lim, p, 2) == Inside;
    assert RegsOk(lim, Inner(p));
  }

  /** However the section of `p` ends, its work is done. */
  ghost predicate EndsWell(lim: Limits, p: Proc, mem: Memory, db: D.Db)
    requires MutexOf(p) == StateMutex
  {
    exists e: Local :: e.fr.proc == p && Completes(lim, e, db) && End(lim, Local(Inner(p), mem)) == Some(e)
  }

  lemma AtUnlock(lim: Limits, l: Local)
    requires Ready(lim, l) && Fetch(lim, l.fr.proc, l.fr.pc).Unlock?
    ensures Finish(lim, l) == l
  {
  }

  lemma EndsAt(lim: Limits, p: Proc, mem: Memory, db: D.Db, l: Local)
    requires Ready(lim, Local(Inner(p), mem)) && Ready(lim, l) && l.fr.proc == p && MutexOf(p) == StateMutex
    requires End(lim, Local(Inner(p), mem)) == End(lim, l) && Completes(lim, l, db)
    ensures EndsWell(lim, p, mem, db)
  {
    AtUnlock(lim, l);
  }

  lemma Looked(lim: Limits, p: Proc, mem: Memory, db: D.Db) returns (l: Local)
    requires Represents(lim, mem, db) && Scans(p)
    ensures Ready(lim, Local(Inner(p), mem)) && End(lim, Local(Inner(p), mem)) == End(lim, l)
    ensures l.mem == mem && l.fr.proc == p
    ensures var k := D.IndexOf(db.table, p.id);
            if k < 0 then l.fr.pc == Missing(p)
            else l.fr.pc == 8 && l.fr.r.i == k && l.fr.r.sensor == db.table[k] == mem.sensors[k]
  {
    Entered(lim, p, mem, db);
    hide Fetch, Finish, Ready, Image, TableImage, D.IndexOf;
    var l0 := Local(Inner(p), mem);
    FetchScan(lim, p, 2);
    FinishGo(lim, l0);
    l := ScanFinds(lim, Go(lim, l0), db.table);
  }

  lemma FindMeans(lim: Limits, id: string, mem: Memory, db: D.Db)
    requires Represents(lim, mem, db)
    ensures EndsWell(lim, FindSensor(id), mem, db)
  {
    hide Finish, Ready, EndsWell, Image, D.IndexOf;
    var l := Looked(lim, FindSensor(id), mem, db);
    if l.fr.pc == 8 {
      FinishGo(lim, l);
      l := Go(lim, l);
    }
    EndsAt(lim, FindSensor(id), mem, db, l);
  }

  lemma TablePut(lim: Limits, mem: Memory, db: D.Db, i: nat, s: Sensor)
    requires Represents(lim, mem, db) && i < |db.table| && s.occupied
    ensures Represents(lim, mem.(sensors := mem.sensors[i := s]), db.(table := db.table[i := s]))
  {
    hide Image;
  }

  lemma ChangeMeans(lim: Limits, p: Proc, mem: Memory, db: D.Db)
    requires Represents(lim, mem, db) && (p.DeactivateSensor? || p.SetAlertLevel?)
    ensures EndsWell(lim, p, mem, db)
  {
    hide Finish, Ready, EndsWell, Image, D.IndexOf;
    var l := Looked(lim, p, mem, db);
    if l.fr.pc == 8 {
      FinishGo(lim, l);
      var i, s := l.fr.r.i, l.fr.r.sensor;
      var s' := if p.DeactivateSensor? then s.(status := Inactive) else s.(level := p.level);
      assert s.occupied;
      hide TableImage;
      l := Go(lim, l);
      TablePut(lim, mem, db, i, s');
    }
    EndsAt(lim, p, mem, db, l);
  }

  // Appending to a ring

  /** The record is written field by field into the slot of the next entry, then index and count move on. */
  lemma AddAlertMeans(lim: Limits, p: Proc, mem: Memory, db: D.Db)
    requires Represents(lim, mem, db) && p.AddAlert?
    ensures EndsWell(lim, p, mem, db)
  {
    hide Finish, Ready, EndsWell, Fetch, Go, TableImage;
    Entered(lim, p, mem, db);
    ImagePush(mem.alerts, mem.alertNext, mem.alertCount, db.alerts, D.AlertEntry(p.id, p.value, p.bound, p.ts,
        p.typeName));
    hide Image;
    var l := AlertWritten(lim, Local(Inner(p), mem));
    AlertCounts(lim, p);
    l := Counted(lim, l, AlertNext, AlertCount, lim.alerts);
    EndsAt(lim, p, mem, db, l);
  }

  lemma AlertStores(lim: Limits, p: Proc)
    requires p.AddAlert?
    ensures Fetch(lim, p, 2) == ReadNumber(AlertNext) && Fetch(lim, p, 3) == StoreAlert(EntryId(p.id))
    ensures Fetch(lim, p, 4) == StoreAlert(EntryValue(p.value)) && Fetch(lim, p, 5) == StoreAlert(EntryBound(p.bound))
    ensures Fetch(lim, p, 6) == StoreAlert(EntryStamp(p.ts)) && Fetch(lim, p, 7) == StoreAlert(EntryType(p.typeName))
  {
  }

  lemma AlertWritten(lim: Limits, l: Local) returns (l': Local)
    requires Ready(lim, l) && l.fr.proc.AddAlert? && l.fr.pc == 2 && 0 <= l.mem.alertNext < |l.mem.alerts|
    ensures End(lim, l') == End(lim, l) && l'.fr.proc == l.fr.proc && l'.fr.pc == 8
    ensures var p := l.fr.proc;
            l'.mem == l.mem.(alerts := l.mem.alerts[l.mem.alertNext := D.AlertEntry(p.id, p.value, p.bound, p.ts,
                p.typeName)])
  {
    hide Finish, Ready, Fetch, Cut;
    AlertStores(lim, l.fr.proc);
    FinishGo(lim, l);
    var l0 := Go(lim, l);
    FinishGo(lim, l0);
    var l1 := Go(lim, l0);
    FinishGo(lim, l1);
    var l2 := Go(lim, l1);
    FinishGo(lim, l2);
    var l3 := Go(lim, l2);
    FinishGo(lim, l3);
    var l4 := Go(lim, l3);
    FinishGo(lim, l4);
    l' := Go(lim, l4);
  }

  /** The instructions that move an index and a count on, from `at`. */
  ghost predicate CountsFrom(lim: Limits, p: Proc, at: nat, next: Cell, count: Cell, cap: nat) {
    && Fetch(lim, p, at) == ReadNumber(next) && Fetch(lim, p, at + 1) == StoreNext(next, cap)
    && Fetch(lim, p, at + 2) == ReadNumber(count) && Fetch(lim, p, at + 3) == Jump(Full(cap), at + 5)
    && Fetch(lim, p, at + 4) == StoreSucc(count) && Fetch(lim, p, at + 5) == Unlock(StateMutex)
    && Fetch(lim, p, at + 6) == Ret(Constant(0))
  }

  lemma AlertCounts(lim: Limits, p: Proc)
    requires p.AddAlert?
    ensures CountsFrom(lim, p, 8, AlertNext, AlertCount, lim.alerts)
  {
  }

  ghost function CountedOn(mem: Memory, next: Cell, count: Cell, cap: nat): Memory
    requires cap > 0
  {
    var mem' := SetCell(mem, next, (GetCell(mem, next) + 1) % cap);
    if GetCell(mem, count) < cap then SetCell(mem', count, GetCell(mem, count) + 1) else mem'
  }

  lemma NumberRead(lim: Limits, l: Local, w: Cell)
    requires Fetch(lim, l.fr.proc, l.fr.pc) == ReadNumber(w)
    ensures Go(lim, l) == Local(Following(l.fr, l.fr.r.(n := GetCell(l.mem, w))), l.mem)
  {
    hide Fetch, GetCell;
  }

  lemma NumberStored(lim: Limits, l: Local, w: Cell)
    requires Fetch(lim, l.fr.proc, l.fr.pc) == StoreSucc(w)
    ensures Go(lim, l) == Local(Following(l.fr, l.fr.r), SetCell(l.mem, w, l.fr.r.n + 1))
  {
    hide Fetch, SetCell;
  }

  lemma IndexStored(lim: Limits, l: Local, w: Cell, cap: nat)
    requires Fetch(lim, l.fr.proc, l.fr.pc) == StoreNext(w, cap) && cap > 0
    ensures Go(lim, l) == Local(Following(l.fr, l.fr.r), SetCell(l.mem, w, (l.fr.r.n + 1) % cap))
  {
    hide Fetch, SetCell;
  }

  lemma JumpGoes(lim: Limits, l: Local, c: Cond, target: nat)
    requires Fetch(lim, l.fr.proc, l.fr.pc) == Jump(c, target)
    ensures Go(lim, l) == l.(fr := l.fr.(pc := if Satisfies(l.fr.r, c) then target else l.fr.pc + 1))
  {
    hide Fetch, Satisfies;
  }

  lemma Counted(lim: Limits, l: Local, next: Cell, count: Cell, cap: nat) returns (l': Local)
    requires Ready(lim, l) && CountsFrom(lim, l.fr.proc, l.fr.pc, next, count, cap) && cap > 0 && next != count
    ensures End(lim, l') == End(lim, l) && l'.fr.proc == l.fr.proc
    ensures Fetch(lim, l'.fr.proc, l'.fr.pc).Unlock? && AtReturn(lim, l'.fr.(pc := l'.fr.pc + 1), Code(0))
    ensures l'.mem == CountedOn(l.mem, next, count, cap)
  {
    hide Finish, Ready, Fetch, Go;
    FinishGo(lim, l);
    NumberRead(lim, l, next);
    l' := Go(lim, l);
    FinishGo(lim, l');
    IndexStored(lim, l', next, cap);
    l' := Go(lim, l');
    FinishGo(lim, l');
    NumberRead(lim, l', count);
    l' := Go(lim, l');
    FinishGo(lim, l');
    JumpGoes(lim, l', Full(cap), l.fr.pc + 5);
    l' := Go(lim, l');
    if l'.fr.pc == l.fr.pc + 4 {
      FinishGo(lim, l');
      NumberStored(lim, l', count);
      l' := Go(lim, l');
    }
  }

  lemma AddMetricMeans(lim: Limits, p: Proc, mem: Memory, db: D.Db)
    requires Represents(lim, mem, db) && p.AddMetric?
    ensures EndsWell(lim, p, mem, db)
  {
    hide Finish, Ready, EndsWell, Fetch, Go, Completes, Represents, D.IndexOf;
    var l := Looked(lim, p, mem, db);
    if l.fr.pc == 8 {
      l := MetricFound(lim, l, db);
    } else {
      MetricMissed(lim, l, db);
    }
    EndsAt(lim, p, mem, db, l);
  }

  lemma MetricMissed(lim: Limits, l: Local, db: D.Db)
    requires Represents(lim, l.mem, db) && l.fr.proc.AddMetric? && l.fr.pc == 22
         && D.IndexOf(db.table, l.fr.proc.id) < 0
    ensures Completes(lim, l, db) && Fetch(lim, l.fr.proc, l.fr.pc).Unlock?
  {
    hide Represents;
  }

  lemma MetricFound(lim: Limits, l: Local, db: D.Db) returns (l': Local)
    requires Ready(lim, l) && Represents(lim, l.mem, db) && l.fr.proc.AddMetric? && l.fr.pc == 8
    requires l.fr.r.i == D.IndexOf(db.table, l.fr.proc.id) >= 0
    ensures End(lim, l') == End(lim, l) && l'.fr.proc == l.fr.proc
    ensures Completes(lim, l', db) && Fetch(lim, l'.fr.proc, l'.fr.pc).Unlock?
  {
    var p, i := l.fr.proc, l.fr.r.i;
    assert |l.mem.sensors| == lim.sensors;
    hide Finish, Ready, Fetch, Go, Represents, AtReturn, D.IndexOf, D.MetricRecord, CountedOn, Cut;
    MetricAdded(lim, p, l.mem, db, i);
    l' := SensorWritten(lim, l);
    l' := MetricWritten(lim, l');
    MetricCounts(lim, p);
    l' := Counted(lim, l', MetricNext, MetricCount, lim.metrics);
  }

  /** The memory that `state_add_metric` leaves after a match stands for the new state. */
  lemma MetricAdded(lim: Limits, p: Proc, mem: Memory, db: D.Db, i: nat)
    requires Represents(lim, mem, db) && p.AddMetric? && D.IndexOf(db.table, p.id) == i && |mem.sensors| == lim.sensors
    ensures i < |mem.sensors| && 0 <= mem.metricNext < |mem.metrics| == lim.metrics
    ensures var s := mem.sensors[i].(lastValue := p.value, lastTimestamp := Cut(p.ts, MAX_TIMESTAMP_LEN));
            var x := D.MetricRecord(p.id, p.value, p.ts, p.typeName);
            var mem' := mem.(sensors := mem.sensors[i := s], metrics := mem.metrics[mem.metricNext := x]);
            Represents(lim, CountedOn(mem', MetricNext, MetricCount, lim.metrics), D.AddMetric(db, p.id, p.value,
                p.ts, p.typeName).0)
  {
    hide D.IndexOf, Cut;
    assert mem.sensors[i].occupied && db.table[i] == mem.sensors[i] by {
      assert mem.sensors[..|db.table|][i] == mem.sensors[i];
    }
    var s := mem.sensors[i].(lastValue := p.value, lastTimestamp := Cut(p.ts, MAX_TIMESTAMP_LEN));
    var x := D.MetricRecord(p.id, p.value, p.ts, p.typeName);
    TablePut(lim, mem, db, i, s);
    ImagePush(mem.metrics, mem.metricNext, mem.metricCount, db.metrics, x);
    hide TableImage, Image;
  }

  lemma SensorWritten(lim: Limits, l: Local) returns (l': Local)
    requires Ready(lim, l) && l.fr.proc.AddMetric? && l.fr.pc == 8 && 0 <= l.fr.r.i < |l.mem.sensors|
    ensures End(lim, l') == End(lim, l) && l'.fr.proc == l.fr.proc && l'.fr.pc == 10
    ensures var p, i := l.fr.proc, l.fr.r.i;
            l'.mem == l.mem.(sensors := l.mem.sensors[i := l.mem.sensors[i].(lastValue := p.value,
                lastTimestamp := Cut(p.ts, MAX_TIMESTAMP_LEN))])
  {
    hide Finish, Ready, Cut;
    FinishGo(lim, l);
    var l1 := Go(lim, l);
    FinishGo(lim, l1);
    l' := Go(lim, l1);
  }

  lemma MetricStores(lim: Limits, p: Proc)
    requires p.AddMetric?
    ensures Fetch(lim, p, 10) == ReadNumber(MetricNext) && Fetch(lim, p, 11) == StoreMetric(EntryId(p.id))
    ensures Fetch(lim, p, 12) == StoreMetric(EntryValue(p.value)) && Fetch(lim, p, 13) == StoreMetric(EntryStamp(p.ts))
    ensures Fetch(lim, p, 14) == StoreMetric(EntryType(p.typeName))
  {
  }

  lemma MetricWritten(lim: Limits, l: Local) returns (l': Local)
    requires Ready(lim, l) && l.fr.proc.AddMetric? && l.fr.pc == 10 && 0 <= l.mem.metricNext < |l.mem.metrics|
    ensures End(lim, l') == End(lim, l) && l'.fr.proc == l.fr.proc && l'.fr.pc == 15
    ensures var p := l.fr.proc;
            l'.mem == l.mem.(metrics := l.mem.metrics[l.mem.metricNext := D.MetricRecord(p.id, p.value, p.ts,
                p.typeName)])
  {
    hide Finish, Ready, Fetch, Cut;
    MetricStores(lim, l.fr.proc);
    FinishGo(lim, l);
    var l0 := Go(lim, l);
    FinishGo(lim, l0);
    var l1 := Go(lim, l0);
    FinishGo(lim, l1);
    var l2 := Go(lim, l1);
    FinishGo(lim, l2);
    var l3 := Go(lim, l2);
    FinishGo(lim, l3);
    l' := Go(lim, l3);
  }

  lemma MetricCounts(lim: Limits, p: Proc)
    requires p.AddMetric?
    ensures CountsFrom(lim, p, 15, MetricNext, MetricCount, lim.metrics)
  {
  }

  // Registering

  lemma RegisterCodes(lim: Limits, p: Proc)
    requires p.RegisterSensor?
    ensures Fetch(lim, p, 8) == Jump(StillActive, 12) && Fetch(lim, p, 9) == StoreSensor(StatusTo(Active))
    ensures Fetch(lim, p, 10) == Unlock(StateMutex) && Fetch(lim, p, 11) == Ret(Constant(0))
    ensures Fetch(lim, p, 12) == Unlock(StateMutex) && Fetch(lim, p, 13) == Ret(Constant(-2))
    ensures Fetch(lim, p, 14) == ResetIndex && Fetch(lim, p, 15) == Jump(PastEnd(lim.sensors), 32)
    ensures Fetch(lim, p, 16) == ReadSensor && Fetch(lim, p, 17) == Jump(FreeSlot, 20)
    ensures Fetch(lim, p, 18) == NextIndex && Fetch(lim, p, 19) == Jump(Always, 15)
    ensures Fetch(lim, p, 32) == Unlock(StateMutex) && Fetch(lim, p, 33) == Ret(Constant(-1))
  {
  }

  lemma FillCodes(lim: Limits, p: Proc)
    requires p.RegisterSensor?
    ensures Fetch(lim, p, 20) == StoreSensor(Zeroed) && Fetch(lim, p, 21) == StoreSensor(IdTo(p.id))
    ensures Fetch(lim, p, 22) == StoreSensor(KindTo(p.kind)) && Fetch(lim, p, 23) == StoreSensor(StatusTo(Active))
    ensures Fetch(lim, p, 24) == StoreSensor(LevelTo(Normal)) && Fetch(lim, p, 25) == StoreSensor(ValueTo(Fin(0.0)))
    ensures Fetch(lim, p, 26) == StoreSensor(Occupied) && Fetch(lim, p, 27) == StoreSensor(StampTo("N/A"))
    ensures Fetch(lim, p, 28) == ReadNumber(SensorCount) && Fetch(lim, p, 29) == StoreSucc(SensorCount)
    ensures Fetch(lim, p, 30) == Unlock(StateMutex) && Fetch(lim, p, 31) == Ret(Constant(0))
  {
  }

  /** The search for a free slot stops at the first one, or at the end of a full table. */
  lemma {:induction false} FreeFound(lim: Limits, l: Local, table: seq<Sensor>) returns (l': Local)
    requires Ready(lim, l) && l.fr.proc.RegisterSensor? && l.fr.pc == 15 && 0 <= l.fr.r.i <= |table|
    requires |l.mem.sensors| == lim.sensors && TableImage(l.mem.sensors, l.mem.sensorCount, table)
    ensures End(lim, l') == End(lim, l) && l'.mem == l.mem && l'.fr.proc == l.fr.proc
    ensures if |table| < lim.sensors then l'.fr.pc == 20 && l'.fr.r.i == |table| else l'.fr.pc == 32
    decreases |table| - l.fr.r.i
  {
    hide Fetch, Finish, Ready;
    RegisterCodes(lim, l.fr.proc);
    FinishGo(lim, l);
    l' := Go(lim, l);
    if l.fr.r.i < lim.sensors {
      FinishGo(lim, l');
      var l2 := Go(lim, l');
      FinishGo(lim, l2);
      l' := Go(lim, l2);
      if l.fr.r.i < |table| {
        FinishGo(lim, l');
        var l4 := Go(lim, l');
        FinishGo(lim, l4);
        l' := FreeFound(lim, Go(lim, l4), table);
      }
    }
  }

  /** The fields of a new sensor are written one by one, and then it is counted. */
  lemma SlotFilled(lim: Limits, l: Local) returns (l': Local)
    requires Ready(lim, l) && l.fr.proc.RegisterSensor? && l.fr.pc == 20 && 0 <= l.fr.r.i < |l.mem.sensors|
    ensures End(lim, l') == End(lim, l) && l'.fr.proc == l.fr.proc && l'.fr.pc == 30
    ensures l'.mem == l.mem.(sensors := l.mem.sensors[l.fr.r.i := Fresh(Cut(l.fr.proc.id, MAX_ID_LEN), l.fr.proc.kind)],
                             sensorCount := l.mem.sensorCount + 1)
  {
    hide Finish, Ready, Fetch;
    FillCodes(lim, l.fr.proc);
    assert Cut("N/A", MAX_TIMESTAMP_LEN) == "N/A";
    hide Cut;
    FinishGo(lim, l);
    var l1 := Go(lim, l);
    FinishGo(lim, l1);
    var l2 := Go(lim, l1);
    FinishGo(lim, l2);
    var l3 := Go(lim, l2);
    FinishGo(lim, l3);
    var l4 := Go(lim, l3);
    FinishGo(lim, l4);
    l' := SlotCompleted(lim, Go(lim, l4));
  }

  lemma SlotCompleted(lim: Limits, l: Local) returns (l': Local)
    requires Ready(lim, l) && l.fr.proc.RegisterSensor? && l.fr.pc == 25 && 0 <= l.fr.r.i < |l.mem.sensors|
    ensures End(lim, l') == End(lim, l) && l'.fr.proc == l.fr.proc && l'.fr.pc == 30
    ensures var i := l.fr.r.i;
            l'.mem == l.mem.(sensors := l.mem.sensors[i := l.mem.sensors[i].(lastValue := Fin(0.0),
                lastTimestamp := "N/A", occupied := true)],
                             sensorCount := l.mem.sensorCount + 1)
  {
    hide Finish, Ready, Fetch;
    FillCodes(lim, l.fr.proc);
    assert Cut("N/A", MAX_TIMESTAMP_LEN) == "N/A";
    hide Cut;
    FinishGo(lim, l);
    var l1 := Go(lim, l);
    FinishGo(lim, l1);
    var l2 := Go(lim, l1);
    FinishGo(lim, l2);
    var l3 := Go(lim, l2);
    FinishGo(lim, l3);
    var l4 := Go(lim, l3);
    FinishGo(lim, l4);
    l' := Go(lim, l4);
  }

  lemma TableAppend(lim: Limits, mem: Memory, db: D.Db, s: Sensor)
    requires Represents(lim, mem, db) && |db.table| < lim.sensors && s.occupied
    ensures Represents(lim, mem.(sensors := mem.sensors[|db.table| := s], sensorCount := mem.sensorCount + 1),
                       db.(table := db.table + [s]))
  {
    hide Image;
    var n := |db.table|;
    assert mem.sensors[n := s][..n + 1] == mem.sensors[..n] + [s];
  }

  lemma RegisterMeans(lim: Limits, p: Proc, mem: Memory, db: D.Db)
    requires Represents(lim, mem, db) && p.RegisterSensor? && p.kind != Invalid
    ensures EndsWell(lim, p, mem, db)
  {
    hide Finish, Ready, EndsWell, Fetch, Image, D.IndexOf;
    var l := Looked(lim, p, mem, db);
    RegisterCodes(lim, p);
    FinishGo(lim, l);
    if l.fr.pc == 8 {
      l := KnownRegistered(lim, l, db);
    } else {
      l := FreeFound(lim, Go(lim, l), db.table);
      hide TableImage;
      if l.fr.pc == 20 {
        l := SlotFilled(lim, l);
        FillCodes(lim, p);
        TableAppend(lim, mem, db, Fresh(Cut(p.id, MAX_ID_LEN), p.kind));
      }
    }
    EndsAt(lim, p, mem, db, l);
  }

  lemma KnownRegistered(lim: Limits, l: Local, db: D.Db) returns (l': Local)
    requires Ready(lim, l) && Represents(lim, l.mem, db) && l.fr.proc.RegisterSensor? && l.fr.proc.kind != Invalid
    requires l.fr.pc == 8 && l.fr.r.i == D.IndexOf(db.table, l.fr.proc.id) >= 0
    requires l.fr.r.sensor == db.table[l.fr.r.i] == l.mem.sensors[l.fr.r.i]
    ensures End(lim, l') == End(lim, l) && l'.fr.proc == l.fr.proc && Completes(lim, l', db)
  {
    hide Finish, Ready, Fetch, Image, D.IndexOf;
    RegisterCodes(lim, l.fr.proc);
    FinishGo(lim, l);
    l' := Go(lim, l);
    assert l.fr.r.sensor.occupied;
    hide TableImage;
    if l'.fr.pc == 9 {
      FinishGo(lim, l');
      l' := Go(lim, l');
      TablePut(lim, l.mem, db, l.fr.r.i, l.fr.r.sensor.(status := Active));
    }
  }

  // Reading

  lemma GetMeans(lim: Limits, p: Proc, mem: Memory, db: D.Db)
    requires Represents(lim, mem, db) && (p.GetSensorCount? || p.GetAlertCount? || p.GetMetricCount?)
    ensures EndsWell(lim, p, mem, db)
  {
    Entered(lim, p, mem, db);
    hide Finish, Ready, EndsWell;
    var l := Local(Inner(p), mem);
    FinishGo(lim, l);
    EndsAt(lim, p, mem, db, Go(lim, l));
  }

  lemma ActiveCodes(lim: Limits, p: Proc)
    requires p.GetActiveSensorCount?
    ensures Fetch(lim, p, 2) == ResetIndex && Fetch(lim, p, 3) == Jump(PastEnd(lim.sensors), 9)
    ensures Fetch(lim, p, 4) == ReadSensor && Fetch(lim, p, 5) == Jump(NotActive, 7)
    ensures Fetch(lim, p, 6) == Count && Fetch(lim, p, 7) == NextIndex && Fetch(lim, p, 8) == Jump(Always, 3)
    ensures Fetch(lim, p, 9) == Unlock(StateMutex) && Fetch(lim, p, 10) == Ret(Tally)
  {
  }

  lemma ActiveRound(lim: Limits, l: Local) returns (l': Local)
    requires Ready(lim, l) && l.fr.proc.GetActiveSensorCount? && l.fr.pc == 3
    requires 0 <= l.fr.r.i < |l.mem.sensors| == lim.sensors
    ensures End(lim, l') == End(lim, l) && l'.mem == l.mem
    ensures l'.fr.proc == l.fr.proc && l'.fr.pc == 3 && l'.fr.r.i == l.fr.r.i + 1
    ensures var s := l.mem.sensors[l.fr.r.i];
            l'.fr.r.tally == l.fr.r.tally + if s.occupied && s.status == Active then 1 else 0
  {
    hide Finish, Ready, Fetch;
    ActiveCodes(lim, l.fr.proc);
    FinishGo(lim, l);
    var l1 := Go(lim, l);
    FinishGo(lim, l1);
    var l2 := Go(lim, l1);
    FinishGo(lim, l2);
    l' := Go(lim, l2);
    if l'.fr.pc == 6 {
      FinishGo(lim, l');
      l' := Go(lim, l');
    }
    FinishGo(lim, l');
    var l5 := Go(lim, l');
    FinishGo(lim, l5);
    l' := Go(lim, l5);
  }

  lemma {:induction false} ActiveCounted(lim: Limits, l: Local, table: seq<Sensor>) returns (l': Local)
    requires Ready(lim, l) && l.fr.proc.GetActiveSensorCount? && l.fr.pc == 3
        && 0 <= l.fr.r.i <= |l.mem.sensors| == lim.sensors
    requires TableImage(l.mem.sensors, l.mem.sensorCount, table)
    requires l.fr.r.tally == D.CountActive(table[..Min(l.fr.r.i, |table|)])
    ensures End(lim, l') == End(lim, l) && l'.mem == l.mem
    ensures l'.fr.proc == l.fr.proc && l'.fr.pc == 9 && l'.fr.r.tally == D.CountActive(table)
    decreases lim.sensors - l.fr.r.i
  {
    hide Finish, Ready, Fetch;
    var i := l.fr.r.i;
    if i == lim.sensors {
      ActiveCodes(lim, l.fr.proc);
      FinishGo(lim, l);
      l' := Go(lim, l);
      assert table[..|table|] == table;
    } else {
      hide Go;
      l' := ActiveRound(lim, l);
      if i < |table| {
        assert l.mem.sensors[i] == l.mem.sensors[..|table|][i];
        assert table[..i + 1][..i] == table[..i];
      }
      l' := ActiveCounted(lim, l', table);
    }
  }

  lemma ActiveMeans(lim: Limits, p: Proc, mem: Memory, db: D.Db)
    requires Represents(lim, mem, db) && p.GetActiveSensorCount?
    ensures EndsWell(lim, p, mem, db)
  {
    Entered(lim, p, mem, db);
    hide Finish, Ready, EndsWell, Fetch, Image, TableImage;
    ActiveCodes(lim, p);
    var l := Local(Inner(p), mem);
    FinishGo(lim, l);
    assert db.table[..0] == [];
    l := ActiveCounted(lim, Go(lim, l), db.table);
    EndsAt(lim, p, mem, db, l);
  }

  lemma RowCodes(lim: Limits, p: Proc)
    requires p.ReadSensors?
    ensures Fetch(lim, p, 2) == ResetIndex && Fetch(lim, p, 3) == Jump(PastEnd(lim.sensors), 10)
    ensures Fetch(lim, p, 4) == Jump(RowsFull(p.room), 10) && Fetch(lim, p, 5) == ReadSensor
    ensures Fetch(lim, p, 6) == Jump(FreeSlot, 8) && Fetch(lim, p, 7) == KeepRow && Fetch(lim, p, 8) == NextIndex
    ensures Fetch(lim, p, 9) == Jump(Always, 3) && Fetch(lim, p, 10) == Unlock(StateMutex)
    ensures Fetch(lim, p, 11) == Ret(SensorRows)
  {
  }

  lemma RowRound(lim: Limits, l: Local) returns (l': Local)
    requires Ready(lim, l) && l.fr.proc.ReadSensors? && l.fr.pc == 3
    requires 0 <= l.fr.r.i < |l.mem.sensors| == lim.sensors
    ensures End(lim, l') == End(lim, l) && l'.mem == l.mem && l'.fr.proc == l.fr.proc
    ensures if |l.fr.r.sensors| >= l.fr.proc.room then l'.fr.pc == 10 && l'.fr.r == l.fr.r
            else
              var s := l.mem.sensors[l.fr.r.i];
              && l'.fr.pc == 3 && l'.fr.r.i == l.fr.r.i + 1
              && l'.fr.r.sensors == l.fr.r.sensors + if s.occupied then [s] else []
  {
    hide Finish, Ready, Fetch;
    RowCodes(lim, l.fr.proc);
    FinishGo(lim, l);
    var l1 := Go(lim, l);
    FinishGo(lim, l1);
    JumpGoes(lim, l1, RowsFull(l.fr.proc.room), 10);
    l' := Go(lim, l1);
    if l'.fr.pc == 5 {
      FinishGo(lim, l');
      var l3 := Go(lim, l');
      FinishGo(lim, l3);
      JumpGoes(lim, l3, FreeSlot, 8);
      l' := Go(lim, l3);
      if l'.fr.pc == 7 {
        FinishGo(lim, l');
        l' := Go(lim, l');
      }
      FinishGo(lim, l');
      var l6 := Go(lim, l');
      FinishGo(lim, l6);
      JumpGoes(lim, l6, Always, 3);
      l' := Go(lim, l6);
    }
  }

  lemma {:induction false} RowsKept(lim: Limits, l: Local, table: seq<Sensor>) returns (l': Local)
    requires Ready(lim, l) && l.fr.proc.ReadSensors? && l.fr.pc == 3 && 0 <= l.fr.r.i <= |l.mem.sensors| == lim.sensors
    requires TableImage(l.mem.sensors, l.mem.sensorCount, table)
    requires l.fr.r.sensors == table[..Min(l.fr.r.i, |table|)] && |l.fr.r.sensors| <= l.fr.proc.room
    ensures End(lim, l') == End(lim, l) && l'.mem == l.mem
    ensures l'.fr.proc == l.fr.proc && l'.fr.pc == 10 && l'.fr.r.sensors == table[..Min(l.fr.proc.room, |table|)]
    decreases lim.sensors - l.fr.r.i
  {
    hide Finish, Ready, Fetch;
    var i := l.fr.r.i;
    if i == lim.sensors {
      RowCodes(lim, l.fr.proc);
      FinishGo(lim, l);
      JumpGoes(lim, l, PastEnd(lim.sensors), 10);
      l' := Go(lim, l);
    } else {
      l' := RowRound(lim, l);
      if l'.fr.pc == 3 {
        if i < |table| {
          assert l.mem.sensors[i] == l.mem.sensors[..|table|][i];
          assert table[..i + 1] == table[..i] + [table[i]];
        }
        l' := RowsKept(lim, l', table);
      }
    }
  }

  lemma RowsMean(lim: Limits, p: Proc, mem: Memory, db: D.Db)
    requires Represents(lim, mem, db) && p.ReadSensors?
    ensures EndsWell(lim, p, mem, db)
  {
    Entered(lim, p, mem, db);
    hide Finish, Ready, EndsWell, Fetch, Image, TableImage;
    RowCodes(lim, p);
    var l := Local(Inner(p), mem);
    FinishGo(lim, l);
    assert db.table[..0] == [];
    l := RowsKept(lim, Go(lim, l), db.table);
    EndsAt(lim, p, mem, db, l);
  }

  ghost predicate Walks(lim: Limits, p: Proc, next: Cell, count: Cell, read: Instr, rows: Returned, room: nat) {
    && Fetch(lim, p, 2) == ReadTally(count) && Fetch(lim, p, 3) == ResetIndex
    && Fetch(lim, p, 4) == Jump(Through(room), 9) && Fetch(lim, p, 5) == ReadNumber(next)
    && Fetch(lim, p, 6) == read && Fetch(lim, p, 7) == NextIndex && Fetch(lim, p, 8) == Jump(Always, 4)
    && Fetch(lim, p, 9) == Unlock(StateMutex) && Fetch(lim, p, 10) == Ret(rows)
  }

  lemma WalkCodes(lim: Limits, p: Proc)
    ensures p.ReadMetrics? ==> Walks(lim, p, MetricNext, MetricCount, ReadMetric, MetricRows, p.room)
    ensures p.ReadAlerts? ==> Walks(lim, p, AlertNext, AlertCount, ReadAlert, AlertRows, p.room)
  {
  }

  /** The loop index moves on and the loop starts again. */
  lemma WalkOn(lim: Limits, l: Local) returns (l': Local)
    requires Ready(lim, l) && l.fr.pc == 7
    requires Fetch(lim, l.fr.proc, 7) == NextIndex && Fetch(lim, l.fr.proc, 8) == Jump(Always, 4)
    ensures End(lim, l') == End(lim, l)
    ensures l' == Local(Frame(l.fr.proc, 4, l.fr.r.(i := l.fr.r.i + 1)), l.mem)
  {
    hide Finish, Ready, Fetch;
    FinishGo(lim, l);
    l' := Go(lim, l);
    FinishGo(lim, l');
    JumpGoes(lim, l', Always, 4);
    l' := Go(lim, l');
  }

  lemma WalkStarted(lim: Limits, l: Local, next: Cell, count: Cell, read: Instr, rows: Returned,
      room: nat) returns (l': Local)
    requires Ready(lim, l) && l.fr.pc == 2 && Walks(lim, l.fr.proc, next, count, read, rows, room)
    ensures End(lim, l') == End(lim, l)
    ensures l' == Local(Frame(l.fr.proc, 4, l.fr.r.(i := 0, tally := GetCell(l.mem, count))), l.mem)
  {
    hide Finish, Ready, Fetch, GetCell;
    FinishGo(lim, l);
    l' := Go(lim, l);
    FinishGo(lim, l');
    l' := Go(lim, l');
  }

  lemma MetricCopied(lim: Limits, l: Local, log: seq<Metric>) returns (l': Local)
    requires Ready(lim, l) && l.fr.pc == 6 && Fetch(lim, l.fr.proc, 6) == ReadMetric
    requires Image(l.mem.metrics, l.mem.metricNext, l.mem.metricCount, log)
    requires l.fr.r.n == l.mem.metricNext && 0 <= l.fr.r.i < l.mem.metricCount
    ensures End(lim, l') == End(lim, l)
    ensures l' == Local(Following(l.fr, l.fr.r.(metrics := l.fr.r.metrics + [log[|log| - 1 - l.fr.r.i]])), l.mem)
  {
    hide Finish, Ready, Fetch, BackIndex;
    ImageBack(l.mem.metrics, l.fr.r.n, l.mem.metricCount, log, l.fr.r.i);
    FinishGo(lim, l);
    l' := Go(lim, l);
  }

  lemma {:induction false} MetricsWalked(lim: Limits, l: Local, log: seq<Metric>) returns (l': Local)
    requires Ready(lim, l) && l.fr.proc.ReadMetrics? && l.fr.pc == 4
    requires Image(l.mem.metrics, l.mem.metricNext, l.mem.metricCount, log)
    requires l.fr.r.tally == l.mem.metricCount && 0 <= l.fr.r.i <= Min(l.fr.proc.room, l.fr.r.tally)
    requires l.fr.r.metrics == Newest(log, l.fr.r.i)
    ensures End(lim, l') == End(lim, l) && l'.mem == l.mem && l'.fr.proc == l.fr.proc
    ensures l'.fr.pc == 9 && l'.fr.r.metrics == Newest(log, Min(l.fr.proc.room, l.mem.metricCount))
    decreases l.fr.r.tally - l.fr.r.i
  {
    hide Finish, Ready, Fetch, Go;
    WalkCodes(lim, l.fr.proc);
    var i := l.fr.r.i;
    FinishGo(lim, l);
    JumpGoes(lim, l, Through(l.fr.proc.room), 9);
    l' := Go(lim, l);
    if l'.fr.pc == 5 {
      FinishGo(lim, l');
      NumberRead(lim, l', MetricNext);
      l' := Go(lim, l');
      l' := MetricCopied(lim, l', log);
      l' := WalkOn(lim, l');
      assert Newest(log, i + 1) == Newest(log, i) + [log[|log| - 1 - i]];
      l' := MetricsWalked(lim, l', log);
    }
  }

  lemma MetricsMean(lim: Limits, p: Proc, mem: Memory, db: D.Db)
    requires Represents(lim, mem, db) && p.ReadMetrics?
    ensures EndsWell(lim, p, mem, db)
  {
    Entered(lim, p, mem, db);
    WalkCodes(lim, p);
    hide Finish, Ready, EndsWell, Fetch, Go, TableImage;
    var l := WalkStarted(lim, Local(Inner(p), mem), MetricNext, MetricCount, ReadMetric, MetricRows, p.room);
    assert Newest(db.metrics, 0) == [];
    l := MetricsWalked(lim, l, db.metrics);
    hide Image;
    EndsAt(lim, p, mem, db, l);
  }

  lemma AlertCopied(lim: Limits, l: Local, log: seq<AlertRecord>) returns (l': Local)
    requires Ready(lim, l) && l.fr.pc == 6 && Fetch(lim, l.fr.proc, 6) == ReadAlert
    requires Image(l.mem.alerts, l.mem.alertNext, l.mem.alertCount, log)
    requires l.fr.r.n == l.mem.alertNext && 0 <= l.fr.r.i < l.mem.alertCount
    ensures End(lim, l') == End(lim, l)
    ensures l' == Local(Following(l.fr, l.fr.r.(alerts := l.fr.r.alerts + [log[|log| - 1 - l.fr.r.i]])), l.mem)
  {
    hide Finish, Ready, Fetch, BackIndex;
    ImageBack(l.mem.alerts, l.fr.r.n, l.mem.alertCount, log, l.fr.r.i);
    FinishGo(lim, l);
    l' := Go(lim, l);
  }

  lemma {:induction false} AlertsWalked(lim: Limits, l: Local, log: seq<AlertRecord>) returns (l': Local)
    requires Ready(lim, l) && l.fr.proc.ReadAlerts? && l.fr.pc == 4
    requires Image(l.mem.alerts, l.mem.alertNext, l.mem.alertCount, log)
    requires l.fr.r.tally == l.mem.alertCount && 0 <= l.fr.r.i <= Min(l.fr.proc.room, l.fr.r.tally)
    requires l.fr.r.alerts == Newest(log, l.fr.r.i)
    ensures End(lim, l') == End(lim, l) && l'.mem == l.mem && l'.fr.proc == l.fr.proc
    ensures l'.fr.pc == 9 && l'.fr.r.alerts == Newest(log, Min(l.fr.proc.room, l.mem.alertCount))
    decreases l.fr.r.tally - l.fr.r.i
  {
    hide Finish, Ready, Fetch, Go;
    WalkCodes(lim, l.fr.proc);
    var i := l.fr.r.i;
    FinishGo(lim, l);
    JumpGoes(lim, l, Through(l.fr.proc.room), 9);
    l' := Go(lim, l);
    if l'.fr.pc == 5 {
      FinishGo(lim, l');
      NumberRead(lim, l', AlertNext);
      l' := Go(lim, l');
      l' := AlertCopied(lim, l', log);
      l' := WalkOn(lim, l');
      assert Newest(log, i + 1) == Newest(log, i) + [log[|log| - 1 - i]];
      l' := AlertsWalked(lim, l', log);
    }
  }

  lemma AlertsMean(lim: Limits, p: Proc, mem: Memory, db: D.Db)
    requires Represents(lim, mem, db) && p.ReadAlerts?
    ensures EndsWell(lim, p, mem, db)
  {
    Entered(lim, p, mem, db);
    WalkCodes(lim, p);
    hide Finish, Ready, EndsWell, Fetch, Go, TableImage;
    var l := WalkStarted(lim, Local(Inner(p), mem), AlertNext, AlertCount, ReadAlert, AlertRows, p.room);
    assert Newest(db.alerts, 0) == [];
    l := AlertsWalked(lim, l, db.alerts);
    hide Image;
    EndsAt(lim, p, mem, db, l);
  }

  /** Run without interference, each section takes a memory that stands for a state to what it means there. */
  lemma SectionMeans(lim: Limits, p: Proc, mem: Memory, db: D.Db)
    requires Represents(lim, mem, db) && MutexOf(p) == StateMutex && (p.RegisterSensor? ==> p.kind != Invalid)
    ensures var l := Local(Inner(p), mem);
            Ready(lim, l) && Finish(lim, l).fr.proc == p && Completes(lim, Finish(lim, l), db)
  {
    Entered(lim, p, mem, db);
    hide Finish, Ready, Completes, Represents;
    match p {
    case RegisterSensor(_, _) => RegisterMeans(lim, p, mem, db);
    case FindSensor(id) => FindMeans(lim, id, mem, db);
    case AddMetric(_, _, _, _) => AddMetricMeans(lim, p, mem, db);
    case AddAlert(_, _, _, _, _) => AddAlertMeans(lim, p, mem, db);
    case DeactivateSensor(_) => ChangeMeans(lim, p, mem, db);
    case SetAlertLevel(_, _) => ChangeMeans(lim, p, mem, db);
    case GetActiveSensorCount => ActiveMeans(lim, p, mem, db);
    case ReadSensors(_) => RowsMean(lim, p, mem, db);
    case ReadAlerts(_) => AlertsMean(lim, p, mem, db);
    case ReadMetrics(_) => MetricsMean(lim, p, mem, db);
    case _ => GetMeans(lim, p, mem, db);
    }
    assert End(lim, Local(Inner(p), mem)) != None;
  }
}
