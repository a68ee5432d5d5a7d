/**
 The two mutexes. Connection threads and page threads run the instruction lists of `Programs` one
 instruction at a time, in any order, on shared memory as it is at that moment. The machine stops no
 thread from using memory it has not locked, from releasing what it does not hold or from asking twice;
 that none ever does is proved here.
 */
module Locks {
  import opened Records
  import opened Ring
  import opened Server
  import opened Programs
  import opened Sections
  import D = Database

  /**
   A page and how many of its rows fit. `LogOnly` is a request that reads nothing shared, as are those for
   the home, login and error pages, and also what the two accept loops do for a connection.
   */
  datatype Route = Dashboard | SensorsPage(room: nat) | AlertsPage(room: nat) | MetricsPage(room: nat) | LogOnly

  datatype Shown = Shown(proc: Proc, result: Result)

  /** `logs` is how many log lines a handler still writes before it goes on. */
  datatype Role =
    | Handler(pc: Pc, cmd: seq<string>, logs: nat)
    | Page(todo: seq<Proc>, shown: seq<Shown>)

  /** A thread, inside a call of one of the functions or between calls. */
  datatype Worker = Worker(role: Role, frame: Option<Frame>)

  datatype Fine = Fine(mem: Memory, log: Log, stateOwner: Option<nat>, logOwner: Option<nat>,
                       threads: seq<Worker>, answers: seq<Answer>)

  datatype Act =
    | Net(l: Label)                                 // a connection opens, sends a line or closes
    | Send(k: nat)                                  // `send_line` of a reply
    | Request(k: nat, route: Route, line: string)   // a page is asked for
    | Call(k: nat, line: string)                    // the next call; `line` is what a handler logs
    | Tick(k: nat)                                  // one instruction

  function Owner(f: Fine, m: Mutex): Option<nat> {
    if m == StateMutex then f.stateOwner else f.logOwner
  }

  function SetOwner(f: Fine, m: Mutex, owner: Option<nat>): Fine {
    if m == StateMutex then f.(stateOwner := owner) else f.(logOwner := owner)
  }

  /** The function a handler calls next. */
  function ProcOf(pc: Pc): Proc
    requires Working(pc)
  {
    match pc
    case AtRegister(id, kind) => RegisterSensor(id, kind)
    case AtFindForMetric(id, _, _) => FindSensor(id)
    case AtAddMetric(id, v, ts, copy) => AddMetric(id, v, ts, TypeName(copy.kind))
    case AtAddAlert(id, v, bound, ts, kind) => AddAlert(id, v, bound, ts, TypeName(kind))
    case AtSetLevel(id, level) => SetAlertLevel(id, level)
    case AtFindForStatus(id) => FindSensor(id)
    case AtDeactivate(id) => DeactivateSensor(id)
  }

  function CodeOf(out: Result): int {
    if out.Code? then out.code else 0
  }

  function CopyOf(out: Result): Option<Sensor> {
    if out.Copied? && out.index >= 0 then out.copy else None
  }

  /** What a handler does with the value its call returned. */
  function Resume(cfg: Config, pc: Pc, out: Result): Pc
    requires Working(pc)
  {
    match pc
    case AtRegister(id, _) => AtReply(RegisterReply(id, CodeOf(out)))
    case AtFindForMetric(id, text, ts) => AfterFind(cfg, CopyOf(out), id, text, ts)
    case AtAddMetric(id, v, ts, copy) => AfterAdd(CodeOf(out), id, v, ts, copy.kind)
    case AtAddAlert(id, _, _, _, _) => AtSetLevel(id, Alert)
    case AtSetLevel(_, _) => AtReply(Accepted)
    case AtFindForStatus(_) => AtReply(match CopyOf(out) case None => NotFound case Some(s) => StatusOf(s))
    case AtDeactivate(_) => AtReply(Bye)
  }

  function RouteCalls(route: Route, line: string): seq<Proc> {
    match route
    case Dashboard => [GetSensorCount, GetActiveSensorCount, GetAlertCount, GetMetricCount, WriteLog(line)]
    case SensorsPage(room) => [ReadSensors(room), WriteLog(line)]
    case AlertsPage(room) => [GetAlertCount, ReadAlerts(room), WriteLog(line)]
    case MetricsPage(room) => [GetMetricCount, ReadMetrics(room), WriteLog(line)]
    case LogOnly => [WriteLog(line)]
  }

  function NextCall(role: Role, line: string): Option<Proc> {
    match role
    case Handler(pc, _, logs) =>
      if logs > 0 then Some(WriteLog(line)) else if Working(pc) then Some(ProcOf(pc)) else None
    case Page(todo, _) => if todo == [] then None else Some(todo[0])
  }

  /** The thread after its call has returned. */
  function Return(cfg: Config, role: Role, p: Proc, out: Result): Role {
    match role
    case Handler(pc, cmd, logs) =>
      if logs > 0 then Handler(pc, cmd, logs - 1)
      else if Working(pc) then Handler(Resume(cfg, pc, out), cmd, 0)
      else role
    case Page(todo, shown) => if todo == [] then role else Page(todo[1..], shown + [Shown(p, out)])
  }

  predicate AtLeisure(f: Fine, k: nat) {
    k < |f.threads| && f.threads[k].frame == None && f.threads[k].role.Handler? && f.threads[k].role.logs == 0
  }

  /** The connection is ready for what the network brings. */
  predicate Accepts(f: Fine, l: Label) {
    AtLeisure(f, l.thread) &&
    match l
    case Connect(k) => f.threads[k].role.pc == Closed
    case Receive(k, _) => f.threads[k].role.pc == Idle
    case Hangup(k) => f.threads[k].role.pc == Idle
    case Run(_) => false
  }

  function WithThread(f: Fine, k: nat, w: Worker): Fine
    requires k < |f.threads|
  {
    f.(threads := f.threads[k := w])
  }

  function Written(log: Log, toFile: bool, line: string): Log {
    if toFile then log.(file := log.file + [line]) else log.(console := log.console + [line])
  }

  /** One instruction of thread `k`. */
  function Run1(cfg: Config, lim: Limits, f: Fine, k: nat): Fine
    requires k < |f.threads| && f.threads[k].frame.Some?
  {
    var w, fr := f.threads[k], f.threads[k].frame.value;
    match Fetch(lim, fr.proc, fr.pc)
    case Lock(m) =>
      if Owner(f, m) != None then f
      else SetOwner(WithThread(f, k, w.(frame := Some(Following(fr, fr.r)))), m, Some(k))
    case Unlock(m) => SetOwner(WithThread(f, k, w.(frame := Some(Following(fr, fr.r)))), m, None)
    case Print(toFile, line) => WithThread(f, k, w.(frame := Some(Following(fr, fr.r)))).(log := Written(f.log,
        toFile, line))
    case Ret(v) => WithThread(f, k, Worker(Return(cfg, w.role, fr.proc, ReturnValue(fr.r, v)), None))
    case _ =>
      var l := Go(lim, Local(fr, f.mem));
      WithThread(f, k, w.(frame := Some(l.fr))).(mem := l.mem)
  }

  lemma RunsPlain(cfg: Config, lim: Limits, f: Fine, k: nat)
    requires k < |f.threads| && f.threads[k].frame.Some?
        && Ordinary(Fetch(lim, f.threads[k].frame.value.proc, f.threads[k].frame.value.pc))
    ensures var l := Go(lim, Local(f.threads[k].frame.value, f.mem));
            Run1(cfg, lim, f, k) == WithThread(f, k, f.threads[k].(frame := Some(l.fr))).(mem := l.mem)
  {
    hide Fetch, Go;
  }

  /** An act that is not possible changes nothing. */
  function Do(cfg: Config, lim: Limits, f: Fine, a: Act): Fine {
    match a
    case Net(l) =>
      if !Accepts(f, l) then f
      else
        (match l
         case Connect(k) => WithThread(f, k, Worker(Handler(Idle, [], 1), None))
         case Receive(k, tokens) => WithThread(f, k, Worker(Handler(Dispatch(tokens), tokens, 0), None))
         case Hangup(k) => WithThread(f, k, Worker(Handler(Closed, [], 2), None))
         case Run(_) => f)
    case Send(k) =>
      if !AtLeisure(f, k) || !f.threads[k].role.pc.AtReply? then f
      else
        var role := f.threads[k].role;
        var role' := if role.pc.reply == Bye then Handler(Closed, [], 2) else Handler(Idle, [], 1);
        WithThread(f, k, Worker(role', None)).(answers := f.answers + [Answer(k, role.cmd, role.pc.reply)])
    case Request(k, route, line) =>
      if k >= |f.threads| || !f.threads[k].role.Page? || f.threads[k].role.todo != [] then f
      else WithThread(f, k, f.threads[k].(role := f.threads[k].role.(todo := RouteCalls(route, line))))
    case Call(k, line) =>
      if k >= |f.threads| || f.threads[k].frame != None || NextCall(f.threads[k].role, line) == None then f
      else WithThread(f, k, f.threads[k].(frame := Some(Entry(NextCall(f.threads[k].role, line).value))))
    case Tick(k) => if k >= |f.threads| || f.threads[k].frame == None then f else Run1(cfg, lim, f, k)
  }

  // The discipline

  predicate Within(lim: Limits, w: Worker, m: Mutex) {
    w.frame.Some? && MutexOf(w.frame.value.proc) == m && PhaseAt(lim, w.frame.value.proc, w.frame.value.pc) == Inside
  }

  /** A thread holds a mutex exactly while its code says so, and its indices are in bounds. */
  ghost predicate WorkerOk(lim: Limits, f: Fine, k: nat)
    requires k < |f.threads|
  {
    var w := f.threads[k];
    && (f.stateOwner == Some(k) <==> Within(lim, w, StateMutex))
    && (f.logOwner == Some(k) <==> Within(lim, w, LogMutex))
    && (w.frame.Some? ==> RegsOk(lim, w.frame.value))
    && (w.role.Page? && w.frame.Some? ==> w.role.todo != [])
  }

  ghost predicate Disciplined(lim: Limits, f: Fine) {
    && MemoryOk(lim, f.mem)
    && (f.stateOwner.Some? ==> f.stateOwner.value < |f.threads|)
    && (f.logOwner.Some? ==> f.logOwner.value < |f.threads|)
    && forall k :: 0 <= k < |f.threads| ==> WorkerOk(lim, f, k)
  }

  /** Ownership passes only between nobody and the acting thread. */
  ghost predicate OwnedAs(f: Fine, f': Fine, k: nat) {
    forall m :: Owner(f', m) == Owner(f, m) || (Owner(f, m) == None && Owner(f', m) == Some(k))
                || (Owner(f, m) == Some(k) && Owner(f', m) == None)
  }

  /** What an act of thread `k` must see to. */
  ghost predicate Minds(lim: Limits, f: Fine, f': Fine, k: nat) {
    && k < |f.threads| == |f'.threads| && MemoryOk(lim, f'.mem)
    && f'.threads == f.threads[k := f'.threads[k]]
    && OwnedAs(f, f', k) && WorkerOk(lim, f', k)
  }

  lemma OthersOk(lim: Limits, f: Fine, f': Fine, k: nat)
    requires Disciplined(lim, f) && Minds(lim, f, f', k)
    ensures Disciplined(lim, f')
  {
    hide Within, MemoryOk, RegsOk;
    assert forall m :: Owner(f, m) == Owner(f, m);
    forall j | 0 <= j < |f'.threads| ensures WorkerOk(lim, f', j) {
      assert WorkerOk(lim, f, j);
      assert Owner(f, StateMutex) == f.stateOwner && Owner(f', StateMutex) == f'.stateOwner;
      assert Owner(f, LogMutex) == f.logOwner && Owner(f', LogMutex) == f'.logOwner;
    }
    assert Owner(f', StateMutex) == f'.stateOwner && Owner(f', LogMutex) == f'.logOwner;
  }

  lemma NextOk(lim: Limits, fr: Frame)
    requires RegsOk(lim, fr)
    ensures var ins := Fetch(lim, fr.proc, fr.pc);
            ins.Lock? || ins.Unlock? || ins.Print? ==> RegsOk(lim, Following(fr, fr.r))
  {
    hide PhaseAt;
  }

  /** The only instruction before the lock is the type check of REGISTER. */
  lemma StartJump(lim: Limits, l: Local)
    requires RegsOk(lim, l.fr) && Ordinary(Fetch(lim, l.fr.proc, l.fr.pc)) && PhaseAt(lim, l.fr.proc, l.fr.pc) == Before
    ensures l.fr.proc.RegisterSensor? && l.fr.pc == 0
    ensures Go(lim, l) == l.(fr := l.fr.(pc := if l.fr.proc.kind == Invalid then 34 else 1))
         && RegsOk(lim, Go(lim, l).fr)
  {
    hide Go;
    assert Fetch(lim, l.fr.proc, 0) == Jump(KindInvalid(l.fr.proc.kind), 34);
    JumpGoes(lim, l, KindInvalid(l.fr.proc.kind), 34);
  }

  /** What a plain instruction does to its own thread and to memory. */
  lemma GoOk(lim: Limits, l: Local)
    requires RegsOk(lim, l.fr) && MemoryOk(lim, l.mem) && Ordinary(Fetch(lim, l.fr.proc, l.fr.pc))
    ensures var l' := Go(lim, l);
            && RegsOk(lim, l'.fr) && MemoryOk(lim, l'.mem) && l'.fr.proc == l.fr.proc
            && PhaseAt(lim, l'.fr.proc, l'.fr.pc) == PhaseAt(lim, l.fr.proc, l.fr.pc)
            && (PhaseAt(lim, l.fr.proc, l.fr.pc) != Inside ==> l'.mem == l.mem)
  {
    hide Fetch, Go, RegsOk, MemoryOk, PhaseAt;
    PlainPlace(lim, l.fr);
    if PhaseAt(lim, l.fr.proc, l.fr.pc) == Inside {
      KeepsGoing(lim, l);
    } else {
      StartJump(lim, l);
      PhaseOfStart(lim, l.fr.proc);
    }
  }

  lemma PhaseOfStart(lim: Limits, p: Proc)
    ensures PhaseAt(lim, p, 0) == PhaseAt(lim, p, 1) == PhaseAt(lim, p, 34) == Before
  {
  }

  lemma PlainPlace(lim: Limits, fr: Frame)
    requires RegsOk(lim, fr) && Ordinary(Fetch(lim, fr.proc, fr.pc))
    ensures PhaseAt(lim, fr.proc, fr.pc) == Before || (PhaseAt(lim, fr.proc, fr.pc) == Inside
        && MutexOf(fr.proc) == StateMutex)
  {
  }

  lemma PlainTick(cfg: Config, lim: Limits, f: Fine, k: nat)
    requires k < |f.threads| && WorkerOk(lim, f, k) && MemoryOk(lim, f.mem) && f.threads[k].frame.Some?
    requires Ordinary(Fetch(lim, f.threads[k].frame.value.proc, f.threads[k].frame.value.pc))
    ensures Minds(lim, f, Run1(cfg, lim, f, k), k)
  {
    hide Fetch, Go, RegsOk, MemoryOk, PhaseAt, Return;
    GoOk(lim, Local(f.threads[k].frame.value, f.mem));
  }

  lemma MutexTick(cfg: Config, lim: Limits, f: Fine, k: nat)
    requires k < |f.threads| && WorkerOk(lim, f, k) && MemoryOk(lim, f.mem) && f.threads[k].frame.Some?
    requires var ins := Fetch(lim, f.threads[k].frame.value.proc, f.threads[k].frame.value.pc);
             !Ordinary(ins) && !ins.Ret?
    ensures Run1(cfg, lim, f, k) == f || Minds(lim, f, Run1(cfg, lim, f, k), k)
  {
    var fr := f.threads[k].frame.value;
    assert InCode(fr.proc, fr.pc);
    hide Fetch, Go, RegsOk, MemoryOk, PhaseAt, Return;
    StandsInside(lim, fr.proc, fr.pc);
    NextOk(lim, fr);
    FlowKeepsPhase(lim, fr.proc, fr.pc, fr.pc + 1);
  }

  lemma ReturnTick(cfg: Config, lim: Limits, f: Fine, k: nat)
    requires k < |f.threads| && WorkerOk(lim, f, k) && MemoryOk(lim, f.mem) && f.threads[k].frame.Some?
    requires Fetch(lim, f.threads[k].frame.value.proc, f.threads[k].frame.value.pc).Ret?
    ensures Minds(lim, f, Run1(cfg, lim, f, k), k)
  {
    var fr := f.threads[k].frame.value;
    assert InCode(fr.proc, fr.pc);
    hide Fetch, Go, RegsOk, MemoryOk, PhaseAt, Return;
    StandsInside(lim, fr.proc, fr.pc);
  }

  lemma TickOk(cfg: Config, lim: Limits, f: Fine, k: nat)
    requires Disciplined(lim, f) && k < |f.threads| && f.threads[k].frame.Some?
    ensures Disciplined(lim, Run1(cfg, lim, f, k))
  {
    assert WorkerOk(lim, f, k);
    hide Run1, Fetch, WorkerOk, Minds;
    var ins := Fetch(lim, f.threads[k].frame.value.proc, f.threads[k].frame.value.pc);
    if Ordinary(ins) {
      PlainTick(cfg, lim, f, k);
    } else if ins.Ret? {
      ReturnTick(cfg, lim, f, k);
    } else {
      MutexTick(cfg, lim, f, k);
    }
    MindsOk(lim, f, Run1(cfg, lim, f, k), k);
  }

  lemma EntryOk(lim: Limits, p: Proc)
    ensures RegsOk(lim, Entry(p)) && PhaseAt(lim, p, Start(p)) == Before
  {
  }

  /** Between calls a thread is in order whatever its role. */
  lemma IdleOk(cfg: Config, lim: Limits, f: Fine, a: Act, k: nat)
    requires k < |f.threads| && WorkerOk(lim, f, k) && MemoryOk(lim, f.mem)
    requires (a.Net? && k == a.l.thread) || (a.Send? && k == a.k) || (a.Request? && k == a.k)
    ensures var f' := Do(cfg, lim, f, a); f' == f || Minds(lim, f, f', k)
  {
    hide RegsOk, MemoryOk, PhaseAt, Dispatch, RouteCalls;
  }

  lemma CallOk(cfg: Config, lim: Limits, f: Fine, k: nat, line: string)
    requires k < |f.threads| && WorkerOk(lim, f, k) && MemoryOk(lim, f.mem)
    ensures var f' := Do(cfg, lim, f, Call(k, line)); f' == f || Minds(lim, f, f', k)
  {
    hide RegsOk, MemoryOk, PhaseAt, ProcOf;
    var next := NextCall(f.threads[k].role, line);
    if next.Some? {
      EntryOk(lim, next.value);
    }
  }

  function Actor(a: Act): nat {
    if a.Net? then a.l.thread else a.k
  }

  lemma DoOk(cfg: Config, lim: Limits, f: Fine, a: Act)
    requires Disciplined(lim, f)
    ensures Disciplined(lim, Do(cfg, lim, f, a)) && |Do(cfg, lim, f, a).threads| == |f.threads|
  {
    var k := Actor(a);
    if k < |f.threads| {
      assert WorkerOk(lim, f, k);
      hide Disciplined, WorkerOk, Run1;
      match a
      case Tick(_) =>
        if f.threads[k].frame.Some? {
          TickOk(cfg, lim, f, k);
          TickKeepsSize(cfg, lim, f, k);
        }
      case Call(_, line) =>
        MemoryOf(lim, f);
        CallOk(cfg, lim, f, k, line);
        MindsOk(lim, f, Do(cfg, lim, f, a), k);
      case _ =>
        MemoryOf(lim, f);
        IdleOk(cfg, lim, f, a, k);
        MindsOk(lim, f, Do(cfg, lim, f, a), k);
    }
  }

  lemma MemoryOf(lim: Limits, f: Fine)
    requires Disciplined(lim, f)
    ensures MemoryOk(lim, f.mem)
  {
  }

  lemma MindsOk(lim: Limits, f: Fine, f': Fine, k: nat)
    requires Disciplined(lim, f) && (f' == f || Minds(lim, f, f', k))
    ensures Disciplined(lim, f') && |f'.threads| == |f.threads|
  {
    if f' != f {
      OthersOk(lim, f, f', k);
    }
  }

  lemma TickKeepsSize(cfg: Config, lim: Limits, f: Fine, k: nat)
    requires k < |f.threads| && f.threads[k].frame.Some?
    ensures |Run1(cfg, lim, f, k).threads| == |f.threads|
  {
    hide Fetch, Go, Return;
  }

  // Runs

  function DoAll(cfg: Config, lim: Limits, f: Fine, acts: seq<Act>): Fine
    decreases |acts|
  {
    if acts == [] then f else DoAll(cfg, lim, Do(cfg, lim, f, acts[0]), acts[1..])
  }

  /** Zeroed memory, `n` connection threads and some page threads. */
  function Begin(lim: Limits, n: nat, pages: nat): Fine {
    Fine(Memory(seq(lim.sensors, _ => ZERO_SENSOR), 0,
                seq(lim.metrics, _ => Metric("", Fin(0.0), "", "")), 0, 0,
                seq(lim.alerts, _ => AlertRecord("", Fin(0.0), 0.0, "", "")), 0, 0),
         Log([], []), None, None,
         seq(n + pages, k => Worker(if k < n then Handler(Closed, [], 0) else Page([], []), None)), [])
  }

  predicate Sized(lim: Limits) {
    lim.metrics > 0 && lim.alerts > 0
  }

  lemma {:induction false} RunsDisciplined(cfg: Config, lim: Limits, f: Fine, acts: seq<Act>)
    requires Disciplined(lim, f)
    ensures Disciplined(lim, DoAll(cfg, lim, f, acts)) && |DoAll(cfg, lim, f, acts).threads| == |f.threads|
    decreases |acts|
  {
    if acts != [] {
      hide Disciplined, Do;
      DoOk(cfg, lim, f, acts[0]);
      RunsDisciplined(cfg, lim, Do(cfg, lim, f, acts[0]), acts[1..]);
    }
  }

  predicate HoldsSome(f: Fine, k: nat) {
    f.stateOwner == Some(k) || f.logOwner == Some(k)
  }

  /** The next move of thread `k` is against the rules, or it has kept a mutex past a return. */
  predicate Breach(lim: Limits, f: Fine, k: nat)
    requires k < |f.threads|
  {
    match f.threads[k].frame
    case None => HoldsSome(f, k)
    case Some(fr) =>
      var ins := Fetch(lim, fr.proc, fr.pc);
      || (ins.Lock? && HoldsSome(f, k))
      || (ins.Unlock? && Owner(f, ins.m) != Some(k))
      || (ins.Ret? && HoldsSome(f, k))
      || (TouchesState(ins) && f.stateOwner != Some(k))
      || (ins.Print? && f.logOwner != Some(k))
      || !InBounds(lim, Local(fr, f.mem))
  }

  lemma NoBreach(lim: Limits, f: Fine, k: nat)
    requires Disciplined(lim, f) && k < |f.threads|
    ensures !Breach(lim, f, k)
  {
    assert WorkerOk(lim, f, k);
    if f.threads[k].frame.Some? {
      var fr := f.threads[k].frame.value;
      assert InCode(fr.proc, fr.pc);
      hide Fetch, InBounds, RegsOk, MemoryOk, PhaseAt;
      StandsInside(lim, fr.proc, fr.pc);
      Fits(lim, Local(fr, f.mem));
    }
  }

  /**
   In no reachable state is any thread about to use shared memory without its mutex, to lock while it
   holds a mutex, to unlock what it does not hold, to return or rest holding one, or to leave an array;
   and no thread holds both.
   */
  lemma NeverBreach(cfg: Config, lim: Limits, n: nat, pages: nat, acts: seq<Act>, k: nat)
    requires Sized(lim) && k < n + pages
    ensures var f := DoAll(cfg, lim, Begin(lim, n, pages), acts);
            && |f.threads| == n + pages && !Breach(lim, f, k)
            && !(f.stateOwner == Some(k) && f.logOwner == Some(k))
  {
    RunsDisciplined(cfg, lim, Begin(lim, n, pages), acts);
    var f := DoAll(cfg, lim, Begin(lim, n, pages), acts);
    NoBreach(lim, f, k);
    assert WorkerOk(lim, f, k);
  }

  // Progress

  predicate InCall(f: Fine, k: nat) {
    k < |f.threads| && f.threads[k].frame.Some?
  }

  /** At a lock that is taken, by whomever. */
  predicate Blocked(lim: Limits, f: Fine, k: nat) {
    InCall(f, k) &&
    var ins := Fetch(lim, f.threads[k].frame.value.proc, f.threads[k].frame.value.pc);
    ins.Lock? && Owner(f, ins.m) != None
  }

  /** Has a call to make or to finish, or a reply to send. */
  predicate Busy(f: Fine, k: nat) {
    InCall(f, k) ||
    (k < |f.threads| && match f.threads[k].role
                        case Handler(pc, _, logs) => logs > 0 || Working(pc) || pc.AtReply?
                        case Page(todo, _) => todo != [])
  }

  lemma HolderIsInside(lim: Limits, f: Fine, m: Mutex)
    requires Disciplined(lim, f) && Owner(f, m).Some?
    ensures var k := Owner(f, m).value;
            InCall(f, k) && Within(lim, f.threads[k], m) && RegsOk(lim, f.threads[k].frame.value) && !Blocked(lim, f, k)
  {
    var k := Owner(f, m).value;
    assert WorkerOk(lim, f, k);
    assert InCode(f.threads[k].frame.value.proc, f.threads[k].frame.value.pc);
    hide Fetch, RegsOk, MemoryOk;
    StandsInside(lim, f.threads[k].frame.value.proc, f.threads[k].frame.value.pc);
  }

  /** Unless its lock is taken, a thread in a call moves. */
  lemma Unblocked(cfg: Config, lim: Limits, f: Fine, k: nat)
    requires Disciplined(lim, f) && InCall(f, k) && !Blocked(lim, f, k)
    ensures Do(cfg, lim, f, Tick(k)) != f
  {
    assert WorkerOk(lim, f, k);
    var fr := f.threads[k].frame.value;
    if Ordinary(Fetch(lim, fr.proc, fr.pc)) {
      RunsPlain(cfg, lim, f, k);
      hide Run1, Fetch, Go, RegsOk, MemoryOk, PhaseAt;
      GoMovesOn(lim, Local(fr, f.mem));
      assert Do(cfg, lim, f, Tick(k)).threads[k].frame == Some(Go(lim, Local(fr, f.mem)).fr);
    } else {
      hide Fetch, Go, RegsOk, MemoryOk, PhaseAt, Return;
      assert Do(cfg, lim, f, Tick(k)).threads[k].frame != Some(fr);
    }
  }

  lemma GoMovesOn(lim: Limits, l: Local)
    requires RegsOk(lim, l.fr) && MemoryOk(lim, l.mem) && Ordinary(Fetch(lim, l.fr.proc, l.fr.pc))
    ensures Go(lim, l).fr != l.fr
  {
    hide Fetch, Go, RegsOk, MemoryOk, PhaseAt;
    PlainPlace(lim, l.fr);
    if PhaseAt(lim, l.fr.proc, l.fr.pc) == Inside {
      KeepsGoing(lim, l);
    } else {
      StartJump(lim, l);
    }
  }

  /** Never are all threads that are in a call blocked: where one waits, the one it waits for does not. */
  lemma WaitsForMover(lim: Limits, f: Fine, k: nat) returns (j: nat)
    requires Disciplined(lim, f) && InCall(f, k)
    ensures InCall(f, j) && !Blocked(lim, f, j)
  {
    j := k;
    if Blocked(lim, f, k) {
      var m := Fetch(lim, f.threads[k].frame.value.proc, f.threads[k].frame.value.pc).m;
      HolderIsInside(lim, f, m);
      j := Owner(f, m).value;
    }
  }

  /** While any connection or page has something to do, one that has can do it. */
  lemma SomeoneMoves(cfg: Config, lim: Limits, f: Fine, k: nat) returns (a: Act)
    requires Disciplined(lim, f) && Busy(f, k)
    ensures Busy(f, Actor(a)) && (a.Tick? || a.Call? || a.Send?) && Do(cfg, lim, f, a) != f
  {
    if InCall(f, k) {
      var j := WaitsForMover(lim, f, k);
      a := Tick(j);
      Unblocked(cfg, lim, f, j);
    } else {
      var role := f.threads[k].role;
      hide Disciplined, Dispatch, ProcOf;
      if AtLeisure(f, k) && role.pc.AtReply? {
        a := Send(k);
        assert Do(cfg, lim, f, a).answers != f.answers;
      } else {
        a := Call(k, "");
        assert Do(cfg, lim, f, a).threads[k].frame.Some?;
      }
    }
  }

  /** No reachable state is a deadlock: while any connection or page is busy, one that is busy has a move. */
  lemma NoDeadlock(cfg: Config, lim: Limits, n: nat, pages: nat, acts: seq<Act>, k: nat)
    requires Sized(lim) && Busy(DoAll(cfg, lim, Begin(lim, n, pages), acts), k)
    ensures var f := DoAll(cfg, lim, Begin(lim, n, pages), acts);
            exists a :: Busy(f, Actor(a)) && (a.Tick? || a.Call? || a.Send?) && Do(cfg, lim, f, a) != f
  {
    RunsDisciplined(cfg, lim, Begin(lim, n, pages), acts);
    hide Do, Disciplined, DoAll;
    var a := SomeoneMoves(cfg, lim, DoAll(cfg, lim, Begin(lim, n, pages), acts), k);
  }

  /** Thread `k` still holds `m` and is nearer to its unlock than it was at `fr`. */
  ghost predicate Nearer(lim: Limits, f: Fine, m: Mutex, k: nat, fr: Frame) {
    && Owner(f, m) == Some(k) && InCall(f, k) && RegsOk(lim, fr) && RegsOk(lim, f.threads[k].frame.value)
    && Left(lim, f.threads[k].frame.value) < Left(lim, fr)
  }

  lemma PlainNearer(cfg: Config, lim: Limits, f: Fine, m: Mutex, k: nat)
    requires Disciplined(lim, f) && Owner(f, m) == Some(k) && InCall(f, k) && Within(lim, f.threads[k], m)
    requires var fr := f.threads[k].frame.value; RegsOk(lim, fr) && Ordinary(Fetch(lim, fr.proc, fr.pc))
    ensures Nearer(lim, Run1(cfg, lim, f, k), m, k, f.threads[k].frame.value)
  {
    var fr := f.threads[k].frame.value;
    RunsPlain(cfg, lim, f, k);
    hide Run1, Fetch, Go, RegsOk, MemoryOk, PhaseAt, Left;
    PlainPlace(lim, fr);
    KeepsGoing(lim, Local(fr, f.mem));
  }

  lemma OtherNearer(cfg: Config, lim: Limits, f: Fine, m: Mutex, k: nat)
    requires Owner(f, m) == Some(k) && InCall(f, k) && Within(lim, f.threads[k], m)
    requires var fr := f.threads[k].frame.value; RegsOk(lim, fr) && !Ordinary(Fetch(lim, fr.proc, fr.pc))
    ensures var f' := Run1(cfg, lim, f, k); Owner(f', m) == None || Nearer(lim, f', m, k, f.threads[k].frame.value)
  {
    var fr := f.threads[k].frame.value;
    assert InCode(fr.proc, fr.pc);
    hide Fetch, Go, RegsOk, PhaseAt, Return, Left;
    StandsInside(lim, fr.proc, fr.pc);
    if Fetch(lim, fr.proc, fr.pc).Print? {
      NextOk(lim, fr);
      PrintedLeft(lim, fr);
    }
  }

  /** The holder of a mutex is never blocked, and each of its instructions brings its release nearer. */
  lemma HolderGoesOn(cfg: Config, lim: Limits, f: Fine, m: Mutex, k: nat)
    requires Disciplined(lim, f) && Owner(f, m) == Some(k)
    ensures InCall(f, k) && !Blocked(lim, f, k)
    ensures var f' := Do(cfg, lim, f, Tick(k));
            Owner(f', m) == None || Nearer(lim, f', m, k, f.threads[k].frame.value)
  {
    hide Run1, Fetch, Nearer, Disciplined, RegsOk;
    HolderIsInside(lim, f, m);
    var fr := f.threads[k].frame.value;
    if Ordinary(Fetch(lim, fr.proc, fr.pc)) {
      PlainNearer(cfg, lim, f, m, k);
    } else {
      OtherNearer(cfg, lim, f, m, k);
    }
  }

  lemma PrintedLeft(lim: Limits, fr: Frame)
    requires RegsOk(lim, fr) && Fetch(lim, fr.proc, fr.pc).Print? && RegsOk(lim, Following(fr, fr.r))
    ensures Left(lim, Following(fr, fr.r)) < Left(lim, fr)
  {
  }

  lemma OthersTick(cfg: Config, lim: Limits, f: Fine, j: nat, m: Mutex, k: nat)
    requires Owner(f, m) == Some(k) && InCall(f, j) && InCall(f, k) && j != k && !Breach(lim, f, j)
    ensures var f' := Run1(cfg, lim, f, j);
            Owner(f', m) == Some(k) && InCall(f', k) && f'.threads[k].frame == f.threads[k].frame
  {
    hide Fetch, Go, Return, InBounds;
  }

  /** Nothing but its own instructions moves a thread that is in a call, or takes a mutex from its holder. */
  lemma HolderIsKept(cfg: Config, lim: Limits, f: Fine, a: Act, m: Mutex, k: nat)
    requires Disciplined(lim, f) && Owner(f, m) == Some(k) && a != Tick(k)
    ensures var f' := Do(cfg, lim, f, a);
            Owner(f', m) == Some(k) && InCall(f, k) && InCall(f', k) && f'.threads[k].frame == f.threads[k].frame
  {
    HolderIsInside(lim, f, m);
    assert WorkerOk(lim, f, k);
    hide Fetch, RegsOk, MemoryOk, PhaseAt, Run1, Breach, Dispatch, ProcOf, RouteCalls;
    if a.Tick? && InCall(f, a.k) {
      NoBreach(lim, f, a.k);
      OthersTick(cfg, lim, f, a.k, m, k);
    }
  }

  function Ticks(acts: seq<Act>, k: nat): nat {
    if acts == [] then 0 else (if acts[0] == Tick(k) then 1 else 0) + Ticks(acts[1..], k)
  }

  /** Whatever else happens, a holder that is given enough instructions releases: nobody holds on forever. */
  lemma {:induction false} HolderReleases(cfg: Config, lim: Limits, f: Fine, acts: seq<Act>, m: Mutex, k: nat)
    returns (j: nat)
    requires Disciplined(lim, f) && Owner(f, m) == Some(k)
    requires InCall(f, k) && RegsOk(lim, f.threads[k].frame.value)
         && Ticks(acts, k) > Left(lim, f.threads[k].frame.value)
    ensures j <= |acts| && Owner(DoAll(cfg, lim, f, acts[..j]), m) == None
    decreases |acts|
  {
    hide Disciplined, Do, RegsOk, Left;
    var f1 := Do(cfg, lim, f, acts[0]);
    DoOk(cfg, lim, f, acts[0]);
    if acts[0] == Tick(k) {
      HolderGoesOn(cfg, lim, f, m, k);
    } else {
      HolderIsKept(cfg, lim, f, acts[0], m, k);
    }
    if Owner(f1, m) == None {
      j := 1;
      assert acts[..1][1..] == [];
    } else {
      var i := HolderReleases(cfg, lim, f1, acts[1..], m, k);
      j := i + 1;
      assert acts[..j][1..] == acts[1..][..i];
    }
  }

  // The log

  /** The file is the console's copy, but for the line that the holder of the log mutex is writing. */
  ghost predicate LogOk(f: Fine) {
    match f.logOwner
    case None => f.log.console == f.log.file
    case Some(k) =>
      && InCall(f, k) && f.threads[k].frame.value.proc.WriteLog?
      && f.log.console == f.log.file + if f.threads[k].frame.value.pc
          == 3 then [f.threads[k].frame.value.proc.line] else []
  }

  lemma LogStep(cfg: Config, lim: Limits, f: Fine, a: Act)
    requires Disciplined(lim, f) && LogOk(f)
    ensures LogOk(Do(cfg, lim, f, a))
  {
    assert f.log.file + [] == f.log.file;
    if f.logOwner.Some? && a != Tick(f.logOwner.value) {
      LogElsewhere(cfg, lim, f, a);
    } else if a.Tick? && InCall(f, a.k) {
      LogTick(cfg, lim, f, a.k);
    } else {
      hide Disciplined, Dispatch, ProcOf, RouteCalls;
    }
  }

  lemma LogElsewhere(cfg: Config, lim: Limits, f: Fine, a: Act)
    requires Disciplined(lim, f) && LogOk(f) && f.logOwner.Some? && a != Tick(f.logOwner.value)
    ensures LogOk(Do(cfg, lim, f, a))
  {
    HolderIsKept(cfg, lim, f, a, LogMutex, f.logOwner.value);
    if a.Tick? && InCall(f, a.k) {
      NoBreach(lim, f, a.k);
      hide Fetch, Go, Disciplined, Return, InBounds;
    } else {
      hide Fetch, Disciplined, Dispatch, ProcOf, RouteCalls;
    }
  }

  lemma LogTick(cfg: Config, lim: Limits, f: Fine, k: nat)
    requires Disciplined(lim, f) && LogOk(f) && InCall(f, k) && (f.logOwner == None || f.logOwner == Some(k))
    ensures LogOk(Run1(cfg, lim, f, k))
  {
    var fr := f.threads[k].frame.value;
    assert WorkerOk(lim, f, k);
    assert InCode(fr.proc, fr.pc);
    StandsInside(lim, fr.proc, fr.pc);
    LogCode(lim, fr.proc, fr.pc);
    hide Fetch, Go, Disciplined, Return, InBounds, RegsOk, PhaseAt;
  }

  /** The code of `write_log`, and that no other function is about the log. */
  lemma LogCode(lim: Limits, p: Proc, pc: nat)
    requires InCode(p, pc)
    ensures p.WriteLog? ==> Fetch(lim, p, pc) == WriteLogCode(p.line, pc)
  {
  }

  /** Whatever the interleaving, console and file get the same lines in the same order. */
  lemma {:induction false} RunsKeepLog(cfg: Config, lim: Limits, f: Fine, acts: seq<Act>)
    requires Disciplined(lim, f) && LogOk(f)
    ensures LogOk(DoAll(cfg, lim, f, acts))
    decreases |acts|
  {
    if acts != [] {
      hide Disciplined, LogOk, Do;
      DoOk(cfg, lim, f, acts[0]);
      LogStep(cfg, lim, f, acts[0]);
      RunsKeepLog(cfg, lim, Do(cfg, lim, f, acts[0]), acts[1..]);
    }
  }
}
