/**
 Critical sections are atomic: every run of the machine of `Locks`, instruction by instruction, is
 matched by a run of `Server` whose steps are whole sections, with the same replies; memory stands for
 that run's state whenever the state mutex is free, and pages show what that state holds.
 */
module Atomicity {
  import opened Records
  import opened Ring
  import opened Server
  import opened Programs
  import opened Sections
  import opened Locks
  import D = Database

  /** Where the transition system has a handler: past its section as soon as it has unlocked. */
  function AbsThread(cfg: Config, lim: Limits, w: Worker): Thread
    requires w.role.Handler?
  {
    var pc := w.role.pc;
    if w.frame.Some? && w.role.logs == 0 && Working(pc) && PhaseAt(lim, w.frame.value.proc, w.frame.value.pc) == After
       && Fetch(lim, w.frame.value.proc, w.frame.value.pc).Ret?
    then Thread(Resume(cfg, pc, ReturnValue(w.frame.value.r, Fetch(lim, w.frame.value.proc,
        w.frame.value.pc).value)), w.role.cmd)
    else Thread(pc, w.role.cmd)
  }

  predicate Reads(p: Proc) {
    || p.GetSensorCount? || p.GetActiveSensorCount? || p.GetAlertCount? || p.GetMetricCount?
    || p.ReadSensors? || p.ReadAlerts? || p.ReadMetrics?
  }

  /** What a page read is what it means in a state the run has been in. */
  ghost predicate SeenIn(cfg: Config, lim: Limits, n: nat, ls: seq<Label>, p: Proc, out: Result) {
    MutexOf(p) == StateMutex ==>
      exists j :: 0 <= j <= |ls| && out == Meaning(lim, p, Exec(cfg, Init(n), ls[..j]).db).1
  }

  lemma SeenLater(cfg: Config, lim: Limits, n: nat, ls: seq<Label>, l: Label, p: Proc, out: Result)
    requires SeenIn(cfg, lim, n, ls, p, out)
    ensures SeenIn(cfg, lim, n, ls + [l], p, out)
  {
    hide Meaning, Exec;
    if MutexOf(p) == StateMutex {
      var j :| 0 <= j <= |ls| && out == Meaning(lim, p, Exec(cfg, Init(n), ls[..j]).db).1;
      assert (ls + [l])[..j] == ls[..j];
    }
  }

  lemma SeenNow(cfg: Config, lim: Limits, n: nat, ls: seq<Label>, p: Proc)
    requires MutexOf(p) == StateMutex
    ensures SeenIn(cfg, lim, n, ls, p, Meaning(lim, p, Exec(cfg, Init(n), ls).db).1)
  {
    assert ls[..|ls|] == ls;
  }

  /** The call a thread is in is the one its role asks for. */
  ghost predicate CallFits(w: Worker)
    requires w.frame.Some?
  {
    var p := w.frame.value.proc;
    match w.role
    case Handler(pc, _, logs) => if logs > 0 then p.WriteLog? else Working(pc) && p == ProcOf(pc)
    case Page(todo, _) => todo != [] && p == todo[0]
  }

  /** How far a call has come, in terms of the state `db` its section starts from. */
  ghost predicate FrameSim(lim: Limits, mem: Memory, fr: Frame, db: D.Db) {
    && (PhaseAt(lim, fr.proc, fr.pc) == Before ==> fr.pc <= 1 && fr.r == ZERO_REGS)
    && (MutexOf(fr.proc) == StateMutex && PhaseAt(lim, fr.proc, fr.pc) == Inside ==>
          && Ready(lim, Local(fr, mem)) && Finish(lim, Local(fr, mem)).fr.proc == fr.proc
          && Completes(lim, Finish(lim, Local(fr, mem)), db))
  }

  ghost predicate HandlerSim(cfg: Config, lim: Limits, w: Worker, t: Thread)
    requires w.role.Handler?
  {
    t == AbsThread(cfg, lim, w) && (w.role.pc.AtRegister? ==> w.role.pc.kind != Invalid)
  }

  ghost predicate PageSim(cfg: Config, lim: Limits, n: nat, w: Worker, ls: seq<Label>)
    requires w.role.Page?
  {
    && (forall i :: 0 <= i < |w.role.todo| ==> Reads(w.role.todo[i]) || w.role.todo[i].WriteLog?)
    && (forall i :: 0 <= i < |w.role.shown| ==> SeenIn(cfg, lim, n, ls, w.role.shown[i].proc, w.role.shown[i].result))
    && (w.frame.Some? ==>
          var fr := w.frame.value;
          PhaseAt(lim, fr.proc, fr.pc) == After ==>
            Fetch(lim, fr.proc, fr.pc).Ret?
                && SeenIn(cfg, lim, n, ls, fr.proc, ReturnValue(fr.r, Fetch(lim, fr.proc, fr.pc).value)))
  }

  ghost predicate WorkerSim(cfg: Config, lim: Limits, n: nat, f: Fine, s: System, ls: seq<Label>, k: nat)
    requires k < |f.threads|
  {
    var w := f.threads[k];
    && (w.role.Handler? <==> k < n)
    && (w.role.Handler? ==> k < |s.threads| && HandlerSim(cfg, lim, w, s.threads[k]))
    && (w.role.Page? ==> PageSim(cfg, lim, n, w, ls))
    && (w.frame.Some? ==> CallFits(w) && FrameSim(lim, f.mem, w.frame.value, s.db))
  }

  /** The machine state `f` and the run `ls` of the transition system belong together. */
  ghost predicate Sim(cfg: Config, lim: Limits, n: nat, f: Fine, ls: seq<Label>) {
    var s := Exec(cfg, Init(n), ls);
    && Disciplined(lim, f) && |s.threads| == n <= |f.threads| && f.answers == s.answers
    && (f.stateOwner == None ==> Represents(lim, f.mem, s.db))
    && forall k :: 0 <= k < |f.threads| ==> WorkerSim(cfg, lim, n, f, s, ls, k)
  }

  // One act

  /** The steps of the transition system an act amounts to: sections take effect at their unlock. */
  function Emits(lim: Limits, f: Fine, a: Act): seq<Label> {
    match a
    case Net(l) => if Accepts(f, l) then [l] else []
    case Send(k) => if AtLeisure(f, k) && f.threads[k].role.pc.AtReply? then [Run(k)] else []
    case Tick(k) =>
      if InCall(f, k) && f.threads[k].role.Handler?
          && Fetch(lim, f.threads[k].frame.value.proc, f.threads[k].frame.value.pc) == Unlock(StateMutex)
      then [Run(k)] else []
    case _ => []
  }

  /** What has to be shown of an act of thread `k`. */
  ghost predicate Tells(cfg: Config, lim: Limits, n: nat, f: Fine, f': Fine, ls: seq<Label>, ls': seq<Label>, k: nat) {
    var s, s' := Exec(cfg, Init(n), ls), Exec(cfg, Init(n), ls');
    && k < |f.threads| == |f'.threads| && |s'.threads| == |s.threads| && f'.answers == s'.answers
    && f'.threads == f.threads[k := f'.threads[k]]
    && (forall j :: 0 <= j < |s.threads| && j != k ==> s'.threads[j] == s.threads[j])
    && (ls' == ls || exists l :: ls' == ls + [l])
    && ((f'.mem == f.mem && s'.db == s.db) || f.stateOwner == Some(k))
    && (f'.stateOwner == None ==> Represents(lim, f'.mem, s'.db))
    && WorkerSim(cfg, lim, n, f', s', ls', k)
  }

  lemma PageLater(cfg: Config, lim: Limits, n: nat, w: Worker, ls: seq<Label>, l: Label)
    requires w.role.Page? && PageSim(cfg, lim, n, w, ls)
    ensures PageSim(cfg, lim, n, w, ls + [l])
  {
    hide SeenIn, Fetch, PhaseAt;
    forall i | 0 <= i < |w.role.shown|
      ensures SeenIn(cfg, lim, n, ls + [l], w.role.shown[i].proc, w.role.shown[i].result)
    {
      SeenLater(cfg, lim, n, ls, l, w.role.shown[i].proc, w.role.shown[i].result);
    }
    if w.frame.Some? {
      var fr := w.frame.value;
      if PhaseAt(lim, fr.proc, fr.pc) == After {
        SeenLater(cfg, lim, n, ls, l, fr.proc, ReturnValue(fr.r, Fetch(lim, fr.proc, fr.pc).value));
      }
    }
  }

  /** A thread that does not act is told apart by nothing it can see. */
  lemma OtherSim(cfg: Config, lim: Limits, n: nat, f: Fine, f': Fine, ls: seq<Label>, ls': seq<Label>, k: nat, j: nat)
    requires Disciplined(lim, f) && Tells(cfg, lim, n, f, f', ls, ls', k) && j < |f.threads| && j != k
    requires WorkerSim(cfg, lim, n, f, Exec(cfg, Init(n), ls), ls, j) && |Exec(cfg, Init(n), ls).threads| == n
    ensures WorkerSim(cfg, lim, n, f', Exec(cfg, Init(n), ls'), ls', j)
  {
    assert WorkerOk(lim, f, j);
    hide HandlerSim, PageSim, CallFits, Exec, Represents, RegsOk, MemoryOk, Ready, Finish, Completes, Fetch, PhaseAt;
    if f.threads[j].role.Page? && ls' != ls {
      var l :| ls' == ls + [l];
      PageLater(cfg, lim, n, f.threads[j], ls, l);
    }
  }

  lemma AllSim(cfg: Config, lim: Limits, n: nat, f: Fine, f': Fine, ls: seq<Label>, ls': seq<Label>, k: nat)
    requires Sim(cfg, lim, n, f, ls) && Tells(cfg, lim, n, f, f', ls, ls', k) && Disciplined(lim, f')
    ensures Sim(cfg, lim, n, f', ls')
  {
    hide WorkerSim, Represents, Disciplined, Exec;
    forall j | 0 <= j < |f'.threads| ensures WorkerSim(cfg, lim, n, f', Exec(cfg, Init(n), ls'), ls', j) {
      if j != k {
        OtherSim(cfg, lim, n, f, f', ls, ls', k, j);
      }
    }
  }

  // Between calls

  lemma NetTells(cfg: Config, lim: Limits, n: nat, f: Fine, ls: seq<Label>, l: Label)
    requires Sim(cfg, lim, n, f, ls) && Accepts(f, l)
    ensures Tells(cfg, lim, n, f, Do(cfg, lim, f, Net(l)), ls, ls + [l], l.thread)
  {
    hide Represents, Disciplined, Exec, Dispatch, PageSim, FrameSim;
    assert WorkerSim(cfg, lim, n, f, Exec(cfg, Init(n), ls), ls, l.thread);
    ExecSnoc(cfg, Init(n), ls, l);
    if l.Receive? {
      DispatchKind(l.tokens);
    }
  }

  lemma DispatchKind(tokens: seq<string>)
    ensures Dispatch(tokens).AtRegister? ==> Dispatch(tokens).kind != Invalid
  {
  }

  lemma SendTells(cfg: Config, lim: Limits, n: nat, f: Fine, ls: seq<Label>, k: nat)
    requires Sim(cfg, lim, n, f, ls) && AtLeisure(f, k) && f.threads[k].role.pc.AtReply?
    ensures Tells(cfg, lim, n, f, Do(cfg, lim, f, Send(k)), ls, ls + [Run(k)], k)
  {
    hide Represents, Disciplined, Exec, PageSim, FrameSim;
    assert WorkerSim(cfg, lim, n, f, Exec(cfg, Init(n), ls), ls, k);
    ExecSnoc(cfg, Init(n), ls, Run(k));
  }

  lemma RequestTells(cfg: Config, lim: Limits, n: nat, f: Fine, ls: seq<Label>, k: nat, route: Route, line: string)
    requires Sim(cfg, lim, n, f, ls) && k < |f.threads|
    ensures Tells(cfg, lim, n, f, Do(cfg, lim, f, Request(k, route, line)), ls, ls, k)
  {
    hide Represents, Exec, HandlerSim, FrameSim, SeenIn, RegsOk, MemoryOk;
    assert WorkerSim(cfg, lim, n, f, Exec(cfg, Init(n), ls), ls, k);
    assert WorkerOk(lim, f, k);
  }

  lemma CallTells(cfg: Config, lim: Limits, n: nat, f: Fine, ls: seq<Label>, k: nat, line: string)
    requires Sim(cfg, lim, n, f, ls) && k < |f.threads|
    ensures Tells(cfg, lim, n, f, Do(cfg, lim, f, Call(k, line)), ls, ls, k)
  {
    hide Represents, Disciplined, Exec, SeenIn, Ready, Finish, Completes, Fetch, Resume, ProcOf;
    assert WorkerSim(cfg, lim, n, f, Exec(cfg, Init(n), ls), ls, k);
    var next := NextCall(f.threads[k].role, line);
    if next.Some? {
      EntryOk(lim, next.value);
    }
  }

  // One instruction

  /** The frame of the acting thread and what is known of it. */
  ghost predicate Acting(cfg: Config, lim: Limits, n: nat, f: Fine, ls: seq<Label>, k: nat) {
    && Sim(cfg, lim, n, f, ls) && Sized(lim) && cfg.cap == lim.sensors
    && InCall(f, k) && WorkerSim(cfg, lim, n, f, Exec(cfg, Init(n), ls), ls, k) && WorkerOk(lim, f, k)
  }

  /** REGISTER is only called with a valid type. */
  lemma KindIsValid(cfg: Config, lim: Limits, n: nat, f: Fine, ls: seq<Label>, k: nat)
    requires Acting(cfg, lim, n, f, ls, k)
    ensures var p := f.threads[k].frame.value.proc; p.RegisterSensor? ==> p.kind != Invalid
  {
    hide Represents, Disciplined, Exec, SeenIn, FrameSim, RegsOk, AbsThread;
    var w := f.threads[k];
    if w.role.Page? {
      assert Reads(w.role.todo[0]) || w.role.todo[0].WriteLog?;
    }
  }

  lemma PlainFrame(lim: Limits, l: Local, db: D.Db)
    requires RegsOk(lim, l.fr) && MemoryOk(lim, l.mem) && Ordinary(Fetch(lim, l.fr.proc, l.fr.pc))
    requires FrameSim(lim, l.mem, l.fr, db) && (l.fr.proc.RegisterSensor? ==> l.fr.proc.kind != Invalid)
    ensures var l' := Go(lim, l);
            && FrameSim(lim, l'.mem, l'.fr, db) && l'.fr.proc == l.fr.proc
            && PhaseAt(lim, l'.fr.proc, l'.fr.pc) == PhaseAt(lim, l.fr.proc, l.fr.pc) != After
            && (PhaseAt(lim, l.fr.proc, l.fr.pc) != Inside ==> l'.mem == l.mem)
  {
    hide Ready, Finish, Completes, Fetch, Go, PhaseAt, RegsOk, MemoryOk;
    GoOk(lim, l);
    PlainPlace(lim, l.fr);
    if PhaseAt(lim, l.fr.proc, l.fr.pc) == Before {
      StartJump(lim, l);
    } else {
      FinishGo(lim, l);
    }
  }

  /** Another point of the same call, with nothing returned or to be returned yet. */
  lemma StillCalling(cfg: Config, lim: Limits, n: nat, f: Fine, f': Fine, s: System, ls: seq<Label>, k: nat, fr: Frame)
    requires k < |f.threads| == |f'.threads| && WorkerSim(cfg, lim, n, f, s, ls, k) && InCall(f, k)
    requires f'.threads[k] == f.threads[k].(frame := Some(fr)) && fr.proc == f.threads[k].frame.value.proc
    requires PhaseAt(lim, fr.proc, fr.pc) != After
    requires var fr0 := f.threads[k].frame.value; PhaseAt(lim, fr0.proc, fr0.pc) != After
    requires FrameSim(lim, f'.mem, fr, s.db)
    ensures WorkerSim(cfg, lim, n, f', s, ls, k)
  {
    hide SeenIn, FrameSim, Resume, ProcOf, Fetch, PhaseAt;
  }

  lemma PlainTells(cfg: Config, lim: Limits, n: nat, f: Fine, ls: seq<Label>, k: nat)
    requires Acting(cfg, lim, n, f, ls, k)
         && Ordinary(Fetch(lim, f.threads[k].frame.value.proc, f.threads[k].frame.value.pc))
    ensures Tells(cfg, lim, n, f, Run1(cfg, lim, f, k), ls, ls, k)
  {
    KindIsValid(cfg, lim, n, f, ls, k);
    var fr, s := f.threads[k].frame.value, Exec(cfg, Init(n), ls);
    var l := Go(lim, Local(fr, f.mem));
    assert MemoryOk(lim, f.mem) && RegsOk(lim, fr) && FrameSim(lim, f.mem, fr, s.db);
    hide Represents, Disciplined, Exec, FrameSim, Run1, Fetch, Go, PhaseAt, RegsOk, MemoryOk, HandlerSim, PageSim,
        CallFits;
    PlainFrame(lim, Local(fr, f.mem), s.db);
    RunsPlain(cfg, lim, f, k);
    StillCalling(cfg, lim, n, f, Run1(cfg, lim, f, k), s, ls, k, l.fr);
  }

  lemma LockTells(cfg: Config, lim: Limits, n: nat, f: Fine, ls: seq<Label>, k: nat)
    requires Acting(cfg, lim, n, f, ls, k)
         && Fetch(lim, f.threads[k].frame.value.proc, f.threads[k].frame.value.pc).Lock?
    ensures Tells(cfg, lim, n, f, Run1(cfg, lim, f, k), ls, ls, k)
  {
    KindIsValid(cfg, lim, n, f, ls, k);
    var fr, s, f' := f.threads[k].frame.value, Exec(cfg, Init(n), ls), Run1(cfg, lim, f, k);
    assert InCode(fr.proc, fr.pc) && FrameSim(lim, f.mem, fr, s.db);
    LockFrame(lim, f.mem, fr, s.db);
    hide Represents, Disciplined, Exec, FrameSim, Fetch, PhaseAt, RegsOk, HandlerSim, PageSim, CallFits;
    if f'.threads[k] != f.threads[k] {
      StillCalling(cfg, lim, n, f, f', s, ls, k, Following(fr, fr.r));
    }
  }

  /** Locking enters the section at its first instruction, on a memory that stands for the state. */
  lemma LockFrame(lim: Limits, mem: Memory, fr: Frame, db: D.Db)
    requires InCode(fr.proc, fr.pc) && Fetch(lim, fr.proc, fr.pc).Lock? && FrameSim(lim, mem, fr, db)
    requires fr.proc.RegisterSensor? ==> fr.proc.kind != Invalid
    ensures var m, fr' := Fetch(lim, fr.proc, fr.pc).m, Following(fr, fr.r);
            && m == MutexOf(fr.proc) && PhaseAt(lim, fr.proc, fr.pc) == Before
                && PhaseAt(lim, fr.proc, fr'.pc) == Inside
            && (m == LogMutex || Represents(lim, mem, db) ==> FrameSim(lim, mem, fr', db))
  {
    StandsInside(lim, fr.proc, fr.pc);
    FlowKeepsPhase(lim, fr.proc, fr.pc, fr.pc + 1);
    NoLockAtStart(lim, fr.proc);
    hide Represents, Ready, Finish, Completes, Fetch, PhaseAt;
    if MutexOf(fr.proc) == StateMutex && Represents(lim, mem, db) {
      assert Following(fr, fr.r) == Inner(fr.proc);
      SectionMeans(lim, fr.proc, mem, db);
    }
  }

  lemma NoLockAtStart(lim: Limits, p: Proc)
    ensures p.RegisterSensor? ==> !Fetch(lim, p, 0).Lock?
  {
  }

  lemma PrintTells(cfg: Config, lim: Limits, n: nat, f: Fine, ls: seq<Label>, k: nat)
    requires Acting(cfg, lim, n, f, ls, k)
         && Fetch(lim, f.threads[k].frame.value.proc, f.threads[k].frame.value.pc).Print?
    ensures Tells(cfg, lim, n, f, Run1(cfg, lim, f, k), ls, ls, k)
  {
    var fr, s, f' := f.threads[k].frame.value, Exec(cfg, Init(n), ls), Run1(cfg, lim, f, k);
    assert InCode(fr.proc, fr.pc);
    StandsInside(lim, fr.proc, fr.pc);
    FlowKeepsPhase(lim, fr.proc, fr.pc, fr.pc + 1);
    hide Represents, Disciplined, Exec, Fetch, PhaseAt, RegsOk, HandlerSim, PageSim, CallFits;
    StillCalling(cfg, lim, n, f, f', s, ls, k, Following(fr, fr.r));
  }

  /** The critical section of a handler is its function's meaning. */
  lemma SectionIs(cfg: Config, lim: Limits, db: D.Db, pc: Pc)
    requires Working(pc) && cfg.cap == lim.sensors
    ensures MutexOf(ProcOf(pc)) == StateMutex
    ensures var (db', out) := Meaning(lim, ProcOf(pc), db);
            Section(cfg, db, pc) == (db', Resume(cfg, pc, out))
  {
    hide D.IndexOf, D.Put;
  }

  lemma ReadsKeep(lim: Limits, p: Proc, db: D.Db)
    requires Reads(p)
    ensures MutexOf(p) == StateMutex && Meaning(lim, p, db).0 == db
  {
  }

  /** Unlocking leaves a section with its work done. */
  lemma UnlockFrame(lim: Limits, mem: Memory, fr: Frame, db: D.Db)
    requires InCode(fr.proc, fr.pc) && Fetch(lim, fr.proc, fr.pc).Unlock? && FrameSim(lim, mem, fr, db)
    ensures var fr' := Following(fr, fr.r);
            && Fetch(lim, fr.proc, fr.pc).m == MutexOf(fr.proc)
            && PhaseAt(lim, fr.proc, fr.pc) == Inside && PhaseAt(lim, fr.proc, fr'.pc) == After
            && Fetch(lim, fr.proc, fr'.pc).Ret? && FrameSim(lim, mem, fr', db)
            && (MutexOf(fr.proc) == StateMutex ==>
                  && Represents(lim, mem, Meaning(lim, fr.proc, db).0)
                  && ReturnValue(fr.r, Fetch(lim, fr.proc, fr'.pc).value) == Meaning(lim, fr.proc, db).1)
  {
    StandsInside(lim, fr.proc, fr.pc);
    FlowKeepsPhase(lim, fr.proc, fr.pc, fr.pc + 1);
    AfterIsReturn(lim, fr.proc, fr.pc + 1);
    hide Represents, Ready, Finish, Fetch, PhaseAt, Meaning;
    if MutexOf(fr.proc) == StateMutex {
      AtUnlock(lim, Local(fr, mem));
    }
  }

  lemma AfterIsReturn(lim: Limits, p: Proc, pc: nat)
    requires PhaseAt(lim, p, pc) == After
    ensures Fetch(lim, p, pc).Ret?
  {
  }

  lemma SectionStep(cfg: Config, s: System, k: nat)
    requires k < |s.threads| && Working(s.threads[k].pc)
    ensures var s', t := Step(cfg, s, Run(k)), s.threads[k];
            && s'.db == Section(cfg, s.db, t.pc).0 && s'.answers == s.answers
            && s'.threads == s.threads[k := Thread(Section(cfg, s.db, t.pc).1, t.cmd)]
  {
    hide Section, Committed;
  }

  /** A handler that has unlocked is where the transition system has it after its section. */
  lemma UnlockedSim(cfg: Config, lim: Limits, n: nat, f: Fine, f': Fine, s: System, s': System, ls: seq<Label>,
      ls': seq<Label>, k: nat)
    requires k < |f.threads| == |f'.threads| && k < |s'.threads|
    requires WorkerSim(cfg, lim, n, f, s, ls, k) && InCall(f, k) && f.threads[k].role.Handler?
         && f.threads[k].role.logs == 0
    requires Working(f.threads[k].role.pc)
        && !Resume(cfg, f.threads[k].role.pc, Meaning(lim, ProcOf(f.threads[k].role.pc), s.db).1).AtRegister?
    requires var fr := f.threads[k].frame.value;
             var fr' := Following(fr, fr.r);
             && f'.threads[k] == f.threads[k].(frame := Some(fr')) && FrameSim(lim, f'.mem, fr', s'.db)
             && PhaseAt(lim, fr.proc, fr'.pc) == After && Fetch(lim, fr.proc, fr'.pc).Ret?
             && ReturnValue(fr.r, Fetch(lim, fr.proc, fr'.pc).value)
                 == Meaning(lim, ProcOf(f.threads[k].role.pc), s.db).1
    requires s'.threads[k]
        == Thread(Resume(cfg, f.threads[k].role.pc, Meaning(lim, ProcOf(f.threads[k].role.pc), s.db).1),
            f.threads[k].role.cmd)
    ensures WorkerSim(cfg, lim, n, f', s', ls', k)
  {
    hide Fetch, PhaseAt, FrameSim, Meaning, Resume, ProcOf, ReturnValue;
  }

  lemma HandlerUnlocks(cfg: Config, lim: Limits, n: nat, f: Fine, ls: seq<Label>, k: nat)
    requires Acting(cfg, lim, n, f, ls, k) && f.threads[k].role.Handler?
    requires Fetch(lim, f.threads[k].frame.value.proc, f.threads[k].frame.value.pc) == Unlock(StateMutex)
    ensures Tells(cfg, lim, n, f, Run1(cfg, lim, f, k), ls, ls + [Run(k)], k)
  {
    var fr, s, f' := f.threads[k].frame.value, Exec(cfg, Init(n), ls), Run1(cfg, lim, f, k);
    var pc := f.threads[k].role.pc;
    var fr' := Following(fr, fr.r);
    assert InCode(fr.proc, fr.pc) && FrameSim(lim, f.mem, fr, s.db) && CallFits(f.threads[k]);
    assert f.stateOwner == Some(k) && Within(lim, f.threads[k], StateMutex) by {
      UnlockFrame(lim, f.mem, fr, s.db);
    }
    assert s.threads[k] == Thread(pc, f.threads[k].role.cmd);
    UnlockFrame(lim, f.mem, fr, s.db);
    assert f'.threads == f.threads[k := f.threads[k].(frame := Some(fr'))] && f'.mem == f.mem
        && f'.answers == f.answers;
    hide Represents, Disciplined, Exec, FrameSim, Fetch, PhaseAt, RegsOk, Section, Meaning, Resume, ProcOf, Step,
        Run1, ReturnValue, WorkerSim;
    SectionIs(cfg, lim, s.db, pc);
    SectionStep(cfg, s, k);
    ExecSnoc(cfg, Init(n), ls, Run(k));
    ResumeKind(cfg, pc, Meaning(lim, fr.proc, s.db).1);
    AfterFrame(lim, f.mem, fr', s.db, Step(cfg, s, Run(k)).db);
    UnlockedSim(cfg, lim, n, f, f', s, Step(cfg, s, Run(k)), ls, ls + [Run(k)], k);
  }

  lemma AfterFrame(lim: Limits, mem: Memory, fr: Frame, db: D.Db, db': D.Db)
    requires FrameSim(lim, mem, fr, db) && PhaseAt(lim, fr.proc, fr.pc) == After
    ensures FrameSim(lim, mem, fr, db')
  {
  }

  lemma ResumeKind(cfg: Config, pc: Pc, out: Result)
    requires Working(pc)
    ensures !Resume(cfg, pc, out).AtRegister?
  {
  }

  lemma QuietUnlocks(cfg: Config, lim: Limits, n: nat, f: Fine, ls: seq<Label>, k: nat)
    requires Acting(cfg, lim, n, f, ls, k)
    requires var ins := Fetch(lim, f.threads[k].frame.value.proc, f.threads[k].frame.value.pc);
             ins.Unlock? && (ins.m == LogMutex || f.threads[k].role.Page?)
    ensures Tells(cfg, lim, n, f, Run1(cfg, lim, f, k), ls, ls, k)
  {
    var fr, s, f' := f.threads[k].frame.value, Exec(cfg, Init(n), ls), Run1(cfg, lim, f, k);
    assert InCode(fr.proc, fr.pc) && FrameSim(lim, f.mem, fr, s.db);
    UnlockFrame(lim, f.mem, fr, s.db);
    hide Represents, Disciplined, Exec, FrameSim, Fetch, PhaseAt, RegsOk, Resume, ProcOf;
    if f.threads[k].role.Page? {
      assert Reads(fr.proc) || fr.proc.WriteLog?;
      if MutexOf(fr.proc) == StateMutex {
        ReadsKeep(lim, fr.proc, s.db);
        SeenNow(cfg, lim, n, ls, fr.proc);
      }
    }
    hide Meaning, SeenIn, Reads;
  }

  lemma ReturnTells(cfg: Config, lim: Limits, n: nat, f: Fine, ls: seq<Label>, k: nat)
    requires Acting(cfg, lim, n, f, ls, k)
         && Fetch(lim, f.threads[k].frame.value.proc, f.threads[k].frame.value.pc).Ret?
    ensures Tells(cfg, lim, n, f, Run1(cfg, lim, f, k), ls, ls, k)
  {
    KindIsValid(cfg, lim, n, f, ls, k);
    var fr, s, f' := f.threads[k].frame.value, Exec(cfg, Init(n), ls), Run1(cfg, lim, f, k);
    assert InCode(fr.proc, fr.pc) && FrameSim(lim, f.mem, fr, s.db);
    ReturnPlace(lim, fr);
    hide Represents, Disciplined, Exec, FrameSim, Fetch, PhaseAt, RegsOk, Resume, ProcOf, SeenIn;
  }

  lemma ReturnPlace(lim: Limits, fr: Frame)
    requires InCode(fr.proc, fr.pc) && Fetch(lim, fr.proc, fr.pc).Ret?
    requires PhaseAt(lim, fr.proc, fr.pc) == Before ==> fr.pc <= 1
    ensures PhaseAt(lim, fr.proc, fr.pc) == After
  {
  }

  lemma TickTells(cfg: Config, lim: Limits, n: nat, f: Fine, ls: seq<Label>, k: nat)
    requires Acting(cfg, lim, n, f, ls, k)
    ensures Tells(cfg, lim, n, f, Run1(cfg, lim, f, k), ls, ls + Emits(lim, f, Tick(k)), k)
  {
    assert InCall(f, k);
    hide Acting, Tells, Run1, Fetch;
    assert ls + [] == ls;
    var ins := Fetch(lim, f.threads[k].frame.value.proc, f.threads[k].frame.value.pc);
    match ins
    case Lock(_) => LockTells(cfg, lim, n, f, ls, k);
    case Unlock(m) =>
      if m == StateMutex && f.threads[k].role.Handler? {
        HandlerUnlocks(cfg, lim, n, f, ls, k);
      } else {
        QuietUnlocks(cfg, lim, n, f, ls, k);
      }
    case Print(_, _) => PrintTells(cfg, lim, n, f, ls, k);
    case Ret(_) => ReturnTells(cfg, lim, n, f, ls, k);
    case _ => PlainTells(cfg, lim, n, f, ls, k);
  }

  lemma ActTells(cfg: Config, lim: Limits, n: nat, f: Fine, ls: seq<Label>, a: Act)
    requires Sim(cfg, lim, n, f, ls) && Sized(lim) && cfg.cap == lim.sensors && Actor(a) < |f.threads|
    ensures var f' := Do(cfg, lim, f, a);
            (f' == f && Emits(lim, f, a) == []) || Tells(cfg, lim, n, f, f', ls, ls + Emits(lim, f, a), Actor(a))
  {
    var k := Actor(a);
    assert WorkerSim(cfg, lim, n, f, Exec(cfg, Init(n), ls), ls, k) && WorkerOk(lim, f, k);
    assert ls + [] == ls;
    if a.Tick? && InCall(f, k) {
      assert Acting(cfg, lim, n, f, ls, k);
      hide Sim, Tells, Run1, WorkerSim, WorkerOk, Fetch;
      TickTells(cfg, lim, n, f, ls, k);
    } else {
      hide Sim, Tells, Run1, WorkerSim, WorkerOk, Fetch;
      match a
      case Net(l) => if Accepts(f, l) { NetTells(cfg, lim, n, f, ls, l); }
      case Send(_) => if AtLeisure(f, k) && f.threads[k].role.pc.AtReply? { SendTells(cfg, lim, n, f, ls, k); }
      case Request(_, route, line) => RequestTells(cfg, lim, n, f, ls, k, route, line);
      case Call(_, line) => CallTells(cfg, lim, n, f, ls, k, line);
      case Tick(_) =>
    }
  }

  /** One act keeps the two together. */
  lemma StepSim(cfg: Config, lim: Limits, n: nat, f: Fine, ls: seq<Label>, a: Act)
    requires Sim(cfg, lim, n, f, ls) && Sized(lim) && cfg.cap == lim.sensors
    ensures Sim(cfg, lim, n, Do(cfg, lim, f, a), ls + Emits(lim, f, a))
  {
    assert ls + [] == ls;
    DoOk(cfg, lim, f, a);
    hide Sim, Tells, Disciplined, Fetch;
    if Actor(a) < |f.threads| {
      ActTells(cfg, lim, n, f, ls, a);
      hide Do, Emits;
      if Do(cfg, lim, f, a) != f || Emits(lim, f, a) != [] {
        AllSim(cfg, lim, n, f, Do(cfg, lim, f, a), ls, ls + Emits(lim, f, a), Actor(a));
      }
    }
  }

  /** The steps a run of the machine amounts to, in order. */
  function AllEmitted(cfg: Config, lim: Limits, f: Fine, acts: seq<Act>): seq<Label>
    decreases |acts|
  {
    if acts == [] then [] else Emits(lim, f, acts[0]) + AllEmitted(cfg, lim, Do(cfg, lim, f, acts[0]), acts[1..])
  }

  lemma {:induction false} RunsSim(cfg: Config, lim: Limits, n: nat, f: Fine, ls: seq<Label>, acts: seq<Act>)
    requires Sim(cfg, lim, n, f, ls) && Sized(lim) && cfg.cap == lim.sensors
    ensures Sim(cfg, lim, n, DoAll(cfg, lim, f, acts), ls + AllEmitted(cfg, lim, f, acts))
    decreases |acts|
  {
    hide Sim, Do, Emits;
    if acts == [] {
      assert ls + [] == ls;
    } else {
      var now := Emits(lim, f, acts[0]);
      var f1, later := Do(cfg, lim, f, acts[0]), AllEmitted(cfg, lim, Do(cfg, lim, f, acts[0]), acts[1..]);
      StepSim(cfg, lim, n, f, ls, acts[0]);
      RunsSim(cfg, lim, n, f1, ls + now, acts[1..]);
      assert ls + now + later == ls + (now + later);
    }
  }

  lemma BeginSim(cfg: Config, lim: Limits, n: nat, pages: nat)
    requires Sized(lim)
    ensures Sim(cfg, lim, n, Begin(lim, n, pages), [])
  {
    var f := Begin(lim, n, pages);
    ExecNone(cfg, Init(n));
    hide Exec;
    assert Represents(lim, f.mem, D.EMPTY);
    assert Disciplined(lim, f);
  }

  // The results

  /** The connections as an observer finds them between their calls. */
  ghost predicate Matches(cfg: Config, lim: Limits, n: nat, f: Fine, s: System) {
    && |s.threads| == n <= |f.threads| && f.answers == s.answers
    && (f.stateOwner == None ==> Represents(lim, f.mem, s.db))
    && forall k :: 0 <= k < n && f.threads[k].frame == None ==>
         f.threads[k].role.Handler? && s.threads[k] == Thread(f.threads[k].role.pc, f.threads[k].role.cmd)
  }

  /** The run of whole sections that belongs to a run of the machine from its start. */
  function Matching(cfg: Config, lim: Limits, n: nat, pages: nat, acts: seq<Act>): seq<Label> {
    AllEmitted(cfg, lim, Begin(lim, n, pages), acts)
  }

  lemma MatchingSim(cfg: Config, lim: Limits, n: nat, pages: nat, acts: seq<Act>)
    requires Sized(lim) && cfg.cap == lim.sensors
    ensures Sim(cfg, lim, n, DoAll(cfg, lim, Begin(lim, n, pages), acts), Matching(cfg, lim, n, pages, acts))
  {
    hide Sim, Begin, AllEmitted, DoAll;
    BeginSim(cfg, lim, n, pages);
    RunsSim(cfg, lim, n, Begin(lim, n, pages), [], acts);
    assert [] + Matching(cfg, lim, n, pages, acts) == Matching(cfg, lim, n, pages, acts);
  }

  /** What the network brings in a run of whole sections. */
  function Inputs(ls: seq<Label>): seq<Label> {
    if ls == [] then [] else (if ls[0].Run? then [] else [ls[0]]) + Inputs(ls[1..])
  }

  /** What the network brings to the machine, and the machine takes. */
  function Taken(cfg: Config, lim: Limits, f: Fine, acts: seq<Act>): seq<Label>
    decreases |acts|
  {
    if acts == [] then []
    else
      (if acts[0].Net? && Accepts(f, acts[0].l) then [acts[0].l] else [])
      + Taken(cfg, lim, Do(cfg, lim, f, acts[0]), acts[1..])
  }

  lemma {:induction false} InputsConcat(a: seq<Label>, b: seq<Label>)
    ensures Inputs(a + b) == Inputs(a) + Inputs(b)
    decreases |a|
  {
    if a == [] {
      assert a + b == b;
    } else {
      assert (a + b)[1..] == a[1..] + b;
      InputsConcat(a[1..], b);
    }
  }

  lemma {:induction false} InputsAreTaken(cfg: Config, lim: Limits, f: Fine, acts: seq<Act>)
    ensures Inputs(AllEmitted(cfg, lim, f, acts)) == Taken(cfg, lim, f, acts)
    decreases |acts|
  {
    if acts != [] {
      var f1 := Do(cfg, lim, f, acts[0]);
      EmitsInputs(lim, f, acts[0]);
      hide Do, Emits, Accepts;
      InputsConcat(Emits(lim, f, acts[0]), AllEmitted(cfg, lim, f1, acts[1..]));
      InputsAreTaken(cfg, lim, f1, acts[1..]);
    }
  }

  lemma EmitsInputs(lim: Limits, f: Fine, a: Act)
    ensures Inputs(Emits(lim, f, a)) == if a.Net? && Accepts(f, a.l) then [a.l] else []
  {
    hide Fetch;
    assert forall l: Label :: [l][1..] == [];
    var ls := Emits(lim, f, a);
    if ls != [] {
      assert ls == [ls[0]] && Inputs(ls) == (if ls[0].Run? then [] else [ls[0]]) + Inputs([]);
    }
  }

  /**
   Locking is sound: whatever the interleaving of instructions, the replies sent, the places of the
   connections and the memory left when the state mutex is free are those of a run of whole sections, in
   which the connections open, receive and close exactly as they did on the machine, in the same order.
   */
  lemma LockedRunsAreAtomic(cfg: Config, lim: Limits, n: nat, pages: nat, acts: seq<Act>)
    requires Sized(lim) && cfg.cap == lim.sensors
    ensures var f, ls := Begin(lim, n, pages), Matching(cfg, lim, n, pages, acts);
            && Matches(cfg, lim, n, DoAll(cfg, lim, f, acts), Exec(cfg, Init(n), ls))
            && Inputs(ls) == Taken(cfg, lim, f, acts)
  {
    MatchingSim(cfg, lim, n, pages, acts);
    SimMatches(cfg, lim, n, DoAll(cfg, lim, Begin(lim, n, pages), acts), Matching(cfg, lim, n, pages, acts));
    InputsAreTaken(cfg, lim, Begin(lim, n, pages), acts);
  }

  lemma SimMatches(cfg: Config, lim: Limits, n: nat, f: Fine, ls: seq<Label>)
    requires Sim(cfg, lim, n, f, ls)
    ensures Matches(cfg, lim, n, f, Exec(cfg, Init(n), ls))
  {
    hide Represents, Disciplined, Exec, PageSim;
    forall k | 0 <= k < n && f.threads[k].frame == None
      ensures f.threads[k].role.Handler?
      ensures Exec(cfg, Init(n), ls).threads[k] == Thread(f.threads[k].role.pc, f.threads[k].role.cmd)
    {
      assert WorkerSim(cfg, lim, n, f, Exec(cfg, Init(n), ls), ls, k);
    }
  }

  /** Everything a page ever read under the mutex is what one state of the run of whole sections holds. */
  lemma PagesSeeOneState(cfg: Config, lim: Limits, n: nat, pages: nat, acts: seq<Act>, k: nat, i: nat)
    requires Sized(lim) && cfg.cap == lim.sensors
    requires var f := DoAll(cfg, lim, Begin(lim, n, pages), acts);
             k < |f.threads| && f.threads[k].role.Page? && i < |f.threads[k].role.shown|
    ensures var shown := DoAll(cfg, lim, Begin(lim, n, pages), acts).threads[k].role.shown[i];
            SeenIn(cfg, lim, n, Matching(cfg, lim, n, pages, acts), shown.proc, shown.result)
  {
    MatchingSim(cfg, lim, n, pages, acts);
    var f, ls := DoAll(cfg, lim, Begin(lim, n, pages), acts), Matching(cfg, lim, n, pages, acts);
    hide Matching, SeenIn, Disciplined, Represents, Exec, DoAll, HandlerSim;
    assert WorkerSim(cfg, lim, n, f, Exec(cfg, Init(n), ls), ls, k);
  }

  /** Entry by entry: some state of that run has the records, log entries and counts that the page read. */
  lemma PagesInWords(cfg: Config, lim: Limits, n: nat, pages: nat, acts: seq<Act>, k: nat, i: nat)
    requires Sized(lim) && cfg.cap == lim.sensors
    requires var f := DoAll(cfg, lim, Begin(lim, n, pages), acts);
             k < |f.threads| && f.threads[k].role.Page? && i < |f.threads[k].role.shown|
    ensures var shown := DoAll(cfg, lim, Begin(lim, n, pages), acts).threads[k].role.shown[i];
            var ls := Matching(cfg, lim, n, pages, acts);
            MutexOf(shown.proc) == StateMutex ==>
              exists j :: 0 <= j <= |ls| && Returns(lim, shown.proc, Exec(cfg, Init(n), ls[..j]).db, shown.result)
  {
    PagesSeeOneState(cfg, lim, n, pages, acts, k, i);
    var shown, ls :=
      DoAll(cfg, lim, Begin(lim, n, pages), acts).threads[k].role.shown[i], Matching(cfg, lim, n, pages, acts);
    hide Meaning, Returns, Exec, DoAll, Matching;
    if MutexOf(shown.proc) == StateMutex {
      var j :| 0 <= j <= |ls| && shown.result == Meaning(lim, shown.proc, Exec(cfg, Init(n), ls[..j]).db).1;
      MeaningReturns(lim, shown.proc, Exec(cfg, Init(n), ls[..j]).db);
    }
  }

  /**
   And it is the state of that very moment: what a page is about to return when it unlocks is what the state
   holds.
   */
  lemma PageReadsPresent(cfg: Config, lim: Limits, n: nat, f: Fine, ls: seq<Label>, k: nat)
    requires Sim(cfg, lim, n, f, ls) && InCall(f, k) && f.threads[k].role.Page?
    requires Fetch(lim, f.threads[k].frame.value.proc, f.threads[k].frame.value.pc) == Unlock(StateMutex)
    ensures var fr, db := f.threads[k].frame.value, Exec(cfg, Init(n), ls).db;
            && Represents(lim, f.mem, db) && MutexOf(fr.proc) == StateMutex
            && Fetch(lim, fr.proc, fr.pc + 1).Ret?
            && ReturnValue(fr.r, Fetch(lim, fr.proc, fr.pc + 1).value) == Meaning(lim, fr.proc, db).1
  {
    var fr, s := f.threads[k].frame.value, Exec(cfg, Init(n), ls);
    assert WorkerSim(cfg, lim, n, f, s, ls, k) && WorkerOk(lim, f, k);
    assert InCode(fr.proc, fr.pc) && FrameSim(lim, f.mem, fr, s.db);
    UnlockFrame(lim, f.mem, fr, s.db);
    assert Reads(fr.proc) || fr.proc.WriteLog?;
    hide Represents, Disciplined, Exec, Fetch, PhaseAt, FrameSim;
    ReadsKeep(lim, fr.proc, s.db);
  }
}
