/**
 What happens to one id does not depend on the commands that name other ids: deleting those commands
 from an interleaved run changes neither the id's record, nor its metrics and alerts, nor any reply
 to a command that names it.
 */
module NonInterference {
  import opened Records
  import opened Text
  import opened Database
  import opened Server
  import opened Lifecycle
  import opened Alternation
  import opened Conservation
  import opened Capacity

  predicate About(cmd: seq<string>, x: string) {
    |cmd| >= 2 && cmd[1] == x
  }

  /** Steps kept for `x`: those of commands that name `x`, and connections opening and closing. */
  predicate Kept(s: System, l: Label, x: string) {
    Enabled(s, l) &&
    match l
    case Receive(_, tokens) => About(tokens, x)
    case Run(k) => About(s.threads[k].cmd, x)
    case _ => true
  }

  /** The run without the commands that do not name `x`. */
  function Project(cfg: Config, s: System, ls: seq<Label>, x: string): seq<Label>
    decreases |ls|
  {
    if ls == [] then []
    else (if Kept(s, ls[0], x) then [ls[0]] else []) + Project(cfg, Step(cfg, s, ls[0]), ls[1..], x)
  }

  function AnswersTo(answers: seq<Answer>, x: string): seq<Answer> {
    if answers == [] then []
    else
      var a := answers[|answers| - 1];
      AnswersTo(answers[..|answers| - 1], x) + if About(a.cmd, x) then [a] else []
  }

  function MetricsOf(log: seq<Metric>, x: string): seq<Metric> {
    if log == [] then []
    else
      var m := log[|log| - 1];
      MetricsOf(log[..|log| - 1], x) + if m.sensorId == x then [m] else []
  }

  function AlertsOf(log: seq<AlertRecord>, x: string): seq<AlertRecord> {
    if log == [] then []
    else
      var a := log[|log| - 1];
      AlertsOf(log[..|log| - 1], x) + if a.sensorId == x then [a] else []
  }

  /** The two states look the same to `x`. */
  ghost predicate SameView(a: Db, b: Db, x: string) {
    && Lookup(a.table, x) == Lookup(b.table, x)
    && MetricsOf(a.metrics, x) == MetricsOf(b.metrics, x)
    && AlertsOf(a.alerts, x) == AlertsOf(b.alerts, x)
  }

  /** Thread `u` of the projected run while thread `t` of the full run serves any command. */
  ghost predicate ThreadsAlign(t: Thread, u: Thread, x: string) {
    if About(t.cmd, x) then u == t
    else u.cmd == [] && (u.pc == Idle || (u.pc == Closed && t.pc == Closed))
  }

  ghost predicate Aligned(s: System, p: System, x: string) {
    && SameView(s.db, p.db, x) && |p.db.table| <= |s.db.table|
    && |s.threads| == |p.threads|
    && (forall k :: 0 <= k < |s.threads| ==> ThreadsAlign(s.threads[k], p.threads[k], x))
    && p.answers == AnswersTo(s.answers, x)
  }

  /** No REGISTER of `x` has been refused for want of room. */
  ghost predicate NeverRefused(s: System, x: string) {
    && (forall k :: 0 <= k < |s.answers| && About(s.answers[k].cmd, x) ==> s.answers[k].reply != InternalError)
    && (forall k :: 0 <= k < |s.threads| && About(s.threads[k].cmd, x) ==> s.threads[k].pc != AtReply(InternalError))
  }

  // One critical section, seen by x

  lemma MetricsSnoc(log: seq<Metric>, m: Metric, x: string)
    ensures MetricsOf(log + [m], x) == MetricsOf(log, x) + if m.sensorId == x then [m] else []
  {
    assert (log + [m])[..|log|] == log;
  }

  lemma AlertsSnoc(log: seq<AlertRecord>, a: AlertRecord, x: string)
    ensures AlertsOf(log + [a], x) == AlertsOf(log, x) + if a.sensorId == x then [a] else []
  {
    assert (log + [a])[..|log|] == log;
  }

  lemma AnswersSnoc(answers: seq<Answer>, a: Answer, x: string)
    ensures AnswersTo(answers + [a], x) == AnswersTo(answers, x) + if About(a.cmd, x) then [a] else []
  {
    assert (answers + [a])[..|answers|] == answers;
  }

  /** The metric and alert entries of one critical section. */
  lemma SectionEntries(cfg: Config, db: Db, t: Thread, x: string)
    requires Working(t.pc) && ThreadOk(cfg, db, t) && Whole(db)
    ensures var db' := Section(cfg, db, t.pc).0;
            && MetricsOf(db'.metrics, x)
               == MetricsOf(db.metrics, x) + (if Adds(db, t.pc) && t.pc.id == x then [Added(t.pc)] else [])
            && AlertsOf(db'.alerts, x)
               == AlertsOf(db.alerts, x) + (if t.pc.AtAddAlert? && t.pc.id == x
                    then [AlertEntry(x, t.pc.value, t.pc.bound, t.pc.ts, TypeName(t.pc.kind))] else [])
  {
    hide Section, Lookup, MetricsOf, AlertsOf;
    SectionLogs(cfg, db, t.pc);
    if Adds(db, t.pc) {
      FoundIsShort(db, t.pc.id);
      MetricsSnoc(db.metrics, Added(t.pc), x);
    }
    if t.pc.AtAddAlert? {
      FoundIsShort(db, t.pc.id);
      AlertsSnoc(db.alerts, AlertEntry(t.pc.id, t.pc.value, t.pc.bound, t.pc.ts, TypeName(t.pc.kind)), x);
    }
  }

  /** The step gives a slot to another id that is cut to `x`, while `x` is unknown. */
  ghost predicate Takes(cfg: Config, s: System, l: Label, x: string) {
    && Enabled(s, l) && l.Run? && Working(s.threads[l.thread].pc)
    && TakesAt(cfg, s.db, s.threads[l.thread].pc, x)
  }

  ghost predicate TakesAt(cfg: Config, db: Db, pc: Pc, x: string) {
    Appends(cfg, db, pc) && pc.id != x && Cut(pc.id, MAX_ID_LEN) == x && Lookup(db.table, x).None?
  }

  /** No step of the run does. */
  ghost predicate NeverTaken(cfg: Config, s: System, ls: seq<Label>, x: string)
    decreases |ls|
  {
    ls == [] || (!Takes(cfg, s, ls[0], x) && NeverTaken(cfg, Step(cfg, s, ls[0]), ls[1..], x))
  }

  /** A critical section of another id is invisible to `x`. */
  lemma SectionElsewhere(cfg: Config, db: Db, t: Thread, x: string)
    requires Working(t.pc) && ThreadOk(cfg, db, t) && Whole(db)
    requires t.pc.id != x && !TakesAt(cfg, db, t.pc, x)
    ensures var db' := Section(cfg, db, t.pc).0;
            SameView(db, db', x) && |db.table| <= |db'.table|
  {
    hide Section, IndexOf, MetricsOf, AlertsOf;
    SectionEntries(cfg, db, t, x);
    if Appends(cfg, db, t.pc) {
      SectionAppends(cfg, db, t.pc, x);
    } else {
      SectionLookup(cfg, db, t.pc, x);
    }
  }

  /** A critical section of `x` depends on nothing but what `x` sees, unless the table is full. */
  lemma SectionHere(cfg: Config, a: Db, b: Db, t: Thread)
    requires Working(t.pc) && ThreadOk(cfg, a, t) && Whole(a) && ThreadOk(cfg, b, t) && Whole(b)
    requires SameView(a, b, t.pc.id) && |b.table| <= |a.table|
    requires Section(cfg, a, t.pc).1 != AtReply(InternalError)
    ensures var (a', pc') := Section(cfg, a, t.pc);
            var (b', qc') := Section(cfg, b, t.pc);
            SameView(a', b', t.pc.id) && |b'.table| <= |a'.table| && pc' == qc'
  {
    var x := t.pc.id;
    NextPcHere(cfg, a, b, t.pc);
    hide Section, IndexOf, MetricsOf, AlertsOf;
    SectionEntries(cfg, a, t, x);
    SectionEntries(cfg, b, t, x);
    assert Appends(cfg, a, t.pc) <==> Appends(cfg, b, t.pc);
    if Appends(cfg, a, t.pc) {
      SectionAppends(cfg, a, t.pc, x);
      SectionAppends(cfg, b, t.pc, x);
    } else {
      SectionLookup(cfg, a, t.pc, x);
      SectionLookup(cfg, b, t.pc, x);
    }
  }

  lemma NextPcHere(cfg: Config, a: Db, b: Db, pc: Pc)
    requires Working(pc) && Lookup(a.table, pc.id) == Lookup(b.table, pc.id) && |b.table| <= |a.table|
    requires Section(cfg, a, pc).1 != AtReply(InternalError)
    ensures Section(cfg, b, pc).1 == Section(cfg, a, pc).1
    ensures Appends(cfg, a, pc) <==> Appends(cfg, b, pc)
  {
    hide IndexOf, Put;
  }

  // Steps and runs

  lemma WorkingNames(cfg: Config, db: Db, t: Thread, x: string)
    requires ThreadOk(cfg, db, t) && Working(t.pc)
    ensures About(t.cmd, x) <==> t.pc.id == x
  {
    hide Lookup, LevelFor;
  }

  lemma OneAligns(s: System, p: System, s': System, p': System, k: nat, x: string)
    requires Aligned(s, p, x) && k < |s.threads| && |s'.threads| == |s.threads| && |p'.threads| == |p.threads|
    requires s'.threads == s.threads[k := s'.threads[k]] && p'.threads == p.threads[k := p'.threads[k]]
    requires ThreadsAlign(s'.threads[k], p'.threads[k], x)
    requires SameView(s'.db, p'.db, x) && |p'.db.table| <= |s'.db.table|
    requires p'.answers == AnswersTo(s'.answers, x)
    ensures Aligned(s', p', x)
  {
    hide SameView, ThreadsAlign, AnswersTo;
    forall j | 0 <= j < |s'.threads| ensures ThreadsAlign(s'.threads[j], p'.threads[j], x) {
      assert ThreadsAlign(s.threads[j], p.threads[j], x);
    }
  }

  lemma StepKept(cfg: Config, s: System, p: System, l: Label, x: string)
    requires Accounted(cfg, s) && Accounted(cfg, p) && Aligned(s, p, x)
    requires Kept(s, l, x) && NeverRefused(Step(cfg, s, l), x)
    ensures Aligned(Step(cfg, s, l), Step(cfg, p, l), x)
  {
    var k := l.thread;
    var t := s.threads[k];
    assert ThreadsAlign(t, p.threads[k], x) && ThreadOk(cfg, s.db, t) && ThreadOk(cfg, p.db, p.threads[k]);
    if l.Run? && Working(t.pc) {
      var s' := Step(cfg, s, l);
      assert s'.threads[k].pc != AtReply(InternalError);
      hide Section, SameView, Whole, SamplesBalance, AnswersTo, ThreadOk;
      WorkingNames(cfg, s.db, t, x);
      SectionHere(cfg, s.db, p.db, t);
      OneAligns(s, p, s', Step(cfg, p, l), k, x);
    } else {
      hide SameView, Whole, SamplesBalance, AnswersTo, ThreadOk, Dispatch;
      if l.Run? {
        AnswersSnoc(s.answers, Answer(k, t.cmd, t.pc.reply), x);
      } else {
        RestsEmpty(cfg, s.db, t);
      }
      OneAligns(s, p, Step(cfg, s, l), Step(cfg, p, l), k, x);
    }
  }

  lemma RestsEmpty(cfg: Config, db: Db, t: Thread)
    requires ThreadOk(cfg, db, t) && (t.pc.Idle? || t.pc.Closed?)
    ensures t.cmd == []
  {
  }

  lemma StepDropped(cfg: Config, s: System, p: System, l: Label, x: string)
    requires Accounted(cfg, s) && Aligned(s, p, x) && !Takes(cfg, s, l, x)
    requires Enabled(s, l) && !Kept(s, l, x)
    ensures Aligned(Step(cfg, s, l), p, x)
  {
    var k := l.thread;
    var t := s.threads[k];
    assert ThreadOk(cfg, s.db, t);
    hide Section, Dispatch, ThreadOk, Suits, Whole, SamplesBalance, Lookup, MetricsOf, AlertsOf, TakesAt;
    assert ThreadsAlign(t, p.threads[k], x);
    if l.Run? {
      if t.pc.AtReply? {
        AnswersSnoc(s.answers, Answer(k, t.cmd, t.pc.reply), x);
        assert AnswersTo(s.answers, x) + [] == AnswersTo(s.answers, x);
      } else {
        WorkingNames(cfg, s.db, t, x);
        SectionElsewhere(cfg, s.db, t, x);
      }
    } else {
      RestsEmpty(cfg, s.db, t);
    }
  }

  lemma RefusedStays(cfg: Config, s: System, l: Label, k: nat, x: string)
    requires k < |s.threads| && About(s.threads[k].cmd, x) && s.threads[k].pc == AtReply(InternalError)
    ensures !NeverRefused(Step(cfg, s, l), x)
  {
    var s' := Step(cfg, s, l);
    if l == Run(k) {
      assert s'.answers[|s.answers|] == Answer(k, s.threads[k].cmd, InternalError);
    } else {
      assert s'.threads[k] == s.threads[k];
    }
  }

  lemma StepNeverRefused(cfg: Config, s: System, l: Label, x: string)
    requires NeverRefused(Step(cfg, s, l), x)
    ensures NeverRefused(s, x)
  {
    var s' := Step(cfg, s, l);
    forall k | 0 <= k < |s.answers| && About(s.answers[k].cmd, x) ensures s.answers[k].reply != InternalError {
      assert s'.answers[k] == s.answers[k];
    }
    hide Step;
    forall k | 0 <= k < |s.threads| && About(s.threads[k].cmd, x) ensures s.threads[k].pc != AtReply(InternalError) {
      if s.threads[k].pc == AtReply(InternalError) {
        RefusedStays(cfg, s, l, k, x);
      }
    }
  }

  lemma {:induction false} RunNeverRefused(cfg: Config, s: System, ls: seq<Label>, x: string)
    requires NeverRefused(Exec(cfg, s, ls), x)
    ensures NeverRefused(s, x)
    decreases |ls|
  {
    if ls != [] {
      hide NeverRefused, Step;
      RunNeverRefused(cfg, Step(cfg, s, ls[0]), ls[1..], x);
      StepNeverRefused(cfg, s, ls[0], x);
    }
  }

  lemma StepNoCollision(cfg: Config, s: System, l: Label, x: string)
    requires ThreadsNoCollision(s, x) && (l.Receive? ==> NamesNoCollision(l.tokens, x))
    ensures ThreadsNoCollision(Step(cfg, s, l), x)
  {
    hide Section, Cut;
    if Enabled(s, l) && l.Run? && Working(s.threads[l.thread].pc) {
      NextPcIsNotRegister(cfg, s.db, s.threads[l.thread].pc);
    }
  }

  /** Where no registered id is cut to `x`, none takes its place. */
  lemma {:induction false} NoneTaken(cfg: Config, s: System, ls: seq<Label>, x: string)
    requires ThreadsNoCollision(s, x) && LabelsNoCollision(ls, x)
    ensures NeverTaken(cfg, s, ls, x)
    decreases |ls|
  {
    if ls != [] {
      StepNoCollision(cfg, s, ls[0], x);
      hide Step, NamesNoCollision, Lookup, Cut;
      NoneTaken(cfg, Step(cfg, s, ls[0]), ls[1..], x);
    }
  }

  lemma {:induction false} RunsAlign(cfg: Config, s: System, p: System, ls: seq<Label>, x: string)
    requires Accounted(cfg, s) && Accounted(cfg, p) && Aligned(s, p, x)
    requires NeverTaken(cfg, s, ls, x) && NeverRefused(Exec(cfg, s, ls), x)
    ensures Aligned(Exec(cfg, s, ls), Exec(cfg, p, Project(cfg, s, ls, x)), x)
    decreases |ls|
  {
    if ls != [] {
      hide Accounted, Aligned, Takes, NeverRefused, Step, Kept, Project;
      var l, s' := ls[0], Step(cfg, s, ls[0]);
      RunNeverRefused(cfg, s', ls[1..], x);
      StepAligns(cfg, s, p, l, x);
      RunsAlign(cfg, s', if Kept(s, l, x) then Step(cfg, p, l) else p, ls[1..], x);
      ProjectHead(cfg, s, p, ls, x);
    }
  }

  lemma ProjectHead(cfg: Config, s: System, p: System, ls: seq<Label>, x: string)
    requires ls != []
    ensures Exec(cfg, p, Project(cfg, s, ls, x))
         == Exec(cfg, if Kept(s, ls[0], x) then Step(cfg, p, ls[0])
             else p, Project(cfg, Step(cfg, s, ls[0]), ls[1..], x))
  {
    hide Step, Kept, Exec;
    var rest := Project(cfg, Step(cfg, s, ls[0]), ls[1..], x);
    ExecCons(cfg, p, ls[0], rest);
    assert [] + rest == rest;
  }

  lemma StepAligns(cfg: Config, s: System, p: System, l: Label, x: string)
    requires Accounted(cfg, s) && Accounted(cfg, p) && Aligned(s, p, x) && !Takes(cfg, s, l, x)
    requires NeverRefused(Step(cfg, s, l), x)
    ensures var s', p' := Step(cfg, s, l), if Kept(s, l, x) then Step(cfg, p, l) else p;
            Accounted(cfg, s') && Accounted(cfg, p') && Aligned(s', p', x)
  {
    StepAccounted(cfg, s, l);
    StepAccounted(cfg, p, l);
    hide Accounted, Aligned, Takes, NeverRefused, Step, Kept;
    if Kept(s, l, x) {
      StepKept(cfg, s, p, l, x);
    } else {
      DropOne(cfg, s, p, l, x);
    }
  }

  lemma DropOne(cfg: Config, s: System, p: System, l: Label, x: string)
    requires Accounted(cfg, s) && Aligned(s, p, x) && !Takes(cfg, s, l, x) && !Kept(s, l, x)
    ensures Aligned(Step(cfg, s, l), p, x)
  {
    if Enabled(s, l) {
      StepDropped(cfg, s, p, l, x);
    }
  }

  /**
   Non-interference. Provided no other registered id is cut to `x` and no REGISTER of `x` is refused
   with 500, the run without the other ids' commands leaves `x` the same record, the same metrics and
   alerts in the same order, and gives each of its commands the same reply, in the same order.
   */
  lemma OtherIdsDoNotMatter(cfg: Config, n: nat, ls: seq<Label>, x: string)
    requires LabelsNoCollision(ls, x) && NeverRefused(Exec(cfg, Init(n), ls), x)
    ensures var s := Exec(cfg, Init(n), ls);
            var p := Exec(cfg, Init(n), Project(cfg, Init(n), ls, x));
            SameView(s.db, p.db, x) && p.answers == AnswersTo(s.answers, x)
  {
    TotalNone(Unanswered(cfg), Init(n).threads);
    NoneTaken(cfg, Init(n), ls, x);
    RunsAlign(cfg, Init(n), Init(n), ls, x);
  }

  // The proviso on 500 is exact

  /** A state reached by commands of `x` alone. */
  ghost predicate OnlyOf(p: System, x: string) {
    && (forall i :: 0 <= i < |p.db.table| ==> p.db.table[i].id == x)
    && (forall k :: 0 <= k < |p.threads| && p.threads[k].pc.AtRegister? ==> p.threads[k].pc.id == x)
  }

  lemma StepOnlyOf(cfg: Config, p: System, l: Label, x: string)
    requires OnlyOf(p, x) && |x| < MAX_ID_LEN && (l.Receive? ==> About(l.tokens, x))
    ensures OnlyOf(Step(cfg, p, l), x)
  {
    if Enabled(p, l) {
      hide Section, Dispatch, Committed;
      var pc := p.threads[l.thread].pc;
      match l
      case Receive(_, tokens) => DispatchRegister(tokens);
      case Run(_) =>
        if Working(pc) {
          NextPcIsNotRegister(cfg, p.db, pc);
          forall i | 0 <= i < |Section(cfg, p.db, pc).0.table| ensures Section(cfg, p.db, pc).0.table[i].id == x {
            SectionIds(cfg, p.db, pc, i);
          }
        }
      case _ =>
    }
  }

  /** Only a REGISTER of an unknown id at a full table makes a refusal. */
  lemma RefusalIs(cfg: Config, db: Db, t: Thread)
    requires Working(t.pc) && ThreadOk(cfg, db, t) && Section(cfg, db, t.pc).1 == AtReply(InternalError)
    ensures t.pc.AtRegister? && Lookup(db.table, t.pc.id).None? && |db.table| >= cfg.cap
    ensures Section(cfg, db, t.pc).0 == db
  {
    hide IndexOf, Put;
  }

  lemma FirstRefusal(cfg: Config, s: System, l: Label, x: string)
    requires Accounted(cfg, s) && NeverRefused(s, x) && !NeverRefused(Step(cfg, s, l), x)
    ensures Enabled(s, l) && l.Run? && Kept(s, l, x)
    ensures var t := s.threads[l.thread];
            && t.pc.AtRegister? && t.pc.id == x && t.pc.kind != Invalid
            && Lookup(s.db.table, x).None? && |s.db.table| >= cfg.cap && Step(cfg, s, l).db == s.db
  {
    assert Enabled(s, l);
    var t := s.threads[l.thread];
    assert ThreadOk(cfg, s.db, t);
    if l.Receive? {
      DispatchRegister(l.tokens);
    }
    hide Dispatch, Section, Whole, SamplesBalance, ThreadOk, Lookup;
    if l.Run? && Working(t.pc) {
      if Section(cfg, s.db, t.pc).1 == AtReply(InternalError) {
        RefusalIs(cfg, s.db, t);
        WorkingNames(cfg, s.db, t, x);
        RegisterValid(cfg, s.db, t);
      }
    }
  }

  lemma RegisterValid(cfg: Config, db: Db, t: Thread)
    requires ThreadOk(cfg, db, t) && t.pc.AtRegister?
    ensures t.pc.kind != Invalid
  {
  }

  lemma AskedFor(p: System, k: nat, x: string)
    requires OnlyOf(p, x) && k < |p.threads| && p.threads[k].pc.AtRegister?
    ensures p.threads[k].pc.id == x
  {
  }

  lemma NothingElse(p: System, x: string)
    requires OnlyOf(p, x)
    ensures Lookup(p.db.table, x).None? ==> p.db.table == []
  {
    hide IndexOf;
    if p.db.table != [] {
      assert p.db.table[0].id == x;
    }
  }

  /** Alone, `x` is given the slot that it is refused among others. */
  lemma RegistersAlone(cfg: Config, p: System, k: nat, x: string)
    requires OnlyOf(p, x) && k < |p.threads| && p.threads[k].pc.AtRegister? && p.threads[k].pc.kind != Invalid
    requires |x| < MAX_ID_LEN && cfg.cap >= 1 && Lookup(p.db.table, x).None?
    ensures Lookup(Step(cfg, p, Run(k)).db.table, x).Some?
  {
    hide Section, IndexOf, Committed, OnlyOf;
    var pc := p.threads[k].pc;
    assert pc.id == x by { AskedFor(p, k, x); }
    NothingElse(p, x);
    SectionAppends(cfg, p.db, pc, x);
  }

  /** Once `x` is refused it stays unknown, while alone it is known from then on. */
  lemma Parted(cfg: Config, s: System, p: System, ls: seq<Label>, qs: seq<Label>, x: string)
    requires |s.db.table| == cfg.cap && Lookup(s.db.table, x).None? && Lookup(p.db.table, x).Some?
    ensures Lookup(Exec(cfg, s, ls).db.table, x).None? && Lookup(Exec(cfg, p, qs).db.table, x).Some?
  {
    hide IndexOf, Exec;
    FullTableSame(cfg, s, ls, x);
    StableLookup(cfg, p, qs, x);
  }

  lemma {:induction false} RunsPart(cfg: Config, s: System, p: System, ls: seq<Label>, x: string)
    requires Accounted(cfg, s) && Accounted(cfg, p) && Aligned(s, p, x) && OnlyOf(p, x)
    requires NeverTaken(cfg, s, ls, x)
    requires |x| < MAX_ID_LEN && cfg.cap >= 1 && |s.db.table| <= cfg.cap
    requires NeverRefused(s, x) && !NeverRefused(Exec(cfg, s, ls), x)
    ensures Lookup(Exec(cfg, s, ls).db.table, x).None?
    ensures Lookup(Exec(cfg, p, Project(cfg, s, ls, x)).db.table, x).Some?
    decreases |ls|
  {
    assert ls != [];
    var l, s' := ls[0], Step(cfg, s, ls[0]);
    var p' := if Kept(s, l, x) then Step(cfg, p, l) else p;
    if Kept(s, l, x) {
      StepOnlyOf(cfg, p, l, x);
    }
    StepLater(cfg, s, l, x);
    ProjectHead(cfg, s, p, ls, x);
    if !NeverRefused(s', x) {
      FirstRefusal(cfg, s, l, x);
      PartedHere(cfg, s, p, l, x);
      hide Accounted, Aligned, OnlyOf, NeverRefused, Step, Kept, Project, Exec, Lookup;
      Parted(cfg, s', p', ls[1..], Project(cfg, s', ls[1..], x), x);
      ExecHead(cfg, s, ls);
    } else {
      hide Accounted, Aligned, OnlyOf, Takes, NeverRefused, Step, Kept, Project, Lookup;
      StepAligns(cfg, s, p, l, x);
      RunsPart(cfg, s', p', ls[1..], x);
    }
  }

  lemma ExecHead(cfg: Config, s: System, ls: seq<Label>)
    requires ls != []
    ensures Exec(cfg, s, ls) == Exec(cfg, Step(cfg, s, ls[0]), ls[1..])
  {
    hide Step;
  }

  lemma PartedHere(cfg: Config, s: System, p: System, l: Label, x: string)
    requires Accounted(cfg, s) && Aligned(s, p, x) && OnlyOf(p, x) && NeverRefused(s, x)
         && !NeverRefused(Step(cfg, s, l), x)
    requires |x| < MAX_ID_LEN && cfg.cap >= 1 && |s.db.table| <= cfg.cap
    ensures |Step(cfg, s, l).db.table| == cfg.cap && Lookup(Step(cfg, s, l).db.table, x).None?
    ensures Lookup(Step(cfg, p, l).db.table, x).Some?
  {
    FirstRefusal(cfg, s, l, x);
    assert ThreadsAlign(s.threads[l.thread], p.threads[l.thread], x) && SameView(s.db, p.db, x);
    hide Step, Accounted, NeverRefused, OnlyOf;
    RegistersAlone(cfg, p, l.thread, x);
  }

  /**
   The proviso on 500 is not only enough: the other ids' commands make no difference to `x` if and only
   if none of its REGISTERs was refused for want of room.
   */
  lemma OthersMatterIffRefused(cfg: Config, n: nat, ls: seq<Label>, x: string)
    requires LabelsNoCollision(ls, x) && |x| < MAX_ID_LEN && cfg.cap >= 1
    ensures var s := Exec(cfg, Init(n), ls);
            var p := Exec(cfg, Init(n), Project(cfg, Init(n), ls, x));
            NeverRefused(s, x) <==> SameView(s.db, p.db, x) && p.answers == AnswersTo(s.answers, x)
  {
    if NeverRefused(Exec(cfg, Init(n), ls), x) {
      OtherIdsDoNotMatter(cfg, n, ls, x);
    } else {
      StartAligned(cfg, n, x);
      hide Exec, Aligned, Accounted, OnlyOf, NeverRefused, Project, Lookup, Init;
      NoneTaken(cfg, Init(n), ls, x);
      RunsPart(cfg, Init(n), Init(n), ls, x);
    }
  }

  lemma StartAligned(cfg: Config, n: nat, x: string)
    ensures var s := Init(n);
            && Accounted(cfg, s) && Aligned(s, s, x) && OnlyOf(s, x) && ThreadsNoCollision(s, x) && NeverRefused(s, x)
            && |s.db.table| <= cfg.cap
  {
    TotalNone(Unanswered(cfg), Init(n).threads);
  }

  /** A condition to check beforehand: the run registers no more ids than there are slots, each stored whole. */
  lemma FewIdsDoNotInterfere(cfg: Config, n: nat, ls: seq<Label>, x: string)
    requires |RegisterIds(ls)| <= cfg.cap && forall id :: id in RegisterIds(ls) ==> |id| < MAX_ID_LEN
    ensures var s := Exec(cfg, Init(n), ls);
            var p := Exec(cfg, Init(n), Project(cfg, Init(n), ls, x));
            SameView(s.db, p.db, x) && p.answers == AnswersTo(s.answers, x)
  {
    NoneRefused(cfg, n, ls, x);
    hide RegisterIds, NeverRefused;
    forall i | 0 <= i < |ls| && ls[i].Receive? ensures NamesNoCollision(ls[i].tokens, x) {
      if IsRegister(ls[i]) {
        RegisterIdsFit(ls);
      }
    }
    OtherIdsDoNotMatter(cfg, n, ls, x);
  }

  lemma NoneRefused(cfg: Config, n: nat, ls: seq<Label>, x: string)
    requires |RegisterIds(ls)| <= cfg.cap && forall id :: id in RegisterIds(ls) ==> |id| < MAX_ID_LEN
    ensures NeverRefused(Exec(cfg, Init(n), ls), x)
  {
    RegisterIdsFit(ls);
    assert Roomy(cfg, Init(n), RegisterIds(ls));
    hide IsRegister, RegisterIds;
    RunsRoomy(cfg, Init(n), ls, RegisterIds(ls));
  }

  // Both provisos together are exact

  /** After the first `i` steps, `x` sees the same with and without the other ids' commands. */
  ghost predicate SeesTheSame(cfg: Config, s: System, p: System, ls: seq<Label>, i: nat, x: string)
    requires i <= |ls|
  {
    var s', p' := Exec(cfg, s, ls[..i]), Exec(cfg, p, Project(cfg, s, ls[..i], x));
    SameView(s'.db, p'.db, x) && p'.answers == AnswersTo(s'.answers, x)
  }

  lemma PrefixStep(cfg: Config, s: System, p: System, ls: seq<Label>, i: nat, x: string)
    requires 1 <= i <= |ls|
    ensures var p' := if Kept(s, ls[0], x) then Step(cfg, p, ls[0]) else p;
            SeesTheSame(cfg, s, p, ls, i, x) <==> SeesTheSame(cfg, Step(cfg, s, ls[0]), p', ls[1..], i - 1, x)
  {
    hide Step, Kept, SameView, AnswersTo, Exec, Project;
    assert ls[..i][0] == ls[0] && ls[..i][1..] == ls[1..][..i - 1];
    ProjectHead(cfg, s, p, ls[..i], x);
    ExecHead(cfg, s, ls[..i]);
  }

  lemma SeesNow(cfg: Config, s: System, p: System, ls: seq<Label>, x: string)
    ensures SeesTheSame(cfg, s, p, ls, 0, x) <==> SameView(s.db, p.db, x) && p.answers == AnswersTo(s.answers, x)
  {
    hide SameView, AnswersTo;
    assert ls[..0] == [];
  }

  /** A slot taken by a cut id makes `x` known, which it is not alone. */
  lemma TakenHere(cfg: Config, s: System, p: System, l: Label, x: string)
    requires Accounted(cfg, s) && Aligned(s, p, x) && Takes(cfg, s, l, x)
    ensures !Kept(s, l, x) && !SameView(Step(cfg, s, l).db, p.db, x)
  {
    var t := s.threads[l.thread];
    assert ThreadOk(cfg, s.db, t);
    WorkingNames(cfg, s.db, t, x);
    hide Section, IndexOf, ThreadOk, Whole, SamplesBalance, MetricsOf, AlertsOf;
    SectionAppends(cfg, s.db, t.pc, x);
  }

  lemma ShowsNow(cfg: Config, s: System, p: System, ls: seq<Label>, x: string)
    requires Accounted(cfg, s) && Aligned(s, p, x) && OnlyOf(p, x) && NeverRefused(s, x) && ls != []
    requires |x| < MAX_ID_LEN && cfg.cap >= 1 && |s.db.table| <= cfg.cap
    requires Takes(cfg, s, ls[0], x) || !NeverRefused(Step(cfg, s, ls[0]), x)
    ensures !SeesTheSame(cfg, s, p, ls, 1, x)
  {
    var l := ls[0];
    var s', p' := Step(cfg, s, l), if Kept(s, l, x) then Step(cfg, p, l) else p;
    hide Accounted, Aligned, OnlyOf, Takes, NeverRefused, Step, Kept, Lookup, SeesTheSame, MetricsOf, AlertsOf;
    if Takes(cfg, s, l, x) {
      TakenHere(cfg, s, p, l, x);
    } else {
      FirstRefusal(cfg, s, l, x);
      PartedHere(cfg, s, p, l, x);
    }
    SeesNow(cfg, s', p', ls[1..], x);
    PrefixStep(cfg, s, p, ls, 1, x);
  }

  /** The first step that refuses `x`, or gives its place to a cut id, shows. */
  lemma {:induction false} RunsShow(cfg: Config, s: System, p: System, ls: seq<Label>, x: string) returns (i: nat)
    requires Accounted(cfg, s) && Accounted(cfg, p) && Aligned(s, p, x) && OnlyOf(p, x) && NeverRefused(s, x)
    requires |x| < MAX_ID_LEN && cfg.cap >= 1 && |s.db.table| <= cfg.cap
    requires !NeverTaken(cfg, s, ls, x) || !NeverRefused(Exec(cfg, s, ls), x)
    ensures i <= |ls| && !SeesTheSame(cfg, s, p, ls, i, x)
    decreases |ls|
  {
    assert ls != [];
    var l, s' := ls[0], Step(cfg, s, ls[0]);
    var p' := if Kept(s, l, x) then Step(cfg, p, l) else p;
    hide Accounted, Aligned, OnlyOf, Takes, NeverRefused, Step, Kept, SeesTheSame, Later;
    if Takes(cfg, s, l, x) || !NeverRefused(s', x) {
      i := 1;
      ShowsNow(cfg, s, p, ls, x);
    } else {
      if Kept(s, l, x) {
        KeptNames(s, l, x);
        StepOnlyOf(cfg, p, l, x);
      }
      StepLater(cfg, s, l, x);
      StepAligns(cfg, s, p, l, x);
      i := RunsShow(cfg, s', p', ls[1..], x);
      i := i + 1;
      PrefixStep(cfg, s, p, ls, i, x);
    }
  }

  lemma KeptNames(s: System, l: Label, x: string)
    requires Kept(s, l, x)
    ensures l.Receive? ==> About(l.tokens, x)
  {
  }

  lemma {:induction false} TakenInPrefix(cfg: Config, s: System, ls: seq<Label>, i: nat, x: string)
    requires i <= |ls| && NeverTaken(cfg, s, ls, x)
    ensures NeverTaken(cfg, s, ls[..i], x)
    decreases |ls|
  {
    if i > 0 {
      hide Takes, Step;
      TakenInPrefix(cfg, Step(cfg, s, ls[0]), ls[1..], i - 1, x);
      assert ls[..i][0] == ls[0] && ls[..i][1..] == ls[1..][..i - 1];
    }
  }

  lemma RefusedInPrefix(cfg: Config, s: System, ls: seq<Label>, i: nat, x: string)
    requires i <= |ls| && NeverRefused(Exec(cfg, s, ls), x)
    ensures NeverRefused(Exec(cfg, s, ls[..i]), x)
  {
    hide NeverRefused, Exec;
    assert ls == ls[..i] + ls[i..];
    ExecConcat(cfg, s, ls[..i], ls[i..]);
    RunNeverRefused(cfg, Exec(cfg, s, ls[..i]), ls[i..], x);
  }

  /**
   The exact condition, with no proviso on other ids: all along the run `x` sees the same with and without
   the other ids' commands, if and only if it is never refused for want of room and no other id that is
   cut to it takes a slot while it is unknown.
   */
  lemma OthersMatterIffRefusedOrTaken(cfg: Config, n: nat, ls: seq<Label>, x: string)
    requires |x| < MAX_ID_LEN && cfg.cap >= 1
    ensures (forall i :: 0 <= i <= |ls| ==> SeesTheSame(cfg, Init(n), Init(n), ls, i, x))
       <==> NeverRefused(Exec(cfg, Init(n), ls), x) && NeverTaken(cfg, Init(n), ls, x)
  {
    StartAligned(cfg, n, x);
    hide Aligned, Accounted, OnlyOf, NeverRefused, Init, Project, Exec, SameView;
    if NeverRefused(Exec(cfg, Init(n), ls), x) && NeverTaken(cfg, Init(n), ls, x) {
      forall i | 0 <= i <= |ls| ensures SeesTheSame(cfg, Init(n), Init(n), ls, i, x) {
        TakenInPrefix(cfg, Init(n), ls, i, x);
        RefusedInPrefix(cfg, Init(n), ls, i, x);
        RunsAlign(cfg, Init(n), Init(n), ls[..i], x);
        AlignedSee(Exec(cfg, Init(n), ls[..i]), Exec(cfg, Init(n), Project(cfg, Init(n), ls[..i], x)), x);
      }
    } else {
      var i := RunsShow(cfg, Init(n), Init(n), ls, x);
    }
  }

  lemma AlignedSee(s: System, p: System, x: string)
    requires Aligned(s, p, x)
    ensures SameView(s.db, p.db, x) && p.answers == AnswersTo(s.answers, x)
  {
  }

  /** For an id shorter than the 63 bytes that are stored no other id is cut to it. */
  lemma ShortIdsAreNotTaken(cfg: Config, n: nat, ls: seq<Label>, x: string)
    requires |x| < MAX_ID_LEN - 1
    ensures LabelsNoCollision(ls, x) && NeverTaken(cfg, Init(n), ls, x)
  {
    assert forall id :: NoCollision(id, x);
    NoneTaken(cfg, Init(n), ls, x);
  }

  // Both provisos are needed

  /** Whatever the capacity, that many other ids registered first change the reply to `x`. */
  lemma FullTableInterferes(cfg: Config, x: string, others: seq<string>)
    requires cfg.cap >= 1 && |others| == cfg.cap && Distinct(others) && x !in others
    requires |x| < MAX_ID_LEN && forall i :: 0 <= i < |others| ==> |others[i]| < MAX_ID_LEN
    ensures var s := Step(cfg, Init(1), Connect(0));
            && Answer(0, ["REGISTER", x, "TEMP"], InternalError) in Exec(cfg, s,
                RegisteringAll(others) + Registering(x)).answers
            && Exec(cfg, s, Registering(x)).answers == [Answer(0, ["REGISTER", x, "TEMP"], Registered(x))]
  {
    hide IndexOf, Exec;
    var s := Step(cfg, Init(1), Connect(0));
    FillTable(cfg, s, others);
    var full := Exec(cfg, s, RegisteringAll(others));
    ExecConcat(cfg, s, RegisteringAll(others), Registering(x));
    IndexIs(full.db.table, x, -1);
    RegisterAlone(cfg, s, x);
    RegisterAlone(cfg, full, x);
  }

  ghost predicate Distinct(ids: seq<string>) {
    forall i, j :: 0 <= i < j < |ids| ==> ids[i] != ids[j]
  }

  function RegisteringAll(ids: seq<string>): seq<Label> {
    if ids == [] then [] else RegisteringAll(ids[..|ids| - 1]) + Registering(ids[|ids| - 1])
  }

  lemma {:induction false} FillTable(cfg: Config, s: System, ids: seq<string>)
    requires |s.threads| == 1 && s.threads[0] == Thread(Idle, []) && s.db.table == []
    requires |ids| <= cfg.cap && Distinct(ids) && forall i :: 0 <= i < |ids| ==> |ids[i]| < MAX_ID_LEN
    ensures var s' := Exec(cfg, s, RegisteringAll(ids));
            && s'.threads == s.threads && |s'.db.table| == |ids|
            && forall i :: 0 <= i < |ids| ==> s'.db.table[i].id == ids[i]
    decreases |ids|
  {
    hide IndexOf;
    if ids == [] {
      ExecNone(cfg, s);
    } else {
      hide Exec, Registering;
      var n := |ids| - 1;
      FillTable(cfg, s, ids[..n]);
      var s1 := Exec(cfg, s, RegisteringAll(ids[..n]));
      ExecConcat(cfg, s, RegisteringAll(ids[..n]), Registering(ids[n]));
      RegisterAlone(cfg, s1, ids[n]);
      IndexIs(s1.db.table, ids[n], -1);
    }
  }

  /** An id one byte too long to store whole appears to every client under its first 63 bytes. */
  lemma CutIdInterferes(cfg: Config, x: string)
    requires cfg.cap >= 1 && |x| == MAX_ID_LEN - 1
    ensures var s := Step(cfg, Init(1), Connect(0));
            IsActive(Exec(cfg, s, Registering(x + "0")).db, x) && !IsActive(s.db, x)
  {
    hide IndexOf;
    var y := x + "0";
    RegisterAlone(cfg, Step(cfg, Init(1), Connect(0)), y);
    assert Cut(y, MAX_ID_LEN) == x;
    LookupAppend([], Fresh(x, Temp), x);
    assert [] + [Fresh(x, Temp)] == [Fresh(x, Temp)];
  }
}
