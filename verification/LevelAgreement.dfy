/** A sensor's record agrees with its newest metric, and its alert level with its last value. */
module LevelAgreement {
  import opened Records
  import opened Text
  import opened Database
  import opened Server
  import opened Lifecycle
  import opened Conservation

  /** The newest metric stored for `id`. */
  function LastFor(log: seq<Metric>, id: string): Option<Metric> {
    if log == [] then None
    else if log[|log| - 1].sensorId == id then Some(log[|log| - 1])
    else LastFor(log[..|log| - 1], id)
  }

  lemma LastForSnoc(log: seq<Metric>, m: Metric, id: string)
    ensures LastFor(log + [m], id) == if m.sensorId == id then Some(m) else LastFor(log, id)
  {
    assert (log + [m])[..|log|] == log;
  }

  /** Between its `state_add_metric` and the end of its `state_set_alert_level`. */
  ghost predicate Evaluating(pc: Pc, id: string) {
    (pc.AtAddAlert? || pc.AtSetLevel?) && pc.id == id
  }

  // The record and the log

  ghost predicate RecordTracks(db: Db, id: string) {
    match Lookup(db.table, id)
    case None => LastFor(db.metrics, id) == None
    case Some(r) =>
      match LastFor(db.metrics, id)
      case None => r.lastValue == Fin(0.0) && r.lastTimestamp == "N/A" && r.level == Normal
      case Some(m) => r.lastValue == m.value && r.lastTimestamp == m.timestamp
  }

  ghost predicate Tracks(s: System, id: string) {
    && RecordTracks(s.db, id)
    && forall k :: 0 <= k < |s.threads| && Evaluating(s.threads[k].pc, id) ==> LastFor(s.db.metrics, id).Some?
  }

  lemma SectionTracks(cfg: Config, db: Db, t: Thread, id: string)
    requires Working(t.pc) && ThreadOk(cfg, db, t) && Whole(db)
    requires RecordTracks(db, id)
    requires Evaluating(t.pc, id) ==> LastFor(db.metrics, id).Some?
    ensures var (db', pc') := Section(cfg, db, t.pc);
            && RecordTracks(db', id)
            && (LastFor(db.metrics, id).Some? ==> LastFor(db'.metrics, id).Some?)
            && (Evaluating(pc', id) ==> LastFor(db'.metrics, id).Some?)
  {
    hide IndexOf, Section, LastFor;
    SectionLogs(cfg, db, t.pc);
    if Adds(db, t.pc) {
      FoundIsShort(db, t.pc.id);
      LastForSnoc(db.metrics, Added(t.pc), id);
    }
    if Appends(cfg, db, t.pc) {
      SectionAppends(cfg, db, t.pc, id);
    } else {
      SectionLookup(cfg, db, t.pc, id);
    }
    SectionEvaluates(cfg, db, t.pc, id);
  }

  /** Only a successful `state_add_metric` starts an evaluation. */
  lemma SectionEvaluates(cfg: Config, db: Db, pc: Pc, id: string)
    requires Working(pc)
    ensures Evaluating(Section(cfg, db, pc).1, id)
        <==> ((Adds(db, pc) && pc.id == id) || (pc.AtAddAlert? && pc.id == id))
  {
    hide Put, IndexOf;
  }

  lemma StepTracks(cfg: Config, s: System, l: Label, id: string)
    requires Accounted(cfg, s) && Tracks(s, id)
    ensures Tracks(Step(cfg, s, l), id)
  {
    hide Section, Dispatch, LastFor, RecordTracks, Whole, SamplesBalance, ThreadOk, Suits;
    if Enabled(s, l) {
      match l
      case Receive(_, tokens) => DispatchStoresNothing(tokens);
      case Run(k) =>
        if Working(s.threads[k].pc) {
          SectionTracks(cfg, s.db, s.threads[k], id);
        }
      case _ =>
    }
  }

  /**
   In every interleaving the value and timestamp a sensor shows are those of the newest metric stored
   for it, and a sensor without metrics still shows 0.0, N/A and NORMAL.
   */
  lemma {:induction false} RunsTrack(cfg: Config, s: System, ls: seq<Label>, id: string)
    requires Accounted(cfg, s) && Tracks(s, id)
    ensures Tracks(Exec(cfg, s, ls), id)
    decreases |ls|
  {
    if ls != [] {
      hide Accounted, Tracks, Step;
      StepTracks(cfg, s, ls[0], id);
      StepAccounted(cfg, s, ls[0]);
      RunsTrack(cfg, Step(cfg, s, ls[0]), ls[1..], id);
    }
  }

  // The level and the last value

  /** No `state_add_metric` for `id` runs while another evaluation for `id` is unfinished. */
  ghost predicate Serial(cfg: Config, s: System, ls: seq<Label>, id: string)
    decreases |ls|
  {
    ls == [] || (SerialStep(s, ls[0], id) && Serial(cfg, Step(cfg, s, ls[0]), ls[1..], id))
  }

  ghost predicate SerialStep(s: System, l: Label, id: string) {
    l.Run? && Enabled(s, l) && s.threads[l.thread].pc.AtAddMetric? && s.threads[l.thread].pc.id == id ==>
      NoneEvaluating(s.threads, id)
  }

  ghost predicate LevelMatches(db: Db, id: string) {
    LastFor(db.metrics, id).Some? && Lookup(db.table, id).Some? ==>
      var r := Lookup(db.table, id).value; r.level == LevelFor(r.kind, r.lastValue)
  }

  /** A thread that evaluates `id` evaluates the value the record shows. */
  ghost predicate EvaluatesLast(cfg: Config, db: Db, t: Thread, id: string) {
    Evaluating(t.pc, id) ==>
      Lookup(db.table, id).Some? && MetricCmd(cfg, t.cmd)
          && Lookup(db.table, id).value.lastValue == cfg.parse(t.cmd[2]).value
  }

  ghost predicate Agrees(cfg: Config, s: System, id: string) {
    && (forall j, k :: 0 <= j < k < |s.threads| ==>
          !(Evaluating(s.threads[j].pc, id) && Evaluating(s.threads[k].pc, id)))
    && (forall k :: 0 <= k < |s.threads| ==> EvaluatesLast(cfg, s.db, s.threads[k], id))
    && (NoneEvaluating(s.threads, id) ==> LevelMatches(s.db, id))
  }

  lemma SectionAgrees(cfg: Config, db: Db, t: Thread, id: string)
    requires Working(t.pc) && ThreadOk(cfg, db, t) && Whole(db) && RecordTracks(db, id)
    requires EvaluatesLast(cfg, db, t, id)
    ensures var (db', pc') := Section(cfg, db, t.pc);
            && EvaluatesLast(cfg, db', t.(pc := pc'), id)
            && (LevelMatches(db, id) && !Evaluating(pc', id) ==> LevelMatches(db', id))
            && (t.pc.AtSetLevel? && t.pc.id == id ==> LevelMatches(db', id))
            && (!(Adds(db, t.pc) && t.pc.id == id) ==> SameValue(db, db', id))
  {
    hide IndexOf, Section, LastFor;
    SectionLogs(cfg, db, t.pc);
    SectionEvaluates(cfg, db, t.pc, id);
    if Adds(db, t.pc) {
      FoundIsShort(db, t.pc.id);
      LastForSnoc(db.metrics, Added(t.pc), id);
    }
    if Appends(cfg, db, t.pc) {
      SectionAppends(cfg, db, t.pc, id);
    } else {
      SectionLookup(cfg, db, t.pc, id);
    }
  }

  ghost predicate SameValue(a: Db, b: Db, id: string) {
    Lookup(a.table, id).Some? ==>
      Lookup(b.table, id).Some? && Lookup(b.table, id).value.lastValue == Lookup(a.table, id).value.lastValue
  }

  ghost predicate NoneEvaluating(ts: seq<Thread>, id: string) {
    forall k :: 0 <= k < |ts| ==> !Evaluating(ts[k].pc, id)
  }

  /** One thread moves: what is enough for the other threads and the record to go on agreeing. */
  lemma OneGoesOn(cfg: Config, s: System, s': System, k: nat, id: string)
    requires Agrees(cfg, s, id) && k < |s.threads| == |s'.threads| && s'.threads == s.threads[k := s'.threads[k]]
    requires Evaluating(s'.threads[k].pc, id) ==> Evaluating(s.threads[k].pc, id) || NoneEvaluating(s.threads, id)
    requires EvaluatesLast(cfg, s'.db, s'.threads[k], id)
    requires SameValue(s.db, s'.db, id) || NoneEvaluating(s.threads, id)
    requires !Evaluating(s'.threads[k].pc, id) && LevelMatches(s.db, id) ==> LevelMatches(s'.db, id)
    requires !Evaluating(s'.threads[k].pc, id) && Evaluating(s.threads[k].pc, id) ==> LevelMatches(s'.db, id)
    ensures Agrees(cfg, s', id)
  {
    hide LevelMatches, Lookup, MetricCmd, Evaluating;
    forall j | 0 <= j < |s'.threads| ensures EvaluatesLast(cfg, s'.db, s'.threads[j], id) {
      if j != k {
        assert EvaluatesLast(cfg, s.db, s.threads[j], id);
      }
    }
    if NoneEvaluating(s'.threads, id) {
      assert !Evaluating(s'.threads[k].pc, id);
      if !Evaluating(s.threads[k].pc, id) {
        forall j | 0 <= j < |s.threads| ensures !Evaluating(s.threads[j].pc, id) {
          assert j != k ==> s'.threads[j] == s.threads[j];
        }
      }
    }
  }

  lemma StepAgrees(cfg: Config, s: System, l: Label, id: string)
    requires Accounted(cfg, s) && Tracks(s, id) && Agrees(cfg, s, id) && SerialStep(s, l, id)
    ensures Agrees(cfg, Step(cfg, s, l), id)
  {
    if Enabled(s, l) {
      var t, s' := s.threads[l.thread], Step(cfg, s, l);
      hide Section, Dispatch, RecordTracks, Whole, SamplesBalance, ThreadOk, Suits, LevelMatches, MetricCmd, Lookup,
          Agrees;
      assert EvaluatesLast(cfg, s.db, t, id) by { AgreesAt(cfg, s, l.thread, id); }
      match l {
        case Receive(_, tokens) => DispatchStoresNothing(tokens);
        case Run(k) =>
          if Working(t.pc) {
            SectionAgrees(cfg, s.db, t, id);
            SectionEvaluates(cfg, s.db, t.pc, id);
          }
        case _ =>
      }
      OneGoesOn(cfg, s, s', l.thread, id);
    }
  }

  lemma AgreesAt(cfg: Config, s: System, k: nat, id: string)
    requires Agrees(cfg, s, id) && k < |s.threads|
    ensures EvaluatesLast(cfg, s.db, s.threads[k], id)
  {
  }

  lemma {:induction false} RunsAgree(cfg: Config, s: System, ls: seq<Label>, id: string)
    requires Accounted(cfg, s) && Tracks(s, id) && Agrees(cfg, s, id) && Serial(cfg, s, ls, id)
    ensures Agrees(cfg, Exec(cfg, s, ls), id)
    decreases |ls|
  {
    if ls != [] {
      hide Accounted, Tracks, Agrees, SerialStep, Step;
      StepAgrees(cfg, s, ls[0], id);
      StepTracks(cfg, s, ls[0], id);
      StepAccounted(cfg, s, ls[0]);
      RunsAgree(cfg, Step(cfg, s, ls[0]), ls[1..], id);
    }
  }

  /**
   If evaluations for `id` do not overlap, then whenever none is unfinished a sensor with at least one
   stored metric has level ALERT exactly when its last value, the newest metric's, is anomalous.
   */
  lemma LevelAgreesWithLastValue(cfg: Config, n: nat, ls: seq<Label>, id: string)
    requires Serial(cfg, Init(n), ls, id)
    requires NoneEvaluating(Exec(cfg, Init(n), ls).threads, id)
    ensures var db := Exec(cfg, Init(n), ls).db;
            LastFor(db.metrics, id).Some? ==>
              && Lookup(db.table, id).Some?
              && var r, m := Lookup(db.table, id).value, LastFor(db.metrics, id).value;
                 r.lastValue == m.value && (r.level == Alert <==> Anomalous(r.kind, m.value))
  {
    TotalNone(Unanswered(cfg), Init(n).threads);
    RunsTrack(cfg, Init(n), ls, id);
    RunsAgree(cfg, Init(n), ls, id);
  }

  // Overlapping evaluations

  lemma Single(r: Sensor)
    ensures Lookup([r], r.id) == Some(r) && IndexOf([r], r.id) == 0
  {
    hide IndexOf;
    IndexIs([r], r.id, 0);
  }

  lemma Then(cfg: Config, ls: seq<Label>, s: System, l: Label) returns (ls': seq<Label>, s': System)
    requires s == Exec(cfg, Init(2), ls)
    ensures s' == Step(cfg, s, l) && s' == Exec(cfg, Init(2), ls')
  {
    ExecSnoc(cfg, Init(2), ls, l);
    ls', s' := ls + [l], Step(cfg, s, l);
  }

  /** One METRIC of connection `k` up to the end of its `state_add_metric`, on a table of one active sensor. */
  lemma StoreMetric(cfg: Config, ls: seq<Label>, s: System, k: nat, text: string, ts: string)
    returns (ls': seq<Label>, s': System)
    requires s == Exec(cfg, Init(2), ls) && |s.threads| == 2 && k < 2 && s.threads[k] == Thread(Idle, [])
    requires |s.db.table| == 1 && s.db.table[0].status == Active && s.db.table[0].kind == Temp
    requires |s.db.table[0].id| < MAX_ID_LEN && cfg.parse(text).Some? && ValidTimestamp(ts)
    ensures var r, v := s.db.table[0], cfg.parse(text).value;
            && s' == Exec(cfg, Init(2), ls')
            && s'.threads == s.threads[k := Thread(AfterAdd(0, r.id, v, ts, Temp), ["METRIC", r.id, text, ts])]
            && s'.db.table == [r.(lastValue := v, lastTimestamp := ts)]
            && s'.db.metrics == s.db.metrics + [Metric(r.id, v, ts, "TEMP")]
  {
    hide IndexOf, ValidTimestamp, AfterAdd;
    var r := s.db.table[0];
    Single(r);
    assert s.db.table == [r] && |ts| == 20 by { TimestampLength(ts); }
    var cmd := ["METRIC", r.id, text, ts];
    var s1, s2;
    ls', s1 := Then(cfg, ls, s, Receive(k, cmd));
    assert s1.threads[k] == Thread(AtFindForMetric(r.id, text, ts), cmd);
    ls', s2 := Then(cfg, ls', s1, Run(k));
    assert s2.threads[k] == Thread(AtAddMetric(r.id, cfg.parse(text).value, ts, r), cmd);
    ls', s' := Then(cfg, ls', s2, Run(k));
  }

  lemma TimestampLength(ts: string)
    requires ValidTimestamp(ts)
    ensures |ts| == 20
  {
  }

  /**
   Without that proviso the agreement fails: 80 is stored, then 20, but the two evaluations finish in
   the other order, and the sensor shows 20 with level ALERT.
   */
  lemma OverlapBreaksAgreement(cfg: Config, x: string, high: string, low: string, ts: string)
    requires cfg.cap >= 1 && |x| < MAX_ID_LEN && ValidTimestamp(ts)
    requires cfg.parse(high) == Some(Fin(80.0)) && cfg.parse(low) == Some(Fin(20.0))
    ensures exists ls: seq<Label> ::
              var s := Exec(cfg, Init(2), ls);
              && NoneEvaluating(s.threads, x)
              && s.db.table == [Sensor(x, Temp, Active, Alert, Fin(20.0), ts, true)]
  {
    hide IndexOf, ValidTimestamp, Exec, NoneEvaluating;
    var ls, s := BothConnected(cfg, x);
    ls, s := StoreMetric(cfg, ls, s, 0, high, ts);
    ls, s := StoreMetric(cfg, ls, s, 1, low, ts);
    ls, s := FinishInOtherOrder(cfg, ls, s, x, ts);
  }

  lemma BothConnected(cfg: Config, x: string) returns (ls: seq<Label>, s: System)
    requires cfg.cap >= 1 && |x| < MAX_ID_LEN
    ensures s == Exec(cfg, Init(2), ls)
    ensures s.db.table == [Fresh(x, Temp)] && s.threads == [Thread(Idle, []), Thread(Idle, [])]
  {
    hide IndexOf;
    ls, s := Then(cfg, [], Init(2), Connect(0));
    ls, s := Then(cfg, ls, s, Connect(1));
    assert s.threads == [Thread(Idle, []), Thread(Idle, [])] && s.db == EMPTY;
    hide Step, Exec;
    ExecConcat(cfg, Init(2), ls, Registering(x));
    RegisterAlone(cfg, s, x);
    IndexIs([], x, -1);
    ls, s := ls + Registering(x), Exec(cfg, s, Registering(x));
  }

  lemma FinishInOtherOrder(cfg: Config, ls: seq<Label>, s: System, x: string, ts: string)
    returns (ls': seq<Label>, s': System)
    requires s == Exec(cfg, Init(2), ls) && |s.threads| == 2
    requires s.threads[0].pc == AtAddAlert(x, Fin(80.0), 70.0, ts, Temp) && s.threads[1].pc == AtSetLevel(x, Normal)
    requires s.db.table == [Sensor(x, Temp, Active, Normal, Fin(20.0), ts, true)]
    ensures s' == Exec(cfg, Init(2), ls') && NoneEvaluating(s'.threads, x)
    ensures s'.db.table == [Sensor(x, Temp, Active, Alert, Fin(20.0), ts, true)]
  {
    hide IndexOf;
    Single(s.db.table[0]);
    ls', s' := Then(cfg, ls, s, Run(1));
    assert s'.db.table == s.db.table;
    ls', s' := Then(cfg, ls', s', Run(0));
    ls', s' := Then(cfg, ls', s', Run(0));
  }
}
