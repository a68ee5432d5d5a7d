/** No alert and no metric is lost, duplicated or altered, whatever the interleaving. */
module Conservation {
  import opened Records
  import opened Text
  import opened Database
  import opened Server
  import opened Lifecycle

  ghost function Total<T>(f: Thread -> multiset<T>, ts: seq<Thread>): multiset<T> {
    if ts == [] then multiset{} else Total(f, ts[..|ts| - 1]) + f(ts[|ts| - 1])
  }

  lemma AddBoth<T>(a: multiset<T>, b: multiset<T>, c: multiset<T>, d: multiset<T>, z: multiset<T>)
    requires a + b == c + d
    ensures a + z + b == c + z + d
  {
    assert a + z + b == (a + b) + z && c + z + d == (c + d) + z;
  }

  lemma AddLeft<T>(z: multiset<T>, a: multiset<T>, b: multiset<T>, c: multiset<T>, d: multiset<T>)
    requires a + b == c + d
    ensures z + a + b == z + c + d
  {
    assert z + a + b == z + (a + b) && z + c + d == z + (c + d);
  }

  /** Books stay balanced: `done + due == called` survives a change with matching entries. */
  lemma Rebalance<T>(done: multiset<T>, due: multiset<T>, called: multiset<T>,
                     done': multiset<T>, due': multiset<T>, called': multiset<T>,
                     p: multiset<T>, p': multiset<T>)
    requires done + due == called && due' + p == due + p'
    requires done' + p' + called == done + p + called'
    ensures done' + due' == called'
  {
    forall x ensures (done' + due')[x] == called'[x] {
      assert (done + due)[x] == called[x] && (due' + p)[x] == (due + p')[x];
      assert (done' + p' + called)[x] == (done + p + called')[x];
    }
  }

  lemma {:induction false} TotalUpdate<T>(f: Thread -> multiset<T>, ts: seq<Thread>, k: nat, t: Thread)
    requires k < |ts|
    ensures Total(f, ts[k := t]) + f(ts[k]) == Total(f, ts) + f(t)
    decreases |ts|
  {
    var n := |ts| - 1;
    if k < n {
      TotalUpdate(f, ts[..n], k, t);
      assert ts[k := t][..n] == ts[..n][k := t];
      AddBoth(Total(f, ts[..n][k := t]), f(ts[k]), Total(f, ts[..n]), f(t), f(ts[n]));
    } else {
      assert ts[k := t][..n] == ts[..n];
    }
  }

  lemma {:induction false} TotalNone<T>(f: Thread -> multiset<T>, ts: seq<Thread>)
    requires forall k :: 0 <= k < |ts| ==> f(ts[k]) == multiset{}
    ensures Total(f, ts) == multiset{}
    decreases |ts|
  {
    if ts != [] {
      TotalNone(f, ts[..|ts| - 1]);
    }
  }

  // Alerts

  /** The alert a thread owes between its `state_add_metric` and its `state_add_alert`. */
  ghost function Owed(t: Thread): multiset<AlertRecord> {
    if t.pc.AtAddAlert?
    then multiset{AlertEntry(t.pc.id, t.pc.value, t.pc.bound, t.pc.ts, TypeName(t.pc.kind))}
    else multiset{}
  }

  /** The alert a stored metric calls for. */
  ghost function CalledFor(m: Metric): multiset<AlertRecord> {
    var kind := TypeFromName(m.typeName);
    if Anomalous(kind, m.value)
    then multiset{AlertRecord(m.sensorId, m.value, CrossedBound(kind, m.value), m.timestamp, m.typeName)}
    else multiset{}
  }

  ghost function AllCalledFor(log: seq<Metric>): multiset<AlertRecord> {
    if log == [] then multiset{} else AllCalledFor(log[..|log| - 1]) + CalledFor(log[|log| - 1])
  }

  ghost predicate AlertsBalance(s: System) {
    multiset(s.db.alerts) + Total(Owed, s.threads) == AllCalledFor(s.db.metrics)
  }

  lemma CallsForOwed(id: string, v: Value, ts: string, kind: SensorType, cmd: seq<string>)
    ensures CalledFor(MetricRecord(id, v, ts, TypeName(kind))) == Owed(Thread(AfterAdd(0, id, v, ts, kind), cmd))
  {
    assert TypeFromName(TypeName(kind)) == kind && Cut(TypeName(kind), MAX_TYPE_LEN) == TypeName(kind);
  }

  /** The command in service has stored its metric. */
  ghost predicate Stored(pc: Pc) {
    pc.AtAddAlert? || pc.AtSetLevel? || (pc.AtReply? && pc.reply == Accepted)
  }

  predicate Adds(db: Db, pc: Pc) {
    pc.AtAddMetric? && Lookup(db.table, pc.id).Some?
  }

  /** The metric a successful `state_add_metric` of `pc` appends. */
  function Added(pc: Pc): Metric
    requires pc.AtAddMetric?
  {
    MetricRecord(pc.id, pc.value, pc.ts, TypeName(pc.copy.kind))
  }

  /** What a critical section does to the two logs, and where it leaves the thread. */
  lemma SectionLogs(cfg: Config, db: Db, pc: Pc)
    requires Working(pc)
    ensures var (db', pc') := Section(cfg, db, pc);
            && db'.metrics == (if Adds(db, pc) then db.metrics + [Added(pc)] else db.metrics)
            && db'.alerts == (if pc.AtAddAlert?
                 then db.alerts + [AlertEntry(pc.id, pc.value, pc.bound, pc.ts, TypeName(pc.kind))] else db.alerts)
            && (Adds(db, pc) ==> pc' == AfterAdd(0, pc.id, pc.value, pc.ts, pc.copy.kind))
            && (!Adds(db, pc) ==> !pc'.AtAddAlert? && (Stored(pc') <==> Stored(pc)))
  {
    hide Lookup, Put;
  }

  /** One critical section keeps the books: what it appends, it owed or was called for. */
  lemma SectionBalances(cfg: Config, db: Db, t: Thread)
    requires Working(t.pc)
    ensures var (db', pc') := Section(cfg, db, t.pc);
            multiset(db'.alerts) + Owed(t.(pc := pc')) + AllCalledFor(db.metrics)
            == multiset(db.alerts) + Owed(t) + AllCalledFor(db'.metrics)
  {
    hide Section, AllCalledFor, AfterAdd;
    SectionLogs(cfg, db, t.pc);
    if Adds(db, t.pc) {
      CallsForOwed(t.pc.id, t.pc.value, t.pc.ts, t.pc.copy.kind, t.cmd);
      CalledForSnoc(db.metrics, Added(t.pc));
    }
    assert forall a :: multiset(db.alerts + [a]) == multiset(db.alerts) + multiset{a};
  }

  lemma CalledForSnoc(log: seq<Metric>, m: Metric)
    ensures AllCalledFor(log + [m]) == AllCalledFor(log) + CalledFor(m)
  {
    assert (log + [m])[..|log|] == log;
  }

  lemma StepBalances(cfg: Config, s: System, l: Label)
    requires AlertsBalance(s)
    ensures AlertsBalance(Step(cfg, s, l))
  {
    if Enabled(s, l) {
      var t := s.threads[l.thread];
      var s' := Step(cfg, s, l);
      var t' := s'.threads[l.thread];
      StepBooks(cfg, s, l);
      hide AllCalledFor, Step, Owed;
      TotalUpdate(Owed, s.threads, l.thread, t');
      Rebalance(multiset(s.db.alerts), Total(Owed, s.threads), AllCalledFor(s.db.metrics),
                multiset(s'.db.alerts), Total(Owed, s'.threads), AllCalledFor(s'.db.metrics), Owed(t), Owed(t'));
    }
  }

  lemma StepBooks(cfg: Config, s: System, l: Label)
    requires Enabled(s, l)
    ensures var s' := Step(cfg, s, l);
            && |s'.threads| == |s.threads|
            && s'.threads == s.threads[l.thread := s'.threads[l.thread]]
            && multiset(s'.db.alerts) + Owed(s'.threads[l.thread]) + AllCalledFor(s.db.metrics)
               == multiset(s.db.alerts) + Owed(s.threads[l.thread]) + AllCalledFor(s'.db.metrics)
  {
    hide AllCalledFor, Section, Dispatch;
    var t := s.threads[l.thread];
    match l
    case Receive(_, tokens) => DispatchOwesNothing(tokens);
    case Run(_) =>
      if Working(t.pc) {
        SectionBalances(cfg, s.db, t);
      }
    case _ =>
  }

  lemma DispatchOwesNothing(tokens: seq<string>)
    ensures !Dispatch(tokens).AtAddAlert?
  {
  }

  /** The alerts ever appended and those still owed are exactly the anomalous metrics ever stored. */
  lemma {:induction false} RunsBalanceAlerts(cfg: Config, s: System, ls: seq<Label>)
    requires AlertsBalance(s)
    ensures AlertsBalance(Exec(cfg, s, ls))
    decreases |ls|
  {
    if ls != [] {
      hide AlertsBalance, Step;
      StepBalances(cfg, s, ls[0]);
      RunsBalanceAlerts(cfg, Step(cfg, s, ls[0]), ls[1..]);
    }
  }

  ghost predicate Quiet(s: System) {
    forall k :: 0 <= k < |s.threads| ==> s.threads[k].pc.Idle? || s.threads[k].pc.Closed?
  }

  /** With no command in service the alert log is, as a multiset, what the metric log calls for. */
  lemma QuietAlerts(cfg: Config, n: nat, ls: seq<Label>)
    requires Quiet(Exec(cfg, Init(n), ls))
    ensures var db := Exec(cfg, Init(n), ls).db; multiset(db.alerts) == AllCalledFor(db.metrics)
  {
    TotalNone(Owed, Init(n).threads);
    RunsBalanceAlerts(cfg, Init(n), ls);
    TotalNone(Owed, Exec(cfg, Init(n), ls).threads);
  }

  // Accepted metrics

  datatype Sample = Sample(id: string, value: Value, ts: string)

  ghost function SampleOf(cfg: Config, cmd: seq<string>): multiset<Sample> {
    if MetricCmd(cfg, cmd) then multiset{Sample(cmd[1], cfg.parse(cmd[2]).value, cmd[3])} else multiset{}
  }

  /** The sample a thread has stored and not yet answered. */
  ghost function Unanswered(cfg: Config): Thread -> multiset<Sample> {
    (t: Thread) => if Stored(t.pc) then SampleOf(cfg, t.cmd) else multiset{}
  }

  ghost function Answered(cfg: Config, answers: seq<Answer>): multiset<Sample> {
    if answers == [] then multiset{}
    else
      var a := answers[|answers| - 1];
      Answered(cfg, answers[..|answers| - 1]) + if a.reply == Accepted then SampleOf(cfg, a.cmd) else multiset{}
  }

  ghost function Logged(log: seq<Metric>): multiset<Sample> {
    if log == [] then multiset{}
    else
      var m := log[|log| - 1];
      Logged(log[..|log| - 1]) + multiset{Sample(m.sensorId, m.value, m.timestamp)}
  }

  /** Ids and types in the table and the metric log are whole and agree. */
  ghost predicate Whole(db: Db) {
    && (forall i :: 0 <= i < |db.table| ==> |db.table[i].id| < MAX_ID_LEN && db.table[i].kind != Invalid)
    && (forall i :: 0 <= i < |db.metrics| ==>
          KnownKind(db, db.metrics[i].sensorId, TypeFromName(db.metrics[i].typeName)))
  }

  ghost predicate SamplesBalance(cfg: Config, s: System) {
    Answered(cfg, s.answers) + Total(Unanswered(cfg), s.threads) == Logged(s.db.metrics)
  }

  ghost predicate Accounted(cfg: Config, s: System) {
    Matched(cfg, s) && Whole(s.db) && SamplesBalance(cfg, s)
  }

  lemma LoggedSnoc(log: seq<Metric>, m: Metric)
    ensures Logged(log + [m]) == Logged(log) + multiset{Sample(m.sensorId, m.value, m.timestamp)}
  {
    assert (log + [m])[..|log|] == log;
  }

  lemma AnsweredSnoc(cfg: Config, answers: seq<Answer>, a: Answer)
    ensures Answered(cfg, answers + [a])
         == Answered(cfg, answers) + if a.reply == Accepted then SampleOf(cfg, a.cmd) else multiset{}
  {
    assert (answers + [a])[..|answers|] == answers;
  }

  lemma FoundIsShort(db: Db, id: string)
    requires Whole(db) && Lookup(db.table, id).Some?
    ensures Cut(id, MAX_ID_LEN) == id
  {
    hide IndexOf;
    assert db.table[IndexOf(db.table, id)].id == id;
  }

  lemma SectionStores(cfg: Config, db: Db, t: Thread)
    requires Working(t.pc) && ThreadOk(cfg, db, t) && Whole(db)
    ensures var (db', pc') := Section(cfg, db, t.pc);
            Unanswered(cfg)(t.(pc := pc')) + Logged(db.metrics) == Unanswered(cfg)(t) + Logged(db'.metrics)
  {
    hide Section, Logged, SampleOf, Lookup, Whole;
    SectionLogs(cfg, db, t.pc);
    if Adds(db, t.pc) {
      FoundIsShort(db, t.pc.id);
      LoggedSnoc(db.metrics, Added(t.pc));
      CarriedSample(cfg, t.cmd, t.pc.id, t.pc.value, t.pc.ts);
    }
  }

  lemma CarriedSample(cfg: Config, cmd: seq<string>, id: string, v: Value, ts: string)
    requires Carries(cfg, cmd, id, v, ts)
    ensures SampleOf(cfg, cmd) == multiset{Sample(id, v, ts)}
  {
  }

  lemma SectionTypes(cfg: Config, db: Db, t: Thread)
    requires Working(t.pc) && ThreadOk(cfg, db, t) && Whole(db) && Adds(db, t.pc)
    ensures var m := Added(t.pc); KnownKind(db, m.sensorId, TypeFromName(m.typeName))
  {
    hide Lookup;
    FoundIsShort(db, t.pc.id);
    assert TypeFromName(TypeName(t.pc.copy.kind)) == t.pc.copy.kind && |TypeName(t.pc.copy.kind)| < MAX_TYPE_LEN;
  }

  lemma SectionWhole(cfg: Config, db: Db, t: Thread)
    requires Working(t.pc) && ThreadOk(cfg, db, t) && Whole(db)
    ensures Whole(Section(cfg, db, t.pc).0)
  {
    hide IndexOf, ThreadOk, Section;
    var db' := Section(cfg, db, t.pc).0;
    SectionLogs(cfg, db, t.pc);
    if Adds(db, t.pc) {
      SectionTypes(cfg, db, t);
    }
    forall i | 0 <= i < |db'.table| ensures |db'.table[i].id| < MAX_ID_LEN && db'.table[i].kind != Invalid {
      SectionIds(cfg, db, t.pc, i);
      SectionKinds(cfg, db, t, i);
    }
    forall i | 0 <= i < |db'.metrics|
      ensures KnownKind(db', db'.metrics[i].sensorId, TypeFromName(db'.metrics[i].typeName))
    {
      var m := db'.metrics[i];
      SectionLater(cfg, db, t.pc, m.sensorId);
      if i < |db.metrics| {
        assert m == db.metrics[i];
      }
    }
  }

  /** Slot ids are kept, and a new slot's id is the registering command's, cut. */
  lemma SectionIds(cfg: Config, db: Db, pc: Pc, i: nat)
    requires Working(pc) && i < |Section(cfg, db, pc).0.table|
    ensures var t := Section(cfg, db, pc).0.table;
            if i < |db.table| then t[i].id == db.table[i].id
            else pc.AtRegister? && Lookup(db.table, pc.id).None? && t[i].id == Cut(pc.id, MAX_ID_LEN)
  {
    hide IndexOf;
  }

  lemma SectionKinds(cfg: Config, db: Db, t: Thread, i: nat)
    requires Working(t.pc) && ThreadOk(cfg, db, t) && Whole(db) && i < |Section(cfg, db, t.pc).0.table|
    ensures Section(cfg, db, t.pc).0.table[i].kind != Invalid
  {
    hide IndexOf, MetricCmd;
  }

  lemma StepAccounted(cfg: Config, s: System, l: Label)
    requires Accounted(cfg, s)
    ensures Accounted(cfg, Step(cfg, s, l))
  {
    StepMatched(cfg, s, l);
    if Enabled(s, l) {
      var s' := Step(cfg, s, l);
      var t, t' := s.threads[l.thread], s'.threads[l.thread];
      StepSamples(cfg, s, l);
      hide Step, Matched, Whole, Unanswered, Answered, Logged;
      TotalUpdate(Unanswered(cfg), s.threads, l.thread, t');
      Rebalance(Answered(cfg, s.answers), Total(Unanswered(cfg), s.threads), Logged(s.db.metrics),
                Answered(cfg, s'.answers), Total(Unanswered(cfg), s'.threads), Logged(s'.db.metrics),
                Unanswered(cfg)(t), Unanswered(cfg)(t'));
    }
  }

  lemma StepSamples(cfg: Config, s: System, l: Label)
    requires Enabled(s, l) && Matched(cfg, s) && Whole(s.db)
    ensures var s' := Step(cfg, s, l);
            && |s'.threads| == |s.threads|
            && s'.threads == s.threads[l.thread := s'.threads[l.thread]]
            && Whole(s'.db)
            && Answered(cfg, s'.answers) + Unanswered(cfg)(s'.threads[l.thread]) + Logged(s.db.metrics)
               == Answered(cfg, s.answers) + Unanswered(cfg)(s.threads[l.thread]) + Logged(s'.db.metrics)
  {
    hide Logged, Section, Dispatch, ThreadOk, Suits, Whole, SampleOf;
    var t := s.threads[l.thread];
    match l
    case Receive(_, tokens) => DispatchStoresNothing(tokens);
    case Run(k) =>
      if t.pc.AtReply? {
        AnsweredSnoc(cfg, s.answers, Answer(k, t.cmd, t.pc.reply));
      } else {
        SectionStores(cfg, s.db, t);
        SectionWhole(cfg, s.db, t);
        var (db', pc') := Section(cfg, s.db, t.pc);
        AddLeft(Answered(cfg, s.answers), Unanswered(cfg)(t.(pc := pc')), Logged(s.db.metrics),
                Unanswered(cfg)(t), Logged(db'.metrics));
      }
    case _ =>
  }

  lemma DispatchStoresNothing(tokens: seq<string>)
    ensures !Stored(Dispatch(tokens))
  {
  }

  lemma {:induction false} RunsAccounted(cfg: Config, s: System, ls: seq<Label>)
    requires Accounted(cfg, s)
    ensures Accounted(cfg, Exec(cfg, s, ls))
    decreases |ls|
  {
    if ls != [] {
      hide Accounted, Step;
      StepAccounted(cfg, s, ls[0]);
      RunsAccounted(cfg, Step(cfg, s, ls[0]), ls[1..]);
    }
  }

  /**
   With no command in service, the metric log is exactly the METRIC commands answered 200 OK: id,
   parsed value and timestamp untruncated, once each; and every entry has its sensor's type.
   */
  lemma MetricsStoredVerbatim(cfg: Config, n: nat, ls: seq<Label>)
    requires Quiet(Exec(cfg, Init(n), ls))
    ensures var s := Exec(cfg, Init(n), ls);
            && Answered(cfg, s.answers) == Logged(s.db.metrics)
            && forall i :: 0 <= i < |s.db.metrics| ==>
                 var sensor := Lookup(s.db.table, s.db.metrics[i].sensorId);
                 sensor.Some? && s.db.metrics[i].typeName == TypeName(sensor.value.kind)
  {
    TotalNone(Unanswered(cfg), Init(n).threads);
    RunsAccounted(cfg, Init(n), ls);
    var s := Exec(cfg, Init(n), ls);
    TotalNone(Unanswered(cfg), s.threads);
    assert Whole(s.db);
    hide Exec, Answered, Logged, Matched, SamplesBalance, Lookup;
    forall i | 0 <= i < |s.db.metrics|
      ensures Lookup(s.db.table, s.db.metrics[i].sensorId).Some?
      ensures s.db.metrics[i].typeName == TypeName(Lookup(s.db.table, s.db.metrics[i].sensorId).value.kind)
    {
      FoundKind(s.db, s.db.metrics[i].sensorId);
      NameOfKind(s.db.metrics[i].typeName);
    }
  }

  lemma FoundKind(db: Db, id: string)
    requires Whole(db) && Lookup(db.table, id).Some?
    ensures Lookup(db.table, id).value.kind != Invalid
  {
    hide IndexOf;
  }

  lemma NameOfKind(name: string)
    ensures TypeFromName(name) != Invalid ==> TypeName(TypeFromName(name)) == name
  {
  }
}
