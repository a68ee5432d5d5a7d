/** The sizes of what the server stores and sends: which replies never reach the peer, and how long page rows are. */
module Replies {
  import opened Records
  import opened Text
  import opened Wire
  import opened Database
  import opened Server
  import opened Lifecycle
  import opened Conservation
  import opened Session
  import opened Page

  /** `strtod` gives doubles, and `%.2f` of a double takes at most 313 bytes. */
  ghost predicate DoublesOk(cfg: Config) {
    && (forall text :: cfg.parse(text).Some? ==> Double(cfg.parse(text).value))
    && (forall v :: Double(v) ==> |cfg.format(v)| <= 313)
  }

  predicate Double(v: Value) {
    v.Fin? ==> v.Finite()
  }

  predicate SmallSensor(s: Sensor) {
    |s.id| < MAX_ID_LEN && |s.lastTimestamp| < MAX_TIMESTAMP_LEN && Double(s.lastValue)
  }

  predicate SmallMetric(m: Metric) {
    && |m.sensorId| < MAX_ID_LEN && |m.typeName| < MAX_TYPE_LEN && |m.timestamp| < MAX_TIMESTAMP_LEN
    && Double(m.value)
  }

  predicate SmallReply(r: Reply) {
    r.StatusOf? ==> SmallSensor(r.sensor)
  }

  predicate SmallPc(pc: Pc) {
    (pc.AtAddMetric? ==> Double(pc.value)) && (pc.AtReply? ==> SmallReply(pc.reply))
  }

  ghost predicate Small(s: System) {
    && (forall i :: 0 <= i < |s.db.table| ==> SmallSensor(s.db.table[i]))
    && (forall i :: 0 <= i < |s.db.metrics| ==> SmallMetric(s.db.metrics[i]))
    && (forall k :: 0 <= k < |s.threads| ==> SmallPc(s.threads[k].pc))
    && (forall k :: 0 <= k < |s.answers| ==> SmallReply(s.answers[k].reply))
  }

  lemma SectionSmall(cfg: Config, db: Db, pc: Pc, i: nat)
    requires Working(pc) && SmallPc(pc) && forall j :: 0 <= j < |db.table| ==> SmallSensor(db.table[j])
    requires i < |Section(cfg, db, pc).0.table|
    ensures SmallSensor(Section(cfg, db, pc).0.table[i])
  {
    hide IndexOf;
  }

  lemma MetricSmall(cfg: Config, db: Db, pc: Pc, i: nat)
    requires Working(pc) && SmallPc(pc) && forall j :: 0 <= j < |db.metrics| ==> SmallMetric(db.metrics[j])
    requires i < |Section(cfg, db, pc).0.metrics|
    ensures SmallMetric(Section(cfg, db, pc).0.metrics[i])
  {
    hide Section, Lookup;
    SectionLogs(cfg, db, pc);
  }

  lemma NextSmall(cfg: Config, db: Db, pc: Pc)
    requires DoublesOk(cfg) && Working(pc) && forall j :: 0 <= j < |db.table| ==> SmallSensor(db.table[j])
    ensures SmallPc(Section(cfg, db, pc).1)
  {
    hide IndexOf, Put, SmallSensor;
    if pc.AtFindForMetric? {
      assert cfg.parse(pc.text).Some? ==> Double(cfg.parse(pc.text).value);
    }
  }

  lemma StepSmall(cfg: Config, s: System, l: Label)
    requires DoublesOk(cfg) && Small(s)
    ensures Small(Step(cfg, s, l))
  {
    if Enabled(s, l) {
      var pc := s.threads[l.thread].pc;
      assert SmallPc(pc);
      if l.Receive? {
        DispatchSmall(l.tokens);
      }
      hide Section, Dispatch, Committed, DoublesOk, SmallSensor, SmallMetric;
      if l.Run? && Working(pc) {
        NextSmall(cfg, s.db, pc);
        forall i | 0 <= i < |Section(cfg, s.db, pc).0.table| ensures SmallSensor(Section(cfg, s.db, pc).0.table[i]) {
          SectionSmall(cfg, s.db, pc, i);
        }
        forall i | 0 <= i < |Section(cfg, s.db, pc).0.metrics| ensures SmallMetric(Section(cfg, s.db,
            pc).0.metrics[i]) {
          MetricSmall(cfg, s.db, pc, i);
        }
      }
    }
  }

  lemma DispatchSmall(tokens: seq<string>)
    ensures SmallPc(Dispatch(tokens))
  {
  }

  lemma {:induction false} RunsSmall(cfg: Config, s: System, ls: seq<Label>)
    requires DoublesOk(cfg) && Small(s)
    ensures Small(Exec(cfg, s, ls))
    decreases |ls|
  {
    if ls != [] {
      hide DoublesOk, Small, Step;
      StepSmall(cfg, s, ls[0]);
      RunsSmall(cfg, Step(cfg, s, ls[0]), ls[1..]);
    }
  }

  lemma StatusFits(cfg: Config, s: Sensor)
    requires DoublesOk(cfg) && SmallSensor(s)
    ensures |ReplyText(cfg, StatusOf(s))| <= 500
  {
    assert |cfg.format(s.lastValue)| <= 313;
    assert |StatusName(s.status)| <= 8 && |TypeName(s.kind)| <= 7 && |LevelName(s.level)| <= 6;
    hide StatusName, TypeName, LevelName;
  }

  lemma SilentIs(cfg: Config, r: Reply)
    requires r.StatusOf? ==> |ReplyText(cfg, r)| <= 500
    ensures SentBytes(cfg, r) == [] <==> r.Registered? && |r.id| >= 4080
  {
    hide StatusName, TypeName, LevelName;
  }

  /** Of all replies a run can give, exactly the REGISTERED of an id of 4080 bytes or more is never sent. */
  lemma SilentReplies(cfg: Config, n: nat, ls: seq<Label>, a: Answer)
    requires DoublesOk(cfg) && a in Exec(cfg, Init(n), ls).answers
    ensures SentBytes(cfg, a.reply) == [] <==> a.reply.Registered? && |a.reply.id| >= 4080
  {
    RunsSmall(cfg, Init(n), ls);
    if a.reply.StatusOf? {
      StatusFits(cfg, a.reply.sensor);
    }
    SilentIs(cfg, a.reply);
  }

  /** Every metric any run stores obeys the bounds that the metrics page relies on. */
  lemma StoredMetricsAreBounded(cfg: Config, n: nat, ls: seq<Label>, i: nat)
    requires DoublesOk(cfg) && i < |Exec(cfg, Init(n), ls).db.metrics|
    ensures Bounded(cfg.format, Exec(cfg, Init(n), ls).db.metrics[i])
  {
    RunsSmall(cfg, Init(n), ls);
    assert SmallMetric(Exec(cfg, Init(n), ls).db.metrics[i]);
  }

  /** Such a REGISTER fits its line: the session reads it, registers the sensor and answers nothing. */
  lemma SilentRegister(cfg: Config, db: Db, id: string)
    requires |id| == 4080 && Word(id) && !IsActive(db, id) && (Lookup(db.table, id).Some? || |db.table| < cfg.cap)
    ensures var (db', rs) := RunSession(cfg, db, Line(["REGISTER", id, "TEMP"]), false);
            db' == Register(db, cfg.cap, id, Temp).0 && db' != db && rs == [Registered(id)] && AllSent(cfg, rs) == []
  {
    var cmd := ["REGISTER", id, "TEMP"];
    JoinThree(cmd);
    assert Sendable(cmd) by {
      assert Word("REGISTER") && Word("TEMP");
    }
    assert Commands(Line(cmd), false) == [cmd] by {
      hide Commands, Line, Sendable;
      CommandsCons(cmd, [], false);
      NothingSent();
      assert Line(cmd) + [] == Line(cmd);
    }
    assert Handle(cfg, db, cmd) == (Register(db, cfg.cap, id, Temp).0, Registered(id)) by {
      ServeRegister(cfg, db, id, Temp);
      hide IndexOf, Put;
    }
    RegisterChanges(cfg, db, id);
    SilentIs(cfg, Registered(id));
    hide Commands, Line, Sendable, Handle, Register, IsActive, SentBytes;
    assert UpToQuit([cmd]) == [cmd] + UpToQuit([]);
    assert HandleAll(cfg, db, [cmd]) == (Register(db, cfg.cap, id, Temp).0, [Registered(id)] + []);
    assert AllSent(cfg, [Registered(id)]) == [] + SentBytes(cfg, Registered(id));
  }

  lemma RegisterChanges(cfg: Config, db: Db, id: string)
    requires !IsActive(db, id) && (Lookup(db.table, id).Some? || |db.table| < cfg.cap)
    ensures Register(db, cfg.cap, id, Temp).0 != db
  {
    hide IndexOf;
    match Lookup(db.table, id)
    case Some(s) => LookupPut(db.table, id, s.(status := Active), id);
    case None => assert |db.table + [Fresh(Cut(id, MAX_ID_LEN), Temp)]| != |db.table|;
  }

  lemma JoinThree(cmd: seq<string>)
    requires |cmd| == 3
    ensures |Join(cmd)| == |cmd[0]| + |cmd[1]| + |cmd[2]| + 2
  {
    assert cmd[1..][1..] == [cmd[2]] && Join([cmd[2]]) == cmd[2];
    assert Join(cmd[1..]) == cmd[1] + " " + cmd[2];
  }
}
