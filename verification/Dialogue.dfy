/** What commands mean to one another when no other connection comes in between. */
module Dialogue {
  import opened Records
  import opened Text
  import opened Database
  import opened Server
  import opened Lifecycle
  import opened Session

  /** Verb and argument count as SMP 1.0 lists them. */
  ghost predicate WellFormed(cmd: seq<string>) {
    && cmd != []
    && (|| (cmd[0] == "REGISTER" && |cmd| == 3)
        || (cmd[0] == "METRIC" && |cmd| == 4)
        || ((cmd[0] == "STATUS" || cmd[0] == "PING" || cmd[0] == "QUIT") && |cmd| == 2))
  }

  /** A malformed command is answered 400 and changes nothing; a well-formed one gets 400 only as a bad timestamp. */
  lemma MalformedIs400(cfg: Config, db: Db, cmd: seq<string>)
    ensures !WellFormed(cmd) ==> Handle(cfg, db, cmd) == (db, BadRequest)
    ensures WellFormed(cmd) && Handle(cfg, db, cmd).1 == BadRequest ==> cmd[0] == "METRIC" && !ValidTimestamp(cmd[3])
  {
    if WellFormed(cmd) {
      if cmd[0] == "METRIC" {
        assert cmd == ["METRIC", cmd[1], cmd[2], cmd[3]];
        MetricOutcome(cfg, db, cmd[1], cmd[2], cmd[3]);
      } else {
        WellFormedReply(cfg, db, cmd);
      }
    }
  }

  lemma WellFormedReply(cfg: Config, db: Db, cmd: seq<string>)
    requires WellFormed(cmd) && cmd[0] != "METRIC"
    ensures Handle(cfg, db, cmd).1 != BadRequest
  {
    hide Register, Deactivate, Lookup;
    var pc := Dispatch(cmd);
    if Working(pc) {
      ServeStep(cfg, db, pc);
    }
  }

  /** The five outcomes of METRIC, in the order the checks are made; only the last changes the state. */
  lemma MetricOutcome(cfg: Config, db: Db, id: string, text: string, ts: string)
    ensures var (db', r) := Handle(cfg, db, ["METRIC", id, text, ts]);
            && (r == NotFound <==> Lookup(db.table, id).None?)
            && (r == NotRegistered <==> Lookup(db.table, id).Some? && !IsActive(db, id))
            && (r == InvalidValue <==> IsActive(db, id) && cfg.parse(text).None?)
            && (r == BadRequest <==> IsActive(db, id) && cfg.parse(text).Some? && !ValidTimestamp(ts))
            && (r == Accepted <==> IsActive(db, id) && cfg.parse(text).Some? && ValidTimestamp(ts))
            && (r != Accepted ==> db' == db)
  {
    hide ValidTimestamp, IndexOf, Put;
    ServeStep(cfg, db, AtFindForMetric(id, text, ts));
    if IsActive(db, id) && cfg.parse(text).Some? && ValidTimestamp(ts) {
      AcceptedMetric(cfg, db, id, text, ts);
    }
  }

  /** What an accepted METRIC leaves behind. */
  lemma AcceptedMetric(cfg: Config, db: Db, id: string, text: string, ts: string)
    requires IsActive(db, id) && cfg.parse(text).Some? && ValidTimestamp(ts)
    ensures var (db', r) := Handle(cfg, db, ["METRIC", id, text, ts]);
            var s, v := Lookup(db.table, id).value, cfg.parse(text).value;
            && r == Accepted
            && Lookup(db'.table, id) == Some(s.(lastValue := v, lastTimestamp := ts, level := LevelFor(s.kind, v)))
            && db'.table == Put(db.table, id, s.(lastValue := v, lastTimestamp := ts, level := LevelFor(s.kind, v)))
            && db'.metrics == db.metrics + [MetricRecord(id, v, ts, TypeName(s.kind))]
            && db'.alerts == (if Anomalous(s.kind, v)
                 then db.alerts + [AlertEntry(id, v, CrossedBound(s.kind, v), ts, TypeName(s.kind))] else db.alerts)
  {
    var s, v := Lookup(db.table, id).value, cfg.parse(text).value;
    var s1 := s.(lastValue := v, lastTimestamp := Cut(ts, MAX_TIMESTAMP_LEN));
    assert Cut(ts, MAX_TIMESTAMP_LEN) == ts;
    hide ValidTimestamp, IndexOf, Put;
    ServeStep(cfg, db, AtFindForMetric(id, text, ts));
    ServeStep(cfg, db, AtAddMetric(id, v, ts, s));
    LookupPut(db.table, id, s1, id);
    var db1 := AddMetric(db, id, v, ts, TypeName(s.kind)).0;
    ServeEvaluation(cfg, db1, id, v, ts, s.kind);
    LookupPut(db1.table, id, s1.(level := LevelFor(s.kind, v)), id);
    PutTwice(db.table, id, s1, s1.(level := LevelFor(s.kind, v)));
  }

  lemma PutTwice(table: seq<Sensor>, id: string, a: Sensor, b: Sensor)
    requires IndexOf(table, id) >= 0 && a.id == id
    ensures IndexOf(Put(table, id, a), id) >= 0 && Put(Put(table, id, a), id, b) == Put(table, id, b)
  {
    hide IndexOf;
    LookupPut(table, id, a, id);
  }

  /** STATUS after an accepted METRIC reports that metric, and ALERT exactly for an anomalous value. */
  lemma StatusReportsMetric(cfg: Config, db: Db, id: string, text: string, ts: string)
    requires Handle(cfg, db, ["METRIC", id, text, ts]).1 == Accepted
    ensures var r := Handle(cfg, Handle(cfg, db, ["METRIC", id, text, ts]).0, ["STATUS", id]).1;
            && r.StatusOf? && r.sensor.id == id && r.sensor.status == Active
            && Some(r.sensor.lastValue) == cfg.parse(text) && r.sensor.lastTimestamp == ts
            && (r.sensor.level == Alert <==> Anomalous(r.sensor.kind, r.sensor.lastValue))
  {
    MetricOutcome(cfg, db, id, text, ts);
    AcceptedMetric(cfg, db, id, text, ts);
    hide ValidTimestamp, IndexOf, Put;
    StatusReply(cfg, Handle(cfg, db, ["METRIC", id, text, ts]).0, id);
  }

  lemma StatusReply(cfg: Config, db: Db, id: string)
    ensures Handle(cfg, db, ["STATUS", id])
         == (db, if Lookup(db.table, id).Some? then StatusOf(Lookup(db.table, id).value) else NotFound)
  {
    hide Lookup;
    ServeStep(cfg, db, AtFindForStatus(id));
    assert Section(cfg, db, AtFindForStatus(id)).1.AtReply?;
  }

  /** QUIT deactivates; METRIC is then refused until a REGISTER, which restores all but the status. */
  lemma QuitThenReturn(cfg: Config, db: Db, id: string, text: string, ts: string, kind: SensorType)
    requires Lookup(db.table, id).Some? && kind != Invalid
    ensures var s := Lookup(db.table, id).value;
            var (db1, bye) := Handle(cfg, db, ["QUIT", id]);
            var (db2, back) := Handle(cfg, db1, ["REGISTER", id, TypeName(kind)]);
            && bye == Bye && Lookup(db1.table, id) == Some(s.(status := Inactive))
            && Handle(cfg, db1, ["METRIC", id, text, ts]) == (db1, NotRegistered)
            && back == Registered(id) && Lookup(db2.table, id) == Some(s.(status := Active))
            && db2.metrics == db.metrics && db2.alerts == db.alerts && |db2.table| == |db.table|
            && Handle(cfg, db2, ["REGISTER", id, TypeName(kind)]) == (db2, AlreadyExists)
  {
    var s := Lookup(db.table, id).value;
    hide IndexOf, Put, ValidTimestamp;
    ServeDeactivate(cfg, db, id);
    var db1 := Deactivate(db, id).0;
    LookupPut(db.table, id, s.(status := Inactive), id);
    MetricOutcome(cfg, db1, id, text, ts);
    RegisterOutcome(cfg, db1, id, kind);
    LookupPut(db1.table, id, s.(status := Active), id);
    RegisterOutcome(cfg, Register(db1, cfg.cap, id, kind).0, id, kind);
    PutSize(db.table, id, s.(status := Inactive));
    PutSize(db1.table, id, s.(status := Active));
  }

  lemma PutSize(table: seq<Sensor>, id: string, s: Sensor)
    requires IndexOf(table, id) >= 0
    ensures |Put(table, id, s)| == |table|
  {
  }

  /** The four outcomes of REGISTER; 500 exactly for an unknown id and a full table. */
  lemma RegisterOutcome(cfg: Config, db: Db, id: string, kind: SensorType)
    requires kind != Invalid
    ensures var (db', r) := Handle(cfg, db, ["REGISTER", id, TypeName(kind)]);
            && db' == Register(db, cfg.cap, id, kind).0
            && (r == AlreadyExists <==> IsActive(db, id))
            && (r == InternalError <==> Lookup(db.table, id).None? && |db.table| >= cfg.cap)
            && (r == Registered(id) <==> !IsActive(db, id) && (Lookup(db.table, id).Some? || |db.table| < cfg.cap))
            && (r != Registered(id) ==> db' == db)
  {
    assert TypeFromName(TypeName(kind)) == kind;
    ServeRegister(cfg, db, id, kind);
    hide IndexOf, Put;
  }

  /** A type name outside the protocol is refused with 422 whatever the table holds. */
  lemma UnknownTypeIs422(cfg: Config, db: Db, id: string, name: string)
    ensures Handle(cfg, db, ["REGISTER", id, name]) == (db, InvalidSensorType)
        <==> (name != "TEMP" && name != "VIB" && name != "POWER")
  {
    if TypeFromName(name) != Invalid {
      RegisterOutcome(cfg, db, id, TypeFromName(name));
    }
  }

  /** A client that looks for "200" at the start of the text takes exactly the successes for success. */
  lemma SuccessIs200(cfg: Config, r: Reply)
    ensures "200" <= ReplyText(cfg, r) <==>
            r.Registered? || r.Accepted? || r.StatusOf? || r.Pong? || r.Bye?
  {
    var text := ReplyText(cfg, r);
    match r
    case Registered(id) => assert text[..3] == "200";
    case StatusOf(s) => StatusText(cfg, s);
    case Accepted => assert text[..3] == "200";
    case Pong => assert text[..3] == "200";
    case Bye => assert text[..3] == "200";
    case _ => assert text[0] != '2';
  }

  lemma StatusText(cfg: Config, s: Sensor)
    ensures "200" <= ReplyText(cfg, StatusOf(s))
  {
    var head := "200 STATUS ";
    assert head[..3] == "200";
    hide TypeName, StatusName, LevelName;
    assert head + s.id + " " + StatusName(s.status) + " " + TypeName(s.kind) + " " + cfg.format(s.lastValue)
           + " " + s.lastTimestamp + " " + LevelName(s.level)
           == head + (s.id + " " + StatusName(s.status) + " " + TypeName(s.kind) + " " + cfg.format(s.lastValue)
           + " " + s.lastTimestamp + " " + LevelName(s.level));
  }
}
