/**
 The dialogue of one connection in words: what every command is answered and changes, with commands, replies
 and numbers written out as SMP 1.0 has them, and a whole conversation as bytes on the wire.
 */
module Conversation {
  import opened Records
  import opened Text
  import opened Wire
  import opened Protocol
  import opened Database
  import opened Server
  import opened Lifecycle
  import opened Session
  import opened Dialogue

  /** The text of a reply and the state it leaves. */
  function Says(cfg: Config, r: (Db, Reply)): (Db, string) {
    (r.0, ReplyText(cfg, r.1))
  }

  function IsType(name: string): bool {
    name == "TEMP" || name == "VIB" || name == "POWER"
  }

  /** `after` is `before` but for the record in slot `i`, which is now `s`. */
  ghost predicate Changed(before: Db, after: Db, i: int, s: Sensor) {
    && |after.table| == |before.table| && 0 <= i < |before.table|
    && after.table[i] == s
    && forall j :: 0 <= j < |before.table| && j != i ==> after.table[j] == before.table[j]
  }

  /** Every REGISTER: its reply in words, and what becomes of the table. */
  lemma RegisterInWords(cfg: Config, db: Db, id: string, name: string)
    ensures var (db', text) := Says(cfg, Handle(cfg, db, ["REGISTER", id, name]));
            var i := IndexOf(db.table, id);
            && db'.metrics == db.metrics && db'.alerts == db.alerts
            && if !IsType(name) then text == "422 INVALID_SENSOR_TYPE" && db' == db
               else if i >= 0 && db.table[i].status.Active? then text == "409 SENSOR_ALREADY_EXISTS" && db' == db
               else if i >= 0 then
                 text == "200 REGISTERED " + id && Changed(db, db', i, db.table[i].(status := Active))
               else if |db.table| >= cfg.cap then text == "500 INTERNAL_ERROR" && db' == db
               else
                 && text == "200 REGISTERED " + id
                 && |db'.table| == |db.table| + 1 && db'.table[..|db.table|] == db.table
                 && Newcomer(db'.table[|db.table|], id, name)
  {
    NameIs(name);
    if IsType(name) {
      FreshIs(id, name);
      ServeRegister(cfg, db, id, TypeFromName(name));
      hide IndexOf, Fresh, TypeFromName, Newcomer;
    }
  }

  /** Every METRIC: its reply in words, and the record, the metric and the alert it leaves. */
  lemma MetricInWords(cfg: Config, db: Db, id: string, text: string, ts: string, name: string)
    requires var i := IndexOf(db.table, id); i >= 0 ==> Names(name, db.table[i].kind)
    ensures var (db', said) := Says(cfg, Handle(cfg, db, ["METRIC", id, text, ts]));
            var i := IndexOf(db.table, id);
            if i >= 0 && db.table[i].status.Active? && cfg.parse(text).Some? && IsStamp(ts) then
              var s, v := db.table[i], cfg.parse(text).value;
              && said == "200 OK"
              && Changed(db, db', i, Sensor(s.id, s.kind, s.status, LevelIn(name, v), v, ts, s.occupied))
              && db'.metrics == db.metrics + [Metric(KeptId(id), v, ts, name)]
              && db'.alerts == db.alerts + AlertsFor(name, KeptId(id), v, ts)
            else
              && db' == db
              && said == if i < 0 then "404 SENSOR_NOT_FOUND"
                         else if !db.table[i].status.Active? then "403 SENSOR_NOT_REGISTERED"
                         else if cfg.parse(text).None? then "422 INVALID_VALUE"
                         else "400 BAD_REQUEST"
  {
    ValidIsPrinted(ts);
    hide IndexOf, IsStamp, ValidTimestamp, AlertsFor, LevelIn, Handle;
    MetricOutcome(cfg, db, id, text, ts);
    if IsActive(db, id) && cfg.parse(text).Some? && ValidTimestamp(ts) {
      MetricAccepted(cfg, db, id, text, ts, name);
    }
  }

  lemma MetricAccepted(cfg: Config, db: Db, id: string, text: string, ts: string, name: string)
    requires IsActive(db, id) && cfg.parse(text).Some? && ValidTimestamp(ts)
    requires Names(name, db.table[IndexOf(db.table, id)].kind)
    ensures var (db', r) := Handle(cfg, db, ["METRIC", id, text, ts]);
            var i, v := IndexOf(db.table, id), cfg.parse(text).value;
            var s := db.table[i];
            && r == Accepted
            && Changed(db, db', i, Sensor(s.id, s.kind, s.status, LevelIn(name, v), v, ts, s.occupied))
            && db'.metrics == db.metrics + [Metric(KeptId(id), v, ts, name)]
            && db'.alerts == db.alerts + AlertsFor(name, KeptId(id), v, ts)
  {
    AcceptedMetric(cfg, db, id, text, ts);
    RuleIs(name, Lookup(db.table, id).value.kind, cfg.parse(text).value);
    NameIs(name);
    hide IndexOf, Anomalous, Crossed, CrossedBound, LevelFor, LevelIn, Handle;
  }

  /**
   The alert rule of SMP 1.0, from words to numbers: after a first REGISTER and an accepted METRIC the level is
   ALERT and one alert with bound `b` was added exactly for the values listed; otherwise it is NORMAL and none was.
   */
  lemma AlertRule(cfg: Config, db: Db, id: string, name: string, text: string, v: Value, ts: string, b: real)
    requires IndexOf(db.table, id) < 0 && |db.table| < cfg.cap && |id| < 64 && IsType(name)
    requires cfg.parse(text) == Some(v) && IsStamp(ts)
    ensures var (db1, said1) := Says(cfg, Handle(cfg, db, ["REGISTER", id, name]));
            var (db2, said2) := Says(cfg, Handle(cfg, db1, ["METRIC", id, text, ts]));
            var k := |db.table|;
            && said1 == "200 REGISTERED " + id && said2 == "200 OK" && |db2.table| == k + 1
            && (db2.table[k].level == Alert && db2.alerts == db.alerts + [AlertRecord(id, v, b, ts, name)]
                <==> || (name == "TEMP" && b == 70.0 && (v == PosInf || (v.Fin? && v.r > 70.0)))
                     || (name == "VIB" && b == 50.0 && (v == PosInf || (v.Fin? && v.r > 50.0)))
                     || (name == "POWER" && b == 10.0 && (v == NegInf || (v.Fin? && v.r < 10.0)))
                     || (name == "POWER" && b == 100.0 && (v == PosInf || (v.Fin? && v.r > 100.0))))
            && (db2.table[k].level == Normal && db2.alerts == db.alerts
                <==> || v == NaN
                     || (name == "TEMP" && (v == NegInf || (v.Fin? && v.r <= 70.0)))
                     || (name == "VIB" && (v == NegInf || (v.Fin? && v.r <= 50.0)))
                     || (name == "POWER" && v.Fin? && 10.0 <= v.r <= 100.0))
  {
    FirstMetric(cfg, db, id, name, text, v, ts);
    AlertsAre(db.alerts, name, id, v, ts, b);
    CrossedAre(name, v, b);
    hide Handle, IndexOf, IsStamp, Crossed, AlertsFor;
  }

  lemma FirstMetric(cfg: Config, db: Db, id: string, name: string, text: string, v: Value, ts: string)
    requires IndexOf(db.table, id) < 0 && |db.table| < cfg.cap && |id| < 64 && IsType(name)
    requires cfg.parse(text) == Some(v) && IsStamp(ts)
    ensures var (db1, said1) := Says(cfg, Handle(cfg, db, ["REGISTER", id, name]));
            var (db2, said2) := Says(cfg, Handle(cfg, db1, ["METRIC", id, text, ts]));
            var k := |db.table|;
            && said1 == "200 REGISTERED " + id && said2 == "200 OK" && |db2.table| == k + 1
            && db2.table[k].level == LevelIn(name, v) && db2.alerts == db.alerts + AlertsFor(name, id, v, ts)
  {
    FirstRegister(cfg, db, id, name);
    StampLength(ts);
    hide Handle, IndexOf, IsStamp, Crossed, AlertsFor, LevelIn;
    MetricInWords(cfg, Handle(cfg, db, ["REGISTER", id, name]).0, id, text, ts, name);
  }

  lemma StampLength(ts: string)
    requires IsStamp(ts)
    ensures KeptStamp(ts) == ts && |ts| == 20
  {
    ValidIsPrinted(ts);
  }

  lemma FirstRegister(cfg: Config, db: Db, id: string, name: string)
    requires IndexOf(db.table, id) < 0 && |db.table| < cfg.cap && |id| < 64 && IsType(name)
    ensures var (db1, said1) := Says(cfg, Handle(cfg, db, ["REGISTER", id, name]));
            && said1 == "200 REGISTERED " + id && |db1.table| == |db.table| + 1
            && db1.metrics == db.metrics && db1.alerts == db.alerts && db1.table[..|db.table|] == db.table
            && Newcomer(db1.table[|db.table|], id, name) && db1.table[|db.table|].id == id
            && IndexOf(db1.table, id) == |db.table|
  {
    RegisterInWords(cfg, db, id, name);
    hide Handle, IndexOf;
    var db1 := Handle(cfg, db, ["REGISTER", id, name]).0;
    forall j | 0 <= j < |db.table| ensures db1.table[j].id != id {
      assert db1.table[j] == db.table[j];
    }
    IndexIs(db1.table, id, |db.table|);
  }

  lemma CrossedAre(name: string, v: Value, b: real)
    requires IsType(name)
    ensures Crossed(name, v) == Some(b)
            <==> || (name == "TEMP" && b == 70.0 && (v == PosInf || (v.Fin? && v.r > 70.0)))
                 || (name == "VIB" && b == 50.0 && (v == PosInf || (v.Fin? && v.r > 50.0)))
                 || (name == "POWER" && b == 10.0 && (v == NegInf || (v.Fin? && v.r < 10.0)))
                 || (name == "POWER" && b == 100.0 && (v == PosInf || (v.Fin? && v.r > 100.0)))
    ensures Crossed(name, v) == None
            <==> || v == NaN
                 || (name == "TEMP" && (v == NegInf || (v.Fin? && v.r <= 70.0)))
                 || (name == "VIB" && (v == NegInf || (v.Fin? && v.r <= 50.0)))
                 || (name == "POWER" && v.Fin? && 10.0 <= v.r <= 100.0)
  {
  }

  lemma AlertsAre(log: seq<AlertRecord>, name: string, id: string, v: Value, ts: string, b: real)
    ensures log + AlertsFor(name, id, v, ts) == log + [AlertRecord(id, v, b, ts, name)] <==> Crossed(name, v) == Some(b)
    ensures log + AlertsFor(name, id, v, ts) == log <==> Crossed(name, v) == None
  {
    var a := AlertsFor(name, id, v, ts);
    if a != [] {
      assert (log + a)[|log|] == a[0];
    } else {
      assert |log + [AlertRecord(id, v, b, ts, name)]| == |log| + 1;
    }
  }

  /** The eight words of a STATUS reply. */
  function StatusWords(cfg: Config, s: Sensor, name: string): seq<string> {
    ["200", "STATUS", s.id, if s.status.Active? then "ACTIVE" else "INACTIVE", name, cfg.format(s.lastValue),
     s.lastTimestamp, if s.level.Alert? then "ALERT" else "NORMAL"]
  }

  /** Every STATUS: eight words with single spaces, or that the sensor is unknown. */
  lemma StatusInWords(cfg: Config, db: Db, id: string, name: string)
    requires var i := IndexOf(db.table, id); i >= 0 ==> Names(name, db.table[i].kind)
    ensures var i := IndexOf(db.table, id);
            Says(cfg, Handle(cfg, db, ["STATUS", id]))
              == (db, if i < 0 then "404 SENSOR_NOT_FOUND" else Join(StatusWords(cfg, db.table[i], name)))
  {
    NameIs(name);
    StatusReply(cfg, db, id);
    hide IndexOf, Handle, TypeFromName;
    var i := IndexOf(db.table, id);
    if i >= 0 {
      StatusJoined(cfg, db.table[i], name);
    }
  }

  /** Words appended one by one to a text. */
  function Spaced(text: string, ws: seq<string>): string
    decreases |ws|
  {
    if ws == [] then text else Spaced(text + " " + ws[0], ws[1..])
  }

  lemma {:induction false} JoinSpaced(text: string, w: string, ws: seq<string>)
    ensures Spaced(text + w, ws) == text + Join([w] + ws)
    decreases |ws|
  {
    if ws != [] {
      hide Join;
      JoinSpaced(text + w + " ", ws[0], ws[1..]);
      assert [ws[0]] + ws[1..] == ws;
      assert Join([w] + ws) == w + " " + Join(ws) by { JoinCons(w, ws); }
    }
  }

  lemma StatusJoined(cfg: Config, s: Sensor, name: string)
    requires TypeName(s.kind) == name
    ensures ReplyText(cfg, StatusOf(s)) == Join(StatusWords(cfg, s, name))
  {
    var ws := StatusWords(cfg, s, name);
    assert "200" + " " + "STATUS" + " " == "200 STATUS ";
    SpacedAll("200", ws[1..]);
    assert "" + "200" == "200" && ["200"] + ws[1..] == ws;
    JoinSpaced("", "200", ws[1..]);
    hide Spaced, Join;
    assert "" + Join(ws) == Join(ws);
  }

  lemma SpacedAll(text: string, ws: seq<string>)
    requires |ws| == 7
    ensures Spaced(text, ws) == text + " " + ws[0] + " " + ws[1] + " " + ws[2] + " " + ws[3] + " " + ws[4] + " " + ws[5]
              + " " + ws[6]
  {
    assert Spaced(text, ws) == Spaced(text + " " + ws[0], ws[1..]);
    SpacedTwo(text + " " + ws[0], ws[1..]);
    SpacedTwo(text + " " + ws[0] + " " + ws[1] + " " + ws[2], ws[3..]);
    SpacedTwo(text + " " + ws[0] + " " + ws[1] + " " + ws[2] + " " + ws[3] + " " + ws[4], ws[5..]);
    assert ws[1..][2..] == ws[3..] && ws[3..][2..] == ws[5..] && ws[5..][2..] == [];
  }

  lemma SpacedTwo(text: string, ws: seq<string>)
    requires |ws| >= 2
    ensures Spaced(text, ws) == Spaced(text + " " + ws[0] + " " + ws[1], ws[2..])
  {
    assert ws[1..][0] == ws[1] && ws[1..][1..] == ws[2..];
  }

  /** A peer that splits the reply to STATUS gets those eight words. */
  lemma StatusSplits(cfg: Config, s: Sensor, name: string)
    requires Names(name, s.kind) && Word(s.id) && Word(cfg.format(s.lastValue)) && Word(s.lastTimestamp)
    ensures Tokens(ReplyText(cfg, StatusOf(s))) == StatusWords(cfg, s, name)
  {
    NameIs(name);
    StatusJoined(cfg, s, name);
    var ws := StatusWords(cfg, s, name);
    assert forall k :: 0 <= k < |ws| ==> Word(ws[k]);
    hide StatusWords, ReplyText, Word;
    TokensOfJoin(ws, 8);
  }

  /** PING, QUIT and whatever is malformed. */
  lemma OthersInWords(cfg: Config, db: Db, id: string, cmd: seq<string>)
    ensures Says(cfg, Handle(cfg, db, ["PING", id])) == (db, "200 PONG")
    ensures var (db', text) := Says(cfg, Handle(cfg, db, ["QUIT", id]));
            var i := IndexOf(db.table, id);
            && text == "200 BYE" && db'.metrics == db.metrics && db'.alerts == db.alerts
            && if i < 0 then db' == db else Changed(db, db', i, db.table[i].(status := Inactive))
    ensures !WellFormed(cmd) ==> Says(cfg, Handle(cfg, db, cmd)) == (db, "400 BAD_REQUEST")
  {
    MalformedIs400(cfg, db, cmd);
    ServeDeactivate(cfg, db, id);
    hide IndexOf, WellFormed;
  }

  /** A reply goes out as its text and a LF, unless the text is 4095 bytes or longer: then nothing does. */
  lemma SentInWords(cfg: Config, r: Reply)
    ensures SentBytes(cfg, r) == if |ReplyText(cfg, r)| < 4095 then ReplyText(cfg, r) + "\n" else []
  {
    hide ReplyText;
  }

  // A whole conversation

  /** The state a session leaves and the bytes it sends, when no send fails. */
  function Wired(cfg: Config, db: Db, s: seq<char>, broken: bool): (Db, string) {
    var (db', rs) := RunSession(cfg, db, s, broken);
    (db', AllSent(cfg, rs))
  }

  lemma {:induction false} AllSentCons(cfg: Config, r: Reply, rs: seq<Reply>)
    ensures AllSent(cfg, [r] + rs) == SentBytes(cfg, r) + AllSent(cfg, rs)
    decreases |rs|
  {
    hide SentBytes;
    if rs == [] {
      assert [r] + rs == [] + [r];
      AllSentSnoc(cfg, [], r);
    } else {
      var n := |rs| - 1;
      AllSentCons(cfg, r, rs[..n]);
      AllSentSnoc(cfg, [r] + rs[..n], rs[n]);
      assert [r] + rs[..n] + [rs[n]] == [r] + rs;
    }
  }

  /** What a session does with a line that holds one command. */
  lemma LineHandled(cfg: Config, db: Db, cmd: seq<string>, rest: seq<char>, broken: bool)
    requires Sendable(cmd)
    ensures var (db1, r) := Handle(cfg, db, cmd);
            RunSession(cfg, db, Line(cmd) + rest, broken)
              == if EndsSession(cmd) then (db1, [r])
                 else var (db2, rs) := RunSession(cfg, db1, rest, broken); (db2, [r] + rs)
  {
    CommandsCons(cmd, rest, broken);
    hide Commands, Handle, Line, Sendable, EndsSession;
    var cmds := [cmd] + Commands(rest, broken);
    assert cmds[1..] == Commands(rest, broken);
    var up := UpToQuit(cmds);
    if EndsSession(cmd) {
      assert up == [cmd] && up[1..] == [];
      var (db1, r) := Handle(cfg, db, cmd);
      assert HandleAll(cfg, db1, []) == (db1, []) && [r] + [] == [r];
    } else {
      assert up == [cmd] + UpToQuit(cmds[1..]) && up[1..] == UpToQuit(cmds[1..]);
    }
  }

  /** The same in bytes. */
  lemma LineSaid(cfg: Config, db: Db, cmd: seq<string>, rest: seq<char>, broken: bool)
    requires Sendable(cmd) && |Says(cfg, Handle(cfg, db, cmd)).1| < 4095
    ensures var (db1, text) := Says(cfg, Handle(cfg, db, cmd));
            Wired(cfg, db, Line(cmd) + rest, broken)
              == if EndsSession(cmd) then (db1, text + "\n")
                 else var (db2, out) := Wired(cfg, db1, rest, broken); (db2, text + "\n" + out)
  {
    hide Handle, Sendable, EndsSession, Line, RunSession, AllSent, SentBytes, ReplyText;
    LineHandled(cfg, db, cmd, rest, broken);
    var (db1, r) := Handle(cfg, db, cmd);
    SentInWords(cfg, r);
    AllSentCons(cfg, r, RunSession(cfg, db1, rest, broken).1);
    AllSentCons(cfg, r, []);
    assert [r] + [] == [r] && AllSent(cfg, []) == [] by { NothingSentYet(cfg); }
    assert SentBytes(cfg, r) + [] == SentBytes(cfg, r);
  }

  lemma NothingSentYet(cfg: Config)
    ensures AllSent(cfg, []) == []
  {
  }

  /** A value as it is sent, what it parses as, and its timestamp. */
  datatype Report = Report(text: string, value: Value, ts: string)

  function ReportLines(id: string, rs: seq<Report>): string {
    if rs == [] then ""
    else ("METRIC " + id + " " + rs[0].text + " " + rs[0].ts + "\n") + ReportLines(id, rs[1..])
  }

  /** A sensor's life on the wire: it registers, sends any number of values, asks for its status and leaves. */
  function LifeLines(id: string, name: string, rs: seq<Report>): string {
    ("REGISTER " + id + " " + name + "\n")
    + (ReportLines(id, rs) + (("STATUS " + id + "\n") + ("QUIT " + id + "\n")))
  }

  function Times(n: nat, line: string): string {
    if n == 0 then "" else line + Times(n - 1, line)
  }

  function ShownValue(rs: seq<Report>): Value {
    if rs == [] then Fin(0.0) else rs[|rs| - 1].value
  }

  function ShownStamp(rs: seq<Report>): string {
    if rs == [] then "N/A" else rs[|rs| - 1].ts
  }

  function ShownLevel(name: string, rs: seq<Report>): Level {
    if rs == [] then Normal else LevelIn(name, rs[|rs| - 1].value)
  }

  /** What the server sends in return. */
  function LifeAnswers(cfg: Config, id: string, name: string, rs: seq<Report>): string {
    ("200 REGISTERED " + id + "\n")
    + (Times(|rs|, "200 OK\n")
       + (("200 STATUS " + id + " ACTIVE " + name + " " + cfg.format(ShownValue(rs)) + " " + ShownStamp(rs) + " "
           + (if ShownLevel(name, rs).Alert? then "ALERT" else "NORMAL") + "\n")
          + "200 BYE\n"))
  }

  function MetricsOf(id: string, name: string, rs: seq<Report>): seq<Metric> {
    if rs == [] then [] else [Metric(id, rs[0].value, rs[0].ts, name)] + MetricsOf(id, name, rs[1..])
  }

  function AlertsOf(id: string, name: string, rs: seq<Report>): seq<AlertRecord> {
    if rs == [] then [] else AlertsFor(name, id, rs[0].value, rs[0].ts) + AlertsOf(id, name, rs[1..])
  }

  /** The record of a sensor that was `s` and then sent `rs`. */
  function Shown(s: Sensor, name: string, rs: seq<Report>): Sensor {
    if rs == [] then s
    else s.(lastValue := ShownValue(rs), lastTimestamp := ShownStamp(rs), level := ShownLevel(name, rs))
  }

  /** The sensor in slot `i` has sent `rs`, and nothing else has happened. */
  ghost predicate Reported(before: Db, after: Db, i: nat, id: string, name: string, rs: seq<Report>) {
    && i < |before.table| && after.table == before.table[i := Shown(before.table[i], name, rs)]
    && after.metrics == before.metrics + MetricsOf(id, name, rs)
    && after.alerts == before.alerts + AlertsOf(id, name, rs)
  }

  ghost predicate IdOk(id: string) {
    Word(id) && |id| < 64
  }

  /** Every value can be sent and parses as it should, and every timestamp is one. */
  ghost predicate ReportsOk(cfg: Config, rs: seq<Report>) {
    forall k :: 0 <= k < |rs| ==> ReportOk(cfg, rs[k])
  }

  ghost predicate ReportOk(cfg: Config, r: Report) {
    && Word(r.text) && |r.text| <= 4000 && cfg.parse(r.text) == Some(r.value)
    && |cfg.format(r.value)| <= 313 && IsStamp(r.ts)
  }

  /** The sensor `id` of type `name` is in slot `i` and ACTIVE. */
  ghost predicate InSlot(db: Db, i: nat, id: string, name: string) {
    && i < |db.table| && IndexOf(db.table, id) == i && db.table[i].status.Active? && Names(name, db.table[i].kind)
  }

  lemma OneReport(cfg: Config, db: Db, i: nat, id: string, name: string, r: Report) returns (db1: Db)
    requires InSlot(db, i, id, name) && IdOk(id) && ReportOk(cfg, r)
    ensures Says(cfg, Handle(cfg, db, ["METRIC", id, r.text, r.ts])) == (db1, "200 OK")
    ensures InSlot(db1, i, id, name) && Reported(db, db1, i, id, name, [r])
    ensures Sendable(["METRIC", id, r.text, r.ts])
    ensures Line(["METRIC", id, r.text, r.ts]) == "METRIC " + id + " " + r.text + " " + r.ts + "\n"
  {
    hide Handle, IndexOf, IsStamp, Crossed, Word;
    MetricInWords(cfg, db, id, r.text, r.ts, name);
    StampLength(r.ts);
    db1 := Handle(cfg, db, ["METRIC", id, r.text, r.ts]).0;
    IndexIs(db1.table, id, i);
    assert db1.table == db.table[i := Shown(db.table[i], name, [r])];
    OneOf(id, name, r);
    MetricSendable(cfg, id, r);
  }

  lemma OneOf(id: string, name: string, r: Report)
    ensures MetricsOf(id, name, [r]) == [Metric(id, r.value, r.ts, name)]
    ensures AlertsOf(id, name, [r]) == AlertsFor(name, id, r.value, r.ts)
  {
    hide Crossed;
    assert [r][1..] == [] && MetricsOf(id, name, []) == [] && AlertsOf(id, name, []) == [];
  }

  lemma MetricSendable(cfg: Config, id: string, r: Report)
    requires IdOk(id) && ReportOk(cfg, r)
    ensures Sendable(["METRIC", id, r.text, r.ts])
    ensures Line(["METRIC", id, r.text, r.ts]) == "METRIC " + id + " " + r.text + " " + r.ts + "\n"
  {
    ValidIsPrinted(r.ts);
    WordOfTimestamp(r.ts);
    assert Word("METRIC");
    hide Word, IsStamp, Join;
    JoinWords("METRIC", id, r.text, r.ts);
    assert "METRIC" + " " == "METRIC ";
  }

  lemma OthersSendable(id: string, name: string)
    requires IdOk(id) && IsType(name)
    ensures Sendable(["REGISTER", id, name]) && Sendable(["STATUS", id]) && Sendable(["QUIT", id])
    ensures Line(["REGISTER", id, name]) == "REGISTER " + id + " " + name + "\n"
    ensures Line(["STATUS", id]) == "STATUS " + id + "\n" && Line(["QUIT", id]) == "QUIT " + id + "\n"
  {
    assert Word(name) && Word("REGISTER") && Word("STATUS") && Word("QUIT");
    hide Word, Join;
    JoinWords("REGISTER", id, name, "");
    JoinWords("STATUS", id, "", "");
    JoinWords("QUIT", id, "", "");
    assert "REGISTER" + " " == "REGISTER " && "STATUS" + " " == "STATUS " && "QUIT" + " " == "QUIT ";
  }

  /** Any number of values, one after the other. */
  lemma {:induction false} ReportsSaid(cfg: Config, db: Db, i: nat, id: string, name: string, rs: seq<Report>,
      rest: seq<char>, broken: bool) returns (db': Db)
    requires InSlot(db, i, id, name) && IdOk(id) && ReportsOk(cfg, rs)
    ensures InSlot(db', i, id, name) && Reported(db, db', i, id, name, rs)
    ensures var (end, out) := Wired(cfg, db', rest, broken);
            Wired(cfg, db, ReportLines(id, rs) + rest, broken) == (end, Times(|rs|, "200 OK\n") + out)
    decreases |rs|
  {
    hide Handle, Wired, InSlot, IdOk, ReportOk, Line, Sendable, Reported, ReportLines, Times;
    if rs == [] {
      db' := db;
      NoReports(db, i, id, name, rest, Wired(cfg, db, rest, broken).1);
    } else {
      var cmd := ["METRIC", id, rs[0].text, rs[0].ts];
      var db1 := OneReport(cfg, db, i, id, name, rs[0]);
      db' := ReportsSaid(cfg, db1, i, id, name, rs[1..], rest, broken);
      LineSaid(cfg, db, cmd, ReportLines(id, rs[1..]) + rest, broken);
      ReportsHead(id, rs, rest);
      TimesHead(|rs|, Wired(cfg, db', rest, broken).1);
      ReportsJoin(db, db1, db', i, id, name, rs);
    }
  }

  lemma ReportsHead(id: string, rs: seq<Report>, rest: string)
    requires rs != []
    ensures ReportLines(id, rs) + rest
         == ("METRIC " + id + " " + rs[0].text + " " + rs[0].ts + "\n") + (ReportLines(id, rs[1..]) + rest)
  {
    var line := "METRIC " + id + " " + rs[0].text + " " + rs[0].ts + "\n";
    assert ReportLines(id, rs) == line + ReportLines(id, rs[1..]);
    hide ReportLines;
  }

  lemma TimesHead(n: nat, out: string)
    requires n > 0
    ensures "200 OK" + "\n" + (Times(n - 1, "200 OK\n") + out) == Times(n, "200 OK\n") + out
  {
    assert Times(n, "200 OK\n") == "200 OK\n" + Times(n - 1, "200 OK\n");
    hide Times;
  }

  lemma NoReports(db: Db, i: nat, id: string, name: string, rest: seq<char>, out: string)
    requires InSlot(db, i, id, name)
    ensures Reported(db, db, i, id, name, []) && ReportLines(id, []) + rest == rest && Times(0, "200 OK\n") + out == out
  {
    assert db.table[i := db.table[i]] == db.table;
  }

  lemma ReportsJoin(db: Db, db1: Db, db': Db, i: nat, id: string, name: string, rs: seq<Report>)
    requires rs != [] && Reported(db, db1, i, id, name, [rs[0]]) && Reported(db1, db', i, id, name, rs[1..])
    ensures Reported(db, db', i, id, name, rs)
  {
    hide Shown, AlertsOf, MetricsOf;
    ShownTwice(db.table[i], name, rs);
    LogsOf(id, name, rs);
    Appended(db.alerts, AlertsOf(id, name, [rs[0]]), AlertsOf(id, name, rs[1..]));
    Appended(db.metrics, MetricsOf(id, name, [rs[0]]), MetricsOf(id, name, rs[1..]));
    assert db'.table == db.table[i := Shown(db.table[i], name, rs)];
  }

  lemma LogsOf(id: string, name: string, rs: seq<Report>)
    requires rs != []
    ensures AlertsOf(id, name, rs) == AlertsOf(id, name, [rs[0]]) + AlertsOf(id, name, rs[1..])
    ensures MetricsOf(id, name, rs) == MetricsOf(id, name, [rs[0]]) + MetricsOf(id, name, rs[1..])
  {
    OneOf(id, name, rs[0]);
    hide AlertsFor;
  }

  lemma Appended<T>(log: seq<T>, a: seq<T>, b: seq<T>)
    ensures log + a + b == log + (a + b)
  {
  }

  lemma ShownTwice(s: Sensor, name: string, rs: seq<Report>)
    requires rs != []
    ensures Shown(Shown(s, name, [rs[0]]), name, rs[1..]) == Shown(s, name, rs)
  {
    hide LevelIn;
    assert rs[1..] != [] ==> rs[1..][|rs[1..]| - 1] == rs[|rs| - 1];
  }

  /** What a life leaves behind: a new INACTIVE sensor, its metrics and its alerts. */
  ghost predicate Lived(before: Db, after: Db, id: string, name: string, rs: seq<Report>) {
    && |after.table| == |before.table| + 1 && after.table[..|before.table|] == before.table
    && (var s := after.table[|before.table|];
        && s.id == id && Names(name, s.kind) && s.status.Inactive? && s.level == ShownLevel(name, rs)
        && s.lastValue == ShownValue(rs) && s.lastTimestamp == ShownStamp(rs))
    && after.metrics == before.metrics + MetricsOf(id, name, rs)
    && after.alerts == before.alerts + AlertsOf(id, name, rs)
  }

  lemma StatusSaid(cfg: Config, db: Db, i: nat, id: string, name: string)
    requires InSlot(db, i, id, name)
    ensures Says(cfg, Handle(cfg, db, ["STATUS", id]))
         == (db, "200 STATUS " + id + " ACTIVE " + name + " " + cfg.format(db.table[i].lastValue) + " "
                 + db.table[i].lastTimestamp + " " + (if db.table[i].level.Alert? then "ALERT" else "NORMAL"))
  {
    ActiveStatusText(cfg, db.table[i], name);
    StatusReply(cfg, db, id);
    hide IndexOf, Handle, ReplyText;
  }

  lemma ActiveStatusText(cfg: Config, s: Sensor, name: string)
    requires Names(name, s.kind) && s.status.Active?
    ensures ReplyText(cfg, StatusOf(s))
         == "200 STATUS " + s.id + " ACTIVE " + name + " " + cfg.format(s.lastValue) + " " + s.lastTimestamp + " "
            + (if s.level.Alert? then "ALERT" else "NORMAL")
  {
    NameIs(name);
    assert " " + "ACTIVE" + " " == " ACTIVE ";
    hide TypeName;
  }

  /** STATUS and QUIT of a sensor in slot `i`. */
  lemma EndSaid(cfg: Config, db: Db, i: nat, id: string, name: string, rest: seq<char>, broken: bool)
    returns (after: Db)
    requires InSlot(db, i, id, name) && IdOk(id) && IsType(name)
    requires |cfg.format(db.table[i].lastValue)| <= 313 && |db.table[i].lastTimestamp| <= 20
    ensures Changed(db, after, i, db.table[i].(status := Inactive))
    ensures after.metrics == db.metrics && after.alerts == db.alerts
    ensures Wired(cfg, db, ("STATUS " + id + "\n") + ("QUIT " + id + "\n") + rest, broken)
         == (after, ("200 STATUS " + id + " ACTIVE " + name + " " + cfg.format(db.table[i].lastValue) + " "
                     + db.table[i].lastTimestamp + " "
                     + (if db.table[i].level.Alert? then "ALERT" else "NORMAL") + "\n")
                    + "200 BYE\n")
  {
    StatusSaid(cfg, db, i, id, name);
    OthersInWords(cfg, db, id, []);
    OthersSendable(id, name);
    assert |id| < 64 && |name| <= 5 && db.table[i].id == id;
    assert EndsSession(["QUIT", id]) && !EndsSession(["STATUS", id]);
    hide Handle, IndexOf, Wired, Line, Sendable, Word, EndsSession;
    after := Handle(cfg, db, ["QUIT", id]).0;
    LineSaid(cfg, db, ["QUIT", id], rest, broken);
    var quit := "QUIT " + id + "\n";
    LineSaid(cfg, db, ["STATUS", id], quit + rest, broken);
    assert ("STATUS " + id + "\n") + quit + rest == ("STATUS " + id + "\n") + (quit + rest);
    assert "200 BYE" + "\n" == "200 BYE\n";
  }

  /**
   The conversation as bytes. For every id that is new, every type, any number of values and timestamps, either
   kind of end and whatever follows the QUIT: what comes back, byte by byte, and what is left in the state.
   */
  lemma Transcript(cfg: Config, db: Db, id: string, name: string, rs: seq<Report>, rest: seq<char>, broken: bool)
    requires IndexOf(db.table, id) < 0 && |db.table| < cfg.cap && IdOk(id) && IsType(name) && ReportsOk(cfg, rs)
    requires |cfg.format(Fin(0.0))| <= 313
    ensures var (after, out) := Wired(cfg, db, LifeLines(id, name, rs) + rest, broken);
            out == LifeAnswers(cfg, id, name, rs) && Lived(db, after, id, name, rs)
  {
    OthersSendable(id, name);
    assert |id| < 64;
    assert !EndsSession(["REGISTER", id, name]);
    FirstRegister(cfg, db, id, name);
    var i, db1 := |db.table|, Handle(cfg, db, ["REGISTER", id, name]).0;
    ShownFits(cfg, rs);
    hide Handle, IndexOf, Wired, Line, Sendable, IdOk, IsType, ReportsOk, EndsSession, Crossed;
    var end := ("STATUS " + id + "\n") + ("QUIT " + id + "\n");
    var db2 := ReportsSaid(cfg, db1, i, id, name, rs, end + rest, broken);
    var after := EndSaid(cfg, db2, i, id, name, rest, broken);
    LineSaid(cfg, db, ["REGISTER", id, name], ReportLines(id, rs) + (end + rest), broken);
    LifeGrouped("REGISTER " + id + " " + name + "\n", ReportLines(id, rs), end, rest);
    hide ReportLines;
    LifeIs(db, db1, db2, after, id, name, rs);
  }

  lemma LifeGrouped(a: string, b: string, c: string, d: string)
    ensures a + (b + c) + d == a + (b + (c + d))
  {
    assert (b + c) + d == b + (c + d);
  }

  lemma ShownFits(cfg: Config, rs: seq<Report>)
    requires ReportsOk(cfg, rs) && |cfg.format(Fin(0.0))| <= 313
    ensures |cfg.format(ShownValue(rs))| <= 313 && |ShownStamp(rs)| <= 20
  {
    if rs != [] {
      assert ReportOk(cfg, rs[|rs| - 1]);
      StampLength(rs[|rs| - 1].ts);
    }
  }

  lemma LifeIs(db: Db, db1: Db, db2: Db, after: Db, id: string, name: string, rs: seq<Report>)
    requires |db1.table| == |db.table| + 1 && db1.table[..|db.table|] == db.table
    requires db1.metrics == db.metrics && db1.alerts == db.alerts
    requires Newcomer(db1.table[|db.table|], id, name) && db1.table[|db.table|].id == id
    requires Reported(db1, db2, |db.table|, id, name, rs)
    requires Changed(db2, after, |db.table|, db2.table[|db.table|].(status := Inactive))
    requires after.metrics == db2.metrics && after.alerts == db2.alerts
    ensures Lived(db, after, id, name, rs)
  {
    hide Crossed;
  }
}
