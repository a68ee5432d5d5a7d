/** What every interleaving keeps: stable lookups, commands matched to steps, capacity. */
module Lifecycle {
  import opened Records
  import opened Text
  import opened Database
  import opened Server

  // The effect of one critical section on every lookup

  /** What a critical section of `pc` makes of the record its id names. */
  function NewRecord(pc: Pc, s: Sensor): Sensor
    requires Working(pc)
  {
    match pc
    case AtRegister(_, kind) => if kind == Invalid then s else s.(status := Active)
    case AtAddMetric(_, v, ts, _) => s.(lastValue := v, lastTimestamp := Cut(ts, MAX_TIMESTAMP_LEN))
    case AtSetLevel(_, level) => s.(level := level)
    case AtDeactivate(_) => s.(status := Inactive)
    case _ => s
  }

  predicate Appends(cfg: Config, db: Db, pc: Pc) {
    && pc.AtRegister? && pc.kind != Invalid && Lookup(db.table, pc.id).None? && |db.table| < cfg.cap
  }

  lemma SectionLookup(cfg: Config, db: Db, pc: Pc, z: string)
    requires Working(pc) && !Appends(cfg, db, pc)
    ensures var t := Section(cfg, db, pc).0.table;
            && |t| == |db.table|
            && IndexOf(t, z) == IndexOf(db.table, z)
            && Lookup(t, z) == (if z == pc.id && Lookup(db.table, z).Some?
                                then Some(NewRecord(pc, Lookup(db.table, z).value)) else Lookup(db.table, z))
  {
    hide IndexOf;
    match Lookup(db.table, pc.id)
    case None =>
    case Some(s) =>
      LookupPut(db.table, pc.id, s, z);
      LookupPut(db.table, pc.id, NewRecord(pc, s), z);
  }

  lemma SectionAppends(cfg: Config, db: Db, pc: Pc, z: string)
    requires Appends(cfg, db, pc)
    ensures var t := Section(cfg, db, pc).0.table;
            && |t| == |db.table| + 1
            && (IndexOf(db.table, z) >= 0 ==> IndexOf(t, z) == IndexOf(db.table, z))
            && Lookup(t, z) == (if Lookup(db.table, z).None? && z == Cut(pc.id, MAX_ID_LEN)
                                then Some(Fresh(z, pc.kind)) else Lookup(db.table, z))
  {
    hide IndexOf;
    LookupAppend(db.table, Fresh(Cut(pc.id, MAX_ID_LEN), pc.kind), z);
  }

  // Stable lookups and capacity

  /** What no later step takes back. */
  ghost predicate Later(a: Db, b: Db, id: string) {
    && |a.table| <= |b.table|
    && (IndexOf(a.table, id) >= 0 ==>
          && IndexOf(b.table, id) == IndexOf(a.table, id)
          && Lookup(b.table, id).value.kind == Lookup(a.table, id).value.kind)
  }

  lemma SectionLater(cfg: Config, db: Db, pc: Pc, id: string)
    requires Working(pc)
    ensures Later(db, Section(cfg, db, pc).0, id)
    ensures |db.table| <= cfg.cap ==> |Section(cfg, db, pc).0.table| <= cfg.cap
  {
    hide IndexOf;
    if Appends(cfg, db, pc) {
      SectionAppends(cfg, db, pc, id);
    } else {
      SectionLookup(cfg, db, pc, id);
    }
  }

  lemma StepLater(cfg: Config, s: System, l: Label, id: string)
    ensures Later(s.db, Step(cfg, s, l).db, id)
    ensures |s.db.table| <= cfg.cap ==> |Step(cfg, s, l).db.table| <= cfg.cap
  {
    hide IndexOf, Section;
    if Enabled(s, l) && l.Run? && Working(s.threads[l.thread].pc) {
      SectionLater(cfg, s.db, s.threads[l.thread].pc, id);
    }
  }

  /** Every occupied slot keeps its id and its type. */
  ghost predicate SlotsKept(a: Db, b: Db) {
    && |a.table| <= |b.table|
    && forall i :: 0 <= i < |a.table| ==> b.table[i].id == a.table[i].id && b.table[i].kind == a.table[i].kind
  }

  lemma StepKeepsSlots(cfg: Config, s: System, l: Label)
    ensures SlotsKept(s.db, Step(cfg, s, l).db)
  {
    hide Committed, Dispatch;
  }

  /**
   Once an id is found at a slot it is found there forever, with the same type; slots are never freed, and
   each, duplicates of cut ids included, keeps its id and type.
   */
  lemma {:induction false} StableLookup(cfg: Config, s: System, ls: seq<Label>, id: string)
    ensures Later(s.db, Exec(cfg, s, ls).db, id) && SlotsKept(s.db, Exec(cfg, s, ls).db)
    ensures |s.db.table| <= cfg.cap ==> |Exec(cfg, s, ls).db.table| <= cfg.cap
    decreases |ls|
  {
    hide IndexOf, Step;
    if ls != [] {
      StepLater(cfg, s, ls[0], id);
      StepKeepsSlots(cfg, s, ls[0]);
      StableLookup(cfg, Step(cfg, s, ls[0]), ls[1..], id);
    }
  }

  /** Once the table is full, an unknown id is refused forever and a known inactive one is not. */
  lemma FullTableForever(cfg: Config, s: System, ls: seq<Label>, id: string, kind: SensorType)
    requires |s.db.table| == cfg.cap && kind != Invalid
    ensures var t := Exec(cfg, s, ls).db;
            && |t.table| == cfg.cap
            && (Lookup(s.db.table, id).None? ==> Register(t, cfg.cap, id, kind) == (t, -1))
            && (Lookup(s.db.table, id).Some? ==> Register(t, cfg.cap, id, kind).1 == if IsActive(t, id) then -2 else 0)
  {
    hide IndexOf, Step;
    StableLookup(cfg, s, ls, id);
    FullTableSame(cfg, s, ls, id);
  }

  lemma {:induction false} FullTableSame(cfg: Config, s: System, ls: seq<Label>, id: string)
    requires |s.db.table| == cfg.cap
    ensures IndexOf(Exec(cfg, s, ls).db.table, id) == IndexOf(s.db.table, id)
    decreases |ls|
  {
    if ls != [] {
      hide IndexOf, Section;
      var l := ls[0];
      StepLater(cfg, s, l, id);
      if Enabled(s, l) && l.Run? && Working(s.threads[l.thread].pc) {
        SectionLookup(cfg, s.db, s.threads[l.thread].pc, id);
      }
      FullTableSame(cfg, Step(cfg, s, l), ls[1..], id);
    }
  }

  // Commands, steps and replies belong together

  ghost predicate KnownKind(db: Db, id: string, kind: SensorType) {
    Lookup(db.table, id).Some? && Lookup(db.table, id).value.kind == kind
  }

  /** A METRIC command that passes every check that does not look at the table. */
  ghost predicate MetricCmd(cfg: Config, cmd: seq<string>) {
    |cmd| == 4 && cmd[0] == "METRIC" && cfg.parse(cmd[2]).Some? && ValidTimestamp(cmd[3])
  }

  ghost predicate Carries(cfg: Config, cmd: seq<string>, id: string, v: Value, ts: string) {
    MetricCmd(cfg, cmd) && cmd[1] == id && cfg.parse(cmd[2]) == Some(v) && cmd[3] == ts
  }

  /** A reply that the command in service can be given. */
  ghost predicate Suits(cfg: Config, db: Db, cmd: seq<string>, r: Reply) {
    match r
    case Registered(id) => |cmd| == 3 && cmd[0] == "REGISTER" && cmd[1] == id
    case AlreadyExists => |cmd| == 3 && cmd[0] == "REGISTER"
    case InternalError => |cmd| == 3 && cmd[0] == "REGISTER"
    case InvalidSensorType => |cmd| == 3 && cmd[0] == "REGISTER" && TypeFromName(cmd[2]) == Invalid
    case Accepted => MetricCmd(cfg, cmd) && Lookup(db.table, cmd[1]).Some?
    case NotRegistered => |cmd| == 4 && cmd[0] == "METRIC"
    case InvalidValue => |cmd| == 4 && cmd[0] == "METRIC" && cfg.parse(cmd[2]).None?
    case NotFound => |cmd| >= 2 && (cmd[0] == "METRIC" || cmd[0] == "STATUS")
    case StatusOf(s) => cmd == ["STATUS", s.id]
    case Pong => |cmd| == 2 && cmd[0] == "PING"
    case Bye => |cmd| == 2 && cmd[0] == "QUIT"
    case BadRequest => true
  }

  /** What a thread's position says about its command and the shared table. */
  ghost predicate ThreadOk(cfg: Config, db: Db, t: Thread) {
    match t.pc
    case Closed => t.cmd == []
    case Idle => t.cmd == []
    case AtRegister(id, kind) =>
      t.cmd == ["REGISTER", id, TypeName(kind)] && kind != Invalid
    case AtFindForMetric(id, text, ts) => t.cmd == ["METRIC", id, text, ts]
    case AtAddMetric(id, v, ts, copy) =>
      Carries(cfg, t.cmd, id, v, ts) && KnownKind(db, id, copy.kind) && copy.status == Active
    case AtAddAlert(id, v, bound, ts, kind) =>
      && Carries(cfg, t.cmd, id, v, ts) && KnownKind(db, id, kind)
      && Anomalous(kind, v) && bound == CrossedBound(kind, v)
    case AtSetLevel(id, level) =>
      && MetricCmd(cfg, t.cmd) && t.cmd[1] == id && Lookup(db.table, id).Some?
      && level == LevelFor(Lookup(db.table, id).value.kind, cfg.parse(t.cmd[2]).value)
    case AtFindForStatus(id) => t.cmd == ["STATUS", id]
    case AtDeactivate(id) => t.cmd == ["QUIT", id]
    case AtReply(r) => Suits(cfg, db, t.cmd, r)
  }

  ghost predicate Matched(cfg: Config, s: System) {
    && (forall k :: 0 <= k < |s.threads| ==> ThreadOk(cfg, s.db, s.threads[k]))
    && (forall k :: 0 <= k < |s.answers| ==> Suits(cfg, s.db, s.answers[k].cmd, s.answers[k].reply))
  }

  lemma DispatchOk(cfg: Config, db: Db, tokens: seq<string>)
    ensures ThreadOk(cfg, db, Thread(Dispatch(tokens), tokens))
  {
    hide Lookup;
    if |tokens| == 2 {
      assert tokens == [tokens[0], tokens[1]];
    } else if |tokens| == 3 {
      assert tokens == [tokens[0], tokens[1], tokens[2]];
    } else if |tokens| == 4 {
      assert tokens == [tokens[0], tokens[1], tokens[2], tokens[3]];
    }
  }

  lemma OkLater(cfg: Config, a: Db, b: Db, t: Thread)
    requires ThreadOk(cfg, a, t)
    requires forall id :: Later(a, b, id)
    ensures ThreadOk(cfg, b, t)
  {
    hide IndexOf, MetricCmd;
    match t.pc
    case AtAddMetric(id, v, ts, copy) => assert Later(a, b, id);
    case AtAddAlert(id, v, bound, ts, kind) => assert Later(a, b, id);
    case AtSetLevel(id, level) => assert Later(a, b, id);
    case AtReply(r) => SuitsLater(cfg, a, b, t.cmd, r);
    case _ =>
  }

  lemma SuitsLater(cfg: Config, a: Db, b: Db, cmd: seq<string>, r: Reply)
    requires Suits(cfg, a, cmd, r)
    requires forall id :: Later(a, b, id)
    ensures Suits(cfg, b, cmd, r)
  {
    hide IndexOf;
    if r == Accepted {
      assert Later(a, b, cmd[1]);
    }
  }

  lemma SectionOk(cfg: Config, db: Db, t: Thread)
    requires ThreadOk(cfg, db, t) && Working(t.pc)
    ensures var (db', pc') := Section(cfg, db, t.pc); ThreadOk(cfg, db', t.(pc := pc'))
  {
    hide IndexOf;
    SectionLater(cfg, db, t.pc, t.pc.id);
  }

  lemma StepMatched(cfg: Config, s: System, l: Label)
    requires Matched(cfg, s)
    ensures Matched(cfg, Step(cfg, s, l))
  {
    var s' := Step(cfg, s, l);
    forall id ensures Later(s.db, s'.db, id) {
      StepLater(cfg, s, l, id);
    }
    hide IndexOf, Section, ThreadOk, Suits, Dispatch;
    if Enabled(s, l) {
      var t := s.threads[l.thread];
      assert ThreadOk(cfg, s.db, t);
      forall k | 0 <= k < |s.threads| && k != l.thread ensures ThreadOk(cfg, s'.db, s'.threads[k]) {
        OkLater(cfg, s.db, s'.db, s.threads[k]);
      }
      forall k | 0 <= k < |s.answers| ensures Suits(cfg, s'.db, s.answers[k].cmd, s.answers[k].reply) {
        SuitsLater(cfg, s.db, s'.db, s.answers[k].cmd, s.answers[k].reply);
      }
      StepMoves(cfg, s, l);
    }
  }

  lemma StepMoves(cfg: Config, s: System, l: Label)
    requires Enabled(s, l) && ThreadOk(cfg, s.db, s.threads[l.thread])
    ensures var s' := Step(cfg, s, l);
            && ThreadOk(cfg, s'.db, s'.threads[l.thread])
            && (s'.answers == s.answers
                || exists a: Answer :: s'.answers == s.answers + [a] && Suits(cfg, s.db, a.cmd, a.reply))
  {
    var t := s.threads[l.thread];
    match l
    case Receive(k, tokens) => DispatchOk(cfg, s.db, tokens);
    case Run(k) =>
      if t.pc.AtReply? {
        assert Suits(cfg, s.db, t.cmd, t.pc.reply);
        var a := Answer(k, t.cmd, t.pc.reply);
        assert Step(cfg, s, l).answers == s.answers + [a];
      } else {
        SectionOk(cfg, s.db, t);
      }
    case _ =>
  }

  /** In every interleaving each thread's position fits its command and the table, and each reply its verb. */
  lemma {:induction false} RunsMatched(cfg: Config, s: System, ls: seq<Label>)
    requires Matched(cfg, s)
    ensures Matched(cfg, Exec(cfg, s, ls))
    decreases |ls|
  {
    if ls != [] {
      hide Matched, Step;
      StepMatched(cfg, s, ls[0]);
      RunsMatched(cfg, Step(cfg, s, ls[0]), ls[1..]);
    }
  }

  /** The 500 reply to METRIC is unreachable: the sensor found by the first step never disappears. */
  lemma MetricNever500(cfg: Config, n: nat, ls: seq<Label>, a: Answer)
    requires a in Exec(cfg, Init(n), ls).answers && a.cmd != [] && a.cmd[0] == "METRIC"
    ensures a.reply != InternalError
  {
    RunsMatched(cfg, Init(n), ls);
  }
}
