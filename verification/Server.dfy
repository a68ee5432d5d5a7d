/**
 The server as a transition system. Each connection has a thread; one step of a thread is one
 critical section on the shared state, or the sending of one reply, and threads interleave freely.
 */
module Server {
  import opened Records
  import opened Text
  import opened Database

  /** Table capacity, and the library conversions `strtod` and `%.2f`. */
  datatype Config = Config(cap: nat, parse: string -> Option<Value>, format: Value -> string)

  datatype Reply =
    | Registered(id: string)
    | Accepted
    | StatusOf(sensor: Sensor)
    | Pong
    | Bye
    | BadRequest
    | NotRegistered
    | NotFound
    | AlreadyExists
    | InvalidSensorType
    | InvalidValue
    | InternalError

  /** What a thread does next. */
  datatype Pc =
    | Closed
    | Idle
    | AtRegister(id: string, kind: SensorType)
    | AtFindForMetric(id: string, text: string, ts: string)
    | AtAddMetric(id: string, value: Value, ts: string, copy: Sensor)
    | AtAddAlert(id: string, value: Value, bound: real, ts: string, kind: SensorType)
    | AtSetLevel(id: string, level: Level)
    | AtFindForStatus(id: string)
    | AtDeactivate(id: string)
    | AtReply(reply: Reply)

  /** `cmd` is the command in service, as tokens; it is empty when there is none. */
  datatype Thread = Thread(pc: Pc, cmd: seq<string>)

  datatype Answer = Answer(thread: nat, cmd: seq<string>, reply: Reply)

  /** Committed changes of registration state. */
  datatype Event = CameUp(id: string) | WentDown(id: string)

  datatype System = System(db: Db, threads: seq<Thread>, answers: seq<Answer>, history: seq<Event>)

  datatype Label =
    | Connect(thread: nat)
    | Receive(thread: nat, tokens: seq<string>)
    | Run(thread: nat)
    | Hangup(thread: nat)

  /** The verb dispatch and the checks made before any shared access. */
  function Dispatch(tokens: seq<string>): Pc {
    if tokens == [] then AtReply(BadRequest)
    else if tokens[0] == "REGISTER" then
      if |tokens| != 3 then AtReply(BadRequest)
      else if TypeFromName(tokens[2]) == Invalid then AtReply(InvalidSensorType)
      else AtRegister(tokens[1], TypeFromName(tokens[2]))
    else if tokens[0] == "METRIC" then
      if |tokens| != 4 then AtReply(BadRequest) else AtFindForMetric(tokens[1], tokens[2], tokens[3])
    else if tokens[0] == "STATUS" then
      if |tokens| != 2 then AtReply(BadRequest) else AtFindForStatus(tokens[1])
    else if tokens[0] == "PING" then
      if |tokens| != 2 then AtReply(BadRequest) else AtReply(Pong)
    else if tokens[0] == "QUIT" then
      if |tokens| != 2 then AtReply(BadRequest) else AtDeactivate(tokens[1])
    else AtReply(BadRequest)
  }

  function RegisterReply(id: string, code: int): Reply {
    if code == 0 then Registered(id)
    else if code == -2 then AlreadyExists
    else if code == -3 then InvalidSensorType
    else InternalError
  }

  /** What a METRIC does with the copy that the find step took. */
  function AfterFind(cfg: Config, found: Option<Sensor>, id: string, text: string, ts: string): Pc {
    match found
    case None => AtReply(NotFound)
    case Some(s) =>
      if s.status != Active then AtReply(NotRegistered)
      else
        match cfg.parse(text)
        case None => AtReply(InvalidValue)
        case Some(v) => if !ValidTimestamp(ts) then AtReply(BadRequest) else AtAddMetric(id, v, ts, s)
  }

  function AfterAdd(code: int, id: string, v: Value, ts: string, kind: SensorType): Pc {
    if code < 0 then AtReply(InternalError)
    else if Anomalous(kind, v) then AtAddAlert(id, v, CrossedBound(kind, v), ts, kind)
    else AtSetLevel(id, Normal)
  }

  predicate Working(pc: Pc) {
    !pc.Closed? && !pc.Idle? && !pc.AtReply?
  }

  /** One critical section: its effect on the state and the thread's next step. */
  function Section(cfg: Config, db: Db, pc: Pc): (Db, Pc)
    requires Working(pc)
  {
    match pc
    case AtRegister(id, kind) =>
      var (db', code) := Register(db, cfg.cap, id, kind);
      (db', AtReply(RegisterReply(id, code)))
    case AtFindForMetric(id, text, ts) => (db, AfterFind(cfg, Lookup(db.table, id), id, text, ts))
    case AtAddMetric(id, v, ts, copy) =>
      var (db', code) := AddMetric(db, id, v, ts, TypeName(copy.kind));
      (db', AfterAdd(code, id, v, ts, copy.kind))
    case AtAddAlert(id, v, bound, ts, kind) =>
      (AddAlert(db, id, v, bound, ts, TypeName(kind)), AtSetLevel(id, Alert))
    case AtSetLevel(id, level) => (SetLevel(db, id, level).0, AtReply(Accepted))
    case AtFindForStatus(id) =>
      (db, AtReply(match Lookup(db.table, id) case None => NotFound case Some(s) => StatusOf(s)))
    case AtDeactivate(id) => (Deactivate(db, id).0, AtReply(Bye))
  }

  function IsActive(db: Db, id: string): bool {
    Lookup(db.table, id).Some? && Lookup(db.table, id).value.status == Active
  }

  /** The registration events a critical section commits. */
  function Committed(cfg: Config, db: Db, pc: Pc): seq<Event>
    requires Working(pc)
  {
    match pc
    case AtRegister(id, kind) => if Register(db, cfg.cap, id, kind).1 == 0 then [CameUp(id)] else []
    case AtDeactivate(id) => if IsActive(db, id) then [WentDown(id)] else []
    case _ => []
  }

  predicate Enabled(s: System, l: Label) {
    && l.thread < |s.threads|
    && var pc := s.threads[l.thread].pc;
       match l
       case Connect(_) => pc == Closed
       case Receive(_, _) => pc == Idle
       case Run(_) => pc != Closed && pc != Idle
       case Hangup(_) => pc == Idle
  }

  /** One step; a label that is not enabled changes nothing. */
  function Step(cfg: Config, s: System, l: Label): System {
    if !Enabled(s, l) then s
    else
      var t := s.threads[l.thread];
      match l
      case Connect(k) => s.(threads := s.threads[k := Thread(Idle, [])])
      case Hangup(k) => s.(threads := s.threads[k := Thread(Closed, [])])
      case Receive(k, tokens) => s.(threads := s.threads[k := Thread(Dispatch(tokens), tokens)])
      case Run(k) =>
        if t.pc.AtReply? then
          s.(threads := s.threads[k := Thread(if t.pc.reply == Bye then Closed else Idle, [])],
             answers := s.answers + [Answer(k, t.cmd, t.pc.reply)])
        else
          var (db', pc') := Section(cfg, s.db, t.pc);
          s.(db := db', threads := s.threads[k := t.(pc := pc')],
             history := s.history + Committed(cfg, s.db, t.pc))
  }

  function Exec(cfg: Config, s: System, ls: seq<Label>): System
    decreases |ls|
  {
    if ls == [] then s else Exec(cfg, Step(cfg, s, ls[0]), ls[1..])
  }

  function Init(n: nat): System {
    System(EMPTY, seq(n, _ => Thread(Closed, [])), [], [])
  }

  lemma {:induction false} ExecConcat(cfg: Config, s: System, a: seq<Label>, b: seq<Label>)
    ensures Exec(cfg, s, a + b) == Exec(cfg, Exec(cfg, s, a), b)
    decreases |a|
  {
    if a == [] {
      assert a + b == b;
    } else {
      ExecConcat(cfg, Step(cfg, s, a[0]), a[1..], b);
      assert (a + b)[0] == a[0] && (a + b)[1..] == a[1..] + b;
    }
  }

  lemma ExecCons(cfg: Config, s: System, l: Label, ls: seq<Label>)
    ensures Exec(cfg, s, [l] + ls) == Exec(cfg, Step(cfg, s, l), ls)
  {
    assert ([l] + ls)[1..] == ls;
  }

  lemma ThreeSteps(cfg: Config, s: System, a: Label, b: Label, c: Label)
    ensures Exec(cfg, s, [a, b, c]) == Step(cfg, Step(cfg, Step(cfg, s, a), b), c)
  {
    hide Step, Exec;
    assert [a, b, c] == [a] + ([b] + ([c] + []));
    ExecCons(cfg, s, a, [b] + ([c] + []));
    ExecCons(cfg, Step(cfg, s, a), b, [c] + []);
    ExecCons(cfg, Step(cfg, Step(cfg, s, a), b), c, []);
    ExecNone(cfg, Step(cfg, Step(cfg, Step(cfg, s, a), b), c));
  }

  lemma ExecNone(cfg: Config, s: System)
    ensures Exec(cfg, s, []) == s
  {
  }

  lemma ExecSnoc(cfg: Config, s: System, ls: seq<Label>, l: Label)
    ensures Exec(cfg, s, ls + [l]) == Step(cfg, Exec(cfg, s, ls), l)
  {
    hide Step, Exec;
    ExecConcat(cfg, s, ls, [l]);
    assert [l] == [l] + [];
    ExecCons(cfg, Exec(cfg, s, ls), l, []);
    ExecNone(cfg, Step(cfg, Exec(cfg, s, ls), l));
  }

  /** REGISTER served by connection 0 without interleaving. */
  function Registering(id: string): seq<Label> {
    [Receive(0, ["REGISTER", id, "TEMP"]), Run(0), Run(0)]
  }

  lemma RegisterAlone(cfg: Config, s: System, id: string)
    requires s.threads != [] && s.threads[0] == Thread(Idle, [])
    ensures var (db', code) := Register(s.db, cfg.cap, id, Temp);
            var s' := Exec(cfg, s, Registering(id));
            && s'.db == db' && s'.threads == s.threads
            && s'.answers == s.answers + [Answer(0, ["REGISTER", id, "TEMP"], RegisterReply(id, code))]
  {
    hide Register;
    var tokens := ["REGISTER", id, "TEMP"];
    var a := Step(cfg, s, Receive(0, tokens));
    assert a.threads[0] == Thread(AtRegister(id, Temp), tokens);
    var b := Step(cfg, a, Run(0));
    var c := Step(cfg, b, Run(0));
    assert c.threads == s.threads;
    ThreeSteps(cfg, s, Receive(0, tokens), Run(0), Run(0));
  }
}
