/** The handler of one connection: the commands of `sensor_handler.c` in sequence, and its session loop. */
module Session {
  import opened Records
  import opened Text
  import opened Wire
  import opened Database
  import opened Server
  import opened Store

  function Rank(pc: Pc): nat {
    match pc
    case AtFindForMetric(_, _, _) => 4
    case AtAddMetric(_, _, _, _) => 3
    case AtAddAlert(_, _, _, _, _) => 2
    case AtReply(_) => 0
    case _ => 1
  }

  predicate Serving(pc: Pc) {
    !pc.Closed? && !pc.Idle?
  }

  /** The critical sections of one command, one after the other with nothing in between. */
  function Serve(cfg: Config, db: Db, pc: Pc): (Db, Reply)
    requires Serving(pc)
    decreases Rank(pc)
  {
    if pc.AtReply? then (db, pc.reply)
    else
      RankFalls(cfg, db, pc);
      var (db', pc') := Section(cfg, db, pc);
      Serve(cfg, db', pc')
  }

  lemma RankFalls(cfg: Config, db: Db, pc: Pc)
    requires Working(pc)
    ensures Serving(Section(cfg, db, pc).1) && Rank(Section(cfg, db, pc).1) < Rank(pc)
  {
    hide Register, AddMetric, Deactivate, SetLevel, Lookup;
  }

  function Handle(cfg: Config, db: Db, tokens: seq<string>): (Db, Reply) {
    Serve(cfg, db, Dispatch(tokens))
  }

  // The sequential handler is a run of the transition system

  function Runs(k: nat, n: nat): seq<Label> {
    if n == 0 then [] else [Run(k)] + Runs(k, n - 1)
  }

  lemma {:induction false} ServeIsRun(cfg: Config, s: System, k: nat) returns (n: nat)
    requires k < |s.threads| && Serving(s.threads[k].pc)
    ensures var t := s.threads[k];
            var (db', reply) := Serve(cfg, s.db, t.pc);
            var s' := Exec(cfg, s, Runs(k, n));
            && s'.db == db' && s'.answers == s.answers + [Answer(k, t.cmd, reply)]
            && s'.threads == s.threads[k := Thread(if reply == Bye then Closed else Idle, [])]
    decreases Rank(s.threads[k].pc)
  {
    var t := s.threads[k];
    var s' := Step(cfg, s, Run(k));
    if t.pc.AtReply? {
      n := 1;
      assert Runs(k, 1) == [Run(k)] + [];
      ExecCons(cfg, s, Run(k), []);
      ExecNone(cfg, s');
    } else {
      RankFalls(cfg, s.db, t.pc);
      hide Section;
      var m := ServeIsRun(cfg, s', k);
      n := m + 1;
      ExecCons(cfg, s, Run(k), Runs(k, m));
      var t' := Exec(cfg, s', Runs(k, m)).threads;
      assert t' == s.threads[k := t'[k]];
    }
  }

  /** Handling a command in one go is what its connection does when no other thread interleaves. */
  lemma HandleIsRun(cfg: Config, s: System, k: nat, tokens: seq<string>)
    requires k < |s.threads| && s.threads[k].pc == Idle
    ensures exists n: nat ::
              var (db', reply) := Handle(cfg, s.db, tokens);
              var s' := Exec(cfg, s, [Receive(k, tokens)] + Runs(k, n));
              && s'.db == db' && s'.answers == s.answers + [Answer(k, tokens, reply)]
              && s'.threads == s.threads[k := Thread(if reply == Bye then Closed else Idle, [])]
  {
    DispatchServes(tokens);
    hide Dispatch, Serve;
    var s1 := Step(cfg, s, Receive(k, tokens));
    var n := ServeIsRun(cfg, s1, k);
    ExecCons(cfg, s, Receive(k, tokens), Runs(k, n));
  }

  lemma DispatchServes(tokens: seq<string>)
    ensures Serving(Dispatch(tokens))
  {
  }

  // Replies on the wire

  function StatusName(status: Status): string {
    if status == Active then "ACTIVE" else "INACTIVE"
  }

  function LevelName(level: Level): string {
    if level == Normal then "NORMAL" else "ALERT"
  }

  function ReplyText(cfg: Config, r: Reply): string {
    match r
    case Registered(id) => "200 REGISTERED " + id
    case Accepted => "200 OK"
    case StatusOf(s) =>
      "200 STATUS " + s.id + " " + StatusName(s.status) + " " + TypeName(s.kind) + " " + cfg.format(s.lastValue)
      + " " + s.lastTimestamp + " " + LevelName(s.level)
    case Pong => "200 PONG"
    case Bye => "200 BYE"
    case BadRequest => "400 BAD_REQUEST"
    case NotRegistered => "403 SENSOR_NOT_REGISTERED"
    case NotFound => "404 SENSOR_NOT_FOUND"
    case AlreadyExists => "409 SENSOR_ALREADY_EXISTS"
    case InvalidSensorType => "422 INVALID_SENSOR_TYPE"
    case InvalidValue => "422 INVALID_VALUE"
    case InternalError => "500 INTERNAL_ERROR"
  }

  /** The bytes a reply puts on the wire; none when it fills the response buffer. */
  function SentBytes(cfg: Config, r: Reply): seq<char> {
    var resp := Cut(ReplyText(cfg, r), BUFFER_SIZE);
    if |resp| + 1 < BUFFER_SIZE then resp + "\n" else []
  }

  function AllSent(cfg: Config, rs: seq<Reply>): seq<char> {
    if rs == [] then [] else AllSent(cfg, rs[..|rs| - 1]) + SentBytes(cfg, rs[|rs| - 1])
  }

  // The session

  function EndsSession(cmd: seq<string>): bool {
    |cmd| == 2 && cmd[0] == "QUIT"
  }

  /** The commands up to and including the first well-formed QUIT. */
  function UpToQuit(cmds: seq<seq<string>>): seq<seq<string>> {
    if cmds == [] then []
    else if EndsSession(cmds[0]) then [cmds[0]]
    else [cmds[0]] + UpToQuit(cmds[1..])
  }

  function HandleAll(cfg: Config, db: Db, cmds: seq<seq<string>>): (Db, seq<Reply>)
    decreases |cmds|
  {
    if cmds == [] then (db, [])
    else
      var (db1, reply) := Handle(cfg, db, cmds[0]);
      var (db2, rest) := HandleAll(cfg, db1, cmds[1..]);
      (db2, [reply] + rest)
  }

  /** What a session makes of everything its peer sends. */
  function RunSession(cfg: Config, db: Db, s: seq<char>, broken: bool): (Db, seq<Reply>) {
    HandleAll(cfg, db, UpToQuit(Commands(s, broken)))
  }

  lemma ByeEndsSession(cfg: Config, db: Db, cmd: seq<string>)
    ensures Handle(cfg, db, cmd).1 == Bye <==> EndsSession(cmd)
  {
    DispatchServes(cmd);
    if Dispatch(cmd).AtDeactivate? {
      ServeDeactivate(cfg, db, cmd[1]);
    } else {
      NoBye(cfg, db, Dispatch(cmd));
    }
  }

  lemma ServeDeactivate(cfg: Config, db: Db, id: string)
    ensures Serve(cfg, db, AtDeactivate(id)) == (Deactivate(db, id).0, Bye)
  {
    hide Deactivate;
    assert Section(cfg, db, AtDeactivate(id)).1 == AtReply(Bye);
  }

  lemma {:induction false} NoBye(cfg: Config, db: Db, pc: Pc)
    requires Serving(pc) && !pc.AtDeactivate? && pc != AtReply(Bye)
    ensures Serve(cfg, db, pc).1 != Bye
    decreases Rank(pc)
  {
    if !pc.AtReply? {
      hide Register, AddMetric, Deactivate, SetLevel, Lookup;
      RankFalls(cfg, db, pc);
      var (db', pc') := Section(cfg, db, pc);
      NoBye(cfg, db', pc');
    }
  }

  /** One reply for each non-empty line up to the QUIT that ends the session, and BYE only for that QUIT. */
  lemma {:induction false} OneReplyPerLine(cfg: Config, db: Db, cmds: seq<seq<string>>)
    ensures var rs := HandleAll(cfg, db, UpToQuit(cmds)).1;
            && |rs| == |UpToQuit(cmds)|
            && UpToQuit(cmds) <= cmds
            && (forall i :: 0 <= i < |rs| ==> (rs[i] == Bye <==> EndsSession(cmds[i])))
            && (forall i :: 0 <= i < |rs| - 1 ==> rs[i] != Bye)
            && (|rs| < |cmds| ==> rs != [] && rs[|rs| - 1] == Bye)
    decreases |cmds|
  {
    hide Handle, EndsSession;
    if cmds != [] {
      ByeEndsSession(cfg, db, cmds[0]);
      if !EndsSession(cmds[0]) {
        OneReplyPerLine(cfg, Handle(cfg, db, cmds[0]).0, cmds[1..]);
        assert UpToQuit(cmds) == [cmds[0]] + UpToQuit(cmds[1..]);
        assert UpToQuit(cmds)[1..] == UpToQuit(cmds[1..]);
      } else {
        assert UpToQuit(cmds) == [cmds[0]] && UpToQuit(cmds)[1..] == [];
      }
    }
  }

  // The handlers, in place

  lemma ServeRegister(cfg: Config, db: Db, id: string, kind: SensorType)
    ensures var (db', code) := Register(db, cfg.cap, id, kind);
            Serve(cfg, db, AtRegister(id, kind)) == (db', RegisterReply(id, code))
  {
    hide Register;
    assert Section(cfg, db, AtRegister(id, kind)).1.AtReply?;
  }

  lemma ServeStep(cfg: Config, db: Db, pc: Pc)
    requires Working(pc)
    ensures Serving(Section(cfg, db, pc).1)
    ensures Serve(cfg, db, pc) == Serve(cfg, Section(cfg, db, pc).0, Section(cfg, db, pc).1)
  {
    RankFalls(cfg, db, pc);
    hide Section;
  }

  method HandleRegister(state: State, cfg: Config, tokens: seq<string>) returns (reply: Reply)
    requires state.Valid() && cfg.cap == state.sensors.Length
    requires tokens != [] && tokens[0] == "REGISTER"
    modifies state.sensors, state`sensorCount
    ensures state.Valid() && (state.Model(), reply) == Handle(cfg, old(state.Model()), tokens)
  {
    if |tokens| != 3 {
      return BadRequest;
    }
    var kind := TypeFromName(tokens[2]);
    if kind == Invalid {
      return InvalidSensorType;
    }
    ServeRegister(cfg, state.Model(), tokens[1], kind);
    var code := state.Register(tokens[1], kind);
    if code == 0 {
      return Registered(tokens[1]);
    } else if code == -2 {
      return AlreadyExists;
    } else if code == -3 {
      return InvalidSensorType;
    }
    return InternalError;
  }

  lemma ServeEvaluation(cfg: Config, db: Db, id: string, v: Value, ts: string, kind: SensorType)
    ensures var db1 := if Anomalous(kind, v) then AddAlert(db, id, v, CrossedBound(kind, v), ts,
         TypeName(kind)) else db;
            Serve(cfg, db, AfterAdd(0, id, v, ts, kind)) == (SetLevel(db1, id, LevelFor(kind, v)).0, Accepted)
  {
    hide SetLevel, AddAlert;
    if Anomalous(kind, v) {
      var db1 := AddAlert(db, id, v, CrossedBound(kind, v), ts, TypeName(kind));
      assert Section(cfg, db, AfterAdd(0, id, v, ts, kind)) == (db1, AtSetLevel(id, Alert));
      ServeSetLevel(cfg, db1, id, Alert);
    } else {
      ServeSetLevel(cfg, db, id, Normal);
    }
  }

  lemma ServeSetLevel(cfg: Config, db: Db, id: string, level: Level)
    ensures Serve(cfg, db, AtSetLevel(id, level)) == (SetLevel(db, id, level).0, Accepted)
  {
    hide SetLevel;
    assert Section(cfg, db, AtSetLevel(id, level)).1 == AtReply(Accepted);
  }

  method HandleMetric(state: State, cfg: Config, tokens: seq<string>) returns (reply: Reply)
    requires state.Valid() && cfg.cap == state.sensors.Length
    requires tokens != [] && tokens[0] == "METRIC"
    modifies state.sensors
    modifies state.metrics`next, state.metrics`count, state.metrics`log, state.metrics.slots
    modifies state.alerts`next, state.alerts`count, state.alerts`log, state.alerts.slots
    ensures state.Valid() && (state.Model(), reply) == Handle(cfg, old(state.Model()), tokens)
  {
    hide D.AddMetric, D.AddAlert, D.SetLevel;
    if |tokens| != 4 {
      return BadRequest;
    }
    var id, text, ts := tokens[1], tokens[2], tokens[3];
    ghost var db := state.Model();
    var _, found := state.FindSensor(id);
    ServeStep(cfg, db, AtFindForMetric(id, text, ts));
    assert Handle(cfg, db, tokens) == Serve(cfg, db, AfterFind(cfg, found, id, text, ts));
    if found == None {
      return NotFound;
    }
    var sensor := found.value;
    if sensor.status != Active {
      return NotRegistered;
    }
    var parsed := cfg.parse(text);
    if parsed == None {
      return InvalidValue;
    }
    var ok := IsValidTimestamp(ts);
    if !ok {
      return BadRequest;
    }
    var v := parsed.value;
    var code := state.AddMetric(id, v, ts, TypeName(sensor.kind));
    ghost var db1 := state.Model();
    ServeStep(cfg, db, AtAddMetric(id, v, ts, sensor));
    if code < 0 {
      return InternalError;
    }
    ServeEvaluation(cfg, db1, id, v, ts, sensor.kind);
    var _ := state.EvaluateAlerts(id, v, sensor.kind, ts);
    return Accepted;
  }

  method HandleStatus(state: State, cfg: Config, tokens: seq<string>) returns (reply: Reply)
    requires state.Valid()
    requires tokens != [] && tokens[0] == "STATUS"
    ensures (state.Model(), reply) == Handle(cfg, state.Model(), tokens)
  {
    if |tokens| != 2 {
      return BadRequest;
    }
    ghost var db := state.Model();
    var _, found := state.FindSensor(tokens[1]);
    reply := if found == None then NotFound else StatusOf(found.value);
    ServeStep(cfg, db, AtFindForStatus(tokens[1]));
    assert Section(cfg, db, AtFindForStatus(tokens[1])) == (db, AtReply(reply));
  }

  method HandlePing(ghost cfg: Config, ghost db: Db, tokens: seq<string>) returns (reply: Reply)
    requires tokens != [] && tokens[0] == "PING"
    ensures (db, reply) == Handle(cfg, db, tokens)
  {
    reply := if |tokens| != 2 then BadRequest else Pong;
  }

  method HandleQuit(state: State, ghost cfg: Config, tokens: seq<string>) returns (reply: Reply)
    requires state.Valid()
    requires tokens != [] && tokens[0] == "QUIT"
    modifies state.sensors
    ensures state.Valid() && (state.Model(), reply) == Handle(cfg, old(state.Model()), tokens)
  {
    if |tokens| != 2 {
      return BadRequest;
    }
    ServeDeactivate(cfg, state.Model(), tokens[1]);
    var _ := state.DeactivateSensor(tokens[1]);
    return Bye;
  }

  method HandleCommand(state: State, cfg: Config, tokens: seq<string>) returns (reply: Reply)
    requires state.Valid() && cfg.cap == state.sensors.Length
    modifies state.sensors, state`sensorCount
    modifies state.metrics`next, state.metrics`count, state.metrics`log, state.metrics.slots
    modifies state.alerts`next, state.alerts`count, state.alerts`log, state.alerts.slots
    ensures state.Valid() && (state.Model(), reply) == Handle(cfg, old(state.Model()), tokens)
  {
    if tokens == [] {
      return BadRequest;
    } else if tokens[0] == "REGISTER" {
      reply := HandleRegister(state, cfg, tokens);
    } else if tokens[0] == "METRIC" {
      reply := HandleMetric(state, cfg, tokens);
    } else if tokens[0] == "STATUS" {
      reply := HandleStatus(state, cfg, tokens);
    } else if tokens[0] == "PING" {
      reply := HandlePing(cfg, state.Model(), tokens);
    } else if tokens[0] == "QUIT" {
      reply := HandleQuit(state, cfg, tokens);
    } else {
      return BadRequest;
    }
  }

  /** What goes out is at least a beginning of `bytes`, and nothing else. */
  ghost predicate Sends(before: seq<char>, bytes: seq<char>, after: seq<char>) {
    exists k :: 0 <= k <= |bytes| && after == before + bytes[..k]
  }

  /** The wire after `rs`, each sent whole or cut short by a failing send. */
  ghost predicate SentPartly(cfg: Config, start: seq<char>, rs: seq<Reply>, out: seq<char>)
    decreases |rs|
  {
    if rs == [] then out == start
    else exists mid :: SentPartly(cfg, start, Front(rs), mid) && Sends(mid, SentBytes(cfg, rs[|rs| - 1]), out)
  }

  function Front(rs: seq<Reply>): seq<Reply>
    requires rs != []
  {
    rs[..|rs| - 1]
  }

  lemma PartlySnoc(cfg: Config, start: seq<char>, rs: seq<Reply>, mid: seq<char>, r: Reply, out: seq<char>)
    requires SentPartly(cfg, start, rs, mid) && Sends(mid, SentBytes(cfg, r), out)
    ensures SentPartly(cfg, start, rs + [r], out)
  {
    assert Front(rs + [r]) == rs;
  }

  /** `send_response`: the reply is built in a buffer of its own, and a failed send is ignored. */
  method SendResponse(sock: Socket, cfg: Config, reply: Reply)
    modifies sock`outgoing, sock`schedule
    ensures Fails !in old(sock.schedule) ==>
      Fails !in sock.schedule && sock.outgoing == old(sock.outgoing) + SentBytes(cfg, reply)
    ensures Sends(old(sock.outgoing), SentBytes(cfg, reply), sock.outgoing)
  {
    var resp := Cut(ReplyText(cfg, reply), BUFFER_SIZE);
    var status := SendLine(sock, resp);
    assert old(sock.outgoing) + (resp + "\n") == old(sock.outgoing) + resp + "\n";
    assert old(sock.outgoing) + [] == old(sock.outgoing);
    var bytes := SentBytes(cfg, reply);
    assert bytes[..0] == [] && bytes[..|bytes|] == bytes;
  }

  lemma {:induction false} CStringPrefix(b: seq<char>, p: nat, n: nat)
    requires p <= n < |b| && b[n] == NUL
    ensures CStringAt(b, p) == CStringAt(b[..n], p)
    decreases n - p
  {
    if p < n {
      CStringPrefix(b, p + 1, n);
    }
  }

  /** The wire of a session that began at `start`; `steady` says that no send was to fail. */
  ghost predicate WireOk(cfg: Config, steady: bool, start: seq<char>, rs: seq<Reply>, out: seq<char>,
      schedule: seq<SendOutcome>) {
    && (steady ==> Fails !in schedule && out == start + AllSent(cfg, rs))
    && SentPartly(cfg, start, rs, out)
  }

  lemma WireSnoc(cfg: Config, steady: bool, start: seq<char>, rs: seq<Reply>, mid: seq<char>, before: seq<SendOutcome>,
                 r: Reply, out: seq<char>, schedule: seq<SendOutcome>)
    requires WireOk(cfg, steady, start, rs, mid, before) && Sends(mid, SentBytes(cfg, r), out)
    requires Fails !in before ==> Fails !in schedule && out == mid + SentBytes(cfg, r)
    ensures WireOk(cfg, steady, start, rs + [r], out, schedule)
  {
    hide Sends, SentPartly, SentBytes;
    AllSentSnoc(cfg, rs, r);
    PartlySnoc(cfg, start, rs, mid, r, out);
    assert start + AllSent(cfg, rs) + SentBytes(cfg, r) == start + (AllSent(cfg, rs) + SentBytes(cfg, r));
  }

  lemma AllSentSnoc(cfg: Config, rs: seq<Reply>, r: Reply)
    ensures AllSent(cfg, rs + [r]) == AllSent(cfg, rs) + SentBytes(cfg, r)
  {
    assert (rs + [r])[..|rs|] == rs;
  }

  /** A command and the reply to it. */
  method Respond(sock: Socket, state: State, cfg: Config, tokens: seq<string>) returns (reply: Reply)
    requires state.Valid() && cfg.cap == state.sensors.Length
    modifies sock`outgoing, sock`schedule
    modifies state.sensors, state`sensorCount
    modifies state.metrics`next, state.metrics`count, state.metrics`log, state.metrics.slots
    modifies state.alerts`next, state.alerts`count, state.alerts`log, state.alerts.slots
    ensures state.Valid() && (state.Model(), reply) == Handle(cfg, old(state.Model()), tokens)
    ensures Fails !in old(sock.schedule) ==>
      Fails !in sock.schedule && sock.outgoing == old(sock.outgoing) + SentBytes(cfg, reply)
    ensures Sends(old(sock.outgoing), SentBytes(cfg, reply), sock.outgoing)
  {
    hide Handle, SentBytes, Sends;
    reply := HandleCommand(state, cfg, tokens);
    SendResponse(sock, cfg, reply);
  }

  /** Reads a line and splits it, in the session's line buffer. */
  method ReadTokens(sock: Socket) returns (n: int, tokens: seq<string>)
    modifies sock`incoming
    ensures var r := Read(old(sock.incoming), "", BUFFER_SIZE, sock.broken);
            n == r.n && sock.incoming == r.rest && (n > 0 ==> tokens == Tokens(CStringAt(r.text, 0)))
  {
    hide Read, TokensUpTo;
    var line := new char[BUFFER_SIZE];
    n := RecvLine(sock, line);
    tokens := [];
    if n > 0 {
      CStringPrefix(line[..], 0, n);
      assert line[..][..n] == line[..n];
      ghost var all := Tokens(CStringAt(line[..], 0));
      assert NulAfter(line[..], 0) by { TerminatedBy(line[..], n); }
      var starts := Tokenize(line, 8);
      for k := 0 to |starts|
        invariant tokens == all[..k]
      {
        tokens := tokens + [CStringAt(line[..], starts[k])];
      }
    }
  }

  lemma TerminatedBy(b: seq<char>, n: nat)
    requires n < |b| && b[n] == NUL
    ensures NulAfter(b, 0)
  {
    CStringPrefix(b, 0, n);
  }

  /** The head of what a session still has to do. */
  lemma NextCommand(s: seq<char>, broken: bool)
    ensures var r := Read(s, "", BUFFER_SIZE, broken);
            var todo := UpToQuit(Commands(s, broken));
            if r.n <= 0 then todo == []
            else
              var cmd, rest := Tokens(CStringAt(r.text, 0)), UpToQuit(Commands(r.rest, broken));
              |r.rest| < |s| && todo == [cmd] + (if EndsSession(cmd) then [] else rest)
  {
    hide Read, Tokens, EndsSession;
    var r := Read(s, "", BUFFER_SIZE, broken);
    if r.n > 0 {
      ReadProgress(s, "", BUFFER_SIZE, broken);
      var cmd, later := Tokens(CStringAt(r.text, 0)), Commands(r.rest, broken);
      assert Commands(s, broken) == [cmd] + later;
      assert ([cmd] + later)[1..] == later && [cmd] + [] == [cmd];
    }
  }

  lemma HandleNext(cfg: Config, db: Db, cmd: seq<string>, rest: seq<seq<string>>, done: seq<Reply>)
    ensures var (db1, reply) := Handle(cfg, db, cmd);
            Goes(HandleAll(cfg, db, [cmd] + rest), done) == Goes(HandleAll(cfg, db1, rest), done + [reply])
  {
    hide Handle;
    assert ([cmd] + rest)[1..] == rest;
    var (a, rs) := HandleAll(cfg, db, [cmd] + rest);
    var (b, qs) := HandleAll(cfg, Handle(cfg, db, cmd).0, rest);
    assert done + rs == (done + [Handle(cfg, db, cmd).1]) + qs;
  }

  /** One round of the session loop, in terms of what the session makes of everything still to come. */
  lemma SessionStep(cfg: Config, db: Db, s: seq<char>, broken: bool, done: seq<Reply>)
    ensures var r, goal := Read(s, "", BUFFER_SIZE, broken), Goes(RunSession(cfg, db, s, broken), done);
            if r.n <= 0 then goal == (db, done)
            else
              var (db1, reply) := Handle(cfg, db, Tokens(CStringAt(r.text, 0)));
              |r.rest| < |s| &&
              goal == if reply == Bye then (db1, done + [reply])
                  else Goes(RunSession(cfg, db1, r.rest, broken), done + [reply])
  {
    var r := Read(s, "", BUFFER_SIZE, broken);
    NextCommand(s, broken);
    hide Read, Tokens, Handle, Commands, UpToQuit, HandleAll, Goes;
    if r.n <= 0 {
      NothingLeft(cfg, db, done);
    } else {
      var cmd := Tokens(CStringAt(r.text, 0));
      var rest := if EndsSession(cmd) then [] else UpToQuit(Commands(r.rest, broken));
      HandleNext(cfg, db, cmd, rest, done);
      ByeEndsSession(cfg, db, cmd);
      if EndsSession(cmd) {
        NothingLeft(cfg, Handle(cfg, db, cmd).0, done + [Bye]);
      }
    }
  }

  /** `handle_sensor_connection`, run without other connections in between. */
  method HandleConnection(sock: Socket, state: State, cfg: Config) returns (replies: seq<Reply>)
    requires state.Valid() && cfg.cap == state.sensors.Length
    modifies sock`incoming, sock`outgoing, sock`schedule
    modifies state.sensors, state`sensorCount
    modifies state.metrics`next, state.metrics`count, state.metrics`log, state.metrics.slots
    modifies state.alerts`next, state.alerts`count, state.alerts`log, state.alerts.slots
    ensures state.Valid()
    ensures (state.Model(), replies) == RunSession(cfg, old(state.Model()), old(sock.incoming), sock.broken)
    ensures Fails !in old(sock.schedule) ==> sock.outgoing == old(sock.outgoing) + AllSent(cfg, replies)
    ensures SentPartly(cfg, old(sock.outgoing), replies, sock.outgoing)
  {
    replies := [];
    ghost var steady, start := Fails !in sock.schedule, sock.outgoing;
    ghost var goal := RunSession(cfg, state.Model(), sock.incoming, sock.broken);
    Nothing(goal);
    WireNothing(cfg, steady, start, sock.schedule);
    hide Handle, Read, Tokens, SentBytes, Sends, WireOk, SentPartly, AllSent, Goes, RunSession;
    while true
      invariant state.Valid()
      invariant Goes(RunSession(cfg, state.Model(), sock.incoming, sock.broken), replies) == goal
      invariant WireOk(cfg, steady, start, replies, sock.outgoing, sock.schedule)
      decreases |sock.incoming|
    {
      SessionStep(cfg, state.Model(), sock.incoming, sock.broken, replies);
      var n, tokens := ReadTokens(sock);
      if n <= 0 {
        break;
      }
      ghost var mid, schedule := sock.outgoing, sock.schedule;
      var reply := Respond(sock, state, cfg, tokens);
      WireSnoc(cfg, steady, start, replies, mid, schedule, reply, sock.outgoing, sock.schedule);
      replies := replies + [reply];
      if reply == Bye {
        break;
      }
    }
    WireIs(cfg, steady, start, replies, sock.outgoing, sock.schedule);
  }

  ghost function Goes(r: (Db, seq<Reply>), done: seq<Reply>): (Db, seq<Reply>) {
    (r.0, done + r.1)
  }

  lemma WireNothing(cfg: Config, steady: bool, start: seq<char>, schedule: seq<SendOutcome>)
    requires steady ==> Fails !in schedule
    ensures WireOk(cfg, steady, start, [], start, schedule)
  {
    assert start + [] == start;
  }

  lemma WireIs(cfg: Config, steady: bool, start: seq<char>, rs: seq<Reply>, out: seq<char>, schedule: seq<SendOutcome>)
    requires WireOk(cfg, steady, start, rs, out, schedule)
    ensures steady ==> out == start + AllSent(cfg, rs)
    ensures SentPartly(cfg, start, rs, out)
  {
  }

  lemma Nothing(r: (Db, seq<Reply>))
    ensures Goes(r, []) == r
  {
    assert [] + r.1 == r.1 && Goes(r, []) == (r.0, r.1);
  }

  lemma NothingLeft(cfg: Config, db: Db, done: seq<Reply>)
    ensures Goes(HandleAll(cfg, db, []), done) == (db, done)
  {
    assert done + [] == done;
  }
}
