/**
 Sensor clients and the server together: every client follows the Python client's `run`, bytes travel
 both ways, and clients, connection threads and the wire interleave freely.
 */
module Clients {
  import opened Records
  import opened Text
  import opened Wire
  import opened Database
  import opened Server
  import opened Lifecycle
  import opened Conservation
  import opened Capacity
  import opened Session

  datatype Device = Device(id: string, kind: SensorType)

  datatype Stage = Off | AwaitRegister | Ready | AwaitMetric | AwaitBye

  /** A client's phase, and the bytes in flight to and from the server. */
  datatype Link = Link(phase: Stage, up: seq<char>, down: seq<char>)

  datatype Exchange = Exchange(client: nat, asked: Stage, response: string)

  datatype World = World(sys: System, links: seq<Link>, heard: seq<Exchange>)

  datatype Move =
    | Start(client: nat)
    | Measure(client: nat, value: Value, ts: string)
    | Leave(client: nat)
    | Serve(client: nat)
    | Hear(client: nat)

  predicate White(c: char) {
    c == ' ' || ('\t' <= c <= '\r') || (28 as char <= c <= 31 as char)
  }

  /** Python's `strip`, on ASCII. */
  function Strip(s: string): string {
    if s != "" && White(s[0]) then Strip(s[1..])
    else if s != "" && White(s[|s| - 1]) then Strip(s[..|s| - 1])
    else s
  }

  /** The bytes before the first LF, and those after it. */
  function HearLine(s: seq<char>): (r: Option<(string, seq<char>)>)
    ensures r.Some? ==> |r.value.1| < |s|
  {
    if s == [] then None
    else if s[0] == '\n' then Some(("", s[1..]))
    else
      match HearLine(s[1..])
      case None => None
      case Some((text, rest)) => Some(([s[0]] + text, rest))
  }

  function RegisterCmd(d: Device): seq<string> {
    ["REGISTER", d.id, TypeName(d.kind)]
  }

  function MetricCommand(cfg: Config, d: Device, v: Value, ts: string): seq<string> {
    ["METRIC", d.id, cfg.format(v), ts]
  }

  function QuitCmd(d: Device): seq<string> {
    ["QUIT", d.id]
  }

  /** No other live client uses this id. */
  predicate IdFree(fleet: seq<Device>, links: seq<Link>, id: string)
    requires |links| == |fleet|
  {
    forall j :: 0 <= j < |fleet| && fleet[j].id == id ==> links[j].phase == Off
  }

  function AfterHearing(d: Device, l: Link, text: string, rest: seq<char>): Link {
    match l.phase
    case AwaitRegister =>
      if "200" <= text then Link(Ready, l.up, rest) else Link(AwaitBye, l.up + Line(QuitCmd(d)), rest)
    case AwaitMetric => Link(Ready, l.up, rest)
    case AwaitBye => Link(Off, l.up, rest)
    case _ => l
  }

  /** One move; a move that is not possible changes nothing. */
  function Next(cfg: Config, fleet: seq<Device>, w: World, m: Move): World
    requires |w.links| == |fleet| == |w.sys.threads|
    ensures |Next(cfg, fleet, w, m).links| == |fleet| == |Next(cfg, fleet, w, m).sys.threads|
  {
    var k := m.client;
    if k >= |fleet| then w
    else
      var d, l, pc := fleet[k], w.links[k], w.sys.threads[k].pc;
      match m
      case Start(_) =>
        if l.phase != Off || !IdFree(fleet, w.links, d.id) then w
        else w.(sys := Step(cfg, w.sys, Connect(k)),
                links := w.links[k := Link(AwaitRegister, Line(RegisterCmd(d)), [])])
      case Measure(_, v, ts) =>
        if l.phase != Ready || !v.Finite() || !ValidTimestamp(ts) then w
        else w.(links := w.links[k := l.(phase := AwaitMetric, up := l.up + Line(MetricCommand(cfg, d, v, ts)))])
      case Leave(_) =>
        if l.phase != Ready then w
        else w.(links := w.links[k := l.(phase := AwaitBye, up := l.up + Line(QuitCmd(d)))])
      case Serve(_) =>
        if pc == Closed then w
        else if pc == Idle then
          if HearLine(l.up).None? then w   // recv_line blocks until a whole line is there
          else
            var r := Read(l.up, "", BUFFER_SIZE, false);
            w.(sys := Step(cfg, w.sys, if r.n <= 0 then Hangup(k) else Receive(k, Tokens(CStringAt(r.text, 0)))),
               links := w.links[k := l.(up := r.rest)])
        else
          w.(sys := Step(cfg, w.sys, Run(k)),
             links := w.links[k := if pc.AtReply? then l.(down := l.down + SentBytes(cfg, pc.reply)) else l])
      case Hear(_) =>
        match HearLine(l.down)
        case None => w
        case Some((text, rest)) =>
          w.(links := w.links[k := AfterHearing(d, l, Strip(text), rest)],
             heard := w.heard + [Exchange(k, l.phase, Strip(text))])
  }

  function Play(cfg: Config, fleet: seq<Device>, w: World, ms: seq<Move>): (w': World)
    requires |w.links| == |fleet| == |w.sys.threads|
    ensures |w'.links| == |fleet| == |w'.sys.threads|
    decreases |ms|
  {
    if ms == [] then w else Play(cfg, fleet, Next(cfg, fleet, w, ms[0]), ms[1..])
  }

  function AtRest(fleet: seq<Device>): World {
    World(Init(|fleet|), seq(|fleet|, _ => Link(Off, [], [])), [])
  }

  // What is assumed of the clients and of the library

  ghost function FleetIds(fleet: seq<Device>): set<string> {
    set k | 0 <= k < |fleet| :: fleet[k].id
  }

  /** Ids of 1 to 63 printable ASCII characters without blanks, and no more of them than slots. */
  ghost predicate FleetOk(cfg: Config, fleet: seq<Device>) {
    && |FleetIds(fleet)| <= cfg.cap
    && forall k :: 0 <= k < |fleet| ==> DeviceOk(fleet[k])
  }

  ghost predicate DeviceOk(d: Device) {
    && d.kind != Invalid && 0 < |d.id| < MAX_ID_LEN
    && forall i :: 0 <= i < |d.id| ==> '!' <= d.id[i] <= '~'
  }

  /** `%.2f` of a finite double is one word of at most 313 bytes that `strtod` reads back. */
  ghost predicate LibraryOk(cfg: Config) {
    forall v: Value :: v.Finite() ==> Word(cfg.format(v)) && |cfg.format(v)| <= 313 && cfg.parse(cfg.format(v)).Some?
  }

  // The invariant

  /** The three stages of a request: on the wire, in service, answered on the wire. */
  ghost predicate LinkOk(cfg: Config, d: Device, pc: Pc, l: Link) {
    match l.phase
    case Off => l.up == [] && l.down == [] && pc == Closed
    case Ready => l.up == [] && l.down == [] && pc == Idle
    case AwaitRegister =>
      || (l.down == [] && l.up == Line(RegisterCmd(d)) && pc == Idle)
      || (l.down == [] && l.up == [] && (pc == AtRegister(d.id, d.kind) || pc == AtReply(Registered(d.id))))
      || (l.down == SentBytes(cfg, Registered(d.id)) && l.up == [] && pc == Idle)
    case AwaitMetric =>
      || (l.down == [] && pc == Idle && MetricInFlight(cfg, d, l.up))
      || (l.down == [] && l.up == [] && ServesMetric(cfg, d, pc))
      || (l.down == SentBytes(cfg, Accepted) && l.up == [] && pc == Idle)
    case AwaitBye =>
      || (l.down == [] && l.up == Line(QuitCmd(d)) && pc == Idle)
      || (l.down == [] && l.up == [] && (pc == AtDeactivate(d.id) || pc == AtReply(Bye)))
      || (l.down == SentBytes(cfg, Bye) && l.up == [] && pc == Closed)
  }

  ghost predicate MetricInFlight(cfg: Config, d: Device, up: seq<char>) {
    exists v: Value, ts :: v.Finite() && ValidTimestamp(ts) && up == Line(MetricCommand(cfg, d, v, ts))
  }

  ghost predicate ServesMetric(cfg: Config, d: Device, pc: Pc) {
    match pc
    case AtFindForMetric(id, text, ts) => id == d.id && cfg.parse(text).Some? && ValidTimestamp(ts)
    case AtAddMetric(id, _, _, _) => id == d.id
    case AtAddAlert(id, _, _, _, _) => id == d.id
    case AtSetLevel(id, _) => id == d.id
    case AtReply(r) => r == Accepted
    case _ => false
  }

  /** The client's registration is in force: its REGISTER is committed and its QUIT is not. */
  ghost predicate Holds(pc: Pc, l: Link) {
    match l.phase
    case Off => false
    case AwaitRegister => l.up == [] && !pc.AtRegister?
    case AwaitBye => l.up != [] || pc.AtDeactivate?
    case _ => true
  }

  ghost predicate GoodResponse(d: Device, e: Exchange) {
    match e.asked
    case AwaitRegister => e.response == "200 REGISTERED " + d.id
    case AwaitMetric => e.response == "200 OK"
    case AwaitBye => e.response == "200 BYE"
    case _ => false
  }

  /** A sensor is ACTIVE exactly while the one live client with its id holds it. */
  ghost predicate ActiveIsHeld(fleet: seq<Device>, w: World)
    requires |w.links| == |fleet| == |w.sys.threads|
  {
    forall k :: 0 <= k < |fleet| && (w.links[k].phase != Off || IdFree(fleet, w.links, fleet[k].id)) ==>
      (IsActive(w.sys.db, fleet[k].id) <==> Holds(w.sys.threads[k].pc, w.links[k]))
  }

  ghost predicate LiveDistinct(fleet: seq<Device>, links: seq<Link>)
    requires |links| == |fleet|
  {
    forall j, k :: 0 <= j < k < |fleet| && links[j].phase != Off && links[k].phase != Off ==> fleet[j].id != fleet[k].id
  }

  ghost predicate Orderly(cfg: Config, fleet: seq<Device>, w: World) {
    && |w.links| == |fleet| == |w.sys.threads|
    && (forall k :: 0 <= k < |fleet| ==> LinkOk(cfg, fleet[k], w.sys.threads[k].pc, w.links[k]))
    && LiveDistinct(fleet, w.links)
    && ActiveIsHeld(fleet, w)
    && TableOk(w.sys.db, FleetIds(fleet))
    && HeardOk(fleet, w.heard)
  }

  ghost predicate HeardOk(fleet: seq<Device>, heard: seq<Exchange>) {
    forall i :: 0 <= i < |heard| ==> heard[i].client < |fleet| && GoodResponse(fleet[heard[i].client], heard[i])
  }

  // Bytes on the link

  lemma {:induction false} HearWhole(text: string, rest: seq<char>)
    requires forall i :: 0 <= i < |text| ==> text[i] != '\n'
    ensures HearLine(text + "\n" + rest) == Some((text, rest))
    decreases |text|
  {
    var s := text + "\n" + rest;
    if text == "" {
      assert s == "\n" + rest;
    } else {
      assert s[1..] == text[1..] + "\n" + rest;
      HearWhole(text[1..], rest);
      assert s[0] == text[0] && [text[0]] + text[1..] == text;
    }
  }

  /** A reply that starts and ends in printable characters reaches the client as it is. */
  lemma ReplyHeard(cfg: Config, r: Reply)
    requires var text := ReplyText(cfg, r);
             && 0 < |text| < BUFFER_SIZE - 1 && !White(text[0]) && !White(text[|text| - 1])
             && forall i :: 0 <= i < |text| ==> text[i] != '\n'
    ensures SentBytes(cfg, r) != []
    ensures HearLine(SentBytes(cfg, r)) == Some((ReplyText(cfg, r), []))
    ensures Strip(ReplyText(cfg, r)) == ReplyText(cfg, r)
  {
    hide ReplyText, HearLine;
    var text := ReplyText(cfg, r);
    HearWhole(text, []);
    assert SentBytes(cfg, r) == text + "\n" + [];
  }

  lemma RegisteredHeard(cfg: Config, d: Device)
    requires DeviceOk(d)
    ensures SentBytes(cfg, Registered(d.id)) != []
    ensures HearLine(SentBytes(cfg, Registered(d.id))) == Some(("200 REGISTERED " + d.id, []))
    ensures Strip("200 REGISTERED " + d.id) == "200 REGISTERED " + d.id
  {
    var head := "200 REGISTERED ";
    var text := head + d.id;
    assert |head| == 15 && forall i :: 0 <= i < 15 ==> head[i] != '\n';
    assert forall i :: 15 <= i < |text| ==> text[i] == d.id[i - 15];
    assert text[0] == '2' && text[|text| - 1] == d.id[|d.id| - 1];
    hide SentBytes, HearLine, Strip;
    ReplyHeard(cfg, Registered(d.id));
  }

  lemma PlainHeard(cfg: Config)
    ensures SentBytes(cfg, Accepted) != [] && SentBytes(cfg, Bye) != []
    ensures HearLine(SentBytes(cfg, Accepted)) == Some(("200 OK", [])) && Strip("200 OK") == "200 OK"
    ensures HearLine(SentBytes(cfg, Bye)) == Some(("200 BYE", [])) && Strip("200 BYE") == "200 BYE"
  {
    hide SentBytes, HearLine, Strip;
    ReplyHeard(cfg, Accepted);
    ReplyHeard(cfg, Bye);
  }

  lemma WordOfId(d: Device)
    requires DeviceOk(d)
    ensures Word(d.id) && Word(TypeName(d.kind)) && |TypeName(d.kind)| <= 5
  {
  }

  lemma CommandsSendable(cfg: Config, d: Device, v: Value, ts: string)
    requires DeviceOk(d) && LibraryOk(cfg) && v.Finite() && ValidTimestamp(ts)
    ensures Sendable(RegisterCmd(d)) && Sendable(QuitCmd(d)) && Sendable(MetricCommand(cfg, d, v, ts))
  {
    WordOfId(d);
    WordOfTimestamp(ts);
    assert Word(cfg.format(v)) && |cfg.format(v)| <= 313;
    hide Word, ValidTimestamp, DeviceOk, Join, LibraryOk;
    JoinWords("REGISTER", d.id, TypeName(d.kind), "");
    JoinWords("QUIT", d.id, "", "");
    JoinWords("METRIC", d.id, cfg.format(v), ts);
    assert Word("REGISTER") && Word("QUIT") && Word("METRIC") by { Verbs(); }
    IdIsShort(d);
  }

  lemma IdIsShort(d: Device)
    requires DeviceOk(d)
    ensures |d.id| < MAX_ID_LEN
  {
  }

  lemma Verbs()
    ensures Word("REGISTER") && Word("QUIT") && Word("METRIC")
  {
  }

  /** A sent command is waiting, and reading it takes all of it and yields its words. */
  lemma CommandHeard(cmd: seq<string>)
    requires Sendable(cmd)
    ensures Line(cmd) != [] && HearLine(Line(cmd)).Some?
    ensures var r := Read(Line(cmd), "", BUFFER_SIZE, false);
            r.n > 0 && r.rest == [] && Tokens(CStringAt(r.text, 0)) == cmd
  {
    hide Read, Tokens, HearLine;
    ReadCommand(cmd, [], false);
    assert Line(cmd) + [] == Line(cmd);
    JoinClean(cmd);
    HearWhole(Join(cmd), []);
    assert Join(cmd) + "\n" + [] == Line(cmd);
  }

  // The moves keep the invariant

  /** One client and its connection move; enough for all the others to stay in order. */
  lemma OneMoves(cfg: Config, fleet: seq<Device>, w: World, w': World, k: nat)
    requires Orderly(cfg, fleet, w) && k < |fleet|
    requires |w'.links| == |fleet| == |w'.sys.threads|
    requires w'.links == w.links[k := w'.links[k]]
    requires forall j :: 0 <= j < |fleet| && j != k ==> w'.sys.threads[j] == w.sys.threads[j]
    requires w.links[k].phase != Off || IdFree(fleet, w.links, fleet[k].id)
    requires LinkOk(cfg, fleet[k], w'.sys.threads[k].pc, w'.links[k])
    requires IsActive(w'.sys.db, fleet[k].id) <==> Holds(w'.sys.threads[k].pc, w'.links[k])
    requires forall z :: z != fleet[k].id ==> IsActive(w'.sys.db, z) == IsActive(w.sys.db, z)
    requires TableOk(w'.sys.db, FleetIds(fleet))
    requires HeardOk(fleet, w'.heard)
    ensures Orderly(cfg, fleet, w')
  {
    hide IsActive, Holds, LinkOk, HeardOk, TableOk, FleetIds;
    assert ActiveIsHeld(fleet, w') by {
      forall j | 0 <= j < |fleet| && (w'.links[j].phase != Off || IdFree(fleet, w'.links, fleet[j].id))
        ensures IsActive(w'.sys.db, fleet[j].id) <==> Holds(w'.sys.threads[j].pc, w'.links[j])
      {
        OtherHolds(cfg, fleet, w, w', k, j);
      }
    }
  }

  lemma OtherHolds(cfg: Config, fleet: seq<Device>, w: World, w': World, k: nat, j: nat)
    requires Orderly(cfg, fleet, w) && k < |fleet| && j < |fleet|
    requires |w'.links| == |fleet| == |w'.sys.threads|
    requires w'.links == w.links[k := w'.links[k]]
    requires j != k ==> w'.sys.threads[j] == w.sys.threads[j]
    requires w.links[k].phase != Off || IdFree(fleet, w.links, fleet[k].id)
    requires IsActive(w'.sys.db, fleet[k].id) <==> Holds(w'.sys.threads[k].pc, w'.links[k])
    requires fleet[j].id != fleet[k].id ==> IsActive(w'.sys.db, fleet[j].id) == IsActive(w.sys.db, fleet[j].id)
    requires w'.links[j].phase != Off || IdFree(fleet, w'.links, fleet[j].id)
    ensures IsActive(w'.sys.db, fleet[j].id) <==> Holds(w'.sys.threads[j].pc, w'.links[j])
  {
    hide IsActive, LinkOk, HeardOk, TableOk, FleetIds;
    if fleet[j].id != fleet[k].id {
      assert w'.links[j].phase == Off ==> IdFree(fleet, w.links, fleet[j].id);
    }
  }

  lemma StartOrderly(cfg: Config, fleet: seq<Device>, w: World, k: nat)
    requires Orderly(cfg, fleet, w) && k < |fleet|
    ensures Orderly(cfg, fleet, Next(cfg, fleet, w, Start(k)))
  {
    var w' := Next(cfg, fleet, w, Start(k));
    assert LinkOk(cfg, fleet[k], w.sys.threads[k].pc, w.links[k]);
    if w.links[k].phase == Off && IdFree(fleet, w.links, fleet[k].id) {
      hide IsActive, TableOk, HeardOk, SentBytes, Line, FleetIds;
      LineNotEmpty(RegisterCmd(fleet[k]));
      OneMoves(cfg, fleet, w, w', k);
    }
  }

  lemma LineNotEmpty(cmd: seq<string>)
    ensures Line(cmd) != []
  {
  }

  lemma AskOrderly(cfg: Config, fleet: seq<Device>, w: World, m: Move)
    requires Orderly(cfg, fleet, w) && m.client < |fleet| && (m.Measure? || m.Leave?)
    ensures Orderly(cfg, fleet, Next(cfg, fleet, w, m))
  {
    var k := m.client;
    var d := fleet[k];
    var w' := Next(cfg, fleet, w, m);
    assert LinkOk(cfg, d, w.sys.threads[k].pc, w.links[k]);
    if w.links[k].phase == Ready && (m.Leave? || (m.value.Finite() && ValidTimestamp(m.ts))) {
      hide IsActive, TableOk, HeardOk, SentBytes, Line, FleetIds, ValidTimestamp;
      var cmd := if m.Leave? then QuitCmd(d) else MetricCommand(cfg, d, m.value, m.ts);
      LineNotEmpty(cmd);
      assert [] + Line(cmd) == Line(cmd);
      assert w'.links[k].up == Line(cmd);
      OneMoves(cfg, fleet, w, w', k);
    }
  }

  lemma HearOrderly(cfg: Config, fleet: seq<Device>, w: World, k: nat)
    requires Orderly(cfg, fleet, w) && FleetOk(cfg, fleet) && k < |fleet|
    ensures Orderly(cfg, fleet, Next(cfg, fleet, w, Hear(k)))
  {
    var w' := Next(cfg, fleet, w, Hear(k));
    var d, l, pc := fleet[k], w.links[k], w.sys.threads[k].pc;
    assert LinkOk(cfg, d, pc, l) && DeviceOk(d);
    if l.down != [] {
      HeardIsGood(cfg, d, pc, l, k);
      hide IsActive, TableOk, GoodResponse, SentBytes, Line, FleetIds, Strip, HearLine, DeviceOk;
      NextPhase(cfg, d, pc, l, Strip(HearLine(l.down).value.0));
      hide LinkOk, Holds, AfterHearing;
      OneMoves(cfg, fleet, w, w', k);
    }
  }

  /** Hearing a reply ends the request and leaves the registration as the reply says. */
  lemma NextPhase(cfg: Config, d: Device, pc: Pc, l: Link, text: string)
    requires LinkOk(cfg, d, pc, l) && l.down != [] && "200" <= text
    ensures var l' := AfterHearing(d, l, text, []);
            && LinkOk(cfg, d, pc, l') && (Holds(pc, l') <==> Holds(pc, l)) && l.phase != Off
  {
    hide SentBytes, Line, MetricInFlight, ServesMetric;
  }

  /** A pending reply is the 200 form for what was asked. */
  lemma HeardIsGood(cfg: Config, d: Device, pc: Pc, l: Link, k: nat)
    requires DeviceOk(d) && LinkOk(cfg, d, pc, l) && l.down != []
    ensures HearLine(l.down).Some?
    ensures var text := Strip(HearLine(l.down).value.0);
            && HearLine(l.down).value.1 == [] && GoodResponse(d, Exchange(k, l.phase, text)) && "200" <= text
            && (l.phase == AwaitRegister || l.phase == AwaitMetric || l.phase == AwaitBye)
  {
    RegisteredHeard(cfg, d);
    PlainHeard(cfg);
    hide SentBytes, Line, Strip, HearLine, DeviceOk, MetricInFlight, ServesMetric;
    assert ("200 REGISTERED " + d.id)[..3] == "200";
  }

  lemma CommandsDispatch(cfg: Config, d: Device, v: Value, ts: string)
    requires d.kind != Invalid
    ensures Dispatch(RegisterCmd(d)) == AtRegister(d.id, d.kind)
    ensures Dispatch(MetricCommand(cfg, d, v, ts)) == AtFindForMetric(d.id, cfg.format(v), ts)
    ensures Dispatch(QuitCmd(d)) == AtDeactivate(d.id)
  {
  }

  /** A waiting request is read whole and moves its connection to the matching handler. */
  lemma RequestRead(cfg: Config, d: Device, l: Link)
    requires DeviceOk(d) && LibraryOk(cfg) && LinkOk(cfg, d, Idle, l) && l.up != []
    ensures HearLine(l.up).Some?
    ensures var r := Read(l.up, "", BUFFER_SIZE, false);
            var pc' := Dispatch(Tokens(CStringAt(r.text, 0)));
            && r.n > 0 && r.rest == [] && LinkOk(cfg, d, pc', l.(up := []))
            && (Holds(pc', l.(up := [])) <==> Holds(Idle, l))
  {
    hide Read, Tokens, HearLine, Line, SentBytes, Dispatch, Sendable;
    var v, ts := Fin(0.0), Stamp("2026", "03", "30", "14", "05", "00");
    if l.phase == AwaitMetric {
      v, ts :| v.Finite() && ValidTimestamp(ts) && l.up == Line(MetricCommand(cfg, d, v, ts));
    } else {
      StampIsValid("2026", "03", "30", "14", "05", "00");
    }
    assert cfg.parse(cfg.format(v)).Some?;
    CommandsSendable(cfg, d, v, ts);
    CommandsDispatch(cfg, d, v, ts);
    var cmd := if l.phase == AwaitRegister then RegisterCmd(d)
               else if l.phase == AwaitMetric then MetricCommand(cfg, d, v, ts) else QuitCmd(d);
    hide ValidTimestamp, Stamp, LibraryOk;
    CommandHeard(cmd);
  }

  /** What reading a request changes. */
  lemma NextReads(cfg: Config, fleet: seq<Device>, w: World, k: nat)
    requires |w.links| == |fleet| == |w.sys.threads| && k < |fleet|
    requires DeviceOk(fleet[k]) && LibraryOk(cfg) && w.sys.threads[k].pc == Idle
    requires LinkOk(cfg, fleet[k], Idle, w.links[k]) && w.links[k].up != []
    ensures var w' := Next(cfg, fleet, w, Serve(k));
            var pc', l' := w'.sys.threads[k].pc, w.links[k].(up := []);
            && w'.heard == w.heard && w'.sys.db == w.sys.db && w'.links == w.links[k := l']
            && w'.sys.threads == w.sys.threads[k := w'.sys.threads[k]]
            && LinkOk(cfg, fleet[k], pc', l') && (Holds(pc', l') <==> Holds(Idle, w.links[k]))
  {
    hide HearLine, Read, Tokens, Dispatch, LinkOk, Holds, DeviceOk, LibraryOk;
    RequestRead(cfg, fleet[k], w.links[k]);
  }

  lemma ServeReadOrderly(cfg: Config, fleet: seq<Device>, w: World, k: nat)
    requires Orderly(cfg, fleet, w) && FleetOk(cfg, fleet) && LibraryOk(cfg)
    requires k < |fleet| && w.sys.threads[k].pc == Idle
    ensures Orderly(cfg, fleet, Next(cfg, fleet, w, Serve(k)))
  {
    assert LinkOk(cfg, fleet[k], Idle, w.links[k]) && DeviceOk(fleet[k]) && w.links[k].phase != Off;
    if w.links[k].up != [] {
      NextReads(cfg, fleet, w, k);
      hide IsActive, TableOk, HeardOk, FleetIds, DeviceOk, LinkOk, Holds, Next;
      OneMoves(cfg, fleet, w, Next(cfg, fleet, w, Serve(k)), k);
    }
  }

  lemma ReplySent(cfg: Config, d: Device, pc: Pc, l: Link)
    requires DeviceOk(d) && LinkOk(cfg, d, pc, l) && pc.AtReply?
    ensures var pc' := if pc.reply == Bye then Closed else Idle;
            var l' := l.(down := l.down + SentBytes(cfg, pc.reply));
            && LinkOk(cfg, d, pc', l') && l'.down != [] && l.phase != Off
            && (Holds(pc', l') <==> Holds(pc, l))
  {
    RegisteredHeard(cfg, d);
    PlainHeard(cfg);
    hide SentBytes, HearLine, Strip, Line, DeviceOk, MetricInFlight;
    ReplyIs(cfg, d, pc, l);
    assert [] + SentBytes(cfg, pc.reply) == SentBytes(cfg, pc.reply);
    var pc', l' := if pc.reply == Bye then Closed else Idle, l.(down := SentBytes(cfg, pc.reply));
    assert l' == Link(l.phase, [], SentBytes(cfg, pc.reply));
  }

  lemma ReplyIs(cfg: Config, d: Device, pc: Pc, l: Link)
    requires LinkOk(cfg, d, pc, l) && pc.AtReply?
    ensures l.up == [] && l.down == []
    ensures || (l.phase == AwaitRegister && pc.reply == Registered(d.id))
            || (l.phase == AwaitMetric && pc.reply == Accepted)
            || (l.phase == AwaitBye && pc.reply == Bye)
  {
    hide SentBytes, Line, MetricInFlight;
  }

  lemma ServeReplyOrderly(cfg: Config, fleet: seq<Device>, w: World, k: nat)
    requires Orderly(cfg, fleet, w) && FleetOk(cfg, fleet)
    requires k < |fleet| && w.sys.threads[k].pc.AtReply?
    ensures Orderly(cfg, fleet, Next(cfg, fleet, w, Serve(k)))
  {
    assert LinkOk(cfg, fleet[k], w.sys.threads[k].pc, w.links[k]) && DeviceOk(fleet[k]);
    ReplySent(cfg, fleet[k], w.sys.threads[k].pc, w.links[k]);
    NextServes(cfg, fleet, w, k);
    hide IsActive, TableOk, HeardOk, SentBytes, FleetIds, DeviceOk, LinkOk, Holds, Next;
    OneMoves(cfg, fleet, w, Next(cfg, fleet, w, Serve(k)), k);
  }

  /** What a step of a connection that is serving changes. */
  lemma NextServes(cfg: Config, fleet: seq<Device>, w: World, k: nat)
    requires |w.links| == |fleet| == |w.sys.threads| && k < |fleet|
    requires var pc := w.sys.threads[k].pc; pc != Closed && pc != Idle
    ensures var w' := Next(cfg, fleet, w, Serve(k));
            var pc, pc', l := w.sys.threads[k].pc, w'.sys.threads[k].pc, w.links[k];
            && w'.heard == w.heard
            && w'.sys.threads == w.sys.threads[k := w'.sys.threads[k]]
            && w'.links == w.links[k := if pc.AtReply? then l.(down := l.down + SentBytes(cfg, pc.reply)) else l]
            && (if pc.AtReply? then w'.sys.db == w.sys.db && pc' == (if pc.reply == Bye then Closed else Idle)
                else (w'.sys.db, pc') == Section(cfg, w.sys.db, pc))
  {
    hide Section, SentBytes;
  }

  // Critical sections of the clients' commands

  lemma SectionActive(cfg: Config, db: Db, pc: Pc, z: string)
    requires Working(pc) && |pc.id| < MAX_ID_LEN && (pc.AtRegister? ==> pc.kind != Invalid)
    ensures var db' := Section(cfg, db, pc).0;
            IsActive(db', z) <==>
              if z != pc.id then IsActive(db, z)
              else if pc.AtDeactivate? then false
              else if pc.AtRegister? then Lookup(db.table, z).Some? || |db.table| < cfg.cap
              else IsActive(db, z)
  {
    hide Section, IndexOf;
    if Appends(cfg, db, pc) {
      SectionAppends(cfg, db, pc, z);
    } else {
      SectionLookup(cfg, db, pc, z);
    }
  }

  /** Where a client's command goes next: always on towards its 200 reply. */
  lemma SectionProceeds(cfg: Config, d: Device, db: Db, pc: Pc, l: Link)
    requires LinkOk(cfg, d, pc, l) && Working(pc) && DeviceOk(d)
    requires IsActive(db, d.id) <==> Holds(pc, l)
    requires Lookup(db.table, d.id).None? ==> |db.table| < cfg.cap
    ensures var (db', pc') := Section(cfg, db, pc);
            LinkOk(cfg, d, pc', l) && pc.id == d.id && (IsActive(db', d.id) <==> Holds(pc', l))
  {
    WorkingIs(cfg, d, pc, l);
    SectionActive(cfg, db, pc, d.id);
    if l.phase == AwaitMetric {
      MetricProceeds(cfg, d, db, pc);
      hide Section, IsActive, SentBytes, MetricInFlight, ServesMetric;
    } else {
      hide Put, Lookup, IsActive, SentBytes;
    }
  }

  lemma WorkingIs(cfg: Config, d: Device, pc: Pc, l: Link)
    requires LinkOk(cfg, d, pc, l) && Working(pc)
    ensures l.up == [] && l.down == [] && pc.id == d.id
    ensures || (l.phase == AwaitRegister && pc == AtRegister(d.id, d.kind))
            || (l.phase == AwaitMetric && ServesMetric(cfg, d, pc) && !pc.AtRegister? && !pc.AtDeactivate?)
            || (l.phase == AwaitBye && pc == AtDeactivate(d.id))
  {
    hide SentBytes, Line, MetricInFlight;
  }

  lemma MetricProceeds(cfg: Config, d: Device, db: Db, pc: Pc)
    requires ServesMetric(cfg, d, pc) && Working(pc) && IsActive(db, d.id)
    ensures ServesMetric(cfg, d, Section(cfg, db, pc).1)
    ensures var pc' := Section(cfg, db, pc).1; !pc'.AtRegister? && !pc'.AtDeactivate?
  {
    hide IndexOf, Put, ValidTimestamp;
  }

  /** What is known of a client whose command is in service. */
  lemma ServeFacts(cfg: Config, fleet: seq<Device>, w: World, k: nat)
    requires Orderly(cfg, fleet, w) && FleetOk(cfg, fleet)
    requires k < |fleet| && Working(w.sys.threads[k].pc)
    ensures var d, l, pc, db := fleet[k], w.links[k], w.sys.threads[k].pc, w.sys.db;
            && LinkOk(cfg, d, pc, l) && DeviceOk(d) && l.phase != Off && |d.id| < MAX_ID_LEN
            && pc.id == d.id && (pc.AtRegister? ==> pc.kind != Invalid) && (IsActive(db, d.id) <==> Holds(pc, l))
            && d.id in FleetIds(fleet) && |FleetIds(fleet)| <= cfg.cap
            && TableOk(db, FleetIds(fleet)) && HeardOk(fleet, w.heard)
            && (Lookup(db.table, d.id).None? ==> |db.table| < cfg.cap)
  {
    var d, l, pc, db := fleet[k], w.links[k], w.sys.threads[k].pc, w.sys.db;
    assert LinkOk(cfg, d, pc, l) && DeviceOk(d) && l.phase != Off;
    assert IsActive(db, d.id) <==> Holds(pc, l);
    hide IsActive, HeardOk, FleetIds, Lookup, TableOk, Orderly, LibraryOk;
    InFleet(fleet, k);
    if Lookup(db.table, d.id).None? {
      TableRoom(db, FleetIds(fleet), d.id);
    }
  }

  lemma ServeSectionOrderly(cfg: Config, fleet: seq<Device>, w: World, k: nat)
    requires Orderly(cfg, fleet, w) && FleetOk(cfg, fleet)
    requires k < |fleet| && Working(w.sys.threads[k].pc)
    ensures Orderly(cfg, fleet, Next(cfg, fleet, w, Serve(k)))
  {
    var w' := Next(cfg, fleet, w, Serve(k));
    var d, l, pc, db := fleet[k], w.links[k], w.sys.threads[k].pc, w.sys.db;
    ServeFacts(cfg, fleet, w, k);
    NextServes(cfg, fleet, w, k);
    hide IsActive, HeardOk, FleetIds, DeviceOk, Section, LinkOk, Holds, Lookup, TableOk, Next, Orderly, FleetOk;
    SectionProceeds(cfg, d, db, pc, l);
    SectionTableOk(cfg, db, pc, FleetIds(fleet));
    OthersStayActive(cfg, db, pc);
    OneMoves(cfg, fleet, w, w', k);
  }

  lemma OthersStayActive(cfg: Config, db: Db, pc: Pc)
    requires Working(pc) && |pc.id| < MAX_ID_LEN && (pc.AtRegister? ==> pc.kind != Invalid)
    ensures forall z :: z != pc.id ==> IsActive(Section(cfg, db, pc).0, z) == IsActive(db, z)
  {
    hide IsActive, Section;
    forall z | z != pc.id ensures IsActive(Section(cfg, db, pc).0, z) == IsActive(db, z) {
      SectionActive(cfg, db, pc, z);
    }
  }

  lemma InFleet(fleet: seq<Device>, k: nat)
    requires k < |fleet|
    ensures fleet[k].id in FleetIds(fleet)
  {
  }

  lemma NextOrderly(cfg: Config, fleet: seq<Device>, w: World, m: Move)
    requires Orderly(cfg, fleet, w) && FleetOk(cfg, fleet) && LibraryOk(cfg)
    ensures Orderly(cfg, fleet, Next(cfg, fleet, w, m))
  {
    var k := m.client;
    if k < |fleet| {
      hide Orderly, FleetOk, LibraryOk;
      match m
      case Start(_) => StartOrderly(cfg, fleet, w, k);
      case Measure(_, _, _) => AskOrderly(cfg, fleet, w, m);
      case Leave(_) => AskOrderly(cfg, fleet, w, m);
      case Hear(_) => HearOrderly(cfg, fleet, w, k);
      case Serve(_) =>
        var pc := w.sys.threads[k].pc;
        if pc == Idle {
          ServeReadOrderly(cfg, fleet, w, k);
        } else if pc.AtReply? {
          ServeReplyOrderly(cfg, fleet, w, k);
        } else if pc != Closed {
          ServeSectionOrderly(cfg, fleet, w, k);
        }
    }
  }

  lemma {:induction false} PlaysOrderly(cfg: Config, fleet: seq<Device>, w: World, ms: seq<Move>)
    requires Orderly(cfg, fleet, w) && FleetOk(cfg, fleet) && LibraryOk(cfg)
    ensures Orderly(cfg, fleet, Play(cfg, fleet, w, ms))
    decreases |ms|
  {
    if ms != [] {
      hide FleetOk, LibraryOk, Next;
      NextOrderly(cfg, fleet, w, ms[0]);
      PlaysOrderly(cfg, fleet, Next(cfg, fleet, w, ms[0]), ms[1..]);
    }
  }

  /**
   End-to-end safety. However clients, connections and wire interleave, every response any client ever
   hears is the 200 form of what it asked: REGISTERED with its id, OK, or BYE; also for a client that
   comes back with an id whose earlier client has left.
   */
  lemma EveryResponseIs200(cfg: Config, fleet: seq<Device>, ms: seq<Move>)
    requires FleetOk(cfg, fleet) && LibraryOk(cfg)
    ensures var w := Play(cfg, fleet, AtRest(fleet), ms);
            forall e :: e in w.heard ==> e.client < |fleet| && GoodResponse(fleet[e.client], e)
  {
    hide FleetOk, LibraryOk;
    StartsOrderly(cfg, fleet);
    PlaysOrderly(cfg, fleet, AtRest(fleet), ms);
  }

  lemma StartsOrderly(cfg: Config, fleet: seq<Device>)
    ensures Orderly(cfg, fleet, AtRest(fleet))
  {
  }

  // Every request is answered

  predicate Waiting(l: Link) {
    l.phase == AwaitRegister || l.phase == AwaitMetric || l.phase == AwaitBye
  }

  /** How many steps of its own connection a waiting client is from its reply. */
  function Distance(pc: Pc, l: Link): nat {
    if l.down != [] then 0
    else if l.up != [] then 6
    else 1 + Rank(pc)
  }

  lemma ServeAdvances(cfg: Config, fleet: seq<Device>, w: World, k: nat)
    requires Orderly(cfg, fleet, w) && FleetOk(cfg, fleet) && LibraryOk(cfg)
    requires k < |fleet| && Waiting(w.links[k]) && w.links[k].down == []
    ensures var w' := Next(cfg, fleet, w, Serve(k));
            && w'.links[k].phase == w.links[k].phase
            && Distance(w'.sys.threads[k].pc, w'.links[k]) < Distance(w.sys.threads[k].pc, w.links[k])
  {
    var d, l, pc := fleet[k], w.links[k], w.sys.threads[k].pc;
    assert LinkOk(cfg, d, pc, l) && DeviceOk(d);
    hide SentBytes, Line, HearLine, DeviceOk, Read, Tokens, Dispatch, LinkOk, Holds, Orderly, Section, Next;
    WhereWaiting(cfg, d, pc, l);
    if pc == Idle {
      NextReads(cfg, fleet, w, k);
      RankBound(Next(cfg, fleet, w, Serve(k)).sys.threads[k].pc);
    } else {
      NextServes(cfg, fleet, w, k);
      if pc.AtReply? {
        ReplySent(cfg, d, pc, l);
      } else {
        RankFalls(cfg, w.sys.db, pc);
      }
    }
  }

  /** A client without a pending reply has its request on the wire or in service. */
  lemma WhereWaiting(cfg: Config, d: Device, pc: Pc, l: Link)
    requires LinkOk(cfg, d, pc, l) && DeviceOk(d) && Waiting(l) && l.down == []
    ensures pc != Closed && (pc == Idle <==> l.up != [])
  {
    hide SentBytes, HearLine, Line, Strip, DeviceOk;
    RegisteredHeard(cfg, d);
    PlainHeard(cfg);
    LineNotEmpty(RegisterCmd(d));
    LineNotEmpty(QuitCmd(d));
    if MetricInFlight(cfg, d, l.up) {
      var v: Value, ts :| l.up == Line(MetricCommand(cfg, d, v, ts));
      LineNotEmpty(MetricCommand(cfg, d, v, ts));
    }
  }

  lemma RankBound(pc: Pc)
    ensures Rank(pc) <= 4
  {
  }

  lemma OthersStay(cfg: Config, fleet: seq<Device>, w: World, m: Move, k: nat)
    requires |w.links| == |fleet| == |w.sys.threads| && k < |fleet| && m.client != k
    ensures var w' := Next(cfg, fleet, w, m);
            w'.links[k] == w.links[k] && w'.sys.threads[k] == w.sys.threads[k]
  {
    hide Read, HearLine, Line, SentBytes, Tokens, Section, Dispatch, Strip;
  }

  function Serves(ms: seq<Move>, k: nat): nat {
    if ms == [] then 0 else (if ms[0] == Serve(k) then 1 else 0) + Serves(ms[1..], k)
  }

  lemma {:induction false} AnsweredWithin(cfg: Config, fleet: seq<Device>, w: World, ms: seq<Move>, k: nat)
    requires Orderly(cfg, fleet, w) && FleetOk(cfg, fleet) && LibraryOk(cfg)
    requires k < |fleet| && Waiting(w.links[k])
    requires forall i :: 0 <= i < |ms| && ms[i].client == k ==> ms[i] == Serve(k)
    requires Distance(w.sys.threads[k].pc, w.links[k]) <= Serves(ms, k)
    ensures var w' := Play(cfg, fleet, w, ms);
            |w'.links| == |fleet| && w'.links[k].phase == w.links[k].phase && HearLine(w'.links[k].down).Some?
    decreases |ms|
  {
    assert LinkOk(cfg, fleet[k], w.sys.threads[k].pc, w.links[k]) && DeviceOk(fleet[k]);
    if ms == [] {
      HeardIsGood(cfg, fleet[k], w.sys.threads[k].pc, w.links[k], k);
    } else {
      hide FleetOk, LibraryOk, Next, HearLine, LinkOk, DeviceOk;
      var w1 := Next(cfg, fleet, w, ms[0]);
      NextOrderly(cfg, fleet, w, ms[0]);
      if ms[0].client != k {
        OthersStay(cfg, fleet, w, ms[0], k);
      } else {
        OwnStep(cfg, fleet, w, k);
      }
      AnsweredWithin(cfg, fleet, w1, ms[1..], k);
    }
  }

  lemma OwnStep(cfg: Config, fleet: seq<Device>, w: World, k: nat)
    requires Orderly(cfg, fleet, w) && FleetOk(cfg, fleet) && LibraryOk(cfg)
    requires k < |fleet| && Waiting(w.links[k])
    ensures var w' := Next(cfg, fleet, w, Serve(k));
            && w'.links[k].phase == w.links[k].phase
            && Distance(w'.sys.threads[k].pc, w'.links[k]) <= DistanceLess(Distance(w.sys.threads[k].pc, w.links[k]))
  {
    if w.links[k].down == [] {
      ServeAdvances(cfg, fleet, w, k);
    } else {
      var l := w.links[k];
      assert LinkOk(cfg, fleet[k], w.sys.threads[k].pc, l);
      assert HearLine([]).None?;
    }
  }

  function DistanceLess(n: nat): nat {
    if n == 0 then 0 else n - 1
  }

  /**
   No request waits behind other clients: whatever they do meanwhile, six steps of its own connection
   put the reply on the wire.
   */
  lemma AnsweredInSixSteps(cfg: Config, fleet: seq<Device>, before: seq<Move>, ms: seq<Move>, k: nat)
    requires FleetOk(cfg, fleet) && LibraryOk(cfg) && k < |fleet|
    requires Waiting(Play(cfg, fleet, AtRest(fleet), before).links[k])
    requires forall i :: 0 <= i < |ms| && ms[i].client == k ==> ms[i] == Serve(k)
    requires Serves(ms, k) >= 6
    ensures var w := Play(cfg, fleet, Play(cfg, fleet, AtRest(fleet), before), ms);
            HearLine(w.links[k].down).Some?
  {
    hide FleetOk, LibraryOk, HearLine;
    StartsOrderly(cfg, fleet);
    PlaysOrderly(cfg, fleet, AtRest(fleet), before);
    var w := Play(cfg, fleet, AtRest(fleet), before);
    RankBound(w.sys.threads[k].pc);
    AnsweredWithin(cfg, fleet, w, ms, k);
  }
}
