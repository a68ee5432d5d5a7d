/** One Python sensor client in place: what it puts on the wire, whatever it gets back. */
module PythonClient {
  import opened Records
  import opened Text
  import opened Wire
  import opened Protocol
  import opened Database
  import opened Server
  import opened Session
  import opened Clients

  /** A generated value and the timestamp it is sent with. */
  datatype Measurement = Measurement(value: Value, ts: string)

  /** The METRIC commands of the `run` loop; it stops on a lost connection, on the limit, or when interrupted. */
  function MetricsSent(cfg: Config, d: Device, samples: seq<Measurement>, max: Option<int>, sent: nat,
      s: seq<char>): seq<seq<string>>
    decreases |samples|
  {
    if samples == [] then []
    else
      [MetricCommand(cfg, d, samples[0].value, samples[0].ts)] +
      match HearLine(s)
      case None => []
      case Some((_, rest)) =>
        if max.Some? && sent + 1 >= max.value then [] else MetricsSent(cfg, d, samples[1..], max, sent + 1, rest)
  }

  function Registers(s: seq<char>): bool {
    HearLine(s).Some? && "200" <= Strip(HearLine(s).value.0)
  }

  /** Everything a client sends, given everything the server sends back. */
  function AllCommands(cfg: Config, d: Device, samples: seq<Measurement>, max: Option<int>,
      s: seq<char>): seq<seq<string>> {
    [RegisterCmd(d)]
    + (if Registers(s) then MetricsSent(cfg, d, samples, max, 0, HearLine(s).value.1) else [])
    + [QuitCmd(d)]
  }

  // The same in bytes

  /** White space to Python's `strip`, among ASCII: tab to CR, the four separators, space. */
  const BLANKS := "\t\n\U{0B}\U{0C}\r\U{1C}\U{1D}\U{1E}\U{1F} "

  /** The text starts with 200 after `j` bytes of white space. */
  ghost predicate Opens(text: string, j: nat) {
    j + 3 <= |text| && text[j..j + 3] == "200" && forall k :: 0 <= k < j ==> text[k] in BLANKS
  }

  /** The text starts with 200, white space apart. */
  ghost predicate StartsOk(text: string) {
    exists j: nat :: Opens(text, j)
  }

  ghost predicate FirstLf(s: seq<char>, i: nat) {
    i < |s| && s[i] == '\n' && '\n' !in s[..i]
  }

  /** A first line has come, and it starts with 200, white space apart. */
  ghost predicate SaysOk(s: seq<char>) {
    exists i: nat :: FirstLf(s, i) && StartsOk(s[..i])
  }

  /** One more METRIC than lines heard since the REGISTER was answered, at least one, at most `max` and the samples. */
  function MetricCount(samples: nat, lines: nat, max: Option<int>): nat {
    var n := if lines < samples then lines else samples;
    var limit: nat := if max.None? then n else if max.value < 1 then 1 else max.value;
    if limit < n then limit else n
  }

  function MetricLines(cfg: Config, id: string, samples: seq<Measurement>): string {
    if samples == [] then ""
    else
      ("METRIC " + id + " " + cfg.format(samples[0].value) + " " + samples[0].ts + "\n")
      + MetricLines(cfg, id, samples[1..])
  }

  function BeforeQuit(cfg: Config, id: string, name: string, samples: seq<Measurement>): string {
    ("REGISTER " + id + " " + name + "\n") + MetricLines(cfg, id, samples)
  }

  /** The bytes of a client that sends `samples`. */
  function ClientBytes(cfg: Config, id: string, name: string, samples: seq<Measurement>): string {
    BeforeQuit(cfg, id, name, samples) + ("QUIT " + id + "\n")
  }

  /** A beginning of `a` goes out, and then a beginning of `b`. */
  ghost predicate SendsBoth(before: seq<char>, a: seq<char>, b: seq<char>, after: seq<char>) {
    exists mid :: Sends(before, a, mid) && Sends(mid, b, after)
  }

  /** How many of its samples a client sends, given everything it hears. */
  ghost function Sampled(samples: nat, max: Option<int>, s: seq<char>): nat {
    if SaysOk(s) then MetricCount(samples, multiset(s)['\n'], max) else 0
  }

  lemma {:induction false} HeardIs(s: seq<char>)
    ensures HearLine(s).None? <==> '\n' !in s
    ensures HearLine(s).Some? ==>
      var (text, rest) := HearLine(s).value; s == text + "\n" + rest && '\n' !in text
    decreases |s|
  {
    if s != [] && s[0] != '\n' {
      HeardIs(s[1..]);
      assert s == [s[0]] + s[1..];
    }
  }

  lemma WhiteIs(c: char)
    ensures White(c) <==> c in BLANKS
  {
    if White(c) {
      assert c == ' ' || c == '\t' || c == '\n' || c == '\U{0B}' || c == '\U{0C}' || c == '\r' || c == '\U{1C}'
          || c == '\U{1D}' || c == '\U{1E}' || c == '\U{1F}';
    }
  }

  lemma OpensAt(text: string, j: nat)
    requires Opens(text, j)
    ensures text[j] == '2' && text[j + 2] == '0'
  {
    assert text[j] == text[j..j + 3][0] && text[j + 2] == text[j..j + 3][2];
  }

  lemma OpensLater(s: string)
    requires s != "" && s[0] in BLANKS
    ensures StartsOk(s) <==> StartsOk(s[1..])
  {
    forall j: nat | Opens(s, j) ensures j > 0 && Opens(s[1..], j - 1) {
      OpensAt(s, j);
      assert s[1..][j - 1..][..3] == s[j..j + 3];
    }
    forall j: nat | Opens(s[1..], j) ensures Opens(s, j + 1) {
      assert s[j + 1..j + 4] == s[1..][j..j + 3];
    }
  }

  lemma OpensBefore(s: string)
    requires s != "" && s[|s| - 1] in BLANKS
    ensures StartsOk(s) <==> StartsOk(s[..|s| - 1])
  {
    var t := s[..|s| - 1];
    forall j: nat | Opens(s, j) ensures Opens(t, j) {
      OpensAt(s, j);
      assert t[j..j + 3] == s[j..j + 3];
    }
    forall j: nat | Opens(t, j) ensures Opens(s, j) {
      assert t[j..j + 3] == s[j..j + 3];
    }
  }

  lemma OpensHere(s: string)
    requires s == "" || s[0] !in BLANKS
    ensures StartsOk(s) <==> "200" <= s
  {
    if "200" <= s {
      assert Opens(s, 0);
    }
  }

  lemma {:induction false} StripIs(s: string)
    ensures "200" <= Strip(s) <==> StartsOk(s)
    decreases |s|
  {
    hide StartsOk;
    if s == "" {
      OpensHere(s);
    } else {
      WhiteIs(s[0]);
      WhiteIs(s[|s| - 1]);
      hide White;
      if White(s[0]) {
        OpensLater(s);
        StripIs(s[1..]);
      } else if White(s[|s| - 1]) {
        OpensBefore(s);
        StripIs(s[..|s| - 1]);
      } else {
        OpensHere(s);
      }
    }
  }

  lemma FirstLfIs(s: seq<char>, text: string, rest: seq<char>, i: nat)
    requires s == text + "\n" + rest && '\n' !in text && FirstLf(s, i)
    ensures i == |text|
  {
    assert s[|text|] == '\n';
    assert forall k :: 0 <= k < |text| ==> s[k] == text[k];
    assert forall k :: 0 <= k < i ==> s[k] == s[..i][k];
  }

  lemma RegistersIs(s: seq<char>)
    ensures Registers(s) <==> SaysOk(s)
  {
    hide Strip, HearLine;
    HeardIs(s);
    if HearLine(s).Some? {
      var text := HearLine(s).value.0;
      StripIs(text);
      assert FirstLf(s, |text|) && s[..|text|] == text;
      forall i: nat | FirstLf(s, i) ensures i == |text| {
        FirstLfIs(s, text, HearLine(s).value.1, i);
      }
    }
  }

  lemma LfsLeft(s: seq<char>)
    requires HearLine(s).Some?
    ensures multiset(s)['\n'] == 1 + multiset(HearLine(s).value.1)['\n']
  {
    HeardIs(s);
    hide HearLine;
    var (text, rest) := HearLine(s).value;
    assert multiset(s) == multiset(text) + multiset("\n") + multiset(rest);
    assert multiset("\n")['\n'] == 1;
  }

  lemma CountStep(samples: nat, lines: nat, max: Option<int>)
    requires samples > 0
    ensures max.None? || max.value > 1 ==>
      MetricCount(samples, 1 + lines, max)
      == if lines == 0 then 1
         else 1 + MetricCount(samples - 1, lines, if max.Some? then Some(max.value - 1) else None)
    ensures max.Some? && max.value <= 1 ==> MetricCount(samples, 1 + lines, max) == 1
  {
  }

  /** The METRICs sent once `sent` are: one, and then one for each line heard, within the limits. */
  lemma {:induction false} MetricsAre(cfg: Config, d: Device, samples: seq<Measurement>, max: Option<int>, sent: nat,
      s: seq<char>)
    ensures var left := if max.Some? then Some(max.value - sent) else None;
            var n := MetricCount(|samples|, 1 + multiset(s)['\n'], left);
            n <= |samples| && Stream(MetricsSent(cfg, d, samples, max, sent, s)) == MetricLines(cfg, d.id, samples[..n])
    decreases |samples|
  {
    hide HearLine, Stream, MetricLines, MetricCount, MetricsSent;
    assert Stream([]) == "" && MetricLines(cfg, d.id, []) == "" by { NoLines(cfg, d.id); }
    if samples == [] {
      CountNone(1 + multiset(s)['\n'], if max.Some? then Some(max.value - sent) else None);
      SentNone(cfg, d, max, sent, s);
    } else {
      HeardIs(s);
      CountStep(|samples|, multiset(s)['\n'], if max.Some? then Some(max.value - sent) else None);
      SentStep(cfg, d, samples, max, sent, s);
      if HearLine(s).Some? && !(max.Some? && sent + 1 >= max.value) {
        LfsLeft(s);
        var rest := HearLine(s).value.1;
        MetricsAre(cfg, d, samples[1..], max, sent + 1, rest);
        var left := if max.Some? then Some(max.value - sent - 1) else None;
        var n := MetricCount(|samples| - 1, 1 + multiset(rest)['\n'], left);
        MetricLinesCons(cfg, d, samples, n, MetricsSent(cfg, d, samples[1..], max, sent + 1, rest));
      } else {
        MetricLinesCons(cfg, d, samples, 0, []);
      }
    }
  }

  lemma NoLines(cfg: Config, id: string)
    ensures Stream([]) == "" && MetricLines(cfg, id, []) == ""
  {
  }

  lemma CountNone(lines: nat, max: Option<int>)
    requires lines > 0
    ensures MetricCount(0, lines, max) == 0
  {
  }

  lemma SentNone(cfg: Config, d: Device, max: Option<int>, sent: nat, s: seq<char>)
    ensures MetricsSent(cfg, d, [], max, sent, s) == []
  {
  }

  lemma SentStep(cfg: Config, d: Device, samples: seq<Measurement>, max: Option<int>, sent: nat, s: seq<char>)
    requires samples != []
    ensures MetricsSent(cfg, d, samples, max, sent, s)
         == [MetricCommand(cfg, d, samples[0].value, samples[0].ts)]
            + if HearLine(s).None? || (max.Some? && sent + 1 >= max.value) then []
              else MetricsSent(cfg, d, samples[1..], max, sent + 1, HearLine(s).value.1)
  {
  }

  lemma MetricLinesCons(cfg: Config, d: Device, samples: seq<Measurement>, n: nat, rest: seq<seq<string>>)
    requires n < |samples|
    requires Stream(rest) == MetricLines(cfg, d.id, samples[1..][..n])
    ensures Stream([MetricCommand(cfg, d, samples[0].value, samples[0].ts)] + rest)
         == MetricLines(cfg, d.id, samples[..n + 1])
  {
    assert samples[..n + 1][1..] == samples[1..][..n];
    var cmd := MetricCommand(cfg, d, samples[0].value, samples[0].ts);
    assert ([cmd] + rest)[1..] == rest;
    JoinWords(cmd[0], cmd[1], cmd[2], cmd[3]);
    hide Join;
    assert "METRIC" + " " == "METRIC ";
  }

  class SensorClient {
    const cfg: Config
    const device: Device
    const sock: Socket
    var open: bool      // whether the client holds its socket
    var running: bool

    constructor (cfg: Config, device: Device, sock: Socket)
      ensures this.cfg == cfg && this.device == device && this.sock == sock && !open && !running
    {
      this.cfg, this.device, this.sock := cfg, device, sock;
      open, running := false, false;
    }

    /** `_send_line`: `sendall` of the command and a LF; false stands for an exception. */
    method SendCommand(cmd: seq<string>) returns (ok: bool)
      modifies sock`outgoing, sock`schedule
      ensures Fails !in old(sock.schedule) && open ==>
        ok && Fails !in sock.schedule && sock.outgoing == old(sock.outgoing) + Line(cmd)
      ensures ok ==> sock.outgoing == old(sock.outgoing) + Line(cmd)
      ensures Sends(old(sock.outgoing), if open then Line(cmd) else [], sock.outgoing)
    {
      if !open {
        ghost var none: seq<char> := [];
        assert sock.outgoing == old(sock.outgoing) + none[..0];
        return false;
      }
      var payload := Line(cmd);
      var total := 0;
      while total < |payload|
        invariant 0 <= total <= |payload|
        invariant sock.outgoing == old(sock.outgoing) + payload[..total]
        invariant Fails !in old(sock.schedule) ==> Fails !in sock.schedule
      {
        var n := sock.Send(payload[total..]);
        if n < 0 {
          return false;
        }
        assert payload[..total] + payload[total..][..n] == payload[..total + n];
        total := total + n;
      }
      assert payload[..total] == payload;
      return true;
    }

    /** `_recv_line`: None stands for the exception on a closed connection. */
    method RecvResponse() returns (r: Option<string>)
      modifies sock`incoming
      ensures match HearLine(old(sock.incoming))
              case None => r == None
              case Some((text, rest)) => r == Some(Strip(text)) && sock.incoming == rest
    {
      var chunks := "";
      while true
        invariant match HearLine(old(sock.incoming))
                  case None => HearLine(sock.incoming).None?
                  case Some((text, rest)) =>
                    HearLine(sock.incoming).Some? && HearLine(sock.incoming).value.1 == rest
                    && text == chunks + HearLine(sock.incoming).value.0
        decreases |sock.incoming|
      {
        ghost var s := sock.incoming;
        var n, c := sock.Recv();
        if n <= 0 {
          return None;
        }
        if c == '\n' {
          assert chunks + "" == chunks;
          break;
        }
        assert HearLine(s).Some? ==>
          chunks + HearLine(s).value.0 == chunks + [c] + HearLine(sock.incoming).value.0;
        chunks := chunks + [c];
      }
      return Some(Strip(chunks));
    }

    /** `register`, `send_metric`, `send_quit`: a command and its response, if it could be sent. */
    method Ask(cmd: seq<string>) returns (ok: bool, r: Option<string>)
      modifies sock`incoming, sock`outgoing, sock`schedule
      ensures Fails !in old(sock.schedule) && open ==> ok && Fails !in sock.schedule
      ensures Sends(old(sock.outgoing), if open then Line(cmd) else [], sock.outgoing)
      ensures if ok then
                && sock.outgoing == old(sock.outgoing) + Line(cmd)
                && match HearLine(old(sock.incoming))
                   case None => r == None
                   case Some((text, rest)) => r == Some(Strip(text)) && sock.incoming == rest
              else r == None
    {
      ok := SendCommand(cmd);
      if ok {
        r := RecvResponse();
      } else {
        r := None;
      }
    }

    method Close()
      modifies this`open, this`running, sock`incoming, sock`outgoing, sock`schedule
      ensures !open && (old(open) ==> !running)
      ensures Fails !in old(sock.schedule) && old(open) ==> sock.outgoing == old(sock.outgoing) + Line(QuitCmd(device))
      ensures Sends(old(sock.outgoing), if old(open) then Line(QuitCmd(device)) else [], sock.outgoing)
      ensures !old(open) ==>
        running == old(running) && sock.outgoing == old(sock.outgoing) && sock.incoming == old(sock.incoming)
    {
      if !open {
        SendsNothing(sock.outgoing);
        return;
      }
      var _, _ := Ask(QuitCmd(device));
      open, running := false, false;
    }

    /**
     `run`: connects, registers, sends metrics, and, once connected, in every case leaves with a QUIT. A failing
     send cuts what comes before the QUIT short, and one during the QUIT cuts that.
     */
    method RunClient(connects: bool, samples: seq<Measurement>, max: Option<int>)
      modifies this`open, this`running, sock`incoming, sock`outgoing, sock`schedule
      ensures !open && (connects ==> !running)
      ensures !connects && !old(open) ==> sock.outgoing == old(sock.outgoing) && sock.incoming == old(sock.incoming)
      ensures connects && Fails !in old(sock.schedule) ==>
        sock.outgoing == old(sock.outgoing) + Stream(AllCommands(cfg, device, samples, max, old(sock.incoming)))
      ensures connects ==> forall name :: Names(name, device.kind) ==>
        var sent := Sampled(|samples|, max, old(sock.incoming));
        && sent <= |samples|
        && (Fails !in old(sock.schedule) ==>
              sock.outgoing == old(sock.outgoing) + ClientBytes(cfg, device.id, name, samples[..sent]))
        && SendsBoth(old(sock.outgoing), BeforeQuit(cfg, device.id, name, samples[..sent]),
                     "QUIT " + device.id + "\n", sock.outgoing)
    {
      hide Line, Stream, HearLine, Strip, MetricsSent, AllCommands, Sends, SendsBoth, ClientBytes, BeforeQuit, Sampled,
        Names;
      ghost var start, s := sock.outgoing, sock.incoming;
      if !connects {
        Close();
        return;
      }
      open, running := true, true;
      var ok, response := Ask(RegisterCmd(device));
      ghost var ms := if Registers(s) then MetricsSent(cfg, device, samples, max, 0, HearLine(s).value.1) else [];
      ghost var mid := sock.outgoing;
      SendsMore(start, Line(RegisterCmd(device)), Stream(ms), mid);
      if response.Some? && "200" <= response.value {
        MetricLoop(samples, max);
        SendsThen(start, Line(RegisterCmd(device)), Stream(ms), sock.outgoing);
      }
      assert Stream([]) == [] && mid + [] == mid by { NoLines(cfg, device.id); }
      mid := sock.outgoing;
      Close();
      AllStreamed(cfg, device, samples, max, s, start);
      BytesAre(cfg, device, samples, max, s, start, mid, sock.outgoing);
    }

    method MetricLoop(samples: seq<Measurement>, max: Option<int>)
      requires open && running
      modifies sock`incoming, sock`outgoing, sock`schedule
      ensures var goal := Stream(MetricsSent(cfg, device, samples, max, 0, old(sock.incoming)));
              && (Fails !in old(sock.schedule) ==>
                    Fails !in sock.schedule && sock.outgoing == old(sock.outgoing) + goal)
              && Sends(old(sock.outgoing), goal, sock.outgoing)
    {
      hide Line, HearLine, Strip, MetricsSent, Sends, Stream;
      ghost var steady, start := Fails !in sock.schedule, sock.outgoing;
      ghost var goal := MetricsSent(cfg, device, samples, max, 0, sock.incoming);
      ghost var cmds := [];
      var sent := 0;
      var done := false;
      assert samples[0..] == samples && [] + goal == goal && start + [] == start;
      assert Stream([]) == [] by { NoLines(cfg, device.id); }
      while !done && sent < |samples|
        invariant sent <= |samples|
        invariant steady ==> Fails !in sock.schedule
        invariant !done ==>
          && sock.outgoing == start + Stream(cmds)
          && goal == cmds + MetricsSent(cfg, device, samples[sent..], max, sent, sock.incoming)
        invariant done ==>
          Sends(start, Stream(goal), sock.outgoing) && (steady ==> sock.outgoing == start + Stream(goal))
        decreases !done, |samples| - sent
      {
        var cmd := MetricCommand(cfg, device, samples[sent].value, samples[sent].ts);
        MetricsNext(cfg, device, samples, max, sent, sock.incoming, cmds);
        ghost var before, s := sock.outgoing, sock.incoming;
        var ok, response := Ask(cmd);
        ghost var more := if HearLine(s).None? || (max.Some? && sent + 1 >= max.value) then []
                          else MetricsSent(cfg, device, samples[sent + 1..], max, sent + 1, HearLine(s).value.1);
        SendsOne(start, cmds, cmd, more, before, sock.outgoing);
        cmds := cmds + [cmd];
        sent := sent + 1;
        done := response.None? || (max.Some? && sent >= max.value);
      }
      assert !done ==> samples[sent..] == [];
      NoMoreMetrics(cfg, device, max, sent, sock.incoming, cmds);
      SendsAll(start, Stream(goal));
    }
  }

  lemma SendsNothing(out: seq<char>)
    ensures Sends(out, [], out)
  {
    ghost var none: seq<char> := [];
    assert out == out + none[..0];
  }

  lemma SendsAll(start: seq<char>, bytes: seq<char>)
    ensures Sends(start, bytes, start + bytes)
  {
    assert bytes[..|bytes|] == bytes;
  }

  lemma SendsMore(start: seq<char>, a: seq<char>, b: seq<char>, out: seq<char>)
    requires Sends(start, a, out)
    ensures Sends(start, a + b, out)
  {
    var k :| 0 <= k <= |a| && out == start + a[..k];
    assert (a + b)[..k] == a[..k];
  }

  lemma SendsThen(start: seq<char>, a: seq<char>, b: seq<char>, out: seq<char>)
    requires Sends(start + a, b, out)
    ensures Sends(start, a + b, out)
  {
    var k :| 0 <= k <= |b| && out == start + a + b[..k];
    assert (a + b)[..|a| + k] == a + b[..k];
    assert start + (a + b[..k]) == start + a + b[..k];
  }

  /** One more command, whole or cut short by a failing send. */
  lemma SendsOne(start: seq<char>, cmds: seq<seq<string>>, cmd: seq<string>, more: seq<seq<string>>,
      before: seq<char>, out: seq<char>)
    requires before == start + Stream(cmds) && Sends(before, Line(cmd), out)
    ensures Sends(start, Stream(cmds + [cmd] + more), out)
    ensures out == before + Line(cmd) ==> out == start + Stream(cmds + [cmd])
    ensures cmds + [cmd] + [] == cmds + [cmd]
  {
    hide Sends, Stream, Line;
    StreamSnoc(cmds, cmd);
    StreamConcat(cmds + [cmd], more);
    SendsThen(start, Stream(cmds), Line(cmd), out);
    SendsMore(start, Stream(cmds + [cmd]), Stream(more), out);
    assert start + Stream(cmds) + Line(cmd) == start + (Stream(cmds) + Line(cmd));
  }

  lemma BytesAre(cfg: Config, d: Device, samples: seq<Measurement>, max: Option<int>, s: seq<char>,
      start: seq<char>, mid: seq<char>, out: seq<char>)
    requires var ms := if Registers(s) then MetricsSent(cfg, d, samples, max, 0, HearLine(s).value.1) else [];
             Sends(start, Line(RegisterCmd(d)) + Stream(ms), mid) && Sends(mid, Line(QuitCmd(d)), out)
    ensures forall name :: Names(name, d.kind) ==>
      var sent := Sampled(|samples|, max, s);
      && sent <= |samples|
      && start + Stream(AllCommands(cfg, d, samples, max, s))
           == start + ClientBytes(cfg, d.id, name, samples[..sent])
      && SendsBoth(start, BeforeQuit(cfg, d.id, name, samples[..sent]), "QUIT " + d.id + "\n", out)
  {
    hide *;
    forall name | Names(name, d.kind)
      ensures var sent := Sampled(|samples|, max, s);
      && sent <= |samples|
      && start + Stream(AllCommands(cfg, d, samples, max, s))
           == start + ClientBytes(cfg, d.id, name, samples[..sent])
      && SendsBoth(start, BeforeQuit(cfg, d.id, name, samples[..sent]), "QUIT " + d.id + "\n", out)
    {
      BytesFor(cfg, d, samples, max, s, start, mid, out, name);
    }
  }

  lemma BytesFor(cfg: Config, d: Device, samples: seq<Measurement>, max: Option<int>, s: seq<char>,
      start: seq<char>, mid: seq<char>, out: seq<char>, name: string)
    requires Names(name, d.kind)
    requires var ms := if Registers(s) then MetricsSent(cfg, d, samples, max, 0, HearLine(s).value.1) else [];
             Sends(start, Line(RegisterCmd(d)) + Stream(ms), mid) && Sends(mid, Line(QuitCmd(d)), out)
    ensures var sent := Sampled(|samples|, max, s);
      && sent <= |samples|
      && start + Stream(AllCommands(cfg, d, samples, max, s))
           == start + ClientBytes(cfg, d.id, name, samples[..sent])
      && SendsBoth(start, BeforeQuit(cfg, d.id, name, samples[..sent]), "QUIT " + d.id + "\n", out)
  {
    var ms := if Registers(s) then MetricsSent(cfg, d, samples, max, 0, HearLine(s).value.1) else [];
    var sent := Sampled(|samples|, max, s);
    AllStreamed(cfg, d, samples, max, s, start);
    SampledIs(cfg, d, samples, max, s);
    WordsSent(d, name);
    var r, m, q := Line(RegisterCmd(d)), Stream(ms), Line(QuitCmd(d));
    assert r + m == BeforeQuit(cfg, d.id, name, samples[..sent]);
    assert r + m + q == ClientBytes(cfg, d.id, name, samples[..sent]);
    SendsInTurn(start, r + m, q, mid, out);
    Grouped(start, r, m, q);
    hide *;
  }

  lemma SendsInTurn(start: seq<char>, a: seq<char>, b: seq<char>, mid: seq<char>, out: seq<char>)
    requires Sends(start, a, mid) && Sends(mid, b, out)
    ensures SendsBoth(start, a, b, out)
  {
  }

  lemma Grouped(start: seq<char>, r: seq<char>, m: seq<char>, q: seq<char>)
    ensures start + r + m + q == start + (r + m + q)
  {
  }

  lemma WordsSent(d: Device, name: string)
    requires Names(name, d.kind)
    ensures Line(RegisterCmd(d)) == "REGISTER " + d.id + " " + name + "\n"
    ensures Line(QuitCmd(d)) == "QUIT " + d.id + "\n"
  {
    NameIs(name);
    JoinWords("REGISTER", d.id, name, "");
    JoinWords("QUIT", d.id, "", "");
    hide Join, TypeName;
    assert "REGISTER" + " " == "REGISTER " && "QUIT" + " " == "QUIT ";
  }

  lemma SampledIs(cfg: Config, d: Device, samples: seq<Measurement>, max: Option<int>, s: seq<char>)
    ensures var ms := if Registers(s) then MetricsSent(cfg, d, samples, max, 0, HearLine(s).value.1) else [];
            var sent := Sampled(|samples|, max, s);
            sent <= |samples| && Stream(ms) == MetricLines(cfg, d.id, samples[..sent])
  {
    RegistersIs(s);
    NoLines(cfg, d.id);
    if Registers(s) {
      LfsLeft(s);
      MetricsAre(cfg, d, samples, max, 0, HearLine(s).value.1);
      assert max == if max.Some? then Some(max.value - 0) else None;
      hide MetricsSent, HearLine, Strip, SaysOk, Stream, MetricLines, MetricCount;
    }
  }

  lemma NoMoreMetrics(cfg: Config, d: Device, max: Option<int>, sent: nat, s: seq<char>, cmds: seq<seq<string>>)
    ensures cmds + MetricsSent(cfg, d, [], max, sent, s) == cmds && cmds + [] == cmds
  {
  }

  lemma AllStreamed(cfg: Config, d: Device, samples: seq<Measurement>, max: Option<int>, s: seq<char>, start: seq<char>)
    ensures var ms := if Registers(s) then MetricsSent(cfg, d, samples, max, 0, HearLine(s).value.1) else [];
            && start + Line(RegisterCmd(d)) + Stream(ms) + Line(QuitCmd(d))
                == start + Stream(AllCommands(cfg, d, samples, max, s))
            && (ms == [] ==>
                  start + Line(RegisterCmd(d)) + Line(QuitCmd(d))
                      == start + Stream(AllCommands(cfg, d, samples, max, s)))
  {
    hide Line, HearLine, Strip, MetricsSent;
    var ms := if Registers(s) then MetricsSent(cfg, d, samples, max, 0, HearLine(s).value.1) else [];
    StreamSnoc([], RegisterCmd(d));
    assert [] + [RegisterCmd(d)] == [RegisterCmd(d)];
    StreamConcat([RegisterCmd(d)], ms);
    StreamSnoc([RegisterCmd(d)] + ms, QuitCmd(d));
  }

  lemma MetricsNext(cfg: Config, d: Device, samples: seq<Measurement>, max: Option<int>, sent: nat, s: seq<char>,
      done: seq<seq<string>>)
    requires sent < |samples|
    ensures var cmd := MetricCommand(cfg, d, samples[sent].value, samples[sent].ts);
            done + MetricsSent(cfg, d, samples[sent..], max, sent, s)
            == done + [cmd] +
               match HearLine(s)
               case None => []
               case Some((_, rest)) =>
                 if max.Some? && sent + 1 >= max.value then []
                 else MetricsSent(cfg, d, samples[sent + 1..], max, sent + 1, rest)
  {
    hide HearLine;
    assert samples[sent..][1..] == samples[sent + 1..];
  }

  // The other end

  ghost predicate SamplesOk(samples: seq<Measurement>) {
    forall i :: 0 <= i < |samples| ==> samples[i].value.Finite() && ValidTimestamp(samples[i].ts)
  }

  /** Commands a server session answers one by one without ending. */
  ghost predicate Plain(cmds: seq<seq<string>>) {
    forall i :: 0 <= i < |cmds| ==> Sendable(cmds[i]) && !EndsSession(cmds[i])
  }

  lemma {:induction false} MetricsPlain(cfg: Config, d: Device, samples: seq<Measurement>, max: Option<int>,
      sent: nat, s: seq<char>)
    requires DeviceOk(d) && LibraryOk(cfg) && SamplesOk(samples)
    ensures Plain(MetricsSent(cfg, d, samples, max, sent, s))
    decreases |samples|
  {
    if samples != [] {
      hide DeviceOk, LibraryOk, HearLine, Sendable;
      CommandsSendable(cfg, d, samples[0].value, samples[0].ts);
      match HearLine(s)
      case None =>
      case Some((_, rest)) => MetricsPlain(cfg, d, samples[1..], max, sent + 1, rest);
    }
  }

  /**
   Whatever a client hears, a server session that gets its bytes reads back exactly the commands it
   issued, answers every one of them, and says BYE to the last and to no other.
   */
  lemma ClientSessionEndsWithBye(cfg: Config, db: Db, d: Device, samples: seq<Measurement>, max: Option<int>,
      s: seq<char>)
    requires DeviceOk(d) && LibraryOk(cfg) && SamplesOk(samples)
    ensures var cmds := AllCommands(cfg, d, samples, max, s);
            var rs := RunSession(cfg, db, Stream(cmds), false).1;
            && Commands(Stream(cmds), false) == cmds
            && |rs| == |cmds|
            && forall i :: 0 <= i < |rs| ==> (rs[i] == Bye <==> i == |rs| - 1)
  {
    var cmds := AllCommands(cfg, d, samples, max, s);
    assert Plain(cmds[..|cmds| - 1]) && cmds[|cmds| - 1] == QuitCmd(d) && Sendable(QuitCmd(d)) by {
      StampIsValid("2026", "03", "30", "14", "05", "00");
      CommandsSendable(cfg, d, Fin(0.0), Stamp("2026", "03", "30", "14", "05", "00"));
      CommandShape(cfg, d, samples, max, s);
    }
    hide AllCommands, Sendable, DeviceOk, LibraryOk;
    CommandsRoundTrip(cmds);
    OneReplyPerLine(cfg, db, cmds);
    PlainThenQuit(cmds);
  }

  lemma CommandShape(cfg: Config, d: Device, samples: seq<Measurement>, max: Option<int>, s: seq<char>)
    requires DeviceOk(d) && LibraryOk(cfg) && SamplesOk(samples) && Sendable(RegisterCmd(d))
    ensures var cmds := AllCommands(cfg, d, samples, max, s);
            Plain(cmds[..|cmds| - 1]) && cmds[|cmds| - 1] == QuitCmd(d)
  {
    hide Sendable, HearLine, Strip, MetricsSent;
    var ms := if Registers(s) then MetricsSent(cfg, d, samples, max, 0, HearLine(s).value.1) else [];
    if Registers(s) {
      MetricsPlain(cfg, d, samples, max, 0, HearLine(s).value.1);
    }
    var cmds := AllCommands(cfg, d, samples, max, s);
    assert cmds[..|cmds| - 1] == [RegisterCmd(d)] + ms;
  }

  lemma {:induction false} PlainThenQuit(cmds: seq<seq<string>>)
    requires cmds != [] && Plain(cmds[..|cmds| - 1]) && EndsSession(cmds[|cmds| - 1])
    ensures UpToQuit(cmds) == cmds
    decreases |cmds|
  {
    hide EndsSession, Sendable;
    if |cmds| > 1 {
      assert cmds[..|cmds| - 1][0] == cmds[0];
      var rest := cmds[1..];
      assert rest[..|rest| - 1] == cmds[..|cmds| - 1][1..];
      PlainThenQuit(rest);
      assert cmds == [cmds[0]] + rest;
    }
  }
}
