/** Byte framing: `recv_line` and `send_line` over a socket. */
module Wire {
  import opened Records
  import opened Text

  datatype SendOutcome = Takes(n: nat) | Fails

  /** One end of a connection, as the socket calls show it. */
  class Socket {
    var incoming: seq<char>       // sent by the peer and not yet received
    const broken: bool            // whether the end of `incoming` is an error or an orderly close
    var outgoing: seq<char>       // handed to the network so far
    var schedule: seq<SendOutcome> // how much each coming `send` accepts; everything once it is used up

    constructor (incoming: seq<char>, broken: bool, schedule: seq<SendOutcome>)
      ensures this.incoming == incoming && this.broken == broken
      ensures this.schedule == schedule && outgoing == []
    {
      this.incoming, this.broken, this.schedule, outgoing := incoming, broken, schedule, [];
    }

    method Recv() returns (n: int, c: char)
      modifies this`incoming
      ensures old(incoming) != [] ==> n == 1 && c == old(incoming)[0] && incoming == old(incoming)[1..]
      ensures old(incoming) == [] ==> n == (if broken then -1 else 0) && incoming == []
    {
      if incoming == [] {
        return if broken then -1 else 0, NUL;
      }
      n, c, incoming := 1, incoming[0], incoming[1..];
    }

    method Send(bytes: seq<char>) returns (n: int)
      requires bytes != []
      modifies this`outgoing, this`schedule
      ensures n == -1 || 1 <= n <= |bytes|
      ensures outgoing == old(outgoing) + if n < 0 then [] else bytes[..n]
      ensures n == -1 ==> Fails in old(schedule)
      ensures schedule == if old(schedule) == [] then [] else old(schedule)[1..]
    {
      n := |bytes|;
      if schedule != [] {
        match schedule[0] {
          case Fails => n := -1;
          case Takes(k) => n := if k == 0 then 1 else if k < |bytes| then k else |bytes|;
        }
        schedule := schedule[1..];
      }
      outgoing := outgoing + if n < 0 then [] else bytes[..n];
    }
  }

  datatype Reading = Reading(n: int, text: string, rest: seq<char>)

  /** What one `recv_line` into a buffer of `size` bytes returns, stores and leaves, after `got`. */
  function Read(s: seq<char>, got: string, size: nat, broken: bool): (r: Reading)
    ensures |r.rest| <= |s| && r.n <= |r.text|
    decreases |s|
  {
    if |got| + 1 >= size then Reading(|got|, got, s)
    else if s == [] then
      if broken then Reading(-1, "", []) else Reading(|got|, got, [])
    else if s[0] == '\n' then Reading(|got|, got, s[1..])
    else if s[0] == '\r' then Read(s[1..], got, size, broken)
    else Read(s[1..], got + [s[0]], size, broken)
  }

  method RecvLine(sock: Socket, buf: array<char>) returns (n: int)
    requires buf.Length > 0
    modifies sock`incoming, buf
    ensures var r := Read(old(sock.incoming), "", buf.Length, sock.broken);
            && n == r.n && sock.incoming == r.rest
            && (n > 0 ==> n < buf.Length && buf[..n] == r.text && buf[n] == NUL)
  {
    var i := 0;
    while i < buf.Length - 1
      invariant 0 <= i < buf.Length
      invariant Read(sock.incoming, buf[..i], buf.Length, sock.broken)
             == Read(old(sock.incoming), "", buf.Length, sock.broken)
      decreases |sock.incoming|, buf.Length - i
    {
      ghost var s, got := sock.incoming, buf[..i];
      var k, c := sock.Recv();
      if k < 0 {
        return -1;
      }
      if k == 0 {
        if i == 0 {
          return 0;
        }
        break;
      }
      if c == '\n' {
        break;
      }
      if c != '\r' {
        buf[i] := c;
        assert buf[..i + 1] == got + [c];
        i := i + 1;
      }
    }
    buf[i] := NUL;
    return i;
  }

  /** `send_line` of a C string; -1 when the line does not fit its buffer or a `send` fails. */
  method SendLine(sock: Socket, message: string) returns (status: int)
    modifies sock`outgoing, sock`schedule
    ensures status == 0 || status == -1
    ensures status == 0 ==> sock.outgoing == old(sock.outgoing) + message + "\n"
    ensures status == -1 ==>
      exists k :: 0 <= k <= |message| && sock.outgoing == old(sock.outgoing) + (message + "\n")[..k]
    ensures |message| + 1 >= BUFFER_SIZE ==> status == -1 && sock.outgoing == old(sock.outgoing)
    ensures |message| + 1 < BUFFER_SIZE && Fails !in old(sock.schedule) ==> status == 0
    ensures Fails !in old(sock.schedule) ==> Fails !in sock.schedule
  {
    var buf := message + "\n";
    if |buf| >= BUFFER_SIZE {
      assert old(sock.outgoing) + buf[..0] == old(sock.outgoing);
      return -1;
    }
    var total := 0;
    while total < |buf|
      invariant 0 <= total <= |buf|
      invariant sock.outgoing == old(sock.outgoing) + buf[..total]
      invariant forall o :: o in sock.schedule ==> o in old(sock.schedule)
    {
      var sent := sock.Send(buf[total..]);
      if sent < 0 {
        return -1;
      }
      assert buf[..total] + buf[total..][..sent] == buf[..total + sent];
      total := total + sent;
    }
    assert buf[..total] == buf;
    return 0;
  }

  // What the two ends agree on

  predicate NoEol(s: string) {
    forall i :: 0 <= i < |s| ==> s[i] != '\r' && s[i] != '\n'
  }

  lemma {:induction false} ReadText(m: string, tail: seq<char>, got: string, size: nat, broken: bool)
    requires NoEol(m) && |got| + |m| + 1 <= size
    ensures Read(m + tail, got, size, broken) == Read(tail, got + m, size, broken)
    decreases |m|
  {
    if m == "" {
      assert m + tail == tail && got + m == got;
    } else {
      ReadText(m[1..], tail, got + [m[0]], size, broken);
      assert (m + tail)[1..] == m[1..] + tail && got + [m[0]] + m[1..] == got + m;
    }
  }

  /** One `recv_line` recovers one sent line, and only that, exactly when `send_line` accepts it. */
  lemma RecvRecoversSent(m: string, rest: seq<char>, broken: bool)
    requires NoEol(m)
    ensures Read(m + "\n" + rest, "", BUFFER_SIZE, broken) == Reading(|m|, m, rest) <==> |m| + 1 < BUFFER_SIZE
  {
    assert m + "\n" + rest == m + ("\n" + rest) && "" + m == m;
    if |m| + 1 <= BUFFER_SIZE {
      ReadText(m, "\n" + rest, "", BUFFER_SIZE, broken);
    } else {
      var head := m[..BUFFER_SIZE - 1];
      var tail := m[BUFFER_SIZE - 1..] + ("\n" + rest);
      assert m + ("\n" + rest) == head + tail && "" + head == head;
      ReadText(head, tail, "", BUFFER_SIZE, broken);
    }
  }

  // Resplitting an arbitrary stream

  function StripEol(s: seq<char>): string {
    if s == [] then ""
    else (if s[0] == '\r' || s[0] == '\n' then "" else [s[0]]) + StripEol(s[1..])
  }

  lemma {:induction false} ReadShape(s: seq<char>, got: string, size: nat)
    requires |got| < size && NoEol(got)
    ensures var r := Read(s, got, size, false); r.n == |r.text| < size && NoEol(r.text)
    ensures s != [] && |got| + 1 < size ==> |Read(s, got, size, false).rest| < |s|
    decreases |s|
  {
    if s != [] && s[0] != '\n' && |got| + 1 < size {
      ReadShape(s[1..], if s[0] == '\r' then got else got + [s[0]], size);
    }
  }

  lemma {:induction false} ReadKeeps(s: seq<char>, got: string, size: nat)
    requires |got| < size
    ensures var r := Read(s, got, size, false); r.text + StripEol(r.rest) == got + StripEol(s)
    decreases |s|
  {
    hide StripEol;
    if s != [] && |got| + 1 < size {
      StripStep(s, got);
      if s[0] != '\n' {
        ReadKeeps(s[1..], if s[0] == '\r' then got else got + [s[0]], size);
      }
    }
  }

  lemma StripStep(s: seq<char>, got: string)
    requires s != []
    ensures got + StripEol(s) == (if s[0] == '\r' || s[0] == '\n' then got else got + [s[0]]) + StripEol(s[1..])
  {
    Regroup(got, s[0], StripEol(s[1..]));
  }

  lemma Regroup(got: string, c: char, rest: string)
    ensures got + ([c] + rest) == got + [c] + rest && "" + rest == rest
  {
  }

  /** The texts successive `recv_line` calls store until the stream is exhausted. */
  function Pieces(s: seq<char>, size: nat): seq<string>
    requires size >= 2
    decreases |s|
  {
    if s == [] then []
    else
      ReadShape(s, "", size);
      var r := Read(s, "", size, false);
      [r.text] + Pieces(r.rest, size)
  }

  /** Resplitting loses nothing but the CR and LF bytes. */
  lemma {:induction false} PiecesKeepStream(s: seq<char>, size: nat)
    requires size >= 2
    ensures Concat(Pieces(s, size)) == StripEol(s)
    decreases |s|
  {
    if s != [] {
      hide Read, StripEol;
      ReadShape(s, "", size);
      ReadKeeps(s, "", size);
      var r := Read(s, "", size, false);
      PiecesKeepStream(r.rest, size);
      ConcatCons(r.text, Pieces(r.rest, size));
      assert "" + StripEol(s) == StripEol(s);
    }
  }

  /** Every piece fits the buffer and holds no line end. */
  lemma {:induction false} PiecesFit(s: seq<char>, size: nat)
    requires size >= 2
    ensures forall k :: 0 <= k < |Pieces(s, size)| ==> |Pieces(s, size)[k]| < size && NoEol(Pieces(s, size)[k])
    decreases |s|
  {
    if s != [] {
      ReadShape(s, "", size);
      PiecesFit(Read(s, "", size, false).rest, size);
    }
  }

  // Commands over the wire

  /** The token lists a session reads before a zero or negative `recv_line`. */
  function Commands(s: seq<char>, broken: bool): seq<seq<string>>
    decreases |s|
  {
    var r := Read(s, "", BUFFER_SIZE, broken);
    if r.n <= 0 then []
    else
      ReadProgress(s, "", BUFFER_SIZE, broken);
      [Tokens(CStringAt(r.text, 0))] + Commands(r.rest, broken)
  }

  lemma {:induction false} ReadProgress(s: seq<char>, got: string, size: nat, broken: bool)
    requires |got| + 1 < size && Read(s, got, size, broken).n > |got|
    ensures |Read(s, got, size, broken).rest| < |s|
    decreases |s|
  {
    if s != [] && s[0] == '\r' {
      ReadProgress(s[1..], got, size, broken);
    }
  }

  function Line(cmd: seq<string>): seq<char> {
    Join(cmd) + "\n"
  }

  function Stream(cmds: seq<seq<string>>): seq<char> {
    if cmds == [] then [] else Line(cmds[0]) + Stream(cmds[1..])
  }

  lemma {:induction false} StreamConcat(a: seq<seq<string>>, b: seq<seq<string>>)
    ensures Stream(a + b) == Stream(a) + Stream(b)
    decreases |a|
  {
    if a == [] {
      assert a + b == b;
    } else {
      hide Line;
      StreamConcat(a[1..], b);
      assert (a + b)[1..] == a[1..] + b;
      hide Stream;
      assert Line(a[0]) + (Stream(a[1..]) + Stream(b)) == Line(a[0]) + Stream(a[1..]) + Stream(b);
    }
  }

  lemma StreamSnoc(a: seq<seq<string>>, cmd: seq<string>)
    ensures Stream(a + [cmd]) == Stream(a) + Line(cmd)
  {
    StreamConcat(a, [cmd]);
    assert Stream([cmd]) == Line(cmd) + [];
  }

  /** A command whose words survive the wire and whose line `send_line` would accept. */
  ghost predicate Sendable(cmd: seq<string>) {
    && 0 < |cmd| <= 8 && (forall k :: 0 <= k < |cmd| ==> Word(cmd[k]))
    && |Join(cmd)| + 1 < BUFFER_SIZE
  }

  lemma ReadCommand(cmd: seq<string>, rest: seq<char>, broken: bool)
    requires Sendable(cmd)
    ensures var r := Read(Line(cmd) + rest, "", BUFFER_SIZE, broken);
            && r == Reading(|Join(cmd)|, Join(cmd), rest) && r.n > 0
            && Tokens(CStringAt(r.text, 0)) == cmd
  {
    var m := Join(cmd);
    JoinClean(cmd);
    RecvRecoversSent(m, rest, broken);
    CStringIs(m, 0, |m|);
    assert m[0..|m|] == m;
    TokensOfJoin(cmd, 8);
  }

  lemma CommandsCons(cmd: seq<string>, rest: seq<char>, broken: bool)
    requires Sendable(cmd)
    ensures Commands(Line(cmd) + rest, broken) == [cmd] + Commands(rest, broken)
  {
    hide Read, Tokens, Line;
    ReadCommand(cmd, rest, broken);
  }

  /** Back-to-back commands arrive with their original words, in order. */
  lemma {:induction false} CommandsRoundTrip(cmds: seq<seq<string>>)
    requires forall k :: 0 <= k < |cmds| ==> Sendable(cmds[k])
    ensures Commands(Stream(cmds), false) == cmds
    decreases |cmds|
  {
    hide Commands, Line, Sendable;
    if cmds == [] {
      assert Commands([], false) == [] by { NothingSent(); }
    } else {
      CommandsCons(cmds[0], Stream(cmds[1..]), false);
      CommandsRoundTrip(cmds[1..]);
      assert cmds == [cmds[0]] + cmds[1..];
    }
  }

  lemma NothingSent()
    ensures Commands([], false) == []
  {
    assert Read([], "", BUFFER_SIZE, false).n == 0;
  }

  lemma StreamHead(cmds: seq<seq<string>>, tail: seq<char>)
    requires cmds != []
    ensures Stream(cmds) + tail == Line(cmds[0]) + (Stream(cmds[1..]) + tail)
  {
    hide Line;
  }

  // What the session makes of any line

  predicate NoLf(s: seq<char>) {
    '\n' !in s
  }

  function WithoutCr(s: seq<char>): string {
    if s == [] then "" else (if s[0] == '\r' then "" else [s[0]]) + WithoutCr(s[1..])
  }

  lemma {:induction false} ReadShortLine(l: seq<char>, tail: seq<char>, got: string, size: nat, broken: bool)
    requires NoLf(l) && |got| + |WithoutCr(l)| + 1 < size
    ensures Read(l + tail, got, size, broken) == Read(tail, got + WithoutCr(l), size, broken)
    decreases |l|
  {
    if l == [] {
      assert l + tail == tail && got + "" == got;
    } else {
      assert (l + tail)[1..] == l[1..] + tail;
      if l[0] == '\r' {
        assert WithoutCr(l) == WithoutCr(l[1..]);
        ReadShortLine(l[1..], tail, got, size, broken);
      } else {
        ReadShortLine(l[1..], tail, got + [l[0]], size, broken);
        assert got + [l[0]] + WithoutCr(l[1..]) == got + WithoutCr(l);
      }
    }
  }

  /** A line that fills the buffer is cut there; `p` is where the next read starts. */
  lemma {:induction false} ReadLongLine(l: seq<char>, tail: seq<char>, got: string, size: nat, broken: bool)
    returns (p: nat)
    requires NoLf(l) && |got| + 1 < size <= |got| + |WithoutCr(l)| + 1
    ensures p <= |l| && WithoutCr(l[p..]) == WithoutCr(l)[size - 1 - |got|..]
    ensures Read(l + tail, got, size, broken)
         == Reading(size - 1, got + WithoutCr(l)[..size - 1 - |got|], l[p..] + tail)
    decreases |l|
  {
    assert (l + tail)[1..] == l[1..] + tail;
    if l[0] == '\r' {
      assert WithoutCr(l) == WithoutCr(l[1..]);
      p := ReadLongLine(l[1..], tail, got, size, broken);
      p := p + 1;
    } else if |got| + 2 == size {
      p := 1;
      assert WithoutCr(l)[..1] == [l[0]] && WithoutCr(l)[1..] == WithoutCr(l[1..]);
      assert Read(l + tail, got, size, broken) == Read(l[1..] + tail, got + [l[0]], size, broken);
    } else {
      var text, text1 := WithoutCr(l), WithoutCr(l[1..]);
      p := ReadLongLine(l[1..], tail, got + [l[0]], size, broken);
      p := p + 1;
      var n := size - 1 - |got|;
      assert got + [l[0]] + text1[..n - 1] == got + text[..n] && text1[n - 1..] == text[n..];
    }
  }

  /** The token lists that one line is read as: it is cut wherever the buffer is full. */
  function Chunks(text: string): seq<seq<string>>
    decreases |text|
  {
    if text == "" then []
    else if |text| < BUFFER_SIZE then [Tokens(CStringAt(text, 0))]
    else [Tokens(CStringAt(text[..BUFFER_SIZE - 1], 0))] + Chunks(text[BUFFER_SIZE - 1..])
  }

  /** Nothing of the line is left for a read to find blank. */
  predicate Passable(l: seq<char>) {
    |WithoutCr(l)| % (BUFFER_SIZE - 1) != 0
  }

  /**
   A line ends the session exactly when its length, CRs apart, is a multiple of what the buffer holds: a
   blank line is, and so is one that fills the buffer. What it holds is read as commands either way.
   */
  lemma {:induction false} LineRead(l: seq<char>, rest: seq<char>, broken: bool)
    requires NoLf(l)
    ensures Commands(l + "\n" + rest, broken)
         == Chunks(WithoutCr(l)) + if Passable(l) then Commands(rest, broken) else []
    decreases |WithoutCr(l)|
  {
    var text, tail := WithoutCr(l), "\n" + rest;
    hide Tokens, CStringAt, Read, WithoutCr, Commands, Chunks;
    assert l + "\n" + rest == l + tail;
    if |text| + 1 < BUFFER_SIZE {
      ShortLine(l, rest, broken);
    } else {
      var p := ReadLongLine(l, tail, "", BUFFER_SIZE, broken);
      var n := BUFFER_SIZE - 1;
      assert "" + text[..n] == text[..n];
      LineRead(l[p..], rest, broken);
      assert l[p..] + "\n" + rest == l[p..] + tail;
      assert (|text| - n) % n == |text| % n;
      LongLine(l, tail, l[p..] + tail, text, broken);
    }
  }

  lemma ShortLine(l: seq<char>, rest: seq<char>, broken: bool)
    requires NoLf(l) && |WithoutCr(l)| + 1 < BUFFER_SIZE
    ensures Commands(l + ("\n" + rest), broken)
         == Chunks(WithoutCr(l)) + if WithoutCr(l) != "" then Commands(rest, broken) else []
  {
    var text, tail := WithoutCr(l), "\n" + rest;
    ReadShortLine(l, tail, "", BUFFER_SIZE, broken);
    assert "" + text == text;
    assert Read(tail, text, BUFFER_SIZE, broken) == Reading(|text|, text, rest) by {
      assert tail[1..] == rest;
    }
    hide Tokens, CStringAt, Read, WithoutCr;
  }

  lemma LongLine(l: seq<char>, tail: seq<char>, next: seq<char>, text: string, broken: bool)
    requires |text| + 1 >= BUFFER_SIZE
    requires Read(l + tail, "", BUFFER_SIZE, broken) == Reading(BUFFER_SIZE - 1, text[..BUFFER_SIZE - 1], next)
    ensures Commands(l + tail, broken) == [Tokens(CStringAt(text[..BUFFER_SIZE - 1], 0))] + Commands(next, broken)
    ensures Chunks(text) == [Tokens(CStringAt(text[..BUFFER_SIZE - 1], 0))] + Chunks(text[BUFFER_SIZE - 1..])
  {
    hide Read, Tokens, CStringAt;
    if |text| < BUFFER_SIZE {
      assert text[..BUFFER_SIZE - 1] == text && text[BUFFER_SIZE - 1..] == "";
    }
  }

  function LineStream(lines: seq<seq<char>>): seq<char> {
    if lines == [] then [] else lines[0] + "\n" + LineStream(lines[1..])
  }

  /** The commands in the lines up to and including the first that ends the session. */
  function UpToBlank(lines: seq<seq<char>>): seq<seq<string>> {
    if lines == [] then []
    else Chunks(WithoutCr(lines[0])) + if Passable(lines[0]) then UpToBlank(lines[1..]) else []
  }

  lemma {:induction false} LinesRead(lines: seq<seq<char>>, rest: seq<char>, broken: bool)
    requires forall k :: 0 <= k < |lines| ==> NoLf(lines[k])
    ensures Commands(LineStream(lines) + rest, broken)
         == UpToBlank(lines) + if AllPassable(lines) then Commands(rest, broken) else []
    decreases |lines|
  {
    hide Commands, Chunks, Passable, NoLf, AllPassable;
    PassableHead(lines);
    if lines == [] {
      assert LineStream(lines) + rest == rest;
    } else {
      LinesRead(lines[1..], rest, broken);
      LineRead(lines[0], LineStream(lines[1..]) + rest, broken);
      assert LineStream(lines) + rest == lines[0] + "\n" + (LineStream(lines[1..]) + rest);
      var here, there := Chunks(WithoutCr(lines[0])), UpToBlank(lines[1..]);
      assert here + (there + Commands(rest, broken)) == here + there + Commands(rest, broken);
    }
  }

  ghost predicate AllPassable(lines: seq<seq<char>>) {
    forall k :: 0 <= k < |lines| ==> Passable(lines[k])
  }

  lemma PassableHead(lines: seq<seq<char>>)
    ensures AllPassable(lines) <==> (lines == [] || (Passable(lines[0]) && AllPassable(lines[1..])))
  {
    hide Passable;
    if lines != [] && Passable(lines[0]) && AllPassable(lines[1..]) {
      forall k | 0 <= k < |lines| ensures Passable(lines[k]) {
        if k > 0 {
          assert lines[k] == lines[1..][k - 1];
        }
      }
    }
  }

  /** A session gets past a list of lines, whatever comes after them, if and only if none of them ends it. */
  lemma ReadsPastLines(lines: seq<seq<char>>, broken: bool)
    requires forall k :: 0 <= k < |lines| ==> NoLf(lines[k])
    ensures (forall rest :: Commands(LineStream(lines) + rest, broken) == UpToBlank(lines) + Commands(rest, broken))
       <==> AllPassable(lines)
  {
    hide Commands, AllPassable, UpToBlank, LineStream, Line, NoLf;
    if AllPassable(lines) {
      forall rest ensures Commands(LineStream(lines) + rest, broken) == UpToBlank(lines) + Commands(rest, broken) {
        LinesRead(lines, rest, broken);
      }
    } else {
      var more := Line(["PING"]);
      PingIsRead(broken);
      LinesRead(lines, more, broken);
      assert |Commands(LineStream(lines) + more, broken)| == |UpToBlank(lines)|;
    }
  }

  lemma PingIsRead(broken: bool)
    ensures Commands(Line(["PING"]), broken) != []
  {
    hide Commands;
    assert Join(["PING"]) == "PING";
    CommandsCons(["PING"], [], broken);
    assert Line(["PING"]) + [] == Line(["PING"]);
  }

  /** So a blank line, with or without CRs, ends it: nothing the peer sends after it is read as a command. */
  lemma {:induction false} BlankLineEnds(cmds: seq<seq<string>>, blank: seq<char>, rest: seq<char>, broken: bool)
    requires forall k :: 0 <= k < |cmds| ==> Sendable(cmds[k])
    requires forall i :: 0 <= i < |blank| ==> blank[i] == '\r'
    ensures Commands(Stream(cmds) + (blank + "\n" + rest), broken) == cmds
    decreases |cmds|
  {
    hide Commands, Line, Sendable;
    if cmds == [] {
      OnlyCr(blank);
      LineRead(blank, rest, broken);
      assert Stream(cmds) + (blank + "\n" + rest) == blank + "\n" + rest;
    } else {
      CommandsCons(cmds[0], Stream(cmds[1..]) + (blank + "\n" + rest), broken);
      BlankLineEnds(cmds[1..], blank, rest, broken);
      StreamHead(cmds, blank + "\n" + rest);
      assert cmds == [cmds[0]] + cmds[1..];
    }
  }

  lemma {:induction false} OnlyCr(blank: seq<char>)
    requires forall i :: 0 <= i < |blank| ==> blank[i] == '\r'
    ensures WithoutCr(blank) == ""
  {
    if blank != [] {
      OnlyCr(blank[1..]);
    }
  }

  /** What of an unterminated last line still becomes commands: on an error, only the pieces that filled the buffer. */
  function Delivered(text: string, broken: bool): string {
    if broken then text[..|text| - |text| % 4095] else text
  }

  /**
   A line that the end of the stream cuts off. After an orderly close it is read like any other; after an
   error the part of it that has not filled the buffer is dropped.
   */
  lemma {:induction false} LastLine(l: seq<char>, broken: bool)
    requires NoLf(l)
    ensures Commands(l, broken) == Chunks(Delivered(WithoutCr(l), broken))
    decreases |WithoutCr(l)|
  {
    var text := WithoutCr(l);
    hide Tokens, CStringAt, Read, WithoutCr, Commands, Chunks;
    assert l + [] == l;
    if |text| < 4095 {
      ShortLastLine(l, broken);
    } else {
      var p := ReadLongLine(l, [], "", BUFFER_SIZE, broken);
      assert l[p..] + [] == l[p..] && "" + text[..4095] == text[..4095];
      LastLine(l[p..], broken);
      LongLine(l, [], l[p..], text, broken);
      DeliveredHead(text, broken);
      ChunksCons(Delivered(text, broken));
    }
  }

  lemma DeliveredHead(text: string, broken: bool)
    requires |text| >= 4095
    ensures var d := Delivered(text, broken);
            |d| >= 4095 && d[..4095] == text[..4095] && d[4095..] == Delivered(text[4095..], broken)
  {
    var k := |text| % 4095;
    assert (|text| - 4095) % 4095 == k;
    assert text[..|text| - k][4095..] == text[4095..][..|text| - 4095 - k];
  }

  lemma ChunksCons(text: string)
    requires |text| >= 4095
    ensures Chunks(text) == [Tokens(CStringAt(text[..4095], 0))] + Chunks(text[4095..])
  {
    hide Tokens, CStringAt;
    if |text| == 4095 {
      assert text[..4095] == text;
    }
  }

  lemma ShortLastLine(l: seq<char>, broken: bool)
    requires NoLf(l) && |WithoutCr(l)| < 4095
    ensures Commands(l, broken) == Chunks(if broken then "" else WithoutCr(l))
  {
    var text := WithoutCr(l);
    ReadShortLine(l, [], "", BUFFER_SIZE, broken);
    assert l + [] == l && "" + text == text;
    assert Read([], text, BUFFER_SIZE, broken) == if broken then Reading(-1, "", []) else Reading(|text|, text, []);
    hide Tokens, CStringAt, Read, WithoutCr;
    if !broken && text != "" {
      assert Commands([], broken) == [] by { NothingMore(broken); }
    }
  }

  lemma NothingMore(broken: bool)
    ensures Commands([], broken) == []
  {
    assert Read([], "", BUFFER_SIZE, broken).n <= 0;
  }

  /**
   So after any lines that do not end the session a last line shorter than the buffer yields a command if and
   only if the end is an orderly close.
   */
  lemma LastLineCounts(lines: seq<seq<char>>, l: seq<char>, broken: bool)
    requires (forall k :: 0 <= k < |lines| ==> NoLf(lines[k])) && AllPassable(lines)
    requires NoLf(l) && 0 < |WithoutCr(l)| < 4095
    ensures Commands(LineStream(lines) + l, broken)
         == UpToBlank(lines) + if broken then [] else [Tokens(CStringAt(WithoutCr(l), 0))]
  {
    hide Commands, AllPassable, UpToBlank, LineStream, NoLf, WithoutCr, Tokens, CStringAt;
    LinesRead(lines, l, broken);
    LastLine(l, broken);
  }
}
