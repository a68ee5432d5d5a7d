/**
 Any number of connections whose peers send arbitrary bytes, interleaved in every way: each connection
 answers its own lines, one by one and in order, whatever the others do.
 */
module Peers {
  import opened Records
  import opened Text
  import opened Wire
  import opened Server
  import opened Session

  /** All that a peer ever sends, and whether the connection then breaks or is closed in order. */
  datatype Peer = Peer(stream: seq<char>, broken: bool)

  /** `rest` is what the server has not read yet. */
  datatype Traffic = Traffic(sys: System, rest: seq<seq<char>>, begun: seq<bool>)

  datatype Happening = Open(k: nat) | Go(k: nat)

  /** One event: a connection opens, or its thread reads a line or takes its next step. */
  function Happen(cfg: Config, peers: seq<Peer>, w: Traffic, e: Happening): (w': Traffic)
    requires |w.rest| == |w.begun| == |w.sys.threads| == |peers|
    ensures |w'.rest| == |w'.begun| == |w'.sys.threads| == |peers|
  {
    var k := e.k;
    if k >= |peers| then w
    else if e.Open? then
      if w.begun[k] then w else w.(sys := Step(cfg, w.sys, Connect(k)), begun := w.begun[k := true])
    else
      var pc := w.sys.threads[k].pc;
      if pc.Closed? then w
      else if pc.Idle? then
        var r := Read(w.rest[k], "", BUFFER_SIZE, peers[k].broken);
        var l := if r.n <= 0 then Hangup(k) else Receive(k, Tokens(CStringAt(r.text, 0)));
        w.(sys := Step(cfg, w.sys, l), rest := w.rest[k := r.rest])
      else w.(sys := Step(cfg, w.sys, Run(k)))
  }

  function HappenAll(cfg: Config, peers: seq<Peer>, w: Traffic, es: seq<Happening>): (w': Traffic)
    requires |w.rest| == |w.begun| == |w.sys.threads| == |peers|
    ensures |w'.rest| == |w'.begun| == |w'.sys.threads| == |peers|
    decreases |es|
  {
    if es == [] then w else HappenAll(cfg, peers, Happen(cfg, peers, w, es[0]), es[1..])
  }

  function Quiescent(peers: seq<Peer>): Traffic {
    Traffic(Init(|peers|), seq(|peers|, k requires 0 <= k < |peers| => peers[k].stream), seq(|peers|, _ => false))
  }

  /** The commands answered on connection `k`, in order. */
  function AnsweredOn(answers: seq<Answer>, k: nat): seq<seq<string>> {
    if answers == [] then []
    else
      var a := answers[|answers| - 1];
      AnsweredOn(answers[..|answers| - 1], k) + if a.thread == k then [a.cmd] else []
  }

  /** What the server owes a peer: the commands in its lines, up to the first well-formed QUIT. */
  function Owing(peer: Peer): seq<seq<string>> {
    UpToQuit(Commands(peer.stream, peer.broken))
  }

  /** How far connection `k` has come with what its peer sent. */
  ghost predicate PeerOk(peer: Peer, t: Thread, rest: seq<char>, begun: bool, done: seq<seq<string>>) {
    var later := UpToQuit(Commands(rest, peer.broken));
    if !begun then t.pc.Closed? && rest == peer.stream && done == []
    else
      match t.pc
      case Closed => done == Owing(peer)
      case Idle => done + later == Owing(peer)
      case _ =>
        && done + [t.cmd] + (if EndsSession(t.cmd) then [] else later) == Owing(peer)
        && (EndsSession(t.cmd) <==> Ending(t.pc))
  }

  predicate Ending(pc: Pc) {
    pc.AtDeactivate? || pc == AtReply(Bye)
  }

  ghost predicate PeersOk(cfg: Config, peers: seq<Peer>, w: Traffic) {
    && |w.rest| == |w.begun| == |w.sys.threads| == |peers|
    && (forall k :: 0 <= k < |peers| ==>
          PeerOk(peers[k], w.sys.threads[k], w.rest[k], w.begun[k], AnsweredOn(w.sys.answers, k)))
    && (forall i :: 0 <= i < |w.sys.answers| ==> (w.sys.answers[i].reply == Bye <==> EndsSession(w.sys.answers[i].cmd)))
  }

  lemma AnsweredSnoc(answers: seq<Answer>, a: Answer, k: nat)
    ensures AnsweredOn(answers + [a], k) == AnsweredOn(answers, k) + if a.thread == k then [a.cmd] else []
  {
    assert (answers + [a])[..|answers|] == answers;
  }

  lemma DispatchEnds(tokens: seq<string>)
    ensures Serving(Dispatch(tokens)) && (EndsSession(tokens) <==> Ending(Dispatch(tokens)))
  {
  }

  lemma SectionEnds(cfg: Config, s: System, k: nat)
    requires k < |s.threads| && Working(s.threads[k].pc)
    ensures var s' := Step(cfg, s, Run(k));
            && s'.answers == s.answers && s'.threads == s.threads[k := s.threads[k].(pc := s'.threads[k].pc)]
            && Serving(s'.threads[k].pc) && (Ending(s'.threads[k].pc) <==> Ending(s.threads[k].pc))
  {
    hide Committed;
  }

  lemma ReplyStep(cfg: Config, s: System, k: nat)
    requires k < |s.threads| && s.threads[k].pc.AtReply?
    ensures var s', t := Step(cfg, s, Run(k)), s.threads[k];
            && s'.answers == s.answers + [Answer(k, t.cmd, t.pc.reply)]
            && s'.threads == s.threads[k := Thread(if t.pc.reply == Bye then Closed else Idle, [])]
  {
    hide Section, Committed;
  }

  // One event

  lemma OpenOk(cfg: Config, peer: Peer, t: Thread, rest: seq<char>)
    requires PeerOk(peer, t, rest, false, [])
    ensures PeerOk(peer, Thread(Idle, []), rest, true, [])
  {
    hide Commands, UpToQuit;
    assert [] + Owing(peer) == Owing(peer);
  }

  lemma ReadOk(cfg: Config, peer: Peer, rest: seq<char>, done: seq<seq<string>>, t: Thread)
    requires PeerOk(peer, t, rest, true, done) && t.pc.Idle?
    ensures var r := Read(rest, "", BUFFER_SIZE, peer.broken);
            var cmd := Tokens(CStringAt(r.text, 0));
            if r.n <= 0 then PeerOk(peer, Thread(Closed, []), r.rest, true, done)
            else PeerOk(peer, Thread(Dispatch(cmd), cmd), r.rest, true, done)
  {
    hide Read, Tokens, Commands, UpToQuit, EndsSession, Dispatch;
    NextCommand(rest, peer.broken);
    var r := Read(rest, "", BUFFER_SIZE, peer.broken);
    if r.n <= 0 {
      assert done + [] == done;
    } else {
      var cmd := Tokens(CStringAt(r.text, 0));
      DispatchEnds(cmd);
      var more := if EndsSession(cmd) then [] else UpToQuit(Commands(r.rest, peer.broken));
      assert done + ([cmd] + more) == done + [cmd] + more;
    }
  }

  lemma ReplyOk(peer: Peer, t: Thread, rest: seq<char>, done: seq<seq<string>>)
    requires PeerOk(peer, t, rest, true, done) && t.pc.AtReply?
    ensures t.pc.reply == Bye <==> EndsSession(t.cmd)
    ensures PeerOk(peer, Thread(if t.pc.reply == Bye then Closed else Idle, []), rest, true, done + [t.cmd])
  {
    hide Commands, UpToQuit, EndsSession;
    assert done + [t.cmd] + [] == done + [t.cmd];
  }

  lemma WorkOk(peer: Peer, t: Thread, rest: seq<char>, done: seq<seq<string>>, pc': Pc)
    requires PeerOk(peer, t, rest, true, done) && Working(t.pc) && Serving(pc') && (Ending(pc') <==> Ending(t.pc))
    ensures PeerOk(peer, t.(pc := pc'), rest, true, done)
  {
    hide Commands, UpToQuit, EndsSession;
  }

  /** Only connection `k` has moved, and it has been answered `more`. */
  ghost predicate MovedOnly(w: Traffic, w': Traffic, k: nat, more: seq<Answer>) {
    && k < |w.rest| == |w.begun| == |w.sys.threads| == |w'.rest| == |w'.begun| == |w'.sys.threads|
    && (forall j :: 0 <= j < |w.rest| && j != k ==>
          w'.rest[j] == w.rest[j] && w'.begun[j] == w.begun[j] && w'.sys.threads[j] == w.sys.threads[j])
    && w'.sys.answers == w.sys.answers + more && |more| <= 1
    && forall i :: 0 <= i < |more| ==> more[i].thread == k && (more[i].reply == Bye <==> EndsSession(more[i].cmd))
  }

  lemma MovedKeeps(cfg: Config, peers: seq<Peer>, w: Traffic, w': Traffic, k: nat, more: seq<Answer>)
    requires PeersOk(cfg, peers, w) && MovedOnly(w, w', k, more)
    requires PeerOk(peers[k], w'.sys.threads[k], w'.rest[k], w'.begun[k], AnsweredOn(w'.sys.answers, k))
    ensures PeersOk(cfg, peers, w')
  {
    hide PeerOk, EndsSession, AnsweredOn;
    forall j | 0 <= j < |peers|
      ensures PeerOk(peers[j], w'.sys.threads[j], w'.rest[j], w'.begun[j], AnsweredOn(w'.sys.answers, j))
    {
      if j != k {
        assert AnsweredOn(w'.sys.answers, j) == AnsweredOn(w.sys.answers, j) by {
          if more == [] {
            assert w.sys.answers + more == w.sys.answers;
          } else {
            assert more == [more[0]];
            AnsweredSnoc(w.sys.answers, more[0], j);
            assert AnsweredOn(w.sys.answers, j) + [] == AnsweredOn(w.sys.answers, j);
          }
        }
      }
    }
  }

  lemma HappenKeeps(cfg: Config, peers: seq<Peer>, w: Traffic, e: Happening)
    requires PeersOk(cfg, peers, w)
    ensures PeersOk(cfg, peers, Happen(cfg, peers, w, e))
  {
    var k, w' := e.k, Happen(cfg, peers, w, e);
    if k < |peers| && w' != w {
      assert PeerOk(peers[k], w.sys.threads[k], w.rest[k], w.begun[k], AnsweredOn(w.sys.answers, k));
      if e.Open? {
        OpenKeeps(cfg, peers, w, k);
      } else {
        BegunIfBusy(peers[k], w.sys.threads[k], w.rest[k], w.begun[k], AnsweredOn(w.sys.answers, k));
        if w.sys.threads[k].pc.Idle? {
          ReadKeeps(cfg, peers, w, k);
        } else if w.sys.threads[k].pc.AtReply? {
          ReplyKeeps(cfg, peers, w, k);
        } else {
          WorkKeeps(cfg, peers, w, k);
        }
      }
    }
  }

  lemma BegunIfBusy(peer: Peer, t: Thread, rest: seq<char>, begun: bool, done: seq<seq<string>>)
    requires PeerOk(peer, t, rest, begun, done) && !t.pc.Closed?
    ensures begun
  {
  }

  lemma OpenKeeps(cfg: Config, peers: seq<Peer>, w: Traffic, k: nat)
    requires PeersOk(cfg, peers, w) && k < |peers| && !w.begun[k]
    ensures PeersOk(cfg, peers, Happen(cfg, peers, w, Open(k)))
  {
    var w' := Happen(cfg, peers, w, Open(k));
    assert w.sys.answers + [] == w.sys.answers;
    assert PeerOk(peers[k], w.sys.threads[k], w.rest[k], false, AnsweredOn(w.sys.answers, k));
    OpenOk(cfg, peers[k], w.sys.threads[k], w.rest[k]);
    hide PeerOk, PeersOk;
    MovedKeeps(cfg, peers, w, w', k, []);
  }

  /** The server side of connection `k` after its thread has moved. */
  ghost predicate After(w: Traffic, w': Traffic, k: nat, t: Thread, rest: seq<char>, more: seq<Answer>)
    requires k < |w.rest| && k < |w.sys.threads|
  {
    && w'.begun == w.begun && w'.rest == w.rest[k := rest]
    && w'.sys.threads == w.sys.threads[k := t] && w'.sys.answers == w.sys.answers + more
  }

  lemma AfterMoves(w: Traffic, w': Traffic, k: nat, t: Thread, rest: seq<char>, more: seq<Answer>)
    requires k < |w.rest| == |w.begun| == |w.sys.threads| && After(w, w', k, t, rest, more) && |more| <= 1
    requires forall i :: 0 <= i < |more| ==> more[i].thread == k && (more[i].reply == Bye <==> EndsSession(more[i].cmd))
    ensures MovedOnly(w, w', k, more)
  {
    hide EndsSession;
  }

  lemma ReadAfter(cfg: Config, peers: seq<Peer>, w: Traffic, k: nat)
    requires |w.rest| == |w.begun| == |w.sys.threads| == |peers| && k < |peers| && w.sys.threads[k].pc.Idle?
    ensures var r := Read(w.rest[k], "", BUFFER_SIZE, peers[k].broken);
            var cmd := Tokens(CStringAt(r.text, 0));
            After(w, Happen(cfg, peers, w, Go(k)), k,
                  if r.n <= 0 then Thread(Closed, []) else Thread(Dispatch(cmd), cmd), r.rest, [])
  {
    hide Read, Tokens, CStringAt, Dispatch;
    assert w.sys.answers + [] == w.sys.answers;
  }

  lemma RunAfter(cfg: Config, peers: seq<Peer>, w: Traffic, k: nat)
    requires |w.rest| == |w.begun| == |w.sys.threads| == |peers| && k < |peers|
    requires !w.sys.threads[k].pc.Closed? && !w.sys.threads[k].pc.Idle?
    ensures var w', s' := Happen(cfg, peers, w, Go(k)), Step(cfg, w.sys, Run(k));
            w'.sys == s' && w'.begun == w.begun && w'.rest == w.rest[k := w.rest[k]]
  {
    hide Step, Read, Tokens, CStringAt;
  }

  lemma ReadKeeps(cfg: Config, peers: seq<Peer>, w: Traffic, k: nat)
    requires PeersOk(cfg, peers, w) && k < |peers| && w.begun[k] && w.sys.threads[k].pc.Idle?
    ensures PeersOk(cfg, peers, Happen(cfg, peers, w, Go(k)))
  {
    var w', t, done := Happen(cfg, peers, w, Go(k)), w.sys.threads[k], AnsweredOn(w.sys.answers, k);
    assert PeerOk(peers[k], t, w.rest[k], true, done);
    hide PeerOk, PeersOk, Happen, Read, Tokens, CStringAt, Dispatch, AnsweredOn, MovedOnly;
    ReadAfter(cfg, peers, w, k);
    ReadOk(cfg, peers[k], w.rest[k], done, t);
    AfterMoves(w, w', k, w'.sys.threads[k], w'.rest[k], []);
    assert w.sys.answers + [] == w.sys.answers;
    MovedKeeps(cfg, peers, w, w', k, []);
  }

  lemma ReplyKeeps(cfg: Config, peers: seq<Peer>, w: Traffic, k: nat)
    requires PeersOk(cfg, peers, w) && k < |peers| && w.begun[k] && w.sys.threads[k].pc.AtReply?
    ensures PeersOk(cfg, peers, Happen(cfg, peers, w, Go(k)))
  {
    var w', t, done := Happen(cfg, peers, w, Go(k)), w.sys.threads[k], AnsweredOn(w.sys.answers, k);
    assert PeerOk(peers[k], t, w.rest[k], true, done);
    hide PeerOk, PeersOk, Happen, Step, EndsSession, AnsweredOn, MovedOnly;
    var a := Answer(k, t.cmd, t.pc.reply);
    RunAfter(cfg, peers, w, k);
    ReplyStep(cfg, w.sys, k);
    ReplyOk(peers[k], t, w.rest[k], done);
    AfterMoves(w, w', k, w'.sys.threads[k], w'.rest[k], [a]);
    AnsweredSnoc(w.sys.answers, a, k);
    MovedKeeps(cfg, peers, w, w', k, [a]);
  }

  lemma WorkKeeps(cfg: Config, peers: seq<Peer>, w: Traffic, k: nat)
    requires PeersOk(cfg, peers, w) && k < |peers| && w.begun[k] && Working(w.sys.threads[k].pc)
    ensures PeersOk(cfg, peers, Happen(cfg, peers, w, Go(k)))
  {
    var w', t, done := Happen(cfg, peers, w, Go(k)), w.sys.threads[k], AnsweredOn(w.sys.answers, k);
    assert PeerOk(peers[k], t, w.rest[k], true, done);
    hide PeerOk, PeersOk, Happen, Step, EndsSession, Ending, AnsweredOn, MovedOnly;
    RunAfter(cfg, peers, w, k);
    SectionEnds(cfg, w.sys, k);
    WorkOk(peers[k], t, w.rest[k], done, w'.sys.threads[k].pc);
    assert w.sys.answers + [] == w.sys.answers;
    AfterMoves(w, w', k, w'.sys.threads[k], w'.rest[k], []);
    MovedKeeps(cfg, peers, w, w', k, []);
  }

  lemma {:induction false} HappenAllKeeps(cfg: Config, peers: seq<Peer>, w: Traffic, es: seq<Happening>)
    requires PeersOk(cfg, peers, w)
    ensures PeersOk(cfg, peers, HappenAll(cfg, peers, w, es))
    decreases |es|
  {
    if es != [] {
      hide PeersOk, Happen;
      HappenKeeps(cfg, peers, w, es[0]);
      HappenAllKeeps(cfg, peers, Happen(cfg, peers, w, es[0]), es[1..]);
    }
  }

  /**
   In every interleaving of any number of connections with arbitrary peers, the commands answered on a
   connection are the first ones of its own lines, in order and none twice; all of them up to the first
   well-formed QUIT once it has closed; and BYE answers that QUIT and nothing else.
   */
  lemma EachConnectionAnswersItsOwn(cfg: Config, peers: seq<Peer>, es: seq<Happening>, k: nat)
    requires k < |peers|
    ensures var w := HappenAll(cfg, peers, Quiescent(peers), es);
            && AnsweredOn(w.sys.answers, k) <= Owing(peers[k])
            && (w.begun[k] && w.sys.threads[k].pc.Closed? ==> AnsweredOn(w.sys.answers, k) == Owing(peers[k]))
            && forall i :: 0 <= i < |w.sys.answers| ==>
                 (w.sys.answers[i].reply == Bye <==> EndsSession(w.sys.answers[i].cmd))
  {
    assert PeersOk(cfg, peers, Quiescent(peers));
    HappenAllKeeps(cfg, peers, Quiescent(peers), es);
    var w := HappenAll(cfg, peers, Quiescent(peers), es);
    hide HappenAll, AnsweredOn, UpToQuit, Commands;
    assert PeerOk(peers[k], w.sys.threads[k], w.rest[k], w.begun[k], AnsweredOn(w.sys.answers, k));
  }

  // Such runs are runs of the transition system

  lemma {:induction false} HappeningsAreRuns(cfg: Config, peers: seq<Peer>, w: Traffic, es: seq<Happening>)
    returns (ls: seq<Label>)
    requires |w.rest| == |w.begun| == |w.sys.threads| == |peers|
    ensures HappenAll(cfg, peers, w, es).sys == Exec(cfg, w.sys, ls)
    decreases |es|
  {
    if es == [] {
      ls := [];
      ExecNone(cfg, w.sys);
    } else {
      var w1 := Happen(cfg, peers, w, es[0]);
      var more := HappeningsAreRuns(cfg, peers, w1, es[1..]);
      hide Step, Exec, Read, Tokens;
      if w1.sys == w.sys {
        ls := more;
      } else {
        var l :| w1.sys == Step(cfg, w.sys, l);
        ls := [l] + more;
        ExecCons(cfg, w.sys, l, more);
      }
    }
  }
}
