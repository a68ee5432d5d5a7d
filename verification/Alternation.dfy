/** Registrations and deactivations of one id alternate, whatever the interleaving. */
module Alternation {
  import opened Records
  import opened Text
  import opened Database
  import opened Server
  import opened Lifecycle

  /** Whether `x` is up after the history, or None once a change repeats the one before it. */
  function Replay(h: seq<Event>, x: string): Option<bool> {
    if h == [] then Some(false)
    else Advance(Replay(h[..|h| - 1], x), h[|h| - 1], x)
  }

  function Advance(up: Option<bool>, e: Event, x: string): Option<bool> {
    match e
    case CameUp(id) => if id != x then up else if up == Some(false) then Some(true) else None
    case WentDown(id) => if id != x then up else if up == Some(true) then Some(false) else None
  }

  /** No other id is stored as `x` when it is cut to fit. */
  ghost predicate NoCollision(id: string, x: string) {
    id == x || Cut(id, MAX_ID_LEN) != x
  }

  ghost predicate NamesNoCollision(tokens: seq<string>, x: string) {
    |tokens| == 3 && tokens[0] == "REGISTER" ==> NoCollision(tokens[1], x)
  }

  ghost predicate LabelsNoCollision(ls: seq<Label>, x: string) {
    forall i :: 0 <= i < |ls| && ls[i].Receive? ==> NamesNoCollision(ls[i].tokens, x)
  }

  ghost predicate ThreadsNoCollision(s: System, x: string) {
    forall k :: 0 <= k < |s.threads| && s.threads[k].pc.AtRegister? ==> NoCollision(s.threads[k].pc.id, x)
  }

  lemma SectionAlternates(cfg: Config, db: Db, pc: Pc, x: string)
    requires Working(pc) && |x| < MAX_ID_LEN
    requires pc.AtRegister? ==> NoCollision(pc.id, x)
    ensures var up, up' := IsActive(db, x), IsActive(Section(cfg, db, pc).0, x);
            var es := Committed(cfg, db, pc);
            |es| <= 1 && Some(up') == if es == [] then Some(up) else Advance(Some(up), es[0], x)
  {
    hide IndexOf;
    if Appends(cfg, db, pc) {
      SectionAppends(cfg, db, pc, x);
    } else {
      SectionLookup(cfg, db, pc, x);
    }
  }

  ghost predicate Alternates(s: System, x: string) {
    ThreadsNoCollision(s, x) && Replay(s.history, x) == Some(IsActive(s.db, x))
  }

  lemma StepAlternates(cfg: Config, s: System, l: Label, x: string)
    requires |x| < MAX_ID_LEN && Alternates(s, x)
    requires l.Receive? ==> NamesNoCollision(l.tokens, x)
    ensures Alternates(Step(cfg, s, l), x)
  {
    hide IsActive, Section, Replay, Cut;
    if Enabled(s, l) && l.Run? && Working(s.threads[l.thread].pc) {
      var pc := s.threads[l.thread].pc;
      SectionAlternates(cfg, s.db, pc, x);
      ReplayCommitted(s.history, Committed(cfg, s.db, pc), x);
      NextPcIsNotRegister(cfg, s.db, pc);
    }
  }

  lemma ReplayCommitted(h: seq<Event>, es: seq<Event>, x: string)
    requires |es| <= 1
    ensures Replay(h + es, x) == if es == [] then Replay(h, x) else Advance(Replay(h, x), es[0], x)
  {
    if es == [] {
      assert h + es == h;
    } else {
      assert (h + es)[..|h|] == h;
    }
  }

  lemma NextPcIsNotRegister(cfg: Config, db: Db, pc: Pc)
    requires Working(pc)
    ensures !Section(cfg, db, pc).1.AtRegister?
    ensures |Committed(cfg, db, pc)| <= 1
  {
  }

  /**
   For an id the table stores whole, successful REGISTERs and ACTIVE-to-INACTIVE changes strictly
   alternate in every interleaving, starting with a REGISTER, and the last one decides the status.
   */
  lemma {:induction false} RunsAlternate(cfg: Config, s: System, ls: seq<Label>, x: string)
    requires |x| < MAX_ID_LEN && Alternates(s, x) && LabelsNoCollision(ls, x)
    ensures Alternates(Exec(cfg, s, ls), x)
    decreases |ls|
  {
    if ls != [] {
      hide Alternates, Step, NamesNoCollision;
      StepAlternates(cfg, s, ls[0], x);
      RunsAlternate(cfg, Step(cfg, s, ls[0]), ls[1..], x);
    }
  }

  function Ups(h: seq<Event>, x: string): nat {
    if h == [] then 0 else Ups(h[..|h| - 1], x) + if h[|h| - 1] == CameUp(x) then 1 else 0
  }

  function Downs(h: seq<Event>, x: string): nat {
    if h == [] then 0 else Downs(h[..|h| - 1], x) + if h[|h| - 1] == WentDown(x) then 1 else 0
  }

  lemma {:induction false} ReplayCounts(h: seq<Event>, x: string)
    requires Replay(h, x).Some?
    ensures Ups(h, x) == Downs(h, x) + if Replay(h, x).value then 1 else 0
    decreases |h|
  {
    if h != [] {
      ReplayCounts(h[..|h| - 1], x);
    }
  }

  /** Counted over any run from the start: at most one registration is outstanding, exactly when ACTIVE. */
  lemma OneOutstandingRegistration(cfg: Config, n: nat, ls: seq<Label>, x: string)
    requires |x| < MAX_ID_LEN && LabelsNoCollision(ls, x)
    ensures var s := Exec(cfg, Init(n), ls);
            Ups(s.history, x) == Downs(s.history, x) + if IsActive(s.db, x) then 1 else 0
  {
    RunsAlternate(cfg, Init(n), ls, x);
    ReplayCounts(Exec(cfg, Init(n), ls).history, x);
  }

  lemma {:induction false} DownInBetween(h: seq<Event>, x: string, i: nat, j: nat)
    requires Replay(h, x).Some? && i < j < |h| && h[i] == CameUp(x) == h[j]
    ensures exists k :: i < k < j && h[k] == WentDown(x)
    decreases |h|
  {
    if |h| - 1 > j {
      DownInBetween(h[..|h| - 1], x, i, j);
    } else {
      var k := LastChange(h[..j], x, i);
    }
  }

  lemma {:induction false} LastChange(h: seq<Event>, x: string, i: nat) returns (k: nat)
    requires Replay(h, x) == Some(false) && i < |h| && h[i] == CameUp(x)
    ensures i < k < |h| && h[k] == WentDown(x)
    decreases |h|
  {
    var n := |h| - 1;
    if h[n] == WentDown(x) {
      k := n;
    } else {
      k := LastChange(h[..n], x, i);
    }
  }

  /** In every run there is a deactivation between any two successful REGISTERs of an id. */
  lemma DownBetweenUps(cfg: Config, n: nat, ls: seq<Label>, x: string, i: nat, j: nat)
    requires |x| < MAX_ID_LEN && LabelsNoCollision(ls, x)
    requires i < j < |Exec(cfg, Init(n), ls).history|
    requires Exec(cfg, Init(n), ls).history[i] == CameUp(x) == Exec(cfg, Init(n), ls).history[j]
    ensures exists k :: i < k < j && Exec(cfg, Init(n), ls).history[k] == WentDown(x)
  {
    RunsAlternate(cfg, Init(n), ls, x);
    DownInBetween(Exec(cfg, Init(n), ls).history, x, i, j);
  }

  /** The bound on the id is exact: any longer id can be registered twice in a row. */
  lemma LongIdRegistersTwice(cfg: Config, x: string)
    requires |x| >= MAX_ID_LEN && cfg.cap >= 2
    ensures exists ls :: LabelsNoCollision(ls, x) && Exec(cfg, Init(1), ls).history == [CameUp(x), CameUp(x)]
  {
    var once := [Receive(0, ["REGISTER", x, "TEMP"]), Run(0), Run(0)];
    var s1 := Step(cfg, Init(1), Connect(0));
    var s2 := RegistersOnce(cfg, s1, x);
    var s3 := RegistersOnce(cfg, s2, x);
    var ls := [Connect(0)] + once + once;
    ExecConcat(cfg, Init(1), [Connect(0)] + once, once);
    ExecConcat(cfg, Init(1), [Connect(0)], once);
    assert s1.history == [] && s3.history == [CameUp(x), CameUp(x)];
    assert Exec(cfg, Init(1), [Connect(0)]) == s1 by {
      assert [Connect(0)][1..] == [];
    }
    assert LabelsNoCollision(ls, x);
  }

  lemma RegistersOnce(cfg: Config, s: System, x: string) returns (s': System)
    requires |x| >= MAX_ID_LEN && s.threads == [Thread(Idle, [])] && |s.db.table| < cfg.cap
    requires forall i :: 0 <= i < |s.db.table| ==> s.db.table[i].id != x
    ensures s' == Exec(cfg, s, [Receive(0, ["REGISTER", x, "TEMP"]), Run(0), Run(0)])
    ensures s'.threads == s.threads && s'.history == s.history + [CameUp(x)]
    ensures |s'.db.table| == |s.db.table| + 1
    ensures forall i :: 0 <= i < |s'.db.table| ==> s'.db.table[i].id != x
  {
    hide IndexOf;
    var tokens := ["REGISTER", x, "TEMP"];
    IndexIs(s.db.table, x, -1);
    var a := Step(cfg, s, Receive(0, tokens));
    assert a.threads == [Thread(AtRegister(x, Temp), tokens)];
    var b := Step(cfg, a, Run(0));
    assert b.threads == [Thread(AtReply(Registered(x)), tokens)];
    assert b.db.table == s.db.table + [Fresh(Cut(x, MAX_ID_LEN), Temp)];
    s' := Step(cfg, b, Run(0));
    ThreeSteps(cfg, s, Receive(0, tokens), Run(0), Run(0));
  }
}
