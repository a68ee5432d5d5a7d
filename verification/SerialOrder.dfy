/**
 Commands can be told apart in time. If no two commands on one id overlap, every interleaved run gives the
 replies, the table, the metric log and, for each id, the alerts of its commands handled one after the
 other in some order that keeps the order of each connection.
 */
module SerialOrder {
  import opened Records
  import opened Text
  import opened Database
  import opened Server
  import opened Lifecycle
  import opened Conservation
  import opened LevelAgreement
  import opened LevelExact
  import opened NonInterference
  import opened Session
  import opened Dialogue

  /** No two commands that still have work to do on the shared state name the same id. */
  ghost predicate Exclusive(s: System) {
    forall j, k :: 0 <= j < k < |s.threads| && Working(s.threads[j].pc) && Working(s.threads[k].pc) ==>
      s.threads[j].pc.id != s.threads[k].pc.id
  }

  ghost predicate NoOverlap(cfg: Config, s: System, ls: seq<Label>)
    decreases |ls|
  {
    Exclusive(s) && (ls == [] || NoOverlap(cfg, Step(cfg, s, ls[0]), ls[1..]))
  }

  // The serial state beside the interleaved one

  /** What is still to be added to the alerts of `id` by its METRIC in service. */
  ghost predicate AlertsOk(s: System, d: Db, x: string) {
    && (forall k :: 0 <= k < |s.threads| && s.threads[k].pc.AtAddAlert? && s.threads[k].pc.id == x ==>
          AlertsOf(d.alerts, x) == AlertsOf(s.db.alerts, x) + [OwedBy(s.threads[k].pc)])
    && ((forall k :: 0 <= k < |s.threads| ==> !(s.threads[k].pc.AtAddAlert? && s.threads[k].pc.id == x)) ==>
          AlertsOf(d.alerts, x) == AlertsOf(s.db.alerts, x))
  }

  function OwedBy(pc: Pc): AlertRecord
    requires pc.AtAddAlert?
  {
    AlertEntry(pc.id, pc.value, pc.bound, pc.ts, TypeName(pc.kind))
  }

  /** Slot `i` of the two tables: the serial one already has the level that an evaluation is going to set. */
  ghost predicate SlotOk(s: System, d: Db, i: nat)
    requires i < |s.db.table| == |d.table|
  {
    var a, b := s.db.table[i], d.table[i];
    && b == a.(level := b.level)
    && (forall k :: 0 <= k < |s.threads| && Evaluating(s.threads[k].pc, a.id) && IndexOf(s.db.table, a.id) == i ==>
          b.level == Verdict(s.threads[k].pc))
    && (NoneEvaluating(s.threads, a.id) || IndexOf(s.db.table, a.id) != i ==> b.level == a.level)
  }

  ghost predicate Beside(s: System, d: Db) {
    && d.metrics == s.db.metrics && |d.table| == |s.db.table|
    && (forall i :: 0 <= i < |s.db.table| ==> SlotOk(s, d, i))
    && (forall x :: AlertsOk(s, d, x))
  }

  lemma SameIndex(a: seq<Sensor>, b: seq<Sensor>, x: string)
    requires |a| == |b| && forall i :: 0 <= i < |a| ==> b[i].id == a[i].id
    ensures IndexOf(b, x) == IndexOf(a, x)
  {
    hide IndexOf;
    IndexIs(b, x, IndexOf(a, x));
  }

  /** Where nothing is being evaluated the two states show the same. */
  lemma SameLookup(s: System, d: Db, x: string)
    requires Beside(s, d)
    ensures IndexOf(d.table, x) == IndexOf(s.db.table, x)
    ensures NoneEvaluating(s.threads, x) ==> Lookup(d.table, x) == Lookup(s.db.table, x)
    ensures Lookup(s.db.table, x).Some? <==> Lookup(d.table, x).Some?
    ensures Lookup(s.db.table, x).Some? ==>
      var a, b := Lookup(s.db.table, x).value, Lookup(d.table, x).value; b == a.(level := b.level)
  {
    hide IndexOf, AlertsOk;
    forall i | 0 <= i < |s.db.table| ensures d.table[i].id == s.db.table[i].id {
      assert SlotOk(s, d, i);
    }
    SameIndex(s.db.table, d.table, x);
    var i := IndexOf(s.db.table, x);
    if i >= 0 {
      assert SlotOk(s, d, i);
    }
  }

  // What a command decides, and when

  /** The reply a command in service is going to get, once nothing can change it. */
  function Decided(pc: Pc): Option<Reply> {
    match pc
    case AtReply(r) => Some(r)
    case AtAddAlert(_, _, _, _, _) => Some(Accepted)
    case AtSetLevel(_, _) => Some(Accepted)
    case _ => None
  }

  function OfThread(answers: seq<Answer>, k: nat): seq<Answer> {
    if answers == [] then []
    else
      var a := answers[|answers| - 1];
      OfThread(answers[..|answers| - 1], k) + if a.thread == k then [a] else []
  }

  lemma OfThreadSnoc(answers: seq<Answer>, a: Answer, k: nat)
    ensures OfThread(answers + [a], k) == OfThread(answers, k) + if a.thread == k then [a] else []
  {
    assert (answers + [a])[..|answers|] == answers;
  }

  ghost predicate InOrder(s: System, serial: seq<Answer>, k: nat)
    requires k < |s.threads|
  {
    var t := s.threads[k];
    OfThread(serial, k) == OfThread(s.answers, k) + if Decided(t.pc).Some? then [Answer(k, t.cmd,
        Decided(t.pc).value)] else []
  }

  /** The commands of `serial`, handled in that order from the start, get its replies and lead to `d`. */
  ghost predicate Handled(cfg: Config, serial: seq<Answer>, d: Db)
    decreases |serial|
  {
    if serial == [] then d == EMPTY
    else
      var a := serial[|serial| - 1];
      exists d0 :: Handled(cfg, Butlast(serial), d0) && Handle(cfg, d0, a.cmd) == (d, a.reply)
  }

  function Butlast(serial: seq<Answer>): seq<Answer>
    requires serial != []
  {
    serial[..|serial| - 1]
  }

  lemma HandledSnoc(cfg: Config, serial: seq<Answer>, d: Db, a: Answer, d': Db)
    requires Handled(cfg, serial, d) && Handle(cfg, d, a.cmd) == (d', a.reply)
    ensures Handled(cfg, serial + [a], d')
  {
    assert Butlast(serial + [a]) == serial;
  }

  /** Between its two lookups a METRIC keeps finding its sensor active. */
  ghost predicate StillActive(s: System) {
    forall k :: 0 <= k < |s.threads| && s.threads[k].pc.AtAddMetric? ==> IsActive(s.db, s.threads[k].pc.id)
  }

  ghost predicate SerialOk(cfg: Config, s: System, serial: seq<Answer>, d: Db) {
    && Accounted(cfg, s) && StillActive(s) && Beside(s, d) && Handled(cfg, serial, d)
    && (forall k :: 0 <= k < |s.threads| ==> InOrder(s, serial, k))
    && (forall i :: 0 <= i < |serial| ==> serial[i].thread < |s.threads|)
  }

  // One critical section, in both states

  /** Both tables change at most at the slot of `x`, or grow by the same fresh record. */
  ghost predicate MoveAlike(a: Db, a': Db, b: Db, b': Db, x: string) {
    var i0 := IndexOf(a.table, x);
    if |a'.table| == |a.table| then
      && |b'.table| == |b.table|
      && (forall i :: 0 <= i < |a.table| && i != i0 ==> a'.table[i] == a.table[i])
      && (forall i :: 0 <= i < |b.table| && i != i0 ==> b'.table[i] == b.table[i])
    else
      i0 < 0 && exists r: Sensor :: a'.table == a.table + [r] && b'.table == b.table + [r]
  }

  predicate Decides(pc: Pc) {
    pc.AtRegister? || pc.AtFindForStatus? || pc.AtDeactivate? || pc.AtFindForMetric?
  }

  /** Where the two states show the same of `x`, a section that finds or changes `x` goes the same way in both. */
  lemma Twins(cfg: Config, a: Db, b: Db, pc: Pc)
    requires Decides(pc) && |a.table| == |b.table|
    requires IndexOf(a.table, pc.id) == IndexOf(b.table, pc.id) && Lookup(a.table, pc.id) == Lookup(b.table, pc.id)
    ensures var (a', p) := Section(cfg, a, pc);
            var (b', q) := Section(cfg, b, pc);
            && p == q && MoveAlike(a, a', b, b', pc.id)
            && a'.metrics == a.metrics && b'.metrics == b.metrics && a'.alerts == a.alerts && b'.alerts == b.alerts
            && (IndexOf(a.table, pc.id) >= 0 ==>
                  && |a'.table| == |a.table| && |b'.table| == |b.table|
                  && a'.table[IndexOf(a.table, pc.id)] == b'.table[IndexOf(a.table, pc.id)])
            && (forall i :: 0 <= i < |a.table| && i < |a'.table| ==> a'.table[i].id == a.table[i].id)
  {
    hide IndexOf, AfterFind;
    if Appends(cfg, a, pc) {
      var r := Fresh(Cut(pc.id, MAX_ID_LEN), pc.kind);
      assert Section(cfg, a, pc).0.table == a.table + [r] && Section(cfg, b, pc).0.table == b.table + [r];
    }
  }

  /** A command whose first section is still to come is at the point its dispatch gives. */
  lemma AtFirst(cfg: Config, db: Db, t: Thread)
    requires ThreadOk(cfg, db, t) && Decides(t.pc)
    ensures Dispatch(t.cmd) == t.pc
  {
    assert t.pc.AtRegister? ==> TypeFromName(TypeName(t.pc.kind)) == t.pc.kind;
    hide Lookup;
  }

  /** Slots other than that of `x` keep to their relation when only a command on `x` moves. */
  lemma SlotElsewhere(s: System, d: Db, s': System, d': Db, k: nat, x: string, i: nat)
    requires i < |s.db.table| == |d.table| && i < |s'.db.table| == |d'.table| && SlotOk(s, d, i)
    requires s'.db.table[i] == s.db.table[i] && d'.table[i] == d.table[i] && i != IndexOf(s.db.table, x)
    requires IndexOf(s'.db.table, s.db.table[i].id) == IndexOf(s.db.table, s.db.table[i].id)
    requires k < |s.threads| == |s'.threads| && Working(s.threads[k].pc) && s.threads[k].pc.id == x
    requires forall j :: 0 <= j < |s.threads| && j != k ==> s'.threads[j] == s.threads[j]
    requires forall y :: Evaluating(s'.threads[k].pc, y) ==> y == x
    ensures SlotOk(s', d', i)
  {
    hide IndexOf;
    var a := s.db.table[i];
    forall j | 0 <= j < |s'.threads| && Evaluating(s'.threads[j].pc, a.id) && a.id != x
      ensures Evaluating(s.threads[j].pc, a.id) && s'.threads[j] == s.threads[j]
    {
    }
    if NoneEvaluating(s'.threads, a.id) && a.id != x {
      forall j | 0 <= j < |s.threads| ensures !Evaluating(s.threads[j].pc, a.id) {
        assert j != k ==> s'.threads[j] == s.threads[j];
      }
    }
  }

  /** Thread `k`, at work on `x`, has moved and the others have not. */
  ghost predicate OnlyMoved(s: System, s': System, k: nat, x: string) {
    && k < |s.threads| == |s'.threads| && Working(s.threads[k].pc) && s.threads[k].pc.id == x
    && (forall j :: 0 <= j < |s.threads| && j != k ==> s'.threads[j] == s.threads[j])
    && (forall y :: Evaluating(s'.threads[k].pc, y) ==> y == x && Lookup(s.db.table, x).Some?)
    && (forall j, y :: 0 <= j < |s.threads| && Evaluating(s.threads[j].pc, y) ==> Lookup(s.db.table, y).Some?)
  }

  lemma SlotsAfter(s: System, d: Db, s': System, d': Db, k: nat, x: string)
    requires Beside(s, d) && OnlyMoved(s, s', k, x) && MoveAlike(s.db, s'.db, d, d', x)
    requires forall i :: 0 <= i < |s.db.table| && i < |s'.db.table| ==> s'.db.table[i].id == s.db.table[i].id
    requires |s'.db.table| == |d'.table|
    requires var i0 := IndexOf(s.db.table, x); i0 >= 0 ==> i0 < |s'.db.table| && SlotOk(s', d', i0)
    ensures forall i :: 0 <= i < |s'.db.table| ==> SlotOk(s', d', i)
  {
    hide IndexOf, SlotOk, AlertsOk;
    if |s'.db.table| == |s.db.table| {
      forall i | 0 <= i < |s'.db.table| ensures SlotOk(s', d', i) {
        if i != IndexOf(s.db.table, x) {
          SameIndex(s.db.table, s'.db.table, s.db.table[i].id);
          SlotElsewhere(s, d, s', d', k, x, i);
        }
      }
    } else {
      var r :| s'.db.table == s.db.table + [r] && d'.table == d.table + [r];
      forall i | 0 <= i < |s'.db.table| ensures SlotOk(s', d', i) {
        if i < |s.db.table| {
          LookupAppend(s.db.table, r, s.db.table[i].id);
          Found(s.db.table, i);
          SlotElsewhere(s, d, s', d', k, x, i);
        } else {
          NewSlot(s, s', d', k, x, r);
        }
      }
    }
  }

  lemma Found(table: seq<Sensor>, i: nat)
    requires i < |table|
    ensures IndexOf(table, table[i].id) >= 0
  {
    hide IndexOf;
  }

  lemma NewSlot(s: System, s': System, d': Db, k: nat, x: string, r: Sensor)
    requires OnlyMoved(s, s', k, x) && IndexOf(s.db.table, x) < 0
    requires s'.db.table == s.db.table + [r] && |d'.table| == |s'.db.table| && d'.table[|s.db.table|] == r
    ensures SlotOk(s', d', |s.db.table|)
  {
    hide IndexOf;
    LookupAppend(s.db.table, r, r.id);
    forall j | 0 <= j < |s'.threads| && Evaluating(s'.threads[j].pc, r.id)
      ensures IndexOf(s'.db.table, r.id) != |s.db.table|
    {
      if j != k {
        assert Evaluating(s.threads[j].pc, r.id);
      }
    }
  }

  lemma AlertsAfter(s: System, d: Db, s': System, d': Db, k: nat, x: string, es: seq<AlertRecord>, fs: seq<AlertRecord>)
    requires Beside(s, d) && OnlyMoved(s, s', k, x)
    requires s'.db.alerts == s.db.alerts + es && d'.alerts == d.alerts + fs && |es| <= 1 && |fs| <= 1
    requires (es != [] ==> es[0].sensorId == x) && (fs != [] ==> fs[0].sensorId == x)
    requires s'.threads[k].pc.AtAddAlert? ==> s'.threads[k].pc.id == x
    requires AlertsOk(s', d', x)
    ensures forall y :: AlertsOk(s', d', y)
  {
    forall y ensures AlertsOk(s', d', y) {
      if y != x {
        assert AlertsOk(s, d, y);
        hide Lookup, SlotOk;
        OthersAlerts(s.db.alerts, es, y);
        OthersAlerts(d.alerts, fs, y);
        if forall j :: 0 <= j < |s'.threads| ==> !(s'.threads[j].pc.AtAddAlert? && s'.threads[j].pc.id == y) {
          forall j | 0 <= j < |s.threads| ensures !(s.threads[j].pc.AtAddAlert? && s.threads[j].pc.id == y) {
            assert j != k ==> s'.threads[j] == s.threads[j];
          }
        }
      }
    }
  }

  lemma OthersAlerts(log: seq<AlertRecord>, es: seq<AlertRecord>, y: string)
    requires |es| <= 1 && (es != [] ==> es[0].sensorId != y)
    ensures AlertsOf(log + es, y) == AlertsOf(log, y)
  {
    if es == [] {
      assert log + es == log;
    } else {
      assert es == [es[0]];
      AlertsSnoc(log, es[0], y);
      assert AlertsOf(log, y) + [] == AlertsOf(log, y);
    }
  }

  // One step

  ghost predicate AloneOn(s: System, k: nat, x: string) {
    forall j :: 0 <= j < |s.threads| && j != k && Working(s.threads[j].pc) ==> s.threads[j].pc.id != x
  }

  lemma EvaluatingIsKnown(cfg: Config, s: System, j: nat, y: string)
    requires Accounted(cfg, s) && j < |s.threads| && Evaluating(s.threads[j].pc, y)
    ensures Lookup(s.db.table, y).Some?
  {
    assert ThreadOk(cfg, s.db, s.threads[j]);
  }

  lemma WorkMoves(cfg: Config, s: System, k: nat)
    requires Accounted(cfg, s) && Exclusive(s) && k < |s.threads| && Working(s.threads[k].pc)
    ensures var x, s' := s.threads[k].pc.id, Step(cfg, s, Run(k));
            && AloneOn(s, k, x) && OnlyMoved(s, s', k, x)
            && s'.db == Section(cfg, s.db, s.threads[k].pc).0 && s'.answers == s.answers
            && s'.threads[k] == s.threads[k].(pc := Section(cfg, s.db, s.threads[k].pc).1)
  {
    var x, s' := s.threads[k].pc.id, Step(cfg, s, Run(k));
    forall j, y | 0 <= j < |s.threads| && Evaluating(s.threads[j].pc, y) ensures Lookup(s.db.table, y).Some? {
      EvaluatingIsKnown(cfg, s, j, y);
    }
    hide Section, Committed, Lookup, Accounted;
    forall y | Evaluating(s'.threads[k].pc, y) ensures y == x && Lookup(s.db.table, x).Some? {
      SectionEvaluates(cfg, s.db, s.threads[k].pc, y);
    }
  }

  /** A sensor found active stays active under the commands of other ids. */
  lemma OthersStayActive(cfg: Config, s: System, k: nat)
    requires StillActive(s) && k < |s.threads| && Working(s.threads[k].pc) && AloneOn(s, k, s.threads[k].pc.id)
    ensures var s' := Step(cfg, s, Run(k));
            forall j :: 0 <= j < |s.threads| && j != k && s.threads[j].pc.AtAddMetric? ==>
              IsActive(s'.db, s.threads[j].pc.id)
  {
    var s', pc := Step(cfg, s, Run(k)), s.threads[k].pc;
    forall j | 0 <= j < |s.threads| && j != k && s.threads[j].pc.AtAddMetric?
      ensures IsActive(s'.db, s.threads[j].pc.id)
    {
      var y := s.threads[j].pc.id;
      assert IsActive(s.db, y) && y != pc.id;
      hide Section, IndexOf, Committed;
      if Appends(cfg, s.db, pc) {
        SectionAppends(cfg, s.db, pc, y);
      } else {
        SectionLookup(cfg, s.db, pc, y);
      }
    }
  }

  lemma AloneEvaluates(s: System, k: nat, x: string)
    requires AloneOn(s, k, x) && k < |s.threads| && !Evaluating(s.threads[k].pc, x)
    ensures NoneEvaluating(s.threads, x)
  {
  }

  /** What such a section does in the serial state is to handle the whole command, if it decides it. */
  lemma DecideHandles(cfg: Config, db: Db, t: Thread, d: Db)
    requires ThreadOk(cfg, db, t) && Decides(t.pc)
    ensures var (d', pc') := Section(cfg, d, t.pc);
            if pc'.AtReply? then Handle(cfg, d, t.cmd) == (d', pc'.reply)
            else pc'.AtAddMetric? && d' == d && pc'.id == t.pc.id && IsActive(d, t.pc.id)
  {
    AtFirst(cfg, db, t);
    DecidesNext(cfg, d, t.pc);
    hide Section, Lookup, Dispatch, Serve, IsActive;
    var (d', pc') := Section(cfg, d, t.pc);
    if pc'.AtReply? {
      ServeStep(cfg, d, t.pc);
      ServeReply(cfg, d', pc'.reply);
    }
  }

  /** Registering, deactivating, looking up and refusing: decided in the one section. */
  lemma DecideBeside(cfg: Config, s: System, d: Db, k: nat)
    requires Accounted(cfg, s) && Exclusive(s) && Beside(s, d) && k < |s.threads| && Decides(s.threads[k].pc)
    ensures var s', (d', pc') := Step(cfg, s, Run(k)), Section(cfg, d, s.threads[k].pc);
            Beside(s', d') && s'.threads[k].pc == pc'
  {
    var t, s' := s.threads[k], Step(cfg, s, Run(k));
    var pc, x, d' := t.pc, t.pc.id, Section(cfg, d, t.pc).0;
    WorkMoves(cfg, s, k);
    AloneEvaluates(s, k, x);
    SameLookup(s, d, x);
    assert |d.table| == |s.db.table| && d.metrics == s.db.metrics && AlertsOk(s, d, x);
    hide Section, IndexOf, Lookup, Accounted, Exclusive, MoveAlike, Step, Beside, OnlyMoved, AlertsOk;
    Twins(cfg, s.db, d, pc);
    NotEvaluating(cfg, d, pc);
    DecideSlots(cfg, s, d, s', d', k, x);
    DecideAlerts(s, d, s', d', k, x);
    BesideIs(s', d');
  }

  lemma NotEvaluating(cfg: Config, db: Db, pc: Pc)
    requires Decides(pc)
    ensures var pc' := Section(cfg, db, pc).1; !pc'.AtAddAlert? && !pc'.AtSetLevel?
  {
    DecidesNext(cfg, db, pc);
    hide Section;
  }

  lemma BesideIs(s: System, d: Db)
    requires d.metrics == s.db.metrics && |d.table| == |s.db.table|
    requires forall i :: 0 <= i < |s.db.table| ==> SlotOk(s, d, i)
    requires forall x :: AlertsOk(s, d, x)
    ensures Beside(s, d)
  {
  }

  lemma DecideAlerts(s: System, d: Db, s': System, d': Db, k: nat, x: string)
    requires Beside(s, d) && OnlyMoved(s, s', k, x) && AloneOn(s, k, x) && !s.threads[k].pc.AtAddAlert?
    requires s'.db.alerts == s.db.alerts && d'.alerts == d.alerts && !s'.threads[k].pc.AtAddAlert?
    ensures forall y :: AlertsOk(s', d', y)
  {
    hide Lookup, SlotOk;
    assert s.db.alerts + [] == s.db.alerts && d.alerts + [] == d.alerts;
    assert AlertsOk(s, d, x);
    assert forall j :: 0 <= j < |s.threads| ==> !(s.threads[j].pc.AtAddAlert? && s.threads[j].pc.id == x);
    AlertsAfter(s, d, s', d', k, x, [], []);
  }

  lemma ServeReply(cfg: Config, db: Db, r: Reply)
    ensures Serve(cfg, db, AtReply(r)) == (db, r)
  {
  }

  lemma DecidesNext(cfg: Config, db: Db, pc: Pc)
    requires Decides(pc)
    ensures var (db', pc') := Section(cfg, db, pc);
            pc'.AtReply? || (pc'.AtAddMetric? && db' == db && pc'.id == pc.id && IsActive(db, pc.id))
  {
    hide Lookup, ValidTimestamp, Put;
  }

  lemma DecideSlots(cfg: Config, s: System, d: Db, s': System, d': Db, k: nat, x: string)
    requires Beside(s, d) && OnlyMoved(s, s', k, x) && MoveAlike(s.db, s'.db, d, d', x)
    requires NoneEvaluating(s.threads, x) && !Evaluating(s'.threads[k].pc, x)
    requires forall i :: 0 <= i < |s.db.table| && i < |s'.db.table| ==> s'.db.table[i].id == s.db.table[i].id
    requires var i0 := IndexOf(s.db.table, x);
             i0 >= 0 ==> |s'.db.table| == |s.db.table| && |d'.table| == |d.table| && s'.db.table[i0] == d'.table[i0]
    ensures |s'.db.table| == |d'.table| && forall i :: 0 <= i < |s'.db.table| ==> SlotOk(s', d', i)
  {
    hide IndexOf, AlertsOk;
    var i0 := IndexOf(s.db.table, x);
    if i0 >= 0 {
      forall j | 0 <= j < |s'.threads| ensures !Evaluating(s'.threads[j].pc, x) {
        assert j != k ==> s'.threads[j] == s.threads[j];
      }
      assert SlotOk(s', d', i0);
    }
    SlotsAfter(s, d, s', d', k, x);
  }

  /** Storing the metric: from here on nothing can change the reply, and the whole command counts as handled. */
  lemma AddBeside(cfg: Config, s: System, d: Db, k: nat)
    requires Accounted(cfg, s) && StillActive(s) && Exclusive(s) && Beside(s, d)
    requires k < |s.threads| && s.threads[k].pc.AtAddMetric?
    ensures var s', (d', r) := Step(cfg, s, Run(k)), Handle(cfg, d, s.threads[k].cmd);
            Beside(s', d') && r == Accepted && Decided(s'.threads[k].pc) == Some(Accepted)
  {
    var t, s' := s.threads[k], Step(cfg, s, Run(k));
    var pc, x := t.pc, t.pc.id;
    assert ThreadOk(cfg, s.db, t) && IsActive(s.db, x);
    WorkMoves(cfg, s, k);
    AloneEvaluates(s, k, x);
    SameLookup(s, d, x);
    MetricHandled(cfg, s.db, d, t);
    assert |d.table| == |s.db.table| && d.metrics == s.db.metrics;
    hide Section, IndexOf, Lookup, Accounted, Exclusive, Step, Beside, OnlyMoved, AlertsOk, Handle, SlotOk,
        ThreadOk, StillActive;
    var d' := Handle(cfg, d, t.cmd).0;
    AddSlots(cfg, s, d, s', d', k);
    AddAlerts(cfg, s, d, s', d', k);
    BesideIs(s', d');
  }

  /** What the section does to the one state and the whole command to the other. */
  ghost predicate StoredInBoth(a: Db, a': Db, d: Db, d': Db, pc: Pc, pc': Pc)
    requires pc.AtAddMetric?
  {
    var i, x := IndexOf(a.table, pc.id), pc.id;
    && i >= 0 && IndexOf(d.table, x) == i && |x| < MAX_ID_LEN && a.table[i].kind == pc.copy.kind
    && pc' == AfterAdd(0, x, pc.value, pc.ts, pc.copy.kind)
    && a'.table == a.table[i := a.table[i].(lastValue := pc.value, lastTimestamp := pc.ts)]
    && d'.table == d.table[i := d.table[i].(lastValue := pc.value, lastTimestamp := pc.ts,
        level := LevelFor(pc.copy.kind, pc.value))]
    && a'.metrics == a.metrics + [MetricRecord(x, pc.value, pc.ts, TypeName(pc.copy.kind))]
    && d'.metrics == d.metrics + [MetricRecord(x, pc.value, pc.ts, TypeName(pc.copy.kind))]
    && a'.alerts == a.alerts
    && d'.alerts == d.alerts + if pc'.AtAddAlert? then [OwedBy(pc')] else []
  }

  lemma MetricHandled(cfg: Config, a: Db, d: Db, t: Thread)
    requires ThreadOk(cfg, a, t) && t.pc.AtAddMetric? && IsActive(a, t.pc.id) && Whole(a)
    requires Lookup(d.table, t.pc.id) == Lookup(a.table, t.pc.id)
         && IndexOf(d.table, t.pc.id) == IndexOf(a.table, t.pc.id)
    ensures var (a', pc') := Section(cfg, a, t.pc);
            var (d', r) := Handle(cfg, d, t.cmd);
            r == Accepted && StoredInBoth(a, a', d, d', t.pc, pc')
  {
    var id, ts := t.pc.id, t.pc.ts;
    assert t.cmd == ["METRIC", id, t.cmd[2], ts] && cfg.parse(t.cmd[2]) == Some(t.pc.value);
    TimestampLength(ts);
    FoundIsShort(a, id);
    hide IndexOf, ValidTimestamp, Handle;
    AcceptedMetric(cfg, d, id, t.cmd[2], ts);
    assert Cut(ts, MAX_TIMESTAMP_LEN) == ts;
    assert d.alerts + [] == d.alerts;
  }

  lemma AddSlots(cfg: Config, s: System, d: Db, s': System, d': Db, k: nat)
    requires k < |s.threads| && Working(s.threads[k].pc)
    requires Beside(s, d) && OnlyMoved(s, s', k, s.threads[k].pc.id) && AloneOn(s, k, s.threads[k].pc.id)
    requires s.threads[k].pc.AtAddMetric? && k < |s'.threads|
         && StoredInBoth(s.db, s'.db, d, d', s.threads[k].pc, s'.threads[k].pc)
    ensures |s'.db.table| == |d'.table| && forall i :: 0 <= i < |s'.db.table| ==> SlotOk(s', d', i)
  {
    hide IndexOf, AlertsOk;
    var pc, x := s.threads[k].pc, s.threads[k].pc.id;
    var i0 := IndexOf(s.db.table, x);
    assert SlotOk(s, d, i0);
    SameIndex(s.db.table, s'.db.table, x);
    assert Evaluating(s'.threads[k].pc, x) && Verdict(s'.threads[k].pc) == LevelFor(pc.copy.kind, pc.value);
    forall j | 0 <= j < |s'.threads| && Evaluating(s'.threads[j].pc, x)
      ensures Verdict(s'.threads[j].pc) == LevelFor(pc.copy.kind, pc.value)
    {
      assert j != k ==> s'.threads[j] == s.threads[j];
    }
    assert SlotOk(s', d', i0);
    SlotsAfter(s, d, s', d', k, x);
  }

  lemma AddAlerts(cfg: Config, s: System, d: Db, s': System, d': Db, k: nat)
    requires k < |s.threads| && Working(s.threads[k].pc)
    requires Beside(s, d) && OnlyMoved(s, s', k, s.threads[k].pc.id) && AloneOn(s, k, s.threads[k].pc.id)
    requires s.threads[k].pc.AtAddMetric? && k < |s'.threads|
         && StoredInBoth(s.db, s'.db, d, d', s.threads[k].pc, s'.threads[k].pc)
    ensures forall y :: AlertsOk(s', d', y)
  {
    hide Lookup, SlotOk, IndexOf;
    var x, pc' := s.threads[k].pc.id, s'.threads[k].pc;
    var fs := if pc'.AtAddAlert? then [OwedBy(pc')] else [];
    assert s.db.alerts + [] == s.db.alerts && Cut(x, MAX_ID_LEN) == x;
    assert AlertsOk(s, d, x);
    assert forall j :: 0 <= j < |s.threads| ==> !(s.threads[j].pc.AtAddAlert? && s.threads[j].pc.id == x);
    if pc'.AtAddAlert? {
      AlertsSnoc(d.alerts, OwedBy(pc'), x);
      forall j | 0 <= j < |s'.threads| && s'.threads[j].pc.AtAddAlert? && s'.threads[j].pc.id == x
        ensures j == k
      {
      }
    } else {
      assert d.alerts + fs == d.alerts;
    }
    AlertsAfter(s, d, s', d', k, x, [], fs);
  }

  /** The rest of an evaluation only catches up with what the serial state already has. */
  lemma CatchUpBeside(cfg: Config, s: System, d: Db, k: nat)
    requires Accounted(cfg, s) && Exclusive(s) && Beside(s, d)
    requires k < |s.threads| && (s.threads[k].pc.AtAddAlert? || s.threads[k].pc.AtSetLevel?)
    ensures var s' := Step(cfg, s, Run(k)); Beside(s', d) && Decided(s'.threads[k].pc) == Some(Accepted)
  {
    var t, s' := s.threads[k], Step(cfg, s, Run(k));
    var x := t.pc.id;
    EvaluatingIsKnown(cfg, s, k, x);
    WorkMoves(cfg, s, k);
    CatchUp(cfg, s.db, t.pc);
    FoundIsShort(s.db, x);
    assert |d.table| == |s.db.table| && d.metrics == s.db.metrics && SameMetrics(s, s');
    hide Section, IndexOf, Accounted, Exclusive, Step, Beside, OnlyMoved, AlertsOk, SlotOk, Whole;
    CatchUpSlots(s, d, s', k);
    CatchUpAlerts(s, d, s', k);
    BesideIs(s', d);
  }

  ghost predicate SameMetrics(s: System, s': System) {
    s'.db.metrics == s.db.metrics
  }

  lemma CatchUp(cfg: Config, db: Db, pc: Pc)
    requires (pc.AtAddAlert? || pc.AtSetLevel?) && IndexOf(db.table, pc.id) >= 0
    ensures var (db', pc') := Section(cfg, db, pc);
            var i := IndexOf(db.table, pc.id);
            && db'.metrics == db.metrics && |db'.table| == |db.table|
            && (pc.AtAddAlert? ==>
                  && pc' == AtSetLevel(pc.id, Alert) && db'.table == db.table
                  && db'.alerts == db.alerts + [OwedBy(pc)])
            && (pc.AtSetLevel? ==>
                  && pc' == AtReply(Accepted) && db'.table == db.table[i := db.table[i].(level := pc.level)]
                  && db'.alerts == db.alerts)
  {
    hide IndexOf;
  }

  ghost predicate CaughtUp(s: System, s': System, k: nat)
    requires k < |s.threads| && k < |s'.threads|
  {
    var pc, pc' := s.threads[k].pc, s'.threads[k].pc;
    && (pc.AtAddAlert? || pc.AtSetLevel?) && IndexOf(s.db.table, pc.id) >= 0
    && var i := IndexOf(s.db.table, pc.id);
       if pc.AtAddAlert? then
         pc' == AtSetLevel(pc.id, Alert) && s'.db.table == s.db.table && s'.db.alerts == s.db.alerts + [OwedBy(pc)]
       else
         && pc' == AtReply(Accepted) && s'.db.table == s.db.table[i := s.db.table[i].(level := pc.level)]
         && s'.db.alerts == s.db.alerts
  }

  lemma CatchUpSlots(s: System, d: Db, s': System, k: nat)
    requires k < |s.threads| && Working(s.threads[k].pc)
    requires Beside(s, d) && OnlyMoved(s, s', k, s.threads[k].pc.id) && AloneOn(s, k, s.threads[k].pc.id)
    requires k < |s'.threads| && CaughtUp(s, s', k)
    ensures |s'.db.table| == |d.table| && forall i :: 0 <= i < |s'.db.table| ==> SlotOk(s', d, i)
  {
    hide IndexOf, AlertsOk;
    var pc, x := s.threads[k].pc, s.threads[k].pc.id;
    var i0 := IndexOf(s.db.table, x);
    assert SlotOk(s, d, i0) && Evaluating(pc, x);
    SameIndex(s.db.table, s'.db.table, x);
    forall j | 0 <= j < |s'.threads| && Evaluating(s'.threads[j].pc, x)
      ensures j == k && pc.AtAddAlert? && Verdict(s'.threads[j].pc) == Verdict(pc)
    {
    }
    assert pc.AtAddAlert? ==> Evaluating(s'.threads[k].pc, x);
    assert SlotOk(s', d, i0);
    SlotsAfter(s, d, s', d, k, x);
  }

  lemma CatchUpAlerts(s: System, d: Db, s': System, k: nat)
    requires k < |s.threads| && Working(s.threads[k].pc)
    requires Beside(s, d) && OnlyMoved(s, s', k, s.threads[k].pc.id) && AloneOn(s, k, s.threads[k].pc.id)
    requires k < |s'.threads| && CaughtUp(s, s', k) && |s.threads[k].pc.id| < MAX_ID_LEN
    ensures forall y :: AlertsOk(s', d, y)
  {
    hide Lookup, SlotOk, IndexOf;
    var pc, x := s.threads[k].pc, s.threads[k].pc.id;
    var es := if pc.AtAddAlert? then [OwedBy(pc)] else [];
    assert d.alerts + [] == d.alerts && s.db.alerts + [] == s.db.alerts && Cut(x, MAX_ID_LEN) == x;
    assert AlertsOk(s, d, x);
    forall j | 0 <= j < |s'.threads| ensures !(s'.threads[j].pc.AtAddAlert? && s'.threads[j].pc.id == x) {
      assert j != k ==> s'.threads[j] == s.threads[j];
    }
    if pc.AtAddAlert? {
      AlertsSnoc(s.db.alerts, OwedBy(pc), x);
    } else {
      assert forall j :: 0 <= j < |s.threads| ==> !(s.threads[j].pc.AtAddAlert? && s.threads[j].pc.id == x);
    }
    AlertsAfter(s, d, s', d, k, x, es, []);
  }

  // Every step

  /** Moves of a thread that has nothing to do on the shared state, before or after. */
  lemma RestBeside(s: System, d: Db, s': System, k: nat)
    requires Beside(s, d) && k < |s.threads| == |s'.threads| && s'.db == s.db
         && s'.threads == s.threads[k := s'.threads[k]]
    requires !s.threads[k].pc.AtAddAlert? && !s.threads[k].pc.AtSetLevel?
    requires !s'.threads[k].pc.AtAddAlert? && !s'.threads[k].pc.AtSetLevel?
    ensures Beside(s', d)
  {
    hide IndexOf;
    assert forall j :: 0 <= j < |s.threads| && j != k ==> s'.threads[j] == s.threads[j];
    forall i | 0 <= i < |s.db.table| ensures SlotOk(s', d, i) {
      RestSlot(s, d, s', k, i);
    }
    forall x ensures AlertsOk(s', d, x) {
      RestAlerts(s, d, s', k, x);
    }
  }

  lemma RestSlot(s: System, d: Db, s': System, k: nat, i: nat)
    requires i < |s.db.table| == |d.table| && SlotOk(s, d, i) && s'.db == s.db && k < |s.threads| == |s'.threads|
    requires forall j :: 0 <= j < |s.threads| && j != k ==> s'.threads[j] == s.threads[j]
    requires !s.threads[k].pc.AtAddAlert? && !s.threads[k].pc.AtSetLevel?
    requires !s'.threads[k].pc.AtAddAlert? && !s'.threads[k].pc.AtSetLevel?
    ensures SlotOk(s', d, i)
  {
    hide IndexOf;
    var x := s.db.table[i].id;
    forall j | 0 <= j < |s.threads| ensures Evaluating(s'.threads[j].pc, x) <==> Evaluating(s.threads[j].pc, x) {
    }
  }

  lemma RestAlerts(s: System, d: Db, s': System, k: nat, x: string)
    requires AlertsOk(s, d, x) && s'.db == s.db && k < |s.threads| == |s'.threads|
    requires forall j :: 0 <= j < |s.threads| && j != k ==> s'.threads[j] == s.threads[j]
    requires !s.threads[k].pc.AtAddAlert? && !s'.threads[k].pc.AtAddAlert?
    ensures AlertsOk(s', d, x)
  {
    forall j | 0 <= j < |s.threads| ensures s'.threads[j].pc.AtAddAlert? <==> s.threads[j].pc.AtAddAlert? {
    }
  }

  /** The order of each connection is kept when only `k` moves. */
  lemma OrderKept(s: System, s': System, serial: seq<Answer>, serial': seq<Answer>, k: nat, es: seq<Answer>,
      gs: seq<Answer>)
    requires k < |s.threads| == |s'.threads|
    requires forall j :: 0 <= j < |s.threads| && j != k ==> s'.threads[j] == s.threads[j]
    requires forall j :: 0 <= j < |s.threads| ==> InOrder(s, serial, j)
    requires s'.answers == s.answers + es && serial' == serial + gs && |es| <= 1 && |gs| <= 1
    requires (es != [] ==> es[0].thread == k) && (gs != [] ==> gs[0].thread == k)
    requires OneByOne(s.threads[k], s'.threads[k], k, es, gs)
    ensures forall j :: 0 <= j < |s'.threads| ==> InOrder(s', serial', j)
  {
    hide OfThread;
    forall j | 0 <= j < |s'.threads| ensures InOrder(s', serial', j) {
      assert InOrder(s, serial, j);
      OfThreadMore(s.answers, es, j);
      OfThreadMore(serial, gs, j);
      var a := OfThread(s.answers, j);
      if j == k {
        var dec := if Decided(s.threads[k].pc).Some? then [Answer(k, s.threads[k].cmd,
            Decided(s.threads[k].pc).value)] else [];
        var dec' := if Decided(s'.threads[k].pc).Some? then [Answer(k, s'.threads[k].cmd,
            Decided(s'.threads[k].pc).value)] else [];
        assert a + dec + gs == a + (dec + gs) && a + es + dec' == a + (es + dec');
      } else {
        assert OfThread(s.answers, j) + [] == OfThread(s.answers, j) && OfThread(serial, j) + [] == OfThread(serial, j);
      }
    }
  }

  /** What a connection has decided and answered grows by the same entries, answers after decisions. */
  ghost predicate OneByOne(t: Thread, t': Thread, k: nat, es: seq<Answer>, gs: seq<Answer>) {
    (if Decided(t.pc).Some? then [Answer(k, t.cmd, Decided(t.pc).value)] else []) + gs
    == es + (if Decided(t'.pc).Some? then [Answer(k, t'.cmd, Decided(t'.pc).value)] else [])
  }

  lemma OfThreadMore(answers: seq<Answer>, es: seq<Answer>, j: nat)
    requires |es| <= 1
    ensures OfThread(answers + es, j) == OfThread(answers, j) + if es != [] && es[0].thread == j then es else []
  {
    if es == [] {
      assert answers + es == answers && OfThread(answers, j) + [] == OfThread(answers, j);
    } else {
      assert es == [es[0]];
      OfThreadSnoc(answers, es[0], j);
    }
  }

  lemma StillActiveAfter(cfg: Config, s: System, k: nat)
    requires StillActive(s) && k < |s.threads| && Working(s.threads[k].pc) && AloneOn(s, k, s.threads[k].pc.id)
    requires var s' := Step(cfg, s, Run(k));
             s'.threads[k].pc.AtAddMetric? ==> IsActive(s'.db, s'.threads[k].pc.id)
    ensures StillActive(Step(cfg, s, Run(k)))
  {
    OthersStayActive(cfg, s, k);
    hide Section, Committed, IsActive;
    var s' := Step(cfg, s, Run(k));
    assert forall j :: 0 <= j < |s.threads| && j != k ==> s'.threads[j] == s.threads[j];
  }

  lemma NextIsNotAdd(cfg: Config, db: Db, pc: Pc)
    requires Working(pc) && !Decides(pc)
    ensures !Section(cfg, db, pc).1.AtAddMetric?
  {
    hide Lookup, Put;
  }

  /** What a step of thread `k` adds to the serial order, if anything. */
  ghost predicate Adds1(cfg: Config, d: Db, k: nat, gs: seq<Answer>, d': Db) {
    if gs == [] then d' == d
    else |gs| == 1 && gs[0].thread == k && Handle(cfg, d, gs[0].cmd) == (d', gs[0].reply)
  }

  lemma Decision(cfg: Config, s: System, d: Db, k: nat) returns (gs: seq<Answer>, d': Db)
    requires Accounted(cfg, s) && StillActive(s) && Exclusive(s) && Beside(s, d) && k < |s.threads|
         && Working(s.threads[k].pc)
    ensures var s' := Step(cfg, s, Run(k));
            && |s'.threads| == |s.threads| && Beside(s', d') && Adds1(cfg, d, k, gs, d')
            && OneByOne(s.threads[k], s'.threads[k], k, [], gs)
            && (s'.threads[k].pc.AtAddMetric? ==> IsActive(s'.db, s'.threads[k].pc.id))
  {
    var t, s' := s.threads[k], Step(cfg, s, Run(k));
    assert ThreadOk(cfg, s.db, t);
    WorkMoves(cfg, s, k);
    DecidedWhen(cfg, s.db, t.pc);
    hide Section, Committed, Accounted, Beside, OnlyMoved, ThreadOk, Step, Exclusive, Handle, StillActive, IsActive;
    if Decides(t.pc) {
      DecideBeside(cfg, s, d, k);
      DecideHandles(cfg, s.db, t, d);
      DecidedWhen(cfg, d, t.pc);
      FoundActive(cfg, s, k);
      d' := Section(cfg, d, t.pc).0;
      gs := if s'.threads[k].pc.AtReply? then [Answer(k, t.cmd, s'.threads[k].pc.reply)] else [];
    } else {
      NextIsNotAdd(cfg, s.db, t.pc);
      if t.pc.AtAddMetric? {
        AddBeside(cfg, s, d, k);
        gs, d' := [Answer(k, t.cmd, Accepted)], Handle(cfg, d, t.cmd).0;
      } else {
        CatchUpBeside(cfg, s, d, k);
        gs, d' := [], d;
      }
    }
  }

  lemma Assemble(cfg: Config, s: System, s': System, serial: seq<Answer>, d: Db, d': Db, k: nat,
                 es: seq<Answer>, gs: seq<Answer>)
    requires SerialOk(cfg, s, serial, d) && k < |s.threads| == |s'.threads|
    requires forall j :: 0 <= j < |s.threads| && j != k ==> s'.threads[j] == s.threads[j]
    requires s'.answers == s.answers + es && |es| <= 1 && (es != [] ==> es[0].thread == k)
    requires Adds1(cfg, d, k, gs, d') && OneByOne(s.threads[k], s'.threads[k], k, es, gs)
    requires Accounted(cfg, s') && StillActive(s') && Beside(s', d')
    ensures SerialOk(cfg, s', serial + gs, d')
  {
    hide Accounted, Beside, Handle, InOrder, Handled, StillActive, OneByOne;
    if gs != [] {
      assert gs == [gs[0]];
      HandledSnoc(cfg, serial, d, gs[0], d');
    } else {
      assert serial + gs == serial;
    }
    OrderKept(s, s', serial, serial + gs, k, es, gs);
  }

  /** A section: what it decides is handled next in the serial order. */
  lemma WorkSerial(cfg: Config, s: System, serial: seq<Answer>, d: Db, k: nat) returns (serial': seq<Answer>, d': Db)
    requires SerialOk(cfg, s, serial, d) && Exclusive(s) && k < |s.threads| && Working(s.threads[k].pc)
    ensures SerialOk(cfg, Step(cfg, s, Run(k)), serial', d')
  {
    var s' := Step(cfg, s, Run(k));
    StepAccounted(cfg, s, Run(k));
    WorkMoves(cfg, s, k);
    assert Accounted(cfg, s) && StillActive(s) && Beside(s, d);
    hide SerialOk, Section, Accounted, Beside, Step, Exclusive, StillActive, IsActive, OneByOne, Adds1;
    var gs;
    gs, d' := Decision(cfg, s, d, k);
    StillActiveAfter(cfg, s, k);
    serial' := serial + gs;
    assert s.answers + [] == s.answers;
    Assemble(cfg, s, s', serial, d, d', k, [], gs);
  }

  lemma DecidedWhen(cfg: Config, db: Db, pc: Pc)
    requires Working(pc)
    ensures Decides(pc) || pc.AtAddMetric? ==> Decided(pc) == None
    ensures Decides(pc) ==>
      var pc' := Section(cfg, db, pc).1;
      Decided(pc') == if pc'.AtReply? then Some(pc'.reply) else None
  {
    if Decides(pc) {
      NotEvaluating(cfg, db, pc);
    }
    hide Section;
  }

  lemma FoundActive(cfg: Config, s: System, k: nat)
    requires k < |s.threads| && Decides(s.threads[k].pc)
    ensures var s' := Step(cfg, s, Run(k)); s'.threads[k].pc.AtAddMetric? ==> IsActive(s'.db, s'.threads[k].pc.id)
  {
    DecidesNext(cfg, s.db, s.threads[k].pc);
    hide Section, Committed, IsActive;
  }

  /** Connecting, receiving, hanging up and answering. */
  lemma RestSerial(cfg: Config, s: System, serial: seq<Answer>, d: Db, l: Label) returns (serial': seq<Answer>)
    requires SerialOk(cfg, s, serial, d) && Enabled(s, l) && !Working(s.threads[l.thread].pc)
    ensures SerialOk(cfg, Step(cfg, s, l), serial', d)
  {
    var k, s' := l.thread, Step(cfg, s, l);
    var t, t' := s.threads[k], s'.threads[k];
    StepAccounted(cfg, s, l);
    RestMoves(cfg, s, l);
    assert Beside(s, d);
    hide SerialOk, Accounted, Beside, Step, Handle, StillActive, OneByOne, Dispatch;
    var gs := if l.Receive? && Decided(t'.pc).Some? then [Answer(k, t'.cmd, Decided(t'.pc).value)] else [];
    var es := if t.pc.AtReply? then [Answer(k, t.cmd, t.pc.reply)] else [];
    RestBeside(s, d, s', k);
    serial' := serial + gs;
    Assemble(cfg, s, s', serial, d, d, k, es, gs);
  }

  lemma RestMoves(cfg: Config, s: System, l: Label)
    requires Enabled(s, l) && !Working(s.threads[l.thread].pc) && StillActive(s)
    ensures var k, s' := l.thread, Step(cfg, s, l);
            var t, t' := s.threads[k], s'.threads[k];
            var gs := if l.Receive? && Decided(t'.pc).Some? then [Answer(k, t'.cmd, Decided(t'.pc).value)] else [];
            var es := if t.pc.AtReply? then [Answer(k, t.cmd, t.pc.reply)] else [];
            && s'.db == s.db && s'.threads == s.threads[k := t'] && s'.answers == s.answers + es
            && !t'.pc.AtAddAlert? && !t'.pc.AtSetLevel? && StillActive(s') && OneByOne(t, t', k, es, gs)
            && (gs != [] ==> forall d: Db :: Handle(cfg, d, t'.cmd) == (d, gs[0].reply))
  {
    hide IsActive;
    assert s.answers + [] == s.answers;
    if l.Receive? {
      DispatchRests(l.tokens);
    }
    hide Dispatch, Section;
    var k, s' := l.thread, Step(cfg, s, l);
    forall j | 0 <= j < |s'.threads| && s'.threads[j].pc.AtAddMetric? ensures IsActive(s'.db, s'.threads[j].pc.id) {
      assert j != k && s'.threads[j] == s.threads[j];
    }
  }

  lemma DispatchRests(tokens: seq<string>)
    ensures var pc := Dispatch(tokens); !pc.AtAddAlert? && !pc.AtSetLevel? && !pc.AtAddMetric?
  {
  }

  lemma {:induction false} RunsSerial(cfg: Config, s: System, ls: seq<Label>, serial: seq<Answer>, d: Db)
    returns (serial': seq<Answer>, d': Db)
    requires SerialOk(cfg, s, serial, d) && NoOverlap(cfg, s, ls)
    ensures SerialOk(cfg, Exec(cfg, s, ls), serial', d')
    decreases |ls|
  {
    serial', d' := serial, d;
    if ls != [] {
      var l := ls[0];
      if Enabled(s, l) {
        if Working(s.threads[l.thread].pc) {
          WorkingRuns(s, l);
          serial', d' := WorkSerial(cfg, s, serial, d, l.thread);
        } else {
          serial' := RestSerial(cfg, s, serial, d, l);
        }
      } else {
        assert Step(cfg, s, l) == s;
      }
      hide SerialOk, Step, Exclusive, Working;
      serial', d' := RunsSerial(cfg, Step(cfg, s, l), ls[1..], serial', d');
    }
  }

  lemma WorkingRuns(s: System, l: Label)
    requires Enabled(s, l) && Working(s.threads[l.thread].pc)
    ensures l == Run(l.thread)
  {
  }

  function Cmds(serial: seq<Answer>): seq<seq<string>> {
    seq(|serial|, i requires 0 <= i < |serial| => serial[i].cmd)
  }

  function ReplyOf(serial: seq<Answer>): seq<Reply> {
    seq(|serial|, i requires 0 <= i < |serial| => serial[i].reply)
  }

  lemma {:induction false} HandleAllSnoc(cfg: Config, db: Db, cmds: seq<seq<string>>, cmd: seq<string>)
    ensures var (db1, rs) := HandleAll(cfg, db, cmds);
            var (db2, r) := Handle(cfg, db1, cmd);
            HandleAll(cfg, db, cmds + [cmd]) == (db2, rs + [r])
    decreases |cmds|
  {
    hide Handle;
    if cmds == [] {
      var (db2, r) := Handle(cfg, db, cmd);
      assert cmds + [cmd] == [cmd] && [cmd][1..] == [];
      assert HandleAll(cfg, db2, []) == (db2, []) && [r] + [] == [] + [r];
    } else {
      assert (cmds + [cmd])[1..] == cmds[1..] + [cmd];
      var (db0, first) := Handle(cfg, db, cmds[0]);
      HandleAllSnoc(cfg, db0, cmds[1..], cmd);
      var (db1, rs) := HandleAll(cfg, db0, cmds[1..]);
      var r := Handle(cfg, db1, cmd).1;
      assert [first] + (rs + [r]) == [first] + rs + [r];
    }
  }

  lemma {:induction false} HandledInTurn(cfg: Config, serial: seq<Answer>, d: Db)
    requires Handled(cfg, serial, d)
    ensures HandleAll(cfg, EMPTY, Cmds(serial)) == (d, ReplyOf(serial))
    decreases |serial|
  {
    hide Handle;
    if serial == [] {
      assert Cmds(serial) == [] && ReplyOf(serial) == [];
    } else {
      var a, before := serial[|serial| - 1], Butlast(serial);
      var d0 :| Handled(cfg, before, d0) && Handle(cfg, d0, a.cmd) == (d, a.reply);
      HandledInTurn(cfg, before, d0);
      HandleAllSnoc(cfg, EMPTY, Cmds(before), a.cmd);
      assert Cmds(serial) == Cmds(before) + [a.cmd] && ReplyOf(serial) == ReplyOf(before) + [a.reply];
    }
  }

  /** Handling the commands of `serial` whole, in its order, gives all that `s` has come to. */
  ghost predicate Serializes(cfg: Config, s: System, serial: seq<Answer>) {
    var (d, replies) := HandleAll(cfg, EMPTY, Cmds(serial));
    && replies == ReplyOf(serial)
    && (forall k :: 0 <= k < |s.threads| ==> OfThread(serial, k) == OfThread(s.answers, k))
    && (forall i :: 0 <= i < |serial| ==> serial[i].thread < |s.threads|)
    && d.table == s.db.table && d.metrics == s.db.metrics
    && forall x :: AlertsOf(d.alerts, x) == AlertsOf(s.db.alerts, x)
  }

  /**
   Serializability: if in a run no two commands on one id overlap, then once no command is in service the
   run has the replies, the table, the metric log and, for each id, the alerts of handling its commands
   whole, one after the other, in an order that keeps that of each connection.
   */
  lemma RunsAreSerializable(cfg: Config, n: nat, ls: seq<Label>)
    requires NoOverlap(cfg, Init(n), ls) && Quiet(Exec(cfg, Init(n), ls))
    ensures exists serial :: Serializes(cfg, Exec(cfg, Init(n), ls), serial)
  {
    TotalNone(Unanswered(cfg), Init(n).threads);
    BesideAtFirst(n);
    assert SerialOk(cfg, Init(n), [], EMPTY);
    var serial, d := RunsSerial(cfg, Init(n), ls, [], EMPTY);
    QuietSerializes(cfg, Exec(cfg, Init(n), ls), serial, d);
  }

  lemma BesideAtFirst(n: nat)
    ensures Beside(Init(n), EMPTY)
  {
  }

  lemma QuietSerializes(cfg: Config, s: System, serial: seq<Answer>, d: Db)
    requires SerialOk(cfg, s, serial, d) && Quiet(s)
    ensures Serializes(cfg, s, serial)
  {
    HandledInTurn(cfg, serial, d);
    hide IndexOf, Handled, Accounted, OfThread, HandleAll;
    forall i | 0 <= i < |s.db.table| ensures d.table[i] == s.db.table[i] {
      assert SlotOk(s, d, i) && NoneEvaluating(s.threads, s.db.table[i].id);
    }
    assert d.table == s.db.table;
    forall x ensures AlertsOf(d.alerts, x) == AlertsOf(s.db.alerts, x) {
      assert AlertsOk(s, d, x);
    }
    forall k | 0 <= k < |s.threads| ensures OfThread(serial, k) == OfThread(s.answers, k) {
      assert InOrder(s, serial, k);
      assert OfThread(s.answers, k) + [] == OfThread(s.answers, k);
    }
  }
}
