/**
 When overlapping METRICs endanger the alert level. Among evaluations that have all stored their metric:
 exactly when one carries a verdict that differs from the last value's (`AgreementIsSafe`). Among all
 METRICs in service, stored or not: exactly when two are heading for different levels, or none is left
 to store and the evaluations are not safe (`AgreementIsSettled`).
 */
module LevelExact {
  import opened Records
  import opened Text
  import opened Database
  import opened Server
  import opened Lifecycle
  import opened LevelAgreement

  /** The level an evaluation is going to set. */
  function Verdict(pc: Pc): Level
    requires pc.AtAddAlert? || pc.AtSetLevel?
  {
    if pc.AtAddAlert? then Alert else pc.level
  }

  ghost predicate LevelRight(r: Sensor) {
    r.level == LevelFor(r.kind, r.lastValue)
  }

  /** Every unfinished evaluation of `id` agrees with the last value, and the level does if there is none. */
  ghost predicate Safe(s: System, id: string)
    requires Lookup(s.db.table, id).Some?
  {
    var r := Lookup(s.db.table, id).value;
    && (forall k :: 0 <= k < |s.threads| && Evaluating(s.threads[k].pc, id) ==>
          Verdict(s.threads[k].pc) == LevelFor(r.kind, r.lastValue))
    && (NoneEvaluating(s.threads, id) ==> LevelRight(r))
  }

  /** A run in which only evaluations of `id` proceed. */
  ghost predicate Finishing(cfg: Config, s: System, ls: seq<Label>, id: string)
    decreases |ls|
  {
    ls == [] || (FinishingStep(s, ls[0], id) && Finishing(cfg, Step(cfg, s, ls[0]), ls[1..], id))
  }

  ghost predicate FinishingStep(s: System, l: Label, id: string) {
    l.Run? && l.thread < |s.threads| && Evaluating(s.threads[l.thread].pc, id)
  }

  /** What one step of an evaluation does. */
  lemma EvaluationStep(cfg: Config, s: System, k: nat, id: string)
    requires k < |s.threads| && Evaluating(s.threads[k].pc, id) && Lookup(s.db.table, id).Some?
    ensures var s' := Step(cfg, s, Run(k));
            var t, r := s.threads[k], Lookup(s.db.table, id).value;
            if t.pc.AtAddAlert?
            then s'.threads == s.threads[k := t.(pc := AtSetLevel(id, Alert))] && s'.db.table == s.db.table
            else && s'.threads == s.threads[k := t.(pc := AtReply(Accepted))]
                 && Lookup(s'.db.table, id) == Some(r.(level := t.pc.level))
  {
    hide IndexOf;
    SectionLookup(cfg, s.db, s.threads[k].pc, id);
  }

  lemma StaysSafe(cfg: Config, s: System, k: nat, id: string)
    requires Lookup(s.db.table, id).Some? && Safe(s, id) && k < |s.threads| && Evaluating(s.threads[k].pc, id)
    ensures var s' := Step(cfg, s, Run(k)); Lookup(s'.db.table, id).Some? && Safe(s', id)
  {
    EvaluationStep(cfg, s, k, id);
    hide Lookup, Step;
    var s', r := Step(cfg, s, Run(k)), Lookup(s.db.table, id).value;
    forall j | 0 <= j < |s'.threads| && Evaluating(s'.threads[j].pc, id)
      ensures Verdict(s'.threads[j].pc) == LevelFor(r.kind, r.lastValue)
    {
      if j != k {
        assert s'.threads[j] == s.threads[j];
      }
    }
    assert s.threads[k].pc.AtAddAlert? ==> Evaluating(s'.threads[k].pc, id);
  }

  lemma {:induction false} SafeFinishes(cfg: Config, s: System, ls: seq<Label>, id: string)
    requires Lookup(s.db.table, id).Some? && Safe(s, id) && Finishing(cfg, s, ls, id)
    ensures var s' := Exec(cfg, s, ls);
            NoneEvaluating(s'.threads, id) ==>
              Lookup(s'.db.table, id).Some? && LevelRight(Lookup(s'.db.table, id).value)
    decreases |ls|
  {
    if ls != [] {
      hide Lookup, Step;
      EvaluationStep(cfg, s, ls[0].thread, id);
      StaysSafe(cfg, s, ls[0].thread, id);
      SafeFinishes(cfg, Step(cfg, s, ls[0]), ls[1..], id);
    }
  }

  lemma FinishingCons(cfg: Config, s: System, l: Label, ls: seq<Label>, id: string)
    ensures Finishing(cfg, s, [l] + ls, id) <==> FinishingStep(s, l, id) && Finishing(cfg, Step(cfg, s, l), ls, id)
  {
    assert ([l] + ls)[1..] == ls;
  }

  lemma SplitFirst(a: seq<Label>, b: seq<Label>)
    requires a != []
    ensures a == [a[0]] + a[1..] && a + b == [a[0]] + (a[1..] + b)
  {
  }

  lemma {:induction false} FinishingConcat(cfg: Config, s: System, a: seq<Label>, b: seq<Label>, id: string)
    requires Finishing(cfg, s, a, id) && Finishing(cfg, Exec(cfg, s, a), b, id)
    ensures Finishing(cfg, s, a + b, id)
    decreases |a|
  {
    if a == [] {
      ExecNone(cfg, s);
      assert a + b == b;
    } else {
      hide Step, FinishingStep, Finishing, Exec;
      SplitFirst(a, b);
      FinishingCons(cfg, s, a[0], a[1..], id);
      ExecCons(cfg, s, a[0], a[1..]);
      FinishingConcat(cfg, Step(cfg, s, a[0]), a[1..], b, id);
      FinishingCons(cfg, s, a[0], a[1..] + b, id);
    }
  }

  /** Running one evaluation to its end. */
  lemma FinishOne(cfg: Config, s: System, k: nat, id: string) returns (ls: seq<Label>)
    requires k < |s.threads| && Evaluating(s.threads[k].pc, id) && Lookup(s.db.table, id).Some?
    ensures Finishing(cfg, s, ls, id)
    ensures var s', t := Exec(cfg, s, ls), s.threads[k];
            && s'.threads == s.threads[k := t.(pc := AtReply(Accepted))]
            && Lookup(s'.db.table, id) == Some(Lookup(s.db.table, id).value.(level := Verdict(t.pc)))
  {
    hide Lookup;
    EvaluationStep(cfg, s, k, id);
    var s1 := Step(cfg, s, Run(k));
    NothingToFinish(cfg, Step(cfg, s1, Run(k)), id);
    NothingToFinish(cfg, s1, id);
    FinishingCons(cfg, s1, Run(k), [], id);
    if s.threads[k].pc.AtAddAlert? {
      EvaluationStep(cfg, s1, k, id);
      ls := [Run(k)] + ([Run(k)] + []);
      hide Step;
      FinishingCons(cfg, s, Run(k), [Run(k)] + [], id);
      ExecCons(cfg, s, Run(k), [Run(k)] + []);
      ExecCons(cfg, s1, Run(k), []);
    } else {
      ls := [Run(k)] + [];
      hide Step;
      FinishingCons(cfg, s, Run(k), [], id);
      ExecCons(cfg, s, Run(k), []);
    }
  }

  /** The value and type the record shows do not change while evaluations finish. */
  ghost predicate SameShown(s: System, s': System, id: string) {
    && Lookup(s.db.table, id).Some? && Lookup(s'.db.table, id).Some?
    && var r, r' := Lookup(s.db.table, id).value, Lookup(s'.db.table, id).value;
       r'.kind == r.kind && r'.lastValue == r.lastValue
  }

  /** Running every evaluation but that of thread `k` to its end, among the first `i` threads. */
  lemma {:induction false} FinishOthers(cfg: Config, s: System, i: nat, k: nat, id: string) returns (ls: seq<Label>)
    requires i <= |s.threads| && k < |s.threads| && Lookup(s.db.table, id).Some?
    ensures Finishing(cfg, s, ls, id)
    ensures var s' := Exec(cfg, s, ls);
            && |s'.threads| == |s.threads| && s'.threads[k] == s.threads[k] && SameShown(s, s', id)
            && (forall j :: 0 <= j < i && j != k ==> !Evaluating(s'.threads[j].pc, id))
            && (forall j :: i <= j < |s.threads| ==> s'.threads[j] == s.threads[j])
    decreases i
  {
    hide Lookup, Step;
    if i == 0 {
      ls := [];
      ExecNone(cfg, s);
    } else {
      ls := FinishOthers(cfg, s, i - 1, k, id);
      var s1 := Exec(cfg, s, ls);
      if i - 1 != k && Evaluating(s1.threads[i - 1].pc, id) {
        var more := FinishOne(cfg, s1, i - 1, id);
        FinishingConcat(cfg, s, ls, more, id);
        ExecConcat(cfg, s, ls, more);
        ls := ls + more;
      }
    }
  }

  /** Every order of finishing the evaluations of `id` leaves level and last value in agreement. */
  ghost predicate FinishesRight(cfg: Config, s: System, id: string) {
    forall ls :: Finishing(cfg, s, ls, id) && NoneEvaluating(Exec(cfg, s, ls).threads, id) ==>
      var s' := Exec(cfg, s, ls); Lookup(s'.db.table, id).Some? && LevelRight(Lookup(s'.db.table, id).value)
  }

  lemma UnsafeFinishes(cfg: Config, s: System, k: nat, id: string)
    requires Lookup(s.db.table, id).Some? && k < |s.threads| && Evaluating(s.threads[k].pc, id)
    requires var r := Lookup(s.db.table, id).value; Verdict(s.threads[k].pc) != LevelFor(r.kind, r.lastValue)
    ensures !FinishesRight(cfg, s, id)
  {
    hide Lookup, Step, LevelFor;
    var a := FinishOthers(cfg, s, |s.threads|, k, id);
    var s1 := Exec(cfg, s, a);
    var b := FinishOne(cfg, s1, k, id);
    FinishingConcat(cfg, s, a, b, id);
    ExecConcat(cfg, s, a, b);
    assert Exec(cfg, s, a + b) == Exec(cfg, s1, b) && Finishing(cfg, s, a + b, id);
  }

  /**
   From any state, every order of finishing the evaluations of a known sensor leaves its level in
   agreement with its last value if and only if the state is safe.
   */
  lemma AgreementIsSafe(cfg: Config, s: System, id: string)
    requires Lookup(s.db.table, id).Some?
    ensures Safe(s, id) <==> FinishesRight(cfg, s, id)
  {
    hide Lookup, Step, LevelFor, Exec, Finishing, Verdict, LevelRight;
    if Safe(s, id) {
      forall ls | Finishing(cfg, s, ls, id) && NoneEvaluating(Exec(cfg, s, ls).threads, id)
        ensures var s' := Exec(cfg, s, ls); Lookup(s'.db.table, id).Some? && LevelRight(Lookup(s'.db.table, id).value)
      {
        SafeFinishes(cfg, s, ls, id);
      }
    } else if NoneEvaluating(s.threads, id) {
      NothingToFinish(cfg, s, id);
    } else {
      var r := Lookup(s.db.table, id).value;
      var k :| 0 <= k < |s.threads| && Evaluating(s.threads[k].pc, id)
               && Verdict(s.threads[k].pc) != LevelFor(r.kind, r.lastValue);
      UnsafeFinishes(cfg, s, k, id);
    }
  }

  lemma NothingToFinish(cfg: Config, s: System, id: string)
    ensures Finishing(cfg, s, [], id) && Exec(cfg, s, []) == s
  {
  }

  // METRICs that have not stored yet

  /** A METRIC of `id` is in service and not yet answered or refused. */
  predicate InService(pc: Pc, id: string) {
    (pc.AtFindForMetric? || pc.AtAddMetric? || pc.AtAddAlert? || pc.AtSetLevel?) && pc.id == id
  }

  predicate NoneInService(ts: seq<Thread>, id: string) {
    forall k :: 0 <= k < |ts| ==> !InService(ts[k].pc, id)
  }

  /** The level that a METRIC in service is heading for; None when it is going to be refused. */
  function Heading(cfg: Config, r: Sensor, pc: Pc): Option<Level> {
    match pc
    case AtFindForMetric(_, text, ts) =>
      if r.status == Active && cfg.parse(text).Some? && ValidTimestamp(ts)
      then Some(LevelFor(r.kind, cfg.parse(text).value)) else None
    case AtAddMetric(_, v, _, copy) => Some(LevelFor(copy.kind, v))
    case AtAddAlert(_, _, _, _, _) => Some(Alert)
    case AtSetLevel(_, level) => Some(level)
    case _ => None
  }

  /** Heads for a level and has not stored its metric. */
  predicate ToStore(cfg: Config, r: Sensor, pc: Pc, id: string) {
    InService(pc, id) && (pc.AtFindForMetric? || pc.AtAddMetric?) && Heading(cfg, r, pc).Some?
  }

  /** The copies that METRICs of `id` took have its type. */
  ghost predicate CopiesFit(s: System, id: string)
    requires Lookup(s.db.table, id).Some?
  {
    forall k :: 0 <= k < |s.threads| && s.threads[k].pc.AtAddMetric? && s.threads[k].pc.id == id ==>
      s.threads[k].pc.copy.kind == Lookup(s.db.table, id).value.kind
  }

  ghost predicate Heads(cfg: Config, s: System, id: string, k: int, level: Level)
    requires Lookup(s.db.table, id).Some?
  {
    && 0 <= k < |s.threads| && InService(s.threads[k].pc, id)
    && Heading(cfg, Lookup(s.db.table, id).value, s.threads[k].pc) == Some(level)
  }

  ghost predicate NoneToStore(cfg: Config, s: System, id: string)
    requires Lookup(s.db.table, id).Some?
  {
    forall k :: 0 <= k < |s.threads| ==> !ToStore(cfg, Lookup(s.db.table, id).value, s.threads[k].pc, id)
  }

  /** All METRICs of `id` in service head for the same level, and it is safe once none is left to store. */
  ghost predicate Settled(cfg: Config, s: System, id: string)
    requires Lookup(s.db.table, id).Some?
  {
    && !(exists j, k :: Heads(cfg, s, id, j, Normal) && Heads(cfg, s, id, k, Alert))
    && (NoneToStore(cfg, s, id) ==> Safe(s, id))
  }

  /** A run in which only METRICs of `id` that are in service proceed. */
  ghost predicate Proceeding(cfg: Config, s: System, ls: seq<Label>, id: string)
    decreases |ls|
  {
    ls == [] || (ProceedingStep(s, ls[0], id) && Proceeding(cfg, Step(cfg, s, ls[0]), ls[1..], id))
  }

  ghost predicate ProceedingStep(s: System, l: Label, id: string) {
    l.Run? && l.thread < |s.threads| && InService(s.threads[l.thread].pc, id)
  }

  function ToGo(pc: Pc): nat {
    match pc
    case AtFindForMetric(_, _, _) => 4
    case AtAddMetric(_, _, _, _) => 3
    case AtAddAlert(_, _, _, _, _) => 2
    case AtSetLevel(_, _) => 1
    case _ => 0
  }

  /** What one section of a METRIC does to the record `r` and to where the METRIC is heading. */
  ghost predicate Proceeds(cfg: Config, r: Sensor, pc: Pc, r': Sensor, pc': Pc, id: string) {
    && r'.kind == r.kind && r'.status == r.status && ToGo(pc') < ToGo(pc)
    && (InService(pc', id) ==> Heading(cfg, r', pc') == Heading(cfg, r, pc))
    && (pc'.AtAddMetric? ==> pc'.copy.kind == r.kind)
    && match pc
       case AtFindForMetric(_, _, _) =>
         && r' == r && (pc'.AtAddMetric? <==> Heading(cfg, r, pc).Some?)
         && (InService(pc', id) <==> pc'.AtAddMetric?)
       case AtAddMetric(_, _, _, _) =>
         Evaluating(pc', id) && r'.level == r.level && Some(LevelFor(r.kind, r'.lastValue)) == Heading(cfg, r, pc)
       case AtAddAlert(_, _, _, _, _) => Evaluating(pc', id) && r' == r
       case _ => !InService(pc', id) && r'.lastValue == r.lastValue && Some(r'.level) == Heading(cfg, r, pc)
  }

  lemma ServiceProceeds(cfg: Config, db: Db, pc: Pc, id: string)
    requires InService(pc, id) && Lookup(db.table, id).Some?
    requires pc.AtAddMetric? ==> pc.copy.kind == Lookup(db.table, id).value.kind
    ensures Working(pc)
    ensures var (db', pc') := Section(cfg, db, pc);
            && Lookup(db'.table, id).Some?
            && Proceeds(cfg, Lookup(db.table, id).value, pc, Lookup(db'.table, id).value, pc', id)
  {
    hide IndexOf, ValidTimestamp, Put;
    SectionLookup(cfg, db, pc, id);
  }

  ghost function Rec(s: System, id: string): Sensor
    requires Lookup(s.db.table, id).Some?
  {
    Lookup(s.db.table, id).value
  }

  /** A known sensor, and what is assumed of the METRICs in service. */
  ghost predicate Fit(s: System, id: string) {
    Lookup(s.db.table, id).Some? && CopiesFit(s, id)
  }

  /** The step of thread `k` leaves the other threads heading where they were. */
  lemma ServiceStep(cfg: Config, s: System, k: nat, id: string)
    requires Fit(s, id) && k < |s.threads| && InService(s.threads[k].pc, id)
    ensures var s' := Step(cfg, s, Run(k));
            && Fit(s', id) && |s'.threads| == |s.threads| && s'.threads == s.threads[k := s'.threads[k]]
            && Proceeds(cfg, Rec(s, id), s.threads[k].pc, Rec(s', id), s'.threads[k].pc, id)
  {
    hide Lookup, Section, Committed, Proceeds;
    ServiceProceeds(cfg, s.db, s.threads[k].pc, id);
    ProceedsKind(cfg, Rec(s, id), s.threads[k].pc, Rec(Step(cfg, s, Run(k)), id), Step(cfg, s,
        Run(k)).threads[k].pc, id);
  }

  lemma ProceedsKind(cfg: Config, r: Sensor, pc: Pc, r': Sensor, pc': Pc, id: string)
    requires Proceeds(cfg, r, pc, r', pc', id)
    ensures r'.kind == r.kind && r'.status == r.status && (pc'.AtAddMetric? ==> pc'.copy.kind == r.kind)
    ensures forall other :: Heading(cfg, r', other) == Heading(cfg, r, other)
  {
  }

  lemma {:induction false} StaysSettled(cfg: Config, s: System, k: nat, id: string)
    requires Fit(s, id) && Settled(cfg, s, id) && k < |s.threads| && InService(s.threads[k].pc, id)
    ensures var s' := Step(cfg, s, Run(k)); Fit(s', id) && Settled(cfg, s', id)
  {
    ServiceStep(cfg, s, k, id);
    hide Lookup, Step, Heading, LevelFor;
    var s', pc, pc' := Step(cfg, s, Run(k)), s.threads[k].pc, Step(cfg, s, Run(k)).threads[k].pc;
    var r, r' := Rec(s, id), Rec(s', id);
    ProceedsKind(cfg, r, pc, r', pc', id);
    forall j, level | Heads(cfg, s', id, j, level) ensures Heads(cfg, s, id, j, level) {
      assert j != k ==> s'.threads[j] == s.threads[j];
    }
    if NoneToStore(cfg, s', id) {
      SettledThere(cfg, s, k, id);
    }
  }

  lemma SettledThere(cfg: Config, s: System, k: nat, id: string)
    requires Fit(s, id) && Settled(cfg, s, id) && k < |s.threads| && InService(s.threads[k].pc, id)
    requires var s' := Step(cfg, s, Run(k)); Fit(s', id) && NoneToStore(cfg, s', id)
    ensures Safe(Step(cfg, s, Run(k)), id)
  {
    ServiceStep(cfg, s, k, id);
    hide Lookup, Step, LevelFor;
    var s', pc, pc' := Step(cfg, s, Run(k)), s.threads[k].pc, Step(cfg, s, Run(k)).threads[k].pc;
    var r, r' := Rec(s, id), Rec(s', id);
    ProceedsKind(cfg, r, pc, r', pc', id);
    assert forall j :: 0 <= j < |s.threads| && j != k ==> s'.threads[j] == s.threads[j];
    if pc.AtAddMetric? {
      assert Evaluating(pc', id);
      forall j | 0 <= j < |s'.threads| && Evaluating(s'.threads[j].pc, id)
        ensures Verdict(s'.threads[j].pc) == LevelFor(r'.kind, r'.lastValue)
      {
        SameHeading(cfg, s, id, j, k);
      }
    } else {
      assert NoneToStore(cfg, s, id);
    }
  }

  /** Where no two METRICs head for different levels, any two that head for one head for the same. */
  lemma SameHeading(cfg: Config, s: System, id: string, j: nat, k: nat)
    requires Lookup(s.db.table, id).Some?
    requires !(exists a, b :: Heads(cfg, s, id, a, Normal) && Heads(cfg, s, id, b, Alert))
    requires j < |s.threads| && k < |s.threads| && InService(s.threads[j].pc, id) && InService(s.threads[k].pc, id)
    ensures var h, g := Heading(cfg, Rec(s, id), s.threads[j].pc), Heading(cfg, Rec(s, id), s.threads[k].pc);
            h.Some? && g.Some? ==> h == g
  {
    hide Lookup, Heading;
    var h, g := Heading(cfg, Rec(s, id), s.threads[j].pc), Heading(cfg, Rec(s, id), s.threads[k].pc);
    if h.Some? && g.Some? {
      assert Heads(cfg, s, id, j, h.value) && Heads(cfg, s, id, k, g.value);
      assert (h.value == Normal || h.value == Alert) && (g.value == Normal || g.value == Alert);
    }
  }

  lemma {:induction false} SettledProceeds(cfg: Config, s: System, ls: seq<Label>, id: string)
    requires Fit(s, id) && Settled(cfg, s, id) && Proceeding(cfg, s, ls, id)
    ensures var s' := Exec(cfg, s, ls);
            NoneInService(s'.threads, id) ==> Lookup(s'.db.table, id).Some? && LevelRight(Lookup(s'.db.table, id).value)
    decreases |ls|
  {
    if ls == [] {
      hide Lookup;
      assert NoneInService(s.threads, id) ==> NoneToStore(cfg, s, id) && NoneEvaluating(s.threads, id);
    } else {
      hide Lookup, Step, Settled, Fit;
      StaysSettled(cfg, s, ls[0].thread, id);
      SettledProceeds(cfg, Step(cfg, s, ls[0]), ls[1..], id);
    }
  }

  // Completing METRICs in a chosen order

  lemma ProceedingCons(cfg: Config, s: System, l: Label, ls: seq<Label>, id: string)
    ensures Proceeding(cfg, s, [l] + ls, id) <==> ProceedingStep(s, l, id) && Proceeding(cfg, Step(cfg, s, l), ls, id)
  {
    assert ([l] + ls)[1..] == ls;
  }

  lemma {:induction false} ProceedingConcat(cfg: Config, s: System, a: seq<Label>, b: seq<Label>, id: string)
    requires Proceeding(cfg, s, a, id) && Proceeding(cfg, Exec(cfg, s, a), b, id)
    ensures Proceeding(cfg, s, a + b, id)
    decreases |a|
  {
    if a == [] {
      ExecNone(cfg, s);
      assert a + b == b;
    } else {
      hide Step, ProceedingStep, Proceeding, Exec;
      SplitFirst(a, b);
      ProceedingCons(cfg, s, a[0], a[1..], id);
      ExecCons(cfg, s, a[0], a[1..]);
      ProceedingConcat(cfg, Step(cfg, s, a[0]), a[1..], b, id);
      ProceedingCons(cfg, s, a[0], a[1..] + b, id);
    }
  }

  /** What becomes of the record when one METRIC, at `pc` before, has gone on to `pc'`. */
  ghost predicate Done(cfg: Config, r: Sensor, pc: Pc, r': Sensor, id: string) {
    && r'.kind == r.kind && r'.status == r.status
    && match Heading(cfg, r, pc)
       case None => r' == r
       case Some(level) =>
         r'.level == level
         && if ToStore(cfg, r, pc, id) then LevelFor(r.kind, r'.lastValue) == level else r'.lastValue == r.lastValue
  }

  lemma DoneAfter(cfg: Config, r: Sensor, pc: Pc, r1: Sensor, pc1: Pc, r': Sensor, id: string)
    requires InService(pc, id) && Proceeds(cfg, r, pc, r1, pc1, id)
    requires if InService(pc1, id) then Done(cfg, r1, pc1, r', id) else r' == r1
    ensures Done(cfg, r, pc, r', id)
  {
    hide LevelFor, ValidTimestamp;
  }

  /** Thread `k` completes its METRIC and nobody else moves. */
  lemma {:induction false} Complete(cfg: Config, s: System, k: nat, id: string) returns (ls: seq<Label>)
    requires Fit(s, id) && k < |s.threads| && InService(s.threads[k].pc, id)
    ensures Proceeding(cfg, s, ls, id)
    ensures var s' := Exec(cfg, s, ls);
            && Fit(s', id) && |s'.threads| == |s.threads| && s'.threads == s.threads[k := s'.threads[k]]
            && !InService(s'.threads[k].pc, id) && Done(cfg, Rec(s, id), s.threads[k].pc, Rec(s', id), id)
    decreases ToGo(s.threads[k].pc)
  {
    ServiceStep(cfg, s, k, id);
    var s1 := Step(cfg, s, Run(k));
    var r, pc, r1, pc1 := Rec(s, id), s.threads[k].pc, Rec(s1, id), s1.threads[k].pc;
    assert ToGo(pc1) < ToGo(pc);
    hide Lookup, Step, Heading, LevelFor, Proceeds, Done, Exec, Proceeding, Fit, Rec;
    var more := [];
    if InService(pc1, id) {
      more := Complete(cfg, s1, k, id);
    } else {
      ExecNone(cfg, s1);
      NothingToProceed(cfg, s1, id);
    }
    ls := [Run(k)] + more;
    ProceedingCons(cfg, s, Run(k), more, id);
    ExecCons(cfg, s, Run(k), more);
    DoneAfter(cfg, r, pc, r1, pc1, Rec(Exec(cfg, s1, more), id), id);
    assert Exec(cfg, s, ls).threads == s.threads[k := Exec(cfg, s, ls).threads[k]];
  }

  lemma NothingToProceed(cfg: Config, s: System, id: string)
    ensures Proceeding(cfg, s, [], id)
  {
  }

  /** Thread `k` stores its metric and nobody else moves. */
  lemma {:induction false} StoreIt(cfg: Config, s: System, k: nat, id: string) returns (ls: seq<Label>)
    requires Fit(s, id) && k < |s.threads| && ToStore(cfg, Rec(s, id), s.threads[k].pc, id)
    ensures Proceeding(cfg, s, ls, id)
    ensures var s' := Exec(cfg, s, ls);
            && Fit(s', id) && |s'.threads| == |s.threads| && s'.threads == s.threads[k := s'.threads[k]]
            && Rec(s', id).kind == Rec(s, id).kind && Rec(s', id).status == Rec(s, id).status
            && Evaluating(s'.threads[k].pc, id)
            && Heading(cfg, Rec(s', id), s'.threads[k].pc) == Heading(cfg, Rec(s, id), s.threads[k].pc)
    decreases ToGo(s.threads[k].pc)
  {
    ServiceStep(cfg, s, k, id);
    var s1 := Step(cfg, s, Run(k));
    hide Lookup, Step, LevelFor, ValidTimestamp, Exec, Proceeding, Fit;
    var more := [];
    if s.threads[k].pc.AtFindForMetric? {
      more := StoreIt(cfg, s1, k, id);
    } else {
      ExecNone(cfg, s1);
      NothingToProceed(cfg, s1, id);
    }
    ls := [Run(k)] + more;
    ProceedingCons(cfg, s, Run(k), more, id);
    ExecCons(cfg, s, Run(k), more);
    assert Exec(cfg, s, ls).threads == s.threads[k := Exec(cfg, s, ls).threads[k]];
  }

  /** Completing, among the first `i` threads, every METRIC but those of threads `a` and `b`. */
  lemma {:induction false} CompleteOthers(cfg: Config, s: System, i: nat, a: int, b: int, id: string)
    returns (ls: seq<Label>)
    requires Fit(s, id) && i <= |s.threads|
    ensures Proceeding(cfg, s, ls, id)
    ensures var s' := Exec(cfg, s, ls);
            && Fit(s', id) && |s'.threads| == |s.threads|
            && Rec(s', id).kind == Rec(s, id).kind && Rec(s', id).status == Rec(s, id).status
            && (forall j :: 0 <= j < |s.threads| && (j == a || j == b || j >= i) ==> s'.threads[j] == s.threads[j])
            && (forall j :: 0 <= j < i && j != a && j != b ==> !InService(s'.threads[j].pc, id))
            && (NoneToStore(cfg, s, id) ==> Rec(s', id).lastValue == Rec(s, id).lastValue)
            && ((forall j :: 0 <= j < |s.threads| && InService(s.threads[j].pc, id) ==>
                   Heading(cfg, Rec(s, id), s.threads[j].pc) == None) ==> Rec(s', id) == Rec(s, id))
    decreases i
  {
    if i == 0 {
      ls := [];
      ExecNone(cfg, s);
    } else {
      hide Lookup, Step, Heading, Done, Exec, Proceeding, CopiesFit, Rec, InService, ToStore;
      ls := CompleteOthers(cfg, s, i - 1, a, b, id);
      var s1, k := Exec(cfg, s, ls), i - 1;
      if k != a && k != b && InService(s1.threads[k].pc, id) {
        var more := Complete(cfg, s1, k, id);
        ProceedingConcat(cfg, s, ls, more, id);
        ExecConcat(cfg, s, ls, more);
        var s2 := Exec(cfg, s1, more);
        DoneLeaves(cfg, Rec(s, id), Rec(s1, id), s.threads[k].pc, Rec(s2, id), id);
        ls := ls + more;
        assert forall j :: 0 <= j < |s.threads| && j != k ==> s2.threads[j] == s1.threads[j];
      }
    }
  }

  lemma DoneLeaves(cfg: Config, r0: Sensor, r: Sensor, pc: Pc, r': Sensor, id: string)
    requires r.kind == r0.kind && r.status == r0.status && Done(cfg, r, pc, r', id)
    ensures r'.kind == r.kind && r'.status == r.status
    ensures !ToStore(cfg, r0, pc, id) && InService(pc, id) ==> r'.lastValue == r.lastValue
    ensures Heading(cfg, r0, pc) == None ==> r' == r
  {
  }

  /** Every order of completing the METRICs of `id` in service leaves level and last value in agreement. */
  ghost predicate AlwaysAgrees(cfg: Config, s: System, id: string) {
    forall ls :: Proceeding(cfg, s, ls, id) && NoneInService(Exec(cfg, s, ls).threads, id) ==>
      var s' := Exec(cfg, s, ls); Lookup(s'.db.table, id).Some? && LevelRight(Lookup(s'.db.table, id).value)
  }

  /** The last to set the level is heading elsewhere than the last to store. */
  lemma StoreThenSet(cfg: Config, s: System, u: nat, q: nat, id: string)
    requires Fit(s, id) && u < |s.threads| && q < |s.threads| && u != q
    requires ToStore(cfg, Rec(s, id), s.threads[u].pc, id) && InService(s.threads[q].pc, id)
    requires Heading(cfg, Rec(s, id), s.threads[q].pc).Some?
    requires Heading(cfg, Rec(s, id), s.threads[q].pc) != Heading(cfg, Rec(s, id), s.threads[u].pc)
    ensures !AlwaysAgrees(cfg, s, id)
  {
    hide Lookup, Step, LevelFor, Exec, Proceeding, CopiesFit, Rec, Heading;
    var ls := CompleteOthers(cfg, s, |s.threads|, u, q, id);
    var s1 := Exec(cfg, s, ls);
    HeadingSame(cfg, Rec(s, id), Rec(s1, id));
    if ToStore(cfg, Rec(s1, id), s1.threads[q].pc, id) {
      var more := StoreIt(cfg, s1, q, id);
      ProceedingConcat(cfg, s, ls, more, id);
      ExecConcat(cfg, s, ls, more);
      ls := ls + more;
      HeadingSame(cfg, Rec(s1, id), Rec(Exec(cfg, s1, more), id));
    }
    var s2 := Exec(cfg, s, ls);
    assert s2.threads[u] == s.threads[u] && !ToStore(cfg, Rec(s2, id), s2.threads[q].pc, id);
    assert forall j :: 0 <= j < |s2.threads| && j != u && j != q ==> !InService(s2.threads[j].pc, id);
    SetLast(cfg, s2, u, q, id);
    GoesWrongLater(cfg, s, ls, id);
  }

  lemma GoesWrongLater(cfg: Config, s: System, ls: seq<Label>, id: string)
    requires Proceeding(cfg, s, ls, id) && !AlwaysAgrees(cfg, Exec(cfg, s, ls), id)
    ensures !AlwaysAgrees(cfg, s, id)
  {
    hide Exec, Proceeding, Lookup, LevelRight, NoneInService;
    var s1 := Exec(cfg, s, ls);
    var more :| Proceeding(cfg, s1, more, id) && NoneInService(Exec(cfg, s1, more).threads, id) &&
      var s' := Exec(cfg, s1, more); !(Lookup(s'.db.table, id).Some? && LevelRight(Lookup(s'.db.table, id).value));
    ProceedingConcat(cfg, s, ls, more, id);
    ExecConcat(cfg, s, ls, more);
  }

  lemma HeadingSame(cfg: Config, r: Sensor, r': Sensor)
    requires r'.kind == r.kind && r'.status == r.status
    ensures forall pc :: Heading(cfg, r', pc) == Heading(cfg, r, pc)
  {
  }

  lemma RecIs(s: System, id: string)
    requires Lookup(s.db.table, id).Some?
    ensures Rec(s, id) == Lookup(s.db.table, id).value
  {
  }

  lemma SetLast(cfg: Config, s: System, u: nat, q: nat, id: string)
    requires Fit(s, id) && u < |s.threads| && q < |s.threads| && u != q
    requires ToStore(cfg, Rec(s, id), s.threads[u].pc, id)
    requires InService(s.threads[q].pc, id) && !ToStore(cfg, Rec(s, id), s.threads[q].pc, id)
    requires Heading(cfg, Rec(s, id), s.threads[q].pc).Some?
    requires Heading(cfg, Rec(s, id), s.threads[q].pc) != Heading(cfg, Rec(s, id), s.threads[u].pc)
    requires forall j :: 0 <= j < |s.threads| && j != u && j != q ==> !InService(s.threads[j].pc, id)
    ensures !AlwaysAgrees(cfg, s, id)
  {
    hide Lookup, Step, LevelFor, Exec, Proceeding, CopiesFit, Rec, Heading;
    var a := Complete(cfg, s, u, id);
    var s1 := Exec(cfg, s, a);
    HeadingSame(cfg, Rec(s, id), Rec(s1, id));
    assert s1.threads[q] == s.threads[q];
    var b := Complete(cfg, s1, q, id);
    ProceedingConcat(cfg, s, a, b, id);
    ExecConcat(cfg, s, a, b);
    assert Exec(cfg, s, a + b) == Exec(cfg, s1, b) && Proceeding(cfg, s, a + b, id);
    var s2 := Exec(cfg, s1, b);
    assert forall j :: 0 <= j < |s.threads| && j != u && j != q ==> s2.threads[j] == s1.threads[j] == s.threads[j];
    assert s2.threads[u] == s1.threads[u];
    assert NoneInService(s2.threads, id) && !LevelRight(Rec(s2, id));
    RecIs(s2, id);
  }

  /** With nothing left to store, an evaluation whose verdict is not the last value's sets the level last. */
  lemma SetWrong(cfg: Config, s: System, q: nat, id: string)
    requires Fit(s, id) && NoneToStore(cfg, s, id) && q < |s.threads| && InService(s.threads[q].pc, id)
    requires var r := Rec(s, id);
             Heading(cfg, r, s.threads[q].pc).Some?
                 && Heading(cfg, r, s.threads[q].pc) != Some(LevelFor(r.kind, r.lastValue))
    ensures !AlwaysAgrees(cfg, s, id)
  {
    hide Lookup, Step, LevelFor, Exec, Proceeding, CopiesFit, Heading;
    var a := CompleteOthers(cfg, s, |s.threads|, q, q, id);
    var s1 := Exec(cfg, s, a);
    HeadingSame(cfg, Rec(s, id), Rec(s1, id));
    assert s1.threads[q] == s.threads[q] && !ToStore(cfg, Rec(s, id), s.threads[q].pc, id);
    var b := Complete(cfg, s1, q, id);
    ProceedingConcat(cfg, s, a, b, id);
    ExecConcat(cfg, s, a, b);
    assert Exec(cfg, s, a + b) == Exec(cfg, s1, b) && Proceeding(cfg, s, a + b, id);
    var s2 := Exec(cfg, s1, b);
    assert forall j :: 0 <= j < |s.threads| && j != q ==> s2.threads[j] == s1.threads[j];
  }

  /** From a state that is not settled some order of completing the METRICs in service ends wrong. */
  lemma UnsettledFails(cfg: Config, s: System, id: string)
    requires Fit(s, id) && !Settled(cfg, s, id)
    ensures !AlwaysAgrees(cfg, s, id)
  {
    hide Lookup, Step, LevelFor, Exec, Proceeding, CopiesFit, ValidTimestamp;
    var r := Rec(s, id);
    if j, k :| Heads(cfg, s, id, j, Normal) && Heads(cfg, s, id, k, Alert) {
      if u :| 0 <= u < |s.threads| && ToStore(cfg, r, s.threads[u].pc, id) {
        StoreThenSet(cfg, s, u, if Heading(cfg, r, s.threads[u].pc) == Some(Normal) then k else j, id);
      } else {
        SetWrong(cfg, s, if LevelFor(r.kind, r.lastValue) == Normal then k else j, id);
      }
    } else if k :| 0 <= k < |s.threads| && Evaluating(s.threads[k].pc, id)
                   && Verdict(s.threads[k].pc) != LevelFor(r.kind, r.lastValue) {
      SetWrong(cfg, s, k, id);
    } else {
      assert NoneToStore(cfg, s, id) && NoneEvaluating(s.threads, id) && !LevelRight(r);
      var ls := CompleteOthers(cfg, s, |s.threads|, -1, -1, id);
    }
  }

  lemma SettledIff(cfg: Config, s: System, id: string)
    requires Fit(s, id)
    ensures Settled(cfg, s, id) <==> AlwaysAgrees(cfg, s, id)
  {
    hide Lookup, Step, Exec, Proceeding, Settled, LevelRight, NoneInService;
    if Settled(cfg, s, id) {
      forall ls | Proceeding(cfg, s, ls, id) && NoneInService(Exec(cfg, s, ls).threads, id)
        ensures var s' := Exec(cfg, s, ls); Lookup(s'.db.table, id).Some? && LevelRight(Lookup(s'.db.table, id).value)
      {
        SettledProceeds(cfg, s, ls, id);
      }
    } else {
      UnsettledFails(cfg, s, id);
    }
  }

  /**
   In every reachable state: whatever the order in which the METRICs of a known sensor that are in service
   complete, its level ends in agreement with its last value, if and only if they all head for the same
   level and, once none of them is left to store, the evaluations are safe.
   */
  lemma AgreementIsSettled(cfg: Config, n: nat, ls: seq<Label>, id: string)
    requires Lookup(Exec(cfg, Init(n), ls).db.table, id).Some?
    ensures var s := Exec(cfg, Init(n), ls); Settled(cfg, s, id) <==> AlwaysAgrees(cfg, s, id)
  {
    RunsMatched(cfg, Init(n), ls);
    var s := Exec(cfg, Init(n), ls);
    hide Exec, Settled, AlwaysAgrees, Lookup, MetricCmd;
    assert Fit(s, id) by {
      forall k | 0 <= k < |s.threads| && s.threads[k].pc.AtAddMetric? && s.threads[k].pc.id == id
        ensures s.threads[k].pc.copy.kind == Lookup(s.db.table, id).value.kind
      {
        assert ThreadOk(cfg, s.db, s.threads[k]);
      }
    }
    SettledIff(cfg, s, id);
  }
}
