/** Where the types, alerts and levels of a run come from, in the words and numbers of the protocol. */
module Provenance {
  import opened Records
  import opened Text
  import opened Protocol
  import opened Database
  import opened Server
  import opened Lifecycle
  import opened Conservation
  import opened LevelAgreement

  // Types

  /** Step `p` of a run is a `REGISTER id name` taking slot `i` for a newcomer. */
  ghost predicate TakesSlot(cfg: Config, n: nat, ls: seq<Label>, p: nat, i: nat, id: string, name: string) {
    && p < |ls| && ls[p].Run?
    && var a, b := Exec(cfg, Init(n), ls[..p]), Exec(cfg, Init(n), ls[..p + 1]);
       && ls[p].thread < |a.threads| && a.threads[ls[p].thread].cmd == ["REGISTER", id, name]
       && |a.db.table| == i && |b.db.table| == i + 1 && Newcomer(b.db.table[i], id, name)
  }

  lemma StepTakes(cfg: Config, s: System, l: Label)
    requires Matched(cfg, s)
    ensures var s' := Step(cfg, s, l);
            |s'.db.table| != |s.db.table| ==>
              && l.Run? && l.thread < |s.threads| && |s.threads[l.thread].cmd| == 3
              && |s'.db.table| == |s.db.table| + 1
              && var cmd := s.threads[l.thread].cmd;
                 cmd[0] == "REGISTER" && Newcomer(s'.db.table[|s.db.table|], cmd[1], cmd[2])
  {
    if Enabled(s, l) && l.Run? && Working(s.threads[l.thread].pc) {
      assert ThreadOk(cfg, s.db, s.threads[l.thread]);
      SectionTakes(cfg, s.db, s.threads[l.thread]);
    }
    hide Section, Dispatch, Committed, Newcomer, ThreadOk, Suits;
  }

  lemma SectionTakes(cfg: Config, db: Db, t: Thread)
    requires Working(t.pc) && ThreadOk(cfg, db, t)
    ensures var table := Section(cfg, db, t.pc).0.table;
            |table| != |db.table| ==>
              && |t.cmd| == 3 && t.cmd[0] == "REGISTER" && |table| == |db.table| + 1
              && Newcomer(table[|db.table|], t.cmd[1], t.cmd[2])
  {
    hide IndexOf, Newcomer, MetricCmd, TypeName, TypeFromName, Fresh;
    if Appends(cfg, db, t.pc) {
      var name := TypeName(t.pc.kind);
      KindName(t.pc.kind);
      FreshIs(t.pc.id, name);
    } else {
      SectionLookup(cfg, db, t.pc, t.pc.id);
    }
  }

  lemma KindName(kind: SensorType)
    ensures TypeFromName(TypeName(kind)) == kind
  {
  }

  /**
   In every run every occupied slot was taken, at one step, by a REGISTER of its id, and has ever since the
   type that REGISTER named.
   */
  lemma {:induction false} SlotsHaveTheirTypes(cfg: Config, n: nat, ls: seq<Label>, i: nat)
    returns (p: nat, id: string, name: string)
    requires i < |Exec(cfg, Init(n), ls).db.table|
    ensures TakesSlot(cfg, n, ls, p, i, id, name)
    ensures var s := Exec(cfg, Init(n), ls).db.table[i]; s.id == KeptId(id) && Names(name, s.kind)
    decreases |ls|
  {
    if ls == [] {
      ExecNone(cfg, Init(n));
      assert false;
    } else {
      var m := |ls| - 1;
      var before := Exec(cfg, Init(n), ls[..m]);
      assert ls == ls[..m] + [ls[m]];
      ExecSnoc(cfg, Init(n), ls[..m], ls[m]);
      hide Exec, Step;
      if i < |before.db.table| {
        p, id, name := SlotsHaveTheirTypes(cfg, n, ls[..m], i);
        StepKeepsSlots(cfg, before, ls[m]);
        assert ls[..m][..p] == ls[..p] && ls[..m][..p + 1] == ls[..p + 1];
      } else {
        RunsMatched(cfg, Init(n), ls[..m]);
        StepTakes(cfg, before, ls[m]);
        assert ls[..m + 1] == ls;
        var cmd := before.threads[ls[m].thread].cmd;
        p, id, name := m, cmd[1], cmd[2];
        assert cmd == ["REGISTER", id, name];
      }
    }
  }

  // Alerts

  lemma CalledInWords(m: Metric, a: AlertRecord)
    ensures CalledFor(m)[a]
         == if Crossed(a.typeName, a.value) == Some(a.threshold)
               && m == Metric(a.sensorId, a.value, a.timestamp, a.typeName) then 1 else 0
  {
    NameIs(m.typeName);
    NameIs(a.typeName);
    var kind := TypeFromName(m.typeName);
    if kind != Invalid {
      RuleIs(m.typeName, kind, m.value);
    }
    hide TypeFromName, TypeName;
  }

  lemma {:induction false} AllCalledInWords(log: seq<Metric>, a: AlertRecord)
    ensures AllCalledFor(log)[a]
         == if Crossed(a.typeName, a.value) == Some(a.threshold)
            then multiset(log)[Metric(a.sensorId, a.value, a.timestamp, a.typeName)] else 0
    decreases |log|
  {
    if log != [] {
      var n := |log| - 1;
      AllCalledInWords(log[..n], a);
      CalledInWords(log[n], a);
      hide Crossed, CalledFor;
      assert log == log[..n] + [log[n]];
    }
  }

  /**
   In every run, once no command is in service: an alert is in the log exactly as often as a metric with its id,
   value, timestamp and type is, if its threshold is the one that value crosses, and never otherwise.
   */
  lemma AlertsInWords(cfg: Config, n: nat, ls: seq<Label>, a: AlertRecord)
    requires Quiet(Exec(cfg, Init(n), ls))
    ensures var db := Exec(cfg, Init(n), ls).db;
            multiset(db.alerts)[a]
            == if Crossed(a.typeName, a.value) == Some(a.threshold)
               then multiset(db.metrics)[Metric(a.sensorId, a.value, a.timestamp, a.typeName)] else 0
  {
    hide Exec, Quiet, Crossed;
    QuietAlerts(cfg, n, ls);
    AllCalledInWords(Exec(cfg, Init(n), ls).db.metrics, a);
  }

  /** And where evaluations of a sensor do not overlap, the level is that of the last value, in the same words. */
  lemma LevelInWords(cfg: Config, n: nat, ls: seq<Label>, id: string, name: string)
    requires Serial(cfg, Init(n), ls, id) && NoneEvaluating(Exec(cfg, Init(n), ls).threads, id)
    requires var db := Exec(cfg, Init(n), ls).db;
             LastFor(db.metrics, id).Some? && KnownKind(db, id, TypeFromName(name)) && TypeFromName(name) != Invalid
    ensures var db := Exec(cfg, Init(n), ls).db;
            Lookup(db.table, id).value.level == LevelIn(name, LastFor(db.metrics, id).value.value)
  {
    hide Exec, Serial, NoneEvaluating, LastFor, Lookup, Crossed, Anomalous;
    LevelAgreesWithLastValue(cfg, n, ls, id);
    NameIs(name);
    RuleIs(name, TypeFromName(name), LastFor(Exec(cfg, Init(n), ls).db.metrics, id).value.value);
  }
}
