/**
 As long as no more ids than slots are registered, and each is stored whole, no REGISTER is refused for want
 of room.
 */
module Capacity {
  import opened Records
  import opened Text
  import opened Database
  import opened Server
  import opened Lifecycle
  import opened Alternation
  import opened Conservation

  ghost predicate TableOk(db: Db, ids: set<string>) {
    Unique(db.table) && Ids(db.table) <= ids
  }

  lemma TableRoom(db: Db, ids: set<string>, id: string)
    requires TableOk(db, ids) && id in ids && Lookup(db.table, id).None?
    ensures |db.table| < |ids|
  {
    hide IndexOf;
    UniqueCount(db.table);
    assert id !in Ids(db.table);
    var others := ids - {id};
    assert |others| == |ids| - 1;
    SubsetSize(Ids(db.table), others);
  }

  lemma {:induction false} SubsetSize(a: set<string>, b: set<string>)
    requires a <= b
    ensures |a| <= |b|
    decreases a
  {
    if a != {} {
      var x :| x in a;
      SubsetSize(a - {x}, b - {x});
    }
  }

  lemma SectionTableOk(cfg: Config, db: Db, pc: Pc, ids: set<string>)
    requires Working(pc) && TableOk(db, ids) && (pc.AtRegister? ==> pc.id in ids && |pc.id| < MAX_ID_LEN)
    ensures TableOk(Section(cfg, db, pc).0, ids)
  {
    hide Section, IndexOf;
    var t := Section(cfg, db, pc).0.table;
    forall i | 0 <= i < |t|
      ensures i < |db.table| ==> t[i].id == db.table[i].id
      ensures i >= |db.table| ==> pc.AtRegister? && t[i].id == pc.id && Lookup(db.table, pc.id).None?
    {
      SectionIds(cfg, db, pc, i);
    }
    if Appends(cfg, db, pc) {
      SectionAppends(cfg, db, pc, pc.id);
    } else {
      SectionLookup(cfg, db, pc, pc.id);
    }
    forall i | 0 <= i < |t| ensures t[i].id in ids {
      if i < |db.table| {
        assert db.table[i].id in Ids(db.table);
      }
    }
  }

  /** The ids the REGISTER commands of a run name. */
  ghost function RegisterIds(ls: seq<Label>): set<string> {
    set i | 0 <= i < |ls| && IsRegister(ls[i]) :: ls[i].tokens[1]
  }

  predicate IsRegister(l: Label) {
    l.Receive? && |l.tokens| == 3 && l.tokens[0] == "REGISTER"
  }

  ghost predicate Roomy(cfg: Config, s: System, ids: set<string>) {
    && Matched(cfg, s) && TableOk(s.db, ids)
    && (forall k :: 0 <= k < |s.threads| && s.threads[k].pc.AtRegister? ==>
          s.threads[k].pc.id in ids && |s.threads[k].pc.id| < MAX_ID_LEN)
    && (forall k :: 0 <= k < |s.threads| ==> s.threads[k].pc != AtReply(InternalError))
    && (forall k :: 0 <= k < |s.answers| ==> s.answers[k].reply != InternalError)
  }

  lemma SectionNotRefused(cfg: Config, db: Db, t: Thread, ids: set<string>)
    requires Working(t.pc) && ThreadOk(cfg, db, t) && TableOk(db, ids) && |ids| <= cfg.cap
    requires t.pc.AtRegister? ==> t.pc.id in ids
    ensures Section(cfg, db, t.pc).1 != AtReply(InternalError)
  {
    hide IndexOf, Put, Unique, Ids;
    if t.pc.AtRegister? && Lookup(db.table, t.pc.id).None? {
      TableRoom(db, ids, t.pc.id);
    }
    hide TableOk;
  }

  lemma StepRoomy(cfg: Config, s: System, l: Label, ids: set<string>)
    requires Roomy(cfg, s, ids) && |ids| <= cfg.cap
    requires IsRegister(l) ==> l.tokens[1] in ids && |l.tokens[1]| < MAX_ID_LEN
    ensures Roomy(cfg, Step(cfg, s, l), ids)
  {
    StepMatched(cfg, s, l);
    if Enabled(s, l) {
      var t := s.threads[l.thread];
      assert ThreadOk(cfg, s.db, t);
      hide Matched, ThreadOk, TableOk, Section;
      match l
      case Receive(_, tokens) => DispatchRegister(tokens);
      case Run(_) =>
        if Working(t.pc) {
          SectionTableOk(cfg, s.db, t.pc, ids);
          SectionNotRefused(cfg, s.db, t, ids);
          NextPcIsNotRegister(cfg, s.db, t.pc);
        }
      case _ =>
    }
  }

  lemma DispatchRegister(tokens: seq<string>)
    ensures Dispatch(tokens).AtRegister? ==>
      |tokens| == 3 && tokens[0] == "REGISTER" && Dispatch(tokens).id == tokens[1]
    ensures Dispatch(tokens) != AtReply(InternalError)
  {
  }

  lemma {:induction false} RunsRoomy(cfg: Config, s: System, ls: seq<Label>, ids: set<string>)
    requires Roomy(cfg, s, ids) && |ids| <= cfg.cap
    requires forall i :: 0 <= i < |ls| && IsRegister(ls[i]) ==> ls[i].tokens[1] in ids && |ls[i].tokens[1]| < MAX_ID_LEN
    ensures Roomy(cfg, Exec(cfg, s, ls), ids)
    decreases |ls|
  {
    if ls != [] {
      hide Roomy, Step, IsRegister;
      assert IsRegister(ls[0]) ==> ls[0].tokens[1] in ids && |ls[0].tokens[1]| < MAX_ID_LEN;
      StepRoomy(cfg, s, ls[0], ids);
      assert forall i :: 0 <= i < |ls[1..]| ==> ls[1..][i] == ls[i + 1];
      RunsRoomy(cfg, Step(cfg, s, ls[0]), ls[1..], ids);
    }
  }

  /** Ids that fit, and no more of them than slots: then no command whatever is answered 500. */
  lemma EnoughSlots(cfg: Config, n: nat, ls: seq<Label>, a: Answer)
    requires |RegisterIds(ls)| <= cfg.cap && a in Exec(cfg, Init(n), ls).answers
    requires forall id :: id in RegisterIds(ls) ==> |id| < MAX_ID_LEN
    ensures a.reply != InternalError
  {
    RegisterIdsFit(ls);
    assert Roomy(cfg, Init(n), RegisterIds(ls));
    hide IsRegister, RegisterIds;
    RunsRoomy(cfg, Init(n), ls, RegisterIds(ls));
  }

  lemma RegisterIdsFit(ls: seq<Label>)
    ensures forall i :: 0 <= i < |ls| && IsRegister(ls[i]) ==> ls[i].tokens[1] in RegisterIds(ls)
  {
  }
}
