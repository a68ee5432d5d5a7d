/** What is proved of runs of whole sections, carried over to the machine that runs single instructions. */
module Machine {
  import opened Records
  import opened Server
  import opened Programs
  import opened Locks
  import opened Atomicity
  import opened Capacity

  /** So what is proved of runs whose commands meet a condition holds of the machine: with few ids, no 500. */
  lemma HasEnoughSlots(cfg: Config, lim: Limits, n: nat, pages: nat, acts: seq<Act>, a: Answer)
    requires Sized(lim) && cfg.cap == lim.sensors
    requires var names := RegisterIds(Taken(cfg, lim, Begin(lim, n, pages), acts));
             |names| <= cfg.cap && forall id :: id in names ==> |id| < MAX_ID_LEN
    requires a in DoAll(cfg, lim, Begin(lim, n, pages), acts).answers
    ensures a.reply != InternalError
  {
    LockedRunsAreAtomic(cfg, lim, n, pages, acts);
    var ls := Matching(cfg, lim, n, pages, acts);
    SameRegisters(ls);
    hide Matching, Taken, DoAll, Exec, RegisterIds;
    EnoughSlots(cfg, n, ls, a);
  }

  lemma {:induction false} InputsKeep(ls: seq<Label>, l: Label)
    ensures l in Inputs(ls) <==> l in ls && !l.Run?
    decreases |ls|
  {
    if ls != [] {
      InputsKeep(ls[1..], l);
      assert l in ls <==> l == ls[0] || l in ls[1..];
    }
  }

  lemma SameRegisters(ls: seq<Label>)
    ensures RegisterIds(Inputs(ls)) == RegisterIds(ls)
  {
    hide Inputs;
    forall id ensures id in RegisterIds(Inputs(ls)) <==> id in RegisterIds(ls) {
      forall l: Label | IsRegister(l) ensures l in Inputs(ls) <==> l in ls {
        InputsKeep(ls, l);
      }
      if id in RegisterIds(ls) {
        var i :| 0 <= i < |ls| && IsRegister(ls[i]) && ls[i].tokens[1] == id;
        assert ls[i] in Inputs(ls);
      }
      if id in RegisterIds(Inputs(ls)) {
        var i :| 0 <= i < |Inputs(ls)| && IsRegister(Inputs(ls)[i]) && Inputs(ls)[i].tokens[1] == id;
        assert Inputs(ls)[i] in ls;
      }
    }
  }
}
