/**
 What an operation has done to its monitor so far, carried along any run: from the
 moment it stands behind its lock to the moment it gives the slot back, whatever the
 others do in between.
 */
module Carried {
  import opened MonitorRecord
  import opened RecoveryMachine
  import opened System
  import opened Locking
  import opened Effects

  /** m's entries since `before`. */
  function Entries(before: History, after: History, m: Id): seq<Event>
    requires EventsOf(before, m) <= EventsOf(after, m)
  {
    EventsOf(after, m)[|EventsOf(before, m)|..]
  }

  /** While o holds the slot, record and log are what its own steps made of r0. */
  ghost predicate Carries(mc: MonitorConfig, s: Sys, o: OpId, m: Id, r0: Record, log0: History) {
    && s.up && o in s.ops && s.ops[o].monitor == m && m in s.recs
    && if Holds(s.ops[o].pc)
       then EventsOf(log0, m) <= EventsOf(s.total, m)
            && Halfway(mc, r0, s.recs[m], s.ops[o], Entries(log0, s.total, m))
       else s.ops[o].pc.Finished?
  }

  lemma CarriesHere(mc: MonitorConfig, s: Sys, o: OpId, m: Id)
    requires s.up && Holder(s, o, m) && m in s.recs && Halfway(mc, s.recs[m], s.recs[m], s.ops[o], [])
    ensures Carries(mc, s, o, m, s.recs[m], s.total)
  {
    hide Halfway, EventsOf;
    assert Entries(s.total, s.total, m) == [];
  }

  /** The holder's own step. */
  lemma CarriesMove(cfg: Config, s: Sys, o: OpId, inp: Input, m: Id, r0: Record, log0: History)
    requires Enabled(cfg, s, Step(o, inp)) && Holder(s, o, m) && Carries(cfg.monitors[m], s, o, m, r0, log0)
    ensures Carries(cfg.monitors[m], Next(cfg, s, Step(o, inp)), o, m, r0, log0)
  {
    var mc := cfg.monitors[m];
    var next := Moved(cfg, s, o, inp);
    MoveOnward(mc, r0, s.recs[m], s.ops[o], inp, Entries(log0, s.total, m));
    AdvanceHolds(mc, s.recs[m], s.ops[o], inp);
    EndsFinished(mc, s.recs[m], s.ops[o], inp);
    EventsAreOwn(mc, s.recs[m], s.ops[o], inp);
    InstallParts(cfg, s, o, inp, next);
    hide Advance, Install, Halfway, EventsOf;
    var s' := Next(cfg, s, Step(o, inp));
    EventsOfAppend(s.total, next.events, m);
    EventsOfOne(next.events, m, m);
    MoreEntries(log0, s.total, s'.total, m, next.events);
  }

  lemma EndsFinished(mc: MonitorConfig, r: Record, op: Op, inp: Input)
    requires inp.t <= inp.t2 && Holds(op.pc)
    ensures var pc := Advance(mc, r, op, inp).pc; Holds(pc) || pc.Finished?
  {
  }

  lemma MoreEntries(log0: History, log: History, log': History, m: Id, more: seq<Event>)
    requires EventsOf(log0, m) <= EventsOf(log, m) && EventsOf(log', m) == EventsOf(log, m) + more
    ensures EventsOf(log0, m) <= EventsOf(log', m) && Entries(log0, log', m) == Entries(log0, log, m) + more
  {
    hide EventsOf;
  }

  /** Somebody else's step leaves m's record and m's entries alone. */
  lemma OthersMove(cfg: Config, s: Sys, o': OpId, inp: Input, o: OpId, m: Id)
    requires Disciplined(cfg, s) && Enabled(cfg, s, Step(o', inp)) && Holder(s, o, m) && m in s.recs && o' != o
    ensures var s' := Next(cfg, s, Step(o', inp));
      s'.up && Holder(s', o, m) && s'.ops[o] == s.ops[o] && m in s'.recs && s'.recs[m] == s.recs[m]
      && EventsOf(s'.total, m) == EventsOf(s.total, m)
  {
    HolderUndisturbed(cfg, s, Step(o', inp), o, m);
    var mover := s.ops[o'].monitor;
    var next := Moved(cfg, s, o', inp);
    AdvanceHolds(cfg.monitors[mover], s.recs[mover], s.ops[o'], inp);
    EventsAreOwn(cfg.monitors[mover], s.recs[mover], s.ops[o'], inp);
    InstallParts(cfg, s, o', inp, next);
    hide Advance, Install, EventsOf;
    assert mover == m ==> !Holder(s, o', m);
    EventsOfAppend(s.total, next.events, m);
    EventsOfOne(next.events, mover, m);
    assert EventsOf(s.total, m) + [] == EventsOf(s.total, m);
  }

  lemma CarriesSide(cfg: Config, s: Sys, l: Label, o: OpId, m: Id, r0: Record, log0: History)
    requires Enabled(cfg, s, l) && (l.Call? || l.Cancel?) && m in cfg.monitors
    requires Carries(cfg.monitors[m], s, o, m, r0, log0)
    ensures Carries(cfg.monitors[m], Next(cfg, s, l), o, m, r0, log0)
  {
    if l == Cancel(o) && Holds(s.ops[o].pc) {
      CancelKeepsHalfway(cfg.monitors[m], r0, s.recs[m], s.ops[o], Entries(log0, s.total, m));
    }
    hide Halfway, EventsOf;
  }

  /** A finished operation stays so. */
  lemma FinishedStays(cfg: Config, s: Sys, o': OpId, inp: Input, o: OpId)
    requires Enabled(cfg, s, Step(o', inp)) && o in s.ops && s.ops[o].pc.Finished?
    ensures var s' := Next(cfg, s, Step(o', inp)); s'.up && o in s'.ops && s'.ops[o] == s.ops[o]
    ensures s.recs.Keys <= Next(cfg, s, Step(o', inp)).recs.Keys
  {
    InstallParts(cfg, s, o', inp, Moved(cfg, s, o', inp));
    hide Advance, Install;
  }

  lemma CarriesNext(cfg: Config, s: Sys, l: Label, o: OpId, m: Id, r0: Record, log0: History)
    requires Disciplined(cfg, s) && Enabled(cfg, s, l) && !l.Crash? && m in cfg.monitors
    requires Carries(cfg.monitors[m], s, o, m, r0, log0)
    ensures Carries(cfg.monitors[m], Next(cfg, s, l), o, m, r0, log0)
  {
    hide Next, Halfway, EventsOf, Disciplined;
    if l.Call? || l.Cancel? {
      CarriesSide(cfg, s, l, o, m, r0, log0);
    } else if !Holds(s.ops[o].pc) {
      FinishedStays(cfg, s, l.op, l.inp, o);
    } else if l.op == o {
      CarriesMove(cfg, s, o, l.inp, m, r0, log0);
    } else {
      OthersMove(cfg, s, l.op, l.inp, o, m);
    }
  }

  lemma StartIsDisciplined(cfg: Config, s: Sys)
    requires JustStarted(cfg, s)
    ensures Disciplined(cfg, s)
  {
  }

  lemma {:induction false} CarriesAlways(
    cfg: Config, s0: Sys, before: seq<Label>, after: seq<Label>, o: OpId, m: Id, r0: Record, log0: History)
    requires JustStarted(cfg, s0) && IsRun(cfg, s0, after) && Crash !in after && before <= after && m in cfg.monitors
    requires Carries(cfg.monitors[m], Exec(cfg, s0, before), o, m, r0, log0)
    ensures Carries(cfg.monitors[m], Exec(cfg, s0, after), o, m, r0, log0)
    decreases |after|
  {
    hide *;
    if |after| == |before| {
      assert after == before;
    } else {
      var n := |after| - 1;
      LastStep(cfg, s0, after);
      CarriesAlways(cfg, s0, before, after[..n], o, m, r0, log0);
      StartIsDisciplined(cfg, s0);
      DisciplinedAlways(cfg, s0, after[..n]);
      CarriesNext(cfg, Exec(cfg, s0, after[..n]), after[n], o, m, r0, log0);
    }
  }
}
