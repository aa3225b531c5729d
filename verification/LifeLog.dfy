/**
 The event grammar over any life of the process, whatever it loaded: what a monitor
 appends after a restart is a word of the language by itself.
 */
module LifeLog {
  import opened MonitorRecord
  import opened RecoveryMachine
  import opened System
  import opened Locking
  import opened Lifting
  import opened Accounting
  import opened WriteAhead
  import opened EventGrammar

  /** What was added to m's word since `before`. */
  function Added(before: History, after: History, m: Id): Word
    requires Project(before, m) <= Project(after, m)
  {
    Project(after, m)[|Project(before, m)|..]
  }

  lemma AddedMore(log0: History, log: History, log': History, m: Id, more: Word)
    requires Project(log0, m) <= Project(log, m) && Project(log', m) == Project(log, m) + more
    ensures Project(log0, m) <= Project(log', m) && Added(log0, log', m) == Added(log0, log, m) + more
  {
    hide Project;
  }

  /** m's events since log0 form a word, whose last block the holder may extend. */
  ghost predicate Worded(s: Sys, m: Id, log0: History) {
    && s.up && m in s.recs && Project(log0, m) <= Project(s.total, m)
    && IsWord(Added(log0, s.total, m))
    && forall o | Holder(s, o, m) :: OpenBlock(s.ops[o], Added(log0, s.total, m))
  }

  lemma WordedHere(s: Sys, m: Id)
    requires s.up && m in s.recs && s.ops == map[]
    ensures Worded(s, m, s.total)
  {
    assert Added(s.total, s.total, m) == [];
  }

  lemma NowSound(cfg: Config, s: Sys, o: OpId)
    requires Inv(cfg, s) && o in s.ops && s.ops[o].monitor in cfg.monitors
    ensures s.ops[o].monitor in s.recs
    ensures FlightOk(cfg.monitors[s.ops[o].monitor], s.recs[s.ops[o].monitor], s.ops[o], s.now)
  {
    hide FlightOk;
    assert Flight(s, SoundFlight(cfg, s.now), o);
  }

  lemma WordedMove(cfg: Config, s: Sys, o: OpId, inp: Input, m: Id, log0: History)
    requires Inv(cfg, s) && Worded(s, m, log0) && Enabled(cfg, s, Step(o, inp)) && Holder(s, o, m)
    ensures Worded(Next(cfg, s, Step(o, inp)), m, log0)
  {
    var mc, r, op := cfg.monitors[m], s.recs[m], s.ops[o];
    var next := Moved(cfg, s, o, inp);
    var w := Added(log0, s.total, m);
    NowSound(cfg, s, o);
    MoveBlocks(mc, r, op, inp, w, s.now);
    EventsAreOwn(mc, r, op, inp);
    hide Advance, Install, IsWord, OpenBlock, FlightOk, Project, Inv;
    var s' := Next(cfg, s, Step(o, inp));
    InvDisciplined(cfg, s);
    HolderFields(cfg, s, o, inp, next, m);
    AddedMore(log0, s.total, s'.total, m, Kinds(next.events));
  }

  lemma InvDisciplined(cfg: Config, s: Sys)
    requires Inv(cfg, s)
    ensures Disciplined(cfg, s)
  {
  }

  /** What a step of an operation of m that holds nothing, or of another monitor's, leaves of m. */
  lemma AsideParts(cfg: Config, s: Sys, o: OpId, inp: Input, m: Id)
    requires Disciplined(cfg, s) && Enabled(cfg, s, Step(o, inp)) && !Holder(s, o, m) && m in s.recs
    ensures var s' := Next(cfg, s, Step(o, inp));
      s'.up && m in s'.recs && Project(s'.total, m) == Project(s.total, m)
  {
    var mover := s.ops[o].monitor;
    var mc, r, op := cfg.monitors[mover], s.recs[mover], s.ops[o];
    var next := Moved(cfg, s, o, inp);
    AdvanceHolds(mc, r, op, inp);
    EventsAreOwn(mc, r, op, inp);
    InstallParts(cfg, s, o, inp, next);
    hide Advance, Install, EventsOf, Disciplined;
    ProjectAppend(s.total, next.events, m);
    ProjectOf(next.events, mover, m);
    assert Kinds([]) == [];
    assert Project(s.total, m) + [] == Project(s.total, m);
  }

  lemma WordedAside(cfg: Config, s: Sys, o: OpId, inp: Input, m: Id, log0: History)
    requires Disciplined(cfg, s) && Worded(s, m, log0) && Enabled(cfg, s, Step(o, inp)) && !Holder(s, o, m)
    ensures Worded(Next(cfg, s, Step(o, inp)), m, log0)
  {
    var mover := s.ops[o].monitor;
    var next := Moved(cfg, s, o, inp);
    AsideParts(cfg, s, o, inp, m);
    AdvanceHolds(cfg.monitors[mover], s.recs[mover], s.ops[o], inp);
    AcquiredIsLocked(cfg.monitors[mover], s.recs[mover], s.ops[o], inp);
    hide Advance, Install, IsWord, EndsIn, Project, Disciplined;
    var s' := Next(cfg, s, Step(o, inp));
    forall o' | Holder(s', o', m) ensures OpenBlock(s'.ops[o'], Added(log0, s'.total, m)) {
      InstallHolders(cfg, s, o, inp, next, o', m);
    }
  }

  lemma WordedSide(cfg: Config, s: Sys, l: Label, m: Id, log0: History)
    requires Worded(s, m, log0) && Enabled(cfg, s, l) && (l.Call? || l.Cancel?)
    ensures Worded(Next(cfg, s, l), m, log0)
  {
    hide IsWord, EndsIn, Project;
    var s' := Next(cfg, s, l);
    forall o | Holder(s', o, m) ensures OpenBlock(s'.ops[o], Added(log0, s'.total, m)) {
      assert Holder(s, o, m);
    }
  }

  lemma {:induction false} WordedAlways(cfg: Config, s0: Sys, run: seq<Label>, m: Id)
    requires Inv(cfg, s0) && JustStarted(cfg, s0) && Crash !in run && m in cfg.monitors
    ensures Worded(Exec(cfg, s0, run), m, s0.total)
  {
    hide Next, Inv, Worded;
    if run == [] {
      WordedHere(s0, m);
    } else {
      var n := |run| - 1;
      WordedAlways(cfg, s0, run[..n], m);
      InvAlways(cfg, s0, run[..n]);
      if Enabled(cfg, Exec(cfg, s0, run[..n]), run[n]) {
        WordedNext(cfg, Exec(cfg, s0, run[..n]), run[n], m, s0.total);
      }
    }
  }

  lemma WordedNext(cfg: Config, s: Sys, l: Label, m: Id, log0: History)
    requires Inv(cfg, s) && Worded(s, m, log0) && Enabled(cfg, s, l) && !l.Crash?
    ensures Worded(Next(cfg, s, l), m, log0)
  {
    InvDisciplined(cfg, s);
    WordedUp(s, m, log0);
    hide Next, Inv, Worded, Disciplined;
    if !l.Step? {
      WordedSide(cfg, s, l, m, log0);
    } else if Holder(s, l.op, m) {
      WordedMove(cfg, s, l.op, l.inp, m, log0);
    } else {
      WordedAside(cfg, s, l.op, l.inp, m, log0);
    }
  }

  lemma WordedUp(s: Sys, m: Id, log0: History)
    requires Worded(s, m, log0)
    ensures s.up
  {
  }

  /** After any history, crashes included, that leaves the process freshly started, the
      events a monitor appends until the next crash form a word of the language. */
  lemma LifeIsAWord(cfg: Config, now: nat, past: seq<Label>, run: seq<Label>, m: Id)
    requires JustStarted(cfg, Exec(cfg, Blank(now), past)) && Crash !in run && m in cfg.monitors
    ensures var s0 := Exec(cfg, Blank(now), past); var s := Exec(cfg, s0, run);
      Project(s0.total, m) <= Project(s.total, m) && IsWord(Added(s0.total, s.total, m))
  {
    hide Exec, Inv, IsWord;
    Reachable(cfg, now, past);
    WordedAlways(cfg, Exec(cfg, Blank(now), past), run, m);
  }
}
