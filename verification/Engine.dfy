/**
 The Manager of internal/engine/manager.go in its own form: records updated in
 place, one method per section under the mutex, and the operations composed of
 them. Between two sections of one operation any other operation may move, and
 the context may be cancelled: that is Yield. A ghost trace names every step, and
 Valid says that the object's state is what the machine of System reaches by it,
 so every result about runs holds of this class.
 */
module Engine {
  import opened Wrappers
  import opened MonitorRecord
  import opened RuntimeState
  import opened RecoveryMachine
  import opened System
  import opened Locking
  import Accounting
  import WriteAhead
  import Cooldown
  import EventGrammar
  import Effects
  import Carried
  import LifeLog
  import Restart
  import RecoverySpec
  import Solo

  /** A label by which an operation other than o moves, or some context is cancelled. */
  predicate Foreign(l: Label, o: OpId) {
    match l
    case Call(o', _, _) => o' != o
    case Cancel(_) => true
    case Step(o', _) => o' != o
    case _ => false
  }

  ghost predicate Extends(before: seq<Label>, after: seq<Label>, o: OpId) {
    |before| <= |after| && after[..|before|] == before
    && forall k | |before| <= k < |after| :: Foreign(after[k], o)
  }

  /** What the holder of a slot can rely on while the others move. */
  ghost predicate Undisturbed(s: Sys, s': Sys, o: OpId, m: Id) {
    && s'.up && s.now <= s'.now
    && Holder(s, o, m) && Holder(s', o, m) && m in s.recs && m in s'.recs && s'.recs[m] == s.recs[m]
    && s'.ops[o].kind == s.ops[o].kind && s'.ops[o].pc == s.ops[o].pc
    && (s.ops[o].cancelled ==> s'.ops[o].cancelled)
  }

  lemma ForeignStep(cfg: Config, s: Sys, l: Label, o: OpId, m: Id)
    requires Disciplined(cfg, s) && s.up && Enabled(cfg, s, l) && Foreign(l, o) && Holder(s, o, m) && m in s.recs
    ensures Undisturbed(s, Next(cfg, s, l), o, m)
  {
    if l != Cancel(o) {
      HolderUndisturbed(cfg, s, l, o, m);
    }
    if l.Step? {
      InstallParts(cfg, s, l.op, l.inp, Moved(cfg, s, l.op, l.inp));
    }
    hide Advance, Install;
  }

  lemma UndisturbedThen(s: Sys, s1: Sys, s2: Sys, o: OpId, m: Id)
    requires Undisturbed(s, s1, o, m) && Undisturbed(s1, s2, o, m)
    ensures Undisturbed(s, s2, o, m)
  {
  }

  lemma UndisturbedNow(s: Sys, o: OpId, m: Id)
    requires s.up && Holder(s, o, m) && m in s.recs
    ensures Undisturbed(s, s, o, m)
  {
  }

  lemma {:induction false} Interfered(cfg: Config, s0: Sys, before: seq<Label>, after: seq<Label>, o: OpId, m: Id)
    requires JustStarted(cfg, s0) && IsRun(cfg, s0, after) && Extends(before, after, o)
    requires var s := Exec(cfg, s0, before); s.up && Holder(s, o, m) && m in s.recs
    ensures Undisturbed(Exec(cfg, s0, before), Exec(cfg, s0, after), o, m)
  {
    hide Next, IsRun, Undisturbed, Disciplined;
    var s := Exec(cfg, s0, before);
    if |after| == |before| {
      assert after == before;
      UndisturbedNow(s, o, m);
    } else {
      var n := |after| - 1;
      RunPrefix(cfg, s0, after, n);
      assert after[..n][..|before|] == before;
      Interfered(cfg, s0, before, after[..n], o, m);
      NextUndisturbed(cfg, s0, s, after, o, m);
    }
  }

  lemma NextUndisturbed(cfg: Config, s0: Sys, s: Sys, after: seq<Label>, o: OpId, m: Id)
    requires JustStarted(cfg, s0) && IsRun(cfg, s0, after) && after != []
    requires var s1 := Exec(cfg, s0, after[..|after| - 1]); Undisturbed(s, s1, o, m)
    requires Foreign(after[|after| - 1], o)
    ensures Undisturbed(s, Exec(cfg, s0, after), o, m)
  {
    hide Next;
    var n := |after| - 1;
    var s1 := Exec(cfg, s0, after[..n]);
    DisciplinedAlways(cfg, s0, after[..n]);
    assert Enabled(cfg, s1, after[n]);
    ForeignStep(cfg, s1, after[n], o, m);
    UndisturbedThen(s, s1, Exec(cfg, s0, after), o, m);
  }

  lemma StepOfRun(cfg: Config, s0: Sys, run: seq<Label>, o: OpId, inp: Input, before: Sys, after: Sys)
    requires IsRun(cfg, s0, run) && Crash !in run && before == Exec(cfg, s0, run)
    requires Enabled(cfg, before, Step(o, inp))
    requires after == Install(cfg, before, o, inp, Moved(cfg, before, o, inp))
    ensures var run' := run + [Step(o, inp)];
      && IsRun(cfg, s0, run') && Crash !in run' && Exec(cfg, s0, run') == after
      && after.up && after.now == inp.t2 && after.ops.Keys == before.ops.Keys
      && forall o | o in before.ops :: after.ops[o].cancelled == before.ops[o].cancelled
  {
    InstallParts(cfg, before, o, inp, Moved(cfg, before, o, inp));
    hide Install, Moved, IsRun, Exec;
    RunExtend(cfg, s0, run, Step(o, inp));
  }

  ghost function Values(monitors: map<Id, MonitorState>): Records
    reads monitors.Values
  {
    map m | m in monitors :: monitors[m].Value()
  }

  predicate Unshared(monitors: map<Id, MonitorState>) {
    forall i, j | i in monitors && j in monitors && i != j :: monitors[i] != monitors[j]
  }

  lemma CallOfRun(cfg: Config, s0: Sys, run: seq<Label>, o: OpId, id: Id, kind: Kind, s: Sys)
    requires JustStarted(cfg, s0) && IsRun(cfg, s0, run) && Crash !in run && s == Exec(cfg, s0, run)
    requires s.up && o !in s.ops && id in cfg.monitors && cfg.monitors[id].enabled
    ensures var run' := run + [Call(o, id, kind)];
      && IsRun(cfg, s0, run') && Crash !in run' && Exec(cfg, s0, run') == s.(ops := s.ops[o := NewOp(id, kind)])
    ensures id in s.recs
  {
    hide IsRun;
    DisciplinedAlways(cfg, s0, run);
    RunExtend(cfg, s0, run, Call(o, id, kind));
  }

  /** A save looks at neither the clock, the operations nor the untrimmed log. */
  lemma PersistLeaves(s: Sys, save: Save, now: nat, ops: map<OpId, Op>, total: History)
    ensures Persist(s.(now := now, ops := ops, total := total), save)
         == Persist(s, save).(now := now, ops := ops, total := total)
    ensures Persist(s, save).now == s.now && Persist(s, save).ops == s.ops && Persist(s, save).total == s.total
  {
  }

  /** The life began with a restart, after whatever happened since a blank disk. */
  ghost predicate Born(cfg: Config, birth: nat, past: seq<Label>, origin: Sys) {
    JustStarted(cfg, origin) && origin == Exec(cfg, Blank(birth), past)
  }

  lemma BornStarted(cfg: Config, birth: nat, past: seq<Label>, origin: Sys)
    requires Born(cfg, birth, past, origin)
    ensures JustStarted(cfg, origin)
  {
  }

  lemma BootIsBorn(cfg: Config, birth: nat, past: seq<Label>, boot: Label)
    requires boot.Boot? && Enabled(cfg, Exec(cfg, Blank(birth), past), boot)
    ensures var s := Next(cfg, Exec(cfg, Blank(birth), past), boot);
      boot.save.Saved? ==> Born(cfg, birth, past + [boot], s) && Exec(cfg, s, []) == s && IsRun(cfg, s, [])
  {
    assert (past + [boot])[..|past|] == past;
  }

  lemma BornReachable(cfg: Config, birth: nat, past: seq<Label>, origin: Sys, trace: seq<Label>)
    requires Born(cfg, birth, past, origin)
    ensures WriteAhead.Inv(cfg, Exec(cfg, origin, trace))
  {
    hide Exec, WriteAhead.Inv;
    Solo.ExecAppend(cfg, Blank(birth), past, trace);
    WriteAhead.Reachable(cfg, birth, past + trace);
  }

  lemma BornFollows(cfg: Config, birth: nat, past: seq<Label>, origin: Sys, trace: seq<Label>, o: OpId)
    requires Born(cfg, birth, past, origin)
    requires var s := Exec(cfg, origin, trace); o in s.ops && s.ops[o].monitor in cfg.monitors && s.ops[o].pc.Closing?
    ensures var op := Exec(cfg, origin, trace).ops[o];
      RecoverySpec.CameTo(cfg.monitors[op.monitor], op.pc.done,
                          RecoverySpec.Verdict(op.pc.recovered, op.pc.post, op.pc.reasons))
  {
    hide Exec, RecoverySpec.Recovers;
    Solo.ExecAppend(cfg, Blank(birth), past, trace);
    RecoverySpec.OutcomesFollowTheSpecification(cfg, birth, past + trace, o);
  }

  /** Every snapshot a crash may leave holds m's cooldown. */
  ghost predicate Saves(disk: set<Records>, m: Id, until: nat) {
    forall d: Records | d in disk :: m in d && d[m].cooldownUntil == Some(until)
  }

  lemma CooldownStands(cfg: Config, s: Sys, o: OpId)
    requires WriteAhead.Inv(cfg, s) && o in s.ops && Accounting.Committed(s.ops[o].pc)
    ensures WriteAhead.CooldownSaved(s, s.ops[o].monitor)
  {
    hide Accounting.Committed, WriteAhead.CooldownSaved;
  }

  lemma CommittedIsArmed(mc: MonitorConfig, r: Record, op: Op, now: nat)
    requires Accounting.FlightOk(mc, r, op, now) && Accounting.Committed(op.pc)
    ensures r.cooldownUntil == Some(Secs(Cooldown.Since(op.pc) + mc.cooldown))
  {
  }

  lemma CommittedIsSaved(cfg: Config, s: Sys, o: OpId)
    requires WriteAhead.Inv(cfg, s) && o in s.ops && Accounting.Committed(s.ops[o].pc)
      && s.ops[o].monitor in cfg.monitors
    ensures var m := s.ops[o].monitor;
      Saves(s.disk, m, Secs(Cooldown.Since(s.ops[o].pc) + cfg.monitors[m].cooldown))
  {
    hide WriteAhead.Inv, Accounting.Committed, Accounting.FlightOk, Cooldown.Since, Secs;
    CooldownStands(cfg, s, o);
    LifeLog.NowSound(cfg, s, o);
    CommittedIsArmed(cfg.monitors[s.ops[o].monitor], s.recs[s.ops[o].monitor], s.ops[o], s.now);
  }

  class Manager {
    const cfg: Config
    var monitors: map<Id, MonitorState>
    var history: History
    var eventsDirty: bool
    /** The monitors whose one-slot channel is full. */
    var locks: set<Id>
    /** The operations whose context is done. */
    var done: set<OpId>
    /** The reading of the wall clock. */
    var now: nat

    /** The clock and the labels of all earlier lives of the process, and where they led. */
    ghost const birth: nat
    ghost const past: seq<Label>
    ghost const origin: Sys
    ghost var ops: map<OpId, Op>
    ghost var total: History
    ghost var disk: set<Records>
    ghost var diskLog: set<History>
    ghost var trace: seq<Label>

    /** The manager NewManager builds before its first save. */
    constructor (
      cfg: Config, monitors: map<Id, MonitorState>, history: History, now: nat,
      ghost birth: nat, ghost past: seq<Label>, ghost origin: Sys, ghost disk: set<Records>,
      ghost diskLog: set<History>)
      ensures this.cfg == cfg && this.birth == birth && this.past == past && this.origin == origin
      ensures this.monitors == monitors && trace == [] && done == {}
      ensures Abs() == Sys(true, now, Values(monitors), map[], {}, history, history, true, disk, diskLog)
    {
      this.cfg, this.monitors, this.history, this.eventsDirty := cfg, monitors, history, true;
      this.locks, this.done, this.now := {}, {}, now;
      this.birth, this.past := birth, past;
      this.origin, this.ops, this.total, this.disk, this.diskLog := origin, map[], history, disk, diskLog;
      this.trace := [];
    }

    ghost function Recs(): Records
      reads this`monitors, monitors.Values
    {
      Values(monitors)
    }

    ghost function Abs(): Sys
      reads this, monitors.Values
    {
      Sys(true, now, Recs(), ops, locks, history, total, eventsDirty, disk, diskLog)
    }

    /** No two monitors share a record. */
    ghost predicate Separate()
      reads this`monitors
    {
      Unshared(monitors)
    }

    ghost predicate Valid()
      reads this, monitors.Values
    {
      && Separate()
      && Born(cfg, birth, past, origin)
      && IsRun(cfg, origin, trace) && Crash !in trace
      && Abs() == Exec(cfg, origin, trace)
      && forall o | o in ops :: ops[o].cancelled <==> o in done
    }

    /** o runs the callback of its lock and is where op says. */
    ghost predicate At(o: OpId, op: Op)
      reads this`ops, this`monitors
    {
      o in ops && ops[o] == op && Holds(op.pc) && op.monitor in monitors && op.monitor in cfg.monitors
    }

    predicate InTime(inp: Input)
      reads this
    {
      now <= inp.t <= inp.t2
    }

    // ---- the environment

    /** Anything may come from outside, but the clock does not go back. */
    method Outside() returns (inp: Input)
      ensures InTime(inp)
    {
      inp := SomeInput.(t := now, t2 := now);
    }

    /** Other operations move and contexts are cancelled, any number of times. */
    method Yield(ghost o: OpId)
      requires Valid()
      modifies this, monitors.Values
      ensures Valid() && monitors == old(monitors) && old(trace) <= trace && Extends(old(trace), trace, o)
    {
    }

    /** What a holder keeps through a Yield: all but its context. */
    method Interfere(ghost o: OpId, ghost op: Op) returns (ghost op': Op)
      requires Valid() && At(o, op)
      modifies this, monitors.Values
      ensures Valid() && monitors == old(monitors) && old(trace) <= trace && Extends(old(trace), trace, o)
      ensures At(o, op') && op' == op.(cancelled := op'.cancelled)
      ensures monitors[op.monitor].Value() == old(monitors[op.monitor].Value())
    {
      ghost var before := trace;
      ghost var s := Abs();
      assert Holder(s, o, op.monitor);
      Yield(o);
      Interfered(cfg, origin, before, trace, o, op.monitor);
      assert Undisturbed(s, Abs(), o, op.monitor);
      assert s.recs[op.monitor] == old(monitors[op.monitor].Value());
      assert Abs().recs[op.monitor] == monitors[op.monitor].Value();
      op' := ops[o];
    }

    // ---- bookkeeping

    /** Only m's record was written. */
    twostate lemma OneRecord(m: Id)
      requires old(Separate()) && monitors == old(monitors) && m in monitors
      requires forall j | j in monitors && j != m :: unchanged(monitors[j])
      ensures Recs() == old(Recs())[m := monitors[m].Value()]
    {
    }

    /** Inside a section: the run stands at `before`, its context flags are known. */
    ghost predicate Within(before: Sys)
      reads this`monitors, this`trace, this`done
    {
      && Separate() && Born(cfg, birth, past, origin) && IsRun(cfg, origin, trace) && Crash !in trace
      && before == Exec(cfg, origin, trace)
      && forall o | o in before.ops :: before.ops[o].cancelled <==> o in done
    }

    /** The step o takes in this section is next. */
    ghost predicate Takes(o: OpId, inp: Input, before: Sys, next: Local) {
      Enabled(cfg, before, Step(o, inp)) && next == Moved(cfg, before, o, inp)
    }

    method Note(ghost l: Label, t: nat, ghost ops': map<OpId, Op>, ghost total': History)
      modifies this`now, this`ops, this`total, this`trace
      ensures Abs() == old(Abs()).(now := t, ops := ops', total := total') && trace == old(trace) + [l]
    {
      ghost var recs := Recs();
      now, ops, total, trace := t, ops', total', trace + [l];
      assert Recs() == recs;
    }

    /** The last act of a section: the clock moves on, and the step is noted. */
    method Record(ghost o: OpId, inp: Input, ghost before: Sys, ghost next: Local)
      requires Within(before) && Takes(o, inp, before, next)
      requires Abs() == Install(cfg, before, o, inp, next).(now := now, ops := before.ops, total := before.total)
      modifies this`now, this`ops, this`total, this`trace
      ensures Valid() && trace == old(trace) + [Step(o, inp)] && Abs() == Install(cfg, before, o, inp, next)
    {
      hide Install, IsRun, Exec, Moved, Born;
      ghost var after := Install(cfg, before, o, inp, next);
      StepOfRun(cfg, origin, trace, o, inp, before, after);
      Note(Step(o, inp), inp.t2, after.ops, after.total);
      assert Abs() == after;
    }

    // ---- what holds of every manager

    /** Everything that holds of reachable states holds here: records that add up, in
        memory and on disk, operations in order, saved cooldowns. */
    lemma Invariant()
      requires Valid()
      ensures WriteAhead.Inv(cfg, Abs())
    {
      hide Born, Exec, WriteAhead.Inv;
      BornReachable(cfg, birth, past, origin, trace);
    }

    /** From its saved start on a recovery's cooldown stands in whatever a crash may leave. */
    lemma CooldownIsSaved(o: OpId, op: Op)
      requires Valid() && At(o, op) && Accounting.Committed(op.pc)
      ensures Saves(disk, op.monitor, Secs(Cooldown.Since(op.pc) + cfg.monitors[op.monitor].cooldown))
    {
      hide Valid, WriteAhead.Inv, Saves;
      Invariant();
      CommittedIsSaved(cfg, Abs(), o);
    }

    /** An outcome is one the recursive specification of executeRecovery gives. */
    lemma OutcomeFollows(o: OpId, op: Op)
      requires Valid() && At(o, op) && op.pc.Closing?
      ensures RecoverySpec.CameTo(cfg.monitors[op.monitor], op.pc.done,
                                  RecoverySpec.Verdict(op.pc.recovered, op.pc.post, op.pc.reasons))
    {
      hide Born, Exec, RecoverySpec.CameTo;
      BornFollows(cfg, birth, past, origin, trace, o);
    }

    /** What a monitor has logged in this life is a word of the event grammar. */
    lemma LogIsAWord(id: Id)
      requires Valid() && id in cfg.monitors
      ensures EventGrammar.Project(origin.total, id) <= EventGrammar.Project(total, id)
      ensures EventGrammar.IsWord(LifeLog.Added(origin.total, total, id))
    {
      hide EventGrammar.IsWord;
      LifeLog.LifeIsAWord(cfg, birth, past, trace, id);
    }

    /** The exit says what the operation did to id's record r0 and to id's part of the log. */
    ghost predicate Did(id: Id, kind: Kind, exit: Exit, r0: Record, log0: History)
      reads this, monitors.Values
    {
      && id in cfg.monitors && id in monitors
      && EventsOf(log0, id) <= EventsOf(total, id)
      && Effects.ExitEffect(cfg.monitors[id], id, kind, exit, r0, monitors[id].Value(),
                            Carried.Entries(log0, total, id))
    }

    /** At the head of either callback nothing has been done yet. */
    lemma Begins(o: OpId, op: Op, id: Id)
      requires Valid() && At(o, op) && op.monitor == id
      requires op.pc == if op.kind.Cycle? then Entering else Evaluating(AtPreCheck, [])
      ensures Carried.Carries(cfg.monitors[id], Exec(cfg, origin, trace), o, id, monitors[id].Value(), total)
    {
      hide Born, IsRun, Exec;
      Carried.CarriesHere(cfg.monitors[id], Abs(), o, id);
    }

    /** At its end it has done what its exit says. */
    lemma Ends(o: OpId, op: Op, id: Id, exit: Exit, before: seq<Label>, r0: Record, log0: History)
      requires Valid() && At(o, op) && op.monitor == id && op.pc == Releasing(exit) && before <= trace
      requires Carried.Carries(cfg.monitors[id], Exec(cfg, origin, before), o, id, r0, log0)
      ensures Did(id, op.kind, exit, r0, log0) && Effects.Excused(op)
    {
      hide IsRun, Exec, Born, Effects.ExitEffect;
      BornStarted(cfg, birth, past, origin);
      Carried.CarriesAlways(cfg, origin, before, trace, o, id, r0, log0);
    }

    // ---- persistence and the event history

    /** appendEventLocked, for each event in turn. */
    method Append(events: seq<Event>)
      modifies this`history, this`eventsDirty
      ensures history == AppendAll(old(history), events, cfg.maxEvents)
      ensures eventsDirty == (old(eventsDirty) || events != [])
    {
      ghost var goal := AppendAll(history, events, cfg.maxEvents);
      for i := 0 to |events|
        invariant AppendAll(history, events[i..], cfg.maxEvents) == goal
        invariant eventsDirty == (old(eventsDirty) || i > 0)
      {
        eventsDirty := true;
        history := Trim(history + [events[i]], cfg.maxEvents);
        assert events[i..][1..] == events[i + 1..];
      }
    }

    /** persistLocked: what the two stores answered is an input. */
    method PersistLocked(save: Save) returns (ok: bool)
      modifies this`eventsDirty, this`disk, this`diskLog
      ensures Abs() == Persist(old(Abs()), save)
      ensures ok <==> save.Saved? || (save.EventsFailed? && !old(eventsDirty))
    {
      if save.StateFailed? {
        disk := disk + {Recs()};
        return false;
      }
      disk := {Recs()};
      ok := !eventsDirty;
      if eventsDirty {
        ok := PersistEvents(save.EventsFailed?);
      }
    }

    /** The second store of persistLocked. */
    method PersistEvents(fails: bool) returns (ok: bool)
      modifies this`eventsDirty, this`diskLog
      ensures ok == !fails
      ensures Abs() == if fails then old(Abs()).(diskLog := old(diskLog) + {history})
                       else old(Abs()).(diskLog := {history}, dirty := false)
    {
      ghost var recs := Recs();
      if fails {
        diskLog := diskLog + {history};
      } else {
        diskLog := {history};
        eventsDirty := false;
      }
      ok := !fails;
      assert Recs() == recs;
    }

    /** The events and the save of a section, once m's record is written. */
    method Keep(ghost o: OpId, inp: Input, events: seq<Event>, save: bool, ghost before: Sys, ghost next: Local)
      returns (ok: bool)
      requires o in before.ops && next.events == events && next.persist == save
      requires Holds(before.ops[o].pc) == Holds(next.pc)
      requires Abs() == before.(recs := before.recs[before.ops[o].monitor := next.rec])
      modifies this`history, this`eventsDirty, this`disk, this`diskLog
      ensures Abs() == Install(cfg, before, o, inp, next).(now := now, ops := before.ops, total := before.total)
      ensures save ==> if inp.save.Saved? then ok else events != [] ==> !ok
    {
      hide AppendAll, Persist;
      Append(events);
      ok := true;
      if save {
        ghost var s := Abs();
        ok := PersistLocked(inp.save);
        PersistLeaves(s, inp.save, inp.t2, before.ops[o := before.ops[o].(pc := next.pc)], before.total + next.events);
      }
    }

    /** The end of a section: events, save and step, once m's record is written. */
    method Commit(ghost o: OpId, ghost m: Id, inp: Input, events: seq<Event>, save: bool,
                  ghost before: Sys, ghost next: Local)
      returns (ok: bool)
      requires Within(before) && Takes(o, inp, before, next) && before.ops[o].monitor == m
      requires next.events == events && next.persist == save && Holds(before.ops[o].pc) == Holds(next.pc)
      requires Abs() == before.(recs := before.recs[m := next.rec])
      modifies this`now, this`ops, this`total, this`trace
      modifies this`history, this`eventsDirty, this`disk, this`diskLog
      ensures Valid() && trace == old(trace) + [Step(o, inp)]
      ensures o in ops && ops[o] == before.ops[o].(pc := next.pc)
      ensures save ==> if inp.save.Saved? then ok else events != [] ==> !ok
    {
      hide Moved, IsRun, Exec, Born, Install;
      ok := Keep(o, inp, events, save, before, next);
      Record(o, inp, before, next);
      InstallParts(cfg, before, o, inp, next);
    }

    /** The holder stands where it may take its step. */
    lemma Stands(o: OpId, op: Op, inp: Input)
      requires Valid() && At(o, op) && InTime(inp)
      ensures Within(Abs()) && Separate() && Abs().ops[o] == op && op.monitor in Abs().recs
      ensures Enabled(cfg, Abs(), Step(o, inp)) && MovesAs(cfg, Abs(), o, inp)
    {
      hide IsRun, Exec, Born, Advance, MovesAs;
      Here(cfg, Abs(), o, inp);
    }

    /** The contract of every section: one step, and where it leaves the operation. */
    twostate predicate Stepped(o: OpId, inp: Input, op: Op)
      reads this, monitors.Values
    {
      Valid() && monitors == old(monitors) && old(trace) <= trace && trace == old(trace) + [Step(o, inp)] && At(o, op)
    }

    // ---- the sections, each one step of the machine

    /** runMonitorCycle, first section. */
    method OpenCheck(ghost o: OpId, ghost op: Op, id: Id, start: nat, inp: Input) returns (before: Status)
      requires Valid() && At(o, op) && op.monitor == id && op.pc == Opening(start) && InTime(inp)
      modifies this, monitors.Values
      ensures Stepped(o, inp, op.(pc := Evaluating(AtCheck(start, before), [])))
    {
      hide IsRun, Exec, Born, Advance, Valid, Within, Install;
      ghost var s := Abs();
      ghost var next := StepOpening(cfg.monitors[id], s.recs[id], op);
      Stands(o, op, inp);
      var st := monitors[id];
      before := st.status;
      st.Open(cfg.monitors[id], start);
      OneRecord(id);
      var _ := Commit(o, id, inp, [], true, s, next);
    }

    /** runMonitorCycle, second section, when the context is done. */
    method CancelCheck(ghost o: OpId, ghost op: Op, id: Id, before: Status, inp: Input)
      requires Valid() && At(o, op) && op.monitor == id && op.cancelled && InTime(inp)
      requires op.pc.Evaluated? && op.pc.site.AtCheck? && op.pc.site.before == before
      modifies this, monitors.Values
      ensures Stepped(o, inp, op.(pc := Releasing(CheckCancelled)))
    {
      hide IsRun, Exec, Born, Advance, Valid, Within, Install;
      ghost var s := Abs();
      ghost var next := StepChecked(cfg.monitors[id], s.recs[id], op);
      Stands(o, op, inp);
      monitors[id].Restore(before);
      OneRecord(id);
      var _ := Commit(o, id, inp, [], true, s, next);
    }

    /** runMonitorCycle, second section, when no check failed. */
    method ConcludeHealthy(
      ghost o: OpId, ghost op: Op, id: Id, before: Status, start: nat, finished: nat, results: seq<CheckResult>,
      inp: Input)
      requires Valid() && At(o, op) && op.monitor == id && !op.cancelled && InTime(inp)
      requires op.pc == Evaluated(AtCheck(start, before), results, finished) && FailureReasons(results) == []
      modifies this, monitors.Values
      ensures Stepped(o, inp, op.(pc := Releasing(Passed)))
    {
      hide IsRun, Exec, Born, Advance, Valid, Within, Install, PassCheck, RecordsHealthyEvent, FailureReasons;
      ghost var s := Abs();
      ghost var next := StepChecked(cfg.monitors[id], s.recs[id], op);
      Stands(o, op, inp);
      var events := monitors[id].Pass(id, before, start, finished, results);
      OneRecord(id);
      var _ := Commit(o, id, inp, events, true, s, next);
    }

    /** The machine's step for a failed check. */
    lemma ChecksAsFailed(o: OpId, op: Op, id: Id, inp: Input)
      requires Valid() && At(o, op) && op.monitor == id && !op.cancelled && InTime(inp)
      requires op.pc.Evaluated? && op.pc.site.AtCheck? && FailureReasons(op.pc.results) != []
      ensures var next := StepChecked(cfg.monitors[id], monitors[id].Value(), op);
        var e := FailCheck(id, monitors[id].Value(), op.pc.site.before, op.pc.site.start, op.pc.finished,
                           op.pc.results);
        && Within(Abs()) && Separate() && Takes(o, inp, Abs(), next) && Abs().ops[o] == op
        && next.persist && Effect(next.rec, next.events) == e
        && next.pc == if ShouldRecover(cfg.monitors[id], e.rec, op.pc.finished) then Failing(op.pc.results)
                      else Releasing(NoRecovery)
    {
      hide IsRun, Exec, Born, Advance, Valid, Within, FailCheck, FailureReasons, ShouldRecover;
      Stands(o, op, inp);
    }

    /** runMonitorCycle, second section, when a check failed. */
    method ConcludeFailed(
      ghost o: OpId, ghost op: Op, id: Id, before: Status, start: nat, finished: nat,
      results: seq<CheckResult>, reasons: seq<string>, inp: Input)
      returns (recover: bool)
      requires Valid() && At(o, op) && op.monitor == id && !op.cancelled && InTime(inp)
      requires op.pc == Evaluated(AtCheck(start, before), results, finished)
      requires reasons == FailureReasons(results) && reasons != []
      modifies this, monitors.Values
      ensures Stepped(o, inp, op.(pc := if recover then Failing(results) else Releasing(NoRecovery)))
    {
      hide IsRun, Exec, Born, Advance, Valid, Within, Install, FailCheck, FailureReasons, ShouldRecover, StepChecked,
           Takes;
      ghost var s := Abs();
      ghost var next := StepChecked(cfg.monitors[id], s.recs[id], op);
      ChecksAsFailed(o, op, id, inp);
      var st := monitors[id];
      var events := st.Fail(id, before, start, finished, results, reasons);
      OneRecord(id);
      recover := ShouldRecover(cfg.monitors[id], st.Value(), finished);
      var _ := Commit(o, id, inp, events, true, s, next);
    }

    /** runMonitorCycle, third section: suppressed, or on to recovery. */
    method CheckAttempts(
      ghost o: OpId, ghost op: Op, id: Id, results: seq<CheckResult>, reasons: seq<string>, inp: Input)
      returns (suppressed: bool)
      requires Valid() && At(o, op) && op.monitor == id && op.pc == Failing(results) && InTime(inp)
      requires reasons == FailureReasons(results)
      modifies this, monitors.Values
      ensures Stepped(o, inp,
        op.(pc := if suppressed then Releasing(Suppressed) else Starting(Degraded, results, reasons)))
      ensures suppressed <==> 0 < cfg.monitors[id].maxAttempts <= old(monitors[id].recoveryFailures)
    {
      hide IsRun, Exec, Born, Advance, Valid, Within, Install, FailureReasons, MarkExhausted;
      ghost var s := Abs();
      ghost var next := StepFailing(cfg.monitors[id], s.recs[id], op, inp);
      Stands(o, op, inp);
      var st := monitors[id];
      suppressed := AttemptsExhausted(cfg.monitors[id], st.Value());
      var events := [];
      if suppressed {
        events := st.Suppress(cfg.monitors[id], id, inp.t, results, reasons);
      }
      OneRecord(id);
      var _ := Commit(o, id, inp, events, suppressed, s, next);
    }

    /** runForcedRecovery: the status read under the read lock. */
    method ReadStatus(ghost o: OpId, ghost op: Op, id: Id, inp: Input) returns (before: Status)
      requires Valid() && At(o, op) && op.monitor == id && !op.cancelled && InTime(inp)
      requires op.pc.Evaluated? && op.pc.site.AtPreCheck?
      modifies this, monitors.Values
      ensures Stepped(o, inp,
        op.(pc := Starting(before, op.pc.results, FailureReasons(op.pc.results) + [ManualReason])))
    {
      hide IsRun, Exec, Born, Advance, Valid, Within, Install, FailureReasons;
      ghost var s := Abs();
      ghost var next := StepPreChecked(s.recs[id], op);
      Stands(o, op, inp);
      before := Unknown;
      if !monitors[id].status.Unset? {
        before := monitors[id].status;
      }
      OneRecord(id);
      var _ := Commit(o, id, inp, [], false, s, next);
    }

    /** executeRecovery, the section that records and saves the start. */
    method RecordStart(
      ghost o: OpId, ghost op: Op, id: Id, before: Status, results: seq<CheckResult>, reasons: seq<string>, inp: Input)
      returns (saved: bool)
      requires Valid() && At(o, op) && op.monitor == id && !op.cancelled && InTime(inp)
      requires op.pc == Starting(before, results, reasons)
      modifies this, monitors.Values
      ensures Stepped(o, inp, op.(pc := if saved then Acting(before, inp.t, []) else Aborting(before)))
    {
      hide IsRun, Exec, Born, Advance, Valid, Within, Install;
      ghost var s := Abs();
      ghost var next := StepStarting(cfg.monitors[id], s.recs[id], op, inp);
      Stands(o, op, inp);
      var events := monitors[id].BeginRecovery(cfg.monitors[id], id, before, inp.t, results, reasons);
      OneRecord(id);
      saved := Commit(o, id, inp, events, true, s, next);
    }

    /** The deferred restore of executeRecovery. */
    method AbortRecovery(ghost o: OpId, ghost op: Op, id: Id, before: Status, inp: Input)
      requires Valid() && At(o, op) && op.monitor == id && op.pc == Aborting(before) && InTime(inp)
      modifies this, monitors.Values
      ensures Stepped(o, inp, op.(pc := Releasing(Interrupted)))
    {
      hide IsRun, Exec, Born, Advance, Valid, Within, Install;
      ghost var s := Abs();
      ghost var next := StepAborting(s.recs[id], op);
      Stands(o, op, inp);
      monitors[id].Restore(before);
      OneRecord(id);
      var _ := Commit(o, id, inp, [], true, s, next);
    }

    /** The last section of both operations, when the context is done. */
    method CancelOutcome(ghost o: OpId, ghost op: Op, id: Id, before: Status, inp: Input)
      requires Valid() && At(o, op) && op.monitor == id && op.cancelled && op.pc.Closing? && InTime(inp)
      requires before == if op.kind.Cycle? then Degraded else op.pc.before
      modifies this, monitors.Values
      ensures Stepped(o, inp, op.(pc := Releasing(OutcomeCancelled)))
    {
      hide IsRun, Exec, Born, Advance, Valid, Within, Install;
      ghost var s := Abs();
      ghost var next := StepClosing(cfg.monitors[id], s.recs[id], op, inp);
      Stands(o, op, inp);
      monitors[id].Restore(before);
      OneRecord(id);
      var _ := Commit(o, id, inp, [], true, s, next);
    }

    /** The machine's step for the last section. */
    lemma Closes(o: OpId, op: Op, id: Id, inp: Input)
      requires Valid() && At(o, op) && op.monitor == id && !op.cancelled && InTime(inp) && op.pc.Closing?
      ensures var next := StepClosing(cfg.monitors[id], monitors[id].Value(), op, inp);
        && Within(Abs()) && Separate() && Takes(o, inp, Abs(), next) && Abs().ops[o] == op
        && next.persist && next.pc == Releasing(if op.pc.recovered then Recovered else RecoveryLost)
        && Effect(next.rec, next.events)
           == ApplyOutcome(cfg.monitors[id], id, monitors[id].Value(), inp.t, inp.t2, op.pc.done, op.pc.recovered,
                           op.pc.post, op.pc.reasons)
    {
      hide IsRun, Exec, Born, Advance, Valid, Within, ApplyOutcome;
      Stands(o, op, inp);
    }

    /** The last section of both operations: applyRecoveryOutcomeLocked. */
    method CloseRecovery(
      ghost o: OpId, ghost op: Op, id: Id, actions: seq<ActionResult>, recovered: bool,
      post: seq<CheckResult>, reasons: seq<string>, inp: Input)
      requires Valid() && At(o, op) && op.monitor == id && !op.cancelled && InTime(inp)
      requires op.pc.Closing? && op.pc == Closing(op.pc.before, op.pc.since, actions, recovered, post, reasons)
      modifies this, monitors.Values
      ensures Stepped(o, inp, op.(pc := Releasing(if recovered then Recovered else RecoveryLost)))
    {
      hide IsRun, Exec, Born, Advance, Valid, Within, Install, ApplyOutcome, OutcomeWritten, StepClosing, Takes;
      ghost var s := Abs();
      ghost var next := StepClosing(cfg.monitors[id], s.recs[id], op, inp);
      Closes(o, op, id, inp);
      var events := monitors[id].EndRecovery(cfg.monitors[id], id, inp.t, inp.t2, actions, recovered, post, reasons);
      OneRecord(id);
      var _ := Commit(o, id, inp, events, true, s, next);
    }

    /** A step that is no section: a test of the context, a check, an action. */
    method Quietly(ghost o: OpId, ghost op: Op, inp: Input)
      requires Valid() && At(o, op) && InTime(inp) && QuietPC(op)
      modifies this`now, this`ops, this`total, this`trace
      modifies this`history, this`eventsDirty, this`disk, this`diskLog
      ensures Valid() && trace == old(trace) + [Step(o, inp)]
      ensures At(o, op.(pc := QuietNext(cfg.monitors[op.monitor], op, inp)))
    {
      hide IsRun, Exec, Born, Advance, Valid, Within, Install, QuietNext;
      ghost var s := Abs();
      ghost var next := Quiet(s.recs[op.monitor], QuietNext(cfg.monitors[op.monitor], op, inp));
      Stands(o, op, inp);
      QuietStays(cfg.monitors[op.monitor], op, inp);
      assert s.recs == s.recs[op.monitor := s.recs[op.monitor]];
      var _ := Commit(o, op.monitor, inp, [], false, s, next);
    }

    ghost method Begin(o: OpId, id: Id, kind: Kind)
      requires Valid() && o !in ops && o !in done && id in cfg.monitors && cfg.monitors[id].enabled
      modifies this`ops, this`trace
      ensures Valid() && trace == old(trace) + [Call(o, id, kind)] && In(o, NewOp(id, kind))
    {
      hide IsRun, Exec, Born;
      BornStarted(cfg, birth, past, origin);
      CallOfRun(cfg, origin, trace, o, id, kind, Abs());
      ops, trace := ops[o := NewOp(id, kind)], trace + [Call(o, id, kind)];
    }

    /** lookupEnabledMonitor. A monitor that is there and enabled begins operation o. */
    method LookupEnabledMonitor(o: OpId, id: Id, kind: Kind) returns (found: Lookup)
      requires Valid() && o !in ops && o !in done
      modifies this`ops, this`trace
      ensures Valid()
      ensures found.NotFound? <==> id !in cfg.monitors
      ensures found.IsDisabled? <==> id in cfg.monitors && !cfg.monitors[id].enabled
      ensures found.Available? ==> trace == old(trace) + [Call(o, id, kind)] && In(o, NewOp(id, kind))
      ensures !found.Available? ==> trace == old(trace) && ops == old(ops)
    {
      if id !in cfg.monitors {
        return NotFound;
      }
      if !cfg.monitors[id].enabled {
        return IsDisabled;
      }
      Begin(o, id, kind);
      return Available;
    }

    /** MonitorSnapshot: a record of the caller's own, with the contents of this moment. */
    method MonitorSnapshot(id: Id) returns (copy: MonitorState?)
      ensures copy == null <==> id !in monitors
      ensures copy != null ==> fresh(copy) && copy.Value() == monitors[id].Value()
    {
      if id !in monitors {
        return null;
      }
      copy := monitors[id].Clone();
    }

    // ---- the monitor's slot

    ghost predicate In(o: OpId, op: Op)
      reads this`ops, this`monitors
    {
      o in ops && ops[o] == op && op.monitor in monitors && op.monitor in cfg.monitors
    }

    /** A step at the edge of withMonitorLock, taking or giving back the slot where it does. */
    lemma StandsAtEdge(o: OpId, op: Op, inp: Input)
      requires Valid() && In(o, op) && InTime(inp)
      requires op.pc.Called? || op.pc.Waiting? || op.pc.Releasing?
      requires Acquires(op, inp) ==> op.monitor !in locks
      ensures Within(Abs()) && Abs().ops[o] == op && op.monitor in Abs().recs
      ensures Takes(o, inp, Abs(), Quiet(Abs().recs[op.monitor], EdgeNext(op, inp)))
    {
      hide IsRun, Exec, Born, Advance;
      Edge(cfg, Abs(), o, inp);
    }

    method Shift(ghost o: OpId, ghost op: Op, id: Id, take: bool, give: bool, inp: Input)
      requires Valid() && In(o, op) && op.monitor == id && InTime(inp)
      requires op.pc.Called? || op.pc.Waiting? || op.pc.Releasing?
      requires take == Acquires(op, inp) && give == op.pc.Releasing? && (take ==> id !in locks)
      modifies this`now, this`ops, this`total, this`trace, this`locks
      ensures Valid() && trace == old(trace) + [Step(o, inp)] && In(o, op.(pc := EdgeNext(op, inp)))
      ensures locks == if take then old(locks) + {id} else if give then old(locks) - {id} else old(locks)
    {
      hide IsRun, Exec, Born, Advance, Valid, Within, Install, EdgeNext, Moved;
      ghost var s := Abs();
      StandsAtEdge(o, op, inp);
      Installs(cfg, s, o, inp, EdgeNext(op, inp));
      EdgeSlots(op, inp);
      if take {
        locks := locks + {id};
      } else if give {
        locks := locks - {id};
      }
      Record(o, inp, s, Quiet(s.recs[id], EdgeNext(op, inp)));
    }

    /** What a waiter keeps through a Yield. */
    method Wait(ghost o: OpId, ghost op: Op) returns (ghost op': Op)
      requires Valid() && In(o, op)
      modifies this, monitors.Values
      ensures Valid() && monitors == old(monitors) && old(trace) <= trace
      ensures In(o, op') && op' == op.(cancelled := op'.cancelled) && (op.cancelled ==> op'.cancelled)
    {
      ghost var before := trace;
      Yield(o);
      WaitedFor(cfg, origin, before, trace, o);
      op' := ops[o];
    }

    /** withMonitorLock up to the callback. It looks at the slot this many times; a caller
        that finds it taken each time, and its context alive, is still waiting. */
    method WithMonitorLock(o: OpId, ghost op: Op, id: Id, looks: nat) returns (entry: Entry, ghost op': Op)
      requires Valid() && In(o, op) && op.monitor == id && op.pc == Called
      modifies this, monitors.Values
      ensures Valid() && monitors == old(monitors) && old(trace) <= trace && In(o, op')
      ensures op' == op.(cancelled := op'.cancelled, pc := op'.pc) && Admitted(entry, op')
    {
      hide IsRun, Exec, Born, Advance, Valid;
      op' := Wait(o, op);
      var err := ContextErr(o);
      var inp := Outside();
      Shift(o, op', id, false, false, inp);
      if err {
        return Refused, op'.(pc := Finished(NotRun));
      }
      op' := op'.(pc := Waiting);
      for _ := 0 to looks
        invariant Valid() && monitors == old(monitors) && old(trace) <= trace && In(o, op')
        invariant op' == op.(cancelled := op'.cancelled, pc := Waiting)
      {
        entry, op' := LookAtSlot(o, op', id);
        if !entry.StillWaiting? {
          return;
        }
      }
      return StillWaiting, op';
    }

    /** One look at the select: the slot if it is free, the way out if the context is done. */
    method LookAtSlot(o: OpId, ghost op: Op, id: Id) returns (entry: Entry, ghost op': Op)
      requires Valid() && In(o, op) && op.monitor == id && op.pc == Waiting
      modifies this, monitors.Values
      ensures Valid() && monitors == old(monitors) && old(trace) <= trace && In(o, op')
      ensures op' == op.(cancelled := op'.cancelled, pc := op'.pc) && Admitted(entry, op')
    {
      hide IsRun, Exec, Born, Advance, Valid;
      op' := Wait(o, op);
      var err := ContextErr(o);
      var inp := Outside();
      if err && (inp.giveUp || id in locks) {
        Shift(o, op', id, false, false, inp.(giveUp := true));
        return Refused, op'.(pc := Finished(NotRun));
      }
      if id in locks {
        return StillWaiting, op';
      }
      Shift(o, op', id, true, false, inp);
      entry, op' := CheckAgain(o, op'.(pc := Locked), id);
    }

    /** The second test of the context, with the slot already taken. */
    method CheckAgain(o: OpId, ghost op: Op, id: Id) returns (entry: Entry, ghost op': Op)
      requires Valid() && At(o, op) && op.monitor == id && op.pc == PC.Locked
      modifies this, monitors.Values
      ensures Valid() && monitors == old(monitors) && old(trace) <= trace && In(o, op')
      ensures op' == op.(cancelled := op'.cancelled, pc := op'.pc) && Admitted(entry, op') && entry != StillWaiting
    {
      hide IsRun, Exec, Born, Advance, Valid, QuietNext;
      op' := Interfere(o, op);
      var err := ContextErr(o);
      var inp := Outside();
      Goes(cfg.monitors[id], op', inp);
      Quietly(o, op', inp);
      if !err {
        return Entered, op'.(pc := if op.kind.Cycle? then Entering else Evaluating(AtPreCheck, []));
      }
      op' := op'.(pc := Releasing(NotRun));
      Release(o, op', id);
      return Refused, op'.(pc := Finished(NotRun));
    }

    /** The deferred receive from the slot. */
    method Release(ghost o: OpId, ghost op: Op, id: Id)
      requires Valid() && At(o, op) && op.monitor == id && op.pc.Releasing?
      modifies this, monitors.Values
      ensures Valid() && monitors == old(monitors) && old(trace) <= trace && In(o, op.(pc := Finished(op.pc.exit)))
      ensures id !in locks
    {
      hide IsRun, Exec, Born, Advance;
      var inp := Outside();
      Shift(o, op, id, false, true, inp);
    }

    // ---- the operations

    /** ctx.Err() */
    method ContextErr(o: OpId) returns (err: bool)
      requires Valid() && o in ops
      ensures err == ops[o].cancelled
    {
      err := o in done;
    }

    /** What a check returns is not decided here. */
    method RunCheck() returns (result: CheckResult)
    {
      result := CheckResult(true, "");
    }

    /** No action runs before the cooldown of its recovery is on the disk. runRecheck has a
        fixed answer; what another action returns is not decided here. */
    method RunAction(ghost id: Id, ghost since: nat, recheck: bool) returns (result: ActionResult)
      requires id in cfg.monitors && Saves(disk, id, Secs(since + cfg.monitors[id].cooldown))
      ensures recheck ==> result == RecheckResult
    {
      result := RecheckResult;
    }

    /** One round of the loop in evaluateMonitor, with the context alive. */
    method EvaluateOne(o: OpId, ghost op: Op, id: Id, results: seq<CheckResult>) returns (result: CheckResult)
      requires Valid() && At(o, op) && op.monitor == id && !op.cancelled && |results| < cfg.monitors[id].checks
      requires op.pc.Evaluating? && op.pc.results == results
      modifies this, monitors.Values
      ensures Valid() && monitors == old(monitors) && old(trace) <= trace
        && At(o, op.(pc := Evaluating(op.pc.site, results + [result])))
    {
      hide IsRun, Exec, Born, Advance, Valid, QuietNext;
      result := RunCheck();
      var inp := Outside();
      inp := inp.(check := result);
      Goes(cfg.monitors[id], op, inp);
      Quietly(o, op, inp);
    }

    method EvaluateMonitor(o: OpId, ghost op: Op, id: Id, ghost site: Site)
      returns (results: seq<CheckResult>, reasons: seq<string>, finished: nat, ghost op': Op)
      requires Valid() && At(o, op) && op.monitor == id && op.pc == Evaluating(site, [])
      modifies this, monitors.Values
      ensures Valid() && monitors == old(monitors) && old(trace) <= trace && reasons == FailureReasons(results)
      ensures At(o, op') && op' == op.(cancelled := op'.cancelled, pc := Evaluated(site, results, finished))
      ensures |results| <= cfg.monitors[id].checks && (|results| < cfg.monitors[id].checks ==> op'.cancelled)
    {
      hide IsRun, Exec, Born, Advance, Valid, QuietNext;
      results, reasons, op' := [], [], op;
      while |results| < cfg.monitors[id].checks
        invariant Valid() && monitors == old(monitors) && old(trace) <= trace && reasons == FailureReasons(results)
        invariant At(o, op') && op' == op.(cancelled := op'.cancelled, pc := Evaluating(site, results))
        invariant |results| <= cfg.monitors[id].checks
      {
        op' := Interfere(o, op');
        var err := ContextErr(o);
        if err {
          break;
        }
        var result := EvaluateOne(o, op', id, results);
        op' := op'.(pc := Evaluating(site, results + [result]));
        assert (results + [result])[..|results|] == results;
        results := results + [result];
        if !result.success {
          reasons := reasons + [result.message];
        }
      }
      finished := EndEvaluation(o, op', id, results);
      op' := op'.(pc := Evaluated(site, results, finished));
    }

    /** The clock is read once the evaluation is over. */
    method EndEvaluation(o: OpId, ghost op: Op, id: Id, results: seq<CheckResult>) returns (finished: nat)
      requires Valid() && At(o, op) && op.monitor == id && op.pc.Evaluating? && op.pc.results == results
      requires op.cancelled || |results| >= cfg.monitors[id].checks
      modifies this, monitors.Values
      ensures Valid() && monitors == old(monitors) && old(trace) <= trace
        && At(o, op.(pc := Evaluated(op.pc.site, results, finished)))
    {
      hide IsRun, Exec, Born, Advance, Valid, QuietNext;
      var inp := Outside();
      Goes(cfg.monitors[id], op, inp);
      Quietly(o, op, inp);
      finished := inp.t;
    }

    /** One round of the loop in executeRecovery. */
    method RunOne(o: OpId, ghost op: Op, id: Id, before: Status, previous: seq<ActionResult>)
      returns (verdict: RoundEnd, results: seq<ActionResult>, post: seq<CheckResult>, reasons: seq<string>,
               ghost op': Op)
      requires Valid() && At(o, op) && op.monitor == id && |previous| < |cfg.monitors[id].recovery|
      requires op.pc.Acting? && op.pc == Acting(before, op.pc.since, previous)
      modifies this, monitors.Values
      ensures Valid() && monitors == old(monitors) && old(trace) <= trace
      ensures At(o, op') && op' == op.(cancelled := op'.cancelled, pc := op'.pc)
      ensures op'.pc == After(verdict, before, op.pc.since, results, post, reasons)
      ensures verdict.Continue? ==> |results| == |previous| + 1
    {
      hide IsRun, Exec, Born, Advance, Valid, QuietNext, FailureReasons;
      op' := Interfere(o, op);
      var err := ContextErr(o);
      var inp := Outside();
      if err {
        Goes(cfg.monitors[id], op', inp);
        Quietly(o, op', inp);
        return Stop, previous, [], [], op'.(pc := Aborting(before));
      }
      var recheck := cfg.monitors[id].recovery[|previous|];
      CooldownIsSaved(o, op');
      var result := RunAction(id, op.pc.since, recheck);
      inp := inp.(action := result);
      Goes(cfg.monitors[id], op', inp);
      Quietly(o, op', inp);
      op' := op'.(pc := Acted(before, op.pc.since, previous, recheck, result));
      results := previous + [result];
      verdict, post, reasons, op' := Judge(o, op', id, before, recheck, results);
    }

    /** What follows an action that has been run. */
    method Judge(o: OpId, ghost op: Op, id: Id, before: Status, recheck: bool, results: seq<ActionResult>)
      returns (verdict: RoundEnd, post: seq<CheckResult>, reasons: seq<string>, ghost op': Op)
      requires Valid() && At(o, op) && op.monitor == id && op.pc.Acted? && op.pc.before == before
      requires recheck == op.pc.recheck && results == op.pc.done + [op.pc.result]
      modifies this, monitors.Values
      ensures Valid() && monitors == old(monitors) && old(trace) <= trace
      ensures At(o, op') && op' == op.(cancelled := op'.cancelled, pc := op'.pc)
      ensures op'.pc == After(verdict, before, op.pc.since, results, post, reasons)
    {
      hide IsRun, Exec, Born, Advance, Valid, QuietNext, FailureReasons;
      ghost var since := op.pc.since;
      var result := results[|results| - 1];
      post, reasons := [], [];
      op' := Interfere(o, op);
      var err := ContextErr(o);
      var inp := Outside();
      Goes(cfg.monitors[id], op', inp);
      Quietly(o, op', inp);
      if err {
        verdict := Stop;
      } else if recheck {
        op' := op'.(pc := Evaluating(AtRecheck(before, since, results), []));
        verdict, post, reasons, op' := Recheck(o, op', id, before, results);
        return;
      } else if !result.success {
        verdict, reasons := Decided(false), [result.message];
      } else {
        verdict := Continue;
      }
      op' := op'.(pc := After(verdict, before, since, results, post, reasons));
    }

    /** An evaluation of a recovery, and the test of the context after it. */
    method Assess(o: OpId, ghost op: Op, id: Id, ghost site: Site)
      returns (err: bool, results: seq<CheckResult>, reasons: seq<string>, ghost op': Op)
      requires Valid() && At(o, op) && op.monitor == id && op.pc == Evaluating(site, [])
      requires site.AtRecheck? || site.AtFinal?
      modifies this, monitors.Values
      ensures Valid() && monitors == old(monitors) && old(trace) <= trace && reasons == FailureReasons(results)
      ensures At(o, op') && op' == op.(cancelled := op'.cancelled, pc := Assessed(site, results, err))
    {
      hide IsRun, Exec, Born, Advance, Valid, QuietNext, FailureReasons;
      var finished: nat;
      results, reasons, finished, op' := EvaluateMonitor(o, op, id, site);
      op' := Interfere(o, op');
      err := ContextErr(o);
      var inp := Outside();
      Goes(cfg.monitors[id], op', inp);
      Quietly(o, op', inp);
      op' := op'.(pc := Assessed(site, results, err));
    }

    /** The evaluation after a recheck action. */
    method Recheck(o: OpId, ghost op: Op, id: Id, before: Status, results: seq<ActionResult>)
      returns (verdict: RoundEnd, post: seq<CheckResult>, reasons: seq<string>, ghost op': Op)
      requires Valid() && At(o, op) && op.monitor == id
      requires op.pc.Evaluating? && op.pc.site.AtRecheck?
               && op.pc == Evaluating(AtRecheck(before, op.pc.site.since, results), [])
      modifies this, monitors.Values
      ensures Valid() && monitors == old(monitors) && old(trace) <= trace
      ensures At(o, op') && op' == op.(cancelled := op'.cancelled, pc := op'.pc)
      ensures op'.pc == After(verdict, before, op.pc.site.since, results, post, reasons)
    {
      hide IsRun, Exec, Born, Advance, Valid, QuietNext, FailureReasons;
      var err, checked, failed, op1 := Assess(o, op, id, op.pc.site);
      op', post, reasons := op1, [], [];
      if err {
        verdict := Stop;
      } else if |failed| == 0 {
        verdict, post := Decided(true), checked;
      } else {
        verdict := Continue;
      }
    }

    /** The evaluation after the last action. */
    method LastEvaluation(o: OpId, ghost op: Op, id: Id, before: Status, results: seq<ActionResult>)
      returns (verdict: RoundEnd, post: seq<CheckResult>, reasons: seq<string>, ghost op': Op)
      requires Valid() && At(o, op) && op.monitor == id && |results| >= |cfg.monitors[id].recovery|
      requires op.pc.Acting? && op.pc == Acting(before, op.pc.since, results)
      modifies this, monitors.Values
      ensures Valid() && monitors == old(monitors) && old(trace) <= trace
      ensures At(o, op') && op' == op.(cancelled := op'.cancelled, pc := op'.pc)
      ensures !verdict.Continue? && op'.pc == After(verdict, before, op.pc.since, results, post, reasons)
    {
      hide IsRun, Exec, Born, Advance, Valid, QuietNext, FailureReasons;
      ghost var site := AtFinal(before, op.pc.since, results);
      var inp := Outside();
      Goes(cfg.monitors[id], op, inp);
      Quietly(o, op, inp);
      var err;
      err, post, reasons, op' := Assess(o, op.(pc := Evaluating(site, [])), id, site);
      verdict := if err then Stop else Decided(|reasons| == 0);
    }

    /** What executeRecovery hands over: an outcome the specification gives, with the cooldown
        of this recovery in whatever a crash may leave. */
    ghost predicate HandsOver(
      id: Id, since: nat, recovered: bool, results: seq<ActionResult>, post: seq<CheckResult>, reasons: seq<string>)
      reads this`disk
    {
      && id in cfg.monitors
      && RecoverySpec.CameTo(cfg.monitors[id], results, RecoverySpec.Verdict(recovered, post, reasons))
      && Saves(disk, id, Secs(since + cfg.monitors[id].cooldown))
    }

    /** How executeRecovery ends. */
    ghost predicate Handed(
      op: Op, id: Id, before: Status, verdict: RoundEnd, results: seq<ActionResult>, post: seq<CheckResult>,
      reasons: seq<string>)
      reads this`disk
    {
      match verdict
      case Stop => op.pc == Releasing(Interrupted)
      case Decided(recovered) =>
        && op.pc.Closing? && op.pc == Closing(before, op.pc.since, results, recovered, post, reasons)
        && HandsOver(id, op.pc.since, recovered, results, post, reasons)
      case Continue => false
    }

    /** The loop over the recovery actions and the last evaluation: interrupted, or decided
        as the specification decides. */
    method RunActions(o: OpId, ghost op: Op, id: Id, before: Status)
      returns (verdict: RoundEnd, results: seq<ActionResult>, post: seq<CheckResult>, reasons: seq<string>,
               ghost op': Op)
      requires Valid() && At(o, op) && op.monitor == id && op.pc.Acting? && op.pc == Acting(before, op.pc.since, [])
      modifies this, monitors.Values
      ensures Valid() && monitors == old(monitors) && old(trace) <= trace
      ensures At(o, op') && op' == op.(cancelled := op'.cancelled, pc := op'.pc)
      ensures !verdict.Continue? && op'.pc == After(verdict, before, op.pc.since, results, post, reasons)
      ensures verdict.Decided? ==> HandsOver(id, op.pc.since, verdict.recovered, results, post, reasons)
    {
      hide Valid, Saves, RecoverySpec.CameTo;
      verdict, results, post, reasons, op' := LoopActions(o, op, id, before);
      if verdict.Decided? {
        CooldownIsSaved(o, op');
        OutcomeFollows(o, op');
      }
    }

    /** The loop of executeRecovery and the evaluation after it. */
    method LoopActions(o: OpId, ghost op: Op, id: Id, before: Status)
      returns (verdict: RoundEnd, results: seq<ActionResult>, post: seq<CheckResult>, reasons: seq<string>,
               ghost op': Op)
      requires Valid() && At(o, op) && op.monitor == id && op.pc.Acting? && op.pc == Acting(before, op.pc.since, [])
      modifies this, monitors.Values
      ensures Valid() && monitors == old(monitors) && old(trace) <= trace
      ensures At(o, op') && op' == op.(cancelled := op'.cancelled, pc := op'.pc)
      ensures !verdict.Continue? && op'.pc == After(verdict, before, op.pc.since, results, post, reasons)
    {
      hide IsRun, Exec, Born, Advance, Valid, QuietNext, FailureReasons;
      results, op' := [], op;
      while |results| < |cfg.monitors[id].recovery|
        invariant Valid() && monitors == old(monitors) && old(trace) <= trace
        invariant At(o, op') && op' == op.(cancelled := op'.cancelled, pc := Acting(before, op.pc.since, results))
        decreases |cfg.monitors[id].recovery| - |results|
      {
        verdict, results, post, reasons, op' := RunOne(o, op', id, before, results);
        if !verdict.Continue? {
          return;
        }
      }
      verdict, post, reasons, op' := LastEvaluation(o, op', id, before, results);
    }

    /** executeRecovery. It stops, with nothing to be counted, or hands over an outcome. */
    method ExecuteRecovery(
      o: OpId, ghost op: Op, id: Id, failureResults: seq<CheckResult>, failureReasons: seq<string>, before: Status)
      returns (verdict: RoundEnd, results: seq<ActionResult>, post: seq<CheckResult>, reasons: seq<string>,
               ghost op': Op)
      requires Valid() && At(o, op) && op.monitor == id && op.pc == Starting(before, failureResults, failureReasons)
      modifies this, monitors.Values
      ensures Valid() && monitors == old(monitors) && old(trace) <= trace
      ensures At(o, op') && op' == op.(cancelled := op'.cancelled, pc := op'.pc)
      ensures Handed(op', id, before, verdict, results, post, reasons)
    {
      hide IsRun, Exec, Born, Advance, Valid, FailureReasons, HandsOver;
      verdict, results, post, reasons := Stop, [], [], [];
      var start, since;
      start, since, op' := TryStart(o, op, id, failureResults, failureReasons, before);
      if start.Cancelled? {
        return;
      }
      if start.Recorded? {
        verdict, results, post, reasons, op' := RunActions(o, op', id, before);
      }
      if verdict.Stop? {
        op' := Restore(o, op', id, before);
      }
    }

    /** The entry of executeRecovery, up to the saved start. */
    method TryStart(
      o: OpId, ghost op: Op, id: Id, failureResults: seq<CheckResult>, failureReasons: seq<string>, before: Status)
      returns (start: RecoveryStart, since: nat, ghost op': Op)
      requires Valid() && At(o, op) && op.monitor == id && op.pc == Starting(before, failureResults, failureReasons)
      modifies this, monitors.Values
      ensures Valid() && monitors == old(monitors) && old(trace) <= trace && At(o, op')
      ensures op' == op.(cancelled := op'.cancelled,
                         pc := match start
                               case Cancelled => Releasing(Interrupted)
                               case Recorded => Acting(before, since, [])
                               case NotSaved => Aborting(before))
    {
      hide IsRun, Exec, Born, Advance, Valid, QuietNext, FailureReasons;
      op' := Interfere(o, op);
      var err := ContextErr(o);
      var inp := Outside();
      since := inp.t;
      if err {
        Goes(cfg.monitors[id], op', inp);
        Quietly(o, op', inp);
        return Cancelled, since, op'.(pc := Releasing(Interrupted));
      }
      var saved := RecordStart(o, op', id, before, failureResults, failureReasons, inp);
      if saved {
        return Recorded, since, op'.(pc := Acting(before, inp.t, []));
      }
      return NotSaved, since, op'.(pc := Aborting(before));
    }

    /** The deferred restore, whenever it gets the mutex. */
    method Restore(o: OpId, ghost op: Op, id: Id, before: Status) returns (ghost op': Op)
      requires Valid() && At(o, op) && op.monitor == id && op.pc == Aborting(before)
      modifies this, monitors.Values
      ensures Valid() && monitors == old(monitors) && old(trace) <= trace
      ensures At(o, op') && op' == op.(cancelled := op'.cancelled, pc := Releasing(Interrupted))
    {
      hide IsRun, Exec, Born, Advance, Valid;
      op' := Interfere(o, op);
      var inp := Outside();
      AbortRecovery(o, op', id, before, inp);
      op' := op'.(pc := Releasing(Interrupted));
    }

    /** The section after executeRecovery, in both operations. */
    method Conclude(
      o: OpId, ghost op: Op, id: Id, before: Status, results: seq<ActionResult>, recovered: bool,
      post: seq<CheckResult>, reasons: seq<string>)
      returns (exit: Exit, ghost op': Op)
      requires Valid() && At(o, op) && op.monitor == id
      requires op.pc.Closing? && op.pc == Closing(op.pc.before, op.pc.since, results, recovered, post, reasons)
      requires before == if op.kind.Cycle? then Degraded else op.pc.before
      modifies this, monitors.Values
      ensures Valid() && monitors == old(monitors) && old(trace) <= trace && At(o, op')
      ensures op' == op.(cancelled := op'.cancelled, pc := Releasing(exit))
    {
      hide IsRun, Exec, Born, Advance, Valid;
      op' := Interfere(o, op);
      var err := ContextErr(o);
      var inp := Outside();
      if err {
        exit := OutcomeCancelled;
        CancelOutcome(o, op', id, before, inp);
      } else {
        exit := if recovered then Recovered else RecoveryLost;
        CloseRecovery(o, op', id, results, recovered, post, reasons, inp);
      }
      op' := op'.(pc := Releasing(exit));
    }

    /** executeRecovery and the section after it. */
    method Recover(
      o: OpId, ghost op: Op, id: Id, failures: seq<CheckResult>, failureReasons: seq<string>, before: Status)
      returns (exit: Exit, ghost op': Op)
      requires Valid() && At(o, op) && op.monitor == id && op.pc == Starting(before, failures, failureReasons)
      requires op.kind.Cycle? ==> before == Degraded
      modifies this, monitors.Values
      ensures Valid() && monitors == old(monitors) && old(trace) <= trace && At(o, op')
      ensures op' == op.(cancelled := op'.cancelled, pc := Releasing(exit))
    {
      hide IsRun, Exec, Born, Advance, Valid, FailureReasons, HandsOver;
      var verdict, actions, post, reasons, op1 := ExecuteRecovery(o, op, id, failures, failureReasons, before);
      if verdict.Stop? {
        return Interrupted, op1;
      }
      exit, op' := Conclude(o, op1, id, before, actions, verdict.recovered, post, reasons);
    }

    /** runMonitorCycle up to the decision about recovery. */
    method Check(o: OpId, ghost op: Op, id: Id)
      returns (exit: Exit, recover: bool, results: seq<CheckResult>, reasons: seq<string>, ghost op': Op)
      requires Valid() && At(o, op) && op.monitor == id && op.pc == Entering
      modifies this, monitors.Values
      ensures Valid() && monitors == old(monitors) && old(trace) <= trace && At(o, op')
        && reasons == FailureReasons(results)
      ensures op' == op.(cancelled := op'.cancelled, pc := if recover then Failing(results) else Releasing(exit))
    {
      hide IsRun, Exec, Born, Advance, Valid, QuietNext, FailureReasons;
      exit, recover, results, reasons := NotRun, false, [], [];
      NoReasons();
      var err, start;
      err, start, op' := Enter(o, op, id);
      if err {
        return;
      }
      op' := Interfere(o, op');
      var inp := Outside();
      var before := OpenCheck(o, op', id, start, inp);
      exit, recover, results, reasons, op' :=
        Evaluate(o, op'.(pc := Evaluating(AtCheck(start, before), [])), id, start, before);
    }

    /** The first test of the context, and the clock read before the mutex is taken. */
    method Enter(o: OpId, ghost op: Op, id: Id) returns (err: bool, start: nat, ghost op': Op)
      requires Valid() && At(o, op) && op.monitor == id && op.pc == Entering
      modifies this, monitors.Values
      ensures Valid() && monitors == old(monitors) && old(trace) <= trace && At(o, op')
      ensures op' == op.(cancelled := op'.cancelled, pc := if err then Releasing(NotRun) else Opening(start))
    {
      hide IsRun, Exec, Born, Advance, Valid, QuietNext;
      op' := Interfere(o, op);
      err := ContextErr(o);
      var inp := Outside();
      start := inp.t;
      Goes(cfg.monitors[id], op', inp);
      Quietly(o, op', inp);
      op' := op'.(pc := if err then Releasing(NotRun) else Opening(start));
    }

    /** runMonitorCycle from the evaluation to the decision about recovery. */
    method Evaluate(o: OpId, ghost op: Op, id: Id, start: nat, before: Status)
      returns (exit: Exit, recover: bool, results: seq<CheckResult>, reasons: seq<string>, ghost op': Op)
      requires Valid() && At(o, op) && op.monitor == id && op.pc == Evaluating(AtCheck(start, before), [])
      modifies this, monitors.Values
      ensures Valid() && monitors == old(monitors) && old(trace) <= trace && At(o, op')
        && reasons == FailureReasons(results)
      ensures op' == op.(cancelled := op'.cancelled, pc := if recover then Failing(results) else Releasing(exit))
    {
      hide IsRun, Exec, Born, Advance, Valid, FailureReasons;
      var finished: nat;
      results, reasons, finished, op' := EvaluateMonitor(o, op, id, AtCheck(start, before));
      op' := Interfere(o, op');
      var err := ContextErr(o);
      var inp := Outside();
      recover := false;
      if err {
        exit := CheckCancelled;
        CancelCheck(o, op', id, before, inp);
      } else if |reasons| == 0 {
        exit := Passed;
        ConcludeHealthy(o, op', id, before, start, finished, results, inp);
      } else {
        exit := NoRecovery;
        recover := ConcludeFailed(o, op', id, before, start, finished, results, reasons, inp);
      }
      op' := op'.(pc := if recover then Failing(results) else Releasing(exit));
    }

    /** runMonitorCycle: some exit, and exactly its effect on the record and on the log. */
    method RunMonitorCycle(o: OpId, ghost op: Op, id: Id) returns (exit: Exit, ghost op': Op)
      requires Valid() && At(o, op) && op.monitor == id && op.pc == Entering && op.kind.Cycle?
      modifies this, monitors.Values
      ensures Valid() && monitors == old(monitors) && old(trace) <= trace && At(o, op')
      ensures op' == op.(cancelled := op'.cancelled, pc := Releasing(exit))
      ensures Did(id, Cycle, exit, old(monitors[id].Value()), old(total))
      ensures exit in {NotRun, CheckCancelled, OutcomeCancelled} ==> op'.cancelled
    {
      hide Valid, Did, Exec, Carried.Carries;
      ghost var before, r0, log0 := trace, monitors[id].Value(), total;
      Begins(o, op, id);
      exit, op' := CycleThrough(o, op, id);
      Ends(o, op', id, exit, before, r0, log0);
    }

    method CycleThrough(o: OpId, ghost op: Op, id: Id) returns (exit: Exit, ghost op': Op)
      requires Valid() && At(o, op) && op.monitor == id && op.pc == Entering && op.kind.Cycle?
      modifies this, monitors.Values
      ensures Valid() && monitors == old(monitors) && old(trace) <= trace && At(o, op')
      ensures op' == op.(cancelled := op'.cancelled, pc := Releasing(exit))
    {
      hide IsRun, Exec, Born, Advance, Valid, FailureReasons;
      var recover, results, reasons;
      exit, recover, results, reasons, op' := Check(o, op, id);
      if !recover {
        return;
      }
      op' := Interfere(o, op');
      var inp := Outside();
      var suppressed := CheckAttempts(o, op', id, results, reasons, inp);
      if suppressed {
        return Suppressed, op'.(pc := Releasing(Suppressed));
      }
      exit, op' := Recover(o, op'.(pc := Starting(Degraded, results, reasons)), id, results, reasons, Degraded);
    }

    /** runForcedRecovery, in the same way. */
    method RunForcedRecovery(o: OpId, ghost op: Op, id: Id) returns (exit: Exit, ghost op': Op)
      requires Valid() && At(o, op) && op.monitor == id && op.pc == Evaluating(AtPreCheck, []) && op.kind.Forced?
      modifies this, monitors.Values
      ensures Valid() && monitors == old(monitors) && old(trace) <= trace && At(o, op')
      ensures op' == op.(cancelled := op'.cancelled, pc := Releasing(exit))
      ensures Did(id, Forced, exit, old(monitors[id].Value()), old(total))
      ensures exit in {NotRun, CheckCancelled, OutcomeCancelled} ==> op'.cancelled
    {
      hide Valid, Did, Exec, Carried.Carries;
      ghost var before, r0, log0 := trace, monitors[id].Value(), total;
      Begins(o, op, id);
      exit, op' := ForceThrough(o, op, id);
      Ends(o, op', id, exit, before, r0, log0);
    }

    method ForceThrough(o: OpId, ghost op: Op, id: Id) returns (exit: Exit, ghost op': Op)
      requires Valid() && At(o, op) && op.monitor == id && op.pc == Evaluating(AtPreCheck, []) && op.kind.Forced?
      modifies this, monitors.Values
      ensures Valid() && monitors == old(monitors) && old(trace) <= trace && At(o, op')
      ensures op' == op.(cancelled := op'.cancelled, pc := Releasing(exit))
    {
      hide IsRun, Exec, Born, Advance, Valid, QuietNext, FailureReasons;
      var cancelled, before, results, reasons, op1 := PreCheck(o, op, id);
      if cancelled {
        return CheckCancelled, op1;
      }
      exit, op' := Recover(o, op1, id, results, reasons, before);
    }

    /** runForcedRecovery up to its start. */
    method PreCheck(o: OpId, ghost op: Op, id: Id)
      returns (cancelled: bool, before: Status, results: seq<CheckResult>, reasons: seq<string>, ghost op': Op)
      requires Valid() && At(o, op) && op.monitor == id && op.pc == Evaluating(AtPreCheck, []) && op.kind.Forced?
      modifies this, monitors.Values
      ensures Valid() && monitors == old(monitors) && old(trace) <= trace && At(o, op')
      ensures reasons == FailureReasons(results) + [ManualReason]
      ensures op' == op.(cancelled := op'.cancelled,
                         pc := if cancelled then Releasing(CheckCancelled) else Starting(before, results, reasons))
    {
      hide IsRun, Exec, Born, Advance, Valid, QuietNext, FailureReasons;
      before := Unknown;
      var finished: nat;
      results, reasons, finished, op' := EvaluateMonitor(o, op, id, AtPreCheck);
      reasons := reasons + [ManualReason];
      op' := Interfere(o, op');
      cancelled := ContextErr(o);
      var inp := Outside();
      if cancelled {
        Goes(cfg.monitors[id], op', inp);
        Quietly(o, op', inp);
        op' := op'.(pc := Releasing(CheckCancelled));
      } else {
        before := ReadStatus(o, op', id, inp);
        op' := op'.(pc := Starting(before, results, reasons));
      }
    }

    /** One check behind the lock: what the scheduler loop runs at each tick. */
    method LockedCheck(o: OpId, ghost op: Op, id: Id, looks: nat)
      returns (entry: Entry, exit: Exit, err: bool, ghost op': Op)
      requires Valid() && In(o, op) && op.monitor == id && op.pc == Called && op.kind.Cycle?
      modifies this, monitors.Values
      ensures Valid() && monitors == old(monitors) && old(trace) <= trace && In(o, op')
      ensures Returned(entry, exit, err, op')
    {
      hide IsRun, Exec, Born, Advance, Valid, Did;
      exit, err := NotRun, true;
      entry, op' := WithMonitorLock(o, op, id, looks);
      if entry.Entered? {
        exit, op' := RunMonitorCycle(o, op', id);
        err := ContextErr(o);
        Release(o, op', id);
        op' := op'.(pc := Finished(exit));
      }
    }

    /** One manual recovery behind the lock. */
    method LockedRecovery(o: OpId, ghost op: Op, id: Id, looks: nat)
      returns (entry: Entry, exit: Exit, err: bool, ghost op': Op)
      requires Valid() && In(o, op) && op.monitor == id && op.pc == Called && op.kind.Forced?
      modifies this, monitors.Values
      ensures Valid() && monitors == old(monitors) && old(trace) <= trace && In(o, op')
      ensures Returned(entry, exit, err, op')
    {
      hide IsRun, Exec, Born, Advance, Valid, Did;
      exit, err := NotRun, true;
      entry, op' := WithMonitorLock(o, op, id, looks);
      if entry.Entered? {
        exit, op' := RunForcedRecovery(o, op', id);
        err := ContextErr(o);
        Release(o, op', id);
        op' := op'.(pc := Finished(exit));
      }
    }

    /** TriggerCheck. An answer carries a record of the caller's own, made after the check. */
    method TriggerCheck(o: OpId, id: Id, looks: nat) returns (answer: Answer, copy: MonitorState?)
      requires Valid() && o !in ops && o !in done
      modifies this, monitors.Values
      ensures Valid() && monitors == old(monitors) && old(trace) <= trace
      ensures answer.NoSuchMonitor? <==> id !in cfg.monitors
      ensures answer.MonitorDisabled? <==> id in cfg.monitors && !cfg.monitors[id].enabled
      ensures answer.ContextDone? ==> o in ops && ops[o].cancelled && ops[o].pc.Finished?
      ensures answer.Answered? <==> copy != null
      ensures answer.Answered? ==>
                o in ops && ops[o].pc.Finished? && fresh(copy) && id in monitors
                && copy.Value() == monitors[id].Value()
      ensures !answer.RecoveryError?
    {
      hide IsRun, Exec, Born, Advance, Valid;
      copy := null;
      var found := LookupEnabledMonitor(o, id, Cycle);
      if !found.Available? {
        return if found.NotFound? then NoSuchMonitor else MonitorDisabled, null;
      }
      var entry, exit, err, op := LockedCheck(o, NewOp(id, Cycle), id, looks);
      if entry.StillWaiting? {
        return Unanswered, null;
      }
      if err {
        return ContextDone, null;
      }
      var _ := Wait(o, op);
      copy := MonitorSnapshot(id);
      answer := Answered;
    }

    /** TriggerRecovery. The error of the context comes before that of the recovery. */
    method TriggerRecovery(o: OpId, id: Id, looks: nat) returns (answer: Answer, copy: MonitorState?)
      requires Valid() && o !in ops && o !in done
      modifies this, monitors.Values
      ensures Valid() && monitors == old(monitors) && old(trace) <= trace
      ensures answer.NoSuchMonitor? <==> id !in cfg.monitors
      ensures answer.MonitorDisabled? <==> id in cfg.monitors && !cfg.monitors[id].enabled
      ensures answer.ContextDone? ==> o in ops && ops[o].cancelled && ops[o].pc.Finished?
      ensures answer.RecoveryError? ==> o in ops && ops[o].pc.Finished? && Fails(ops[o].pc.exit)
      ensures answer.Answered? <==> copy != null
      ensures answer.Answered? ==> o in ops && ops[o].pc.Finished? && !Fails(ops[o].pc.exit)
      ensures answer.Answered? ==> fresh(copy) && id in monitors && copy.Value() == monitors[id].Value()
    {
      hide IsRun, Exec, Born, Advance, Valid;
      copy := null;
      var found := LookupEnabledMonitor(o, id, Forced);
      if !found.Available? {
        return if found.NotFound? then NoSuchMonitor else MonitorDisabled, null;
      }
      var entry, exit, err, op := LockedRecovery(o, NewOp(id, Forced), id, looks);
      if entry.StillWaiting? {
        return Unanswered, null;
      }
      if err {
        return ContextDone, null;
      }
      if Fails(exit) {
        return RecoveryError, null;
      }
      var _ := Wait(o, op);
      copy := MonitorSnapshot(id);
      answer := Answered;
    }
  }

  /** The records once NewManager has been through the monitors listed. */
  ghost function Prepared(cfg: Config, saved: Records, ids: set<Id>): Records
    requires ids <= cfg.monitors.Keys
  {
    map id | id in saved.Keys + ids ::
      if id in ids then BootRecord(cfg.monitors[id], if id in saved then Some(saved[id]) else None) else saved[id]
  }

  lemma PreparedOne(cfg: Config, saved: Records, ids: set<Id>, id: Id)
    requires ids <= cfg.monitors.Keys && id in cfg.monitors && id !in ids
    ensures var before := Prepared(cfg, saved, ids);
      Prepared(cfg, saved, ids + {id})
      == before[id := BootRecord(cfg.monitors[id], if id in before then Some(before[id]) else None)]
  {
  }

  /** ensureMonitorStateLocked: a fresh record for a monitor that has none. */
  method EnsureState(monitors: map<Id, MonitorState>, id: Id) returns (monitors': map<Id, MonitorState>)
    requires Unshared(monitors)
    ensures Unshared(monitors') && id in monitors'
    ensures forall j | j in monitors' :: fresh(monitors'[j]) || monitors'[j] in monitors.Values
    ensures var before := old(Values(monitors));
      Values(monitors') == if id in before then before else before[id := FreshRecord]
  {
    monitors' := monitors;
    if id !in monitors {
      var st := new MonitorState(FreshRecord);
      monitors' := monitors[id := st];
    }
  }

  method BootOne(mc: MonitorConfig, monitors: map<Id, MonitorState>, id: Id)
    requires Unshared(monitors) && id in monitors
    modifies monitors[id]
    ensures var before := old(Values(monitors)); Values(monitors) == before[id := BootRecord(mc, Some(before[id]))]
  {
    monitors[id].Boot(mc);
    assert Values(monitors) == old(Values(monitors))[id := monitors[id].Value()];
  }

  /** ... and the status NewManager gives. */
  method Prepare(mc: MonitorConfig, monitors: map<Id, MonitorState>, id: Id) returns (monitors': map<Id, MonitorState>)
    requires Unshared(monitors)
    modifies monitors.Values
    ensures Unshared(monitors') && (forall j | j in monitors' :: fresh(monitors'[j]) || monitors'[j] in monitors.Values)
    ensures var before := old(Values(monitors));
      Values(monitors') == before[id := BootRecord(mc, if id in before then Some(before[id]) else None)]
  {
    monitors' := EnsureState(monitors, id);
    BootOne(mc, monitors', id);
  }

  /** The loop of NewManager over the configured monitors. */
  method PrepareMonitors(cfg: Config, ids: seq<Id>, loaded: map<Id, MonitorState>)
    returns (monitors: map<Id, MonitorState>)
    requires Unshared(loaded)
    requires forall i, j | 0 <= i < j < |ids| :: ids[i] != ids[j]
    requires forall id :: id in ids <==> id in cfg.monitors
    modifies loaded.Values
    ensures Unshared(monitors) && Values(monitors) == BootRecords(cfg, old(Values(loaded)))
    ensures Restart.AllReloaded(cfg, old(Values(loaded)), Values(monitors))
    ensures forall id | id in monitors :: fresh(monitors[id]) || monitors[id] in loaded.Values
  {
    hide BootRecord, Unshared, Values, Prepared;
    ghost var saved := Values(loaded);
    ghost var seen: set<Id> := {};
    monitors := loaded;
    PreparedNone(cfg, saved);
    for i := 0 to |ids|
      invariant seen == set id | id in ids[..i]
      invariant Unshared(monitors) && seen <= cfg.monitors.Keys && Values(monitors) == Prepared(cfg, saved, seen)
      invariant forall id | id in monitors :: fresh(monitors[id]) || monitors[id] in loaded.Values
    {
      assert ids[i] !in seen;
      PreparedOne(cfg, saved, seen, ids[i]);
      monitors := Prepare(cfg.monitors[ids[i]], monitors, ids[i]);
      seen := seen + {ids[i]};
    }
    assert seen == cfg.monitors.Keys;
    PreparedAll(cfg, saved);
    Restart.RecordsAreReloaded(cfg, saved);
  }

  lemma PreparedAll(cfg: Config, saved: Records)
    ensures Prepared(cfg, saved, cfg.monitors.Keys) == BootRecords(cfg, saved)
  {
  }

  lemma PreparedNone(cfg: Config, saved: Records)
    ensures Prepared(cfg, saved, {}) == saved
  {
  }

  /** NewManager over what the two stores loaded. It gives no manager unless the
      first save succeeds; a manager starts where the machine's Boot leads. */
  method NewManager(
    cfg: Config, ids: seq<Id>, loaded: map<Id, MonitorState>, events: History, t: nat, save: Save,
    ghost birth: nat, ghost past: seq<Label>)
    returns (manager: Manager?)
    requires Unshared(loaded)
    requires forall i, j | 0 <= i < j < |ids| :: ids[i] != ids[j]
    requires forall id :: id in ids <==> id in cfg.monitors
    requires Enabled(cfg, Exec(cfg, Blank(birth), past), Boot(t, Values(loaded), events, save))
    modifies loaded.Values
    ensures manager == null <==> !save.Saved?
    ensures manager != null ==>
              var boot := Boot(t, old(Values(loaded)), events, save);
              && fresh(manager) && manager.cfg == cfg && manager.trace == [] && manager.Valid()
              && manager.birth == birth && manager.past == past + [boot]
              && manager.Abs() == Next(cfg, Exec(cfg, Blank(birth), past), boot)
              && Restart.AllReloaded(cfg, old(Values(loaded)), Values(manager.monitors))
              && manager.history == Trim(events, cfg.maxEvents)
  {
    hide Exec;
    ghost var s := Exec(cfg, Blank(birth), past);
    ghost var boot := Boot(t, Values(loaded), events, save);
    BootIsBorn(cfg, birth, past, boot);
    ghost var start := Start(cfg, s, t, Values(loaded), events, save);
    var monitors := PrepareMonitors(cfg, ids, loaded);
    manager := new Manager(
      cfg, monitors, Trim(events, cfg.maxEvents), t, birth, past + [boot], start, s.disk, s.diskLog);
    var ok := manager.PersistLocked(save);
    if !ok {
      return null;
    }
  }

  /** What a caller of the two triggers gets. Unanswered means that it is still waiting. */
  datatype Answer = Answered | NoSuchMonitor | MonitorDisabled | ContextDone | RecoveryError | Unanswered

  /** The exits for which runForcedRecovery returns an error. */
  predicate Fails(exit: Exit) {
    exit.CheckCancelled? || exit.Interrupted? || exit.OutcomeCancelled?
  }

  /** How withMonitorLock comes back to its caller. */
  predicate Returned(entry: Entry, exit: Exit, err: bool, op: Op) {
    match entry
    case Entered => op.pc == Finished(exit) && err == op.cancelled
    case Refused => op.pc == Finished(NotRun) && err && op.cancelled
    case StillWaiting => op.pc == Waiting
  }

  datatype Lookup = Available | NotFound | IsDisabled

  datatype Entry = Entered | Refused | StillWaiting

  /** Entered with the slot taken and the context alive, refused with the context done. */
  predicate Admitted(entry: Entry, op: Op) {
    match entry
    case Entered => !op.cancelled && op.pc == if op.kind.Cycle? then Entering else Evaluating(AtPreCheck, [])
    case Refused => op.cancelled && op.pc == Finished(NotRun)
    case StillWaiting => op.pc == Waiting
  }

  function EdgeNext(op: Op, inp: Input): PC
    requires op.pc.Called? || op.pc.Waiting? || op.pc.Releasing?
  {
    match op.pc
    case Called => if op.cancelled then Finished(NotRun) else Waiting
    case Waiting => if op.cancelled && inp.giveUp then Finished(NotRun) else PC.Locked
    case Releasing(exit) => Finished(exit)
  }

  /** A quiet step moves nothing but the operation, its slot and the clock. */
  lemma Installs(cfg: Config, s: Sys, o: OpId, inp: Input, pc: PC)
    requires o in s.ops && s.ops[o].monitor in s.recs
    ensures Install(cfg, s, o, inp, Quiet(s.recs[s.ops[o].monitor], pc))
         == s.(now := inp.t2, ops := s.ops[o := s.ops[o].(pc := pc)],
               slots := MoveSlot(s.slots, s.ops[o].monitor, s.ops[o].pc, pc))
  {
    assert s.recs[s.ops[o].monitor := s.recs[s.ops[o].monitor]] == s.recs;
    assert s.total + [] == s.total;
  }

  /** Where the slot changes hands. */
  lemma EdgeSlots(op: Op, inp: Input)
    requires op.pc.Called? || op.pc.Waiting? || op.pc.Releasing?
    ensures Holds(op.pc) <==> op.pc.Releasing?
    ensures Holds(EdgeNext(op, inp)) <==> Acquires(op, inp)
  {
  }

  lemma Edge(cfg: Config, s: Sys, o: OpId, inp: Input)
    requires s.up && o in s.ops && Known(cfg, s, s.ops[o].monitor) && s.now <= inp.t <= inp.t2
    requires s.ops[o].pc.Called? || s.ops[o].pc.Waiting? || s.ops[o].pc.Releasing?
    requires Acquires(s.ops[o], inp) ==> s.ops[o].monitor !in s.slots
    ensures Enabled(cfg, s, Step(o, inp))
    ensures Moved(cfg, s, o, inp) == Quiet(s.recs[s.ops[o].monitor], EdgeNext(s.ops[o], inp))
  {
  }

  /** o itself is where it was, but for its context. */
  ghost predicate LeftAlone(s: Sys, s': Sys, o: OpId) {
    && s.up && s'.up && o in s.ops && o in s'.ops
    && s'.ops[o] == s.ops[o].(cancelled := s'.ops[o].cancelled)
    && (s.ops[o].cancelled ==> s'.ops[o].cancelled)
  }

  lemma ForeignLeaves(cfg: Config, s: Sys, l: Label, o: OpId)
    requires s.up && Enabled(cfg, s, l) && Foreign(l, o) && o in s.ops
    ensures LeftAlone(s, Next(cfg, s, l), o)
  {
    hide Advance, Install;
    if l.Step? {
      InstallParts(cfg, s, l.op, l.inp, Moved(cfg, s, l.op, l.inp));
    }
  }

  lemma LeftAloneThen(s: Sys, s1: Sys, s2: Sys, o: OpId)
    requires LeftAlone(s, s1, o) && LeftAlone(s1, s2, o)
    ensures LeftAlone(s, s2, o)
  {
  }

  lemma NextLeavesAlone(cfg: Config, s0: Sys, s: Sys, after: seq<Label>, o: OpId)
    requires IsRun(cfg, s0, after) && after != []
    requires LeftAlone(s, Exec(cfg, s0, after[..|after| - 1]), o) && Foreign(after[|after| - 1], o)
    ensures LeftAlone(s, Exec(cfg, s0, after), o)
  {
    hide Next;
    var n := |after| - 1;
    var s1 := Exec(cfg, s0, after[..n]);
    assert Enabled(cfg, s1, after[n]);
    ForeignLeaves(cfg, s1, after[n], o);
    LeftAloneThen(s, s1, Exec(cfg, s0, after), o);
  }

  lemma {:induction false} WaitedFor(cfg: Config, s0: Sys, before: seq<Label>, after: seq<Label>, o: OpId)
    requires IsRun(cfg, s0, after) && Extends(before, after, o)
    requires Exec(cfg, s0, before).up && o in Exec(cfg, s0, before).ops
    ensures LeftAlone(Exec(cfg, s0, before), Exec(cfg, s0, after), o)
  {
    hide Next, IsRun, LeftAlone;
    var s := Exec(cfg, s0, before);
    if |after| == |before| {
      assert after == before;
      AloneNow(s, o);
    } else {
      var n := |after| - 1;
      RunPrefix(cfg, s0, after, n);
      assert after[..n][..|before|] == before;
      WaitedFor(cfg, s0, before, after[..n], o);
      NextLeavesAlone(cfg, s0, s, after, o);
    }
  }

  lemma AloneNow(s: Sys, o: OpId)
    requires s.up && o in s.ops
    ensures LeftAlone(s, s, o)
  {
  }

  /** How the start of a recovery went. */
  datatype RecoveryStart = Cancelled | Recorded | NotSaved

  /** How one round of the recovery loop, or the whole loop, ended. */
  datatype RoundEnd = Stop | Decided(recovered: bool) | Continue

  function After(
    verdict: RoundEnd, before: Status, since: nat, results: seq<ActionResult>, post: seq<CheckResult>,
    reasons: seq<string>): PC
  {
    match verdict
    case Stop => Aborting(before)
    case Decided(recovered) => Closing(before, since, results, recovered, post, reasons)
    case Continue => Acting(before, since, results)
  }

  /** Where an evaluation of a recovery leads. */
  function Assessed(site: Site, results: seq<CheckResult>, cancelled: bool): PC
    requires site.AtRecheck? || site.AtFinal?
  {
    match site
    case AtRecheck(before, since, done) =>
      if cancelled then Aborting(before)
      else if FailureReasons(results) == [] then Closing(before, since, done, true, results, [])
      else Acting(before, since, done)
    case AtFinal(before, since, done) =>
      if cancelled then Aborting(before)
      else Closing(before, since, done, FailureReasons(results) == [], results, FailureReasons(results))
  }

  lemma NoReasons()
    ensures FailureReasons([]) == []
  {
  }

  /** Where the machine stands still but for the operation's own program counter. */
  predicate QuietPC(op: Op) {
    op.pc.Locked? || op.pc.Entering? || op.pc.Evaluating? || op.pc.Acting? || op.pc.Acted?
    || (op.pc.Starting? && op.cancelled)
    || (op.pc.Evaluated? && (op.pc.site.AtRecheck? || op.pc.site.AtFinal? || (op.pc.site.AtPreCheck? && op.cancelled)))
  }

  /** The program counter after such a step; it does not depend on the record. */
  function QuietNext(mc: MonitorConfig, op: Op, inp: Input): PC
    requires inp.t <= inp.t2
  {
    Advance(mc, FreshRecord, op, inp).pc
  }

  lemma QuietIsQuiet(mc: MonitorConfig, r: Record, op: Op, inp: Input)
    requires inp.t <= inp.t2 && QuietPC(op)
    ensures Advance(mc, r, op, inp) == Quiet(r, QuietNext(mc, op, inp))
  {
  }

  /** Those program counters, one by one. */
  lemma Goes(mc: MonitorConfig, op: Op, inp: Input)
    requires inp.t <= inp.t2 && QuietPC(op)
    ensures var next := QuietNext(mc, op, inp);
      match op.pc
      case Locked =>
        next == if op.cancelled then Releasing(NotRun) else if op.kind.Cycle? then Entering
                else Evaluating(AtPreCheck, [])
      case Entering => next == if op.cancelled then Releasing(NotRun) else Opening(inp.t)
      case Evaluating(site, results) =>
        next == if !op.cancelled && |results| < mc.checks then Evaluating(site, results + [inp.check])
                else Evaluated(site, results, inp.t)
      case Evaluated(AtPreCheck, _, _) => next == Releasing(CheckCancelled)
      case Evaluated(AtRecheck(before, since, done), results, _) =>
        next == if op.cancelled then Aborting(before)
                else if FailureReasons(results) == [] then Closing(before, since, done, true, results, [])
                else Acting(before, since, done)
      case Evaluated(AtFinal(before, since, done), results, _) =>
        next == if op.cancelled then Aborting(before)
                else Closing(before, since, done, FailureReasons(results) == [], results, FailureReasons(results))
      case Starting(_, _, _) => next == Releasing(Interrupted)
      case Acting(before, since, done) =>
        next == if |done| >= |mc.recovery| then Evaluating(AtFinal(before, since, done), [])
                else if op.cancelled then Aborting(before)
                else Acted(before, since, done, mc.recovery[|done|],
                           if mc.recovery[|done|] then RecheckResult else inp.action)
      case Acted(before, since, previous, recheck, result) =>
        next == if op.cancelled then Aborting(before)
                else if recheck then Evaluating(AtRecheck(before, since, previous + [result]), [])
                else if !result.success then Closing(before, since, previous + [result], false, [], [result.message])
                else Acting(before, since, previous + [result])
      case _ => true
  {
    hide FailureReasons;
  }

  lemma QuietStays(mc: MonitorConfig, op: Op, inp: Input)
    requires inp.t <= inp.t2 && QuietPC(op) && Holds(op.pc)
    ensures Holds(QuietNext(mc, op, inp))
  {
  }

  /** What the moves of a holder are. */
  ghost predicate MovesAs(cfg: Config, s: Sys, o: OpId, inp: Input)
    requires o in s.ops && Known(cfg, s, s.ops[o].monitor) && inp.t <= inp.t2
  {
    var op := s.ops[o]; var mc := cfg.monitors[op.monitor]; var r := s.recs[op.monitor];
    var next := Moved(cfg, s, o, inp);
    && (op.pc.Opening? ==> next == StepOpening(mc, r, op))
    && (op.pc.Evaluated? && op.pc.site.AtCheck? ==> next == StepChecked(mc, r, op))
    && (op.pc.Evaluated? && op.pc.site.AtPreCheck? ==> next == StepPreChecked(r, op))
    && (op.pc.Failing? ==> next == StepFailing(mc, r, op, inp))
    && (op.pc.Starting? ==> next == StepStarting(mc, r, op, inp))
    && (op.pc.Closing? ==> next == StepClosing(mc, r, op, inp))
    && (op.pc.Aborting? ==> next == StepAborting(r, op))
    && (QuietPC(op) ==> next == Quiet(r, QuietNext(mc, op, inp)))
  }

  lemma Here(cfg: Config, s: Sys, o: OpId, inp: Input)
    requires s.up && o in s.ops && Known(cfg, s, s.ops[o].monitor) && s.now <= inp.t <= inp.t2 && Holds(s.ops[o].pc)
    ensures Enabled(cfg, s, Step(o, inp)) && MovesAs(cfg, s, o, inp)
  {
    if QuietPC(s.ops[o]) {
      QuietIsQuiet(cfg.monitors[s.ops[o].monitor], s.recs[s.ops[o].monitor], s.ops[o], inp);
    }
    hide QuietNext;
  }
}
