/**
 What lies between two lives of the process: what is on the disk when one ends, and what
 the next makes of it.
 */
module Restart {
  import opened Wrappers
  import opened MonitorRecord
  import opened RecoveryMachine
  import opened System
  import opened Locking
  import opened Lifting
  import opened Accounting
  import opened WriteAhead
  import opened Cooldown
  import opened RecoveryCap
  import opened EventLog
  import opened Solo

  // ---- what is loaded

  /** Every loaded record is kept, up to the status of a configured monitor; configured
      monitors without a record get an empty one. */
  ghost predicate AllReloaded(cfg: Config, saved: Records, recs: Records) {
    && recs.Keys == saved.Keys + cfg.monitors.Keys
    && (forall m | m in saved && m in cfg.monitors :: Reloaded(cfg.monitors[m], saved[m], recs[m]))
    && (forall m | m in cfg.monitors && m !in saved :: Unseen(cfg.monitors[m], recs[m]))
    && (forall m | m in saved && m !in cfg.monitors :: recs[m] == saved[m])
  }

  lemma RecordIsReloaded(mc: MonitorConfig, saved: Record)
    ensures Reloaded(mc, saved, BootRecord(mc, Some(saved)))
  {
  }

  lemma RecordIsUnseen(mc: MonitorConfig)
    ensures Unseen(mc, BootRecord(mc, None))
  {
  }

  lemma RecordsAreReloaded(cfg: Config, saved: Records)
    ensures AllReloaded(cfg, saved, BootRecords(cfg, saved))
  {
    hide BootRecord, Reloaded, Unseen;
    forall m | m in saved && m in cfg.monitors ensures Reloaded(cfg.monitors[m], saved[m], BootRecords(cfg, saved)[m]) {
      RecordIsReloaded(cfg.monitors[m], saved[m]);
    }
    forall m | m in cfg.monitors && m !in saved ensures Unseen(cfg.monitors[m], BootRecords(cfg, saved)[m]) {
      RecordIsUnseen(cfg.monitors[m]);
    }
  }

  /** A start begins with what it loaded, an idle process and free slots. */
  lemma BootReloads(cfg: Config, s: Sys, t: nat, saved: Records, events: History, save: Save)
    requires Enabled(cfg, s, Boot(t, saved, events, save))
    ensures var s' := Next(cfg, s, Boot(t, saved, events, save));
      && AllReloaded(cfg, saved, s'.recs) && s'.log == s'.total == Trim(events, cfg.maxEvents)
      && s'.ops == map[] && s'.slots == {} && (s'.up <==> save.Saved?)
  {
    hide BootRecords, AllReloaded, Trim;
    RecordsAreReloaded(cfg, saved);
  }

  /** The cap outlives the process: with a snapshot in which the attempts are used up, no
      automatic recovery of the monitor starts and no action of one runs in the next life. */
  lemma ExhaustionOutlives(
    cfg: Config, now: nat, past: seq<Label>, t: nat, saved: Records, events: History, run: seq<Label>, l: Label, m: Id)
    requires var s := Exec(cfg, Blank(now), past); Enabled(cfg, s, Boot(t, saved, events, Saved))
    requires m in cfg.monitors && m in saved && 0 < cfg.monitors[m].maxAttempts <= saved[m].recoveryFailures
    requires Crash !in run
    ensures var s' := Exec(cfg, Next(cfg, Exec(cfg, Blank(now), past), Boot(t, saved, events, Saved)), run);
      && !AutomaticStartAt(cfg, s', l, m)
      && !(ActionAt(cfg, s', l, m) && s'.ops[l.op].kind.Cycle?)
  {
    hide Next, Enabled, AutomaticStartAt, ActionAt;
    var boot := Boot(t, saved, events, Saved);
    assert (past + [boot])[..|past|] == past;
    BootReloads(cfg, Exec(cfg, Blank(now), past), t, saved, events, Saved);
    ExhaustedStaysQuiet(cfg, now, past + [boot], run, l, m);
  }

  // ---- what is on the disk

  /** What is in memory is always among what a crash may leave. */
  ghost predicate Kept(s: Sys) {
    s.up ==> s.recs in s.disk
  }

  /** A section that does not save changes no record. */
  lemma UnsavedIsUnchanged(mc: MonitorConfig, r: Record, op: Op, inp: Input)
    requires inp.t <= inp.t2 && !Advance(mc, r, op, inp).persist
    ensures Advance(mc, r, op, inp).rec == r && Advance(mc, r, op, inp).events == []
  {
  }

  lemma StepDisk(cfg: Config, s: Sys, o: OpId, inp: Input)
    requires Enabled(cfg, s, Step(o, inp))
    ensures var s' := Next(cfg, s, Step(o, inp));
      && (Kept(s) ==> Kept(s'))
      && (s.disk == {s.recs} && !inp.save.StateFailed? ==> s'.disk == {s'.recs})
      && (Settled(s) && inp.save.Saved? ==> Settled(s'))
  {
    var next := Moved(cfg, s, o, inp);
    var m := s.ops[o].monitor;
    if !next.persist {
      UnsavedIsUnchanged(cfg.monitors[m], s.recs[m], s.ops[o], inp);
      assert s.recs[m := s.recs[m]] == s.recs;
    }
    hide Advance, Moved;
  }

  lemma {:induction false} MemoryIsKept(cfg: Config, now: nat, run: seq<Label>)
    ensures Kept(Exec(cfg, Blank(now), run))
  {
    hide Next, Kept;
    if run == [] {
      BlankIsKept(now);
    } else {
      var n := |run| - 1;
      MemoryIsKept(cfg, now, run[..n]);
      if Enabled(cfg, Exec(cfg, Blank(now), run[..n]), run[n]) {
        LabelKeeps(cfg, Exec(cfg, Blank(now), run[..n]), run[n]);
      }
    }
  }

  lemma BlankIsKept(now: nat)
    ensures Kept(Blank(now))
  {
  }

  lemma LabelKeeps(cfg: Config, s: Sys, l: Label)
    requires Enabled(cfg, s, l) && Kept(s)
    ensures Kept(Next(cfg, s, l))
  {
    if l.Step? { StepDisk(cfg, s, l.op, l.inp); }
    hide Install, BootRecords;
  }

  /** Nothing is waiting to be saved. */
  ghost predicate Settled(s: Sys) {
    s.disk == {s.recs} && s.diskLog == {s.log} && !s.dirty
  }

  predicate SavesLabel(l: Label) {
    match l
    case Step(_, inp) => inp.save.Saved?
    case Boot(_, _, _, save) => save.Saved?
    case _ => true
  }

  predicate SavesAll(run: seq<Label>) {
    forall k | 0 <= k < |run| :: SavesLabel(run[k])
  }

  lemma SettledNext(cfg: Config, s: Sys, l: Label)
    requires Enabled(cfg, s, l) && SavesLabel(l) && (s.up ==> Settled(s))
    ensures var s' := Next(cfg, s, l); s'.up ==> Settled(s')
  {
    if l.Step? { StepDisk(cfg, s, l.op, l.inp); }
    hide Install, BootRecords, Trim;
  }

  /** When no save fails, the disk holds at every moment just what is in memory. */
  lemma {:induction false} DiskIsMemory(cfg: Config, now: nat, run: seq<Label>)
    requires SavesAll(run)
    ensures var s := Exec(cfg, Blank(now), run); s.up ==> Settled(s)
  {
    hide Next, Settled, SavesLabel;
    if run != [] {
      var n := |run| - 1;
      DiskIsMemory(cfg, now, run[..n]);
      if Enabled(cfg, Exec(cfg, Blank(now), run[..n]), run[n]) {
        SettledNext(cfg, Exec(cfg, Blank(now), run[..n]), run[n]);
      }
    }
  }

  /** ... so that a crash at any moment loses nothing: the next start finds the records and
      the history of that moment, and goes on with them. */
  lemma CrashLosesNothing(cfg: Config, now: nat, run: seq<Label>, t: nat, saved: Records, events: History, save: Save)
    requires SavesAll(run) && Exec(cfg, Blank(now), run).up
    requires Enabled(cfg, Exec(cfg, Blank(now), run + [Crash]), Boot(t, saved, events, save))
    ensures var s := Exec(cfg, Blank(now), run);
      var s' := Next(cfg, Exec(cfg, Blank(now), run + [Crash]), Boot(t, saved, events, save));
      AllReloaded(cfg, s.recs, s'.recs) && s'.log == s.log
  {
    BlankHistory(cfg, now);
    hide AllReloaded, Next, Exec, HistoryOk, Settled;
    DiskIsMemory(cfg, now, run);
    HistoryAlways(cfg, Blank(now), run);
    CrashKeepsDisk(cfg, Blank(now), run);
    BootReloads(cfg, Exec(cfg, Blank(now), run + [Crash]), t, saved, events, save);
    FoundIsLast(cfg, Exec(cfg, Blank(now), run), t, saved, events, save);
  }

  lemma BlankHistory(cfg: Config, now: nat)
    ensures HistoryOk(cfg, Blank(now))
  {
  }

  lemma CrashKeepsDisk(cfg: Config, s: Sys, run: seq<Label>)
    requires Exec(cfg, s, run).up
    ensures Exec(cfg, s, run + [Crash]) == Next(cfg, Exec(cfg, s, run), Crash)
  {
    hide Next;
    assert (run + [Crash])[..|run|] == run;
  }

  /** After a settled moment there is one thing to be found. */
  lemma FoundIsLast(cfg: Config, s: Sys, t: nat, saved: Records, events: History, save: Save)
    requires s.up && Settled(s) && HistoryOk(cfg, s) && Enabled(cfg, Next(cfg, s, Crash), Boot(t, saved, events, save))
    ensures saved == s.recs && events == s.log && Trim(events, cfg.maxEvents) == s.log
  {
    hide Trim;
    assert saved in {s.recs} && events in {s.log};
  }

  /** The state file alone: when each of its saves succeeds it holds the records of memory,
      whatever becomes of the event file. */
  predicate SavesState(run: seq<Label>) {
    forall k | 0 <= k < |run| ::
      match run[k]
      case Step(_, inp) => !inp.save.StateFailed?
      case Boot(_, _, _, save) => !save.StateFailed?
      case _ => true
  }

  lemma StateNext(cfg: Config, s: Sys, l: Label)
    requires Enabled(cfg, s, l) && SavesState([l]) && (s.up ==> s.disk == {s.recs})
    ensures var s' := Next(cfg, s, l); s'.up ==> s'.disk == {s'.recs}
  {
    assert [l][0] == l;
    if l.Step? { StepDisk(cfg, s, l.op, l.inp); }
    hide Install, BootRecords, Trim;
  }

  lemma {:induction false} StateIsMemory(cfg: Config, now: nat, run: seq<Label>)
    requires SavesState(run)
    ensures var s := Exec(cfg, Blank(now), run); s.up ==> s.disk == {s.recs}
  {
    hide Next;
    if run != [] {
      var n := |run| - 1;
      StateIsMemory(cfg, now, run[..n]);
      if Enabled(cfg, Exec(cfg, Blank(now), run[..n]), run[n]) {
        assert [run[n]][0] == run[n];
        StateNext(cfg, Exec(cfg, Blank(now), run[..n]), run[n]);
      }
    }
  }
}
