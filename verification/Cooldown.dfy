/**
 Main results on cooldowns, over every run from a blank disk: any interleaving of
 scheduled checks, manual checks and manual recoveries on any number of monitors,
 with failing saves, cancellations, crashes and restarts anywhere.
 */
module Cooldown {
  import opened Wrappers
  import opened MonitorRecord
  import opened RecoveryMachine
  import opened System
  import opened Locking
  import opened Lifting
  import opened Accounting
  import opened WriteAhead

  predicate Moves(cfg: Config, s: Sys, l: Label, m: Id) {
    l.Step? && Enabled(cfg, s, l) && s.ops[l.op].monitor == m
  }

  /** The label runs a recovery action of monitor m. */
  predicate ActionAt(cfg: Config, s: Sys, l: Label, m: Id) {
    Moves(cfg, s, l, m) && RunsAction(cfg.monitors[m], s.ops[l.op])
  }

  /** The label records the start of a recovery of m, automatic or manual. */
  predicate StartAt(cfg: Config, s: Sys, l: Label, m: Id) {
    Moves(cfg, s, l, m) && StartsRecovery(s.ops[l.op])
  }

  predicate AutomaticStartAt(cfg: Config, s: Sys, l: Label, m: Id) {
    StartAt(cfg, s, l, m) && s.ops[l.op].kind.Cycle?
  }

  /** Whenever an action runs, every snapshot a crash could leave behind holds the
      cooldown of the recovery the action belongs to. */
  lemma ActionsRunUnderSavedCooldown(cfg: Config, now: nat, run: seq<Label>, l: Label, m: Id)
    requires var s := Exec(cfg, Blank(now), run); ActionAt(cfg, s, l, m)
    ensures var s := Exec(cfg, Blank(now), run);
      && s.ops[l.op].pc.since <= s.now
      && forall d: Records | d in s.disk ::
        m in d && d[m].cooldownUntil == Some(Secs(s.ops[l.op].pc.since + cfg.monitors[m].cooldown))
  {
    hide Next, RecordOk, Sound;
    Reachable(cfg, now, run);
    var s := Exec(cfg, Blank(now), run);
    assert Flight(s, SoundFlight(cfg, s.now), l.op);
    assert CooldownSaved(s, m);
  }

  // ---- a saved cooldown is never lost again

  function AtLeast(m: Id, c: nat): RecordProperty {
    (m', r: Record) => m' == m ==> NotBefore(Some(c), r.cooldownUntil)
  }

  /** Memory and every candidate snapshot forbid automatic recovery of m before second c. */
  ghost predicate Guarded(s: Sys, m: Id, c: nat) {
    && EveryRecord(s, AtLeast(m, c))
    && (s.up ==> m in s.recs)
    && forall d: Records | d in s.disk :: m in d
  }

  lemma InstallGuarded(cfg: Config, s: Sys, o: OpId, inp: Input, next: Local, m: Id, c: nat)
    requires s.up && o in s.ops && Guarded(s, m, c)
    requires s.ops[o].monitor in s.recs && NotBefore(s.recs[s.ops[o].monitor].cooldownUntil, next.rec.cooldownUntil)
    ensures Guarded(Install(cfg, s, o, inp, next), m, c)
  {
    assert AtLeast(m, c)(s.ops[o].monitor, s.recs[s.ops[o].monitor]);
    InstallEvery(cfg, s, o, inp, next, AtLeast(m, c));
  }

  lemma BootGuarded(cfg: Config, s: Sys, l: Label, m: Id, c: nat)
    requires Guarded(s, m, c) && Enabled(cfg, s, l) && l.Boot?
    ensures Guarded(Next(cfg, s, l), m, c)
  {
    var recs := BootRecords(cfg, l.saved);
    assert Every(l.saved, AtLeast(m, c));
    forall m' | m' in recs ensures AtLeast(m, c)(m', recs[m']) {
      if m' in l.saved { assert AtLeast(m, c)(m', l.saved[m']); }
    }
    SideRecords(cfg, s, l, AtLeast(m, c));
  }

  lemma GuardedStep(cfg: Config, s: Sys, l: Label, m: Id, c: nat)
    requires Inv(cfg, s) && Guarded(s, m, c) && Enabled(cfg, s, l)
    ensures Guarded(Next(cfg, s, l), m, c)
  {
    match l {
      case Step(o, inp) =>
        var m' := s.ops[o].monitor;
        assert Sound(cfg, s.now)(m', s.recs[m']);
        CooldownNeverShrinks(cfg.monitors[m'], s.recs[m'], s.ops[o], inp, s.now);
        InstallGuarded(cfg, s, o, inp, Moved(cfg, s, o, inp), m, c);
      case Boot(_, _, _, _) => BootGuarded(cfg, s, l, m, c);
      case _ =>
    }
  }

  lemma {:induction false} GuardedAlways(cfg: Config, s: Sys, run: seq<Label>, m: Id, c: nat)
    requires Inv(cfg, s) && Guarded(s, m, c)
    ensures Inv(cfg, Exec(cfg, s, run)) && Guarded(Exec(cfg, s, run), m, c)
  {
    InvAlways(cfg, s, run);
    if run != [] {
      var n := |run| - 1;
      GuardedAlways(cfg, s, run[..n], m, c);
      if Enabled(cfg, Exec(cfg, s, run[..n]), run[n]) {
        GuardedStep(cfg, Exec(cfg, s, run[..n]), run[n], m, c);
      }
    }
  }

  /** A guarded monitor starts no automatic recovery before the guarded second. */
  lemma GuardHolds(cfg: Config, s: Sys, l: Label, m: Id, c: nat)
    requires Inv(cfg, s) && Guarded(s, m, c) && AutomaticStartAt(cfg, s, l, m)
    ensures c * NS <= s.now <= l.inp.t
  {
    assert AtLeast(m, c)(m, s.recs[m]);
    assert Flight(s, SoundFlight(cfg, s.now), l.op);
  }

  lemma SecsLose(t: nat)
    ensures Secs(t) * NS <= t < Secs(t) * NS + NS
  {
  }

  /** Once a recovery of m, automatic or manual, has run an action, no automatic
      recovery of m starts before the end of its cooldown, in whole seconds, whatever
      happens in between: other monitors, failing saves, crashes at any point of the
      recovery and restarts from whatever the crash left. */
  lemma CooldownSurvivesCrashes(cfg: Config, now: nat, prefix: seq<Label>, l: Label, run: seq<Label>, l': Label, m: Id)
    requires var s := Exec(cfg, Blank(now), prefix);
      ActionAt(cfg, s, l, m) && AutomaticStartAt(cfg, Exec(cfg, s, run), l', m)
    ensures var s := Exec(cfg, Blank(now), prefix);
      Secs(s.ops[l.op].pc.since + cfg.monitors[m].cooldown) * NS <= l'.inp.t
  {
    hide Next, Inv, Guarded;
    Reachable(cfg, now, prefix);
    var s := Exec(cfg, Blank(now), prefix);
    var c := Secs(s.ops[l.op].pc.since + cfg.monitors[m].cooldown);
    ActionGuards(cfg, s, l, m);
    GuardedAlways(cfg, s, run, m, c);
    GuardHolds(cfg, Exec(cfg, s, run), l', m, c);
  }

  lemma ActionGuards(cfg: Config, s: Sys, l: Label, m: Id)
    requires Inv(cfg, s) && ActionAt(cfg, s, l, m)
    ensures Guarded(s, m, Secs(s.ops[l.op].pc.since + cfg.monitors[m].cooldown))
  {
    hide RecordOk, Sound, Next;
    assert CooldownSaved(s, m);
    assert Flight(s, SoundFlight(cfg, s.now), l.op);
  }

  // ---- spacing of the saved starts, crashes included

  /** The label records the start of an automatic recovery of m, and the save succeeds. */
  predicate SavedStartAt(cfg: Config, s: Sys, l: Label, m: Id) {
    AutomaticStartAt(cfg, s, l, m) && l.inp.save.Saved?
  }

  /** The times at which automatic recoveries of m were started and saved. */
  function SavedStarts(cfg: Config, s: Sys, run: seq<Label>, m: Id): seq<nat> {
    if run == [] then []
    else
      var n := |run| - 1;
      SavedStarts(cfg, s, run[..n], m)
      + if SavedStartAt(cfg, Exec(cfg, s, run[..n]), run[n], m) then [run[n].inp.t] else []
  }

  /** Each time is more than (gap - 1 second) after the one before. */
  ghost predicate Spaced(times: seq<nat>, gap: nat) {
    forall k | 0 <= k < |times| - 1 :: Apart(times[k], times[k + 1], gap)
  }

  predicate Apart(a: nat, b: nat, gap: nat) {
    a + gap < b + NS
  }

  lemma SpacedMore(times: seq<nat>, t: nat, gap: nat)
    requires Spaced(times, gap) && (times != [] ==> Apart(times[|times| - 1], t, gap))
    ensures Spaced(times + [t], gap)
  {
    var all := times + [t];
    forall k | 0 <= k < |all| - 1 ensures Apart(all[k], all[k + 1], gap) {
      if k < |times| - 1 { assert Apart(times[k], times[k + 1], gap); }
    }
  }

  /** A start that is saved guards memory and every candidate snapshot. */
  lemma SavedStartGuards(cfg: Config, s: Sys, l: Label, m: Id)
    requires Inv(cfg, s) && SavedStartAt(cfg, s, l, m)
    ensures Guarded(Next(cfg, s, l), m, Secs(l.inp.t + cfg.monitors[m].cooldown))
  {
    hide Inv;
    var next := Moved(cfg, s, l.op, l.inp);
    assert next == StepStarting(cfg.monitors[m], s.recs[m], s.ops[l.op], l.inp);
    assert next.rec.cooldownUntil == Some(Secs(l.inp.t + cfg.monitors[m].cooldown)) && next.persist;
    hide Advance;
    SavedRecords(cfg, s, l.op, l.inp, next);
    hide Install;
    var c := Secs(l.inp.t + cfg.monitors[m].cooldown);
    assert Every(s.recs[m := next.rec], AtLeast(m, c));
  }

  lemma SavedRecords(cfg: Config, s: Sys, o: OpId, inp: Input, next: Local)
    requires s.up && o in s.ops && next.persist && inp.save.Saved?
    ensures var s' := Install(cfg, s, o, inp, next);
      s'.up && s'.recs == s.recs[s.ops[o].monitor := next.rec] && s'.disk == {s'.recs}
  {
    hide AppendAll;
  }

  /** What a run keeps true of the saved starts listed so far. */
  ghost predicate Pacing(cfg: Config, s: Sys, times: seq<nat>, m: Id)
    requires m in cfg.monitors
  {
    var gap := cfg.monitors[m].cooldown;
    Spaced(times, gap) && (times != [] ==> Guarded(s, m, Secs(times[|times| - 1] + gap)))
  }

  lemma PacingStep(cfg: Config, s: Sys, l: Label, times: seq<nat>, m: Id)
    requires m in cfg.monitors && Inv(cfg, s) && Enabled(cfg, s, l) && Pacing(cfg, s, times, m)
    ensures Pacing(cfg, Next(cfg, s, l), times + if SavedStartAt(cfg, s, l, m) then [l.inp.t] else [], m)
  {
    hide Next, Inv, Guarded, Spaced;
    var gap := cfg.monitors[m].cooldown;
    if times != [] {
      var last := times[|times| - 1];
      GuardedStep(cfg, s, l, m, Secs(last + gap));
      if SavedStartAt(cfg, s, l, m) {
        GuardHolds(cfg, s, l, m, Secs(last + gap));
        SecsLose(last + gap);
      }
    }
    if SavedStartAt(cfg, s, l, m) {
      SpacedMore(times, l.inp.t, gap);
      SavedStartGuards(cfg, s, l, m);
    } else {
      assert times + [] == times;
    }
  }

  lemma {:induction false} PacingAlways(cfg: Config, now: nat, run: seq<Label>, m: Id)
    requires m in cfg.monitors
    ensures Pacing(cfg, Exec(cfg, Blank(now), run), SavedStarts(cfg, Blank(now), run, m), m)
  {
    hide Next, Pacing, Inv;
    if run == [] {
      NothingPaced(cfg, Blank(now), m);
    } else {
      var n := |run| - 1;
      PacingAlways(cfg, now, run[..n], m);
      Reachable(cfg, now, run[..n]);
      var s := Exec(cfg, Blank(now), run[..n]);
      var times := SavedStarts(cfg, Blank(now), run[..n], m);
      if Enabled(cfg, s, run[n]) {
        PacingStep(cfg, s, run[n], times, m);
      } else {
        assert times + [] == times;
      }
    }
  }

  lemma NothingPaced(cfg: Config, s: Sys, m: Id)
    requires m in cfg.monitors
    ensures Pacing(cfg, s, [], m)
  {
  }

  /** In every run whatsoever, crashes and restarts included, the automatic recoveries of
      one monitor whose start was saved start more than the cooldown less one second
      apart, whether or not they went on to act. */
  lemma SavedStartsAreSpaced(cfg: Config, now: nat, run: seq<Label>, m: Id)
    requires m in cfg.monitors
    ensures Spaced(SavedStarts(cfg, Blank(now), run, m), cfg.monitors[m].cooldown)
  {
    PacingAlways(cfg, now, run, m);
  }

  /** n spaced times need a window of at least (n - 1) gaps. */
  lemma {:induction false} SpacedSpan(times: seq<nat>, gap: nat)
    requires Spaced(times, gap) && times != []
    ensures times[0] + (|times| - 1) * (gap - NS + 1) <= times[|times| - 1]
  {
    var n := |times| - 1;
    if n > 0 {
      assert times[..n] != [];
      forall k | 0 <= k < n - 1 ensures Apart(times[..n][k], times[..n][k + 1], gap) {
        assert Apart(times[k], times[k + 1], gap);
      }
      SpacedSpan(times[..n], gap);
      assert Apart(times[n - 1], times[n], gap);
      assert n * (gap - NS + 1) == (n - 1) * (gap - NS + 1) + (gap - NS + 1);
    }
  }

  lemma SpacedWindow(times: seq<nat>, gap: nat, i: nat, j: nat)
    requires i < j < |times| && Spaced(times, gap)
    ensures times[i] + (j - i) * (gap - NS) < times[j]
  {
    var part := times[i..j + 1];
    forall k | 0 <= k < |part| - 1 ensures Apart(part[k], part[k + 1], gap) {
      assert Apart(times[i + k], times[i + k + 1], gap);
    }
    SpacedSpan(part, gap);
    assert (j - i) * (gap - NS + 1) == (j - i) * (gap - NS) + (j - i);
  }

  /** In a window of length T at most 1 + T / (cooldown - 1s) automatic recoveries
      start and are saved: any n of them in a row span n - 1 such gaps. */
  lemma SavedStartsAreFew(cfg: Config, now: nat, run: seq<Label>, m: Id, i: nat, j: nat)
    requires m in cfg.monitors && i < j < |SavedStarts(cfg, Blank(now), run, m)|
    ensures var times := SavedStarts(cfg, Blank(now), run, m);
      times[i] + (j - i) * (cfg.monitors[m].cooldown - NS) < times[j]
  {
    SavedStartsAreSpaced(cfg, now, run, m);
    SpacedWindow(SavedStarts(cfg, Blank(now), run, m), cfg.monitors[m].cooldown, i, j);
  }

  /** When the recovery an operation is in was started. */
  function Since(pc: PC): nat
    requires Committed(pc)
  {
    match pc
    case Evaluating(AtRecheck(_, since, _), _) => since
    case Evaluating(AtFinal(_, since, _), _) => since
    case Evaluated(AtRecheck(_, since, _), _, _) => since
    case Evaluated(AtFinal(_, since, _), _, _) => since
    case Acting(_, since, _) => since
    case Acted(_, since, _, _, _) => since
    case Closing(_, since, _, _, _, _) => since
  }

  predicate Listed(m: Id, times: seq<nat>, op: Op) {
    op.monitor == m && op.kind.Cycle? && Committed(op.pc) ==> Since(op.pc) in times
  }

  lemma AdvanceListed(mc: MonitorConfig, r: Record, op: Op, inp: Input)
    requires inp.t <= inp.t2
    ensures var next := Advance(mc, r, op, inp);
      Committed(next.pc) ==>
        if Committed(op.pc) then Since(next.pc) == Since(op.pc)
        else StartsRecovery(op) && inp.save.Saved? && Since(next.pc) == inp.t
  {
  }

  lemma ListedStep(cfg: Config, s: Sys, l: Label, times: seq<nat>, m: Id)
    requires Enabled(cfg, s, l) && forall o | o in s.ops :: Listed(m, times, s.ops[o])
    ensures var times' := times + if SavedStartAt(cfg, s, l, m) then [l.inp.t] else [];
      forall o | o in Next(cfg, s, l).ops :: Listed(m, times', Next(cfg, s, l).ops[o])
  {
    if l.Step? {
      var op := s.ops[l.op];
      AdvanceListed(cfg.monitors[op.monitor], s.recs[op.monitor], op, l.inp);
      InstallParts(cfg, s, l.op, l.inp, Moved(cfg, s, l.op, l.inp));
      hide Advance, Install;
    }
  }

  /** Every automatic recovery that got past its start is among the saved starts. */
  lemma {:induction false} EveryRecoveryIsListed(cfg: Config, now: nat, run: seq<Label>, m: Id, o: OpId)
    requires o in Exec(cfg, Blank(now), run).ops
    ensures Listed(m, SavedStarts(cfg, Blank(now), run, m), Exec(cfg, Blank(now), run).ops[o])
  {
    hide Next, Listed;
    var n := |run| - 1;
    var s := Exec(cfg, Blank(now), run[..n]);
    var times := SavedStarts(cfg, Blank(now), run[..n], m);
    forall o' | o' in s.ops ensures Listed(m, times, s.ops[o']) {
      EveryRecoveryIsListed(cfg, now, run[..n], m, o');
    }
    if Enabled(cfg, s, run[n]) {
      ListedStep(cfg, s, run[n], times, m);
    } else {
      assert times + [] == times;
    }
  }

  // ---- spacing within one process life, saved or not

  ghost predicate MemoryGuarded(s: Sys, m: Id, c: nat) {
    s.up && m in s.recs && NotBefore(Some(c), s.recs[m].cooldownUntil)
  }

  lemma MemoryGuardedStep(cfg: Config, s: Sys, l: Label, m: Id, c: nat)
    requires Inv(cfg, s) && MemoryGuarded(s, m, c) && !l.Crash? && Enabled(cfg, s, l)
    ensures MemoryGuarded(Next(cfg, s, l), m, c)
  {
    if l.Step? {
      var m' := s.ops[l.op].monitor;
      assert Sound(cfg, s.now)(m', s.recs[m']);
      CooldownNeverShrinks(cfg.monitors[m'], s.recs[m'], s.ops[l.op], l.inp, s.now);
      InstallParts(cfg, s, l.op, l.inp, Moved(cfg, s, l.op, l.inp));
      hide Advance, RecordOk, Install;
    }
  }

  lemma {:induction false} MemoryGuardedAlways(cfg: Config, s: Sys, run: seq<Label>, m: Id, c: nat)
    requires Inv(cfg, s) && MemoryGuarded(s, m, c) && Crash !in run
    ensures MemoryGuarded(Exec(cfg, s, run), m, c)
  {
    hide Next, Inv;
    if run != [] {
      var n := |run| - 1;
      MemoryGuardedAlways(cfg, s, run[..n], m, c);
      InvAlways(cfg, s, run[..n]);
      if Enabled(cfg, Exec(cfg, s, run[..n]), run[n]) {
        MemoryGuardedStep(cfg, Exec(cfg, s, run[..n]), run[n], m, c);
      }
    }
  }

  lemma StartGuards(cfg: Config, s: Sys, l: Label, m: Id)
    requires Inv(cfg, s) && StartAt(cfg, s, l, m)
    ensures MemoryGuarded(Next(cfg, s, l), m, Secs(l.inp.t + cfg.monitors[m].cooldown))
  {
  }

  lemma MemoryGuardHolds(cfg: Config, s: Sys, l: Label, m: Id, c: nat)
    requires Inv(cfg, s) && MemoryGuarded(s, m, c) && AutomaticStartAt(cfg, s, l, m)
    ensures c * NS <= s.now <= l.inp.t
  {
    assert Flight(s, SoundFlight(cfg, s.now), l.op);
  }

  /** The times at which automatic recoveries of m were recorded as started. */
  function AutomaticStarts(cfg: Config, s: Sys, run: seq<Label>, m: Id): seq<nat> {
    if run == [] then []
    else
      var n := |run| - 1;
      AutomaticStarts(cfg, s, run[..n], m)
      + if AutomaticStartAt(cfg, Exec(cfg, s, run[..n]), run[n], m) then [run[n].inp.t] else []
  }

  ghost predicate LifePacing(cfg: Config, s: Sys, times: seq<nat>, m: Id)
    requires m in cfg.monitors
  {
    var gap := cfg.monitors[m].cooldown;
    Spaced(times, gap) && (times != [] ==> MemoryGuarded(s, m, Secs(times[|times| - 1] + gap)))
  }

  lemma LifePacingStep(cfg: Config, s: Sys, l: Label, times: seq<nat>, m: Id)
    requires m in cfg.monitors && Inv(cfg, s) && Enabled(cfg, s, l) && !l.Crash? && LifePacing(cfg, s, times, m)
    ensures LifePacing(cfg, Next(cfg, s, l), times + if AutomaticStartAt(cfg, s, l, m) then [l.inp.t] else [], m)
  {
    hide Next, Inv, MemoryGuarded, Spaced;
    var gap := cfg.monitors[m].cooldown;
    if times != [] {
      var last := times[|times| - 1];
      MemoryGuardedStep(cfg, s, l, m, Secs(last + gap));
      if AutomaticStartAt(cfg, s, l, m) {
        MemoryGuardHolds(cfg, s, l, m, Secs(last + gap));
        SecsLose(last + gap);
      }
    }
    if AutomaticStartAt(cfg, s, l, m) {
      SpacedMore(times, l.inp.t, gap);
      StartGuards(cfg, s, l, m);
    } else {
      assert times + [] == times;
    }
  }

  lemma {:induction false} LifePacingAlways(cfg: Config, s0: Sys, run: seq<Label>, m: Id)
    requires m in cfg.monitors && Inv(cfg, s0) && Crash !in run
    ensures LifePacing(cfg, Exec(cfg, s0, run), AutomaticStarts(cfg, s0, run, m), m)
  {
    hide Next, LifePacing, Inv;
    if run == [] {
      NothingLifePaced(cfg, s0, m);
    } else {
      var n := |run| - 1;
      LifePacingAlways(cfg, s0, run[..n], m);
      InvAlways(cfg, s0, run[..n]);
      var s := Exec(cfg, s0, run[..n]);
      var times := AutomaticStarts(cfg, s0, run[..n], m);
      if Enabled(cfg, s, run[n]) {
        LifePacingStep(cfg, s, run[n], times, m);
      } else {
        assert times + [] == times;
      }
    }
  }

  lemma NothingLifePaced(cfg: Config, s: Sys, m: Id)
    requires m in cfg.monitors
    ensures LifePacing(cfg, s, [], m)
  {
  }

  /** Within one process life, however it began, all automatic starts of one monitor,
      saved or not, finished or interrupted, are more than the cooldown less one second
      apart, so that any n of them in a row span n - 1 such gaps. */
  lemma AutomaticStartsAreFew(cfg: Config, now: nat, prefix: seq<Label>, run: seq<Label>, m: Id)
    requires m in cfg.monitors && Crash !in run
    ensures var times := AutomaticStarts(cfg, Exec(cfg, Blank(now), prefix), run, m);
      && Spaced(times, cfg.monitors[m].cooldown)
      && forall i, j | 0 <= i < j < |times| :: times[i] + (j - i) * (cfg.monitors[m].cooldown - NS) < times[j]
  {
    hide Exec, Spaced, Inv, AutomaticStarts;
    Reachable(cfg, now, prefix);
    var s0 := Exec(cfg, Blank(now), prefix);
    LifePacingAlways(cfg, s0, run, m);
    var times := AutomaticStarts(cfg, s0, run, m);
    forall i: nat, j: nat | i < j < |times| ensures times[i] + (j - i) * (cfg.monitors[m].cooldown - NS) < times[j] {
      SpacedWindow(times, cfg.monitors[m].cooldown, i, j);
    }
  }

  /** Within one process life every recorded start, manual or automatic, saved or
      not, completed or interrupted, holds off the next automatic one. */
  lemma StartsAreSpaced(cfg: Config, now: nat, prefix: seq<Label>, l: Label, run: seq<Label>, l': Label, m: Id)
    requires var s := Exec(cfg, Blank(now), prefix);
      && StartAt(cfg, s, l, m) && Crash !in run
      && AutomaticStartAt(cfg, Exec(cfg, Next(cfg, s, l), run), l', m)
    ensures Apart(l.inp.t, l'.inp.t, cfg.monitors[m].cooldown)
  {
    hide Next, Inv;
    var s := Exec(cfg, Blank(now), prefix);
    var s1 := Next(cfg, s, l);
    var c := Secs(l.inp.t + cfg.monitors[m].cooldown);
    Reachable(cfg, now, prefix);
    InvStep(cfg, s, l);
    StartGuards(cfg, s, l, m);
    MemoryGuardedAlways(cfg, s1, run, m, c);
    InvAlways(cfg, s1, run);
    MemoryGuardHolds(cfg, Exec(cfg, s1, run), l', m, c);
    SecsLose(l.inp.t + cfg.monitors[m].cooldown);
  }
}
