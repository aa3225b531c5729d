/**
 The cap on failed recoveries (max_recovery_attempts) over whole runs.
 */
module RecoveryCap {
  import opened MonitorRecord
  import opened RecoveryMachine
  import opened System
  import opened Locking
  import opened Lifting
  import opened Accounting
  import opened WriteAhead
  import opened Cooldown

  /** The label counts a failed automatic recovery of m. */
  predicate AutomaticFailureAt(cfg: Config, s: Sys, l: Label, m: Id) {
    Moves(cfg, s, l, m) && s.ops[l.op].kind.Cycle? && CountsFailure(s.ops[l.op])
  }

  function AutomaticFailures(cfg: Config, s: Sys, run: seq<Label>, m: Id): nat {
    if run == [] then 0
    else
      AutomaticFailures(cfg, s, run[..|run| - 1], m)
      + if AutomaticFailureAt(cfg, Exec(cfg, s, run[..|run| - 1]), run[|run| - 1], m) then 1 else 0
  }

  /** Only counting a failure moves the failure counter, and it is never reset. */
  lemma FailuresCounted(mc: MonitorConfig, r: Record, op: Op, inp: Input)
    requires inp.t <= inp.t2
    ensures Advance(mc, r, op, inp).rec.recoveryFailures
         == r.recoveryFailures + if CountsFailure(op) then 1 else 0
  {
  }

  /** What one move can do to m's failure counter. */
  lemma FailureMove(cfg: Config, s: Sys, o: OpId, inp: Input, m: Id)
    requires Inv(cfg, s) && s.up && Enabled(cfg, s, Step(o, inp)) && m in s.recs
    ensures var s' := Next(cfg, s, Step(o, inp));
      && s'.up && m in s'.recs && s.recs[m].recoveryFailures <= s'.recs[m].recoveryFailures
      && (s.ops[o].monitor == m && CountsFailure(s.ops[o]) ==>
            s'.recs[m].recoveryFailures == s.recs[m].recoveryFailures + 1)
  {
    hide Inv, Install;
    var m' := s.ops[o].monitor;
    FailuresCounted(cfg.monitors[m'], s.recs[m'], s.ops[o], inp);
    InstallParts(cfg, s, o, inp, Moved(cfg, s, o, inp));
    hide Advance;
  }

  /** What one label can do to m's failure counter while the process lives. */
  lemma FailureStep(cfg: Config, s: Sys, l: Label, m: Id)
    requires Inv(cfg, s) && s.up && Enabled(cfg, s, l) && !l.Crash? && m in s.recs
    ensures var s' := Next(cfg, s, l);
      && s'.up && m in s'.recs && s.recs[m].recoveryFailures <= s'.recs[m].recoveryFailures
      && (AutomaticFailureAt(cfg, s, l, m) ==>
        && s'.recs[m].recoveryFailures == s.recs[m].recoveryFailures + 1
        && (cfg.monitors[m].maxAttempts == 0 || s.recs[m].recoveryFailures < cfg.monitors[m].maxAttempts))
  {
    hide Install, Advance, RecordOk;
    if l.Step? {
      FailureMove(cfg, s, l.op, l.inp, m);
      assert Flight(s, SoundFlight(cfg, s.now), l.op);
    }
  }

  lemma FreshIsReachable(cfg: Config, now: nat)
    ensures Inv(cfg, Fresh(cfg, now)) && Fresh(cfg, now).up && Fresh(cfg, now).recs.Keys == cfg.monitors.Keys
  {
    hide Inv;
    Reachable(cfg, now, []);
    SideKeeps(cfg, Blank(now), Boot(now, map[], [], Saved));
  }

  /** At most maxAttempts automatic recoveries of m fail, and each one is in the counter. */
  lemma {:induction false} CapHolds(cfg: Config, now: nat, run: seq<Label>, m: Id)
    requires m in cfg.monitors && Crash !in run
    ensures var s := Exec(cfg, Fresh(cfg, now), run);
      && s.up && m in s.recs
      && AutomaticFailures(cfg, Fresh(cfg, now), run, m) <= s.recs[m].recoveryFailures
      && (cfg.monitors[m].maxAttempts > 0 ==>
        AutomaticFailures(cfg, Fresh(cfg, now), run, m) <= cfg.monitors[m].maxAttempts)
  {
    hide Next, Fresh, Inv;
    FreshIsReachable(cfg, now);
    if run != [] {
      var n := |run| - 1;
      CapHolds(cfg, now, run[..n], m);
      InvAlways(cfg, Fresh(cfg, now), run[..n]);
      if Enabled(cfg, Exec(cfg, Fresh(cfg, now), run[..n]), run[n]) {
        FailureStep(cfg, Exec(cfg, Fresh(cfg, now), run[..n]), run[n], m);
      }
    }
  }

  lemma {:induction false} FailuresNeverShrink(cfg: Config, s: Sys, run: seq<Label>, m: Id)
    requires Inv(cfg, s) && s.up && m in s.recs && Crash !in run
    ensures var s' := Exec(cfg, s, run);
            s'.up && m in s'.recs && s.recs[m].recoveryFailures <= s'.recs[m].recoveryFailures
  {
    hide Next, Inv;
    if run != [] {
      var n := |run| - 1;
      FailuresNeverShrink(cfg, s, run[..n], m);
      InvAlways(cfg, s, run[..n]);
      if Enabled(cfg, Exec(cfg, s, run[..n]), run[n]) {
        FailureStep(cfg, Exec(cfg, s, run[..n]), run[n], m);
      }
    }
  }

  /** Once the attempts are used up no automatic recovery of m starts and no action
      of one runs, for the rest of the process's life. */
  lemma ExhaustedStaysQuiet(cfg: Config, now: nat, prefix: seq<Label>, run: seq<Label>, l: Label, m: Id)
    requires var s := Exec(cfg, Blank(now), prefix);
      s.up && m in s.recs && m in cfg.monitors
      && 0 < cfg.monitors[m].maxAttempts <= s.recs[m].recoveryFailures
    requires Crash !in run
    ensures var s' := Exec(cfg, Exec(cfg, Blank(now), prefix), run);
      && !AutomaticStartAt(cfg, s', l, m)
      && !(ActionAt(cfg, s', l, m) && s'.ops[l.op].kind.Cycle?)
  {
    hide Next, Inv, RecordOk;
    Reachable(cfg, now, prefix);
    var s := Exec(cfg, Blank(now), prefix);
    FailuresNeverShrink(cfg, s, run, m);
    InvAlways(cfg, s, run);
    QuietWhenExhausted(cfg, Exec(cfg, s, run), l, m);
  }

  lemma QuietWhenExhausted(cfg: Config, s: Sys, l: Label, m: Id)
    requires Inv(cfg, s) && m in s.recs && m in cfg.monitors
    requires 0 < cfg.monitors[m].maxAttempts <= s.recs[m].recoveryFailures
    ensures !AutomaticStartAt(cfg, s, l, m)
    ensures !(ActionAt(cfg, s, l, m) && s.ops[l.op].kind.Cycle?)
  {
    if Moves(cfg, s, l, m) {
      assert Flight(s, SoundFlight(cfg, s.now), l.op);
    }
  }

  // ---- without manual recoveries the counter itself respects the cap, crashes included

  function Capped(m: Id, cap: nat): RecordProperty {
    (m', r: Record) => m' == m ==> r.recoveryFailures <= cap
  }

  predicate IsForcedCall(l: Label, m: Id) {
    l.Call? && l.monitor == m && l.kind.Forced?
  }

  predicate NoForcedCall(run: seq<Label>, m: Id) {
    forall k | 0 <= k < |run| :: !IsForcedCall(run[k], m)
  }

  ghost predicate NeverForced(s: Sys, m: Id) {
    forall o | o in s.ops && s.ops[o].monitor == m :: s.ops[o].kind.Cycle?
  }

  lemma AutomaticStaysCapped(cfg: Config, s: Sys, o: OpId, inp: Input, m: Id)
    requires Inv(cfg, s) && m in cfg.monitors && cfg.monitors[m].maxAttempts > 0
    requires EveryRecord(s, Capped(m, cfg.monitors[m].maxAttempts)) && NeverForced(s, m)
    requires Enabled(cfg, s, Step(o, inp))
    ensures Capped(m, cfg.monitors[m].maxAttempts)(s.ops[o].monitor, Moved(cfg, s, o, inp).rec)
  {
    var m' := s.ops[o].monitor;
    FailuresCounted(cfg.monitors[m'], s.recs[m'], s.ops[o], inp);
    hide Advance;
    assert Capped(m, cfg.monitors[m].maxAttempts)(m', s.recs[m']);
    assert Flight(s, SoundFlight(cfg, s.now), o);
  }

  lemma BootStaysCapped(cfg: Config, s: Sys, l: Label, m: Id, cap: nat)
    requires EveryRecord(s, Capped(m, cap)) && l.Boot? && Enabled(cfg, s, l)
    ensures Every(BootRecords(cfg, l.saved), Capped(m, cap))
  {
    assert Every(l.saved, Capped(m, cap));
    var recs := BootRecords(cfg, l.saved);
    forall m' | m' in recs ensures Capped(m, cap)(m', recs[m']) {
      if m' in l.saved { assert Capped(m, cap)(m', l.saved[m']); }
    }
  }

  lemma CappedStep(cfg: Config, s: Sys, l: Label, m: Id)
    requires Inv(cfg, s) && m in cfg.monitors && cfg.monitors[m].maxAttempts > 0
    requires EveryRecord(s, Capped(m, cfg.monitors[m].maxAttempts)) && NeverForced(s, m)
    requires Enabled(cfg, s, l) && !IsForcedCall(l, m)
    ensures EveryRecord(Next(cfg, s, l), Capped(m, cfg.monitors[m].maxAttempts)) && NeverForced(Next(cfg, s, l), m)
  {
    hide Advance, Inv;
    if l.Step? {
      AutomaticStaysCapped(cfg, s, l.op, l.inp, m);
      InstallEvery(cfg, s, l.op, l.inp, Moved(cfg, s, l.op, l.inp), Capped(m, cfg.monitors[m].maxAttempts));
    } else {
      if l.Boot? { BootStaysCapped(cfg, s, l, m, cfg.monitors[m].maxAttempts); }
      SideRecords(cfg, s, l, Capped(m, cfg.monitors[m].maxAttempts));
    }
  }

  /** In any run without manual recoveries of m, crashes included, m never counts
      more than maxAttempts failed recoveries, in memory or on disk. */
  lemma {:induction false} CounterIsCapped(cfg: Config, now: nat, run: seq<Label>, m: Id)
    requires m in cfg.monitors && cfg.monitors[m].maxAttempts > 0
    requires NoForcedCall(run, m)
    ensures var s := Exec(cfg, Blank(now), run);
            EveryRecord(s, Capped(m, cfg.monitors[m].maxAttempts)) && NeverForced(s, m)
  {
    hide Next, Inv;
    if run != [] {
      var n := |run| - 1;
      CounterIsCapped(cfg, now, run[..n], m);
      Reachable(cfg, now, run[..n]);
      if Enabled(cfg, Exec(cfg, Blank(now), run[..n]), run[n]) {
        CappedStep(cfg, Exec(cfg, Blank(now), run[..n]), run[n], m);
      }
    }
  }

  // ---- recovery_exhausted is announced once, unless a manual recovery fails again

  predicate Announces(events: seq<Event>) {
    exists k :: 0 <= k < |events| && events[k].kind.RecoveryExhausted?
  }

  /** While exhaustion stands announced, a step announces it again exactly when it counts
      a failed manual recovery. */
  lemma ExhaustionAnnouncedAgain(cfg: Config, now: nat, run: seq<Label>, o: OpId, inp: Input)
    requires var s := Exec(cfg, Blank(now), run);
      Enabled(cfg, s, Step(o, inp)) && s.recs[s.ops[o].monitor].exhausted
    ensures var s := Exec(cfg, Blank(now), run);
      Announces(Moved(cfg, s, o, inp).events) <==> s.ops[o].kind.Forced? && CountsFailure(s.ops[o])
  {
    hide Next;
    Reachable(cfg, now, run);
    var s := Exec(cfg, Blank(now), run);
    assert Flight(s, SoundFlight(cfg, s.now), o);
    assert Sound(cfg, s.now)(s.ops[o].monitor, s.recs[s.ops[o].monitor]);
    AnnouncedAgain(cfg.monitors[s.ops[o].monitor], s.recs[s.ops[o].monitor], s.ops[o], inp, s.now);
  }

  lemma AnnouncedAgain(mc: MonitorConfig, r: Record, op: Op, inp: Input, now: nat)
    requires inp.t <= inp.t2 && RecordOk(mc, r, now) && FlightOk(mc, r, op, now) && r.exhausted
    ensures Announces(Advance(mc, r, op, inp).events) <==> op.kind.Forced? && CountsFailure(op)
  {
    var events := Advance(mc, r, op, inp).events;
    if op.kind.Forced? && CountsFailure(op) {
      assert events[1].kind.RecoveryExhausted?;
    }
  }
}
