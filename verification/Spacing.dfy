/**
 How soon one automatic recovery of a monitor may follow another, exactly. The
 stored cooldown keeps whole seconds, so the full cooldown is kept if and only if
 it ends on a whole second.
 */
module Spacing {
  import opened Wrappers
  import opened MonitorRecord
  import opened RecoveryMachine
  import opened System
  import opened Locking
  import opened Accounting
  import opened WriteAhead
  import opened Cooldown
  import opened RecoveryCap
  import opened Serial
  import opened Solo
  import opened Paths
  import opened Witnesses

  /** In a crash-free stretch of a run from s0 the label l starts an automatic recovery of
      m at t1, and after some more labels l' starts one at t2. */
  ghost predicate StartsTwice(
    cfg: Config, s0: Sys, m: Id, prefix: seq<Label>, l: Label, run: seq<Label>, l': Label, t1: nat, t2: nat)
  {
    var s := Exec(cfg, s0, prefix);
    && IsRun(cfg, s0, prefix) && Crash !in prefix && AutomaticStartAt(cfg, s, l, m) && l.inp.t == t1
    && var s1 := Next(cfg, s, l);
    && IsRun(cfg, s1, run) && Crash !in run && AutomaticStartAt(cfg, Exec(cfg, s1, run), l', m) && l'.inp.t == t2
  }

  ghost predicate TwoStarts(cfg: Config, now: nat, m: Id, t1: nat, t2: nat) {
    exists prefix, l, run, l' :: StartsTwice(cfg, Fresh(cfg, now), m, prefix, l, run, l', t1, t2)
  }

  // ---- not sooner

  lemma NowGrows(cfg: Config, s: Sys, l: Label)
    requires Enabled(cfg, s, l)
    ensures s.now <= Next(cfg, s, l).now && (l.Step? ==> l.inp.t <= Next(cfg, s, l).now)
  {
    if l.Step? {
      InstallParts(cfg, s, l.op, l.inp, Moved(cfg, s, l.op, l.inp));
    }
    hide Advance, Install;
  }

  lemma {:induction false} NowGrowsAlways(cfg: Config, s: Sys, run: seq<Label>)
    ensures s.now <= Exec(cfg, s, run).now
  {
    hide Next;
    if run != [] {
      var n := |run| - 1;
      NowGrowsAlways(cfg, s, run[..n]);
      if Enabled(cfg, Exec(cfg, s, run[..n]), run[n]) {
        NowGrows(cfg, Exec(cfg, s, run[..n]), run[n]);
      }
    }
  }

  lemma NotSooner(
    cfg: Config, now: nat, m: Id, prefix: seq<Label>, l: Label, run: seq<Label>, l': Label, t1: nat, t2: nat)
    requires StartsTwice(cfg, Fresh(cfg, now), m, prefix, l, run, l', t1, t2)
    ensures t1 <= t2 && Secs(t1 + cfg.monitors[m].cooldown) * NS <= t2
  {
    hide Next, Inv, Fresh, MemoryGuarded, IsRun;
    FreshIsReachable(cfg, now);
    InvAlways(cfg, Fresh(cfg, now), prefix);
    var s := Exec(cfg, Fresh(cfg, now), prefix);
    var s1 := Next(cfg, s, l);
    var c := Secs(t1 + cfg.monitors[m].cooldown);
    InvStep(cfg, s, l);
    StartGuards(cfg, s, l, m);
    MemoryGuardedAlways(cfg, s1, run, m, c);
    InvAlways(cfg, s1, run);
    MemoryGuardHolds(cfg, Exec(cfg, s1, run), l', m, c);
    NowGrows(cfg, s, l);
    NowGrowsAlways(cfg, s1, run);
  }

  // ---- as soon as that

  /** A failing check below the threshold. */
  lemma BelowThreshold(cfg: Config, s: Sys, v: Mover) returns (run: seq<Label>, s': Sys)
    requires Free(cfg, s, v.monitor, v.at) && v.op !in s.ops && cfg.monitors[v.monitor].checks > 0
    requires s.recs[v.monitor].streak + 1 < cfg.monitors[v.monitor].threshold
    ensures Runs(cfg, s, run, s') && Free(cfg, s', v.monitor, v.at)
    ensures var r, r' := s.recs[v.monitor], s'.recs[v.monitor];
      r'.streak == r.streak + 1 && r'.cooldownUntil == r.cooldownUntil && r'.recoveryFailures == r.recoveryFailures
    ensures NeverForced(s, v.monitor) ==> NeverForced(s', v.monitor)
  {
    hide Reaches, Runs, FailureReasons, FailedCheck, Next, Enabled;
    var mc, r := cfg.monitors[v.monitor], s.recs[v.monitor];
    Calls(cfg, s, v, Cycle);
    var s1 := Next(cfg, s, Call(v.op, v.monitor, Cycle));
    var st := Story(r, NewOp(v.monitor, Cycle), []);
    var results := AllFail(mc.checks);
    AllFailReasons(mc.checks);
    FailsCheck(cfg, s1, v, st, results);
    FailFacts(mc, v, r, results);
    var e := FailedCheck(mc, v, r, results);
    var st1 := Story(e.rec, st.op, st.events + e.events);
    Releases(cfg, s1, v, st1, NoRecovery);
    run, s' := CallRuns(cfg, s, v, Cycle, Put(st1, Finished(NoRecovery)));
    CallTotal(cfg, s, v, Cycle);
  }

  /** Enough failing checks, and recovery is due. */
  lemma {:induction false} BuildStreak(cfg: Config, s: Sys, m: Id, at: nat) returns (run: seq<Label>, s': Sys)
    requires Free(cfg, s, m, at) && cfg.monitors[m].checks > 0
    requires !CooldownActive(s.recs[m].cooldownUntil, at)
    requires cfg.monitors[m].maxAttempts == 0 || s.recs[m].recoveryFailures < cfg.monitors[m].maxAttempts
    ensures Runs(cfg, s, run, s') && Free(cfg, s', m, at)
    ensures Due(cfg.monitors[m], s'.recs[m], at) && s'.recs[m].recoveryFailures == s.recs[m].recoveryFailures
    ensures NeverForced(s, m) ==> NeverForced(s', m)
    decreases cfg.monitors[m].threshold - s.recs[m].streak
  {
    if s.recs[m].streak + 1 >= cfg.monitors[m].threshold {
      run, s' := [], s;
    } else {
      hide Runs;
      var o := Unused(s.ops.Keys);
      var a, s1 := BelowThreshold(cfg, s, Mover(o, m, at));
      var b, s2 := BuildStreak(cfg, s1, m, at);
      RunsThen(cfg, s, a, s1, b, s2);
      run, s' := a + b, s2;
    }
  }

  function StartLabel(v: Mover): Label {
    Step(v.op, Quietly(v))
  }

  /** The next failing check, up to the label that starts the recovery. */
  lemma StartsNow(cfg: Config, s: Sys, v: Mover) returns (run: seq<Label>, s': Sys)
    requires Free(cfg, s, v.monitor, v.at) && v.op !in s.ops && cfg.monitors[v.monitor].checks > 0
    requires Due(cfg.monitors[v.monitor], s.recs[v.monitor], v.at)
    ensures Runs(cfg, s, run, s') && AutomaticStartAt(cfg, s', StartLabel(v), v.monitor)
    ensures v.monitor in s'.slots && s'.ops[v.op].pc.before == Degraded
    ensures s'.recs[v.monitor].streak == s.recs[v.monitor].streak + 1
    ensures s'.recs[v.monitor].recoveryFailures == s.recs[v.monitor].recoveryFailures
  {
    hide Reaches, Runs, FailureReasons, Due, Next, Enabled;
    var st := ReachesStarting(cfg, s, v);
    var results := AllFail(cfg.monitors[v.monitor].checks);
    var end := Put(st, Starting(Degraded, results, FailureReasons(results)));
    run, s' := CallRuns(cfg, s, v, Cycle, end);
    CallTotal(cfg, s, v, Cycle);
    CanStep(cfg, Next(cfg, s, run[0]), s', v, end, Quietly(v));
  }

  /** Right after its start. */
  lemma AfterStart(cfg: Config, s: Sys, v: Mover) returns (st: Story)
    requires AutomaticStartAt(cfg, s, StartLabel(v), v.monitor) && v.monitor in s.slots
      && s.ops[v.op].pc.before == Degraded
    ensures v.monitor in cfg.monitors && Reaches(cfg, Next(cfg, s, StartLabel(v)), v, st)
    ensures st.op == s.ops[v.op].(pc := Acting(Degraded, v.at, []))
    ensures st.rec.cooldownUntil == Some(Secs(v.at + cfg.monitors[v.monitor].cooldown))
    ensures st.rec.streak == s.recs[v.monitor].streak && st.rec.recoveryFailures == s.recs[v.monitor].recoveryFailures
  {
    var l := StartLabel(v);
    var next := Moved(cfg, s, v.op, l.inp);
    assert next == StepStarting(cfg.monitors[v.monitor], s.recs[v.monitor], s.ops[v.op], l.inp);
    assert next.pc == Acting(Degraded, v.at, []);
    InstallParts(cfg, s, v.op, l.inp, next);
    hide Advance, Install;
    st := Story(next.rec, s.ops[v.op].(pc := next.pc), []);
    ReachesHere(cfg, Next(cfg, s, l), v);
  }

  /** A recovery cancelled right after its start. */
  lemma Abandons(cfg: Config, s: Sys, v: Mover) returns (run: seq<Label>, s': Sys)
    requires AutomaticStartAt(cfg, s, StartLabel(v), v.monitor) && v.monitor in s.slots
      && s.ops[v.op].pc.before == Degraded
    requires cfg.monitors[v.monitor].recovery != [] && cfg.monitors[v.monitor].enabled
    ensures Runs(cfg, Next(cfg, s, StartLabel(v)), run, s') && Free(cfg, s', v.monitor, v.at)
    ensures s'.recs[v.monitor].cooldownUntil == Some(Secs(v.at + cfg.monitors[v.monitor].cooldown))
    ensures s'.recs[v.monitor].streak == s.recs[v.monitor].streak
    ensures s'.recs[v.monitor].recoveryFailures == s.recs[v.monitor].recoveryFailures
  {
    hide Reaches, IsRun, Next, Enabled;
    var st := AfterStart(cfg, s, v);
    var s1 := Next(cfg, s, StartLabel(v));
    ReachesCancel(cfg, s1, v, st);
    var st1 := st.(op := st.op.(cancelled := true));
    Goes(cfg, s1, v, st1, Quietly(v), Aborting(Degraded));
    var r := st.rec.(status := Degraded);
    MovesTo(cfg, s1, v, Put(st1, Aborting(Degraded)), Quietly(v), Local(r, Releasing(Interrupted), [], true));
    var st2 := Story(r, st1.op, st1.events + []);
    Releases(cfg, s1, v, st2, Interrupted);
    run, s' := SoloRuns(cfg, s1, v, Put(st2, Finished(Interrupted)));
  }

  lemma SoloRuns(cfg: Config, s: Sys, v: Mover, st: Story) returns (run: seq<Label>, s': Sys)
    requires Reaches(cfg, s, v, st)
    ensures Runs(cfg, s, run, s') && Shows(s, s', v, st)
  {
    hide IsRun, Exec, Shows;
    run :| OnlyMoves(run, v) && IsRun(cfg, s, run) && Shows(s, Exec(cfg, s, run), v, st);
    s' := Exec(cfg, s, run);
  }

  lemma AsSoonAsThat(cfg: Config, now: nat, m: Id, t1: nat, t2: nat)
    requires m in cfg.monitors && cfg.monitors[m].enabled && cfg.monitors[m].checks > 0
      && cfg.monitors[m].recovery != []
    requires now <= t1 <= t2 && Secs(t1 + cfg.monitors[m].cooldown) * NS <= t2
    ensures TwoStarts(cfg, now, m, t1, t2)
  {
    hide Fresh, Runs, Next, Enabled, AutomaticStartAt;
    FreshIsFree(cfg, now, m, t1);
    var s0 := Fresh(cfg, now);
    var a, s1 := BuildStreak(cfg, s0, m, t1);
    var o1 := Unused(s1.ops.Keys);
    var v1 := Mover(o1, m, t1);
    var b, s2 := StartsNow(cfg, s1, v1);
    RunsThen(cfg, s0, a, s1, b, s2);
    EnabledStart(cfg, s2, StartLabel(v1), m);
    var s3 := Next(cfg, s2, StartLabel(v1));
    var c, s4 := Abandons(cfg, s2, v1);
    var o2 := Unused(s4.ops.Keys);
    var v2 := Mover(o2, m, t2);
    var d, s5 := StartsNow(cfg, s4, v2);
    RunsThen(cfg, s3, c, s4, d, s5);
    Twice(cfg, now, m, a + b, s2, v1, c + d, s5, v2);
  }

  lemma Twice(cfg: Config, now: nat, m: Id, prefix: seq<Label>, s: Sys, v: Mover, run: seq<Label>, s': Sys, v': Mover)
    requires Runs(cfg, Fresh(cfg, now), prefix, s) && AutomaticStartAt(cfg, s, StartLabel(v), m)
    requires Runs(cfg, Next(cfg, s, StartLabel(v)), run, s') && AutomaticStartAt(cfg, s', StartLabel(v'), m)
    ensures TwoStarts(cfg, now, m, v.at, v'.at)
  {
    hide Fresh, Next, IsRun, Exec, AutomaticStartAt;
    EnabledStart(cfg, s, StartLabel(v), m);
    assert StartsTwice(cfg, Fresh(cfg, now), m, prefix, StartLabel(v), run, StartLabel(v'), v.at, v'.at);
  }

  lemma EnabledStart(cfg: Config, s: Sys, l: Label, m: Id)
    requires AutomaticStartAt(cfg, s, l, m)
    ensures Enabled(cfg, s, l)
  {
  }

  // ---- the main results

  /** After an automatic start at t1 there can be one at t2 if and only if t2 is not
      before t1 and not before the whole second in which the cooldown ends. */
  lemma NextStartExactly(cfg: Config, now: nat, m: Id, t1: nat, t2: nat)
    requires m in cfg.monitors && cfg.monitors[m].enabled && cfg.monitors[m].checks > 0
      && cfg.monitors[m].recovery != []
    requires now <= t1
    ensures TwoStarts(cfg, now, m, t1, t2) <==> t1 <= t2 && Secs(t1 + cfg.monitors[m].cooldown) * NS <= t2
  {
    hide StartsTwice;
    if TwoStarts(cfg, now, m, t1, t2) {
      var prefix, l, run, l' :| StartsTwice(cfg, Fresh(cfg, now), m, prefix, l, run, l', t1, t2);
      NotSooner(cfg, now, m, prefix, l, run, l', t1, t2);
    }
    if t1 <= t2 && Secs(t1 + cfg.monitors[m].cooldown) * NS <= t2 {
      AsSoonAsThat(cfg, now, m, t1, t2);
    }
  }

  /** Every later automatic start is a full cooldown away if and only if the cooldown is
      zero or ends on a whole second. */
  lemma FullCooldownExactly(cfg: Config, now: nat, m: Id, t1: nat)
    requires m in cfg.monitors && cfg.monitors[m].enabled && cfg.monitors[m].checks > 0
      && cfg.monitors[m].recovery != []
    requires now <= t1
    ensures (forall t2 | TwoStarts(cfg, now, m, t1, t2) :: t1 + cfg.monitors[m].cooldown <= t2)
            <==> cfg.monitors[m].cooldown == 0 || (t1 + cfg.monitors[m].cooldown) % NS == 0
  {
    hide TwoStarts;
    var cooldown := cfg.monitors[m].cooldown;
    forall t2 | TwoStarts(cfg, now, m, t1, t2)
      ensures (cooldown == 0 || (t1 + cooldown) % NS == 0) ==> t1 + cooldown <= t2 {
      NextStartExactly(cfg, now, m, t1, t2);
    }
    var whole := Secs(t1 + cooldown) * NS;
    var soonest := if whole < t1 then t1 else whole;
    NextStartExactly(cfg, now, m, t1, soonest);
    SecsLose(t1 + cooldown);
  }

  /** The bound of one second is tight: from every state of the clock on, some automatic
      start is followed by one after the cooldown less one second and one nanosecond more. */
  lemma BoundIsTight(cfg: Config, now: nat, m: Id) returns (t1: nat)
    requires m in cfg.monitors && cfg.monitors[m].enabled && cfg.monitors[m].checks > 0
      && cfg.monitors[m].recovery != []
    requires cfg.monitors[m].cooldown >= NS
    ensures now <= t1 && TwoStarts(cfg, now, m, t1, t1 + cfg.monitors[m].cooldown - NS + 1)
  {
    hide TwoStarts;
    var cooldown := cfg.monitors[m].cooldown;
    t1 := now + (NS - 1 - (now + cooldown) % NS);
    assert t1 + cooldown == (now + cooldown) / NS * NS + NS - 1;
    assert Secs(t1 + cooldown) == (now + cooldown) / NS;
    NextStartExactly(cfg, now, m, t1, t1 + cooldown - NS + 1);
  }
}
