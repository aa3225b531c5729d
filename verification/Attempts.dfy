/**
 The attempts a monitor may make (max_recovery_attempts) are not only a bound: each of
 them can be made. Without recoveries by hand the counter counts the automatic failures
 one by one, and some run has as many as are allowed.
 */
module Attempts {
  import opened Wrappers
  import opened MonitorRecord
  import opened RecoveryMachine
  import opened System
  import opened Locking
  import opened Lifting
  import opened Accounting
  import opened WriteAhead
  import opened RecoveryCap
  import opened RecoverySpec
  import opened Serial
  import opened Solo
  import opened Paths
  import opened Witnesses
  import opened Spacing

  // ---- the counter counts the failures

  lemma FailureExactly(cfg: Config, s: Sys, l: Label, m: Id)
    requires Inv(cfg, s) && s.up && Enabled(cfg, s, l) && !l.Crash? && m in s.recs && NeverForced(s, m)
    ensures var s' := Next(cfg, s, l);
      && s'.up && m in s'.recs
      && s'.recs[m].recoveryFailures
         == s.recs[m].recoveryFailures + if AutomaticFailureAt(cfg, s, l, m) then 1 else 0
  {
    hide Inv, Install;
    if l.Step? {
      var m' := s.ops[l.op].monitor;
      FailuresCounted(cfg.monitors[m'], s.recs[m'], s.ops[l.op], l.inp);
      InstallParts(cfg, s, l.op, l.inp, Moved(cfg, s, l.op, l.inp));
      hide Advance;
    }
  }

  lemma NeverForcedBefore(cfg: Config, s: Sys, l: Label, m: Id)
    requires s.up && Enabled(cfg, s, l) && !l.Crash? && NeverForced(Next(cfg, s, l), m)
    ensures NeverForced(s, m)
  {
    var s' := Next(cfg, s, l);
    if l.Step? {
      InstallParts(cfg, s, l.op, l.inp, Moved(cfg, s, l.op, l.inp));
    }
    hide Advance, Install, Next;
    forall o | o in s.ops && s.ops[o].monitor == m ensures s.ops[o].kind.Cycle? {
      assert o in s'.ops && s'.ops[o].monitor == m && s'.ops[o].kind == s.ops[o].kind;
    }
  }

  /** In a life without crash or recovery by hand each failed recovery of m counts, once. */
  lemma {:induction false} EveryFailureCounts(cfg: Config, now: nat, run: seq<Label>, m: Id)
    requires m in cfg.monitors && Crash !in run && NeverForced(Exec(cfg, Fresh(cfg, now), run), m)
    ensures var s := Exec(cfg, Fresh(cfg, now), run);
      s.up && m in s.recs && AutomaticFailures(cfg, Fresh(cfg, now), run, m) == s.recs[m].recoveryFailures
  {
    FreshIsReachable(cfg, now);
    hide Next, Inv, NeverForced, Fresh;
    if run == [] {
      FreshCounts(cfg, now, m);
    } else {
      var n := |run| - 1;
      var s := Exec(cfg, Fresh(cfg, now), run[..n]);
      CapHolds(cfg, now, run[..n], m);
      InvAlways(cfg, Fresh(cfg, now), run[..n]);
      if Enabled(cfg, s, run[n]) {
        NeverForcedBefore(cfg, s, run[n], m);
        EveryFailureCounts(cfg, now, run[..n], m);
        FailureExactly(cfg, s, run[n], m);
      } else {
        EveryFailureCounts(cfg, now, run[..n], m);
      }
    }
  }

  lemma FreshCounts(cfg: Config, now: nat, m: Id)
    requires m in cfg.monitors
    ensures m in Fresh(cfg, now).recs && Fresh(cfg, now).recs[m].recoveryFailures == 0
  {
  }

  // ---- as many as are allowed

  /** Whatever the actions, a recovery can come to nothing. */
  lemma {:induction false} CanLose(recovery: seq<bool>, n: nat)
    returns (done: seq<ActionResult>, evals: seq<Evaluation>)
    requires n > 0
    ensures Recovers(recovery, done, evals, Verdict(false, AllFail(n), FailureReasons(AllFail(n))))
    ensures forall k | 0 <= k < |evals| :: |evals[k]| == n
  {
    hide FailureReasons, AllFail;
    AllFailReasons(n);
    if recovery == [] {
      done, evals := [], [AllFail(n)];
    } else {
      var done', evals' := CanLose(recovery[1..], n);
      done := [RecheckResult] + done';
      evals := if recovery[0] then [AllFail(n)] + evals' else evals';
      assert done[1..] == done' && (recovery[0] ==> evals[1..] == evals');
    }
  }

  lemma LossFacts(
    mc: MonitorConfig, m: Id, r: Record, at: nat, done: seq<ActionResult>, post: Evaluation, reasons: seq<string>)
    ensures var e := ApplyOutcome(mc, m, r, at, at, done, false, post, reasons);
      && e.rec.recoveryFailures == r.recoveryFailures + 1 && e.rec.streak == r.streak
      && e.rec.cooldownUntil == Some(Secs(at + mc.cooldown))
  {
  }

  /** One automatic recovery that is due, and fails. */
  lemma LosesOnce(cfg: Config, s: Sys, v: Mover) returns (run: seq<Label>, s': Sys)
    requires Free(cfg, s, v.monitor, v.at) && v.op !in s.ops && cfg.monitors[v.monitor].checks > 0
    requires Due(cfg.monitors[v.monitor], s.recs[v.monitor], v.at)
    ensures Runs(cfg, s, run, s') && Free(cfg, s', v.monitor, v.at)
    ensures NeverForced(s, v.monitor) ==> NeverForced(s', v.monitor)
    ensures s'.recs[v.monitor].recoveryFailures == s.recs[v.monitor].recoveryFailures + 1
    ensures s'.recs[v.monitor].cooldownUntil.Some?
  {
    hide Reaches, Runs, FailureReasons, StartRecovery, ApplyOutcome, Next, Due, Recovers, Enabled;
    var mc := cfg.monitors[v.monitor];
    var results := AllFail(mc.checks);
    var st := ReachesStarting(cfg, s, v);
    var s1 := Next(cfg, s, Call(v.op, v.monitor, Cycle));
    Starts(cfg, s1, v, st, Degraded, results, FailureReasons(results));
    var e := StartRecovery(mc, v.monitor, st.rec, Degraded, v.at, results, FailureReasons(results));
    StartFacts(mc, v.monitor, st.rec, Degraded, v.at, results, FailureReasons(results));
    var st1 := Story(e.rec, st.op, st.events + e.events);
    var done, evals := CanLose(mc.recovery, mc.checks);
    var verdict := Verdict(false, results, FailureReasons(results));
    assert mc.recovery[0..] == mc.recovery && [] + done == done;
    ReachesVerdict(cfg, s1, v, st1, Degraded, v.at, [], done, evals, verdict);
    Loses(cfg, s1, v, st1, Degraded, v.at, done, results, FailureReasons(results));
    LossFacts(mc, v.monitor, e.rec, v.at, done, results, FailureReasons(results));
    var f := ApplyOutcome(mc, v.monitor, e.rec, v.at, v.at, done, false, results, FailureReasons(results));
    run, s' := CallRuns(cfg, s, v, Cycle, Story(f.rec, st.op.(pc := Finished(RecoveryLost)), st1.events + f.events));
    CallTotal(cfg, s, v, Cycle);
  }

  /** The first second after the cooldown, or now. */
  function Soonest(until: Option<nat>, at: nat): (t: nat)
    ensures t >= at && !CooldownActive(until, t)
  {
    if until.Some? && until.value * NS > at then until.value * NS else at
  }

  lemma {:induction false} LosesTimes(cfg: Config, s: Sys, m: Id, at: nat, times: nat)
    returns (run: seq<Label>, s': Sys)
    requires Free(cfg, s, m, at) && cfg.monitors[m].checks > 0 && NeverForced(s, m)
    requires s.recs[m].recoveryFailures + times <= cfg.monitors[m].maxAttempts
    ensures Runs(cfg, s, run, s') && NeverForced(s', m) && m in s'.recs
    ensures s'.recs[m].recoveryFailures == s.recs[m].recoveryFailures + times
    decreases times
  {
    if times == 0 {
      run, s' := [], s;
    } else {
      hide Runs, NeverForced, Due, CooldownActive;
      var t := Soonest(s.recs[m].cooldownUntil, at);
      var a, s1 := BuildStreak(cfg, s, m, t);
      var o := Unused(s1.ops.Keys);
      var b, s2 := LosesOnce(cfg, s1, Mover(o, m, t));
      RunsThen(cfg, s, a, s1, b, s2);
      var c, s3 := LosesTimes(cfg, s2, m, t, times - 1);
      RunsThen(cfg, s, a + b, s2, c, s3);
      run, s' := a + b + c, s3;
    }
  }

  /** The cap is attained: whatever the actions, some run from a first start has exactly
      max_recovery_attempts failed automatic recoveries. */
  lemma CapIsAttained(cfg: Config, now: nat, m: Id)
    requires m in cfg.monitors && cfg.monitors[m].enabled && cfg.monitors[m].checks > 0
    requires cfg.monitors[m].maxAttempts > 0
    ensures exists run ::
              && IsRun(cfg, Fresh(cfg, now), run) && Crash !in run
              && AutomaticFailures(cfg, Fresh(cfg, now), run, m) == cfg.monitors[m].maxAttempts
  {
    FreshIsFree(cfg, now, m, now);
    hide Fresh, Free, Exec, IsRun;
    var s0 := Fresh(cfg, now);
    var run, s := LosesTimes(cfg, s0, m, now, cfg.monitors[m].maxAttempts);
    EveryFailureCounts(cfg, now, run, m);
  }
}
