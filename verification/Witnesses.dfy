/**
 Runs the code really has. The first shows that exhaustion can be announced twice;
 the second says to the nanosecond how soon one automatic recovery may follow another.
 */
module Witnesses {
  import opened Wrappers
  import opened MonitorRecord
  import opened RecoveryMachine
  import opened System
  import opened Locking
  import opened Lifting
  import opened Accounting
  import opened WriteAhead
  import opened Cooldown
  import opened RecoveryCap
  import opened EventGrammar
  import opened Exhaustion
  import opened Serial
  import opened Solo
  import opened Paths

  /** The monitor is enabled and its slot is free. */
  ghost predicate Free(cfg: Config, s: Sys, m: Id, at: nat) {
    && s.up && s.now <= at && m in s.recs && m !in s.slots
    && m in cfg.monitors && cfg.monitors[m].enabled
  }

  lemma {:induction false} Unused(ids: set<OpId>) returns (o: OpId)
    ensures o !in ids && forall k | k in ids :: k < o
    decreases |ids|
  {
    if ids == {} {
      o := 0;
    } else {
      var k :| k in ids;
      var o' := Unused(ids - {k});
      o := if o' <= k then k + 1 else o';
      assert forall j | j in ids :: j == k || j in ids - {k};
    }
  }

  /** Results in which every check fails. */
  function AllFail(n: nat): (results: seq<CheckResult>)
    ensures |results| == n
  {
    seq(n, _ => CheckResult(false, "down"))
  }

  lemma AllFailReasons(n: nat)
    requires n > 0
    ensures FailureReasons(AllFail(n)) != []
  {
    FailureReasonsEmpty(AllFail(n));
    assert !AllFail(n)[0].success;
  }

  const Lost := ActionResult(false, "exit 1")

  lemma FreshIsFree(cfg: Config, now: nat, m: Id, at: nat)
    requires m in cfg.monitors && cfg.monitors[m].enabled && now <= at
    ensures Free(cfg, Fresh(cfg, now), m, at) && Fresh(cfg, now).recs[m] == FreshRecord
    ensures Fresh(cfg, now).ops == map[] && Fresh(cfg, now).total == []
  {
  }

  // ---- exhaustion announced twice

  lemma KindsOfOwn(s: Sys, s': Sys, m: Id, events: seq<Event>)
    requires s'.total == s.total + events && forall k | 0 <= k < |events| :: events[k].monitor == m
    ensures Project(s'.total, m) == Project(s.total, m) + Kinds(events)
  {
    ProjectAppend(s.total, events, m);
    ProjectOf(events, m, m);
  }

  /** The outcome of a recovery whose first action failed, when no attempt is left. */
  function Loss(mc: MonitorConfig, m: Id, r: Record, at: nat): Effect {
    ApplyOutcome(mc, m, r, at, at, [Lost], false, [], [Lost.message])
  }

  lemma LossExhausts(mc: MonitorConfig, m: Id, r: Record, at: nat)
    requires mc.maxAttempts > 0 && r.recoveryFailures + 1 >= mc.maxAttempts
    ensures var e := Loss(mc, m, r, at);
      && e.rec.exhausted && e.rec.recoveryFailures == r.recoveryFailures + 1
      && |e.events| == 2 && e.events[0].kind == RecoveryFailed && e.events[1].kind == RecoveryExhausted
      && e.events[0].monitor == m && e.events[1].monitor == m
  {
  }

  /** From the saved start of a recovery through its failing first action to the end. */
  lemma RunsIntoLoss(cfg: Config, s: Sys, v: Mover, st: Story, before: Status)
    requires Ready(cfg, v, st) && !st.op.cancelled
    requires cfg.monitors[v.monitor].recovery != [] && !cfg.monitors[v.monitor].recovery[0]
    requires Reaches(cfg, s, v, Put(st, Acting(before, v.at, [])))
    ensures var e := Loss(cfg.monitors[v.monitor], v.monitor, st.rec, v.at);
      Reaches(cfg, s, v, Story(e.rec, st.op.(pc := Finished(RecoveryLost)), st.events + e.events))
  {
    hide Reaches, ApplyOutcome;
    Acts(cfg, s, v, st, before, v.at, [], Lost);
    assert [] + [Lost] == [Lost];
    Loses(cfg, s, v, st, before, v.at, [Lost], [], [Lost.message]);
  }

  /** A manual recovery that fails and uses up the last attempt, again or not. */
  lemma ForcedLoss(cfg: Config, s: Sys, v: Mover) returns (run: seq<Label>, s': Sys)
    requires Free(cfg, s, v.monitor, v.at) && v.op !in s.ops
    requires var mc := cfg.monitors[v.monitor];
      mc.recovery != [] && !mc.recovery[0]
      && mc.maxAttempts > 0 && s.recs[v.monitor].recoveryFailures + 1 >= mc.maxAttempts
    ensures Runs(cfg, s, run, s')
    ensures Project(s'.total, v.monitor)
      == Project(s.total, v.monitor) + [RecoveryStarted, RecoveryFailed, RecoveryExhausted]
  {
    hide Reaches, Runs, FailureReasons, StartRecovery, ApplyOutcome, Next;
    var mc, r := cfg.monitors[v.monitor], s.recs[v.monitor];
    Calls(cfg, s, v, Forced);
    var s1 := Next(cfg, s, Call(v.op, v.monitor, Forced));
    var st := Story(r, NewOp(v.monitor, Forced), []);
    EntersForced(cfg, s1, v, st);
    var results := AllFail(mc.checks);
    StartsForced(cfg, s1, v, st, results);
    var before := if r.status.Unset? then Unknown else r.status;
    var e := StartRecovery(mc, v.monitor, r, before, v.at, results, FailureReasons(results) + [ManualReason]);
    StartFacts(mc, v.monitor, r, before, v.at, results, FailureReasons(results) + [ManualReason]);
    var st1 := Story(e.rec, st.op, st.events + e.events);
    RunsIntoLoss(cfg, s1, v, st1, before);
    LossExhausts(mc, v.monitor, e.rec, v.at);
    var f := Loss(mc, v.monitor, e.rec, v.at);
    run, s' := CallRuns(cfg, s, v, Forced, Story(f.rec, st.op.(pc := Finished(RecoveryLost)), st1.events + f.events));
    CallTotal(cfg, s, v, Forced);
    KindsOfOwn(s, s', v.monitor, st1.events + f.events);
    assert Kinds(st1.events + f.events) == [RecoveryStarted, RecoveryFailed, RecoveryExhausted];
  }

  lemma StartFacts(
    mc: MonitorConfig, m: Id, r: Record, before: Status, at: nat, results: seq<CheckResult>, reasons: seq<string>)
    ensures var e := StartRecovery(mc, m, r, before, at, results, reasons);
      && e.rec == r.(status := Recovering, lastRecoveryAttemptAt := Some(Secs(at)),
        cooldownUntil := Some(Secs(at + mc.cooldown)))
      && |e.events| == 1 && e.events[0].kind == RecoveryStarted && e.events[0].monitor == m
  {
  }

  lemma CallTotal(cfg: Config, s: Sys, v: Mover, kind: Kind)
    requires Enabled(cfg, s, Call(v.op, v.monitor, kind))
    ensures var s1 := Next(cfg, s, Call(v.op, v.monitor, kind));
      s1.total == s.total && s1.recs == s.recs && s1.ops == s.ops[v.op := NewOp(v.monitor, kind)] && s1.slots == s.slots
  {
  }

  /** What one failed check does to a record. */
  lemma FailFacts(mc: MonitorConfig, v: Mover, r: Record, results: seq<CheckResult>)
    ensures var e := FailedCheck(mc, v, r, results);
      && e.rec.streak == r.streak + 1 && e.rec.cooldownUntil == r.cooldownUntil
      && e.rec.recoveryFailures == r.recoveryFailures && e.rec.exhausted == r.exhausted
      && |e.events| == 1 && e.events[0].kind == CheckFailed && e.events[0].monitor == v.monitor
  {
    hide FailureReasons;
  }

  /** An automatic recovery is due with the next failed check. */
  predicate Due(mc: MonitorConfig, r: Record, at: nat) {
    && r.streak + 1 >= mc.threshold && (r.cooldownUntil.None? || r.cooldownUntil.value * NS <= at)
    && (mc.maxAttempts == 0 || r.recoveryFailures < mc.maxAttempts)
  }

  /** The failed check of a cycle that goes on to recovery, up to its start. */
  lemma ReachesStarting(cfg: Config, s: Sys, v: Mover) returns (st: Story)
    requires Free(cfg, s, v.monitor, v.at) && v.op !in s.ops && cfg.monitors[v.monitor].checks > 0
    requires Due(cfg.monitors[v.monitor], s.recs[v.monitor], v.at)
    ensures var mc := cfg.monitors[v.monitor]; var results := AllFail(mc.checks);
      && CallReaches(cfg, s, v, Cycle, Put(st, Starting(Degraded, results, FailureReasons(results))))
      && st.op == NewOp(v.monitor, Cycle).(pc := st.op.pc) && !st.op.pc.Finished?
      && st.rec.streak == s.recs[v.monitor].streak + 1
      && st.rec.recoveryFailures == s.recs[v.monitor].recoveryFailures
      && Kinds(st.events) == [CheckFailed] && Own(st.events, v.monitor)
  {
    hide Reaches, FailureReasons, FailedCheck, Next, Enabled;
    var mc, r := cfg.monitors[v.monitor], s.recs[v.monitor];
    Calls(cfg, s, v, Cycle);
    var s1 := Next(cfg, s, Call(v.op, v.monitor, Cycle));
    var st0 := Story(r, NewOp(v.monitor, Cycle), []);
    var results := AllFail(mc.checks);
    AllFailReasons(mc.checks);
    FailsCheck(cfg, s1, v, st0, results);
    FailFacts(mc, v, r, results);
    var e := FailedCheck(mc, v, r, results);
    st := Story(e.rec, st0.op, st0.events + e.events);
    StartsAutomatically(cfg, s1, v, st, results);
  }

  /** An automatic recovery from a state without one, failing, with one attempt allowed. */
  lemma AutomaticLoss(cfg: Config, s: Sys, v: Mover) returns (run: seq<Label>, s': Sys)
    requires Free(cfg, s, v.monitor, v.at) && v.op !in s.ops && cfg.monitors[v.monitor].checks > 0
    requires var mc := cfg.monitors[v.monitor];
      mc.recovery != [] && !mc.recovery[0] && Due(mc, s.recs[v.monitor], v.at)
      && mc.maxAttempts > 0 && s.recs[v.monitor].recoveryFailures + 1 >= mc.maxAttempts
    ensures Runs(cfg, s, run, s') && Free(cfg, s', v.monitor, v.at) && s'.ops.Keys == s.ops.Keys + {v.op}
    ensures s'.recs[v.monitor].recoveryFailures == s.recs[v.monitor].recoveryFailures + 1
    ensures Project(s'.total, v.monitor)
         == Project(s.total, v.monitor) + [CheckFailed, RecoveryStarted, RecoveryFailed, RecoveryExhausted]
  {
    hide Reaches, Runs, FailureReasons, StartRecovery, ApplyOutcome, Next, Due;
    var mc := cfg.monitors[v.monitor];
    var results := AllFail(mc.checks);
    var st := ReachesStarting(cfg, s, v);
    var s1 := Next(cfg, s, Call(v.op, v.monitor, Cycle));
    Starts(cfg, s1, v, st, Degraded, results, FailureReasons(results));
    var e := StartRecovery(mc, v.monitor, st.rec, Degraded, v.at, results, FailureReasons(results));
    StartFacts(mc, v.monitor, st.rec, Degraded, v.at, results, FailureReasons(results));
    var st1 := Story(e.rec, st.op, st.events + e.events);
    RunsIntoLoss(cfg, s1, v, st1, Degraded);
    LossExhausts(mc, v.monitor, e.rec, v.at);
    var f := Loss(mc, v.monitor, e.rec, v.at);
    run, s' := CallRuns(cfg, s, v, Cycle, Story(f.rec, st.op.(pc := Finished(RecoveryLost)), st1.events + f.events));
    CallTotal(cfg, s, v, Cycle);
    KindsOfOwn(s, s', v.monitor, st1.events + f.events);
    KindsAppend(st.events, e.events);
    KindsAppend(st1.events, f.events);
    assert Kinds(e.events) == [RecoveryStarted] && Kinds(f.events) == [RecoveryFailed, RecoveryExhausted];
    assert [CheckFailed] + [RecoveryStarted] + [RecoveryFailed, RecoveryExhausted]
        == [CheckFailed, RecoveryStarted, RecoveryFailed, RecoveryExhausted];
  }

  const TWICE_ANNOUNCED := [
    CheckFailed, RecoveryStarted, RecoveryFailed, RecoveryExhausted, RecoveryStarted, RecoveryFailed, RecoveryExhausted]

  /** With one attempt allowed and a first action that can fail, some run from a fresh
      state announces exhaustion twice without a success in between: a check fails, its
      recovery fails, and a manual recovery fails. */
  lemma ExhaustionAnnouncedTwice(cfg: Config, now: nat, m: Id)
    requires m in cfg.monitors && cfg.monitors[m].enabled && cfg.monitors[m].checks > 0
    requires cfg.monitors[m].threshold <= 1 && cfg.monitors[m].maxAttempts == 1
    requires cfg.monitors[m].recovery != [] && !cfg.monitors[m].recovery[0]
    ensures exists run ::
              && IsRun(cfg, Fresh(cfg, now), run) && Crash !in run
              && Project(Exec(cfg, Fresh(cfg, now), run).total, m) == TWICE_ANNOUNCED
    ensures AnnouncedTwice(TWICE_ANNOUNCED)
  {
    hide Fresh, Free, Exec, IsRun, Project;
    FreshIsFree(cfg, now, m, now);
    var s0 := Fresh(cfg, now);
    FreshIsDue(cfg.monitors[m], now);
    FreeHas(cfg, s0, m, now);
    var a, s1 := AutomaticLoss(cfg, s0, Mover(0, m, now));
    FreeHas(cfg, s1, m, now);
    var b, s2 := ForcedLoss(cfg, s1, Mover(1, m, now));
    RunsThen(cfg, s0, a, s1, b, s2);
    assert Project([], m) == [] by { NothingProjected(m); }
    assert Project(s2.total, m) == TWICE_ANNOUNCED;
    assert AnnouncedTwiceAt(TWICE_ANNOUNCED, 3, 6);
  }

  lemma FreeHas(cfg: Config, s: Sys, m: Id, at: nat)
    requires Free(cfg, s, m, at)
    ensures m in s.recs && m in cfg.monitors
  {
  }

  lemma NothingProjected(m: Id)
    ensures Project([], m) == []
  {
  }

  lemma FreshIsDue(mc: MonitorConfig, at: nat)
    requires mc.threshold <= 1
    ensures Due(mc, FreshRecord, at)
  {
  }

  const EXAMPLE := Config(map["ma352" := MonitorConfig(true, 60 * NS, 300 * NS, 1, 1, 1, [false])], 1000)

  /** A concrete configuration in which it happens. */
  lemma ExhaustionAnnouncedTwiceExample()
    ensures exists run ::
              && IsRun(EXAMPLE, Fresh(EXAMPLE, 0), run) && Crash !in run
              && AnnouncedTwice(Project(Exec(EXAMPLE, Fresh(EXAMPLE, 0), run).total, "ma352"))
  {
    hide Fresh, Exec, IsRun, Project, AnnouncedTwice;
    ExhaustionAnnouncedTwice(EXAMPLE, 0, "ma352");
  }
}
