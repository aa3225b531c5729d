/**
 executeRecovery against a specification that does not mention steps: what a list
 of configured actions comes to, given how the actions and the evaluations turn
 out. Every recovery that reaches its outcome, in whatever run, comes to what the
 specification says, and every case of the specification is reached by the code.
 */
module RecoverySpec {
  import opened MonitorRecord
  import opened RecoveryMachine
  import opened System
  import opened Locking
  import opened Lifting
  import opened Accounting
  import opened WriteAhead
  import opened Serial
  import opened Solo
  import opened Paths

  type Evaluation = seq<CheckResult>

  datatype Verdict = Verdict(recovered: bool, post: Evaluation, reasons: seq<string>)

  /** The actions `recovery` (true for a recheck), of which `done` were executed with
      these results while the evaluations gave `evals`, come to verdict v: the first
      failing action that is no recheck ends it, so does the first recheck that finds
      no failure, and otherwise a last evaluation decides. */
  predicate Recovers(recovery: seq<bool>, done: seq<ActionResult>, evals: seq<Evaluation>, v: Verdict) {
    if recovery == [] then
      && done == [] && |evals| == 1
      && v == Verdict(FailureReasons(evals[0]) == [], evals[0], FailureReasons(evals[0]))
    else if done == [] then false
    else if recovery[0] then
      && done[0] == RecheckResult && evals != []
      && if FailureReasons(evals[0]) == []
         then |done| == |evals| == 1 && v == Verdict(true, evals[0], [])
         else Recovers(recovery[1..], done[1..], evals[1..], v)
    else if done[0].success then Recovers(recovery[1..], done[1..], evals, v)
    else |done| == 1 && evals == [] && v == Verdict(false, [], [done[0].message])
  }

  /** `done` and `evals` decide nothing yet. */
  predicate Undecided(recovery: seq<bool>, done: seq<ActionResult>, evals: seq<Evaluation>) {
    if done == [] then evals == []
    else if recovery == [] then false
    else if recovery[0] then
      done[0] == RecheckResult && evals != [] && FailureReasons(evals[0]) != []
      && Undecided(recovery[1..], done[1..], evals[1..])
    else done[0].success && Undecided(recovery[1..], done[1..], evals)
  }

  /** Every evaluation has the result of each configured check. */
  predicate Complete(mc: MonitorConfig, evals: seq<Evaluation>) {
    forall k | 0 <= k < |evals| :: |evals[k]| == mc.checks
  }

  /** What an undecided part comes to with the rest. */
  lemma {:induction false} Decide(
    recovery: seq<bool>, done: seq<ActionResult>, evals: seq<Evaluation>,
    more: seq<ActionResult>, moreEvals: seq<Evaluation>, v: Verdict)
    requires Undecided(recovery, done, evals) && |done| <= |recovery|
    requires Recovers(recovery[|done|..], more, moreEvals, v)
    ensures Recovers(recovery, done + more, evals + moreEvals, v)
  {
    if done == [] {
      assert done + more == more && evals + moreEvals == moreEvals && recovery[|done|..] == recovery;
    } else {
      var rest := if recovery[0] then evals[1..] else evals;
      assert recovery[1..][|done[1..]|..] == recovery[|done|..];
      Decide(recovery[1..], done[1..], rest, more, moreEvals, v);
      assert (done + more)[1..] == done[1..] + more;
      if recovery[0] { assert (evals + moreEvals)[1..] == evals[1..] + moreEvals; }
    }
  }

  /** One more action that decides nothing. */
  lemma {:induction false} StayUndecided(
    recovery: seq<bool>, done: seq<ActionResult>, evals: seq<Evaluation>, result: ActionResult,
    moreEvals: seq<Evaluation>)
    requires Undecided(recovery, done, evals) && |done| < |recovery|
    requires if recovery[|done|] then result == RecheckResult && |moreEvals| == 1 && FailureReasons(moreEvals[0]) != []
             else result.success && moreEvals == []
    ensures Undecided(recovery, done + [result], evals + moreEvals)
  {
    if done == [] {
      assert done + [result] == [result] && evals + moreEvals == moreEvals;
      assert Undecided(recovery[1..], [], []);
      assert [result][1..] == [];
      if recovery[0] { assert moreEvals[1..] == []; }
    } else {
      var rest := if recovery[0] then evals[1..] else evals;
      StayUndecided(recovery[1..], done[1..], rest, result, moreEvals);
      assert (done + [result])[1..] == done[1..] + [result];
      if recovery[0] { assert (evals + moreEvals)[1..] == evals[1..] + moreEvals; }
    }
  }

  // ---- soundness: what a run reaches, the specification allows

  ghost predicate SoFar(mc: MonitorConfig, done: seq<ActionResult>) {
    exists evals: seq<Evaluation> :: Undecided(mc.recovery, done, evals) && Complete(mc, evals)
  }

  ghost predicate CameTo(mc: MonitorConfig, done: seq<ActionResult>, v: Verdict) {
    exists evals: seq<Evaluation> :: Recovers(mc.recovery, done, evals, v) && Complete(mc, evals)
  }

  ghost predicate SiteFollows(mc: MonitorConfig, site: Site) {
    match site
    case AtRecheck(_, _, done) =>
      && 0 < |done| <= |mc.recovery| && mc.recovery[|done| - 1]
      && done[|done| - 1] == RecheckResult && SoFar(mc, done[..|done| - 1])
    case AtFinal(_, _, done) => |done| == |mc.recovery| && SoFar(mc, done)
    case _ => true
  }

  ghost predicate Follows(mc: MonitorConfig, op: Op) {
    match op.pc
    case Evaluating(site, results) => SiteFollows(mc, site) && |results| <= mc.checks
    case Evaluated(site, results, _) => SiteFollows(mc, site) && (op.cancelled || |results| == mc.checks)
    case Acting(_, _, done) => |done| <= |mc.recovery| && SoFar(mc, done)
    case Acted(_, _, done, recheck, result) =>
      |done| < |mc.recovery| && SoFar(mc, done) && recheck == mc.recovery[|done|]
        && (recheck ==> result == RecheckResult)
    case Closing(_, _, done, recovered, post, reasons) => CameTo(mc, done, Verdict(recovered, post, reasons))
    case _ => true
  }

  lemma NothingYet(mc: MonitorConfig)
    ensures SoFar(mc, [])
  {
    assert Undecided(mc.recovery, [], []);
    assert Complete(mc, []);
  }

  /** An evaluation after the last action, or after a recheck, with its result. */
  lemma LastEvaluation(mc: MonitorConfig, done: seq<ActionResult>, results: Evaluation)
    requires |done| == |mc.recovery| && SoFar(mc, done) && |results| == mc.checks
    ensures CameTo(mc, done, Verdict(FailureReasons(results) == [], results, FailureReasons(results)))
  {
    var evals :| Undecided(mc.recovery, done, evals) && Complete(mc, evals);
    var v := Verdict(FailureReasons(results) == [], results, FailureReasons(results));
    assert mc.recovery[|done|..] == [];
    Decide(mc.recovery, done, evals, [], [results], v);
    assert done + [] == done;
    assert Complete(mc, evals + [results]);
  }

  lemma RecheckPassed(mc: MonitorConfig, done: seq<ActionResult>, results: Evaluation)
    requires |done| < |mc.recovery| && mc.recovery[|done|] && SoFar(mc, done)
    requires |results| == mc.checks && FailureReasons(results) == []
    ensures CameTo(mc, done + [RecheckResult], Verdict(true, results, []))
  {
    var evals :| Undecided(mc.recovery, done, evals) && Complete(mc, evals);
    Decide(mc.recovery, done, evals, [RecheckResult], [results], Verdict(true, results, []));
    assert Complete(mc, evals + [results]);
  }

  lemma RecheckFailed(mc: MonitorConfig, done: seq<ActionResult>, results: Evaluation)
    requires |done| < |mc.recovery| && mc.recovery[|done|] && SoFar(mc, done)
    requires |results| == mc.checks && FailureReasons(results) != []
    ensures SoFar(mc, done + [RecheckResult])
  {
    var evals :| Undecided(mc.recovery, done, evals) && Complete(mc, evals);
    StayUndecided(mc.recovery, done, evals, RecheckResult, [results]);
    assert Complete(mc, evals + [results]);
  }

  lemma ActionFailed(mc: MonitorConfig, done: seq<ActionResult>, result: ActionResult)
    requires |done| < |mc.recovery| && !mc.recovery[|done|] && SoFar(mc, done) && !result.success
    ensures CameTo(mc, done + [result], Verdict(false, [], [result.message]))
  {
    var evals :| Undecided(mc.recovery, done, evals) && Complete(mc, evals);
    Decide(mc.recovery, done, evals, [result], [], Verdict(false, [], [result.message]));
    assert evals + [] == evals;
  }

  lemma ActionSucceeded(mc: MonitorConfig, done: seq<ActionResult>, result: ActionResult)
    requires |done| < |mc.recovery| && !mc.recovery[|done|] && SoFar(mc, done) && result.success
    ensures SoFar(mc, done + [result])
  {
    var evals :| Undecided(mc.recovery, done, evals) && Complete(mc, evals);
    StayUndecided(mc.recovery, done, evals, result, []);
    assert evals + [] == evals;
  }

  lemma AdvanceFollows(mc: MonitorConfig, r: Record, op: Op, inp: Input)
    requires inp.t <= inp.t2 && Follows(mc, op)
    ensures Follows(mc, op.(pc := Advance(mc, r, op, inp).pc))
  {
    hide SoFar, CameTo, FailureReasons, ApplyOutcome, MarkExhausted;
    match op.pc {
      case Starting(_, _, _) => NothingYet(mc);
      case Acted(_, _, done, recheck, result) =>
        assert (done + [result])[..|done|] == done;
        if !recheck {
          if result.success { ActionSucceeded(mc, done, result); } else { ActionFailed(mc, done, result); }
        }
      case Evaluated(AtRecheck(_, _, done), results, _) =>
        if !op.cancelled {
          var before := done[..|done| - 1];
          assert before + [RecheckResult] == done;
          if FailureReasons(results) == [] {
            RecheckPassed(mc, before, results);
          } else {
            RecheckFailed(mc, before, results);
          }
        }
      case Evaluated(AtFinal(_, _, done), results, _) =>
        if !op.cancelled { LastEvaluation(mc, done, results); }
      case _ =>
    }
  }

  ghost function FollowsIn(cfg: Config): FlightProperty {
    (m, r, op) => m in cfg.monitors ==> Follows(cfg.monitors[m], op)
  }

  lemma FollowsShape(cfg: Config)
    ensures OnlyHolders(FollowsIn(cfg))
    ensures forall m: Id, r: Record, op: Op :: FollowsIn(cfg)(m, r, op) ==> FollowsIn(cfg)(m, r, op.(cancelled := true))
  {
  }

  lemma FollowsStep(cfg: Config, s: Sys, l: Label)
    requires Disciplined(cfg, s) && Enabled(cfg, s, l) && EveryFlight(s, FollowsIn(cfg))
    ensures EveryFlight(Next(cfg, s, l), FollowsIn(cfg))
  {
    hide Follows, Install, Disciplined;
    FollowsShape(cfg);
    if l.Step? {
      var op := s.ops[l.op];
      assert Flight(s, FollowsIn(cfg), l.op);
      AdvanceFollows(cfg.monitors[op.monitor], s.recs[op.monitor], op, l.inp);
      AdvanceHolds(cfg.monitors[op.monitor], s.recs[op.monitor], op, l.inp);
      InstallFlights(cfg, s, l.op, l.inp, Moved(cfg, s, l.op, l.inp), FollowsIn(cfg));
    } else {
      SideFlights(cfg, s, l, FollowsIn(cfg));
    }
  }

  lemma {:induction false} FollowsAlways(cfg: Config, now: nat, run: seq<Label>)
    ensures EveryFlight(Exec(cfg, Blank(now), run), FollowsIn(cfg))
  {
    hide Next, FollowsIn;
    if run != [] {
      var n := |run| - 1;
      FollowsAlways(cfg, now, run[..n]);
      Reachable(cfg, now, run[..n]);
      if Enabled(cfg, Exec(cfg, Blank(now), run[..n]), run[n]) {
        FollowsStep(cfg, Exec(cfg, Blank(now), run[..n]), run[n]);
      }
    }
  }

  /** In every run, an operation that hands an outcome to applyRecoveryOutcomeLocked
      executed the actions, and came to the verdict, that the specification gives
      for some complete evaluations. */
  lemma OutcomesFollowTheSpecification(cfg: Config, now: nat, run: seq<Label>, o: OpId)
    requires var s := Exec(cfg, Blank(now), run); o in s.ops && s.ops[o].pc.Closing? && s.ops[o].monitor in cfg.monitors
    ensures var op := Exec(cfg, Blank(now), run).ops[o]; var mc := cfg.monitors[op.monitor];
      exists evals: seq<Evaluation> ::
        && Recovers(mc.recovery, op.pc.done, evals, Verdict(op.pc.recovered, op.pc.post, op.pc.reasons))
        && Complete(mc, evals)
  {
    hide Exec, Recovers, Complete;
    FollowsAlways(cfg, now, run);
    assert Flight(Exec(cfg, Blank(now), run), FollowsIn(cfg), o);
  }

  /** Recovered means that the evaluation after the last executed action found no
      failure; every earlier one found some, and only the last action may have
      failed without being a recheck. */
  lemma {:induction false} RecoveredMeansChecked(
    recovery: seq<bool>, done: seq<ActionResult>, evals: seq<Evaluation>, v: Verdict)
    requires Recovers(recovery, done, evals, v)
    ensures |done| <= |recovery|
    ensures v.recovered <==> evals != [] && v.post == evals[|evals| - 1] && FailureReasons(v.post) == []
    ensures forall k | 0 <= k < |evals| - 1 :: FailureReasons(evals[k]) != []
    ensures forall k | 0 <= k < |done| - 1 :: recovery[k] || done[k].success
  {
    if recovery != [] {
      if recovery[0] {
        if FailureReasons(evals[0]) != [] {
          RecoveredMeansChecked(recovery[1..], done[1..], evals[1..], v);
        }
      } else if done[0].success {
        RecoveredMeansChecked(recovery[1..], done[1..], evals, v);
      }
    }
    forall k | 0 <= k < |done| - 1 ensures recovery[k] || done[k].success {
      if k > 0 { assert recovery[1..][k - 1] == recovery[k] && done[1..][k - 1] == done[k]; }
    }
  }

  // ---- completeness: what the specification allows, the code reaches

  lemma ReachesLastVerdict(
    cfg: Config, s: Sys, v: Mover, st: Story, before: Status, since: nat, done: seq<ActionResult>, results: Evaluation)
    requires Ready(cfg, v, st) && !st.op.cancelled && |done| == |cfg.monitors[v.monitor].recovery|
    requires Reaches(cfg, s, v, Put(st, Acting(before, since, done))) && |results| == cfg.monitors[v.monitor].checks
    ensures Reaches(cfg, s, v,
      Put(st, Closing(before, since, done, FailureReasons(results) == [], results, FailureReasons(results))))
  {
    hide Reaches, FailureReasons;
    var site := AtFinal(before, since, done);
    Goes(cfg, s, v, Put(st, Acting(before, since, done)), Quietly(v), Evaluating(site, []));
    Evaluates(cfg, s, v, st, site, results);
    Goes(cfg, s, v, Put(st, Evaluated(site, results, v.at)), Quietly(v),
         Closing(before, since, done, FailureReasons(results) == [], results, FailureReasons(results)));
  }

  function AfterRecheck(before: Status, since: nat, all: seq<ActionResult>, results: Evaluation): PC {
    if FailureReasons(results) == [] then Closing(before, since, all, true, results, []) else Acting(before, since, all)
  }

  lemma ReachesRechecked(
    cfg: Config, s: Sys, v: Mover, st: Story, before: Status, since: nat, done: seq<ActionResult>, results: Evaluation)
    requires Ready(cfg, v, st) && !st.op.cancelled && |results| == cfg.monitors[v.monitor].checks
    requires |done| < |cfg.monitors[v.monitor].recovery| && cfg.monitors[v.monitor].recovery[|done|]
    requires Reaches(cfg, s, v, Put(st, Acting(before, since, done)))
    ensures Reaches(cfg, s, v, Put(st, AfterRecheck(before, since, done + [RecheckResult], results)))
  {
    hide Reaches, FailureReasons;
    var all := done + [RecheckResult];
    var site := AtRecheck(before, since, all);
    Acts(cfg, s, v, st, before, since, done, RecheckResult);
    Evaluates(cfg, s, v, st, site, results);
    Goes(cfg, s, v, Put(st, Evaluated(site, results, v.at)), Quietly(v), AfterRecheck(before, since, all, results));
  }

  /** Whatever the specification allows after `previous`, the code reaches from there. */
  lemma {:induction false} ReachesVerdict(
    cfg: Config, s: Sys, v: Mover, st: Story, before: Status, since: nat, previous: seq<ActionResult>,
    done: seq<ActionResult>, evals: seq<Evaluation>, verdict: Verdict)
    requires Ready(cfg, v, st) && !st.op.cancelled && |previous| <= |cfg.monitors[v.monitor].recovery|
    requires Recovers(cfg.monitors[v.monitor].recovery[|previous|..], done, evals, verdict)
    requires Complete(cfg.monitors[v.monitor], evals) && Reaches(cfg, s, v, Put(st, Acting(before, since, previous)))
    ensures Reaches(cfg, s, v,
                    Put(st, Closing(before, since, previous + done, verdict.recovered, verdict.post, verdict.reasons)))
    decreases |cfg.monitors[v.monitor].recovery| - |previous|
  {
    hide Reaches, FailureReasons;
    var rest := cfg.monitors[v.monitor].recovery[|previous|..];
    if rest == [] {
      assert previous + done == previous;
      ReachesLastVerdict(cfg, s, v, st, before, since, previous, evals[0]);
    } else {
      var all := previous + [done[0]];
      assert rest[1..] == cfg.monitors[v.monitor].recovery[|all|..];
      assert all + done[1..] == previous + done;
      if rest[0] {
        ReachesRechecked(cfg, s, v, st, before, since, previous, evals[0]);
        if FailureReasons(evals[0]) == [] {
          assert previous + done == all;
        } else {
          ReachesVerdict(cfg, s, v, st, before, since, all, done[1..], evals[1..], verdict);
        }
      } else {
        Acts(cfg, s, v, st, before, since, previous, done[0]);
        if done[0].success {
          ReachesVerdict(cfg, s, v, st, before, since, all, done[1..], evals, verdict);
        } else {
          assert previous + done == all;
        }
      }
    }
  }

  /** Any complete evaluation will do before a manual recovery. */
  function SomeResults(n: nat): (results: Evaluation)
    ensures |results| == n
  {
    seq(n, _ => CheckResult(true, ""))
  }

  /** Conversely, from every state of the process in which the monitor is free, a manual
      recovery that is called next can come to each outcome the specification allows. */
  lemma EveryVerdictIsReached(
    cfg: Config, s: Sys, v: Mover, done: seq<ActionResult>, evals: seq<Evaluation>, verdict: Verdict)
    requires s.up && s.now <= v.at && v.op !in s.ops && v.monitor in s.recs && v.monitor !in s.slots
    requires v.monitor in cfg.monitors && cfg.monitors[v.monitor].enabled
    requires Recovers(cfg.monitors[v.monitor].recovery, done, evals, verdict)
      && Complete(cfg.monitors[v.monitor], evals)
    ensures exists run: seq<Label> ::
              && IsRun(cfg, s, run) && Crash !in run && run != [] && run[0] == Call(v.op, v.monitor, Forced)
              && Outcome(cfg, Exec(cfg, s, run), v, done, verdict)
  {
    hide Reaches, FailureReasons, StartRecovery, Shows, Exec, IsRun, Next;
    var mc := cfg.monitors[v.monitor];
    var r := s.recs[v.monitor];
    var l := Call(v.op, v.monitor, Forced);
    Calls(cfg, s, v, Forced);
    var s1 := Next(cfg, s, l);
    var st := Story(r, NewOp(v.monitor, Forced), []);
    EntersForced(cfg, s1, v, st);
    var results := SomeResults(mc.checks);
    StartsForced(cfg, s1, v, st, results);
    var before := if r.status.Unset? then Unknown else r.status;
    var e := StartRecovery(mc, v.monitor, r, before, v.at, results, FailureReasons(results) + [ManualReason]);
    var st1 := Story(e.rec, st.op, st.events + e.events);
    assert mc.recovery[0..] == mc.recovery && [] + done == done;
    ReachesVerdict(cfg, s1, v, st1, before, v.at, [], done, evals, verdict);
    var end := Put(st1, Closing(before, v.at, done, verdict.recovered, verdict.post, verdict.reasons));
    var run, s2 := CallRuns(cfg, s, v, Forced, end);
    ShowsOutcome(cfg, s1, s2, v, end, done, verdict);
  }

  /** The operation hands this outcome to applyRecoveryOutcomeLocked. */
  ghost predicate Outcome(cfg: Config, s: Sys, v: Mover, done: seq<ActionResult>, verdict: Verdict) {
    && v.op in s.ops && s.ops[v.op].monitor == v.monitor && s.ops[v.op].pc.Closing? && !s.ops[v.op].cancelled
    && s.ops[v.op].pc.done == done
    && verdict == Verdict(s.ops[v.op].pc.recovered, s.ops[v.op].pc.post, s.ops[v.op].pc.reasons)
  }

  lemma ShowsOutcome(cfg: Config, s1: Sys, s2: Sys, v: Mover, st: Story, done: seq<ActionResult>, verdict: Verdict)
    requires Shows(s1, s2, v, st) && st.op.monitor == v.monitor && st.op.pc.Closing? && !st.op.cancelled
    requires st.op.pc.done == done && verdict == Verdict(st.op.pc.recovered, st.op.pc.post, st.op.pc.reasons)
    ensures Outcome(cfg, s2, v, done, verdict)
  {
  }
}
