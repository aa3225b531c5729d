/**
 What holds of every record, in memory and on disk, in every reachable state:
 the counters add up, the status says what the counters say, a stored cooldown
 never lies further ahead than a cooldown, and a check is counted only with the
 results of all configured checks. Crashes and restarts keep it too.
 */
module Accounting {
  import opened Wrappers
  import opened MonitorRecord
  import opened RecoveryMachine
  import opened System
  import opened Locking

  /** What a resting status says about the counters. */
  predicate StatusSays(status: Status, r: Record) {
    match status
    case Healthy => r.streak == 0 && !r.exhausted && r.lastError == NoReason && r.lastFailureReasons == NoReason
    case Degraded => r.streak >= 1
    case Failed => r.recoveryFailures >= 1
    case _ => true
  }

  predicate RecordOk(mc: MonitorConfig, r: Record, now: nat) {
    && r.checkRuns == r.successes + r.failures
    && r.recoveryFailures <= r.recoveries
    && StatusSays(r.status, r)
    && (r.exhausted ==> 0 < mc.maxAttempts <= r.recoveryFailures)
    && (r.cooldownUntil.Some? ==> r.cooldownUntil.value <= Secs(now + mc.cooldown))
    && (r.lastCheckResults == [] || |r.lastCheckResults| == mc.checks)
    && (r.checkRuns > 0 ==> |r.lastCheckResults| == mc.checks)
  }

  /** An automatic recovery may be under way: the attempts are not used up. */
  predicate Permitted(mc: MonitorConfig, r: Record, op: Op, before: Status) {
    && StatusSays(before, r)
    && (op.kind.Cycle? ==> before == Degraded && (mc.maxAttempts == 0 || r.recoveryFailures < mc.maxAttempts))
  }

  /** The start of the recovery is recorded and its cooldown stands in the record. */
  predicate Armed(mc: MonitorConfig, r: Record, since: nat, now: nat) {
    since <= now && r.cooldownUntil == Some(Secs(since + mc.cooldown))
  }

  /** The actions run so far: a prefix of the configured ones, none of which
      failed unless it is a recheck. */
  predicate Executed(mc: MonitorConfig, done: seq<ActionResult>) {
    |done| <= |mc.recovery| && forall k | 0 <= k < |done| :: mc.recovery[k] || done[k].success
  }

  predicate SiteOk(mc: MonitorConfig, r: Record, op: Op, site: Site, now: nat) {
    match site
    case AtCheck(start, before) => StatusSays(before, r) && start <= now && op.kind.Cycle?
    case AtPreCheck => op.kind.Forced?
    case AtRecheck(before, since, done) =>
      Permitted(mc, r, op, before) && Armed(mc, r, since, now) && Executed(mc, done) && done != []
    case AtFinal(before, since, done) =>
      Permitted(mc, r, op, before) && Armed(mc, r, since, now) && Executed(mc, done) && |done| == |mc.recovery|
  }

  /** The outcome handed to applyRecoveryOutcomeLocked: recovered exactly when a
      complete evaluation after the last action run found no failure. */
  predicate OutcomeOk(
    mc: MonitorConfig, done: seq<ActionResult>, recovered: bool, post: seq<CheckResult>, reasons: seq<string>)
  {
    if recovered then |post| == mc.checks && FailureReasons(post) == [] && reasons == [] && Executed(mc, done)
    else if post == [] then
      && 0 < |done| <= |mc.recovery| && Executed(mc, done[..|done| - 1])
      && !mc.recovery[|done| - 1] && !done[|done| - 1].success && reasons == [done[|done| - 1].message]
    else
      && Executed(mc, done) && |done| == |mc.recovery|
      && |post| == mc.checks && reasons == FailureReasons(post) && reasons != []
  }

  predicate FlightOk(mc: MonitorConfig, r: Record, op: Op, now: nat) {
    match op.pc
    case Entering => op.kind.Cycle?
    case Opening(start) => op.kind.Cycle? && start <= now
    case Evaluating(site, results) => SiteOk(mc, r, op, site, now) && |results| <= mc.checks
    case Evaluated(site, results, finished) =>
      && SiteOk(mc, r, op, site, now) && |results| <= mc.checks && (|results| < mc.checks ==> op.cancelled)
      && finished <= now && (site.AtCheck? ==> site.start <= finished)
    case Failing(results) =>
      op.kind.Cycle? && r.streak >= 1 && r.streak >= mc.threshold && !CooldownActive(r.cooldownUntil, now)
    case Starting(before, _, _) =>
      && Permitted(mc, r, op, before)
      && (op.kind.Cycle? ==> r.streak >= mc.threshold && !CooldownActive(r.cooldownUntil, now))
    case Acting(before, since, done) =>
      Permitted(mc, r, op, before) && Armed(mc, r, since, now) && Executed(mc, done)
    case Acted(before, since, done, recheck, _) =>
      && Permitted(mc, r, op, before) && Armed(mc, r, since, now) && Executed(mc, done)
      && |done| < |mc.recovery| && recheck == mc.recovery[|done|]
    case Closing(before, since, done, recovered, post, reasons) =>
      && Permitted(mc, r, op, before) && Armed(mc, r, since, now)
      && OutcomeOk(mc, done, recovered, post, reasons)
    case Aborting(before) => StatusSays(before, r)
    case _ => true
  }

  /** From the saved start of a recovery to its end. */
  predicate Committed(pc: PC) {
    pc.Acting? || pc.Acted? || pc.Closing?
    || (pc.Evaluating? && (pc.site.AtRecheck? || pc.site.AtFinal?))
    || (pc.Evaluated? && (pc.site.AtRecheck? || pc.site.AtFinal?))
  }

  predicate NotBefore(a: Option<nat>, b: Option<nat>) {
    a.Some? ==> b.Some? && a.value <= b.value
  }

  lemma SecsMonotone(a: nat, b: nat)
    requires a <= b
    ensures Secs(a) <= Secs(b)
  {
  }

  lemma RecordLater(mc: MonitorConfig, r: Record, now: nat, later: nat)
    requires now <= later && RecordOk(mc, r, now)
    ensures RecordOk(mc, r, later)
  {
    SecsMonotone(now + mc.cooldown, later + mc.cooldown);
  }

  lemma LaterKeeps(mc: MonitorConfig, r: Record, op: Op, now: nat, later: nat)
    requires now <= later
    requires RecordOk(mc, r, now) && FlightOk(mc, r, op, now)
    ensures RecordOk(mc, r, later) && FlightOk(mc, r, op, later)
  {
    RecordLater(mc, r, now, later);
    match op.pc {
      case Evaluating(site, _) => assert SiteOk(mc, r, op, site, later);
      case Evaluated(site, _, _) => assert SiteOk(mc, r, op, site, later);
      case _ =>
    }
  }

  // ---- one step, one operation

  predicate Keeps(mc: MonitorConfig, next: Local, op: Op, now: nat) {
    RecordOk(mc, next.rec, now) && FlightOk(mc, next.rec, op.(pc := next.pc), now)
  }

  lemma CheckedKeeps(mc: MonitorConfig, r: Record, op: Op, inp: Input, now: nat)
    requires now <= inp.t <= inp.t2 && op.pc.Evaluated? && op.pc.site.AtCheck?
    requires RecordOk(mc, r, now) && FlightOk(mc, r, op, now)
    ensures Keeps(mc, StepChecked(mc, r, op), op, inp.t2)
  {
    LaterKeeps(mc, r, op, now, inp.t2);
  }

  lemma RecoveryEvaluatedKeeps(mc: MonitorConfig, r: Record, op: Op, inp: Input, now: nat)
    requires now <= inp.t <= inp.t2 && op.pc.Evaluated? && !op.pc.site.AtCheck?
    requires RecordOk(mc, r, now) && FlightOk(mc, r, op, now)
    ensures Keeps(mc, StepEvaluated(mc, r, op), op, inp.t2)
  {
    LaterKeeps(mc, r, op, now, inp.t2);
  }

  lemma OutcomeKeeps(
    mc: MonitorConfig, id: Id, r: Record, inp: Input, now: nat,
    done: seq<ActionResult>, recovered: bool, post: seq<CheckResult>, reasons: seq<string>)
    requires now <= inp.t <= inp.t2 && RecordOk(mc, r, now)
    requires post == [] || |post| == mc.checks
    ensures RecordOk(mc, ApplyOutcome(mc, id, r, inp.t, inp.t2, done, recovered, post, reasons).rec, inp.t2)
  {
    SecsMonotone(inp.t + mc.cooldown, inp.t2 + mc.cooldown);
  }

  lemma ClosingKeeps(mc: MonitorConfig, r: Record, op: Op, inp: Input, now: nat)
    requires now <= inp.t <= inp.t2 && op.pc.Closing?
    requires RecordOk(mc, r, now) && FlightOk(mc, r, op, now)
    ensures Keeps(mc, StepClosing(mc, r, op, inp), op, inp.t2)
  {
    RecordLater(mc, r, now, inp.t2);
    OutcomeKeeps(mc, op.monitor, r, inp, now, op.pc.done, op.pc.recovered, op.pc.post, op.pc.reasons);
  }

  lemma ActingKeeps(mc: MonitorConfig, r: Record, op: Op, inp: Input, now: nat)
    requires now <= inp.t <= inp.t2 && op.pc.Acting?
    requires RecordOk(mc, r, now) && FlightOk(mc, r, op, now)
    ensures Keeps(mc, StepActing(mc, r, op, inp), op, inp.t2)
  {
    LaterKeeps(mc, r, op, now, inp.t2);
  }

  lemma ActedKeeps(mc: MonitorConfig, r: Record, op: Op, inp: Input, now: nat)
    requires now <= inp.t <= inp.t2 && op.pc.Acted?
    requires RecordOk(mc, r, now) && FlightOk(mc, r, op, now)
    ensures Keeps(mc, StepActed(r, op), op, inp.t2)
  {
    LaterKeeps(mc, r, op, now, inp.t2);
    assert (op.pc.done + [op.pc.result])[..|op.pc.done|] == op.pc.done;
  }

  lemma FailingKeeps(mc: MonitorConfig, r: Record, op: Op, inp: Input, now: nat)
    requires now <= inp.t <= inp.t2 && op.pc.Failing?
    requires RecordOk(mc, r, now) && FlightOk(mc, r, op, now)
    ensures Keeps(mc, StepFailing(mc, r, op, inp), op, inp.t2)
  {
    LaterKeeps(mc, r, op, now, inp.t2);
    SecsMonotone(inp.t + mc.cooldown, inp.t2 + mc.cooldown);
  }

  lemma StartingKeeps(mc: MonitorConfig, r: Record, op: Op, inp: Input, now: nat)
    requires now <= inp.t <= inp.t2 && op.pc.Starting?
    requires RecordOk(mc, r, now) && FlightOk(mc, r, op, now)
    ensures Keeps(mc, StepStarting(mc, r, op, inp), op, inp.t2)
  {
    LaterKeeps(mc, r, op, now, inp.t2);
    SecsMonotone(inp.t + mc.cooldown, inp.t2 + mc.cooldown);
  }

  lemma EvaluatingKeeps(mc: MonitorConfig, r: Record, op: Op, inp: Input, now: nat)
    requires now <= inp.t <= inp.t2 && op.pc.Evaluating?
    requires RecordOk(mc, r, now) && FlightOk(mc, r, op, now)
    ensures Keeps(mc, StepEvaluating(mc, r, op, inp), op, inp.t2)
  {
    LaterKeeps(mc, r, op, now, inp.t2);
  }

  lemma EnteringKeeps(mc: MonitorConfig, r: Record, op: Op, inp: Input, now: nat)
    requires now <= inp.t <= inp.t2
      && (op.pc.Called? || op.pc.Waiting? || op.pc.Locked? || op.pc.Entering? || op.pc.Opening?)
    requires RecordOk(mc, r, now) && FlightOk(mc, r, op, now)
    ensures Keeps(mc, Advance(mc, r, op, inp), op, inp.t2)
  {
    LaterKeeps(mc, r, op, now, inp.t2);
  }

  lemma LeavingKeeps(mc: MonitorConfig, r: Record, op: Op, inp: Input, now: nat)
    requires now <= inp.t <= inp.t2 && (op.pc.Aborting? || op.pc.Releasing? || op.pc.Finished?)
    requires RecordOk(mc, r, now) && FlightOk(mc, r, op, now)
    ensures Keeps(mc, Advance(mc, r, op, inp), op, inp.t2)
  {
    LaterKeeps(mc, r, op, now, inp.t2);
  }

  lemma AdvanceKeeps(mc: MonitorConfig, r: Record, op: Op, inp: Input, now: nat)
    requires now <= inp.t <= inp.t2 && RecordOk(mc, r, now) && FlightOk(mc, r, op, now)
    ensures Keeps(mc, Advance(mc, r, op, inp), op, inp.t2)
  {
    hide Keeps, RecordOk, FlightOk, StepWaiting, StepLocked, StepEntering, StepOpening, StepEvaluating, StepChecked,
         StepFailing, StepStarting, StepActing, StepActed, StepClosing, StepAborting;
    match op.pc {
      case Called => EnteringKeeps(mc, r, op, inp, now);
      case Waiting => EnteringKeeps(mc, r, op, inp, now);
      case Locked => EnteringKeeps(mc, r, op, inp, now);
      case Entering => EnteringKeeps(mc, r, op, inp, now);
      case Opening(_) => EnteringKeeps(mc, r, op, inp, now);
      case Evaluating(_, _) => EvaluatingKeeps(mc, r, op, inp, now);
      case Evaluated(site, _, _) =>
        if site.AtCheck? { CheckedKeeps(mc, r, op, inp, now); } else { RecoveryEvaluatedKeeps(mc, r, op, inp, now); }
      case Failing(_) => FailingKeeps(mc, r, op, inp, now);
      case Starting(_, _, _) => StartingKeeps(mc, r, op, inp, now);
      case Acting(_, _, _) => ActingKeeps(mc, r, op, inp, now);
      case Acted(_, _, _, _, _) => ActedKeeps(mc, r, op, inp, now);
      case Closing(_, _, _, _, _, _) => ClosingKeeps(mc, r, op, inp, now);
      case Aborting(_) => LeavingKeeps(mc, r, op, inp, now);
      case Releasing(_) => LeavingKeeps(mc, r, op, inp, now);
      case Finished(_) => LeavingKeeps(mc, r, op, inp, now);
    }
  }

  lemma CooldownNeverShrinks(mc: MonitorConfig, r: Record, op: Op, inp: Input, now: nat)
    requires now <= inp.t <= inp.t2 && RecordOk(mc, r, now)
    ensures NotBefore(r.cooldownUntil, Advance(mc, r, op, inp).rec.cooldownUntil)
  {
    SecsMonotone(now + mc.cooldown, inp.t + mc.cooldown);
    SecsMonotone(inp.t + mc.cooldown, inp.t2 + mc.cooldown);
  }
}
