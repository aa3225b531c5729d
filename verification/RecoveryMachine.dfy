/**
 One operation on one monitor as a sequence of atomic steps.

 An operation is a call of withMonitorLock whose callback is runMonitorCycle
 (a scheduled or a manual check) or runForcedRecovery (a manual recovery). The
 program counter names the next atomic step and carries the local variables the
 source still needs. Steps are what the source makes atomic: a section under the
 manager's mutex, one wait on the monitor's one-slot channel, one test of the
 context, one external check or action.
 */
module RecoveryMachine {
  import opened MonitorRecord

  datatype Kind = Cycle | Forced

  /** The four calls of evaluateMonitor, each with the caller's live variables. */
  datatype Site =
    | AtCheck(start: nat, before: Status)
    | AtPreCheck
    | AtRecheck(before: Status, since: nat, done: seq<ActionResult>)
    | AtFinal(before: Status, since: nat, done: seq<ActionResult>)

  /** How the callback ended. */
  datatype Exit =
    | NotRun              // cancelled before any section of the callback
    | CheckCancelled      // cancelled during the first evaluation
    | Passed              // no failing check
    | NoRecovery          // failed, below the threshold or cooling down
    | Suppressed          // failed, but the attempts are used up
    | Interrupted         // cancelled or not saved inside executeRecovery
    | OutcomeCancelled    // cancelled between executeRecovery and its outcome
    | Recovered
    | RecoveryLost

  datatype PC =
    | Called
    | Waiting
    | Locked
    | Entering
    | Opening(start: nat)
    | Evaluating(site: Site, results: seq<CheckResult>)
    | Evaluated(site: Site, results: seq<CheckResult>, finished: nat)
    | Failing(results: seq<CheckResult>)
    | Starting(before: Status, results: seq<CheckResult>, reasons: seq<string>)
    | Acting(before: Status, since: nat, done: seq<ActionResult>)
    | Acted(before: Status, since: nat, done: seq<ActionResult>, recheck: bool, result: ActionResult)
    | Closing(before: Status, since: nat, done: seq<ActionResult>,
              recovered: bool, post: seq<CheckResult>, reasons: seq<string>)
    | Aborting(before: Status)
    | Releasing(exit: Exit)
    | Finished(exit: Exit)

  datatype Op = Op(monitor: Id, kind: Kind, cancelled: bool, pc: PC)

  function NewOp(m: Id, kind: Kind): Op {
    Op(m, kind, false, Called)
  }

  /** Between Waiting -> Locked and Releasing -> Finished the slot is held. */
  predicate Holds(pc: PC) {
    !pc.Called? && !pc.Waiting? && !pc.Finished?
  }

  /** What became of the two files in one persistLocked call. */
  datatype Save = Saved | StateFailed | EventsFailed

  /** Everything a step does not decide by itself: the clock (t is the first
      reading of the section, t2 the last), what the external check or action
      returned, what became of the save, and which arm of the select in
      withMonitorLock fired. */
  datatype Input = Input(
    t: nat, t2: nat, check: CheckResult, action: ActionResult, save: Save, giveUp: bool)

  datatype Local = Local(rec: Record, pc: PC, events: seq<Event>, persist: bool)

  const ManualReason := "manual api recovery trigger"

  /** What runRecheck returns. */
  const RecheckResult := ActionResult(true, "recheck requested")

  function Quiet(r: Record, pc: PC): Local {
    Local(r, pc, [], false)
  }

  function StepWaiting(r: Record, op: Op, inp: Input): Local {
    Quiet(r, if op.cancelled && inp.giveUp then Finished(NotRun) else Locked)
  }

  function StepLocked(r: Record, op: Op): Local {
    Quiet(r,
          if op.cancelled then Releasing(NotRun)
          else if op.kind.Cycle? then Entering
          else Evaluating(AtPreCheck, []))
  }

  /** The clock is read before the mutex is taken, so this is a step of its own. */
  function StepEntering(r: Record, op: Op, inp: Input): Local {
    Quiet(r, if op.cancelled then Releasing(NotRun) else Opening(inp.t))
  }

  function StepOpening(mc: MonitorConfig, r: Record, op: Op): Local
    requires op.pc.Opening?
  {
    Local(BeginCheck(mc, r, op.pc.start), Evaluating(AtCheck(op.pc.start, r.status), []), [], true)
  }

  /** One round of the loop in evaluateMonitor, or its end. */
  function StepEvaluating(mc: MonitorConfig, r: Record, op: Op, inp: Input): Local
    requires op.pc.Evaluating?
  {
    if !op.cancelled && |op.pc.results| < mc.checks
    then Quiet(r, Evaluating(op.pc.site, op.pc.results + [inp.check]))
    else Quiet(r, Evaluated(op.pc.site, op.pc.results, inp.t))
  }

  function StepChecked(mc: MonitorConfig, r: Record, op: Op): Local
    requires op.pc.Evaluated? && op.pc.site.AtCheck?
  {
    var Evaluated(AtCheck(start, before), results, finished) := op.pc;
    if op.cancelled then
      Local(r.(status := before), Releasing(CheckCancelled), [], true)
    else if FailureReasons(results) == [] then
      var e := PassCheck(op.monitor, r, before, start, finished, results);
      Local(e.rec, Releasing(Passed), e.events, true)
    else
      var e := FailCheck(op.monitor, r, before, start, finished, results);
      Local(e.rec,
            if ShouldRecover(mc, e.rec, finished) then Failing(results) else Releasing(NoRecovery),
            e.events, true)
  }

  function StepPreChecked(r: Record, op: Op): Local
    requires op.pc.Evaluated? && op.pc.site.AtPreCheck?
  {
    if op.cancelled then Quiet(r, Releasing(CheckCancelled))
    else Quiet(r, Starting(if r.status.Unset? then Unknown else r.status,
                           op.pc.results, FailureReasons(op.pc.results) + [ManualReason]))
  }

  function StepRechecked(r: Record, op: Op): Local
    requires op.pc.Evaluated? && op.pc.site.AtRecheck?
  {
    var Evaluated(AtRecheck(before, since, done), results, _) := op.pc;
    Quiet(r,
          if op.cancelled then Aborting(before)
          else if FailureReasons(results) == [] then Closing(before, since, done, true, results, [])
          else Acting(before, since, done))
  }

  function StepFinal(r: Record, op: Op): Local
    requires op.pc.Evaluated? && op.pc.site.AtFinal?
  {
    var Evaluated(AtFinal(before, since, done), results, _) := op.pc;
    var reasons := FailureReasons(results);
    Quiet(r,
          if op.cancelled then Aborting(before)
          else Closing(before, since, done, reasons == [], results, reasons))
  }

  function StepEvaluated(mc: MonitorConfig, r: Record, op: Op): Local
    requires op.pc.Evaluated?
  {
    match op.pc.site
    case AtCheck(_, _) => StepChecked(mc, r, op)
    case AtPreCheck => StepPreChecked(r, op)
    case AtRecheck(_, _, _) => StepRechecked(r, op)
    case AtFinal(_, _, _) => StepFinal(r, op)
  }

  function StepFailing(mc: MonitorConfig, r: Record, op: Op, inp: Input): Local
    requires op.pc.Failing?
  {
    var reasons := FailureReasons(op.pc.results);
    if AttemptsExhausted(mc, r) then
      var e := MarkExhausted(mc, op.monitor, r, inp.t, op.pc.results, reasons);
      Local(e.rec, Releasing(Suppressed), e.events, true)
    else
      Quiet(r, Starting(Degraded, op.pc.results, reasons))
  }

  /** The entry of executeRecovery: the first test of the context comes before
      the deferred restore is set up, a failed save after it. */
  function StepStarting(mc: MonitorConfig, r: Record, op: Op, inp: Input): Local
    requires op.pc.Starting?
  {
    if op.cancelled then Quiet(r, Releasing(Interrupted))
    else
      var e := StartRecovery(mc, op.monitor, r, op.pc.before, inp.t, op.pc.results, op.pc.reasons);
      Local(e.rec,
            if inp.save.Saved? then Acting(op.pc.before, inp.t, []) else Aborting(op.pc.before),
            e.events, true)
  }

  /** The head of the loop over the recovery actions, and the action itself. */
  function StepActing(mc: MonitorConfig, r: Record, op: Op, inp: Input): Local
    requires op.pc.Acting?
  {
    var Acting(before, since, done) := op.pc;
    if |done| >= |mc.recovery| then Quiet(r, Evaluating(AtFinal(before, since, done), []))
    else if op.cancelled then Quiet(r, Aborting(before))
    else
      var recheck := mc.recovery[|done|];
      Quiet(r, Acted(before, since, done, recheck, if recheck then RecheckResult else inp.action))
  }

  function StepActed(r: Record, op: Op): Local
    requires op.pc.Acted?
  {
    var Acted(before, since, previous, recheck, result) := op.pc;
    var done := previous + [result];
    Quiet(r,
          if op.cancelled then Aborting(before)
          else if recheck then Evaluating(AtRecheck(before, since, done), [])
          else if !result.success then Closing(before, since, done, false, [], [result.message])
          else Acting(before, since, done))
  }

  function StepClosing(mc: MonitorConfig, r: Record, op: Op, inp: Input): Local
    requires op.pc.Closing? && inp.t <= inp.t2
  {
    var Closing(before, _, done, recovered, post, reasons) := op.pc;
    if op.cancelled then
      Local(r.(status := if op.kind.Cycle? then Degraded else before), Releasing(OutcomeCancelled), [], true)
    else
      var e := ApplyOutcome(mc, op.monitor, r, inp.t, inp.t2, done, recovered, post, reasons);
      Local(e.rec, Releasing(if recovered then Recovered else RecoveryLost), e.events, true)
  }

  /** The deferred restore of executeRecovery. */
  function StepAborting(r: Record, op: Op): Local
    requires op.pc.Aborting?
  {
    Local(r.(status := op.pc.before), Releasing(Interrupted), [], true)
  }

  /** One step of an unfinished operation. */
  function Advance(mc: MonitorConfig, r: Record, op: Op, inp: Input): Local
    requires inp.t <= inp.t2
  {
    match op.pc
    case Called => Quiet(r, if op.cancelled then Finished(NotRun) else Waiting)
    case Waiting => StepWaiting(r, op, inp)
    case Locked => StepLocked(r, op)
    case Entering => StepEntering(r, op, inp)
    case Opening(_) => StepOpening(mc, r, op)
    case Evaluating(_, _) => StepEvaluating(mc, r, op, inp)
    case Evaluated(_, _, _) => StepEvaluated(mc, r, op)
    case Failing(_) => StepFailing(mc, r, op, inp)
    case Starting(_, _, _) => StepStarting(mc, r, op, inp)
    case Acting(_, _, _) => StepActing(mc, r, op, inp)
    case Acted(_, _, _, _, _) => StepActed(r, op)
    case Closing(_, _, _, _, _, _) => StepClosing(mc, r, op, inp)
    case Aborting(_) => StepAborting(r, op)
    case Releasing(exit) => Quiet(r, Finished(exit))
    case Finished(_) => Quiet(r, op.pc)
  }

  /** An action runs in this step. */
  predicate RunsAction(mc: MonitorConfig, op: Op) {
    op.pc.Acting? && !op.cancelled && |op.pc.done| < |mc.recovery|
  }

  /** recovery_started is recorded in this step. */
  predicate StartsRecovery(op: Op) {
    op.pc.Starting? && !op.cancelled
  }

  /** A failed recovery is counted in this step. */
  predicate CountsFailure(op: Op) {
    op.pc.Closing? && !op.cancelled && !op.pc.recovered
  }

  /** The slot is taken in this step. */
  predicate Acquires(op: Op, inp: Input) {
    op.pc.Waiting? && !(op.cancelled && inp.giveUp)
  }
}
