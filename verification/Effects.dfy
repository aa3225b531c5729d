/**
 What a whole operation did to its monitor, by the way it ended, told by the entries
 it left in the log and not by its steps. Every field of the record is accounted for:
 what is not listed is as it was. With Serial this describes every operation of every
 run: a cancelled or interrupted operation is never counted, a counted check has the
 results of all configured checks, and an outcome is one the actions can come to.
 */
module Effects {
  import opened Wrappers
  import opened MonitorRecord
  import opened RecoveryMachine
  import opened System
  import opened Locking
  import opened Serial
  import opened RecoverySpec

  // ---- whole seconds

  /** `until` is the second of a moment that lies `delay` after some moment of second `at`. */
  predicate Later(at: nat, delay: nat, until: nat) {
    at * NS + delay < (until + 1) * NS && until * NS < (at + 1) * NS + delay
  }

  /** Milliseconds between a moment of one second and a moment of another. */
  predicate Lasted(start: nat, end: nat, ms: int) {
    (end - start - 1) * 1000 <= ms < (end - start + 1) * 1000
  }

  lemma SecsLater(t: nat, delay: nat)
    ensures Later(Secs(t), delay, Secs(t + delay))
  {
  }

  lemma SecsLast(start: nat, end: nat)
    ensures Lasted(Secs(start), Secs(end), (end - start) / 1_000_000)
  {
  }

  // ---- entries of the log

  /** check_failed: all checks have a result, and the reason is the messages of the failing ones. */
  predicate FailedEntry(mc: MonitorConfig, m: Id, r0: Record, e: Event) {
    && e == Event(m, CheckFailed, e.at, r0.status, Degraded, Reasons(FailureReasons(e.checks)), r0.streak + 1, 0,
                  e.checks, [])
    && |e.checks| == mc.checks && FailureReasons(e.checks) != []
  }

  /** The threshold is reached and no cooldown stands at the second of the failed check. */
  predicate RecoveryDue(mc: MonitorConfig, r0: Record, e: Event) {
    r0.streak + 1 >= mc.threshold && (r0.cooldownUntil.None? || r0.cooldownUntil.value <= e.at)
  }

  /** The status an uncounted recovery goes back to. */
  function StatusBefore(kind: Kind, r0: Record): Status {
    match kind
    case Cycle => Degraded
    case Forced => if r0.status.Unset? then Unknown else r0.status
  }

  /** The failure streak an operation counts from, its failed check included. */
  function StreakAfter(kind: Kind, r0: Record): nat {
    r0.streak + if kind.Cycle? then 1 else 0
  }

  /** recovery_started: after the failed check of a cycle and with its results, or by hand. */
  predicate StartedEntry(mc: MonitorConfig, m: Id, kind: Kind, r0: Record, log: seq<Event>, e: Event) {
    && e == Event(m, RecoveryStarted, e.at, StatusBefore(kind, r0), Recovering, e.reason, StreakAfter(kind, r0), 0,
                  e.checks, [])
    && |e.checks| == mc.checks
    && match kind
       case Cycle => log != [] && e.reason == log[0].reason && e.checks == log[0].checks
       case Forced => e.reason == Reasons(FailureReasons(e.checks) + [ManualReason])
  }

  /** recovery_exhausted, with the count of failed recoveries in its reason. */
  function ExhaustedEntry(m: Id, at: nat, failed: nat, reasons: seq<string>, streak: nat, recoveries: nat,
                          checks: seq<CheckResult>): Event
  {
    Event(m, RecoveryExhausted, at, Degraded, Failed, ExhaustedAfter(failed, reasons), streak, recoveries, checks, [])
  }

  // ---- the record

  predicate CheckStamps(mc: MonitorConfig, r: Record) {
    && r.lastCheckStartedAt.Some? && r.nextCheckAt.Some?
    && Later(r.lastCheckStartedAt.value, mc.interval, r.nextCheckAt.value)
  }

  predicate CheckLasted(r: Record) {
    && r.lastCheckStartedAt.Some? && r.lastCheckFinishedAt.Some?
    && Lasted(r.lastCheckStartedAt.value, r.lastCheckFinishedAt.value, r.lastCheckDurationMS)
  }

  predicate Cooling(mc: MonitorConfig, at: nat, r: Record) {
    r.cooldownUntil.Some? && Later(at, mc.cooldown, r.cooldownUntil.value)
  }

  /** The record r0 with the three values of a check that no entry shows taken from r. */
  function Timed(r0: Record, r: Record): Record {
    r0.(lastCheckStartedAt := r.lastCheckStartedAt, nextCheckAt := r.nextCheckAt,
        lastCheckDurationMS := r.lastCheckDurationMS)
  }

  /** The record after the failed check of a cycle, which is the first entry. */
  function Checked(kind: Kind, r0: Record, r: Record, log: seq<Event>): Record {
    if kind.Forced? || log == [] then r0
    else Timed(r0, r).(
         status := Degraded, streak := r0.streak + 1, checkRuns := r0.checkRuns + 1, failures := r0.failures + 1,
         lastCheckFinishedAt := Some(log[0].at), lastFailureAt := Some(log[0].at),
         lastError := log[0].reason, lastFailureReasons := log[0].reason, lastCheckResults := log[0].checks)
  }

  /** ... and after the entry of the recovery's start. */
  function Begun(kind: Kind, r0: Record, r: Record, log: seq<Event>): Record {
    if log == [] then r0
    else Checked(kind, r0, r, log).(
         status := Recovering, lastRecoveryAttemptAt := Some(log[|log| - 1].at), cooldownUntil := r.cooldownUntil)
  }

  /** What is logged before the recovery: nothing by hand, the failed check of a cycle that is due. */
  predicate Prelude(mc: MonitorConfig, m: Id, kind: Kind, r0: Record, r: Record, log: seq<Event>) {
    match kind
    case Cycle => |log| == 1 && FailedEntry(mc, m, r0, log[0]) && CheckStamps(mc, r) && CheckLasted(r)
    case Forced => log == []
  }

  /** An automatic recovery is due and the attempts are not used up; one by hand always may. */
  predicate MayRecover(mc: MonitorConfig, kind: Kind, r0: Record, log: seq<Event>) {
    kind.Cycle? ==>
      log != [] && RecoveryDue(mc, r0, log[0]) && (mc.maxAttempts == 0 || r0.recoveryFailures < mc.maxAttempts)
  }

  /** The log of an operation up to the start of its recovery. */
  predicate Started(mc: MonitorConfig, m: Id, kind: Kind, r0: Record, r: Record, log: seq<Event>) {
    && log != []
    && var prelude := log[..|log| - 1];
      && Prelude(mc, m, kind, r0, r, prelude) && MayRecover(mc, kind, r0, prelude)
      && StartedEntry(mc, m, kind, r0, prelude, log[|log| - 1])
  }

  /** recovery_succeeded: a complete evaluation without a failure, which the actions came to. */
  ghost predicate SucceededEntry(mc: MonitorConfig, m: Id, r0: Record, e: Event) {
    && e == Event(m, RecoverySucceeded, e.at, Recovering, Healthy, NoReason, 0, r0.recoveries + 1, e.checks, e.actions)
    && |e.checks| == mc.checks && FailureReasons(e.checks) == []
    && CameTo(mc, e.actions, Verdict(true, e.checks, []))
  }

  /** recovery_failed: a failed action, or a complete evaluation with its failures. */
  ghost predicate LostEntry(mc: MonitorConfig, m: Id, kind: Kind, r0: Record, e: Event) {
    && e.reason.Reasons? && e.reason.list != []
    && e == Event(m, RecoveryFailed, e.at, Recovering, Failed, e.reason, StreakAfter(kind, r0), r0.recoveries + 1,
                  e.checks, e.actions)
    && (e.checks != [] ==> |e.checks| == mc.checks && e.reason.list == FailureReasons(e.checks))
    && CameTo(mc, e.actions, Verdict(false, e.checks, e.reason.list))
  }

  /** The record once the recovery is counted; its evaluation replaces the last results. */
  function Recounted(begun: Record, r: Record, e: Event): Record {
    begun.(recoveries := begun.recoveries + 1, lastRecoveryResults := e.actions, cooldownUntil := r.cooldownUntil,
           lastCheckResults := if e.checks == [] then begun.lastCheckResults else e.checks)
  }

  // ---- the effect of each exit

  predicate PassedEffect(mc: MonitorConfig, m: Id, r0: Record, r: Record, log: seq<Event>) {
    && CheckStamps(mc, r) && CheckLasted(r)
    && |r.lastCheckResults| == mc.checks && FailureReasons(r.lastCheckResults) == []
    && r == Timed(r0, r).(
            status := Healthy, streak := 0, exhausted := false,
            checkRuns := r0.checkRuns + 1, successes := r0.successes + 1,
            lastCheckFinishedAt := r.lastCheckFinishedAt, lastSuccessAt := r.lastCheckFinishedAt,
            lastError := NoReason, lastFailureReasons := NoReason, lastCheckResults := r.lastCheckResults)
    && log == if r0.status.Degraded? || r0.status.Failed? || r0.status.Recovering?
              then [Event(m, CheckSucceeded, r.lastCheckFinishedAt.value, r0.status, Healthy, NoReason, 0, 0,
                          r.lastCheckResults, [])]
              else []
  }

  /** The attempts were used up before; exhaustion is announced unless it stands announced. */
  predicate SuppressedEffect(mc: MonitorConfig, m: Id, r0: Record, r: Record, log: seq<Event>) {
    && log != [] && Prelude(mc, m, Cycle, r0, r, log[..1]) && RecoveryDue(mc, r0, log[0])
    && 0 < mc.maxAttempts <= r0.recoveryFailures
    && var checked := Checked(Cycle, r0, r, log).(status := Failed);
      if r0.exhausted then
        var reason := ExhaustedAfter(r0.recoveryFailures, []);
        && |log| == 1 && r == checked.(lastError := reason, lastFailureReasons := reason)
      else
        && |log| == 2 && Cooling(mc, log[1].at, r)
        && log[1] == ExhaustedEntry(m, log[1].at, r0.recoveryFailures, FailureReasons(log[0].checks), r0.streak + 1,
                                    r0.recoveries, log[0].checks)
        && r == checked.(exhausted := true, cooldownUntil := r.cooldownUntil, lastError := log[1].reason,
                         lastFailureReasons := log[1].reason)
  }

  /** Nothing but the start is recorded, and nothing is counted. */
  predicate UncountedEffect(mc: MonitorConfig, m: Id, kind: Kind, r0: Record, r: Record, log: seq<Event>) {
    && Started(mc, m, kind, r0, r, log) && Cooling(mc, log[|log| - 1].at, r)
    && r == Begun(kind, r0, r, log).(status := StatusBefore(kind, r0))
  }

  ghost predicate RecoveredEffect(mc: MonitorConfig, m: Id, kind: Kind, r0: Record, r: Record, log: seq<Event>) {
    && |log| >= 2
    && var begun, e := log[..|log| - 1], log[|log| - 1];
      && Started(mc, m, kind, r0, r, begun) && SucceededEntry(mc, m, r0, e) && Cooling(mc, e.at, r)
      && r == Recounted(Begun(kind, r0, r, begun), r, e).(
              status := Healthy, streak := 0, exhausted := false,
              lastRecoverySuccessAt := Some(e.at), lastSuccessAt := Some(e.at),
              lastError := NoReason, lastFailureReasons := NoReason)
  }

  /** The record once a failed recovery is counted, but for the reasons. */
  function Lost(kind: Kind, r0: Record, r: Record, begun: seq<Event>, e: Event): Record {
    Recounted(Begun(kind, r0, r, begun), r, e).(
      status := Failed, recoveryFailures := r0.recoveryFailures + 1, lastRecoveryFailureAt := Some(e.at))
  }

  /** A failed recovery with attempts left. */
  ghost predicate LostEffect(mc: MonitorConfig, m: Id, kind: Kind, r0: Record, r: Record, log: seq<Event>) {
    && |log| >= 2
    && var begun, e := log[..|log| - 1], log[|log| - 1];
      && Started(mc, m, kind, r0, r, begun) && LostEntry(mc, m, kind, r0, e) && Cooling(mc, e.at, r)
      && r == Lost(kind, r0, r, begun, e).(lastError := e.reason, lastFailureReasons := e.reason)
  }

  /** The failed recovery that uses up the attempts, or one after that. */
  ghost predicate LastLostEffect(mc: MonitorConfig, m: Id, kind: Kind, r0: Record, r: Record, log: seq<Event>) {
    && |log| >= 3
    && var begun, e, last := log[..|log| - 2], log[|log| - 2], log[|log| - 1];
      && Started(mc, m, kind, r0, r, begun) && LostEntry(mc, m, kind, r0, e) && Cooling(mc, last.at, r)
      && last == ExhaustedEntry(m, last.at, r0.recoveryFailures + 1, e.reason.list, e.streak, e.recoveries, e.checks)
      && r == Lost(kind, r0, r, begun, e).(
              exhausted := true, lastError := last.reason, lastFailureReasons := last.reason)
  }

  ghost predicate ExitEffect(
    mc: MonitorConfig, m: Id, kind: Kind, exit: Exit, r0: Record, r: Record, log: seq<Event>)
  {
    match exit
    case NotRun => r == r0 && log == []
    case CheckCancelled =>
      && log == []
      && if kind.Forced? then r == r0
         else CheckStamps(mc, r)
              && r == r0.(lastCheckStartedAt := r.lastCheckStartedAt, nextCheckAt := r.nextCheckAt)
    case Passed => kind.Cycle? && PassedEffect(mc, m, r0, r, log)
    case NoRecovery =>
      && kind.Cycle? && Prelude(mc, m, kind, r0, r, log) && !RecoveryDue(mc, r0, log[0])
      && r == Checked(kind, r0, r, log)
    case Suppressed => kind.Cycle? && SuppressedEffect(mc, m, r0, r, log)
    case Interrupted =>
      || (Prelude(mc, m, kind, r0, r, log) && MayRecover(mc, kind, r0, log) && r == Checked(kind, r0, r, log))
      || UncountedEffect(mc, m, kind, r0, r, log)
    case OutcomeCancelled => UncountedEffect(mc, m, kind, r0, r, log)
    case Recovered => RecoveredEffect(mc, m, kind, r0, r, log)
    case RecoveryLost =>
      if 0 < mc.maxAttempts <= r0.recoveryFailures + 1 then LastLostEffect(mc, m, kind, r0, r, log)
      else LostEffect(mc, m, kind, r0, r, log)
  }

  // ---- halfway

  /** In the recovery: its start is the last entry, and its cooldown stands in the record. */
  predicate InRecoveryOf(
    mc: MonitorConfig, m: Id, kind: Kind, r0: Record, r: Record, before: Status, log: seq<Event>)
  {
    && Started(mc, m, kind, r0, r, log) && Cooling(mc, log[|log| - 1].at, r)
    && before == StatusBefore(kind, r0) && r == Begun(kind, r0, r, log)
  }

  predicate InCheckOf(mc: MonitorConfig, r0: Record, r: Record, start: nat, before: Status) {
    && before == r0.status && r.nextCheckAt == Some(Secs(start + mc.interval))
    && r == r0.(status := Checking, lastCheckStartedAt := Some(Secs(start)), nextCheckAt := r.nextCheckAt)
  }

  /** Where the operation stands halfway, compared with the record it began with. */
  ghost predicate Halfway(mc: MonitorConfig, r0: Record, r: Record, op: Op, log: seq<Event>) {
    Follows(mc, op) && Excused(op) && Stands(mc, r0, r, op, log)
  }

  /** Nothing is called off unless the context is done. */
  predicate Excused(op: Op) {
    (op.pc.Releasing? || op.pc.Finished?) && op.pc.exit in {NotRun, CheckCancelled, OutcomeCancelled} ==> op.cancelled
  }

  lemma AdvanceExcused(mc: MonitorConfig, r: Record, op: Op, inp: Input)
    requires inp.t <= inp.t2 && Excused(op)
    ensures Excused(op.(pc := Advance(mc, r, op, inp).pc))
  {
  }

  ghost predicate Stands(mc: MonitorConfig, r0: Record, r: Record, op: Op, log: seq<Event>) {
    var m, kind := op.monitor, op.kind;
    match op.pc
    case Evaluating(AtCheck(start, before), _) => InCheckOf(mc, r0, r, start, before) && kind.Cycle? && log == []
    case Evaluating(AtPreCheck, _) => r == r0 && kind.Forced? && log == []
    case Evaluating(AtRecheck(before, _, _), _) => InRecoveryOf(mc, m, kind, r0, r, before, log)
    case Evaluating(AtFinal(before, _, _), _) => InRecoveryOf(mc, m, kind, r0, r, before, log)
    case Evaluated(AtCheck(start, before), _, _) => InCheckOf(mc, r0, r, start, before) && kind.Cycle? && log == []
    case Evaluated(AtPreCheck, _, _) => r == r0 && kind.Forced? && log == []
    case Evaluated(AtRecheck(before, _, _), _, _) => InRecoveryOf(mc, m, kind, r0, r, before, log)
    case Evaluated(AtFinal(before, _, _), _, _) => InRecoveryOf(mc, m, kind, r0, r, before, log)
    case Failing(results) =>
      && kind.Cycle? && Prelude(mc, m, kind, r0, r, log) && RecoveryDue(mc, r0, log[0]) && results == log[0].checks
      && r == Checked(kind, r0, r, log)
    case Starting(before, results, reasons) =>
      && Prelude(mc, m, kind, r0, r, log) && MayRecover(mc, kind, r0, log) && before == StatusBefore(kind, r0)
      && r == Checked(kind, r0, r, log) && |results| == mc.checks
      && if kind.Cycle? then results == log[0].checks && reasons == FailureReasons(results)
         else reasons == FailureReasons(results) + [ManualReason]
    case Acting(before, _, _) => InRecoveryOf(mc, m, kind, r0, r, before, log)
    case Acted(before, _, _, _, _) => InRecoveryOf(mc, m, kind, r0, r, before, log)
    case Closing(before, _, _, _, _, _) => InRecoveryOf(mc, m, kind, r0, r, before, log)
    case Aborting(before) => InRecoveryOf(mc, m, kind, r0, r, before, log)
    case Releasing(exit) => ExitEffect(mc, m, kind, exit, r0, r, log)
    case Finished(exit) => ExitEffect(mc, m, kind, exit, r0, r, log)
    case Entering => kind.Cycle? && r == r0 && log == []
    case Opening(_) => kind.Cycle? && r == r0 && log == []
    case _ => r == r0 && log == []
  }

  ghost predicate Onward(mc: MonitorConfig, r0: Record, next: Local, op: Op, log: seq<Event>) {
    Stands(mc, r0, next.rec, op.(pc := next.pc), log + next.events)
  }

  lemma OpeningOnward(mc: MonitorConfig, r0: Record, r: Record, op: Op, log: seq<Event>)
    requires op.pc.Opening? && Stands(mc, r0, r, op, log)
    ensures Onward(mc, r0, StepOpening(mc, r, op), op, log)
  {
  }

  lemma CheckCancelledOnward(mc: MonitorConfig, r0: Record, r: Record, op: Op, log: seq<Event>)
    requires op.pc.Evaluated? && op.pc.site.AtCheck? && Halfway(mc, r0, r, op, log) && op.cancelled
    ensures Onward(mc, r0, StepChecked(mc, r, op), op, log)
  {
    hide Later;
    SecsLater(op.pc.site.start, mc.interval);
  }

  lemma PassedOnward(mc: MonitorConfig, r0: Record, r: Record, op: Op, log: seq<Event>)
    requires op.pc.Evaluated? && op.pc.site.AtCheck? && Halfway(mc, r0, r, op, log) && !op.cancelled
    requires FailureReasons(op.pc.results) == []
    ensures Onward(mc, r0, StepChecked(mc, r, op), op, log)
  {
    hide Later, Lasted, FailureReasons, Secs;
    SecsLater(op.pc.site.start, mc.interval);
    SecsLast(op.pc.site.start, op.pc.finished);
  }

  lemma FailedOnward(mc: MonitorConfig, r0: Record, r: Record, op: Op, log: seq<Event>)
    requires op.pc.Evaluated? && op.pc.site.AtCheck? && Halfway(mc, r0, r, op, log) && !op.cancelled
    requires FailureReasons(op.pc.results) != []
    ensures Onward(mc, r0, StepChecked(mc, r, op), op, log)
  {
    hide Later, Lasted, FailureReasons, ShouldRecover;
    SecsLater(op.pc.site.start, mc.interval);
    SecsLast(op.pc.site.start, op.pc.finished);
    var next := StepChecked(mc, r, op);
    DueOrNot(mc, r0, next.rec, op.pc.finished, next.events[0]);
  }

  lemma DueOrNot(mc: MonitorConfig, r0: Record, r: Record, finished: nat, e: Event)
    requires r.streak == r0.streak + 1 && r.cooldownUntil == r0.cooldownUntil && e.at == Secs(finished)
    ensures ShouldRecover(mc, r, finished) <==> RecoveryDue(mc, r0, e)
  {
  }

  lemma SuppressedOnward(mc: MonitorConfig, r0: Record, r: Record, op: Op, inp: Input, log: seq<Event>)
    requires op.pc.Failing? && Stands(mc, r0, r, op, log) && AttemptsExhausted(mc, r)
    ensures Onward(mc, r0, StepFailing(mc, r, op, inp), op, log)
  {
    hide Later, Lasted, FailureReasons, FailedEntry, RecoveryDue;
    SecsLater(inp.t, mc.cooldown);
    var next := StepFailing(mc, r, op, inp);
    assert (log + next.events)[..1] == log;
  }

  lemma GoesOnToRecovery(mc: MonitorConfig, r0: Record, r: Record, op: Op, inp: Input, log: seq<Event>)
    requires op.pc.Failing? && Stands(mc, r0, r, op, log) && !AttemptsExhausted(mc, r)
    ensures Onward(mc, r0, StepFailing(mc, r, op, inp), op, log)
  {
    hide FailureReasons, CheckLasted, CheckStamps, RecoveryDue;
    assert log + [] == log;
  }

  lemma StartingOnward(mc: MonitorConfig, r0: Record, r: Record, op: Op, inp: Input, log: seq<Event>)
    requires op.pc.Starting? && Stands(mc, r0, r, op, log)
    ensures Onward(mc, r0, StepStarting(mc, r, op, inp), op, log)
  {
    hide Later, Lasted, FailureReasons, RecoveryDue;
    if op.cancelled {
      assert log + [] == log;
    } else {
      SecsLater(inp.t, mc.cooldown);
      var next := StepStarting(mc, r, op, inp);
      assert (log + next.events)[..|log|] == log;
    }
  }

  /** Being started looks at nothing of the record but the times of the check. */
  lemma StartedKeeps(mc: MonitorConfig, m: Id, kind: Kind, r0: Record, r: Record, r': Record, log: seq<Event>)
    requires Started(mc, m, kind, r0, r, log)
    requires r'.lastCheckStartedAt == r.lastCheckStartedAt && r'.nextCheckAt == r.nextCheckAt
    requires r'.lastCheckFinishedAt == r.lastCheckFinishedAt && r'.lastCheckDurationMS == r.lastCheckDurationMS
    ensures Started(mc, m, kind, r0, r', log) && log != []
    ensures Begun(kind, r0, r', log) == Begun(kind, r0, r, log).(cooldownUntil := r'.cooldownUntil)
  {
    hide Later, Lasted, FailureReasons, RecoveryDue, FailedEntry, StartedEntry;
  }

  /** Steps of the recovery that change nothing but the place. */
  lemma LoopOnward(mc: MonitorConfig, r0: Record, r: Record, op: Op, inp: Input, log: seq<Event>)
    requires inp.t <= inp.t2 && Stands(mc, r0, r, op, log)
    requires op.pc.Acting? || op.pc.Acted? || op.pc.Evaluating?
             || (op.pc.Evaluated? && (op.pc.site.AtRecheck? || op.pc.site.AtFinal?))
    ensures Onward(mc, r0, Advance(mc, r, op, inp), op, log)
  {
    hide FailureReasons, InRecoveryOf, InCheckOf, ExitEffect;
    assert log + [] == log;
  }

  /** A recovery given up: the status goes back. */
  lemma GivenUp(mc: MonitorConfig, m: Id, kind: Kind, r0: Record, r: Record, before: Status, log: seq<Event>)
    requires InRecoveryOf(mc, m, kind, r0, r, before, log)
    ensures UncountedEffect(mc, m, kind, r0, r.(status := before), log)
  {
    hide Started, Later, Begun;
    StartedKeeps(mc, m, kind, r0, r, r.(status := before), log);
  }

  lemma UncountedOnward(mc: MonitorConfig, r0: Record, r: Record, op: Op, inp: Input, log: seq<Event>)
    requires inp.t <= inp.t2 && Stands(mc, r0, r, op, log)
    requires op.pc.Aborting? || (op.pc.Closing? && op.cancelled)
    ensures Onward(mc, r0, Advance(mc, r, op, inp), op, log)
  {
    GivenUpRecord(mc, r0, r, op, inp, log);
    hide Advance, InRecoveryOf, UncountedEffect;
    GivenUp(mc, op.monitor, op.kind, r0, r, op.pc.before, log);
    assert log + [] == log;
  }

  lemma GivenUpRecord(mc: MonitorConfig, r0: Record, r: Record, op: Op, inp: Input, log: seq<Event>)
    requires inp.t <= inp.t2 && Stands(mc, r0, r, op, log)
    requires op.pc.Aborting? || (op.pc.Closing? && op.cancelled)
    ensures InRecoveryOf(mc, op.monitor, op.kind, r0, r, op.pc.before, log)
    ensures Advance(mc, r, op, inp)
         == Local(r.(status := op.pc.before), Releasing(if op.pc.Aborting? then Interrupted else OutcomeCancelled), [],
                  true)
  {
    hide Started, Cooling, Begun;
  }

  lemma PreCheckedOnward(mc: MonitorConfig, r0: Record, r: Record, op: Op, log: seq<Event>)
    requires op.pc.Evaluated? && op.pc.site.AtPreCheck? && Halfway(mc, r0, r, op, log)
    ensures Onward(mc, r0, StepPreChecked(r, op), op, log)
  {
    hide FailureReasons;
    assert log + [] == log;
  }

  lemma EdgeOnward(mc: MonitorConfig, r0: Record, r: Record, op: Op, inp: Input, log: seq<Event>)
    requires inp.t <= inp.t2 && Stands(mc, r0, r, op, log)
    requires op.pc.Called? || op.pc.Waiting? || op.pc.Locked? || op.pc.Entering? || op.pc.Releasing? || op.pc.Finished?
    ensures Onward(mc, r0, Advance(mc, r, op, inp), op, log)
  {
    hide ExitEffect;
    ExitOfNone(mc, op.monitor, op.kind, r);
    assert log + [] == log;
  }

  lemma ExitOfNone(mc: MonitorConfig, m: Id, kind: Kind, r: Record)
    ensures ExitEffect(mc, m, kind, NotRun, r, r, [])
  {
  }

  lemma RecoveredOnward(mc: MonitorConfig, r0: Record, r: Record, op: Op, inp: Input, log: seq<Event>)
    requires op.pc.Closing? && inp.t <= inp.t2 && Halfway(mc, r0, r, op, log) && !op.cancelled && op.pc.recovered
    ensures Onward(mc, r0, StepClosing(mc, r, op, inp), op, log)
  {
    hide Later, FailureReasons, Started, CameTo;
    SecsLater(inp.t, mc.cooldown);
    VerdictSays(mc, op.pc.done, Verdict(true, op.pc.post, op.pc.reasons));
    var next := StepClosing(mc, r, op, inp);
    StartedKeeps(mc, op.monitor, op.kind, r0, r, next.rec, log);
    assert (log + next.events)[..|log|] == log;
  }

  /** The fields a lost outcome writes. */
  lemma LossWrites(mc: MonitorConfig, r: Record, op: Op, inp: Input)
    requires op.pc.Closing? && inp.t <= inp.t2 && !op.cancelled && !op.pc.recovered && op.pc.reasons != []
    ensures var next := StepClosing(mc, r, op, inp); var pc := op.pc;
      var last := 0 < mc.maxAttempts <= r.recoveryFailures + 1;
      var e := Event(op.monitor, RecoveryFailed, Secs(inp.t), Recovering, Failed, Reasons(pc.reasons), r.streak,
                     r.recoveries + 1, pc.post, pc.done);
      var x := ExhaustedEntry(op.monitor, Secs(inp.t2), r.recoveryFailures + 1, pc.reasons, r.streak, r.recoveries + 1,
                              pc.post);
      && next.pc == Releasing(RecoveryLost) && next.events == (if last then [e, x] else [e])
      && next.rec == r.(
             status := Failed, recoveries := r.recoveries + 1, recoveryFailures := r.recoveryFailures + 1,
             lastRecoveryFailureAt := Some(Secs(inp.t)), lastRecoveryResults := pc.done,
             lastCheckResults := if pc.post == [] then r.lastCheckResults else pc.post,
             exhausted := r.exhausted || last,
             cooldownUntil := Some(Secs((if last then inp.t2 else inp.t) + mc.cooldown)),
             lastError := if last then x.reason else e.reason,
             lastFailureReasons := if last then x.reason else e.reason)
  {
    hide Secs;
  }

  /** What is common to both: the entry of a lost recovery, over a record that is in it. */
  lemma LossIsEntered(
    mc: MonitorConfig, m: Id, kind: Kind, r0: Record, r: Record, before: Status, log: seq<Event>, e: Event)
    requires InRecoveryOf(mc, m, kind, r0, r, before, log) && e.reason.Reasons?
    requires CameTo(mc, e.actions, Verdict(false, e.checks, e.reason.list))
    requires e == Event(m, RecoveryFailed, e.at, Recovering, Failed, e.reason, r.streak, r.recoveries + 1, e.checks,
                        e.actions)
    ensures LostEntry(mc, m, kind, r0, e) && r.recoveryFailures == r0.recoveryFailures
    ensures e.streak == r.streak && e.recoveries == r.recoveries + 1
  {
    VerdictSays(mc, e.actions, Verdict(false, e.checks, e.reason.list));
    hide FailureReasons, Started, Cooling, CameTo;
  }

  /** The record with a lost recovery counted, the reasons and the cooldown being those of r'. */
  function Counted(r: Record, r': Record, e: Event): Record {
    r.(status := Failed, recoveries := r.recoveries + 1, recoveryFailures := r.recoveryFailures + 1,
       lastRecoveryFailureAt := Some(e.at), lastRecoveryResults := e.actions,
       lastCheckResults := if e.checks == [] then r.lastCheckResults else e.checks,
       exhausted := r'.exhausted, cooldownUntil := r'.cooldownUntil,
       lastError := r'.lastError, lastFailureReasons := r'.lastFailureReasons)
  }

  lemma CountedIsLost(
    mc: MonitorConfig, m: Id, kind: Kind, r0: Record, r: Record, r': Record, before: Status, log: seq<Event>, e: Event)
    requires InRecoveryOf(mc, m, kind, r0, r, before, log) && r.recoveryFailures == r0.recoveryFailures
    requires r' == Counted(r, r', e)
    ensures Started(mc, m, kind, r0, r', log) && log != []
    ensures r' == Lost(kind, r0, r', log, e).(
                  exhausted := r'.exhausted, lastError := r'.lastError, lastFailureReasons := r'.lastFailureReasons)
    ensures Lost(kind, r0, r', log, e).exhausted == r.exhausted
  {
    hide Started, Cooling, Begun;
    StartedKeeps(mc, m, kind, r0, r, r', log);
  }

  /** The operation hands over a lost outcome of a recovery it is in. */
  ghost predicate Losing(mc: MonitorConfig, r0: Record, r: Record, op: Op, log: seq<Event>) {
    && op.pc.Closing? && !op.cancelled && !op.pc.recovered && op.pc.reasons != []
    && InRecoveryOf(mc, op.monitor, op.kind, r0, r, op.pc.before, log)
    && CameTo(mc, op.pc.done, Verdict(false, op.pc.post, op.pc.reasons))
  }

  lemma LossLeaves(mc: MonitorConfig, r0: Record, r: Record, op: Op, inp: Input, log: seq<Event>)
    requires inp.t <= inp.t2 && Losing(mc, r0, r, op, log)
    requires mc.maxAttempts == 0 || r0.recoveryFailures + 1 < mc.maxAttempts
    ensures var next := StepClosing(mc, r, op, inp);
      LostEffect(mc, op.monitor, op.kind, r0, next.rec, log + next.events)
  {
    hide Later, FailureReasons, Started, CameTo, StepClosing, Secs, Lost, LostEntry, InRecoveryOf;
    LossWrites(mc, r, op, inp);
    SecsLater(inp.t, mc.cooldown);
    var next := StepClosing(mc, r, op, inp);
    var e := next.events[0];
    LossIsEntered(mc, op.monitor, op.kind, r0, r, op.pc.before, log, e);
    CountedIsLost(mc, op.monitor, op.kind, r0, r, next.rec, op.pc.before, log, e);
    assert (log + next.events)[..|log|] == log;
  }

  lemma LastLossLeaves(mc: MonitorConfig, r0: Record, r: Record, op: Op, inp: Input, log: seq<Event>)
    requires inp.t <= inp.t2 && Losing(mc, r0, r, op, log)
    requires 0 < mc.maxAttempts <= r0.recoveryFailures + 1
    ensures var next := StepClosing(mc, r, op, inp);
      LastLostEffect(mc, op.monitor, op.kind, r0, next.rec, log + next.events)
  {
    hide Later, FailureReasons, Started, CameTo, StepClosing, Secs, Lost, LostEntry, InRecoveryOf;
    LossWrites(mc, r, op, inp);
    SecsLater(inp.t2, mc.cooldown);
    var next := StepClosing(mc, r, op, inp);
    var e := next.events[0];
    LossIsEntered(mc, op.monitor, op.kind, r0, r, op.pc.before, log, e);
    CountedIsLost(mc, op.monitor, op.kind, r0, r, next.rec, op.pc.before, log, e);
    assert (log + next.events)[..|log|] == log;
  }

  lemma IsLosing(mc: MonitorConfig, r0: Record, r: Record, op: Op, log: seq<Event>)
    requires op.pc.Closing? && Halfway(mc, r0, r, op, log) && !op.cancelled && !op.pc.recovered
    ensures Losing(mc, r0, r, op, log)
  {
    VerdictSays(mc, op.pc.done, Verdict(false, op.pc.post, op.pc.reasons));
    hide FailureReasons, InRecoveryOf, CameTo;
  }

  lemma LossEnds(mc: MonitorConfig, r: Record, op: Op, inp: Input)
    requires op.pc.Closing? && inp.t <= inp.t2 && !op.cancelled && !op.pc.recovered
    ensures StepClosing(mc, r, op, inp).pc == Releasing(RecoveryLost)
  {
  }

  lemma LossExits(mc: MonitorConfig, r0: Record, r: Record, op: Op, inp: Input, log: seq<Event>)
    requires inp.t <= inp.t2 && Losing(mc, r0, r, op, log)
    ensures var next := StepClosing(mc, r, op, inp);
      ExitEffect(mc, op.monitor, op.kind, RecoveryLost, r0, next.rec, log + next.events)
  {
    hide StepClosing, LostEffect, LastLostEffect, Losing;
    if 0 < mc.maxAttempts <= r0.recoveryFailures + 1 {
      LastLossLeaves(mc, r0, r, op, inp, log);
    } else {
      LossLeaves(mc, r0, r, op, inp, log);
    }
  }

  lemma LostOnward(mc: MonitorConfig, r0: Record, r: Record, op: Op, inp: Input, log: seq<Event>)
    requires op.pc.Closing? && inp.t <= inp.t2 && Halfway(mc, r0, r, op, log) && !op.cancelled && !op.pc.recovered
    ensures Onward(mc, r0, StepClosing(mc, r, op, inp), op, log)
  {
    IsLosing(mc, r0, r, op, log);
    LossEnds(mc, r, op, inp);
    hide StepClosing, ExitEffect, Losing, Halfway;
    LossExits(mc, r0, r, op, inp, log);
  }

  /** A verdict's evaluation is complete or absent, and the reasons are its failures or those of an action. */
  lemma VerdictSays(mc: MonitorConfig, done: seq<ActionResult>, v: Verdict)
    requires CameTo(mc, done, v)
    ensures if v.recovered then |v.post| == mc.checks && FailureReasons(v.post) == [] && v.reasons == []
            else v.reasons != [] && (v.post != [] ==> |v.post| == mc.checks && v.reasons == FailureReasons(v.post))
  {
    var evals :| Recovers(mc.recovery, done, evals, v) && Complete(mc, evals);
    RecoversSays(mc.recovery, done, evals, v);
  }

  lemma {:induction false} RecoversSays(
    recovery: seq<bool>, done: seq<ActionResult>, evals: seq<Evaluation>, v: Verdict)
    requires Recovers(recovery, done, evals, v)
    ensures v.post in evals || (v.post == [] && !v.recovered)
    ensures if v.recovered then FailureReasons(v.post) == [] && v.reasons == []
            else v.reasons != [] && (v.post in evals ==> v.reasons == FailureReasons(v.post) || v.post == [])
  {
    if recovery != [] && recovery[0] && FailureReasons(evals[0]) != [] {
      RecoversSays(recovery[1..], done[1..], evals[1..], v);
    } else if recovery != [] && !recovery[0] && done[0].success {
      RecoversSays(recovery[1..], done[1..], evals, v);
    }
  }

  lemma MoveOnward(mc: MonitorConfig, r0: Record, r: Record, op: Op, inp: Input, log: seq<Event>)
    requires inp.t <= inp.t2 && Halfway(mc, r0, r, op, log)
    ensures Halfway(mc, r0, Advance(mc, r, op, inp).rec, op.(pc := Advance(mc, r, op, inp).pc),
                    log + Advance(mc, r, op, inp).events)
  {
    AdvanceFollows(mc, r, op, inp);
    AdvanceExcused(mc, r, op, inp);
    hide Excused, Stands, Follows, StepChecked, StepFailing, StepStarting, StepClosing, StepPreChecked, StepOpening;
    if op.pc.Evaluated? && op.pc.site.AtCheck? {
      CheckedOnward(mc, r0, r, op, log);
    } else if op.pc.Evaluated? && op.pc.site.AtPreCheck? {
      PreCheckedOnward(mc, r0, r, op, log);
    } else if op.pc.Failing? {
      if AttemptsExhausted(mc, r) {
        SuppressedOnward(mc, r0, r, op, inp, log);
      } else {
        GoesOnToRecovery(mc, r0, r, op, inp, log);
      }
    } else if op.pc.Starting? {
      StartingOnward(mc, r0, r, op, inp, log);
    } else if op.pc.Closing? && !op.cancelled {
      if op.pc.recovered {
        RecoveredOnward(mc, r0, r, op, inp, log);
      } else {
        LostOnward(mc, r0, r, op, inp, log);
      }
    } else if op.pc.Opening? {
      OpeningOnward(mc, r0, r, op, log);
    } else {
      OtherOnward(mc, r0, r, op, inp, log);
    }
  }

  lemma CheckedOnward(mc: MonitorConfig, r0: Record, r: Record, op: Op, log: seq<Event>)
    requires op.pc.Evaluated? && op.pc.site.AtCheck? && Halfway(mc, r0, r, op, log)
    ensures Onward(mc, r0, StepChecked(mc, r, op), op, log)
  {
    hide Onward, Halfway, StepChecked;
    if op.cancelled {
      CheckCancelledOnward(mc, r0, r, op, log);
    } else if FailureReasons(op.pc.results) == [] {
      PassedOnward(mc, r0, r, op, log);
    } else {
      FailedOnward(mc, r0, r, op, log);
    }
  }

  lemma OtherOnward(mc: MonitorConfig, r0: Record, r: Record, op: Op, inp: Input, log: seq<Event>)
    requires inp.t <= inp.t2 && Stands(mc, r0, r, op, log)
    requires !op.pc.Failing? && !op.pc.Starting? && !op.pc.Opening? && (op.pc.Closing? ==> op.cancelled)
    requires op.pc.Evaluated? ==> op.pc.site.AtRecheck? || op.pc.site.AtFinal?
    ensures Onward(mc, r0, Advance(mc, r, op, inp), op, log)
  {
    hide Stands, Advance, Onward;
    if op.pc.Aborting? || op.pc.Closing? {
      UncountedOnward(mc, r0, r, op, inp, log);
    } else if op.pc.Acting? || op.pc.Acted? || op.pc.Evaluating? || op.pc.Evaluated? {
      LoopOnward(mc, r0, r, op, inp, log);
    } else {
      EdgeOnward(mc, r0, r, op, inp, log);
    }
  }

  lemma CancelKeepsHalfway(mc: MonitorConfig, r0: Record, r: Record, op: Op, log: seq<Event>)
    requires Halfway(mc, r0, r, op, log)
    ensures Halfway(mc, r0, r, op.(cancelled := true), log)
  {
    hide ExitEffect, InRecoveryOf, Prelude, MayRecover, SoFar, CameTo;
  }

  lemma {:induction false} ReplayHalfway(mc: MonitorConfig, r0: Record, m: Id, kind: Kind, run: seq<Label>, o: OpId)
    ensures var st := Replay(mc, Begin(r0, m, kind), run, o);
            st.op.kind == kind && st.op.monitor == m && Halfway(mc, r0, st.rec, st.op, st.events)
  {
    hide Advance;
    if run != [] {
      var n := |run| - 1;
      ReplayHalfway(mc, r0, m, kind, run[..n], o);
      hide Halfway;
      var st := Replay(mc, Begin(r0, m, kind), run[..n], o);
      match run[n] {
        case Cancel(o') => CancelKeepsHalfway(mc, r0, st.rec, st.op, st.events);
        case Step(o', inp) =>
          if o' == o && inp.t <= inp.t2 {
            MoveOnward(mc, r0, st.rec, st.op, inp, st.events);
          }
        case _ =>
      }
    }
  }

  /** Every finished operation had exactly the effect its exit stands for. */
  lemma OperationEffect(mc: MonitorConfig, r0: Record, m: Id, kind: Kind, run: seq<Label>, o: OpId)
    requires Replay(mc, Begin(r0, m, kind), run, o).op.pc.Finished?
    ensures var st := Replay(mc, Begin(r0, m, kind), run, o);
            ExitEffect(mc, m, kind, st.op.pc.exit, r0, st.rec, st.events) && Excused(st.op)
  {
    hide ExitEffect, Replay, Follows, Excused;
    ReplayHalfway(mc, r0, m, kind, run, o);
  }

  /** In every interleaving the k-th operation to take m's slot, once finished, took
      m's record from where the operations before it left it to a record that
      differs exactly by the effect of its exit. */
  lemma EveryOperationHasItsEffect(cfg: Config, s0: Sys, run: seq<Label>, m: Id, k: nat)
    requires JustStarted(cfg, s0) && IsRun(cfg, s0, run) && Crash !in run && m in cfg.monitors
    requires k < |LockOrder(cfg, s0, run, m)|
    ensures var mc := cfg.monitors[m]; var order := LockOrder(cfg, s0, run, m); var s := Exec(cfg, s0, run);
      var before := OneByOne(mc, m, s0.recs[m], order[..k], run);
      var after := OneByOne(mc, m, s0.recs[m], order[..k + 1], run);
      && order[k] in s.ops && s.ops[order[k]].monitor == m
      && before.events <= after.events
      && (s.ops[order[k]].pc.Finished? ==>
        ExitEffect(mc, m, s.ops[order[k]].kind, s.ops[order[k]].pc.exit, before.rec, after.rec,
                   after.events[|before.events|..])
        && Excused(s.ops[order[k]]))
  {
    hide Played, Excused, ExitEffect, Exec, LockOrder, Replay, OneByOne, CalledAs, IsRun;
    var mc := cfg.monitors[m];
    var order := LockOrder(cfg, s0, run, m);
    var s := Exec(cfg, s0, run);
    var o := order[k];
    AllPlayed(cfg, s0, run, m);
    PlayedMember(mc, s, m, s0.recs[m], order, run, k);
    var before := OneByOne(mc, m, s0.recs[m], order[..k], run);
    var st := Replay(mc, Begin(before.rec, m, CalledAs(run, o)), run, o);
    assert order[..k + 1] == order[..k] + [o];
    OneByOneLast(mc, m, s0.recs[m], order[..k], o, run);
    assert (before.events + st.events)[|before.events|..] == st.events;
    if s.ops[o].pc.Finished? {
      OperationEffect(mc, before.rec, m, CalledAs(run, o), run, o);
    }
  }

  lemma AllPlayed(cfg: Config, s0: Sys, run: seq<Label>, m: Id)
    requires JustStarted(cfg, s0) && IsRun(cfg, s0, run) && Crash !in run && m in cfg.monitors
    ensures Played(cfg.monitors[m], Exec(cfg, s0, run), m, s0.recs[m], LockOrder(cfg, s0, run, m), run)
  {
    SeriallyAlways(cfg, s0, run, m);
  }

  lemma {:induction false} PlayedMember(
    mc: MonitorConfig, s: Sys, m: Id, r: Record, order: seq<OpId>, run: seq<Label>, k: nat)
    requires Played(mc, s, m, r, order, run) && k < |order|
    ensures var o := order[k];
      && o in s.ops && s.ops[o].monitor == m && s.ops[o].kind == CalledAs(run, o)
      && Replay(mc, Begin(OneByOne(mc, m, r, order[..k], run).rec, m, CalledAs(run, o)), run, o).op == s.ops[o]
  {
    hide OneByOne, Replay, CalledAs;
    if k < |order| - 1 {
      PlayedMember(mc, s, m, r, order[..|order| - 1], run, k);
      assert order[..|order| - 1][..k] == order[..k];
    }
  }
}
