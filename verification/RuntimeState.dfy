/**
 MonitorRuntimeState of internal/state/types.go as the object it is: the sections
 of the engine write its fields in place. Each method is one section's part on the
 record, and returns the events the section appends.
 */
module RuntimeState {
  import opened Wrappers
  import opened MonitorRecord

  /** What an outcome leaves: the actions and the last evaluation are the last results, a success
      clears streak, exhaustion and reasons, and a failure is counted and exhausts exactly when
      it uses up the attempts. */
  predicate OutcomeWritten(
    mc: MonitorConfig, r0: Record, r: Record, actions: seq<ActionResult>, recovered: bool, post: seq<CheckResult>,
    reasons: seq<string>)
  {
    && r.lastRecoveryResults == actions && r.lastCheckResults == (if post == [] then r0.lastCheckResults else post)
    && r.recoveries == r0.recoveries + 1
    && if recovered then
         && r.status == Healthy && r.streak == 0 && !r.exhausted && r.lastError == r.lastFailureReasons == NoReason
         && r.recoveryFailures == r0.recoveryFailures
       else
         && r.status == Failed && r.streak == r0.streak && r.recoveryFailures == r0.recoveryFailures + 1
         && (r.exhausted <==> r0.exhausted || 0 < mc.maxAttempts <= r.recoveryFailures)
         && (reasons != [] ==>
               r.lastError == r.lastFailureReasons
               == if 0 < mc.maxAttempts <= r.recoveryFailures then ExhaustedAfter(r.recoveryFailures, reasons)
                  else Reasons(reasons))
  }

  /** MonitorRuntimeState, as far as the engine changes it. */
  class MonitorState {
    var status: Status
    var lastCheckStartedAt: Option<nat>
    var nextCheckAt: Option<nat>
    var lastCheckFinishedAt: Option<nat>
    var lastCheckDurationMS: int
    var lastSuccessAt: Option<nat>
    var lastFailureAt: Option<nat>
    var lastRecoveryAttemptAt: Option<nat>
    var lastRecoverySuccessAt: Option<nat>
    var lastRecoveryFailureAt: Option<nat>
    var cooldownUntil: Option<nat>
    var streak: nat
    var checkRuns: nat
    var successes: nat
    var failures: nat
    var recoveries: nat
    var recoveryFailures: nat
    var exhausted: bool
    var lastError: Reason
    var lastFailureReasons: Reason
    var lastCheckResults: seq<CheckResult>
    var lastRecoveryResults: seq<ActionResult>

    function Value(): Record
      reads this
    {
      Record(status, lastCheckStartedAt, nextCheckAt, lastCheckFinishedAt, lastCheckDurationMS,
             lastSuccessAt, lastFailureAt, lastRecoveryAttemptAt, lastRecoverySuccessAt, lastRecoveryFailureAt,
             cooldownUntil, streak, checkRuns, successes, failures, recoveries, recoveryFailures, exhausted,
             lastError, lastFailureReasons, lastCheckResults, lastRecoveryResults)
    }

    /** Used for loaded records and by CloneMonitorState. */
    constructor (r: Record)
      ensures Value() == r
    {
      status := r.status;
      lastCheckStartedAt, nextCheckAt := r.lastCheckStartedAt, r.nextCheckAt;
      lastCheckFinishedAt, lastCheckDurationMS := r.lastCheckFinishedAt, r.lastCheckDurationMS;
      lastSuccessAt, lastFailureAt := r.lastSuccessAt, r.lastFailureAt;
      lastRecoveryAttemptAt := r.lastRecoveryAttemptAt;
      lastRecoverySuccessAt, lastRecoveryFailureAt := r.lastRecoverySuccessAt, r.lastRecoveryFailureAt;
      cooldownUntil := r.cooldownUntil;
      streak, checkRuns, successes, failures := r.streak, r.checkRuns, r.successes, r.failures;
      recoveries, recoveryFailures, exhausted := r.recoveries, r.recoveryFailures, r.exhausted;
      lastError, lastFailureReasons := r.lastError, r.lastFailureReasons;
      lastCheckResults, lastRecoveryResults := r.lastCheckResults, r.lastRecoveryResults;
    }

    /** CloneMonitorState: a record of its own with the same contents. */
    method Clone() returns (copy: MonitorState)
      ensures fresh(copy) && copy.Value() == Value()
    {
      copy := new MonitorState(Value());
    }

    /** What NewManager does to the record of a configured monitor. */
    method Boot(mc: MonitorConfig)
      modifies this
      ensures Value() == BootRecord(mc, Some(old(Value()))) && Reloaded(mc, old(Value()), Value())
    {
      if !mc.enabled {
        status := Disabled;
      } else if status.Unset? {
        status := Unknown;
      }
    }

    method Restore(before: Status)
      modifies this
      ensures Value() == old(Value()).(status := before)
    {
      status := before;
    }

    method Open(mc: MonitorConfig, start: nat)
      modifies this
      ensures Value() == BeginCheck(mc, old(Value()), start)
    {
      status := Checking;
      lastCheckStartedAt := Some(Secs(start));
      nextCheckAt := Some(Secs(start + mc.interval));
    }

    method Count(start: nat, finished: nat, results: seq<CheckResult>)
      modifies this
      ensures Value() == CountCheck(old(Value()), start, finished, results)
    {
      checkRuns := checkRuns + 1;
      lastCheckFinishedAt := Some(Secs(finished));
      lastCheckDurationMS := (finished - start) / 1_000_000;
      lastCheckResults := results;
    }

    /** The two places a reason is kept in. */
    method Explain(reason: Reason)
      modifies this
      ensures Value() == old(Value()).(lastError := reason, lastFailureReasons := reason)
    {
      lastError := reason;
      lastFailureReasons := reason;
    }

    /** What a passed check and a successful recovery both reset. */
    method Clear()
      modifies this
      ensures Value() == old(Value()).(status := Healthy, streak := 0, exhausted := false,
                                       lastError := NoReason, lastFailureReasons := NoReason)
    {
      status := Healthy;
      streak := 0;
      Explain(NoReason);
      exhausted := false;
    }

    method Pass(id: Id, before: Status, start: nat, finished: nat, results: seq<CheckResult>)
      returns (events: seq<Event>)
      modifies this
      ensures Effect(Value(), events) == PassCheck(id, old(Value()), before, start, finished, results)
    {
      Count(start, finished, results);
      Clear();
      successes := successes + 1;
      lastSuccessAt := Some(Secs(finished));
      events := [];
      if RecordsHealthyEvent(before) {
        events := [Event(id, CheckSucceeded, Secs(finished), before, Healthy, NoReason, 0, 0, results, [])];
      }
    }

    method Fail(id: Id, before: Status, start: nat, finished: nat, results: seq<CheckResult>, reasons: seq<string>)
      returns (events: seq<Event>)
      requires reasons == FailureReasons(results)
      modifies this
      ensures Effect(Value(), events) == FailCheck(id, old(Value()), before, start, finished, results)
    {
      Count(start, finished, results);
      status := Degraded;
      failures := failures + 1;
      streak := streak + 1;
      lastFailureAt := Some(Secs(finished));
      Explain(Reasons(reasons));
      events := [Event(id, CheckFailed, Secs(finished), before, Degraded, Reasons(reasons), streak, 0, results, [])];
    }

    /** appendRecoveryExhaustedEventLocked */
    method Announce(mc: MonitorConfig, id: Id, t: nat, results: seq<CheckResult>, reasons: seq<string>)
      returns (events: seq<Event>)
      modifies this
      ensures Effect(Value(), events) == Exhaust(mc, id, old(Value()), t, results, reasons)
    {
      var reason := ExhaustedAfter(recoveryFailures, reasons);
      status := Failed;
      Explain(reason);
      exhausted := true;
      cooldownUntil := Some(Secs(t + mc.cooldown));
      events := [Event(id, RecoveryExhausted, Secs(t), Degraded, Failed, reason, streak, recoveries, results, [])];
    }

    /** markRecoveryExhaustedLocked */
    method Suppress(mc: MonitorConfig, id: Id, t: nat, results: seq<CheckResult>, reasons: seq<string>)
      returns (events: seq<Event>)
      modifies this
      ensures Effect(Value(), events) == MarkExhausted(mc, id, old(Value()), t, results, reasons)
    {
      if exhausted {
        var reason := ExhaustedAfter(recoveryFailures, []);
        status := Failed;
        Explain(reason);
        return [];
      }
      events := Announce(mc, id, t, results, reasons);
    }

    method BeginRecovery(
      mc: MonitorConfig, id: Id, before: Status, t: nat, results: seq<CheckResult>, reasons: seq<string>)
      returns (events: seq<Event>)
      modifies this
      ensures Effect(Value(), events) == StartRecovery(mc, id, old(Value()), before, t, results, reasons)
    {
      status := Recovering;
      lastRecoveryAttemptAt := Some(Secs(t));
      cooldownUntil := Some(Secs(t + mc.cooldown));
      events := [Event(id, RecoveryStarted, Secs(t), before, Recovering, Reasons(reasons), streak, 0, results, [])];
    }

    method Finish(mc: MonitorConfig, t: nat, actions: seq<ActionResult>, post: seq<CheckResult>)
      modifies this
      ensures Value() == CountRecovery(mc, old(Value()), t, actions, post)
    {
      cooldownUntil := Some(Secs(t + mc.cooldown));
      lastRecoveryResults := actions;
      recoveries := recoveries + 1;
      if |post| > 0 {
        lastCheckResults := post;
      }
    }

    method Succeed(mc: MonitorConfig, id: Id, t: nat, actions: seq<ActionResult>, post: seq<CheckResult>)
      returns (events: seq<Event>)
      modifies this
      ensures Effect(Value(), events) == RecoverySuccess(mc, id, old(Value()), t, actions, post)
    {
      Finish(mc, t, actions, post);
      Clear();
      lastRecoverySuccessAt := Some(Secs(t));
      lastSuccessAt := Some(Secs(t));
      events := [Event(id, RecoverySucceeded, Secs(t), Recovering, Healthy, NoReason, 0, recoveries, post, actions)];
    }

    method Lose(
      mc: MonitorConfig, id: Id, t: nat, actions: seq<ActionResult>, post: seq<CheckResult>, reasons: seq<string>)
      returns (events: seq<Event>)
      modifies this
      ensures Effect(Value(), events) == RecoveryFailure(mc, id, old(Value()), t, actions, post, reasons)
    {
      Finish(mc, t, actions, post);
      status := Failed;
      recoveryFailures := recoveryFailures + 1;
      lastRecoveryFailureAt := Some(Secs(t));
      if |reasons| > 0 {
        Explain(Reasons(reasons));
      }
      events := [Event(id, RecoveryFailed, Secs(t), Recovering, Failed, Reasons(reasons), streak, recoveries, post,
                       actions)];
    }

    /** applyRecoveryOutcomeLocked */
    method EndRecovery(
      mc: MonitorConfig, id: Id, t: nat, t2: nat,
      actions: seq<ActionResult>, recovered: bool, post: seq<CheckResult>, reasons: seq<string>)
      returns (events: seq<Event>)
      modifies this
      ensures Effect(Value(), events) == ApplyOutcome(mc, id, old(Value()), t, t2, actions, recovered, post, reasons)
      ensures OutcomeWritten(mc, old(Value()), Value(), actions, recovered, post, reasons)
    {
      if recovered {
        events := Succeed(mc, id, t, actions, post);
        return;
      }
      events := Lose(mc, id, t, actions, post, reasons);
      if AttemptsExhausted(mc, Value()) {
        var more := Announce(mc, id, t2, post, reasons);
        events := events + more;
      }
    }
  }
}
