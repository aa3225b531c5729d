/**
 The runtime record of one monitor (internal/state/types.go), the events it
 produces (internal/events/types.go), and what each critical section of
 internal/engine/manager.go does to that record.

 Clock readings are nanoseconds. A stored time stamp is the RFC 3339 text of a
 reading, which keeps whole seconds only, so it is modelled as a number of
 seconds and every store goes through Secs.
 */
module MonitorRecord {
  import opened Wrappers

  type Id = string

  const NS: nat := 1_000_000_000

  /** The whole seconds of a clock reading: what time.RFC3339 keeps of it. */
  function Secs(t: nat): nat {
    t / NS
  }

  datatype Status =
    | Unset | Unknown | Healthy | Checking | Degraded | Recovering | Failed | Disabled
    | Other(text: string)

  datatype CheckResult = CheckResult(success: bool, message: string)

  datatype ActionResult = ActionResult(success: bool, message: string)

  /** Failure text is kept as the parts it is joined from. */
  datatype Reason =
    | Reasons(list: seq<string>)
    | ExhaustedAfter(failedAttempts: nat, list: seq<string>)

  const NoReason := Reasons([])

  datatype EventKind =
    | CheckSucceeded | CheckFailed | RecoveryStarted
    | RecoverySucceeded | RecoveryFailed | RecoveryExhausted

  datatype Event = Event(
    monitor: Id, kind: EventKind, at: nat, before: Status, after: Status, reason: Reason,
    streak: nat, recoveries: nat, checks: seq<CheckResult>, actions: seq<ActionResult>)

  /** The part of a monitor's configuration the engine reads. Durations are in
      nanoseconds; `recovery` says of each action whether it is a recheck. */
  datatype MonitorConfig = MonitorConfig(
    enabled: bool, interval: nat, cooldown: nat, threshold: int, maxAttempts: nat,
    checks: nat, recovery: seq<bool>)

  datatype Record = Record(
    status: Status,
    lastCheckStartedAt: Option<nat>,
    nextCheckAt: Option<nat>,
    lastCheckFinishedAt: Option<nat>,
    lastCheckDurationMS: int,
    lastSuccessAt: Option<nat>,
    lastFailureAt: Option<nat>,
    lastRecoveryAttemptAt: Option<nat>,
    lastRecoverySuccessAt: Option<nat>,
    lastRecoveryFailureAt: Option<nat>,
    cooldownUntil: Option<nat>,
    streak: nat,
    checkRuns: nat,
    successes: nat,
    failures: nat,
    recoveries: nat,
    recoveryFailures: nat,
    exhausted: bool,
    lastError: Reason,
    lastFailureReasons: Reason,
    lastCheckResults: seq<CheckResult>,
    lastRecoveryResults: seq<ActionResult>)

  /** The record ensureMonitorStateLocked makes for a monitor it has not seen. */
  const FreshRecord := Record(
    Unknown, None, None, None, 0, None, None, None, None, None, None,
    0, 0, 0, 0, 0, 0, false, NoReason, NoReason, [], [])

  /** The messages of the failing results, in order. */
  function FailureReasons(results: seq<CheckResult>): seq<string> {
    if results == [] then []
    else
      var n := |results| - 1;
      FailureReasons(results[..n]) + if results[n].success then [] else [results[n].message]
  }

  /** There are no reasons exactly when no check failed. */
  lemma {:induction false} FailureReasonsEmpty(results: seq<CheckResult>)
    ensures FailureReasons(results) == [] <==> forall k | 0 <= k < |results| :: results[k].success
  {
    if results != [] {
      FailureReasonsEmpty(results[..|results| - 1]);
    }
  }

  /** The places of the failing results, from the first to the last. */
  ghost predicate FailingPlaces(results: seq<CheckResult>, places: seq<nat>) {
    && (forall i, j | 0 <= i < j < |places| :: places[i] < places[j])
    && (forall i | 0 <= i < |places| :: places[i] < |results| && !results[places[i]].success)
    && (forall k: nat | k < |results| && !results[k].success :: k in places)
  }

  /** The reasons are the messages of the failing results, all of them and in their order. */
  lemma {:induction false} FailureReasonsExactly(results: seq<CheckResult>) returns (places: seq<nat>)
    ensures FailingPlaces(results, places)
    ensures |FailureReasons(results)| == |places|
    ensures forall i | 0 <= i < |places| :: FailureReasons(results)[i] == results[places[i]].message
  {
    if results == [] {
      places := [];
    } else {
      var n := |results| - 1;
      var before := FailureReasonsExactly(results[..n]);
      places := before + if results[n].success then [] else [n];
      OneMorePlace(results, before);
    }
  }

  lemma OneMorePlace(results: seq<CheckResult>, before: seq<nat>)
    requires results != [] && FailingPlaces(results[..|results| - 1], before)
    ensures FailingPlaces(results, before + if results[|results| - 1].success then [] else [|results| - 1])
  {
    var n := |results| - 1;
    var places := before + if results[n].success then [] else [n];
    assert forall i | 0 <= i < |before| :: before[i] < n && results[..n][before[i]] == results[before[i]];
    forall k: nat | k < |results| && !results[k].success ensures k in places {
      if k < n {
        assert !results[..n][k].success;
        assert k in before;
      } else {
        assert places[|places| - 1] == n;
      }
    }
  }

  predicate CooldownActive(until: Option<nat>, now: nat) {
    until.Some? && until.value * NS > now
  }

  predicate AttemptsExhausted(mc: MonitorConfig, r: Record) {
    mc.maxAttempts > 0 && r.recoveryFailures >= mc.maxAttempts
  }

  predicate RecordsHealthyEvent(before: Status) {
    before.Degraded? || before.Failed? || before.Recovering?
  }

  /** A new record together with the events appended on the way. */
  datatype Effect = Effect(rec: Record, events: seq<Event>)

  // ---- critical sections of runMonitorCycle

  function BeginCheck(mc: MonitorConfig, r: Record, start: nat): Record {
    r.(status := Checking,
       lastCheckStartedAt := Some(Secs(start)),
       nextCheckAt := Some(Secs(start + mc.interval)))
  }

  function CountCheck(r: Record, start: nat, finished: nat, results: seq<CheckResult>): Record {
    r.(checkRuns := r.checkRuns + 1,
       lastCheckFinishedAt := Some(Secs(finished)),
       lastCheckDurationMS := (finished - start) / 1_000_000,
       lastCheckResults := results)
  }

  function PassCheck(id: Id, r: Record, before: Status, start: nat, finished: nat, results: seq<CheckResult>): Effect {
    Effect(
      CountCheck(r, start, finished, results).(
      status := Healthy,
      streak := 0,
      successes := r.successes + 1,
      lastSuccessAt := Some(Secs(finished)),
      lastError := NoReason,
      lastFailureReasons := NoReason,
      exhausted := false),
      if RecordsHealthyEvent(before)
      then [Event(id, CheckSucceeded, Secs(finished), before, Healthy, NoReason, 0, 0, results, [])]
      else [])
  }

  function FailCheck(id: Id, r: Record, before: Status, start: nat, finished: nat, results: seq<CheckResult>): Effect {
    var reasons := Reasons(FailureReasons(results));
    Effect(
      CountCheck(r, start, finished, results).(
      status := Degraded,
      failures := r.failures + 1,
      streak := r.streak + 1,
      lastFailureAt := Some(Secs(finished)),
      lastError := reasons,
      lastFailureReasons := reasons),
      [Event(id, CheckFailed, Secs(finished), before, Degraded, reasons, r.streak + 1, 0, results, [])])
  }

  /** Whether the cycle goes on to recovery, read from the record FailCheck leaves. */
  predicate ShouldRecover(mc: MonitorConfig, r: Record, finished: nat) {
    r.streak >= mc.threshold && !CooldownActive(r.cooldownUntil, finished)
  }

  // ---- exhaustion

  function Exhaust(mc: MonitorConfig, id: Id, r: Record, t: nat, results: seq<CheckResult>,
                   reasons: seq<string>): Effect
  {
    var reason := ExhaustedAfter(r.recoveryFailures, reasons);
    Effect(
      r.(status := Failed,
         lastError := reason,
         lastFailureReasons := reason,
         exhausted := true,
         cooldownUntil := Some(Secs(t + mc.cooldown))),
      [Event(id, RecoveryExhausted, Secs(t), Degraded, Failed, reason, r.streak, r.recoveries, results, [])])
  }

  function MarkExhausted(mc: MonitorConfig, id: Id, r: Record, t: nat, results: seq<CheckResult>,
                         reasons: seq<string>): Effect
  {
    if r.exhausted then
      var reason := ExhaustedAfter(r.recoveryFailures, []);
      Effect(r.(status := Failed, lastError := reason, lastFailureReasons := reason), [])
    else
      Exhaust(mc, id, r, t, results, reasons)
  }

  // ---- recovery

  function StartRecovery(
    mc: MonitorConfig, id: Id, r: Record, before: Status, t: nat, results: seq<CheckResult>,
    reasons: seq<string>): Effect
  {
    Effect(
      r.(status := Recovering,
         lastRecoveryAttemptAt := Some(Secs(t)),
         cooldownUntil := Some(Secs(t + mc.cooldown))),
      [Event(id, RecoveryStarted, Secs(t), before, Recovering, Reasons(reasons), r.streak, 0, results, [])])
  }

  function CountRecovery(mc: MonitorConfig, r: Record, t: nat, actions: seq<ActionResult>,
                         post: seq<CheckResult>): Record
  {
    r.(cooldownUntil := Some(Secs(t + mc.cooldown)),
       lastRecoveryResults := actions,
       recoveries := r.recoveries + 1,
       lastCheckResults := if post == [] then r.lastCheckResults else post)
  }

  function RecoverySuccess(
    mc: MonitorConfig, id: Id, r: Record, t: nat, actions: seq<ActionResult>, post: seq<CheckResult>): Effect
  {
    Effect(
      CountRecovery(mc, r, t, actions, post).(
      status := Healthy,
      streak := 0,
      lastRecoverySuccessAt := Some(Secs(t)),
      lastSuccessAt := Some(Secs(t)),
      lastError := NoReason,
      lastFailureReasons := NoReason,
      exhausted := false),
      [Event(id, RecoverySucceeded, Secs(t), Recovering, Healthy, NoReason, 0, r.recoveries + 1, post, actions)])
  }

  function RecoveryFailure(
    mc: MonitorConfig, id: Id, r: Record, t: nat, actions: seq<ActionResult>, post: seq<CheckResult>,
    reasons: seq<string>): Effect
  {
    Effect(
      CountRecovery(mc, r, t, actions, post).(
      status := Failed,
      recoveryFailures := r.recoveryFailures + 1,
      lastRecoveryFailureAt := Some(Secs(t)),
      lastError := if reasons == [] then r.lastError else Reasons(reasons),
      lastFailureReasons := if reasons == [] then r.lastFailureReasons else Reasons(reasons)),
      [Event(id, RecoveryFailed, Secs(t), Recovering, Failed, Reasons(reasons), r.streak, r.recoveries + 1, post,
             actions)])
  }

  /** applyRecoveryOutcomeLocked. The clock is read a second time, at t2, when
      the failed attempt uses up the last one allowed. */
  function ApplyOutcome(
    mc: MonitorConfig, id: Id, r: Record, t: nat, t2: nat,
    actions: seq<ActionResult>, recovered: bool, post: seq<CheckResult>, reasons: seq<string>): Effect
  {
    if recovered then
      RecoverySuccess(mc, id, r, t, actions, post)
    else
      var failed := RecoveryFailure(mc, id, r, t, actions, post, reasons);
      if AttemptsExhausted(mc, failed.rec) then
        var last := Exhaust(mc, id, failed.rec, t2, post, reasons);
        Effect(last.rec, failed.events + last.events)
      else
        failed
  }

  // ---- restart

  /** NewManager's treatment of one configured monitor over a loaded snapshot. */
  function BootRecord(mc: MonitorConfig, saved: Option<Record>): Record {
    var r := if saved.Some? then saved.value else FreshRecord;
    if !mc.enabled then r.(status := Disabled)
    else if r.status.Unset? then r.(status := Unknown)
    else r
  }

  /** A loaded record keeps every field but the status, which a disabled monitor loses
      and an empty one gets. */
  predicate Reloaded(mc: MonitorConfig, saved: Record, r: Record) {
    && r == saved.(status := r.status)
    && (!mc.enabled ==> r.status == Disabled)
    && (mc.enabled && saved.status == Unset ==> r.status == Unknown)
    && (mc.enabled && saved.status != Unset ==> r.status == saved.status)
  }

  /** The record of a monitor nothing is known of: no time, no count, no reason, no result. */
  predicate Unseen(mc: MonitorConfig, r: Record) {
    && r.status == (if mc.enabled then Unknown else Disabled)
    && r.lastCheckStartedAt == r.nextCheckAt == r.lastCheckFinishedAt == None && r.lastCheckDurationMS == 0
    && r.lastSuccessAt == r.lastFailureAt == r.cooldownUntil == None
    && r.lastRecoveryAttemptAt == r.lastRecoverySuccessAt == r.lastRecoveryFailureAt == None
    && r.streak == r.checkRuns == r.successes == r.failures == r.recoveries == r.recoveryFailures == 0
    && !r.exhausted && r.lastError == r.lastFailureReasons == Reasons([])
    && r.lastCheckResults == [] && r.lastRecoveryResults == []
  }
}
