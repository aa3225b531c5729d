/**
 The stretches of an operation's way, each as a step from one reached place to the
 next: taking the slot, an evaluation, the start of a recovery, an action.
 */
module Paths {
  import opened MonitorRecord
  import opened RecoveryMachine
  import opened System
  import opened Locking
  import opened Serial
  import opened Solo

  /** The same story at another place. */
  function Put(st: Story, pc: PC): Story {
    st.(op := st.op.(pc := pc))
  }

  /** An input at the mover's time; checks and actions answer this, and saves succeed. */
  function Now(v: Mover, check: CheckResult, action: ActionResult): Input {
    Input(v.at, v.at, check, action, Saved, false)
  }

  function Quietly(v: Mover): Input {
    Now(v, CheckResult(true, ""), RecheckResult)
  }

  ghost predicate Ready(cfg: Config, v: Mover, st: Story) {
    v.monitor in cfg.monitors && st.op.monitor == v.monitor && !st.op.pc.Finished?
  }

  /** One step with this outcome. */
  lemma MovesTo(cfg: Config, s: Sys, v: Mover, st: Story, inp: Input, next: Local)
    requires Reaches(cfg, s, v, st) && Ready(cfg, v, st) && inp.t == inp.t2 == v.at
    requires Advance(cfg.monitors[v.monitor], st.rec, st.op, inp) == next
    ensures Reaches(cfg, s, v, Story(next.rec, st.op.(pc := next.pc), st.events + next.events))
  {
    hide Reaches, Advance;
    ReachesStep(cfg, s, v, st, inp);
  }

  /** One step that leaves the record alone. */
  lemma Goes(cfg: Config, s: Sys, v: Mover, st: Story, inp: Input, pc: PC)
    requires Reaches(cfg, s, v, st) && Ready(cfg, v, st) && inp.t == inp.t2 == v.at
    requires Advance(cfg.monitors[v.monitor], st.rec, st.op, inp) == Quiet(st.rec, pc)
    ensures Reaches(cfg, s, v, Put(st, pc))
  {
    hide Reaches, Advance;
    MovesTo(cfg, s, v, st, inp, Quiet(st.rec, pc));
    assert st.events + [] == st.events;
  }

  lemma Locks(cfg: Config, s: Sys, v: Mover, st: Story)
    requires Reaches(cfg, s, v, st) && Ready(cfg, v, st) && st.op.pc == Called && !st.op.cancelled
    ensures Reaches(cfg, s, v, Put(st, Locked))
  {
    hide Reaches;
    Goes(cfg, s, v, st, Quietly(v), Waiting);
    Goes(cfg, s, v, Put(st, Waiting), Quietly(v), Locked);
  }

  /** A manual recovery up to its evaluation. */
  lemma EntersForced(cfg: Config, s: Sys, v: Mover, st: Story)
    requires Reaches(cfg, s, v, st) && Ready(cfg, v, st) && st.op == NewOp(v.monitor, Forced)
    ensures Reaches(cfg, s, v, Put(st, Evaluating(AtPreCheck, [])))
  {
    hide Reaches;
    Locks(cfg, s, v, st);
    Goes(cfg, s, v, Put(st, Locked), Quietly(v), Evaluating(AtPreCheck, []));
  }

  /** A check up to its evaluation. */
  lemma EntersCheck(cfg: Config, s: Sys, v: Mover, st: Story)
    requires Reaches(cfg, s, v, st) && Ready(cfg, v, st) && st.op == NewOp(v.monitor, Cycle)
    ensures var site := AtCheck(v.at, st.rec.status);
      Reaches(cfg, s, v, Put(st.(rec := BeginCheck(cfg.monitors[v.monitor], st.rec, v.at)), Evaluating(site, [])))
  {
    hide Reaches, BeginCheck;
    Locks(cfg, s, v, st);
    Goes(cfg, s, v, Put(st, Locked), Quietly(v), Entering);
    Goes(cfg, s, v, Put(st, Entering), Quietly(v), Opening(v.at));
    var site := AtCheck(v.at, st.rec.status);
    var next := Local(BeginCheck(cfg.monitors[v.monitor], st.rec, v.at), Evaluating(site, []), [], true);
    MovesTo(cfg, s, v, Put(st, Opening(v.at)), Quietly(v), next);
    assert st.events + [] == st.events;
  }

  lemma {:induction false} EvaluatesOn(
    cfg: Config, s: Sys, v: Mover, st: Story, site: Site, sofar: seq<CheckResult>, rest: seq<CheckResult>)
    requires Ready(cfg, v, st) && !st.op.cancelled && |sofar| + |rest| == cfg.monitors[v.monitor].checks
    requires Reaches(cfg, s, v, Put(st, Evaluating(site, sofar)))
    ensures Reaches(cfg, s, v, Put(st, Evaluated(site, sofar + rest, v.at)))
    decreases |rest|
  {
    hide Reaches;
    if rest == [] {
      Goes(cfg, s, v, Put(st, Evaluating(site, sofar)), Quietly(v), Evaluated(site, sofar, v.at));
      assert sofar + rest == sofar;
    } else {
      var inp := Now(v, rest[0], RecheckResult);
      Goes(cfg, s, v, Put(st, Evaluating(site, sofar)), inp, Evaluating(site, sofar + [rest[0]]));
      EvaluatesOn(cfg, s, v, st, site, sofar + [rest[0]], rest[1..]);
      assert sofar + [rest[0]] + rest[1..] == sofar + rest;
    }
  }

  /** An evaluation may have any complete results. */
  lemma Evaluates(cfg: Config, s: Sys, v: Mover, st: Story, site: Site, results: seq<CheckResult>)
    requires Ready(cfg, v, st) && !st.op.cancelled && |results| == cfg.monitors[v.monitor].checks
    requires Reaches(cfg, s, v, Put(st, Evaluating(site, [])))
    ensures Reaches(cfg, s, v, Put(st, Evaluated(site, results, v.at)))
  {
    hide Reaches;
    EvaluatesOn(cfg, s, v, st, site, [], results);
    assert [] + results == results;
  }

  /** An action and the test of the context after it. */
  lemma Acts(
    cfg: Config, s: Sys, v: Mover, st: Story, before: Status, since: nat, done: seq<ActionResult>, result: ActionResult)
    requires Ready(cfg, v, st) && !st.op.cancelled && |done| < |cfg.monitors[v.monitor].recovery|
    requires Reaches(cfg, s, v, Put(st, Acting(before, since, done)))
    requires cfg.monitors[v.monitor].recovery[|done|] ==> result == RecheckResult
    ensures Reaches(cfg, s, v, Put(st, AfterAction(cfg.monitors[v.monitor], before, since, done, result)))
  {
    hide Reaches;
    var recheck := cfg.monitors[v.monitor].recovery[|done|];
    var inp := Now(v, CheckResult(true, ""), result);
    var acted := Acted(before, since, done, recheck, result);
    Goes(cfg, s, v, Put(st, Acting(before, since, done)), inp, acted);
    Goes(cfg, s, v, Put(st, acted), inp, AfterAction(cfg.monitors[v.monitor], before, since, done, result));
  }

  function AfterAction(
    mc: MonitorConfig, before: Status, since: nat, done: seq<ActionResult>, result: ActionResult): PC
    requires |done| < |mc.recovery|
  {
    var all := done + [result];
    if mc.recovery[|done|] then Evaluating(AtRecheck(before, since, all), [])
    else if result.success then Acting(before, since, all)
    else Closing(before, since, all, false, [], [result.message])
  }

  /** The start of a recovery, saved. */
  lemma Starts(
    cfg: Config, s: Sys, v: Mover, st: Story, before: Status, results: seq<CheckResult>, reasons: seq<string>)
    requires Ready(cfg, v, st) && !st.op.cancelled
    requires Reaches(cfg, s, v, Put(st, Starting(before, results, reasons)))
    ensures var e := StartRecovery(cfg.monitors[v.monitor], v.monitor, st.rec, before, v.at, results, reasons);
      Reaches(cfg, s, v, Story(e.rec, st.op.(pc := Acting(before, v.at, [])), st.events + e.events))
  {
    hide Reaches, StartRecovery;
    var e := StartRecovery(cfg.monitors[v.monitor], v.monitor, st.rec, before, v.at, results, reasons);
    MovesTo(cfg, s, v, Put(st, Starting(before, results, reasons)), Quietly(v),
          Local(e.rec, Acting(before, v.at, []), e.events, true));
  }

  /** A manual recovery from its evaluation to its saved start. */
  lemma StartsForced(cfg: Config, s: Sys, v: Mover, st: Story, results: seq<CheckResult>)
    requires Ready(cfg, v, st) && !st.op.cancelled && |results| == cfg.monitors[v.monitor].checks
    requires Reaches(cfg, s, v, Put(st, Evaluating(AtPreCheck, [])))
    ensures var before := if st.rec.status.Unset? then Unknown else st.rec.status;
      var reasons := FailureReasons(results) + [ManualReason];
      var e := StartRecovery(cfg.monitors[v.monitor], v.monitor, st.rec, before, v.at, results, reasons);
      Reaches(cfg, s, v, Story(e.rec, st.op.(pc := Acting(before, v.at, [])), st.events + e.events))
  {
    hide Reaches, FailureReasons, StartRecovery;
    var before := if st.rec.status.Unset? then Unknown else st.rec.status;
    var reasons := FailureReasons(results) + [ManualReason];
    Evaluates(cfg, s, v, st, AtPreCheck, results);
    Goes(cfg, s, v, Put(st, Evaluated(AtPreCheck, results, v.at)), Quietly(v), Starting(before, results, reasons));
    Starts(cfg, s, v, st, before, results, reasons);
  }

  /** The record a failed check leaves. */
  function FailedCheck(mc: MonitorConfig, v: Mover, r: Record, results: seq<CheckResult>): Effect {
    FailCheck(v.monitor, BeginCheck(mc, r, v.at), r.status, v.at, v.at, results)
  }

  /** A check that fails, up to the decision about recovery. */
  lemma FailsCheck(cfg: Config, s: Sys, v: Mover, st: Story, results: seq<CheckResult>)
    requires Reaches(cfg, s, v, st) && Ready(cfg, v, st) && st.op == NewOp(v.monitor, Cycle)
    requires |results| == cfg.monitors[v.monitor].checks && FailureReasons(results) != []
    ensures var mc := cfg.monitors[v.monitor]; var e := FailedCheck(mc, v, st.rec, results);
      var pc := if ShouldRecover(mc, e.rec, v.at) then Failing(results) else Releasing(NoRecovery);
      Reaches(cfg, s, v, Story(e.rec, st.op.(pc := pc), st.events + e.events))
  {
    hide Reaches, FailureReasons, BeginCheck, FailCheck, ShouldRecover;
    var mc := cfg.monitors[v.monitor];
    var site := AtCheck(v.at, st.rec.status);
    var st1 := st.(rec := BeginCheck(mc, st.rec, v.at));
    EntersCheck(cfg, s, v, st);
    Evaluates(cfg, s, v, st1, site, results);
    var e := FailedCheck(mc, v, st.rec, results);
    var pc := if ShouldRecover(mc, e.rec, v.at) then Failing(results) else Releasing(NoRecovery);
    MovesTo(cfg, s, v, Put(st1, Evaluated(site, results, v.at)), Quietly(v), Local(e.rec, pc, e.events, true));
  }

  /** ... and on to the saved start of an automatic recovery. */
  lemma StartsAutomatically(cfg: Config, s: Sys, v: Mover, st: Story, results: seq<CheckResult>)
    requires Ready(cfg, v, st) && st.op.kind.Cycle? && !st.op.cancelled
    requires Reaches(cfg, s, v, Put(st, Failing(results))) && !AttemptsExhausted(cfg.monitors[v.monitor], st.rec)
    ensures var reasons := FailureReasons(results);
      var e := StartRecovery(cfg.monitors[v.monitor], v.monitor, st.rec, Degraded, v.at, results, reasons);
      Reaches(cfg, s, v, Put(st, Starting(Degraded, results, reasons)))
      && Reaches(cfg, s, v, Story(e.rec, st.op.(pc := Acting(Degraded, v.at, [])), st.events + e.events))
  {
    hide Reaches, FailureReasons, StartRecovery, AttemptsExhausted;
    var reasons := FailureReasons(results);
    Goes(cfg, s, v, Put(st, Failing(results)), Quietly(v), Starting(Degraded, results, reasons));
    Starts(cfg, s, v, st, Degraded, results, reasons);
  }

  lemma Releases(cfg: Config, s: Sys, v: Mover, st: Story, exit: Exit)
    requires Ready(cfg, v, st) && Reaches(cfg, s, v, Put(st, Releasing(exit)))
    ensures Reaches(cfg, s, v, Put(st, Finished(exit)))
  {
    hide Reaches;
    Goes(cfg, s, v, Put(st, Releasing(exit)), Quietly(v), Finished(exit));
  }

  /** A lost outcome, applied, and the slot given back. */
  lemma Loses(
    cfg: Config, s: Sys, v: Mover, st: Story, before: Status, since: nat, done: seq<ActionResult>,
    post: seq<CheckResult>, reasons: seq<string>)
    requires Ready(cfg, v, st) && !st.op.cancelled
    requires Reaches(cfg, s, v, Put(st, Closing(before, since, done, false, post, reasons)))
    ensures var e := ApplyOutcome(cfg.monitors[v.monitor], v.monitor, st.rec, v.at, v.at, done, false, post, reasons);
      Reaches(cfg, s, v, Story(e.rec, st.op.(pc := Finished(RecoveryLost)), st.events + e.events))
  {
    hide Reaches, ApplyOutcome;
    var e := ApplyOutcome(cfg.monitors[v.monitor], v.monitor, st.rec, v.at, v.at, done, false, post, reasons);
    MovesTo(cfg, s, v, Put(st, Closing(before, since, done, false, post, reasons)), Quietly(v),
          Local(e.rec, Releasing(RecoveryLost), e.events, true));
    var st1 := Story(e.rec, st.op, st.events + e.events);
    Releases(cfg, s, v, st1, RecoveryLost);
  }
}
