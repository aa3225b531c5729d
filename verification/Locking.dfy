/**
 The lock discipline: one operation at a time on each monitor, whoever holds a
 slot can move, and only the holder touches the monitor's record.
 */
module Locking {
  import opened MonitorRecord
  import opened RecoveryMachine
  import opened System

  ghost predicate Holder(s: Sys, o: OpId, m: Id) {
    o in s.ops && s.ops[o].monitor == m && Holds(s.ops[o].pc)
  }

  ghost predicate OpsKnown(cfg: Config, s: Sys) {
    && (!s.up ==> s.ops == map[] && s.slots == {})
    && (s.up ==> cfg.monitors.Keys <= s.recs.Keys)
    && forall o | o in s.ops :: s.ops[o].monitor in cfg.monitors
  }

  ghost predicate SlotsExact(s: Sys) {
    && (forall m | m in s.slots :: exists o :: Holder(s, o, m))
    && (forall o, m :: Holder(s, o, m) ==> m in s.slots)
  }

  ghost predicate Exclusive(s: Sys) {
    forall o1, o2, m :: Holder(s, o1, m) && Holder(s, o2, m) ==> o1 == o2
  }

  ghost predicate Disciplined(cfg: Config, s: Sys) {
    OpsKnown(cfg, s) && SlotsExact(s) && Exclusive(s)
  }

  /** An operation gains or loses its slot only at the two ends of its callback,
      and outside the callback it touches nothing. */
  predicate SlotMove(op: Op, inp: Input, r: Record, next: Local) {
    && (Holds(op.pc) ==> (Holds(next.pc) <==> !op.pc.Releasing?))
    && (!Holds(op.pc) ==> (Holds(next.pc) <==> Acquires(op, inp)))
    && (!Holds(op.pc) ==> next.rec == r && next.events == [] && !next.persist)
  }

  lemma AdvanceHolds(mc: MonitorConfig, r: Record, op: Op, inp: Input)
    requires inp.t <= inp.t2
    ensures SlotMove(op, inp, r, Advance(mc, r, op, inp))
  {
  }

  /** A process that has just come up: no operation yet, every slot free. */
  ghost predicate JustStarted(cfg: Config, s: Sys) {
    s.up && s.ops == map[] && s.slots == {} && cfg.monitors.Keys <= s.recs.Keys
  }

  /** The events of a move are about the mover's monitor. */
  predicate Own(events: seq<Event>, m: Id) {
    forall k | 0 <= k < |events| :: events[k].monitor == m
  }

  lemma EventsAreOwn(mc: MonitorConfig, r: Record, op: Op, inp: Input)
    requires inp.t <= inp.t2
    ensures Own(Advance(mc, r, op, inp).events, op.monitor)
  {
  }

  /** Who holds what after a move: everybody as before, but for the mover. */
  lemma InstallHolders(cfg: Config, s: Sys, o: OpId, inp: Input, next: Local, o': OpId, m': Id)
    requires o in s.ops
    ensures Holder(Install(cfg, s, o, inp, next), o', m') <==>
            if o' == o then s.ops[o].monitor == m' && Holds(next.pc) else Holder(s, o', m')
  {
  }

  lemma InstallExact(cfg: Config, s: Sys, o: OpId, inp: Input, next: Local)
    requires Disciplined(cfg, s) && Enabled(cfg, s, Step(o, inp))
    requires SlotMove(s.ops[o], inp, s.recs[s.ops[o].monitor], next)
    ensures SlotsExact(Install(cfg, s, o, inp, next))
  {
    var m := s.ops[o].monitor;
    var s' := Install(cfg, s, o, inp, next);
    assert Holder(s, o, m) <==> Holds(s.ops[o].pc);
    forall o', m' ensures Holder(s', o', m') ==> m' in s'.slots {
      InstallHolders(cfg, s, o, inp, next, o', m');
    }
    forall m' | m' in s'.slots ensures exists o' :: Holder(s', o', m') {
      if m' in s.slots {
        var o' :| Holder(s, o', m');
        InstallHolders(cfg, s, o, inp, next, o', m');
        assert Holder(s', o', m');
      } else {
        InstallHolders(cfg, s, o, inp, next, o, m');
        assert Holder(s', o, m');
      }
    }
  }

  lemma InstallExclusive(cfg: Config, s: Sys, o: OpId, inp: Input, next: Local)
    requires Disciplined(cfg, s) && Enabled(cfg, s, Step(o, inp))
    requires SlotMove(s.ops[o], inp, s.recs[s.ops[o].monitor], next)
    ensures Exclusive(Install(cfg, s, o, inp, next))
  {
    var s' := Install(cfg, s, o, inp, next);
    assert Holder(s, o, s.ops[o].monitor) <==> Holds(s.ops[o].pc);
    forall o1, o2, m | Holder(s', o1, m) && Holder(s', o2, m) ensures o1 == o2 {
      InstallHolders(cfg, s, o, inp, next, o1, m);
      InstallHolders(cfg, s, o, inp, next, o2, m);
    }
  }

  lemma InstallSlots(cfg: Config, s: Sys, o: OpId, inp: Input, next: Local)
    requires Disciplined(cfg, s) && Enabled(cfg, s, Step(o, inp))
    requires SlotMove(s.ops[o], inp, s.recs[s.ops[o].monitor], next)
    ensures Disciplined(cfg, Install(cfg, s, o, inp, next))
  {
    InstallExact(cfg, s, o, inp, next);
    InstallExclusive(cfg, s, o, inp, next);
    hide Holder;
  }

  lemma SideSlots(cfg: Config, s: Sys, l: Label)
    requires Disciplined(cfg, s) && Enabled(cfg, s, l) && (l.Call? || l.Cancel?)
    ensures Disciplined(cfg, Next(cfg, s, l))
  {
    var s' := Next(cfg, s, l);
    assert forall o, m :: Holder(s', o, m) <==> Holder(s, o, m);
  }

  lemma DisciplinedStep(cfg: Config, s: Sys, l: Label)
    requires Disciplined(cfg, s) && Enabled(cfg, s, l)
    ensures Disciplined(cfg, Next(cfg, s, l))
  {
    match l {
      case Call(_, _, _) => SideSlots(cfg, s, l);
      case Cancel(_) => SideSlots(cfg, s, l);
      case Step(o, inp) =>
        AdvanceHolds(cfg.monitors[s.ops[o].monitor], s.recs[s.ops[o].monitor], s.ops[o], inp);
        hide Advance, SlotMove, Install;
        InstallSlots(cfg, s, o, inp, Moved(cfg, s, o, inp));
      case Crash =>
      case Boot(_, _, _, _) =>
    }
  }

  lemma {:induction false} DisciplinedAlways(cfg: Config, s: Sys, run: seq<Label>)
    requires Disciplined(cfg, s)
    ensures Disciplined(cfg, Exec(cfg, s, run))
  {
    if run != [] {
      DisciplinedAlways(cfg, s, run[..|run| - 1]);
      var prev := Exec(cfg, s, run[..|run| - 1]);
      if Enabled(cfg, prev, run[|run| - 1]) {
        DisciplinedStep(cfg, prev, run[|run| - 1]);
      }
    }
  }

  /** At most one operation per monitor is between taking and giving back the slot. */
  lemma MutualExclusion(cfg: Config, now: nat, run: seq<Label>, o1: OpId, o2: OpId, m: Id)
    requires Holder(Exec(cfg, Blank(now), run), o1, m)
    requires Holder(Exec(cfg, Blank(now), run), o2, m)
    ensures o1 == o2
  {
    DisciplinedAlways(cfg, Blank(now), run);
  }

  // ---- only the holder touches the record

  /** A label that can move operation o itself, or that ends the process. */
  predicate Concerns(l: Label, o: OpId) {
    match l
    case Call(_, _, _) => false
    case Cancel(o') => o' == o
    case Step(o', _) => o' == o
    case Crash => true
    case Boot(_, _, _, _) => true
  }

  lemma InstallUndisturbed(cfg: Config, s: Sys, mover: OpId, inp: Input, next: Local, o: OpId, m: Id)
    requires Disciplined(cfg, s) && Enabled(cfg, s, Step(mover, inp))
    requires SlotMove(s.ops[mover], inp, s.recs[s.ops[mover].monitor], next)
    requires Holder(s, o, m) && m in s.recs && mover != o
    ensures var s' := Install(cfg, s, mover, inp, next);
            s'.up && Holder(s', o, m) && s'.ops[o] == s.ops[o] && m in s'.recs && s'.recs[m] == s.recs[m]
  {
    if Holds(s.ops[mover].pc) {
      assert Holder(s, mover, s.ops[mover].monitor);
    }
  }

  /** While o holds m's slot nobody else changes m's record or o's local state. */
  lemma HolderUndisturbed(cfg: Config, s: Sys, l: Label, o: OpId, m: Id)
    requires Disciplined(cfg, s) && Enabled(cfg, s, l)
    requires Holder(s, o, m) && m in s.recs && !Concerns(l, o)
    ensures var s' := Next(cfg, s, l);
            s'.up && Holder(s', o, m) && s'.ops[o] == s.ops[o] && m in s'.recs && s'.recs[m] == s.recs[m]
  {
    if l.Step? {
      var op := s.ops[l.op];
      AdvanceHolds(cfg.monitors[op.monitor], s.recs[op.monitor], op, l.inp);
      InstallUndisturbed(cfg, s, l.op, l.inp, Moved(cfg, s, l.op, l.inp), o, m);
    }
  }

  // ---- a cancelled waiter never runs its callback

  predicate BeforeCallback(pc: PC) {
    pc.Called? || pc.Waiting? || pc.Locked? || pc.Entering?
  }

  predicate NeverRan(pc: PC) {
    BeforeCallback(pc) || pc == Releasing(NotRun) || pc == Finished(NotRun)
  }

  lemma CancelledWaiterStep(mc: MonitorConfig, r: Record, op: Op, inp: Input)
    requires inp.t <= inp.t2 && op.cancelled && NeverRan(op.pc)
    ensures NeverRan(Advance(mc, r, op, inp).pc)
  {
  }

  lemma CancelledWaiterNext(cfg: Config, s: Sys, l: Label, o: OpId)
    requires Enabled(cfg, s, l) && s.up && !l.Crash? && o in s.ops && s.ops[o].cancelled && NeverRan(s.ops[o].pc)
    ensures var s' := Next(cfg, s, l); s'.up && o in s'.ops && s'.ops[o].cancelled && NeverRan(s'.ops[o].pc)
  {
    if l.Step? {
      var m := s.ops[l.op].monitor;
      InstallParts(cfg, s, l.op, l.inp, Moved(cfg, s, l.op, l.inp));
      if l.op == o {
        CancelledWaiterStep(cfg.monitors[m], s.recs[m], s.ops[o], l.inp);
      }
      hide Advance, Install;
    }
    hide NeverRan;
  }

  lemma {:induction false} CancelledWaiterNeverRuns(cfg: Config, s: Sys, run: seq<Label>, o: OpId)
    requires o in s.ops && s.ops[o].cancelled && NeverRan(s.ops[o].pc)
    requires Crash !in run && s.up
    ensures var s' := Exec(cfg, s, run);
            s'.up && o in s'.ops && s'.ops[o].cancelled && NeverRan(s'.ops[o].pc)
  {
    hide Next, NeverRan;
    if run != [] {
      var n := |run| - 1;
      CancelledWaiterNeverRuns(cfg, s, run[..n], o);
      if Enabled(cfg, Exec(cfg, s, run[..n]), run[n]) {
        CancelledWaiterNext(cfg, Exec(cfg, s, run[..n]), run[n], o);
      }
    }
  }

  // ---- progress

  const SomeInput := Input(0, 0, CheckResult(true, ""), RecheckResult, Saved, false)

  function InputAt(now: nat): Input {
    SomeInput.(t := now, t2 := now)
  }

  /** No reachable state is stuck: whenever an operation is unfinished, it or the
      holder of the slot it waits for can take a step. */
  lemma Progress(cfg: Config, s: Sys, o: OpId) returns (mover: OpId)
    requires Disciplined(cfg, s) && s.up && o in s.ops && !s.ops[o].pc.Finished?
    ensures mover in s.ops && s.ops[mover].monitor == s.ops[o].monitor
    ensures mover == o || (s.ops[o].pc.Waiting? && Holds(s.ops[mover].pc))
    ensures Enabled(cfg, s, Step(mover, InputAt(s.now)))
  {
    var m := s.ops[o].monitor;
    if s.ops[o].pc.Waiting? && m in s.slots {
      mover :| Holder(s, mover, m);
    } else {
      mover := o;
    }
  }

  // ---- every operation is finite

  function Minus(a: nat, b: nat): nat {
    if b <= a then a - b else 0
  }

  /** Steps the loop over the recovery actions and the last evaluation can take. */
  function Loop(mc: MonitorConfig, done: nat): (steps: nat)
    ensures steps >= mc.checks + 5
    decreases Minus(|mc.recovery|, done)
  {
    if done >= |mc.recovery| then mc.checks + 5 else mc.checks + 4 + Loop(mc, done + 1)
  }

  /** An upper bound on the steps an operation still takes by itself. */
  function StepsLeft(mc: MonitorConfig, pc: PC): nat {
    var evaluation := mc.checks + 1;
    match pc
    case Called => Loop(mc, 0) + evaluation + 9
    case Waiting => Loop(mc, 0) + evaluation + 8
    case Locked => Loop(mc, 0) + evaluation + 7
    case Entering => Loop(mc, 0) + evaluation + 6
    case Opening(_) => Loop(mc, 0) + evaluation + 5
    case Evaluating(AtCheck(_, _), results) => Loop(mc, 0) + Minus(mc.checks, |results|) + 5
    case Evaluating(AtPreCheck, results) => Loop(mc, 0) + Minus(mc.checks, |results|) + 5
    case Evaluating(AtRecheck(_, _, done), results) => Loop(mc, |done|) + Minus(mc.checks, |results|) + 2
    case Evaluating(AtFinal(_, _, _), results) => Minus(mc.checks, |results|) + 4
    case Evaluated(AtCheck(_, _), _, _) => Loop(mc, 0) + 4
    case Evaluated(AtPreCheck, _, _) => Loop(mc, 0) + 4
    case Evaluated(AtRecheck(_, _, done), _, _) => Loop(mc, |done|) + 1
    case Evaluated(AtFinal(_, _, _), _, _) => 3
    case Failing(_) => Loop(mc, 0) + 2
    case Starting(_, _, _) => Loop(mc, 0) + 1
    case Acting(_, _, done) => Loop(mc, |done|)
    case Acted(_, _, done, _, _) => Loop(mc, |done| + 1) + evaluation + 2
    case Closing(_, _, _, _, _, _) => 2
    case Aborting(_) => 2
    case Releasing(_) => 1
    case Finished(_) => 0
  }

  lemma LoopStepsAreFinite(mc: MonitorConfig, r: Record, op: Op, inp: Input)
    requires inp.t <= inp.t2
    requires op.pc.Acting? || op.pc.Acted? || (op.pc.Evaluated? && !op.pc.site.AtCheck?)
    ensures StepsLeft(mc, Advance(mc, r, op, inp).pc) < StepsLeft(mc, op.pc)
  {
  }

  lemma EvaluationIsFinite(mc: MonitorConfig, r: Record, op: Op, inp: Input)
    requires inp.t <= inp.t2 && op.pc.Evaluating?
    ensures StepsLeft(mc, Advance(mc, r, op, inp).pc) < StepsLeft(mc, op.pc)
  {
    hide Loop;
  }

  lemma AdvanceIsFinite(mc: MonitorConfig, r: Record, op: Op, inp: Input)
    requires inp.t <= inp.t2 && !op.pc.Finished?
    ensures StepsLeft(mc, Advance(mc, r, op, inp).pc) < StepsLeft(mc, op.pc)
  {
    if op.pc.Acting? || op.pc.Acted? || (op.pc.Evaluated? && !op.pc.site.AtCheck?) {
      LoopStepsAreFinite(mc, r, op, inp);
    } else if op.pc.Evaluating? {
      EvaluationIsFinite(mc, r, op, inp);
    }
  }

  function OwnSteps(run: seq<Label>, o: OpId): nat {
    if run == [] then 0
    else OwnSteps(run[..|run| - 1], o) + if run[|run| - 1].Step? && run[|run| - 1].op == o then 1 else 0
  }

  lemma StepShortens(cfg: Config, s: Sys, l: Label, o: OpId)
    requires Enabled(cfg, s, l) && s.up && !l.Crash? && o in s.ops && s.ops[o].monitor in cfg.monitors
    ensures var s' := Next(cfg, s, l); var mc := cfg.monitors[s.ops[o].monitor];
      && s'.up && o in s'.ops && s'.ops[o].monitor == s.ops[o].monitor
      && StepsLeft(mc, s'.ops[o].pc) + (if l.Step? && l.op == o then 1 else 0) <= StepsLeft(mc, s.ops[o].pc)
  {
    if l.Step? {
      InstallParts(cfg, s, l.op, l.inp, Moved(cfg, s, l.op, l.inp));
      if l.op == o {
        AdvanceIsFinite(cfg.monitors[s.ops[o].monitor], s.recs[s.ops[o].monitor], s.ops[o], l.inp);
      }
      hide Advance, Install;
    }
    hide StepsLeft;
  }

  /** However the others interleave, an operation takes a bounded number of steps
      from its call to the release of its slot. */
  lemma {:induction false} OperationIsFinite(cfg: Config, s: Sys, run: seq<Label>, o: OpId)
    requires IsRun(cfg, s, run) && s.up && Crash !in run && o in s.ops && s.ops[o].monitor in cfg.monitors
    ensures var s' := Exec(cfg, s, run);
      && s'.up && o in s'.ops && s'.ops[o].monitor == s.ops[o].monitor
      && OwnSteps(run, o) + StepsLeft(cfg.monitors[s.ops[o].monitor], s'.ops[o].pc)
         <= StepsLeft(cfg.monitors[s.ops[o].monitor], s.ops[o].pc)
  {
    hide Next, StepsLeft;
    if run != [] {
      var n := |run| - 1;
      RunPrefix(cfg, s, run, n);
      OperationIsFinite(cfg, s, run[..n], o);
      assert Enabled(cfg, Exec(cfg, s, run[..n]), run[n]);
      StepShortens(cfg, Exec(cfg, s, run[..n]), run[n], o);
    }
  }

  // ---- an operation that is cancelled ends soon

  /** The steps an operation still takes once its context is done. */
  function LeftAfterCancel(mc: MonitorConfig, pc: PC): nat {
    match pc
    case Called => 1
    case Waiting => 3
    case Locked => 2
    case Entering => 2
    case Opening(_) => 4
    case Evaluating(site, _) => if site.AtCheck? || site.AtPreCheck? then 3 else 4
    case Evaluated(site, _, _) => if site.AtCheck? || site.AtPreCheck? then 2 else 3
    case Failing(_) => 3
    case Starting(_, _, _) => 2
    case Acting(_, _, done) => if |done| < |mc.recovery| then 3 else 5
    case Acted(_, _, _, _, _) => 3
    case Closing(_, _, _, _, _, _) => 2
    case Aborting(_) => 2
    case Releasing(_) => 1
    case Finished(_) => 0
  }

  /** No check result is added and no action is run any more; a check under way is not counted,
      nor is a recovery, and no recovery is started. */
  predicate Idles(op: Op, r: Record, next: Local) {
    && (op.pc.Evaluating? ==> next.pc.Evaluated? && next.pc.results == op.pc.results)
    && !next.pc.Acted? && !next.pc.Acting? && !next.pc.Closing?
    && next.rec.checkRuns == r.checkRuns && next.rec.recoveries == r.recoveries
    && next.rec.lastRecoveryAttemptAt == r.lastRecoveryAttemptAt
  }

  lemma CancelledIdles(mc: MonitorConfig, r: Record, op: Op, inp: Input)
    requires inp.t <= inp.t2 && op.cancelled && !op.pc.Finished?
    ensures Idles(op, r, Advance(mc, r, op, inp))
    ensures LeftAfterCancel(mc, Advance(mc, r, op, inp).pc) < LeftAfterCancel(mc, op.pc) <= 5
  {
  }

  lemma CancelledStep(cfg: Config, s: Sys, l: Label, o: OpId)
    requires Enabled(cfg, s, l) && s.up && !l.Crash? && o in s.ops && s.ops[o].cancelled
    requires s.ops[o].monitor in cfg.monitors
    ensures var s' := Next(cfg, s, l); var mc := cfg.monitors[s.ops[o].monitor];
      && s'.up && o in s'.ops && s'.ops[o].monitor == s.ops[o].monitor && s'.ops[o].cancelled
      && LeftAfterCancel(mc, s'.ops[o].pc) + (if l.Step? && l.op == o then 1 else 0)
         <= LeftAfterCancel(mc, s.ops[o].pc)
      && (l.Step? && l.op == o ==> Idles(s.ops[o], s.recs[s.ops[o].monitor], Moved(cfg, s, o, l.inp)))
  {
    if l.Step? {
      InstallParts(cfg, s, l.op, l.inp, Moved(cfg, s, l.op, l.inp));
      if l.op == o {
        CancelledIdles(cfg.monitors[s.ops[o].monitor], s.recs[s.ops[o].monitor], s.ops[o], l.inp);
      }
      hide Advance, Install, Idles;
    }
    hide LeftAfterCancel;
  }

  /** Once its context is done an operation takes at most five more steps, however the others
      interleave. */
  lemma {:induction false} CancelledEndsSoon(cfg: Config, s: Sys, run: seq<Label>, o: OpId)
    requires IsRun(cfg, s, run) && s.up && Crash !in run && o in s.ops && s.ops[o].monitor in cfg.monitors
    requires s.ops[o].cancelled
    ensures var s' := Exec(cfg, s, run);
      && s'.up && o in s'.ops && s'.ops[o].monitor == s.ops[o].monitor && s'.ops[o].cancelled
      && OwnSteps(run, o) + LeftAfterCancel(cfg.monitors[s.ops[o].monitor], s'.ops[o].pc)
         <= LeftAfterCancel(cfg.monitors[s.ops[o].monitor], s.ops[o].pc) <= 5
  {
    hide Next, LeftAfterCancel, Enabled;
    AtMostFive(cfg.monitors[s.ops[o].monitor], s.ops[o].pc);
    if run != [] {
      var n := |run| - 1;
      LastStep(cfg, s, run);
      CancelledEndsSoon(cfg, s, run[..n], o);
      CancelledStep(cfg, Exec(cfg, s, run[..n]), run[n], o);
    }
  }

  /** ... and none of them runs a check or an action, counts anything or starts a recovery. */
  lemma CancelledStaysIdle(cfg: Config, s: Sys, run: seq<Label>, o: OpId, inp: Input)
    requires IsRun(cfg, s, run) && s.up && Crash !in run && o in s.ops && s.ops[o].monitor in cfg.monitors
    requires s.ops[o].cancelled && Enabled(cfg, Exec(cfg, s, run), Step(o, inp))
    ensures var s' := Exec(cfg, s, run); Idles(s'.ops[o], s'.recs[s'.ops[o].monitor], Moved(cfg, s', o, inp))
  {
    hide Next, LeftAfterCancel, Idles, Moved, Exec, IsRun;
    CancelledEndsSoon(cfg, s, run, o);
    CancelledStep(cfg, Exec(cfg, s, run), Step(o, inp), o);
  }

  lemma AtMostFive(mc: MonitorConfig, pc: PC)
    ensures LeftAfterCancel(mc, pc) <= 5
  {
  }
}
