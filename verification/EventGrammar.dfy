/**
 The event log of one process life. Seen from one monitor it is a word of
 (check_succeeded | check_failed R? | check_failed recovery_exhausted | R)* with
 R = recovery_started (recovery_succeeded | recovery_failed recovery_exhausted?)?,
 and the counters of the monitor's record can be recomputed from it.
 */
module EventGrammar {
  import opened Wrappers
  import opened MonitorRecord
  import opened RecoveryMachine
  import opened System
  import opened Locking
  import opened Lifting
  import opened Accounting
  import opened WriteAhead
  import opened RecoveryCap

  type Word = seq<EventKind>

  // ---- the language

  /** recovery_started (recovery_succeeded | recovery_failed recovery_exhausted?)? */
  predicate IsRecovery(w: Word) {
    || w == [RecoveryStarted]
    || w == [RecoveryStarted, RecoverySucceeded]
    || w == [RecoveryStarted, RecoveryFailed]
    || w == [RecoveryStarted, RecoveryFailed, RecoveryExhausted]
  }

  predicate IsBlock(w: Word) {
    || w == [CheckSucceeded]
    || w == [CheckFailed]
    || w == [CheckFailed, RecoveryExhausted]
    || IsRecovery(w)
    || (w != [] && w[0] == CheckFailed && IsRecovery(w[1..]))
  }

  /** A sequence of blocks. */
  ghost predicate IsWord(w: Word) {
    w == [] || exists k :: 0 <= k < |w| && IsWord(w[..k]) && IsBlock(w[k..])
  }

  lemma AppendBlock(w: Word, block: Word)
    requires IsWord(w) && IsBlock(block)
    ensures IsWord(w + block)
  {
    assert block != [];
    assert (w + block)[..|w|] == w && (w + block)[|w|..] == block;
  }

  /** w is a word followed by the block. */
  ghost predicate EndsIn(w: Word, block: Word) {
    |block| <= |w| && IsWord(w[..|w| - |block|]) && w[|w| - |block|..] == block
  }

  lemma EndsInIsWord(w: Word, block: Word)
    requires EndsIn(w, block) && IsBlock(block)
    ensures IsWord(w)
  {
    AppendBlock(w[..|w| - |block|], block);
    assert w == w[..|w| - |block|] + block;
  }

  /** The last block may grow. */
  lemma GrowBlock(w: Word, block: Word, more: Word)
    requires EndsIn(w, block)
    ensures EndsIn(w + more, block + more)
  {
    var k := |w| - |block|;
    assert (w + more)[..k] == w[..k];
    assert (w + more)[k..] == block + more;
  }

  // ---- what can be read off a word

  function Count(w: Word, kind: EventKind): nat {
    if w == [] then 0
    else Count(w[..|w| - 1], kind) + if w[|w| - 1] == kind then 1 else 0
  }

  /** Failed checks since the last recorded success or successful recovery. */
  function Streak(w: Word): nat {
    if w == [] then 0
    else match w[|w| - 1]
      case CheckSucceeded => 0
      case RecoverySucceeded => 0
      case CheckFailed => Streak(w[..|w| - 1]) + 1
      case _ => Streak(w[..|w| - 1])
  }

  /** Exhaustion was announced and nothing succeeded since. */
  predicate ExhaustedIn(w: Word) {
    w != [] &&
    match w[|w| - 1]
    case RecoveryExhausted => true
    case CheckSucceeded => false
    case RecoverySucceeded => false
    case _ => ExhaustedIn(w[..|w| - 1])
  }

  /** Something failed since the last recorded success of a check. */
  predicate Troubled(w: Word) {
    w != [] &&
    match w[|w| - 1]
    case CheckFailed => true
    case RecoveryFailed => true
    case CheckSucceeded => false
    case _ => Troubled(w[..|w| - 1])
  }

  /** Every recorded success of a check comes after trouble. */
  predicate SuccessesAnswer(w: Word) {
    w == [] || (SuccessesAnswer(w[..|w| - 1]) && (w[|w| - 1] == CheckSucceeded ==> Troubled(w[..|w| - 1])))
  }

  lemma CountLast(w: Word, last: EventKind, kind: EventKind)
    ensures Count(w + [last], kind) == Count(w, kind) + if last == kind then 1 else 0
  {
    assert (w + [last])[..|w|] == w;
  }

  /** How all readings change by one more event. */
  predicate Reads(w: Word, last: EventKind, w': Word) {
    && (forall kind :: Count(w', kind) == Count(w, kind) + if last == kind then 1 else 0)
    && Streak(w') == (if last.CheckSucceeded? || last.RecoverySucceeded? then 0
                      else if last.CheckFailed? then Streak(w) + 1 else Streak(w))
    && ExhaustedIn(w') == (last.RecoveryExhausted?
                           || (!last.CheckSucceeded? && !last.RecoverySucceeded? && ExhaustedIn(w)))
    && Troubled(w') == (last.CheckFailed? || last.RecoveryFailed? || (!last.CheckSucceeded? && Troubled(w)))
    && SuccessesAnswer(w') == (SuccessesAnswer(w) && (last.CheckSucceeded? ==> Troubled(w)))
  }

  lemma ReadLast(w: Word, last: EventKind)
    ensures Reads(w, last, w + [last])
  {
    assert (w + [last])[..|w|] == w;
    forall kind ensures Count(w + [last], kind) == Count(w, kind) + if last == kind then 1 else 0 {
      CountLast(w, last, kind);
    }
  }

  // ---- the projection of the log to one monitor

  function Kinds(events: seq<Event>): Word {
    seq(|events|, i requires 0 <= i < |events| => events[i].kind)
  }

  function Project(events: seq<Event>, m: Id): Word {
    Kinds(EventsOf(events, m))
  }

  lemma KindsAppend(events: seq<Event>, more: seq<Event>)
    ensures Kinds(events + more) == Kinds(events) + Kinds(more)
  {
  }

  lemma ProjectAppend(events: seq<Event>, more: seq<Event>, m: Id)
    ensures Project(events + more, m) == Project(events, m) + Project(more, m)
  {
    EventsOfAppend(events, more, m);
    KindsAppend(EventsOf(events, m), EventsOf(more, m));
  }

  /** A monitor's own events stand in its word, all others do not. */
  lemma ProjectOf(events: seq<Event>, m: Id, m': Id)
    requires forall k | 0 <= k < |events| :: events[k].monitor == m
    ensures Project(events, m') == if m' == m then Kinds(events) else []
  {
    EventsOfOne(events, m, m');
    assert Kinds([]) == [];
  }

  // ---- record and word agree

  predicate Agrees(r: Record, w: Word) {
    && r.failures == Count(w, CheckFailed)
    && r.recoveryFailures == Count(w, RecoveryFailed)
    && r.recoveries == Count(w, RecoverySucceeded) + Count(w, RecoveryFailed)
    && r.successes >= Count(w, CheckSucceeded)
    && r.streak == Streak(w)
    && r.exhausted == ExhaustedIn(w)
    && SuccessesAnswer(w)
  }

  /** The status to which the operation returns if it is cancelled now. */
  function Resting(r: Record, pc: PC): Status {
    match pc
    case Evaluating(AtCheck(_, before), _) => before
    case Evaluating(AtRecheck(before, _, _), _) => before
    case Evaluating(AtFinal(before, _, _), _) => before
    case Evaluated(AtCheck(_, before), _, _) => before
    case Evaluated(AtRecheck(before, _, _), _, _) => before
    case Evaluated(AtFinal(before, _, _), _, _) => before
    case Starting(before, _, _) => before
    case Acting(before, _, _) => before
    case Acted(before, _, _, _, _) => before
    case Closing(before, _, _, _, _, _) => before
    case Aborting(before) => before
    case _ => r.status
  }

  /** A resting status is one of four, and the word explains it. */
  predicate Explained(status: Status, r: Record, w: Word) {
    match status
    case Healthy => r.streak == 0 && !r.exhausted
    case Unknown => r.streak == 0 && !r.exhausted
    case Degraded => Troubled(w)
    case Failed => Troubled(w)
    case _ => false
  }

  /** The block an operation has opened and may still extend. */
  ghost predicate OpenBlock(op: Op, w: Word) {
    match op.pc
    case Failing(_) => EndsIn(w, [CheckFailed])
    case Starting(_, _, _) => op.kind.Cycle? ==> EndsIn(w, [CheckFailed])
    case _ =>
      Committed(op.pc) ==> EndsIn(w, [CheckFailed, RecoveryStarted]) || EndsIn(w, [RecoveryStarted])
  }

  /** Record and word agree, and the status to return to is explained. */
  predicate Matches(r: Record, pc: PC, w: Word) {
    && Agrees(r, w)
    && Explained(Resting(r, pc), r, w)
    && (pc.Failing? ==> r.status == Degraded)
    && (pc.Starting? ==> r.status == pc.before)
  }

  ghost predicate Tells(r: Record, op: Op, w: Word) {
    Matches(r, op.pc, w) && IsWord(w) && OpenBlock(op, w)
  }

  // ---- one move: the readings

  /** The word after the move's events, one event at a time. */
  predicate ReadsAll(w: Word, events: seq<Event>, w': Word) {
    match |events|
    case 0 => w' == w
    case 1 => Reads(w, events[0].kind, w')
    case 2 => w' == w + [events[0].kind] + [events[1].kind]
              && Reads(w, events[0].kind, w + [events[0].kind])
              && Reads(w + [events[0].kind], events[1].kind, w')
    case _ => false
  }

  lemma ReadAll(w: Word, events: seq<Event>)
    requires |events| <= 2
    ensures ReadsAll(w, events, w + Kinds(events))
  {
    if |events| == 0 {
      assert w + Kinds(events) == w;
    } else if |events| == 1 {
      assert w + Kinds(events) == w + [events[0].kind];
      ReadLast(w, events[0].kind);
    } else {
      assert w + Kinds(events) == w + [events[0].kind] + [events[1].kind];
      ReadLast(w, events[0].kind);
      ReadLast(w + [events[0].kind], events[1].kind);
    }
  }

  lemma CheckedMatches(mc: MonitorConfig, r: Record, op: Op, w: Word, w': Word)
    requires op.pc.Evaluated? && op.pc.site.AtCheck?
    requires Matches(r, op.pc, w) && ReadsAll(w, StepChecked(mc, r, op).events, w')
    ensures var next := StepChecked(mc, r, op); Matches(next.rec, next.pc, w')
  {
    hide Count, Streak, ExhaustedIn, Troubled, SuccessesAnswer, ShouldRecover;
  }

  lemma FailingMatches(mc: MonitorConfig, r: Record, op: Op, inp: Input, w: Word, w': Word, now: nat)
    requires op.pc.Failing? && FlightOk(mc, r, op, now) && RecordOk(mc, r, now) && Troubled(w)
    requires Matches(r, op.pc, w) && ReadsAll(w, StepFailing(mc, r, op, inp).events, w')
    ensures var next := StepFailing(mc, r, op, inp); Matches(next.rec, next.pc, w')
  {
    hide Count, Streak, ExhaustedIn, Troubled, SuccessesAnswer;
  }

  lemma StartingMatches(mc: MonitorConfig, r: Record, op: Op, inp: Input, w: Word, w': Word, now: nat)
    requires op.pc.Starting? && Matches(r, op.pc, w) && ReadsAll(w, StepStarting(mc, r, op, inp).events, w')
    ensures var next := StepStarting(mc, r, op, inp); Matches(next.rec, next.pc, w')
  {
    hide Count, Streak, ExhaustedIn, Troubled, SuccessesAnswer;
  }

  lemma ClosingMatches(mc: MonitorConfig, r: Record, op: Op, inp: Input, w: Word, w': Word, now: nat)
    requires op.pc.Closing? && inp.t <= inp.t2 && FlightOk(mc, r, op, now)
    requires Matches(r, op.pc, w) && ReadsAll(w, StepClosing(mc, r, op, inp).events, w')
    ensures var next := StepClosing(mc, r, op, inp); Matches(next.rec, next.pc, w')
  {
    hide Count, Streak, ExhaustedIn, Troubled, SuccessesAnswer, FailureReasons, OutcomeOk, SiteOk;
    if op.cancelled {
      assert StepClosing(mc, r, op, inp).events == [];
    } else if op.pc.recovered {
      WonMatches(mc, r, op, inp, w, w');
    } else {
      LostMatches(mc, r, op, inp, w, w');
    }
  }

  lemma WonMatches(mc: MonitorConfig, r: Record, op: Op, inp: Input, w: Word, w': Word)
    requires op.pc.Closing? && inp.t <= inp.t2 && !op.cancelled && op.pc.recovered
    requires Matches(r, op.pc, w) && ReadsAll(w, StepClosing(mc, r, op, inp).events, w')
    ensures var next := StepClosing(mc, r, op, inp); Matches(next.rec, next.pc, w')
  {
    hide Count, Streak, ExhaustedIn, Troubled, SuccessesAnswer, Secs;
  }

  lemma LostMatches(mc: MonitorConfig, r: Record, op: Op, inp: Input, w: Word, w': Word)
    requires op.pc.Closing? && inp.t <= inp.t2 && !op.cancelled && !op.pc.recovered
    requires Matches(r, op.pc, w) && ReadsAll(w, StepClosing(mc, r, op, inp).events, w')
    ensures var next := StepClosing(mc, r, op, inp); Matches(next.rec, next.pc, w')
  {
    hide Count, Streak, ExhaustedIn, Troubled, SuccessesAnswer, Secs;
  }

  /** The moves that append nothing. */
  lemma QuietMatches(mc: MonitorConfig, r: Record, op: Op, inp: Input, w: Word)
    requires inp.t <= inp.t2 && Matches(r, op.pc, w)
    requires !(op.pc.Evaluated? && op.pc.site.AtCheck?) && !op.pc.Failing? && !op.pc.Starting? && !op.pc.Closing?
    ensures var next := Advance(mc, r, op, inp); next.events == [] && Matches(next.rec, next.pc, w)
  {
    hide Count, Streak, ExhaustedIn, Troubled, SuccessesAnswer;
  }

  lemma AtMostTwoEvents(mc: MonitorConfig, r: Record, op: Op, inp: Input)
    requires inp.t <= inp.t2
    ensures |Advance(mc, r, op, inp).events| <= 2
  {
  }

  lemma EndTroubled(w: Word)
    requires EndsIn(w, [CheckFailed])
    ensures Troubled(w)
  {
    assert w[|w| - 1] == w[|w| - 1..][0];
  }

  lemma FailingTroubled(r: Record, op: Op, w: Word)
    requires Tells(r, op, w) && op.pc.Failing?
    ensures Troubled(w)
  {
    hide Matches, IsWord, Troubled, EndsIn;
    EndTroubled(w);
  }

  lemma MoveMatches(mc: MonitorConfig, r: Record, op: Op, inp: Input, w: Word, now: nat)
    requires inp.t <= inp.t2 && RecordOk(mc, r, now) && FlightOk(mc, r, op, now) && Tells(r, op, w)
    ensures var next := Advance(mc, r, op, inp); Matches(next.rec, next.pc, w + Kinds(next.events))
  {
    hide Count, Streak, ExhaustedIn, Troubled, SuccessesAnswer, IsWord, Matches, OpenBlock, RecordOk, FlightOk, EndsIn,
         Reads, Kinds;
    AtMostTwoEvents(mc, r, op, inp);
    var events := Advance(mc, r, op, inp).events;
    ReadAll(w, events);
    var w' := w + Kinds(events);
    if op.pc.Evaluated? && op.pc.site.AtCheck? {
      CheckedMatches(mc, r, op, w, w');
    } else if op.pc.Failing? {
      FailingTroubled(r, op, w);
      FailingMatches(mc, r, op, inp, w, w', now);
    } else if op.pc.Starting? {
      StartingMatches(mc, r, op, inp, w, w', now);
    } else if op.pc.Closing? {
      ClosingMatches(mc, r, op, inp, w, w', now);
    } else {
      QuietMatches(mc, r, op, inp, w);
    }
  }

  // ---- one move: the blocks

  /** A finished block may be followed by a new one. */
  lemma NewBlock(w: Word, block: Word)
    requires IsWord(w)
    ensures EndsIn(w + block, block)
  {
    assert (w + block)[..|w|] == w && (w + block)[|w|..] == block;
  }

  lemma CheckedBlocks(mc: MonitorConfig, r: Record, op: Op, w: Word)
    requires op.pc.Evaluated? && op.pc.site.AtCheck? && IsWord(w)
    ensures var next := StepChecked(mc, r, op);
      IsWord(w + Kinds(next.events)) && OpenBlock(op.(pc := next.pc), w + Kinds(next.events))
  {
    hide IsWord, EndsIn, FailureReasons, ShouldRecover;
    var events := StepChecked(mc, r, op).events;
    if events == [] {
      assert w + Kinds(events) == w;
    } else {
      assert Kinds(events) == [events[0].kind];
      AppendBlock(w, Kinds(events));
      NewBlock(w, Kinds(events));
    }
  }

  lemma FailingBlocks(mc: MonitorConfig, r: Record, op: Op, inp: Input, w: Word)
    requires op.pc.Failing? && EndsIn(w, [CheckFailed]) && IsWord(w)
    ensures var next := StepFailing(mc, r, op, inp);
      IsWord(w + Kinds(next.events)) && OpenBlock(op.(pc := next.pc), w + Kinds(next.events))
  {
    var events := StepFailing(mc, r, op, inp).events;
    if events == [] {
      assert w + Kinds(events) == w;
    } else {
      assert Kinds(events) == [RecoveryExhausted];
      GrowBlock(w, [CheckFailed], [RecoveryExhausted]);
      assert [CheckFailed] + [RecoveryExhausted] == [CheckFailed, RecoveryExhausted];
      EndsInIsWord(w + [RecoveryExhausted], [CheckFailed, RecoveryExhausted]);
    }
  }

  /** Inside a recovery: its block, possibly opened by the failed check. */
  ghost predicate InRecovery(w: Word) {
    EndsIn(w, [CheckFailed, RecoveryStarted]) || EndsIn(w, [RecoveryStarted])
  }

  lemma RecoveryBegins(w: Word, afterCheck: bool)
    requires if afterCheck then EndsIn(w, [CheckFailed]) else IsWord(w)
    ensures InRecovery(w + [RecoveryStarted]) && IsWord(w + [RecoveryStarted])
  {
    var w' := w + [RecoveryStarted];
    if afterCheck {
      GrowBlock(w, [CheckFailed], [RecoveryStarted]);
      var block := [CheckFailed, RecoveryStarted];
      assert [CheckFailed] + [RecoveryStarted] == block;
      assert block[1..] == [RecoveryStarted];
      EndsInIsWord(w', block);
    } else {
      NewBlock(w, [RecoveryStarted]);
      EndsInIsWord(w', [RecoveryStarted]);
    }
  }

  lemma RecoveryEnds(w: Word, more: Word)
    requires InRecovery(w) && IsRecovery([RecoveryStarted] + more)
    ensures IsWord(w + more)
  {
    if EndsIn(w, [RecoveryStarted]) {
      GrowBlock(w, [RecoveryStarted], more);
      EndsInIsWord(w + more, [RecoveryStarted] + more);
    } else {
      var block := [CheckFailed, RecoveryStarted] + more;
      GrowBlock(w, [CheckFailed, RecoveryStarted], more);
      assert block[1..] == [RecoveryStarted] + more;
      EndsInIsWord(w + more, block);
    }
  }

  lemma StartingBlocks(mc: MonitorConfig, r: Record, op: Op, inp: Input, w: Word)
    requires op.pc.Starting? && OpenBlock(op, w) && IsWord(w)
    ensures var next := StepStarting(mc, r, op, inp);
      IsWord(w + Kinds(next.events)) && OpenBlock(op.(pc := next.pc), w + Kinds(next.events))
  {
    var events := StepStarting(mc, r, op, inp).events;
    if events == [] {
      assert w + Kinds(events) == w;
    } else {
      assert Kinds(events) == [RecoveryStarted];
      RecoveryBegins(w, op.kind.Cycle?);
    }
  }

  lemma ClosingBlocks(mc: MonitorConfig, r: Record, op: Op, inp: Input, w: Word)
    requires op.pc.Closing? && inp.t <= inp.t2 && InRecovery(w) && IsWord(w)
    ensures var next := StepClosing(mc, r, op, inp);
      IsWord(w + Kinds(next.events)) && OpenBlock(op.(pc := next.pc), w + Kinds(next.events))
  {
    var events := StepClosing(mc, r, op, inp).events;
    var kinds := Kinds(events);
    if events == [] {
      assert w + kinds == w;
    } else {
      assert kinds == [RecoverySucceeded] || kinds == [RecoveryFailed] || kinds == [RecoveryFailed, RecoveryExhausted];
      assert IsRecovery([RecoveryStarted] + kinds);
      RecoveryEnds(w, kinds);
    }
  }

  lemma QuietBlocks(mc: MonitorConfig, r: Record, op: Op, inp: Input, w: Word)
    requires inp.t <= inp.t2 && OpenBlock(op, w)
    requires !(op.pc.Evaluated? && op.pc.site.AtCheck?) && !op.pc.Failing? && !op.pc.Starting? && !op.pc.Closing?
    requires op.pc.Evaluated? && op.pc.site.AtPreCheck? ==> op.kind.Forced?
    ensures var next := Advance(mc, r, op, inp); next.events == [] && OpenBlock(op.(pc := next.pc), w)
  {
    hide EndsIn;
  }

  lemma MoveBlocks(mc: MonitorConfig, r: Record, op: Op, inp: Input, w: Word, now: nat)
    requires inp.t <= inp.t2 && FlightOk(mc, r, op, now) && IsWord(w) && OpenBlock(op, w)
    ensures var next := Advance(mc, r, op, inp);
      IsWord(w + Kinds(next.events)) && OpenBlock(op.(pc := next.pc), w + Kinds(next.events))
  {
    var next := Advance(mc, r, op, inp);
    hide IsWord, EndsIn;
    if op.pc.Evaluated? && op.pc.site.AtCheck? {
      CheckedBlocks(mc, r, op, w);
    } else if op.pc.Failing? {
      FailingBlocks(mc, r, op, inp, w);
    } else if op.pc.Starting? {
      StartingBlocks(mc, r, op, inp, w);
    } else if op.pc.Closing? {
      ClosingBlocks(mc, r, op, inp, w);
    } else {
      QuietBlocks(mc, r, op, inp, w);
      assert w + Kinds(next.events) == w;
    }
  }

  lemma MoveTells(mc: MonitorConfig, r: Record, op: Op, inp: Input, w: Word, now: nat)
    requires inp.t <= inp.t2 && RecordOk(mc, r, now) && FlightOk(mc, r, op, now) && Tells(r, op, w)
    ensures var next := Advance(mc, r, op, inp); Tells(next.rec, op.(pc := next.pc), w + Kinds(next.events))
  {
    MoveMatches(mc, r, op, inp, w, now);
    MoveBlocks(mc, r, op, inp, w, now);
    hide Advance, Matches, OpenBlock, IsWord, Kinds;
  }

  // ---- whole runs

  /** The record of m, the operation working on it and m's events tell one story. */
  ghost predicate Chronicled(s: Sys, m: Id) {
    && s.up && m in s.recs
    && var w := Project(s.total, m);
      && Agrees(s.recs[m], w) && IsWord(w)
      && (m !in s.slots ==> Explained(s.recs[m].status, s.recs[m], w))
      && forall o | Holder(s, o, m) :: Tells(s.recs[m], s.ops[o], w)
  }

  lemma OtherFields(cfg: Config, s: Sys, o: OpId, inp: Input, next: Local, m: Id)
    requires s.up && m in s.recs && o in s.ops && s.ops[o].monitor != m && Own(next.events, s.ops[o].monitor)
    ensures var s' := Install(cfg, s, o, inp, next);
      && s'.up && m in s'.recs && s'.recs[m] == s.recs[m] && (m in s'.slots <==> m in s.slots)
      && Project(s'.total, m) == Project(s.total, m)
  {
    hide Project, Install;
    InstallParts(cfg, s, o, inp, next);
    ProjectAppend(s.total, next.events, m);
    ProjectOf(next.events, s.ops[o].monitor, m);
  }

  lemma OtherChronicle(cfg: Config, s: Sys, o: OpId, inp: Input, next: Local, m: Id)
    requires Chronicled(s, m) && o in s.ops && s.ops[o].monitor != m && Own(next.events, s.ops[o].monitor)
    ensures Chronicled(Install(cfg, s, o, inp, next), m)
  {
    var s' := Install(cfg, s, o, inp, next);
    OtherFields(cfg, s, o, inp, next, m);
    hide Tells, Agrees, Explained, IsWord, Project;
    forall o' | Holder(s', o', m) ensures Tells(s'.recs[m], s'.ops[o'], Project(s'.total, m)) {
      InstallHolders(cfg, s, o, inp, next, o', m);
    }
  }

  lemma HolderFields(cfg: Config, s: Sys, o: OpId, inp: Input, next: Local, m: Id)
    requires Disciplined(cfg, s) && s.up && Holder(s, o, m) && Own(next.events, m)
    ensures var s' := Install(cfg, s, o, inp, next);
      && s'.up && m in s'.recs && s'.recs[m] == next.rec && (m in s'.slots <==> Holds(next.pc))
      && o in s'.ops && s'.ops[o] == s.ops[o].(pc := next.pc)
      && Project(s'.total, m) == Project(s.total, m) + Kinds(next.events)
      && forall o' :: Holder(s', o', m) ==> o' == o
  {
    hide Project, Install;
    var s' := Install(cfg, s, o, inp, next);
    InstallParts(cfg, s, o, inp, next);
    ProjectAppend(s.total, next.events, m);
    ProjectOf(next.events, m, m);
    assert m in s.slots;
    forall o' | Holder(s', o', m) ensures o' == o {
      InstallHolders(cfg, s, o, inp, next, o', m);
    }
  }

  lemma HolderChronicle(cfg: Config, s: Sys, o: OpId, inp: Input, next: Local, m: Id)
    requires Disciplined(cfg, s) && Chronicled(s, m) && Holder(s, o, m) && Own(next.events, m)
    requires Tells(next.rec, s.ops[o].(pc := next.pc), Project(s.total, m) + Kinds(next.events))
    requires !Holds(next.pc) ==> next.pc.Finished?
    ensures Chronicled(Install(cfg, s, o, inp, next), m)
  {
    HolderFields(cfg, s, o, inp, next, m);
    TellsApart(next.rec, s.ops[o].(pc := next.pc), Project(s.total, m) + Kinds(next.events));
    hide Agrees, Explained, IsWord, Tells, Install, Project, Kinds, Disciplined;
  }

  lemma TellsApart(r: Record, op: Op, w: Word)
    requires Tells(r, op, w)
    ensures Agrees(r, w) && IsWord(w) && (op.pc.Finished? ==> Explained(r.status, r, w))
  {
  }

  lemma WaiterChronicle(cfg: Config, s: Sys, o: OpId, inp: Input, next: Local, m: Id)
    requires Disciplined(cfg, s) && Chronicled(s, m) && o in s.ops && s.ops[o].monitor == m && !Holds(s.ops[o].pc)
    requires next.rec == s.recs[m] && next.events == [] && !next.persist
    requires Holds(next.pc) ==> next.pc.Locked? && m !in s.slots
    ensures Chronicled(Install(cfg, s, o, inp, next), m)
  {
    var s' := Install(cfg, s, o, inp, next);
    assert s'.total == s.total;
    hide Agrees, Explained, IsWord, EndsIn;
    forall o' | Holder(s', o', m) ensures Tells(s'.recs[m], s'.ops[o'], Project(s'.total, m)) {
      InstallHolders(cfg, s, o, inp, next, o', m);
    }
  }

  lemma AcquiredIsLocked(mc: MonitorConfig, r: Record, op: Op, inp: Input)
    requires inp.t <= inp.t2
    ensures var next := Advance(mc, r, op, inp);
      && (!Holds(op.pc) && Holds(next.pc) ==> next.pc.Locked?)
      && (Holds(op.pc) && !Holds(next.pc) ==> next.pc.Finished?)
  {
  }

  lemma StepChronicle(cfg: Config, s: Sys, o: OpId, inp: Input, m: Id)
    requires Inv(cfg, s) && Chronicled(s, m) && Enabled(cfg, s, Step(o, inp))
    ensures Chronicled(Next(cfg, s, Step(o, inp)), m)
  {
    var op := s.ops[o];
    var mc, r := cfg.monitors[op.monitor], s.recs[op.monitor];
    var next := Moved(cfg, s, o, inp);
    AdvanceHolds(mc, r, op, inp);
    AcquiredIsLocked(mc, r, op, inp);
    EventsAreOwn(mc, r, op, inp);
    if op.monitor == m && Holds(op.pc) {
      assert Holder(s, o, m);
      assert Flight(s, SoundFlight(cfg, s.now), o) && Sound(cfg, s.now)(m, r);
      MoveTells(mc, r, op, inp, Project(s.total, m), s.now);
    }
    hide Advance, Tells, Agrees, IsWord, Explained, FlightOk, RecordOk;
    if op.monitor != m {
      OtherChronicle(cfg, s, o, inp, next, m);
    } else if Holds(op.pc) {
      HolderChronicle(cfg, s, o, inp, next, m);
    } else {
      WaiterChronicle(cfg, s, o, inp, next, m);
    }
  }

  lemma SideChronicle(cfg: Config, s: Sys, l: Label, m: Id)
    requires Chronicled(s, m) && Enabled(cfg, s, l) && (l.Call? || l.Cancel?)
    ensures Chronicled(Next(cfg, s, l), m)
  {
    hide Agrees, IsWord, Explained, EndsIn;
    var s' := Next(cfg, s, l);
    forall o | Holder(s', o, m) ensures Tells(s'.recs[m], s'.ops[o], Project(s'.total, m)) {
      assert Holder(s, o, m);
    }
  }

  lemma FreshParts(cfg: Config, now: nat, m: Id)
    requires m in cfg.monitors && cfg.monitors[m].enabled
    ensures var s := Fresh(cfg, now);
      s.up && m in s.recs && s.recs[m] == BootRecord(cfg.monitors[m], None) && s.total == [] && s.ops == map[]
  {
  }

  lemma FirstRecord(mc: MonitorConfig)
    requires mc.enabled
    ensures Agrees(BootRecord(mc, None), []) && Explained(BootRecord(mc, None).status, BootRecord(mc, None), [])
  {
  }

  lemma FreshChronicle(cfg: Config, now: nat, m: Id)
    requires m in cfg.monitors && cfg.monitors[m].enabled
    ensures Chronicled(Fresh(cfg, now), m)
  {
    hide Fresh, Agrees, Explained, BootRecord;
    FreshParts(cfg, now, m);
    FirstRecord(cfg.monitors[m]);
    assert Project([], m) == [];
  }

  lemma {:induction false} ChronicledAlways(cfg: Config, now: nat, run: seq<Label>, m: Id)
    requires m in cfg.monitors && cfg.monitors[m].enabled && Crash !in run
    ensures Inv(cfg, Exec(cfg, Fresh(cfg, now), run)) && Chronicled(Exec(cfg, Fresh(cfg, now), run), m)
  {
    FreshIsReachable(cfg, now);
    InvAlways(cfg, Fresh(cfg, now), run);
    FreshChronicle(cfg, now, m);
    hide Next, Inv, Fresh;
    if run != [] {
      var n := |run| - 1;
      ChronicledAlways(cfg, now, run[..n], m);
      var s := Exec(cfg, Fresh(cfg, now), run[..n]);
      if Enabled(cfg, s, run[n]) {
        if run[n].Step? {
          StepChronicle(cfg, s, run[n].op, run[n].inp, m);
        } else {
          SideChronicle(cfg, s, run[n], m);
        }
      }
    }
  }

  // ---- the main results on the log

  /** In every run without a crash each enabled monitor's events form a word of the language. */
  lemma LogIsAWord(cfg: Config, now: nat, run: seq<Label>, m: Id)
    requires m in cfg.monitors && cfg.monitors[m].enabled && Crash !in run
    ensures IsWord(Project(Exec(cfg, Fresh(cfg, now), run).total, m))
  {
    hide IsWord;
    ChronicledAlways(cfg, now, run, m);
  }

  /** ... the record's counters are what the log says ... */
  lemma CountersAreTheLogs(cfg: Config, now: nat, run: seq<Label>, m: Id)
    requires m in cfg.monitors && cfg.monitors[m].enabled && Crash !in run
    ensures var s := Exec(cfg, Fresh(cfg, now), run); var w := Project(s.total, m);
      && m in s.recs
      && s.recs[m].failures == Count(w, CheckFailed)
      && s.recs[m].recoveryFailures == Count(w, RecoveryFailed)
      && s.recs[m].recoveries == Count(w, RecoverySucceeded) + Count(w, RecoveryFailed)
      && s.recs[m].streak == Streak(w)
      && s.recs[m].exhausted == ExhaustedIn(w)
  {
    hide IsWord;
    ChronicledAlways(cfg, now, run, m);
  }

  /** ... and between operations the status is neither checking nor recovering. */
  lemma FreeMeansSettled(cfg: Config, now: nat, run: seq<Label>, m: Id)
    requires m in cfg.monitors && cfg.monitors[m].enabled && Crash !in run
    requires m !in Exec(cfg, Fresh(cfg, now), run).slots
    ensures var s := Exec(cfg, Fresh(cfg, now), run); var w := Project(s.total, m);
      && m in s.recs && s.recs[m].status in {Unknown, Healthy, Degraded, Failed}
      && (s.recs[m].status in {Degraded, Failed} ==> Troubled(w))
      && (s.recs[m].status in {Unknown, Healthy} ==> Streak(w) == 0 && !ExhaustedIn(w))
  {
    hide IsWord;
    ChronicledAlways(cfg, now, run, m);
  }

  lemma {:induction false} TroubleBetween(w: Word, i: nat, j: nat)
    requires i < j < |w| && SuccessesAnswer(w) && w[i] == w[j] == CheckSucceeded
    ensures exists k :: i < k < j && (w[k] == CheckFailed || w[k] == RecoveryFailed)
  {
    var n := |w| - 1;
    if j < n {
      assert w[..n][i] == w[i] && w[..n][j] == w[j];
      TroubleBetween(w[..n], i, j);
      var k :| i < k < j && (w[..n][k] == CheckFailed || w[..n][k] == RecoveryFailed);
      assert w[k] == w[..n][k];
    } else {
      var k := LastTrouble(w[..n], i);
      assert w[k] == w[..n][k];
    }
  }

  lemma {:induction false} LastTrouble(w: Word, i: nat) returns (k: nat)
    requires Troubled(w) && i < |w| && w[i] == CheckSucceeded
    ensures i < k < |w| && (w[k] == CheckFailed || w[k] == RecoveryFailed)
  {
    var n := |w| - 1;
    if w[n] == CheckFailed || w[n] == RecoveryFailed {
      k := n;
    } else {
      assert w[..n][i] == w[i];
      k := LastTrouble(w[..n], i);
    }
  }

  /** Between two recorded successes of a monitor's checks something failed. */
  lemma SuccessesAlternate(cfg: Config, now: nat, run: seq<Label>, m: Id, i: nat, j: nat)
    requires m in cfg.monitors && cfg.monitors[m].enabled && Crash !in run
    requires var w := Project(Exec(cfg, Fresh(cfg, now), run).total, m);
      i < j < |w| && w[i] == w[j] == CheckSucceeded
    ensures var w := Project(Exec(cfg, Fresh(cfg, now), run).total, m);
      exists k :: i < k < j && (w[k] == CheckFailed || w[k] == RecoveryFailed)
  {
    hide IsWord;
    ChronicledAlways(cfg, now, run, m);
    TroubleBetween(Project(Exec(cfg, Fresh(cfg, now), run).total, m), i, j);
  }
}
