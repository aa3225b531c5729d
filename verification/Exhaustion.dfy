/**
 recovery_exhausted over whole runs: it is announced twice without a success in
 between exactly when a manual recovery fails while exhaustion stands announced.
 */
module Exhaustion {
  import opened MonitorRecord
  import opened RecoveryMachine
  import opened System
  import opened Locking
  import opened Lifting
  import opened Accounting
  import opened WriteAhead
  import opened Cooldown
  import opened RecoveryCap
  import opened EventGrammar

  /** Every announcement comes when exhaustion does not stand announced. */
  predicate AnnouncedOnce(w: Word) {
    w == [] || (AnnouncedOnce(w[..|w| - 1]) && (w[|w| - 1] == RecoveryExhausted ==> !ExhaustedIn(w[..|w| - 1])))
  }

  lemma AnnouncedLast(w: Word, last: EventKind)
    ensures AnnouncedOnce(w + [last]) <==> AnnouncedOnce(w) && (last == RecoveryExhausted ==> !ExhaustedIn(w))
    ensures last == RecoveryFailed ==> ExhaustedIn(w + [last]) == ExhaustedIn(w)
  {
    assert (w + [last])[..|w|] == w;
  }

  /** Exhaustion is announced last in a step, if at all, and alone or after a failed recovery. */
  lemma AnnouncementComesLast(mc: MonitorConfig, r: Record, op: Op, inp: Input)
    requires inp.t <= inp.t2
    ensures var events := Advance(mc, r, op, inp).events;
      |events| <= 2 && (|events| == 2 ==> events[0].kind == RecoveryFailed && events[1].kind == RecoveryExhausted)
  {
  }

  /** The label counts a failed manual recovery of m while exhaustion stands announced. */
  predicate FailsAgainAt(cfg: Config, s: Sys, l: Label, m: Id) {
    Moves(cfg, s, l, m) && s.ops[l.op].kind.Forced? && CountsFailure(s.ops[l.op]) && s.recs[m].exhausted
  }

  /** A move keeps the log free of repeated announcements unless it is such a label. */
  lemma MoveAnnouncesOnce(mc: MonitorConfig, r: Record, op: Op, inp: Input, w: Word, now: nat)
    requires inp.t <= inp.t2 && RecordOk(mc, r, now) && FlightOk(mc, r, op, now)
    requires r.exhausted == ExhaustedIn(w) && AnnouncedOnce(w)
    ensures AnnouncedOnce(w + Kinds(Advance(mc, r, op, inp).events))
            <==> !(op.kind.Forced? && CountsFailure(op) && r.exhausted)
  {
    AnnouncementComesLast(mc, r, op, inp);
    if r.exhausted {
      AnnouncedAgain(mc, r, op, inp, now);
    }
    hide Advance, RecordOk, FlightOk, AnnouncedOnce;
    AppendAnnounces(w, Advance(mc, r, op, inp).events);
  }

  lemma AppendAnnounces(w: Word, events: seq<Event>)
    requires |events| <= 2
      && (|events| == 2 ==> events[0].kind == RecoveryFailed && events[1].kind == RecoveryExhausted)
    requires AnnouncedOnce(w)
    ensures AnnouncedOnce(w + Kinds(events)) <==> !(Announces(events) && ExhaustedIn(w))
  {
    hide AnnouncedOnce, ExhaustedIn;
    if events == [] {
      assert w + Kinds(events) == w;
    } else {
      AnnouncedLast(w, events[0].kind);
      if |events| == 1 {
        assert Kinds(events) == [events[0].kind];
        assert Announces(events) <==> events[0].kind == RecoveryExhausted;
      } else {
        AnnouncedLast(w + [events[0].kind], events[1].kind);
        assert w + Kinds(events) == w + [events[0].kind] + [events[1].kind];
        assert events[1].kind.RecoveryExhausted?;
      }
    }
  }

  /** A repeated announcement stays in the log. */
  lemma {:induction false} RepetitionStays(w: Word, more: Word)
    requires !AnnouncedOnce(w)
    ensures !AnnouncedOnce(w + more)
    decreases |more|
  {
    if more == [] {
      assert w + more == w;
    } else {
      var n := |more| - 1;
      RepetitionStays(w, more[..n]);
      assert (w + more)[..|w + more| - 1] == w + more[..n];
    }
  }

  /** What a step adds to m's word. */
  lemma StepProjects(cfg: Config, s: Sys, o: OpId, inp: Input, m: Id)
    requires Enabled(cfg, s, Step(o, inp))
    ensures var next := Moved(cfg, s, o, inp);
      Project(Next(cfg, s, Step(o, inp)).total, m)
      == Project(s.total, m) + if s.ops[o].monitor == m then Kinds(next.events) else []
  {
    var next := Moved(cfg, s, o, inp);
    EventsAreOwn(cfg.monitors[s.ops[o].monitor], s.recs[s.ops[o].monitor], s.ops[o], inp);
    InstallParts(cfg, s, o, inp, next);
    hide Advance, Install, Project;
    ProjectAppend(s.total, next.events, m);
    ProjectOf(next.events, s.ops[o].monitor, m);
  }

  lemma StepAnnounces(cfg: Config, s: Sys, o: OpId, inp: Input, m: Id)
    requires Inv(cfg, s) && Chronicled(s, m) && Enabled(cfg, s, Step(o, inp)) && AnnouncedOnce(Project(s.total, m))
    ensures AnnouncedOnce(Project(Next(cfg, s, Step(o, inp)).total, m)) <==> !FailsAgainAt(cfg, s, Step(o, inp), m)
  {
    hide Next, AnnouncedOnce, Project;
    StepProjects(cfg, s, o, inp, m);
    var op := s.ops[o];
    var w := Project(s.total, m);
    if op.monitor == m {
      assert Flight(s, SoundFlight(cfg, s.now), o) && Sound(cfg, s.now)(m, s.recs[m]);
      MoveAnnouncesOnce(cfg.monitors[m], s.recs[m], op, inp, w, s.now);
    } else {
      assert w + [] == w;
    }
  }

  /** One more label: a repetition is there if there was one, or if the label makes one. */
  lemma NextAnnounces(cfg: Config, s: Sys, l: Label, m: Id)
    requires Inv(cfg, s) && Chronicled(s, m) && Enabled(cfg, s, l) && !l.Crash?
    ensures AnnouncedOnce(Project(Next(cfg, s, l).total, m))
            <==> AnnouncedOnce(Project(s.total, m)) && !FailsAgainAt(cfg, s, l, m)
  {
    hide Next, Inv, AnnouncedOnce, Project;
    if l.Step? {
      if AnnouncedOnce(Project(s.total, m)) {
        StepAnnounces(cfg, s, l.op, l.inp, m);
      } else {
        StepProjects(cfg, s, l.op, l.inp, m);
        var more := if s.ops[l.op].monitor == m then Kinds(Moved(cfg, s, l.op, l.inp).events) else [];
        RepetitionStays(Project(s.total, m), more);
      }
    } else {
      SideTotal(cfg, s, l);
    }
  }

  lemma SideTotal(cfg: Config, s: Sys, l: Label)
    requires Enabled(cfg, s, l) && s.up && !l.Step? && !l.Crash?
    ensures Next(cfg, s, l).total == s.total
  {
  }

  ghost predicate FailsAgain(cfg: Config, s0: Sys, run: seq<Label>, m: Id) {
    exists k | 0 <= k < |run| :: FailsAgainAt(cfg, Exec(cfg, s0, run[..k]), run[k], m)
  }

  lemma FailsAgainLast(cfg: Config, s0: Sys, run: seq<Label>, m: Id)
    requires run != []
    ensures var n := |run| - 1;
      FailsAgain(cfg, s0, run, m)
      <==> FailsAgain(cfg, s0, run[..n], m) || FailsAgainAt(cfg, Exec(cfg, s0, run[..n]), run[n], m)
  {
    hide Exec, FailsAgainAt;
    var n := |run| - 1;
    forall k | 0 <= k < n ensures run[..n][..k] == run[..k] && run[..n][k] == run[k] {
    }
    if FailsAgain(cfg, s0, run[..n], m) {
      var k :| 0 <= k < n && FailsAgainAt(cfg, Exec(cfg, s0, run[..n][..k]), run[..n][k], m);
      assert FailsAgainAt(cfg, Exec(cfg, s0, run[..k]), run[k], m);
    }
  }

  lemma FreshAnnouncesNothing(cfg: Config, now: nat, m: Id)
    ensures AnnouncedOnce(Project(Fresh(cfg, now).total, m))
  {
    assert Fresh(cfg, now).total == [];
  }

  lemma {:induction false} AnnouncedOnceExactly(cfg: Config, now: nat, run: seq<Label>, m: Id)
    requires m in cfg.monitors && cfg.monitors[m].enabled && Crash !in run
    ensures AnnouncedOnce(Project(Exec(cfg, Fresh(cfg, now), run).total, m))
            <==> !FailsAgain(cfg, Fresh(cfg, now), run, m)
  {
    if run == [] {
      FreshAnnouncesNothing(cfg, now, m);
    } else {
      hide Next, Inv, Chronicled, Fresh, AnnouncedOnce, Project, FailsAgain, FailsAgainAt;
      var n := |run| - 1;
      AnnouncedOnceExactly(cfg, now, run[..n], m);
      ChronicledAlways(cfg, now, run[..n], m);
      FailsAgainLast(cfg, Fresh(cfg, now), run, m);
      var s := Exec(cfg, Fresh(cfg, now), run[..n]);
      if Enabled(cfg, s, run[n]) {
        NextAnnounces(cfg, s, run[n], m);
      } else {
        NotEnabledNotAgain(cfg, s, run[n], m);
      }
    }
  }

  lemma NotEnabledNotAgain(cfg: Config, s: Sys, l: Label, m: Id)
    requires !Enabled(cfg, s, l)
    ensures !FailsAgainAt(cfg, s, l, m)
  {
  }

  // ---- the same in terms of the log

  /** Two announcements with no success between them. */
  predicate AnnouncedTwiceAt(w: Word, i: nat, j: nat)
    requires i < j < |w|
  {
    w[i] == w[j] == RecoveryExhausted && forall k | i < k < j :: w[k] != CheckSucceeded && w[k] != RecoverySucceeded
  }

  ghost predicate AnnouncedTwice(w: Word) {
    exists i, j | 0 <= i < j < |w| :: AnnouncedTwiceAt(w, i, j)
  }

  lemma {:induction false} SuccessBetween(w: Word, i: nat, j: nat)
    requires i < j < |w| && AnnouncedOnce(w) && w[i] == w[j] == RecoveryExhausted
    ensures exists k :: i < k < j && w[k] in {CheckSucceeded, RecoverySucceeded}
  {
    var n := |w| - 1;
    if j < n {
      assert w[..n][i] == w[i] && w[..n][j] == w[j];
      SuccessBetween(w[..n], i, j);
      var k :| i < k < j && w[..n][k] in {CheckSucceeded, RecoverySucceeded};
      assert w[k] == w[..n][k];
    } else {
      var k := LastSuccess(w[..n], i);
      assert w[k] == w[..n][k];
    }
  }

  lemma {:induction false} LastSuccess(w: Word, i: nat) returns (k: nat)
    requires !ExhaustedIn(w) && i < |w| && w[i] == RecoveryExhausted
    ensures i < k < |w| && w[k] in {CheckSucceeded, RecoverySucceeded}
  {
    var n := |w| - 1;
    if w[n] in {CheckSucceeded, RecoverySucceeded} {
      k := n;
    } else {
      assert w[..n][i] == w[i];
      k := LastSuccess(w[..n], i);
    }
  }

  lemma {:induction false} StandsAnnounced(w: Word) returns (i: nat)
    requires ExhaustedIn(w)
    ensures i < |w| && w[i] == RecoveryExhausted
    ensures forall k | i < k < |w| :: w[k] != CheckSucceeded && w[k] != RecoverySucceeded
  {
    var n := |w| - 1;
    if w[n] == RecoveryExhausted {
      i := n;
    } else {
      i := StandsAnnounced(w[..n]);
      assert w[i] == w[..n][i];
      assert forall k | i < k < n :: w[k] == w[..n][k];
    }
  }

  lemma {:induction false} NotOnceIsTwice(w: Word) returns (i: nat, j: nat)
    requires !AnnouncedOnce(w)
    ensures i < j < |w| && AnnouncedTwiceAt(w, i, j)
  {
    var n := |w| - 1;
    if AnnouncedOnce(w[..n]) {
      i := StandsAnnounced(w[..n]);
      j := n;
      assert w[i] == w[..n][i];
      assert forall k | i < k < n :: w[k] == w[..n][k];
    } else {
      i, j := NotOnceIsTwice(w[..n]);
      assert forall k | i <= k <= j :: w[k] == w[..n][k];
    }
  }

  lemma TwiceExactly(w: Word)
    ensures AnnouncedTwice(w) <==> !AnnouncedOnce(w)
  {
    hide AnnouncedOnce;
    if !AnnouncedOnce(w) {
      var i, j := NotOnceIsTwice(w);
    } else {
      forall i: nat, j: nat | i < j < |w| ensures !AnnouncedTwiceAt(w, i, j) {
        if w[i] == w[j] == RecoveryExhausted {
          SuccessBetween(w, i, j);
        }
      }
    }
  }

  /** In every crash-free run the log of m holds two announcements that its attempts are
      used up, with no success between them, if and only if some label of the run counts
      a failed manual recovery of m while exhaustion stands announced. */
  lemma AnnouncedTwiceExactly(cfg: Config, now: nat, run: seq<Label>, m: Id)
    requires m in cfg.monitors && cfg.monitors[m].enabled && Crash !in run
    ensures AnnouncedTwice(Project(Exec(cfg, Fresh(cfg, now), run).total, m))
            <==> exists k | 0 <= k < |run| :: FailsAgainAt(cfg, Exec(cfg, Fresh(cfg, now), run[..k]), run[k], m)
  {
    hide Exec, FailsAgainAt, AnnouncedTwice, AnnouncedOnce, Project;
    AnnouncedOnceExactly(cfg, now, run, m);
    TwiceExactly(Project(Exec(cfg, Fresh(cfg, now), run).total, m));
  }

  // ---- without manual recoveries

  lemma {:induction false} NeverForcedAlways(cfg: Config, s0: Sys, run: seq<Label>, m: Id)
    requires s0.up && NeverForced(s0, m) && Crash !in run && NoForcedCall(run, m)
    ensures Exec(cfg, s0, run).up && NeverForced(Exec(cfg, s0, run), m)
  {
    hide Moved;
    if run != [] {
      var n := |run| - 1;
      NeverForcedAlways(cfg, s0, run[..n], m);
      assert !IsForcedCall(run[n], m);
    }
  }

  /** In every run without a crash and without manual recoveries of m, m succeeds
      between any two announcements that its recovery attempts are used up. */
  lemma ExhaustionIsAnnouncedOnce(cfg: Config, now: nat, run: seq<Label>, m: Id)
    requires m in cfg.monitors && cfg.monitors[m].enabled && Crash !in run && NoForcedCall(run, m)
    ensures !AnnouncedTwice(Project(Exec(cfg, Fresh(cfg, now), run).total, m))
  {
    hide Exec, Fresh, NoForcedCall, FailsAgainAt, AnnouncedTwice, AnnouncedOnce, Project;
    AnnouncedOnceExactly(cfg, now, run, m);
    TwiceExactly(Project(Exec(cfg, Fresh(cfg, now), run).total, m));
    forall k | 0 <= k < |run| ensures !FailsAgainAt(cfg, Exec(cfg, Fresh(cfg, now), run[..k]), run[k], m) {
      FreshUnforced(cfg, now, m);
      PrefixUnforced(run, k, m);
      NeverForcedAlways(cfg, Fresh(cfg, now), run[..k], m);
      UnforcedNotAgain(cfg, Exec(cfg, Fresh(cfg, now), run[..k]), run[k], m);
    }
  }

  lemma FreshUnforced(cfg: Config, now: nat, m: Id)
    ensures Fresh(cfg, now).up && NeverForced(Fresh(cfg, now), m)
  {
  }

  lemma PrefixUnforced(run: seq<Label>, k: nat, m: Id)
    requires k <= |run| && Crash !in run && NoForcedCall(run, m)
    ensures Crash !in run[..k] && NoForcedCall(run[..k], m)
  {
  }

  lemma UnforcedNotAgain(cfg: Config, s: Sys, l: Label, m: Id)
    requires NeverForced(s, m)
    ensures !FailsAgainAt(cfg, s, l, m)
  {
  }
}
