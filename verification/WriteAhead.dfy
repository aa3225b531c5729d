/**
 The write-ahead cooldown: before a recovery action runs, every snapshot a crash
 could leave behind already holds the cooldown of that recovery, and it stays
 there. From this the spacing of automatic recoveries follows, across crashes,
 restarts, failing saves and the interleaving of all other monitors.
 */
module WriteAhead {
  import opened MonitorRecord
  import opened RecoveryMachine
  import opened System
  import opened Locking
  import opened Lifting
  import opened Accounting

  ghost function Sound(cfg: Config, now: nat): RecordProperty {
    (m, r) => m in cfg.monitors ==> RecordOk(cfg.monitors[m], r, now)
  }

  ghost function SoundFlight(cfg: Config, now: nat): FlightProperty {
    (m, r, op) => m in cfg.monitors ==> FlightOk(cfg.monitors[m], r, op, now)
  }

  /** Every candidate snapshot agrees with memory on m's cooldown. */
  ghost predicate CooldownSaved(s: Sys, m: Id) {
    m in s.recs && forall d: Records | d in s.disk :: m in d && d[m].cooldownUntil == s.recs[m].cooldownUntil
  }

  ghost predicate CooldownsSaved(s: Sys) {
    forall o | o in s.ops && Committed(s.ops[o].pc) :: CooldownSaved(s, s.ops[o].monitor)
  }

  ghost predicate Inv(cfg: Config, s: Sys) {
    && Disciplined(cfg, s)
    && EveryRecord(s, Sound(cfg, s.now))
    && EveryFlight(s, SoundFlight(cfg, s.now))
    && CooldownsSaved(s)
    && s.disk != {}
  }

  lemma SoundLater(cfg: Config, s: Sys, later: nat)
    requires s.now <= later
    requires EveryRecord(s, Sound(cfg, s.now))
    ensures EveryRecord(s, Sound(cfg, later))
  {
    forall m, r | Sound(cfg, s.now)(m, r) ensures Sound(cfg, later)(m, r) {
      if m in cfg.monitors { RecordLater(cfg.monitors[m], r, s.now, later); }
    }
    Weaken(s, Sound(cfg, s.now), Sound(cfg, later));
  }

  lemma SoundFlightLater(cfg: Config, s: Sys, later: nat)
    requires s.now <= later && (s.ops == map[] || s.up)
    requires EveryRecord(s, Sound(cfg, s.now)) && EveryFlight(s, SoundFlight(cfg, s.now))
    ensures EveryFlight(s, SoundFlight(cfg, later))
  {
    forall o | o in s.ops ensures Flight(s, SoundFlight(cfg, later), o) {
      assert Flight(s, SoundFlight(cfg, s.now), o);
      var m := s.ops[o].monitor;
      assert Sound(cfg, s.now)(m, s.recs[m]);
      if m in cfg.monitors { LaterKeeps(cfg.monitors[m], s.recs[m], s.ops[o], s.now, later); }
    }
  }

  /** Inside a committed recovery the cooldown does not move, and it was saved when it was set. */
  predicate CommitMove(op: Op, inp: Input, r: Record, next: Local) {
    Committed(next.pc) ==>
      if Committed(op.pc) then next.rec == r && !next.persist
      else op.pc.Starting? && next.persist && inp.save.Saved?
  }

  lemma AdvanceCommits(mc: MonitorConfig, r: Record, op: Op, inp: Input)
    requires inp.t <= inp.t2
    ensures CommitMove(op, inp, r, Advance(mc, r, op, inp))
  {
  }

  lemma InstallCooldowns(cfg: Config, s: Sys, o: OpId, inp: Input, next: Local)
    requires Disciplined(cfg, s) && CooldownsSaved(s) && Enabled(cfg, s, Step(o, inp))
    requires SlotMove(s.ops[o], inp, s.recs[s.ops[o].monitor], next)
    requires CommitMove(s.ops[o], inp, s.recs[s.ops[o].monitor], next)
    ensures CooldownsSaved(Install(cfg, s, o, inp, next))
  {
    var op := s.ops[o];
    var s' := Install(cfg, s, o, inp, next);
    forall o' | o' in s'.ops && Committed(s'.ops[o'].pc) ensures CooldownSaved(s', s'.ops[o'].monitor) {
      var m' := s'.ops[o'].monitor;
      if o' != o {
        assert Holder(s, o', m');
        InstallUndisturbed(cfg, s, o, inp, next, o', m');
        assert CooldownSaved(s, m');
      } else if Committed(op.pc) {
        assert CooldownSaved(s, m');
      }
    }
  }

  /** The moving operation keeps its own record and its own local state sound. */
  lemma MovedIsSound(cfg: Config, s: Sys, o: OpId, inp: Input)
    requires EveryRecord(s, Sound(cfg, s.now)) && EveryFlight(s, SoundFlight(cfg, s.now))
    requires Enabled(cfg, s, Step(o, inp))
    ensures var m := s.ops[o].monitor; var next := Moved(cfg, s, o, inp);
            Sound(cfg, inp.t2)(m, next.rec) && SoundFlight(cfg, inp.t2)(m, next.rec, s.ops[o].(pc := next.pc))
  {
    var m := s.ops[o].monitor;
    assert Sound(cfg, s.now)(m, s.recs[m]);
    assert Flight(s, SoundFlight(cfg, s.now), o);
    AdvanceKeeps(cfg.monitors[m], s.recs[m], s.ops[o], inp, s.now);
  }

  lemma InstallSound(cfg: Config, s: Sys, o: OpId, inp: Input, next: Local)
    requires Disciplined(cfg, s) && Enabled(cfg, s, Step(o, inp))
    requires EveryRecord(s, Sound(cfg, s.now))
    requires Sound(cfg, inp.t2)(s.ops[o].monitor, next.rec)
    ensures EveryRecord(Install(cfg, s, o, inp, next), Sound(cfg, inp.t2))
  {
    SoundLater(cfg, s, inp.t2);
    InstallEvery(cfg, s, o, inp, next, Sound(cfg, inp.t2));
  }

  lemma InstallSoundFlight(cfg: Config, s: Sys, o: OpId, inp: Input, next: Local)
    requires Disciplined(cfg, s) && Enabled(cfg, s, Step(o, inp))
    requires EveryRecord(s, Sound(cfg, s.now)) && EveryFlight(s, SoundFlight(cfg, s.now))
    requires SlotMove(s.ops[o], inp, s.recs[s.ops[o].monitor], next)
    requires SoundFlight(cfg, inp.t2)(s.ops[o].monitor, next.rec, s.ops[o].(pc := next.pc))
    ensures EveryFlight(Install(cfg, s, o, inp, next), SoundFlight(cfg, inp.t2))
  {
    SoundFlightLater(cfg, s, inp.t2);
    InstallFlights(cfg, s, o, inp, next, SoundFlight(cfg, inp.t2));
  }

  lemma InstallDisk(cfg: Config, s: Sys, o: OpId, inp: Input, next: Local)
    requires o in s.ops && s.disk != {}
    ensures Install(cfg, s, o, inp, next).disk != {}
  {
  }

  lemma InstallKeeps(cfg: Config, s: Sys, o: OpId, inp: Input, next: Local)
    requires Inv(cfg, s) && Enabled(cfg, s, Step(o, inp))
    requires SlotMove(s.ops[o], inp, s.recs[s.ops[o].monitor], next)
    requires CommitMove(s.ops[o], inp, s.recs[s.ops[o].monitor], next)
    requires Sound(cfg, inp.t2)(s.ops[o].monitor, next.rec)
    requires SoundFlight(cfg, inp.t2)(s.ops[o].monitor, next.rec, s.ops[o].(pc := next.pc))
    ensures Inv(cfg, Install(cfg, s, o, inp, next))
  {
    hide Install, RecordOk, FlightOk, SlotMove, CommitMove, EveryRecord, EveryFlight, CooldownsSaved, Disciplined;
    InstallParts(cfg, s, o, inp, next);
    InstallDisk(cfg, s, o, inp, next);
    InstallSlots(cfg, s, o, inp, next);
    InstallSound(cfg, s, o, inp, next);
    InstallSoundFlight(cfg, s, o, inp, next);
    InstallCooldowns(cfg, s, o, inp, next);
  }

  lemma StepKeeps(cfg: Config, s: Sys, o: OpId, inp: Input)
    requires Inv(cfg, s) && Enabled(cfg, s, Step(o, inp))
    ensures Inv(cfg, Next(cfg, s, Step(o, inp)))
  {
    var op := s.ops[o];
    MovedIsSound(cfg, s, o, inp);
    AdvanceHolds(cfg.monitors[op.monitor], s.recs[op.monitor], op, inp);
    AdvanceCommits(cfg.monitors[op.monitor], s.recs[op.monitor], op, inp);
    InstallKeeps(cfg, s, o, inp, Moved(cfg, s, o, inp));
  }

  lemma BootIsSound(cfg: Config, s: Sys, t: nat, saved: Records)
    requires EveryRecord(s, Sound(cfg, s.now)) && s.now <= t && saved in s.disk
    ensures Every(BootRecords(cfg, saved), Sound(cfg, t))
  {
    assert Every(saved, Sound(cfg, s.now));
    forall m | m in BootRecords(cfg, saved) ensures Sound(cfg, t)(m, BootRecords(cfg, saved)[m]) {
      if m in saved && m in cfg.monitors {
        assert Sound(cfg, s.now)(m, saved[m]);
        RecordLater(cfg.monitors[m], saved[m], s.now, t);
      }
    }
  }

  lemma SideCooldowns(cfg: Config, s: Sys, l: Label)
    requires CooldownsSaved(s) && Enabled(cfg, s, l) && !l.Step?
    ensures CooldownsSaved(Next(cfg, s, l))
  {
    var s' := Next(cfg, s, l);
    forall o | o in s'.ops && Committed(s'.ops[o].pc) ensures CooldownSaved(s', s'.ops[o].monitor) {
      assert CooldownSaved(s, s.ops[o].monitor);
    }
  }

  lemma SoundFlightShape(cfg: Config, now: nat)
    ensures OnlyHolders(SoundFlight(cfg, now))
    ensures forall m: Id, r: Record, op: Op ::
              SoundFlight(cfg, now)(m, r, op) ==> SoundFlight(cfg, now)(m, r, op.(cancelled := true))
  {
  }

  lemma SideKeeps(cfg: Config, s: Sys, l: Label)
    requires Inv(cfg, s) && Enabled(cfg, s, l) && !l.Step?
    ensures Inv(cfg, Next(cfg, s, l))
  {
    hide RecordOk, FlightOk, CooldownSaved;
    var s' := Next(cfg, s, l);
    assert Disciplined(cfg, s') by { DisciplinedStep(cfg, s, l); }
    assert EveryRecord(s', Sound(cfg, s'.now)) by {
      SoundLater(cfg, s, s'.now);
      if l.Boot? { BootIsSound(cfg, s, l.t, l.saved); }
      SideRecords(cfg, s, l, Sound(cfg, s'.now));
    }
    assert EveryFlight(s', SoundFlight(cfg, s'.now)) by {
      SoundFlightLater(cfg, s, s'.now);
      SoundFlightShape(cfg, s'.now);
      SideFlights(cfg, s, l, SoundFlight(cfg, s'.now));
    }
    assert CooldownsSaved(s') by { SideCooldowns(cfg, s, l); }
  }

  lemma InvStep(cfg: Config, s: Sys, l: Label)
    requires Inv(cfg, s) && Enabled(cfg, s, l)
    ensures Inv(cfg, Next(cfg, s, l))
  {
    if l.Step? { StepKeeps(cfg, s, l.op, l.inp); } else { SideKeeps(cfg, s, l); }
  }

  lemma {:induction false} InvAlways(cfg: Config, s: Sys, run: seq<Label>)
    requires Inv(cfg, s)
    ensures Inv(cfg, Exec(cfg, s, run))
  {
    if run != [] {
      var n := |run| - 1;
      InvAlways(cfg, s, run[..n]);
      if Enabled(cfg, Exec(cfg, s, run[..n]), run[n]) {
        InvStep(cfg, Exec(cfg, s, run[..n]), run[n]);
      }
    }
  }

  /** Every reachable state satisfies the invariant, whatever crashed on the way. */
  lemma Reachable(cfg: Config, now: nat, run: seq<Label>)
    ensures Inv(cfg, Exec(cfg, Blank(now), run))
  {
    InvAlways(cfg, Blank(now), run);
  }

  /** In every reachable state, crashes and restarts included, the record of a
      configured monitor adds up, in memory and in whatever a crash may leave. */
  lemma RecordsAddUp(cfg: Config, now: nat, run: seq<Label>, m: Id, recs: Records)
    requires var s := Exec(cfg, Blank(now), run); (s.up && recs == s.recs) || recs in s.disk
    requires m in cfg.monitors && m in recs
    ensures var r := recs[m]; var mc := cfg.monitors[m];
      && r.checkRuns == r.successes + r.failures
      && r.recoveryFailures <= r.recoveries
      && (r.status.Healthy? ==> r.streak == 0 && !r.exhausted && r.lastError == NoReason)
      && (r.status.Degraded? ==> r.streak >= 1)
      && (r.status.Failed? ==> r.recoveryFailures >= 1)
      && (r.exhausted ==> 0 < mc.maxAttempts <= r.recoveryFailures)
      && (r.checkRuns > 0 ==> |r.lastCheckResults| == mc.checks)
  {
    Reachable(cfg, now, run);
    var s := Exec(cfg, Blank(now), run);
    hide Exec, Disciplined, EveryFlight, CooldownsSaved;
    assert Every(recs, Sound(cfg, s.now));
    assert Sound(cfg, s.now)(m, recs[m]);
  }
}
