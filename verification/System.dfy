/**
 The whole process: every monitor's record, every operation in flight, the
 monitors' slots, the event log in memory, and what a crash would leave on disk.

 Operations interleave freely. A label names who moves and carries all outside
 input, so a run is a sequence of labels and Exec replays it.
 */
module System {
  import opened Wrappers
  import opened MonitorRecord
  import opened RecoveryMachine

  /** The configuration; monitor ids are distinct, so it is a map. */
  datatype Config = Config(monitors: map<Id, MonitorConfig>, maxEvents: int)

  type Records = map<Id, Record>
  type History = seq<Event>
  type OpId = nat

  /**
   `disk` holds every snapshot of the state file that a crash might leave behind,
   `diskLog` the same for the event file: a save that succeeds leaves exactly the
   new contents, one that fails leaves the old ones or the new ones.
   `log` is the bounded history in memory, `total` the same log never trimmed.
   `up` is false between a crash and a successful start.
   */
  datatype Sys = Sys(
    up: bool,
    now: nat,
    recs: Records,
    ops: map<OpId, Op>,
    slots: set<Id>,
    log: History,
    total: History,
    dirty: bool,
    disk: set<Records>,
    diskLog: set<History>)

  datatype Label =
    | Call(op: OpId, monitor: Id, kind: Kind)
    | Cancel(op: OpId)
    | Step(op: OpId, inp: Input)
    | Crash
    | Boot(t: nat, saved: Records, events: History, save: Save)

  /** The last `limit` entries; everything when there is no limit. */
  function Trim(events: History, limit: int): (r: History)
    ensures limit <= 0 ==> r == events
    ensures limit > 0 ==> |r| == if |events| <= limit then |events| else limit
    ensures |r| <= |events| && r == events[|events| - |r|..]
  {
    if limit <= 0 || |events| <= limit then events else events[|events| - limit..]
  }

  /** appendEventLocked, once for each event. */
  function AppendAll(log: History, events: History, limit: int): History
    decreases |events|
  {
    if events == [] then log
    else AppendAll(Trim(log + [events[0]], limit), events[1..], limit)
  }

  /** persistLocked: the state file first, then the event file when it is due. */
  function Persist(s: Sys, save: Save): Sys {
    match save
    case StateFailed => s.(disk := s.disk + {s.recs})
    case EventsFailed =>
      if s.dirty then s.(disk := {s.recs}, diskLog := s.diskLog + {s.log})
      else s.(disk := {s.recs})
    case Saved =>
      s.(disk := {s.recs}, diskLog := if s.dirty then {s.log} else s.diskLog, dirty := false)
  }

  function MoveSlot(slots: set<Id>, m: Id, before: PC, after: PC): set<Id> {
    if Holds(before) == Holds(after) then slots
    else if Holds(after) then slots + {m}
    else slots - {m}
  }

  predicate Known(cfg: Config, s: Sys, m: Id) {
    m in cfg.monitors && m in s.recs
  }

  predicate Enabled(cfg: Config, s: Sys, l: Label) {
    match l
    case Call(o, m, _) => s.up && o !in s.ops && m in cfg.monitors && cfg.monitors[m].enabled
    case Cancel(o) => s.up && o in s.ops
    case Step(o, inp) =>
      && s.up && o in s.ops && !s.ops[o].pc.Finished?
      && Known(cfg, s, s.ops[o].monitor)
      && s.now <= inp.t <= inp.t2
      && (Acquires(s.ops[o], inp) ==> s.ops[o].monitor !in s.slots)
    case Crash => s.up
    case Boot(t, saved, events, _) => !s.up && s.now <= t && saved in s.disk && events in s.diskLog
  }

  function BootRecords(cfg: Config, saved: Records): Records {
    map m | m in saved.Keys + cfg.monitors.Keys ::
      if m in cfg.monitors
      then BootRecord(cfg.monitors[m], if m in saved then Some(saved[m]) else None)
      else saved[m]
  }

  /** NewManager over what it read; it gives up unless the first save succeeds. */
  function Start(cfg: Config, s: Sys, t: nat, saved: Records, events: History, save: Save): Sys {
    var log := Trim(events, cfg.maxEvents);
    var s1 := Persist(Sys(true, t, BootRecords(cfg, saved), map[], {}, log, log, true, s.disk, s.diskLog), save);
    s1.(up := save.Saved?)
  }

  /** The state after operation o has moved as `next` says. */
  function Install(cfg: Config, s: Sys, o: OpId, inp: Input, next: Local): Sys
    requires o in s.ops
  {
    var op := s.ops[o];
    var m := op.monitor;
    var s1 := s.(
              now := inp.t2,
              recs := s.recs[m := next.rec],
              ops := s.ops[o := op.(pc := next.pc)],
              slots := MoveSlot(s.slots, m, op.pc, next.pc),
              log := AppendAll(s.log, next.events, cfg.maxEvents),
              total := s.total + next.events,
              dirty := s.dirty || next.events != []);
    if next.persist then Persist(s1, inp.save) else s1
  }

  /** A save changes the files and the dirty flag. */
  lemma PersistParts(s: Sys, save: Save)
    ensures var s' := Persist(s, save); s' == s.(disk := s'.disk, diskLog := s'.diskLog, dirty := s'.dirty)
  {
  }

  /** What a move changes besides the files: a save touches nothing in memory but the dirty flag. */
  lemma InstallParts(cfg: Config, s: Sys, o: OpId, inp: Input, next: Local)
    requires o in s.ops
    ensures var s' := Install(cfg, s, o, inp, next); var m := s.ops[o].monitor;
      && s'.up == s.up && s'.now == inp.t2
      && s'.recs == s.recs[m := next.rec] && s'.ops == s.ops[o := s.ops[o].(pc := next.pc)]
      && s'.slots == MoveSlot(s.slots, m, s.ops[o].pc, next.pc)
      && s'.log == AppendAll(s.log, next.events, cfg.maxEvents) && s'.total == s.total + next.events
  {
    hide Persist, AppendAll, MoveSlot;
    var m := s.ops[o].monitor;
    PersistParts(s.(now := inp.t2, recs := s.recs[m := next.rec], ops := s.ops[o := s.ops[o].(pc := next.pc)],
                    slots := MoveSlot(s.slots, m, s.ops[o].pc, next.pc),
                    log := AppendAll(s.log, next.events, cfg.maxEvents), total := s.total + next.events,
                    dirty := s.dirty || next.events != []), inp.save);
  }

  function Moved(cfg: Config, s: Sys, o: OpId, inp: Input): Local
    requires o in s.ops && Known(cfg, s, s.ops[o].monitor) && inp.t <= inp.t2
  {
    Advance(cfg.monitors[s.ops[o].monitor], s.recs[s.ops[o].monitor], s.ops[o], inp)
  }

  function Next(cfg: Config, s: Sys, l: Label): Sys
    requires Enabled(cfg, s, l)
  {
    match l
    case Call(o, m, kind) => s.(ops := s.ops[o := NewOp(m, kind)])
    case Cancel(o) => s.(ops := s.ops[o := s.ops[o].(cancelled := true)])
    case Step(o, inp) => Install(cfg, s, o, inp, Moved(cfg, s, o, inp))
    case Crash => s.(up := false, ops := map[], slots := {})
    case Boot(t, saved, events, save) => Start(cfg, s, t, saved, events, save)
  }

  /** Labels that cannot fire are skipped, so that Exec is defined for every sequence. */
  function Exec(cfg: Config, s: Sys, run: seq<Label>): Sys {
    if run == [] then s
    else
      var prev := Exec(cfg, s, run[..|run| - 1]);
      if Enabled(cfg, prev, run[|run| - 1]) then Next(cfg, prev, run[|run| - 1]) else prev
  }

  /** Every label of the run fires. */
  ghost predicate IsRun(cfg: Config, s: Sys, run: seq<Label>) {
    forall i | 0 <= i < |run| :: Enabled(cfg, Exec(cfg, s, run[..i]), run[i])
  }

  /** The events of one monitor, in order. */
  function EventsOf(events: seq<Event>, m: Id): seq<Event> {
    if events == [] then []
    else
      var e := events[|events| - 1];
      EventsOf(events[..|events| - 1], m) + if e.monitor == m then [e] else []
  }

  lemma {:induction false} EventsOfAppend(events: seq<Event>, more: seq<Event>, m: Id)
    ensures EventsOf(events + more, m) == EventsOf(events, m) + EventsOf(more, m)
  {
    if more == [] {
      assert events + more == events;
    } else {
      var n := |more| - 1;
      assert (events + more)[..|events + more| - 1] == events + more[..n];
      EventsOfAppend(events, more[..n], m);
    }
  }

  lemma {:induction false} EventsOfOne(events: seq<Event>, m: Id, m': Id)
    requires forall k | 0 <= k < |events| :: events[k].monitor == m
    ensures EventsOf(events, m') == if m' == m then events else []
  {
    if events != [] {
      var n := |events| - 1;
      EventsOfOne(events[..n], m, m');
      assert events == events[..n] + [events[n]];
    }
  }

  /** Nothing on disk yet and no process: the state before the very first start. */
  function Blank(now: nat): Sys {
    Sys(false, now, map[], map[], {}, [], [], false, {map[]}, {[]})
  }

  /** The state after a first start that saved. */
  function Fresh(cfg: Config, now: nat): Sys {
    Start(cfg, Blank(now), now, map[], [], Saved)
  }

  lemma RunPrefix(cfg: Config, s: Sys, run: seq<Label>, i: nat)
    requires i <= |run| && IsRun(cfg, s, run)
    ensures IsRun(cfg, s, run[..i])
  {
    forall j | 0 <= j < i ensures Enabled(cfg, Exec(cfg, s, run[..i][..j]), run[..i][j]) {
      assert run[..i][..j] == run[..j];
    }
  }

  lemma LastStep(cfg: Config, s: Sys, run: seq<Label>)
    requires IsRun(cfg, s, run) && run != []
    ensures var n := |run| - 1;
      && IsRun(cfg, s, run[..n]) && Enabled(cfg, Exec(cfg, s, run[..n]), run[n])
      && Exec(cfg, s, run) == Next(cfg, Exec(cfg, s, run[..n]), run[n])
  {
    hide Next, Enabled;
    RunPrefix(cfg, s, run, |run| - 1);
    assert Enabled(cfg, Exec(cfg, s, run[..|run| - 1]), run[|run| - 1]);
  }

  lemma RunExtend(cfg: Config, s: Sys, run: seq<Label>, l: Label)
    requires IsRun(cfg, s, run) && Enabled(cfg, Exec(cfg, s, run), l)
    ensures IsRun(cfg, s, run + [l])
    ensures Exec(cfg, s, run + [l]) == Next(cfg, Exec(cfg, s, run), l)
  {
    assert (run + [l])[..|run|] == run;
    forall j | 0 <= j < |run| + 1 ensures Enabled(cfg, Exec(cfg, s, (run + [l])[..j]), (run + [l])[j]) {
      assert (run + [l])[..j] == run[..j];
    }
  }
}
