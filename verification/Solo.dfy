/**
 Runs in which only one operation moves, at one moment of time: what it takes to
 show that the whole process can get somewhere.
 */
module Solo {
  import opened MonitorRecord
  import opened RecoveryMachine
  import opened System
  import opened Locking
  import opened Serial

  /** The operation that moves, its monitor, and when. */
  datatype Mover = Mover(op: OpId, monitor: Id, at: nat)

  predicate IsMove(l: Label, v: Mover) {
    l == Cancel(v.op) || (l.Step? && l.op == v.op && l.inp.t == l.inp.t2 == v.at)
  }

  ghost predicate OnlyMoves(run: seq<Label>, v: Mover) {
    forall k | 0 <= k < |run| :: IsMove(run[k], v)
  }

  /** s' is s but for what the mover did: its record, itself, its events, its slot. */
  ghost predicate Shows(s: Sys, s': Sys, v: Mover, st: Story) {
    && s'.up && s'.now <= v.at
    && s'.recs == s.recs[v.monitor := st.rec] && s'.ops == s.ops[v.op := st.op]
    && s'.total == s.total + st.events
    && (v.monitor in s'.slots <==> Holds(st.op.pc))
  }

  /** From s the mover alone can bring itself and its record here. */
  ghost predicate Reaches(cfg: Config, s: Sys, v: Mover, st: Story) {
    exists run: seq<Label> :: OnlyMoves(run, v) && IsRun(cfg, s, run) && Shows(s, Exec(cfg, s, run), v, st)
  }

  lemma ReachesHere(cfg: Config, s: Sys, v: Mover)
    requires s.up && s.now <= v.at && v.op in s.ops && v.monitor in s.recs
    requires v.monitor in s.slots <==> Holds(s.ops[v.op].pc)
    ensures Reaches(cfg, s, v, Story(s.recs[v.monitor], s.ops[v.op], []))
  {
    assert s.total + [] == s.total;
    assert OnlyMoves([], v) && IsRun(cfg, s, []) && Exec(cfg, s, []) == s;
    assert Shows(s, s, v, Story(s.recs[v.monitor], s.ops[v.op], []));
  }

  /** The story after one step. */
  function Stepped(mc: MonitorConfig, st: Story, inp: Input): Story
    requires inp.t <= inp.t2
  {
    var next := Advance(mc, st.rec, st.op, inp);
    Story(next.rec, st.op.(pc := next.pc), st.events + next.events)
  }

  lemma ReachesLabel(cfg: Config, s: Sys, v: Mover, run: seq<Label>, l: Label, st: Story)
    requires OnlyMoves(run, v) && IsRun(cfg, s, run) && IsMove(l, v) && Enabled(cfg, Exec(cfg, s, run), l)
    requires Shows(s, Next(cfg, Exec(cfg, s, run), l), v, st)
    ensures Reaches(cfg, s, v, st)
  {
    hide Next, IsRun, Shows;
    RunExtend(cfg, s, run, l);
    assert OnlyMoves(run + [l], v);
  }

  lemma ShowsInstall(cfg: Config, s: Sys, s1: Sys, v: Mover, st: Story, inp: Input, next: Local)
    requires Shows(s, s1, v, st) && st.op.monitor == v.monitor && inp.t2 == v.at
    ensures Shows(s, Install(cfg, s1, v.op, inp, next), v,
                  Story(next.rec, st.op.(pc := next.pc), st.events + next.events))
  {
    hide Install, AppendAll;
    InstallParts(cfg, s1, v.op, inp, next);
    assert s.total + st.events + next.events == s.total + (st.events + next.events);
  }

  lemma CanStep(cfg: Config, s: Sys, s1: Sys, v: Mover, st: Story, inp: Input)
    requires Shows(s, s1, v, st) && v.monitor in cfg.monitors && st.op.monitor == v.monitor && !st.op.pc.Finished?
    requires inp.t == inp.t2 == v.at
    ensures Enabled(cfg, s1, Step(v.op, inp))
    ensures Moved(cfg, s1, v.op, inp) == Advance(cfg.monitors[v.monitor], st.rec, st.op, inp)
  {
    hide Advance;
    assert s1.ops[v.op] == st.op && s1.recs[v.monitor] == st.rec;
    assert Acquires(st.op, inp) ==> !Holds(st.op.pc);
  }

  lemma ShowsStep(cfg: Config, s: Sys, s1: Sys, v: Mover, st: Story, inp: Input)
    requires Shows(s, s1, v, st) && v.monitor in cfg.monitors && st.op.monitor == v.monitor && !st.op.pc.Finished?
    requires inp.t == inp.t2 == v.at
    ensures Enabled(cfg, s1, Step(v.op, inp))
    ensures Shows(s, Next(cfg, s1, Step(v.op, inp)), v, Stepped(cfg.monitors[v.monitor], st, inp))
  {
    CanStep(cfg, s, s1, v, st, inp);
    hide Advance, Shows, Moved, Install;
    ShowsInstall(cfg, s, s1, v, st, inp, Moved(cfg, s1, v.op, inp));
  }

  lemma ReachesStep(cfg: Config, s: Sys, v: Mover, st: Story, inp: Input)
    requires Reaches(cfg, s, v, st) && v.monitor in cfg.monitors && st.op.monitor == v.monitor && !st.op.pc.Finished?
    requires inp.t == inp.t2 == v.at
    ensures Reaches(cfg, s, v, Stepped(cfg.monitors[v.monitor], st, inp))
  {
    hide IsRun, Shows, Next, Stepped, Enabled;
    var run :| OnlyMoves(run, v) && IsRun(cfg, s, run) && Shows(s, Exec(cfg, s, run), v, st);
    ShowsStep(cfg, s, Exec(cfg, s, run), v, st, inp);
    ReachesLabel(cfg, s, v, run, Step(v.op, inp), Stepped(cfg.monitors[v.monitor], st, inp));
  }

  lemma ReachesCancel(cfg: Config, s: Sys, v: Mover, st: Story)
    requires Reaches(cfg, s, v, st)
    ensures Reaches(cfg, s, v, st.(op := st.op.(cancelled := true)))
  {
    hide IsRun;
    var run :| OnlyMoves(run, v) && IsRun(cfg, s, run) && Shows(s, Exec(cfg, s, run), v, st);
    var s1 := Exec(cfg, s, run);
    assert Next(cfg, s1, Cancel(v.op)).ops == s.ops[v.op := st.op.(cancelled := true)];
    ReachesLabel(cfg, s, v, run, Cancel(v.op), st.(op := st.op.(cancelled := true)));
  }

  // ---- a new operation

  /** The state right after the call. */
  lemma Calls(cfg: Config, s: Sys, v: Mover, kind: Kind)
    requires s.up && s.now <= v.at && v.op !in s.ops && v.monitor in s.recs && v.monitor !in s.slots
    requires v.monitor in cfg.monitors && cfg.monitors[v.monitor].enabled
    ensures Enabled(cfg, s, Call(v.op, v.monitor, kind))
    ensures var s1 := Next(cfg, s, Call(v.op, v.monitor, kind));
      Reaches(cfg, s1, v, Story(s.recs[v.monitor], NewOp(v.monitor, kind), []))
  {
    ReachesHere(cfg, Next(cfg, s, Call(v.op, v.monitor, kind)), v);
  }

  /** A run that begins with the call and gets here. */
  ghost predicate CallReaches(cfg: Config, s: Sys, v: Mover, kind: Kind, st: Story) {
    && Enabled(cfg, s, Call(v.op, v.monitor, kind))
    && Reaches(cfg, Next(cfg, s, Call(v.op, v.monitor, kind)), v, st)
  }

  lemma {:induction false} ExecAppend(cfg: Config, s: Sys, a: seq<Label>, b: seq<Label>)
    ensures Exec(cfg, s, a + b) == Exec(cfg, Exec(cfg, s, a), b)
  {
    hide Next, Enabled;
    if b == [] {
      assert a + b == a;
    } else {
      var n := |b| - 1;
      ExecAppend(cfg, s, a, b[..n]);
      assert (a + b)[..|a + b| - 1] == a + b[..n];
    }
  }

  lemma RunAppend(cfg: Config, s: Sys, a: seq<Label>, b: seq<Label>)
    requires IsRun(cfg, s, a) && IsRun(cfg, Exec(cfg, s, a), b)
    ensures IsRun(cfg, s, a + b)
  {
    hide Next, Enabled, Exec;
    forall i | 0 <= i < |a + b| ensures Enabled(cfg, Exec(cfg, s, (a + b)[..i]), (a + b)[i]) {
      if i < |a| {
        assert (a + b)[..i] == a[..i];
      } else {
        assert (a + b)[..i] == a + b[..i - |a|];
        ExecAppend(cfg, s, a, b[..i - |a|]);
      }
    }
  }

  /** The moves in general: anybody's calls and moves, no crash. */
  ghost predicate Runs(cfg: Config, s: Sys, run: seq<Label>, s': Sys) {
    IsRun(cfg, s, run) && Crash !in run && Exec(cfg, s, run) == s'
  }

  lemma CallRuns(cfg: Config, s: Sys, v: Mover, kind: Kind, st: Story) returns (run: seq<Label>, s': Sys)
    requires CallReaches(cfg, s, v, kind, st)
    ensures Runs(cfg, s, run, s') && run != [] && run[0] == Call(v.op, v.monitor, kind)
    ensures Shows(Next(cfg, s, run[0]), s', v, st)
  {
    hide Next, Enabled, Shows;
    var l := Call(v.op, v.monitor, kind);
    var s1 := Next(cfg, s, l);
    var moves :| OnlyMoves(moves, v) && IsRun(cfg, s1, moves) && Shows(s1, Exec(cfg, s1, moves), v, st);
    assert [l][..0] == [];
    assert Exec(cfg, s, []) == s;
    assert IsRun(cfg, s, [l]) && Exec(cfg, s, [l]) == s1;
    RunAppend(cfg, s, [l], moves);
    ExecAppend(cfg, s, [l], moves);
    run, s' := [l] + moves, Exec(cfg, s1, moves);
  }

  lemma RunsThen(cfg: Config, s: Sys, a: seq<Label>, s1: Sys, b: seq<Label>, s2: Sys)
    requires Runs(cfg, s, a, s1) && Runs(cfg, s1, b, s2)
    ensures Runs(cfg, s, a + b, s2)
  {
    hide Exec;
    RunAppend(cfg, s, a, b);
    ExecAppend(cfg, s, a, b);
  }
}
