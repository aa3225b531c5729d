/**
 Serialisability: whatever interleaves, each monitor's record and events are those
 of running only that monitor's operations, one after the other, in the order in
 which they took its slot.
 */
module Serial {
  import opened MonitorRecord
  import opened RecoveryMachine
  import opened System
  import opened Locking

  /** A record, the operation working on it and the events so far. */
  datatype Story = Story(rec: Record, op: Op, events: seq<Event>)

  function Begin(r: Record, m: Id, kind: Kind): Story {
    Story(r, NewOp(m, kind), [])
  }

  function PlayOne(mc: MonitorConfig, st: Story, l: Label, o: OpId): Story {
    match l
    case Cancel(o') => if o' == o then st.(op := st.op.(cancelled := true)) else st
    case Step(o', inp) =>
      if o' == o && inp.t <= inp.t2 then
        var next := Advance(mc, st.rec, st.op, inp);
        Story(next.rec, st.op.(pc := next.pc), st.events + next.events)
      else st
    case _ => st
  }

  /** Operation o alone: every label of somebody else is skipped. */
  function Replay(mc: MonitorConfig, st: Story, run: seq<Label>, o: OpId): Story {
    if run == [] then st
    else PlayOne(mc, Replay(mc, st, run[..|run| - 1], o), run[|run| - 1], o)
  }

  function Mentions(l: Label, o: OpId): bool {
    match l
    case Call(o', _, _) => o' == o
    case Cancel(o') => o' == o
    case Step(o', _) => o' == o
    case _ => false
  }

  lemma ReplayLast(mc: MonitorConfig, st: Story, run: seq<Label>, l: Label, o: OpId)
    ensures Replay(mc, st, run + [l], o) == PlayOne(mc, Replay(mc, st, run, o), l, o)
    ensures !Mentions(l, o) || l.Call? ==> Replay(mc, st, run + [l], o) == Replay(mc, st, run, o)
  {
    assert (run + [l])[..|run|] == run;
  }

  lemma {:induction false} ReplayNobody(mc: MonitorConfig, st: Story, run: seq<Label>, o: OpId)
    requires forall k | 0 <= k < |run| :: !Mentions(run[k], o)
    ensures Replay(mc, st, run, o) == st
  {
    if run != [] {
      ReplayNobody(mc, st, run[..|run| - 1], o);
    }
  }

  /** The operations of m in the order in which they took its slot. */
  function LockOrder(cfg: Config, s: Sys, run: seq<Label>, m: Id): seq<OpId> {
    if run == [] then []
    else
      var prev := Exec(cfg, s, run[..|run| - 1]);
      LockOrder(cfg, s, run[..|run| - 1], m) + Acquired(cfg, prev, run[|run| - 1], m)
  }

  function Acquired(cfg: Config, s: Sys, l: Label, m: Id): seq<OpId> {
    if l.Step? && Enabled(cfg, s, l) && s.ops[l.op].monitor == m && Acquires(s.ops[l.op], l.inp) then [l.op] else []
  }

  /** The kind with which an operation was called. */
  function CalledAs(run: seq<Label>, o: OpId): Kind {
    if run == [] then Cycle
    else if run[|run| - 1].Call? && run[|run| - 1].op == o then run[|run| - 1].kind
    else CalledAs(run[..|run| - 1], o)
  }

  lemma CalledAsLast(run: seq<Label>, l: Label, o: OpId)
    ensures CalledAs(run + [l], o) == if l.Call? && l.op == o then l.kind else CalledAs(run, o)
  {
    assert (run + [l])[..|run|] == run;
  }

  datatype Outcome = Outcome(rec: Record, events: seq<Event>)

  /** One operation after the other, each alone, from record r. */
  function OneByOne(mc: MonitorConfig, m: Id, r: Record, order: seq<OpId>, run: seq<Label>): Outcome {
    if order == [] then Outcome(r, [])
    else
      var o := order[|order| - 1];
      var before := OneByOne(mc, m, r, order[..|order| - 1], run);
      var st := Replay(mc, Begin(before.rec, m, CalledAs(run, o)), run, o);
      Outcome(st.rec, before.events + st.events)
  }

  lemma OneByOneLast(mc: MonitorConfig, m: Id, r: Record, order: seq<OpId>, o: OpId, run: seq<Label>)
    ensures var before := OneByOne(mc, m, r, order, run);
      var st := Replay(mc, Begin(before.rec, m, CalledAs(run, o)), run, o);
      OneByOne(mc, m, r, order + [o], run) == Outcome(st.rec, before.events + st.events)
  {
    assert (order + [o])[..|order|] == order;
  }

  /** A label that is no step or call of anybody listed changes nothing. */
  lemma {:induction false} OneByOneStable(
    mc: MonitorConfig, m: Id, r: Record, order: seq<OpId>, run: seq<Label>, l: Label)
    requires forall k | 0 <= k < |order| :: !Mentions(l, order[k]) || l.Cancel?
    ensures OneByOne(mc, m, r, order, run + [l]) == OneByOne(mc, m, r, order, run)
  {
    if order != [] {
      var n := |order| - 1;
      OneByOneStable(mc, m, r, order[..n], run, l);
      var o := order[n];
      CalledAsLast(run, l, o);
      ReplayLast(mc, Begin(OneByOne(mc, m, r, order[..n], run).rec, m, CalledAs(run, o)), run, l, o);
      hide Advance;
    }
  }

  // ---- the invariant

  predicate NotYet(pc: PC) {
    pc.Called? || pc.Waiting? || pc == Finished(NotRun)
  }

  predicate Past(pc: PC) {
    !pc.Called? && !pc.Waiting?
  }

  /** An operation that never took the slot: alone it leaves any record as it is. */
  ghost predicate Outside(mc: MonitorConfig, op: Op, run: seq<Label>, o: OpId) {
    && NotYet(op.pc)
    && forall r :: Replay(mc, Begin(r, op.monitor, op.kind), run, o) == Story(r, op, [])
  }

  /** Each operation of the order, alone from where the previous ones left the
      record, is now where the real one is. */
  ghost predicate Played(mc: MonitorConfig, s: Sys, m: Id, r: Record, order: seq<OpId>, run: seq<Label>) {
    order == [] ||
    var n := |order| - 1;
    var o := order[n];
    && Played(mc, s, m, r, order[..n], run)
    && o in s.ops && s.ops[o].monitor == m && Past(s.ops[o].pc)
    && s.ops[o].kind == CalledAs(run, o)
    && Replay(mc, Begin(OneByOne(mc, m, r, order[..n], run).rec, m, CalledAs(run, o)), run, o).op == s.ops[o]
  }

  ghost predicate AllButLastFinished(s: Sys, order: seq<OpId>) {
    forall k | 0 <= k < |order| - 1 :: order[k] in s.ops && s.ops[order[k]].pc.Finished?
  }

  ghost predicate Distinct(order: seq<OpId>) {
    forall i, j | 0 <= i < j < |order| :: order[i] != order[j]
  }

  /** The last of the order holds the slot or has finished too; nobody else holds it. */
  ghost predicate LastHolds(s: Sys, m: Id, order: seq<OpId>) {
    forall o | Holder(s, o, m) :: order != [] && o == order[|order| - 1]
  }

  ghost predicate Serially(cfg: Config, s0: Sys, s: Sys, run: seq<Label>, m: Id)
    requires m in cfg.monitors && m in s0.recs
  {
    var mc := cfg.monitors[m];
    var order := LockOrder(cfg, s0, run, m);
    var alone := OneByOne(mc, m, s0.recs[m], order, run);
    && s.up && m in s.recs
    && s.recs[m] == alone.rec
    && EventsOf(s.total, m) == EventsOf(s0.total, m) + alone.events
    && Played(mc, s, m, s0.recs[m], order, run)
    && AllButLastFinished(s, order) && Distinct(order) && LastHolds(s, m, order)
    && (forall o | o in s.ops && s.ops[o].monitor == m && o !in order ::
          Outside(mc, s.ops[o], run, o) && s.ops[o].kind == CalledAs(run, o))
    && (forall o, k | o !in s.ops && 0 <= k < |run| :: !Mentions(run[k], o))
  }

  // ---- what a label does, as far as m is concerned

  /** The operations of s' are those of s, except that o may be new or different. */
  predicate OnlyChanges(s: Sys, s': Sys, o: OpId) {
    && s'.up && s.ops.Keys <= s'.ops.Keys <= s.ops.Keys + {o}
    && forall o' | o' in s.ops && o' != o :: s'.ops[o'] == s.ops[o']
  }

  function MoverOf(l: Label): OpId
    requires l.Call? || l.Cancel? || l.Step?
  {
    l.op
  }

  lemma NextOps(cfg: Config, s: Sys, l: Label)
    requires Enabled(cfg, s, l) && s.up && !l.Crash?
    ensures !l.Boot?
    ensures OnlyChanges(s, Next(cfg, s, l), MoverOf(l))
    ensures var s' := Next(cfg, s, l);
      match l
      case Call(o, m, kind) => s'.ops[o] == NewOp(m, kind)
      case Cancel(o) => s'.ops[o] == s.ops[o].(cancelled := true)
      case Step(o, inp) => s'.ops[o] == s.ops[o].(pc := Moved(cfg, s, o, inp).pc)
      case _ => false
  {
    hide Advance;
  }

  /** Only a step of an operation of m changes m's record or appends to m's events. */
  lemma NextRecord(cfg: Config, s: Sys, l: Label, m: Id)
    requires Enabled(cfg, s, l) && s.up && !l.Crash? && m in s.recs
    ensures var s' := Next(cfg, s, l);
      && m in s'.recs
      && (if l.Step? && s.ops[l.op].monitor == m then
            var next := Moved(cfg, s, l.op, l.inp);
            s'.recs[m] == next.rec && EventsOf(s'.total, m) == EventsOf(s.total, m) + next.events
          else
            s'.recs[m] == s.recs[m] && EventsOf(s'.total, m) == EventsOf(s.total, m))
  {
    if l.Step? {
      var m' := s.ops[l.op].monitor;
      var events := Moved(cfg, s, l.op, l.inp).events;
      EventsAreOwn(cfg.monitors[m'], s.recs[m'], s.ops[l.op], l.inp);
      InstallParts(cfg, s, l.op, l.inp, Moved(cfg, s, l.op, l.inp));
      hide Advance, EventsOf, Install;
      EventsOfAppend(s.total, events, m);
      EventsOfOne(events, m', m);
    }
  }

  lemma OrderLast(cfg: Config, s0: Sys, run: seq<Label>, l: Label, m: Id)
    ensures LockOrder(cfg, s0, run + [l], m) == LockOrder(cfg, s0, run, m) + Acquired(cfg, Exec(cfg, s0, run), l, m)
  {
    assert (run + [l])[..|run|] == run;
  }

  // ---- the parts of the invariant, one label further

  /** A label treats the listed operations as Replay does. */
  lemma {:induction false} PlayedKeep(
    mc: MonitorConfig, s: Sys, s': Sys, m: Id, r: Record, order: seq<OpId>, run: seq<Label>, l: Label)
    requires Played(mc, s, m, r, order, run)
    requires forall k | 0 <= k < |order| ::
               order[k] in s.ops && order[k] in s'.ops &&
               if Mentions(l, order[k]) then l.Cancel? && s'.ops[order[k]] == s.ops[order[k]].(cancelled := true)
               else s'.ops[order[k]] == s.ops[order[k]]
    ensures Played(mc, s', m, r, order, run + [l])
  {
    if order != [] {
      var n := |order| - 1;
      PlayedKeep(mc, s, s', m, r, order[..n], run, l);
      OneByOneStable(mc, m, r, order[..n], run, l);
      CalledAsLast(run, l, order[n]);
      ReplayLast(mc, Begin(OneByOne(mc, m, r, order[..n], run).rec, m, CalledAs(run, order[n])), run, l, order[n]);
      hide Advance;
    }
  }

  lemma OutsideKeep(mc: MonitorConfig, op: Op, op': Op, run: seq<Label>, l: Label, o: OpId)
    requires Outside(mc, op, run, o)
    requires if Mentions(l, o) then l.Cancel? && op' == op.(cancelled := true) else op' == op
    ensures Outside(mc, op', run + [l], o)
  {
    hide Advance;
    forall r ensures Replay(mc, Begin(r, op'.monitor, op'.kind), run + [l], o) == Story(r, op', []) {
      ReplayLast(mc, Begin(r, op.monitor, op.kind), run, l, o);
    }
  }

  lemma OutsideMove(mc: MonitorConfig, r: Record, op: Op, run: seq<Label>, o: OpId, inp: Input)
    requires Outside(mc, op, run, o) && inp.t <= inp.t2 && !Acquires(op, inp)
    ensures Outside(mc, op.(pc := Advance(mc, r, op, inp).pc), run + [Step(o, inp)], o)
  {
    var op' := op.(pc := Advance(mc, r, op, inp).pc);
    forall r' ensures Replay(mc, Begin(r', op'.monitor, op'.kind), run + [Step(o, inp)], o) == Story(r', op', []) {
      ReplayLast(mc, Begin(r', op.monitor, op.kind), run, Step(o, inp), o);
    }
  }

  lemma OutsideBegins(mc: MonitorConfig, m: Id, kind: Kind, run: seq<Label>, o: OpId)
    requires forall k | 0 <= k < |run| :: !Mentions(run[k], o)
    ensures Outside(mc, NewOp(m, kind), run + [Call(o, m, kind)], o)
  {
    hide Advance;
    forall r ensures Replay(mc, Begin(r, m, kind), run + [Call(o, m, kind)], o) == Story(r, NewOp(m, kind), []) {
      ReplayNobody(mc, Begin(r, m, kind), run, o);
      ReplayLast(mc, Begin(r, m, kind), run, Call(o, m, kind), o);
    }
  }

  // ---- one label of the run

  lemma InOrder(cfg: Config, s0: Sys, s: Sys, run: seq<Label>, m: Id, k: nat)
    requires m in cfg.monitors && m in s0.recs && Serially(cfg, s0, s, run, m)
    requires k < |LockOrder(cfg, s0, run, m)|
    ensures var o := LockOrder(cfg, s0, run, m)[k];
            o in s.ops && s.ops[o].monitor == m && Past(s.ops[o].pc)
  {
    hide OneByOne, Replay;
    PlayedAt(cfg.monitors[m], s, m, s0.recs[m], LockOrder(cfg, s0, run, m), run, k);
  }

  lemma {:induction false} PlayedAt(
    mc: MonitorConfig, s: Sys, m: Id, r: Record, order: seq<OpId>, run: seq<Label>, k: nat)
    requires Played(mc, s, m, r, order, run) && k < |order|
    ensures order[k] in s.ops && s.ops[order[k]].monitor == m && Past(s.ops[order[k]].pc)
  {
    hide OneByOne, Replay;
    if k < |order| - 1 {
      PlayedAt(mc, s, m, r, order[..|order| - 1], run, k);
    }
  }

  /** The listed operations under a label that is not a step of one of them. */
  lemma AsidePlayed(cfg: Config, s0: Sys, s: Sys, run: seq<Label>, l: Label, m: Id)
    requires m in cfg.monitors && m in s0.recs && Serially(cfg, s0, s, run, m)
    requires Enabled(cfg, s, l) && !l.Crash?
    requires forall k | 0 <= k < |LockOrder(cfg, s0, run, m)| :: !(l.Step? && l.op == LockOrder(cfg, s0, run, m)[k])
    ensures var order := LockOrder(cfg, s0, run, m); var s' := Next(cfg, s, l);
      && Played(cfg.monitors[m], s', m, s0.recs[m], order, run + [l])
      && AllButLastFinished(s', order)
      && OneByOne(cfg.monitors[m], m, s0.recs[m], order, run + [l])
        == OneByOne(cfg.monitors[m], m, s0.recs[m], order, run)
  {
    var s' := Next(cfg, s, l);
    var order := LockOrder(cfg, s0, run, m);
    NextOps(cfg, s, l);
    hide Next, Advance, OneByOne, Replay, LockOrder, EventsOf, Exec, CalledAs, Outside, LastHolds;
    forall k | 0 <= k < |order| ensures
        order[k] in s.ops && order[k] in s'.ops &&
        if Mentions(l, order[k]) then l.Cancel? && s'.ops[order[k]] == s.ops[order[k]].(cancelled := true)
        else s'.ops[order[k]] == s.ops[order[k]]
    {
      InOrder(cfg, s0, s, run, m, k);
    }
    PlayedKeep(cfg.monitors[m], s, s', m, s0.recs[m], order, run, l);
    OneByOneStable(cfg.monitors[m], m, s0.recs[m], order, run, l);
  }

  /** The unlisted operations under a label that is not a step of an operation of m. */
  lemma AsideOutside(cfg: Config, s0: Sys, s: Sys, run: seq<Label>, l: Label, m: Id, o: OpId)
    requires m in cfg.monitors && m in s0.recs && Serially(cfg, s0, s, run, m)
    requires Enabled(cfg, s, l) && !l.Crash? && !(l.Step? && l.op == o)
    requires var s' := Next(cfg, s, l); o in s'.ops && s'.ops[o].monitor == m && o !in LockOrder(cfg, s0, run, m)
    ensures var s' := Next(cfg, s, l);
            Outside(cfg.monitors[m], s'.ops[o], run + [l], o) && s'.ops[o].kind == CalledAs(run + [l], o)
  {
    var s' := Next(cfg, s, l);
    NextOps(cfg, s, l);
    hide Next, Advance, OneByOne, Replay, LockOrder, EventsOf, Exec, Outside, LastHolds, Played;
    CalledAsLast(run, l, o);
    if o in s.ops {
      OutsideKeep(cfg.monitors[m], s.ops[o], s'.ops[o], run, l, o);
    } else {
      OutsideBegins(cfg.monitors[m], m, l.kind, run, o);
    }
  }

  lemma Unmentioned(cfg: Config, s: Sys, run: seq<Label>, l: Label)
    requires Enabled(cfg, s, l) && s.up && !l.Crash?
    requires forall o, k | o !in s.ops && 0 <= k < |run| :: !Mentions(run[k], o)
    ensures forall o, k | o !in Next(cfg, s, l).ops && 0 <= k < |run + [l]| :: !Mentions((run + [l])[k], o)
  {
    NextOps(cfg, s, l);
    hide Next;
  }

  lemma AsideHolders(cfg: Config, s: Sys, l: Label, m: Id, order: seq<OpId>)
    requires Enabled(cfg, s, l) && s.up && !l.Crash? && LastHolds(s, m, order)
    requires l.Step? ==> s.ops[l.op].monitor != m || (!Holds(s.ops[l.op].pc) && !Acquires(s.ops[l.op], l.inp))
    ensures LastHolds(Next(cfg, s, l), m, order)
  {
    NextOps(cfg, s, l);
    if l.Step? {
      AdvanceHolds(cfg.monitors[s.ops[l.op].monitor], s.recs[s.ops[l.op].monitor], s.ops[l.op], l.inp);
    }
    hide Next, Advance;
    forall o | Holder(Next(cfg, s, l), o, m) ensures order != [] && o == order[|order| - 1] {
      assert Holder(s, o, m);
    }
  }

  /** Labels that are not steps of m's operations. */
  lemma AsideKeeps(cfg: Config, s0: Sys, s: Sys, run: seq<Label>, l: Label, m: Id)
    requires m in cfg.monitors && m in s0.recs && s == Exec(cfg, s0, run) && Serially(cfg, s0, s, run, m)
    requires Enabled(cfg, s, l) && !l.Crash? && !(l.Step? && s.ops[l.op].monitor == m)
    ensures Serially(cfg, s0, Next(cfg, s, l), run + [l], m)
  {
    hide Next, Advance, OneByOne, Replay, LockOrder, EventsOf, Exec, CalledAs, Played, Outside, LastHolds,
      AllButLastFinished;
    var s' := Next(cfg, s, l);
    var order := LockOrder(cfg, s0, run, m);
    forall k | 0 <= k < |order| ensures !(l.Step? && l.op == order[k]) { InOrder(cfg, s0, s, run, m, k); }
    AsidePlayed(cfg, s0, s, run, l, m);
    NextRecord(cfg, s, l, m);
    OrderLast(cfg, s0, run, l, m);
    Unmentioned(cfg, s, run, l);
    AsideHolders(cfg, s, l, m, order);
    NextOps(cfg, s, l);
    assert order + [] == order;
    forall o | o in s'.ops && s'.ops[o].monitor == m && o !in order
      ensures Outside(cfg.monitors[m], s'.ops[o], run + [l], o) && s'.ops[o].kind == CalledAs(run + [l], o)
    {
      AsideOutside(cfg, s0, s, run, l, m, o);
    }
  }

  /** The unlisted operations other than the one that steps. */
  lemma OthersOutside(cfg: Config, s0: Sys, s: Sys, run: seq<Label>, l: Label, m: Id)
    requires m in cfg.monitors && m in s0.recs && Serially(cfg, s0, s, run, m)
    requires Enabled(cfg, s, l) && l.Step?
    ensures var s' := Next(cfg, s, l);
      forall o | o in s'.ops && o != l.op && s'.ops[o].monitor == m && o !in LockOrder(cfg, s0, run, m) ::
        Outside(cfg.monitors[m], s'.ops[o], run + [l], o) && s'.ops[o].kind == CalledAs(run + [l], o)
  {
    hide Serially, Next, LockOrder, Outside, CalledAs;
    var s' := Next(cfg, s, l);
    forall o | o in s'.ops && o != l.op && s'.ops[o].monitor == m && o !in LockOrder(cfg, s0, run, m)
      ensures Outside(cfg.monitors[m], s'.ops[o], run + [l], o) && s'.ops[o].kind == CalledAs(run + [l], o)
    {
      AsideOutside(cfg, s0, s, run, l, m, o);
    }
  }

  /** A step of an operation that has not taken the slot and does not take it now. */
  lemma WaitingKeeps(cfg: Config, s0: Sys, s: Sys, run: seq<Label>, o: OpId, inp: Input, m: Id)
    requires m in cfg.monitors && m in s0.recs && s == Exec(cfg, s0, run) && Serially(cfg, s0, s, run, m)
    requires Enabled(cfg, s, Step(o, inp)) && s.ops[o].monitor == m
    requires o !in LockOrder(cfg, s0, run, m) && !Acquires(s.ops[o], inp)
    ensures Serially(cfg, s0, Next(cfg, s, Step(o, inp)), run + [Step(o, inp)], m)
  {
    var l := Step(o, inp);
    var s' := Next(cfg, s, l);
    var order := LockOrder(cfg, s0, run, m);
    assert Outside(cfg.monitors[m], s.ops[o], run, o);
    AsidePlayed(cfg, s0, s, run, l, m);
    AdvanceHolds(cfg.monitors[m], s.recs[m], s.ops[o], inp);
    NextRecord(cfg, s, l, m);
    OrderLast(cfg, s0, run, l, m);
    Unmentioned(cfg, s, run, l);
    AsideHolders(cfg, s, l, m, order);
    NextOps(cfg, s, l);
    OutsideMove(cfg.monitors[m], s.recs[m], s.ops[o], run, o, inp);
    CalledAsLast(run, l, o);
    hide Next, Advance, OneByOne, Replay, LockOrder, EventsOf, Exec, CalledAs, Played, LastHolds, AllButLastFinished,
      Outside;
    assert order + [] == order;
    forall o' | o' in s'.ops && s'.ops[o'].monitor == m && o' !in order
      ensures Outside(cfg.monitors[m], s'.ops[o'], run + [l], o') && s'.ops[o'].kind == CalledAs(run + [l], o')
    {
      if o' != o { AsideOutside(cfg, s0, s, run, l, m, o'); }
    }
  }

  /** Alone, the operation that takes the slot goes where it goes in company. */
  lemma AcquirerPlays(cfg: Config, s0: Sys, s: Sys, run: seq<Label>, o: OpId, inp: Input, m: Id)
    requires m in cfg.monitors && m in s0.recs && s == Exec(cfg, s0, run) && Serially(cfg, s0, s, run, m)
    requires Enabled(cfg, s, Step(o, inp)) && s.ops[o].monitor == m
    requires o !in LockOrder(cfg, s0, run, m) && Acquires(s.ops[o], inp)
    ensures var l := Step(o, inp); var s' := Next(cfg, s, l); var order := LockOrder(cfg, s0, run, m);
      && Played(cfg.monitors[m], s', m, s0.recs[m], order + [o], run + [l])
      && OneByOne(cfg.monitors[m], m, s0.recs[m], order + [o], run + [l])
         == OneByOne(cfg.monitors[m], m, s0.recs[m], order, run)
      && s'.ops[o].pc.Locked?
  {
    var l := Step(o, inp);
    var mc := cfg.monitors[m];
    var order := LockOrder(cfg, s0, run, m);
    assert Outside(mc, s.ops[o], run, o);
    AsidePlayed(cfg, s0, s, run, l, m);
    NextOps(cfg, s, l);
    CalledAsLast(run, l, o);
    var before := OneByOne(mc, m, s0.recs[m], order, run);
    ReplayLast(mc, Begin(before.rec, m, CalledAs(run, o)), run, l, o);
    OneByOneLast(mc, m, s0.recs[m], order, o, run + [l]);
    assert Replay(mc, Begin(before.rec, m, CalledAs(run, o)), run, o) == Story(before.rec, s.ops[o], []);
    assert (order + [o])[..|order|] == order;
    hide Next, OneByOne, Replay, LockOrder, EventsOf, Exec, CalledAs, Outside;
  }

  /** When the slot is free everybody listed has finished. */
  lemma FreeMeansFinished(cfg: Config, s0: Sys, s: Sys, run: seq<Label>, m: Id)
    requires m in cfg.monitors && m in s0.recs && Serially(cfg, s0, s, run, m)
    requires Disciplined(cfg, s) && m !in s.slots
    ensures forall o :: !Holder(s, o, m)
    ensures var order := LockOrder(cfg, s0, run, m);
            forall k | 0 <= k < |order| :: order[k] in s.ops && s.ops[order[k]].pc.Finished?
  {
    hide Played, OneByOne, LockOrder, Outside;
    var order := LockOrder(cfg, s0, run, m);
    forall k | 0 <= k < |order| ensures order[k] in s.ops && s.ops[order[k]].pc.Finished? {
      InOrder(cfg, s0, s, run, m, k);
      assert !Holder(s, order[k], m);
    }
  }

  lemma AcquireKeeps(cfg: Config, s0: Sys, s: Sys, run: seq<Label>, o: OpId, inp: Input, m: Id)
    requires m in cfg.monitors && m in s0.recs && s == Exec(cfg, s0, run) && Serially(cfg, s0, s, run, m)
    requires Disciplined(cfg, s)
    requires Enabled(cfg, s, Step(o, inp)) && s.ops[o].monitor == m
    requires o !in LockOrder(cfg, s0, run, m) && Acquires(s.ops[o], inp)
    ensures Serially(cfg, s0, Next(cfg, s, Step(o, inp)), run + [Step(o, inp)], m)
  {
    hide Next, Advance, OneByOne, Replay, LockOrder, EventsOf, Exec, CalledAs, Played, Outside, Disciplined;
    var l := Step(o, inp);
    var s' := Next(cfg, s, l);
    var order := LockOrder(cfg, s0, run, m);
    AcquirerPlays(cfg, s0, s, run, o, inp, m);
    AdvanceHolds(cfg.monitors[m], s.recs[m], s.ops[o], inp);
    NextRecord(cfg, s, l, m);
    OrderLast(cfg, s0, run, l, m);
    OthersOutside(cfg, s0, s, run, l, m);
    Unmentioned(cfg, s, run, l);
    NextOps(cfg, s, l);
    FreeMeansFinished(cfg, s0, s, run, m);
    forall o' | Holder(s', o', m) ensures o' == o {
      assert !Holder(s, o', m);
    }
  }

  /** Alone, the last of the order goes where it goes in company. */
  lemma LastPlays(
    mc: MonitorConfig, s: Sys, s': Sys, m: Id, r: Record, front: seq<OpId>, o: OpId, run: seq<Label>, inp: Input)
    requires inp.t <= inp.t2 && Played(mc, s, m, r, front + [o], run) && o !in front
    requires m in s.recs && OneByOne(mc, m, r, front + [o], run).rec == s.recs[m]
    requires OnlyChanges(s, s', o) && o in s'.ops
    requires s'.ops[o] == s.ops[o].(pc := Advance(mc, s.recs[m], s.ops[o], inp).pc)
    ensures Played(mc, s', m, r, front + [o], run + [Step(o, inp)])
    ensures var next := Advance(mc, s.recs[m], s.ops[o], inp); var alone := OneByOne(mc, m, r, front + [o], run);
      OneByOne(mc, m, r, front + [o], run + [Step(o, inp)]) == Outcome(next.rec, alone.events + next.events)
  {
    hide Advance, OneByOne, Replay, CalledAs;
    var l := Step(o, inp);
    assert (front + [o])[..|front|] == front;
    PastStaysPast(mc, s.recs[m], s.ops[o], inp);
    var events := Advance(mc, s.recs[m], s.ops[o], inp).events;
    forall k | 0 <= k < |front| ensures front[k] in s.ops && front[k] != o {
      PlayedAt(mc, s, m, r, front, run, k);
    }
    PlayedKeep(mc, s, s', m, r, front, run, l);
    OneByOneStable(mc, m, r, front, run, l);
    CalledAsLast(run, l, o);
    OneByOneLast(mc, m, r, front, o, run + [l]);
    OneByOneLast(mc, m, r, front, o, run);
    var before := OneByOne(mc, m, r, front, run);
    var st := Replay(mc, Begin(before.rec, m, CalledAs(run, o)), run, o);
    ReplayLast(mc, Begin(before.rec, m, CalledAs(run, o)), run, l, o);
    assert before.events + (st.events + events) == (before.events + st.events) + events;
  }

  lemma PastStaysPast(mc: MonitorConfig, r: Record, op: Op, inp: Input)
    requires Past(op.pc) && inp.t <= inp.t2
    ensures Past(Advance(mc, r, op, inp).pc)
  {
  }

  /** A listed operation that can still move is the last of the list. */
  lemma MoverIsLast(cfg: Config, s0: Sys, s: Sys, run: seq<Label>, o: OpId, m: Id)
    requires m in cfg.monitors && m in s0.recs && Serially(cfg, s0, s, run, m)
    requires o in LockOrder(cfg, s0, run, m) && o in s.ops && !s.ops[o].pc.Finished?
    ensures var order := LockOrder(cfg, s0, run, m);
            o == order[|order| - 1] && o !in order[..|order| - 1] && order == order[..|order| - 1] + [o]
  {
    hide Played, OneByOne, LockOrder, Outside;
    var order := LockOrder(cfg, s0, run, m);
    var k :| 0 <= k < |order| && order[k] == o;
    assert k == |order| - 1;
  }

  lemma HolderKeeps(cfg: Config, s0: Sys, s: Sys, run: seq<Label>, o: OpId, inp: Input, m: Id)
    requires m in cfg.monitors && m in s0.recs && s == Exec(cfg, s0, run) && Serially(cfg, s0, s, run, m)
    requires Enabled(cfg, s, Step(o, inp)) && s.ops[o].monitor == m && o in LockOrder(cfg, s0, run, m)
    ensures Serially(cfg, s0, Next(cfg, s, Step(o, inp)), run + [Step(o, inp)], m)
  {
    hide Next, Advance, OneByOne, Replay, LockOrder, EventsOf, Exec, CalledAs, Played, Outside;
    var l := Step(o, inp);
    var s' := Next(cfg, s, l);
    var order := LockOrder(cfg, s0, run, m);
    NextRecord(cfg, s, l, m);
    OrderLast(cfg, s0, run, l, m);
    OthersOutside(cfg, s0, s, run, l, m);
    Unmentioned(cfg, s, run, l);
    NextOps(cfg, s, l);
    MoverIsLast(cfg, s0, s, run, o, m);
    InOrder(cfg, s0, s, run, m, |order| - 1);
    assert order + [] == order;
    LastPlays(cfg.monitors[m], s, s', m, s0.recs[m], order[..|order| - 1], o, run, inp);
    forall o' | Holder(s', o', m) ensures o' == o {
      assert o' != o ==> Holder(s, o', m);
    }
  }

  // ---- the theorem

  lemma NothingYet(cfg: Config, s0: Sys, m: Id)
    requires JustStarted(cfg, s0) && m in cfg.monitors
    ensures Serially(cfg, s0, s0, [], m)
  {
    assert EventsOf(s0.total, m) + [] == EventsOf(s0.total, m);
  }

  lemma SeriallyNext(cfg: Config, s0: Sys, s: Sys, run: seq<Label>, l: Label, m: Id)
    requires m in cfg.monitors && m in s0.recs && s == Exec(cfg, s0, run) && Serially(cfg, s0, s, run, m)
    requires Disciplined(cfg, s) && Enabled(cfg, s, l) && !l.Crash?
    ensures Serially(cfg, s0, Next(cfg, s, l), run + [l], m)
  {
    hide Next, Serially, LockOrder, Disciplined;
    if l.Step? && s.ops[l.op].monitor == m {
      if l.op in LockOrder(cfg, s0, run, m) {
        HolderKeeps(cfg, s0, s, run, l.op, l.inp, m);
      } else if Acquires(s.ops[l.op], l.inp) {
        AcquireKeeps(cfg, s0, s, run, l.op, l.inp, m);
      } else {
        WaitingKeeps(cfg, s0, s, run, l.op, l.inp, m);
      }
    } else {
      AsideKeeps(cfg, s0, s, run, l, m);
    }
  }

  lemma {:induction false} SeriallyAlways(cfg: Config, s0: Sys, run: seq<Label>, m: Id)
    requires JustStarted(cfg, s0) && IsRun(cfg, s0, run) && Crash !in run && m in cfg.monitors
    ensures Serially(cfg, s0, Exec(cfg, s0, run), run, m)
  {
    hide Next, Serially, Disciplined;
    if run == [] {
      NothingYet(cfg, s0, m);
    } else {
      var n := |run| - 1;
      RunPrefix(cfg, s0, run, n);
      SeriallyAlways(cfg, s0, run[..n], m);
      DisciplinedAlways(cfg, s0, run[..n]);
      var s := Exec(cfg, s0, run[..n]);
      assert Enabled(cfg, s, run[n]);
      assert run == run[..n] + [run[n]];
      SeriallyNext(cfg, s0, s, run[..n], run[n], m);
    }
  }

  /** From any start of the process, in any interleaving with any other monitors,
      m's record and m's events are those of m's operations run one after the other
      in lock order, each undisturbed from its call to its end. */
  lemma Serialisable(cfg: Config, s0: Sys, run: seq<Label>, m: Id)
    requires JustStarted(cfg, s0) && IsRun(cfg, s0, run) && Crash !in run && m in cfg.monitors
    ensures var s := Exec(cfg, s0, run);
      var alone := OneByOne(cfg.monitors[m], m, s0.recs[m], LockOrder(cfg, s0, run, m), run);
      && s.up && m in s.recs && s.recs[m] == alone.rec
      && EventsOf(s.total, m) == EventsOf(s0.total, m) + alone.events
  {
    SeriallyAlways(cfg, s0, run, m);
  }
}
