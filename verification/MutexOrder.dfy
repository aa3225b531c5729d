/**
 The two kinds of lock under internal/engine/manager.go, one level below the steps of
 an operation: the manager's mutex and the one-slot channels of the monitors, taken and
 given back one at a time by threads that each run a program of their own. Neither
 primitive knows its owner. Readers are taken to exclude one another too.
 */
module MutexOrder {
  import opened Wrappers
  import opened MonitorRecord

  datatype Instr = LockMutex | UnlockMutex | TakeSlot(m: Id) | GiveSlot(m: Id)

  /** What a thread has behind it and before it. */
  datatype Thread = Thread(past: seq<Instr>, left: seq<Instr>)

  /** The mutex is locked or not; a channel holds its token or not. */
  datatype Locks = Locks(threads: seq<Thread>, mutex: bool, slots: set<Id>)

  // ---- the primitives

  /** Whether the instruction goes through; unlocking what is not locked is fatal. */
  predicate Passes(s: Locks, step: Instr) {
    match step
    case LockMutex => !s.mutex
    case UnlockMutex => s.mutex
    case TakeSlot(m) => m !in s.slots
    case GiveSlot(m) => m in s.slots
  }

  predicate CanMove(s: Locks, i: nat) {
    i < |s.threads| && s.threads[i].left != [] && Passes(s, s.threads[i].left[0])
  }

  function Move(s: Locks, i: nat): (s': Locks)
    requires CanMove(s, i)
    ensures |s'.threads| == |s.threads|
  {
    var t := s.threads[i];
    var step := t.left[0];
    Locks(s.threads[i := Thread(t.past + [step], t.left[1..])],
          if step.LockMutex? then true else if step.UnlockMutex? then false else s.mutex,
          if step.TakeSlot? then s.slots + {step.m} else if step.GiveSlot? then s.slots - {step.m} else s.slots)
  }

  /** A schedule names the thread that moves next; who cannot move is skipped. */
  function Exec(s: Locks, schedule: seq<nat>): (s': Locks)
    ensures |s'.threads| == |s.threads|
  {
    if schedule == [] then s
    else
      var prev := Exec(s, schedule[..|schedule| - 1]);
      var i := schedule[|schedule| - 1];
      if CanMove(prev, i) then Move(prev, i) else prev
  }

  // ---- what a thread holds, by its own past

  predicate Inside(past: seq<Instr>) {
    past != [] && match past[|past| - 1]
      case LockMutex => true
      case UnlockMutex => false
      case _ => Inside(past[..|past| - 1])
  }

  function Held(past: seq<Instr>): Option<Id> {
    if past == [] then None
    else match past[|past| - 1]
      case TakeSlot(m) => Some(m)
      case GiveSlot(_) => None
      case _ => Held(past[..|past| - 1])
  }

  // ---- the discipline

  /** The rest of a program that is inside the mutex or not and holds this slot: a slot is
      never asked for inside the mutex nor a second one beside the first, and all is given back. */
  predicate Orderly(left: seq<Instr>, inside: bool, held: Option<Id>) {
    if left == [] then !inside && held.None?
    else match left[0]
      case LockMutex => !inside && Orderly(left[1..], true, held)
      case UnlockMutex => inside && Orderly(left[1..], false, held)
      case TakeSlot(m) => !inside && held.None? && Orderly(left[1..], inside, Some(m))
      case GiveSlot(m) => !inside && held == Some(m) && Orderly(left[1..], inside, None)
  }

  predicate InOrder(t: Thread) {
    Orderly(t.left, Inside(t.past), Held(t.past))
  }

  ghost predicate Disciplined(s: Locks) {
    && (forall i | 0 <= i < |s.threads| :: InOrder(s.threads[i]))
    && (s.mutex <==> exists i | 0 <= i < |s.threads| :: Inside(s.threads[i].past))
    && (forall m :: m in s.slots <==> exists i | 0 <= i < |s.threads| :: Held(s.threads[i].past) == Some(m))
    && AloneInside(s) && AloneOnSlots(s)
  }

  ghost predicate AloneInside(s: Locks) {
    forall i, j | 0 <= i < |s.threads| && 0 <= j < |s.threads| ::
      Inside(s.threads[i].past) && Inside(s.threads[j].past) ==> i == j
  }

  ghost predicate AloneOnSlots(s: Locks) {
    forall i, j | 0 <= i < |s.threads| && 0 <= j < |s.threads| ::
      Held(s.threads[i].past).Some? && Held(s.threads[i].past) == Held(s.threads[j].past) ==> i == j
  }

  /** Nobody has begun. */
  ghost predicate Initial(s: Locks) {
    && !s.mutex && s.slots == {}
    && forall i | 0 <= i < |s.threads| :: s.threads[i].past == [] && InOrder(s.threads[i])
  }

  lemma ThreadMoves(t: Thread)
    requires InOrder(t) && t.left != []
    ensures var step := t.left[0]; var past := t.past + [step];
      && InOrder(Thread(past, t.left[1..]))
      && Inside(past) == (if step.LockMutex? then true else if step.UnlockMutex? then false else Inside(t.past))
      && Held(past) == (if step.TakeSlot? then Some(step.m) else if step.GiveSlot? then None else Held(t.past))
      && (step.LockMutex? ==> !Inside(t.past)) && (step.UnlockMutex? ==> Inside(t.past))
      && (step.TakeSlot? ==> Held(t.past).None?) && (step.GiveSlot? ==> Held(t.past) == Some(step.m))
  {
    assert (t.past + [t.left[0]])[..|t.past|] == t.past;
  }

  lemma MoveKeeps(s: Locks, i: nat)
    requires Disciplined(s) && CanMove(s, i)
    ensures Disciplined(Move(s, i))
  {
    hide InOrder, Inside, Held;
    var t := s.threads[i];
    var s' := Move(s, i);
    ThreadMoves(t);
    assert forall j | 0 <= j < |s.threads| && j != i :: s'.threads[j] == s.threads[j];
    if t.left[0].LockMutex? {
      assert Inside(s'.threads[i].past);
    }
    forall m ensures m in s'.slots <==> exists j | 0 <= j < |s.threads| :: Held(s'.threads[j].past) == Some(m) {
      if m in s'.slots && m in s.slots {
        var j :| 0 <= j < |s.threads| && Held(s.threads[j].past) == Some(m);
        assert Held(s'.threads[j].past) == Some(m);
      } else if m in s'.slots {
        assert Held(s'.threads[i].past) == Some(m);
      }
    }
    if s'.mutex && s.mutex {
      var j :| 0 <= j < |s.threads| && Inside(s.threads[j].past);
      assert Inside(s'.threads[j].past);
    }
  }

  lemma InitialIsDisciplined(s: Locks)
    requires Initial(s)
    ensures Disciplined(s)
  {
  }

  lemma {:induction false} Always(s: Locks, schedule: seq<nat>)
    requires Disciplined(s)
    ensures Disciplined(Exec(s, schedule))
  {
    hide Disciplined, CanMove;
    if schedule != [] {
      var n := |schedule| - 1;
      Always(s, schedule[..n]);
      if CanMove(Exec(s, schedule[..n]), schedule[n]) {
        MoveKeeps(Exec(s, schedule[..n]), schedule[n]);
      }
    }
  }

  /** Under every schedule at most one thread is inside the mutex, at most one holds each
      slot, and whoever is inside the mutex is about to leave it and can. */
  lemma MutexIsShort(s0: Locks, schedule: seq<nat>, i: nat)
    requires Initial(s0) && i < |s0.threads|
    ensures var s := Exec(s0, schedule);
      && AloneInside(s) && AloneOnSlots(s)
      && (Inside(s.threads[i].past) ==> CanMove(s, i) && s.threads[i].left[0] == UnlockMutex)
  {
    InitialIsDisciplined(s0);
    Always(s0, schedule);
    hide Exec, Initial;
  }

  // ---- no deadlock

  /** The holder of a slot is not waiting for another. */
  lemma HolderMoves(s: Locks, i: nat)
    requires Disciplined(s) && !s.mutex && i < |s.threads| && Held(s.threads[i].past).Some?
    ensures CanMove(s, i)
  {
    hide Held, Inside;
    var t := s.threads[i];
    assert !Inside(t.past) && InOrder(t);
    assert t.left[0].GiveSlot? ==> t.left[0].m in s.slots;
  }

  lemma SomebodyMoves(s: Locks, i: nat)
    requires Disciplined(s) && i < |s.threads| && s.threads[i].left != []
    ensures exists j: nat :: CanMove(s, j)
  {
    hide Held, Inside;
    if s.mutex {
      var j :| 0 <= j < |s.threads| && Inside(s.threads[j].past);
      assert InOrder(s.threads[j]);
      assert CanMove(s, j);
    } else {
      var t := s.threads[i];
      assert !Inside(t.past) && InOrder(t);
      if t.left[0].TakeSlot? && t.left[0].m in s.slots {
        var j :| 0 <= j < |s.threads| && Held(s.threads[j].past) == Some(t.left[0].m);
        HolderMoves(s, j);
      } else {
        assert t.left[0].GiveSlot? ==> Held(t.past) == Some(t.left[0].m);
        assert CanMove(s, i);
      }
    }
  }

  /** Whatever the schedule, as long as some thread has not finished, some thread can move. */
  lemma NoDeadlock(s0: Locks, schedule: seq<nat>, i: nat)
    requires Initial(s0) && i < |s0.threads| && Exec(s0, schedule).threads[i].left != []
    ensures exists j: nat :: CanMove(Exec(s0, schedule), j)
  {
    hide Exec, Initial, CanMove, Disciplined;
    InitialIsDisciplined(s0);
    Always(s0, schedule);
    SomebodyMoves(Exec(s0, schedule), i);
  }

  function Remaining(threads: seq<Thread>): nat {
    if threads == [] then 0 else Remaining(threads[..|threads| - 1]) + |threads[|threads| - 1].left|
  }

  lemma {:induction false} RemainingUpdate(threads: seq<Thread>, i: nat, t: Thread)
    requires i < |threads|
    ensures Remaining(threads[i := t]) + |threads[i].left| == Remaining(threads) + |t.left|
  {
    var n := |threads| - 1;
    if i < n {
      assert threads[i := t][..n] == threads[..n][i := t];
      RemainingUpdate(threads[..n], i, t);
    } else {
      assert threads[i := t][..n] == threads[..n];
    }
  }

  lemma {:induction false} NothingRemains(threads: seq<Thread>)
    requires forall i | 0 <= i < |threads| :: threads[i].left == []
    ensures Remaining(threads) == 0
  {
    if threads != [] {
      NothingRemains(threads[..|threads| - 1]);
    }
  }

  /** How many entries of a schedule were moves. */
  function Moves(s: Locks, schedule: seq<nat>): nat {
    if schedule == [] then 0
    else
      var n := |schedule| - 1;
      Moves(s, schedule[..n]) + if CanMove(Exec(s, schedule[..n]), schedule[n]) then 1 else 0
  }

  lemma {:induction false} MovesAreCounted(s: Locks, schedule: seq<nat>)
    ensures Moves(s, schedule) + Remaining(Exec(s, schedule).threads) == Remaining(s.threads)
  {
    if schedule != [] {
      var n := |schedule| - 1;
      MovesAreCounted(s, schedule[..n]);
      var prev := Exec(s, schedule[..n]);
      if CanMove(prev, schedule[n]) {
        var t := prev.threads[schedule[n]];
        RemainingUpdate(prev.threads, schedule[n], Thread(t.past + [t.left[0]], t.left[1..]));
      }
    }
  }

  /** No schedule makes more moves than the programs have instructions, and one after which
      nobody can move has made them all: every thread is done and every lock given back. */
  lemma StuckMeansDone(s0: Locks, schedule: seq<nat>)
    requires Initial(s0)
    ensures Moves(s0, schedule) <= Remaining(s0.threads)
    ensures var s := Exec(s0, schedule);
      (forall j: nat :: !CanMove(s, j)) ==>
        && (forall i | 0 <= i < |s.threads| :: s.threads[i].left == [])
        && !s.mutex && s.slots == {} && Moves(s0, schedule) == Remaining(s0.threads)
  {
    hide Exec, Initial, CanMove, Moves, Remaining, Inside, Held;
    MovesAreCounted(s0, schedule);
    var s := Exec(s0, schedule);
    if forall j: nat :: !CanMove(s, j) {
      forall i | 0 <= i < |s.threads| ensures s.threads[i].left == [] {
        if s.threads[i].left != [] {
          NoDeadlock(s0, schedule, i);
        }
      }
      NothingRemains(s.threads);
      InitialIsDisciplined(s0);
      Always(s0, schedule);
      assert forall i | 0 <= i < |s.threads| :: InOrder(s.threads[i]);
    }
  }

  // ---- the programs of the engine

  /** What the engine's goroutines are made of: a section under the mutex, or an operation,
      which looks its channel up, takes the slot, runs its sections and gives the slot back.
      One that is cancelled before it has the slot leaves no more than the look-up. */
  datatype Piece = Section | Operation(m: Id, sections: nat)

  function Sections(n: nat): seq<Instr> {
    if n == 0 then [] else [LockMutex, UnlockMutex] + Sections(n - 1)
  }

  function Program(pieces: seq<Piece>): seq<Instr> {
    if pieces == [] then []
    else (match pieces[0]
          case Section => Sections(1)
          case Operation(m, n) => Sections(1) + ([TakeSlot(m)] + (Sections(n) + [GiveSlot(m)])))
         + Program(pieces[1..])
  }

  lemma {:induction false} SectionsAreOrderly(n: nat, held: Option<Id>, rest: seq<Instr>)
    requires Orderly(rest, false, held)
    ensures Orderly(Sections(n) + rest, false, held)
  {
    if n == 0 {
      assert Sections(0) + rest == rest;
    } else {
      SectionsAreOrderly(n - 1, held, rest);
      var after := Sections(n - 1) + rest;
      assert Sections(n) + rest == [LockMutex] + ([UnlockMutex] + after);
      assert ([UnlockMutex] + after)[1..] == after;
      assert Orderly([UnlockMutex] + after, true, held);
      assert ([LockMutex] + ([UnlockMutex] + after))[1..] == [UnlockMutex] + after;
    }
  }

  lemma OperationIsOrderly(m: Id, n: nat, rest: seq<Instr>)
    requires Orderly(rest, false, None)
    ensures Orderly(Sections(1) + ([TakeSlot(m)] + (Sections(n) + ([GiveSlot(m)] + rest))), false, None)
  {
    hide Sections;
    var give := [GiveSlot(m)] + rest;
    assert give[1..] == rest;
    SectionsAreOrderly(n, Some(m), give);
    var take := [TakeSlot(m)] + (Sections(n) + give);
    assert take[1..] == Sections(n) + give;
    SectionsAreOrderly(1, None, take);
  }

  /** Whatever a goroutine of the engine goes through, it keeps the order. */
  lemma {:induction false} EngineIsOrderly(pieces: seq<Piece>)
    ensures Orderly(Program(pieces), false, None)
  {
    hide Sections;
    if pieces != [] {
      var rest := Program(pieces[1..]);
      EngineIsOrderly(pieces[1..]);
      match pieces[0] {
        case Section => SectionsAreOrderly(1, None, rest);
        case Operation(m, n) =>
          OperationIsOrderly(m, n, rest);
          assert Program(pieces) == Sections(1) + ([TakeSlot(m)] + (Sections(n) + ([GiveSlot(m)] + rest)));
      }
    }
  }

  /** The engine's goroutines before the first of them has moved. */
  function Goroutines(all: seq<seq<Piece>>): Locks {
    Locks(seq(|all|, i requires 0 <= i < |all| => Thread([], Program(all[i]))), false, {})
  }

  /** However many goroutines run whatever operations and snapshots in whatever order: the
      engine comes to rest only when all of them are through. */
  lemma EngineFinishes(all: seq<seq<Piece>>, schedule: seq<nat>)
    ensures var s := Exec(Goroutines(all), schedule);
      (forall j: nat :: !CanMove(s, j)) ==>
        (forall i | 0 <= i < |s.threads| :: s.threads[i].left == []) && !s.mutex && s.slots == {}
  {
    var s0 := Goroutines(all);
    hide Program, Exec;
    forall i | 0 <= i < |s0.threads| ensures InOrder(s0.threads[i]) {
      EngineIsOrderly(all[i]);
    }
    StuckMeansDone(s0, schedule);
  }

  lemma OperationKept(m: Id)
    ensures Orderly([TakeSlot(m), LockMutex, UnlockMutex, GiveSlot(m)], false, None)
  {
    var give := [GiveSlot(m)];
    assert give[1..] == [];
    assert Orderly(give, false, Some(m));
    SectionsAreOrderly(1, Some(m), give);
    var section := Sections(1) + give;
    assert Sections(1) == [LockMutex, UnlockMutex] + Sections(0) == [LockMutex, UnlockMutex];
    var take := [TakeSlot(m)] + section;
    assert take[1..] == section;
    assert take == [TakeSlot(m), LockMutex, UnlockMutex, GiveSlot(m)];
  }

  /** What the order is for: a thread that asked for a slot inside the mutex could be waited
      for by the slot's holder, and neither would move again. */
  lemma ReversedOrderSticks(m: Id)
    ensures
      var kept := [TakeSlot(m), LockMutex, UnlockMutex, GiveSlot(m)];
      var reversed := [LockMutex, TakeSlot(m), GiveSlot(m), UnlockMutex];
      var s := Exec(Locks([Thread([], kept), Thread([], reversed)], false, {}), [0, 1]);
      && Orderly(kept, false, None) && !Orderly(reversed, false, None)
      && s.threads[0].left != [] && s.threads[1].left != [] && forall j: nat :: !CanMove(s, j)
  {
    var kept := [TakeSlot(m), LockMutex, UnlockMutex, GiveSlot(m)];
    var reversed := [LockMutex, TakeSlot(m), GiveSlot(m), UnlockMutex];
    var s0 := Locks([Thread([], kept), Thread([], reversed)], false, {});
    var one: seq<nat>, two: seq<nat> := [0], [0, 1];
    assert two[..1] == one && one[..0] == [];
    assert Exec(s0, []) == s0 && CanMove(s0, 0);
    var s1 := Exec(s0, one);
    assert s1 == Move(s0, 0) && CanMove(s1, 1);
    var s := Exec(s0, two);
    assert s == Move(s1, 1);
    assert s.threads[0].left == [LockMutex, UnlockMutex, GiveSlot(m)];
    assert s.threads[1].left == [TakeSlot(m), GiveSlot(m), UnlockMutex];
    OperationKept(m);
    assert reversed[1..][0] == TakeSlot(m);
  }
}
