/**
 From one operation to the whole process: a property of every record, or of every
 operation together with its monitor's record, survives a step as soon as the
 moving operation keeps it for itself.
 */
module Lifting {
  import opened MonitorRecord
  import opened RecoveryMachine
  import opened System
  import opened Locking

  type RecordProperty = (Id, Record) -> bool
  type FlightProperty = (Id, Record, Op) -> bool

  ghost predicate Every(d: Records, P: RecordProperty) {
    forall m | m in d :: P(m, d[m])
  }

  /** P holds of every record, in memory and in whatever a crash may leave. */
  ghost predicate EveryRecord(s: Sys, P: RecordProperty) {
    (s.up ==> Every(s.recs, P)) && forall d: Records | d in s.disk :: Every(d, P)
  }

  ghost predicate Flight(s: Sys, F: FlightProperty, o: OpId)
    requires o in s.ops
  {
    var m := s.ops[o].monitor;
    m in s.recs && F(m, s.recs[m], s.ops[o])
  }

  ghost predicate EveryFlight(s: Sys, F: FlightProperty) {
    forall o | o in s.ops :: Flight(s, F, o)
  }

  /** F says nothing about an operation that holds no slot. */
  ghost predicate OnlyHolders(F: FlightProperty) {
    forall m: Id, r: Record, op: Op :: !Holds(op.pc) ==> F(m, r, op)
  }

  lemma InstallEvery(cfg: Config, s: Sys, o: OpId, inp: Input, next: Local, P: RecordProperty)
    requires s.up && o in s.ops && EveryRecord(s, P) && P(s.ops[o].monitor, next.rec)
    ensures EveryRecord(Install(cfg, s, o, inp, next), P)
  {
    assert Every(s.recs[s.ops[o].monitor := next.rec], P);
  }

  lemma InstallFlights(cfg: Config, s: Sys, o: OpId, inp: Input, next: Local, F: FlightProperty)
    requires Disciplined(cfg, s) && Enabled(cfg, s, Step(o, inp)) && OnlyHolders(F)
    requires SlotMove(s.ops[o], inp, s.recs[s.ops[o].monitor], next)
    requires EveryFlight(s, F)
    requires F(s.ops[o].monitor, next.rec, s.ops[o].(pc := next.pc))
    ensures EveryFlight(Install(cfg, s, o, inp, next), F)
  {
    hide Install, Disciplined;
    var s' := Install(cfg, s, o, inp, next);
    InstallParts(cfg, s, o, inp, next);
    forall o' | o' in s'.ops && o' != o ensures Flight(s', F, o') {
      assert Flight(s, F, o');
      if Holds(s.ops[o'].pc) {
        InstallUndisturbed(cfg, s, o, inp, next, o', s.ops[o'].monitor);
      }
    }
  }

  lemma Weaken(s: Sys, P: RecordProperty, Q: RecordProperty)
    requires EveryRecord(s, P) && forall m: Id, r: Record :: P(m, r) ==> Q(m, r)
    ensures EveryRecord(s, Q)
  {
    forall d: Records | d in s.disk ensures Every(d, Q) {
      assert Every(d, P);
    }
  }

  /** Labels other than a step keep both kinds of property, given that they do
      not look at the cancellation flag's false value, and that a boot keeps P. */
  lemma SideRecords(cfg: Config, s: Sys, l: Label, P: RecordProperty)
    requires Enabled(cfg, s, l) && !l.Step? && EveryRecord(s, P)
    requires l.Boot? ==> Every(BootRecords(cfg, l.saved), P)
    ensures EveryRecord(Next(cfg, s, l), P)
  {
  }

  lemma SideFlights(cfg: Config, s: Sys, l: Label, F: FlightProperty)
    requires Disciplined(cfg, s) && Enabled(cfg, s, l) && !l.Step? && EveryFlight(s, F) && OnlyHolders(F)
    requires forall m: Id, r: Record, op: Op :: F(m, r, op) ==> F(m, r, op.(cancelled := true))
    ensures EveryFlight(Next(cfg, s, l), F)
  {
    var s' := Next(cfg, s, l);
    forall o | o in s'.ops ensures Flight(s', F, o) {
      if o in s.ops { assert Flight(s, F, o); }
    }
  }
}
