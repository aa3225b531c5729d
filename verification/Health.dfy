/**
 The overall status of Snapshot (internal/engine/manager.go): a fold over the
 monitors that turns out to be the maximum of a severity rank.
 */
module Health {
  import opened MonitorRecord

  datatype Overall = AllHealthy | SomeRecovering | SomeUnknown | SomeDegraded | SomeFailed

  /** One round of the switch in Snapshot. */
  function Worsen(overall: Overall, status: Status): Overall {
    match status
    case Healthy => overall
    case Recovering => if overall.AllHealthy? then SomeRecovering else overall
    case Checking => if overall.AllHealthy? then SomeRecovering else overall
    case Degraded => if overall != SomeFailed then SomeDegraded else overall
    case Failed => SomeFailed
    case Disabled => overall
    case _ => if overall.AllHealthy? || overall.SomeRecovering? then SomeUnknown else overall
  }

  datatype Summary = Summary(overall: Overall, healthy: nat, degraded: nat, recovering: nat, failed: nat, disabled: nat)

  function Severity(overall: Overall): nat {
    match overall
    case AllHealthy => 0
    case SomeRecovering => 1
    case SomeUnknown => 2
    case SomeDegraded => 3
    case SomeFailed => 4
  }

  function StatusSeverity(status: Status): nat {
    match status
    case Healthy => 0
    case Disabled => 0
    case Checking => 1
    case Recovering => 1
    case Degraded => 3
    case Failed => 4
    case _ => 2
  }

  /** The worst severity among the monitors, zero when there is none. */
  function Worst(statuses: seq<Status>): nat {
    if statuses == [] then 0
    else
      var n := |statuses| - 1;
      var before := Worst(statuses[..n]);
      if StatusSeverity(statuses[n]) > before then StatusSeverity(statuses[n]) else before
  }

  /** What the overall status says of the monitors, in words of its own: the first of
      failed, degraded, neither of the known ones, and recovering or checking that some
      monitor is. */
  predicate Tells(overall: Overall, statuses: seq<Status>) {
    && (overall == SomeFailed <==> Failed in statuses)
    && (overall == SomeDegraded <==> Failed !in statuses && Degraded in statuses)
    && (overall == SomeUnknown <==>
          && Failed !in statuses && Degraded !in statuses
          && exists k :: 0 <= k < |statuses| && statuses[k] !in FINE)
    && (overall == SomeRecovering <==>
          && (forall k | 0 <= k < |statuses| :: statuses[k] in FINE)
          && (Recovering in statuses || Checking in statuses))
    && (overall == AllHealthy <==> forall k | 0 <= k < |statuses| :: statuses[k] in {Healthy, Disabled})
  }

  const FINE := {Healthy, Disabled, Checking, Recovering}

  lemma WorsenTells(overall: Overall, statuses: seq<Status>, status: Status)
    requires Tells(overall, statuses)
    ensures Tells(Worsen(overall, status), statuses + [status])
  {
    var more := statuses + [status];
    assert forall k | 0 <= k < |statuses| :: more[k] == statuses[k];
    assert more[|statuses|] == status;
    assert forall s: Status :: s in more <==> s in statuses || s == status;
    if status !in FINE {
      assert exists k :: 0 <= k < |more| && more[k] !in FINE;
    } else if exists k :: 0 <= k < |statuses| && statuses[k] !in FINE {
      var k :| 0 <= k < |statuses| && statuses[k] !in FINE;
      assert more[k] !in FINE;
    }
  }

  /** The loop of Snapshot over the monitors present in the state, in configuration order. */
  method Summarise(statuses: seq<Status>) returns (s: Summary)
    ensures Tells(s.overall, statuses) && Severity(s.overall) == Worst(statuses)
    ensures var count := multiset(statuses);
      && s.healthy == count[Healthy] && s.disabled == count[Disabled]
      && s.recovering == count[Recovering] + count[Checking]
      && s.degraded == count[Degraded] && s.failed == count[Failed]
  {
    hide Tells, Worsen;
    var overall := AllHealthy;
    var healthy, degraded, recovering, failed, disabled := 0, 0, 0, 0, 0;
    NothingTells();
    for i := 0 to |statuses|
      invariant Tells(overall, statuses[..i]) && Severity(overall) == Worst(statuses[..i])
      invariant healthy == multiset(statuses[..i])[Healthy] && disabled == multiset(statuses[..i])[Disabled]
      invariant recovering == multiset(statuses[..i])[Recovering] + multiset(statuses[..i])[Checking]
      invariant degraded == multiset(statuses[..i])[Degraded] && failed == multiset(statuses[..i])[Failed]
    {
      assert statuses[..i + 1] == statuses[..i] + [statuses[i]];
      WorsenTells(overall, statuses[..i], statuses[i]);
      WorsenIsWorst(overall, statuses, i);
      overall := Worsen(overall, statuses[i]);
      match statuses[i] {
        case Healthy => healthy := healthy + 1;
        case Recovering => recovering := recovering + 1;
        case Checking => recovering := recovering + 1;
        case Degraded => degraded := degraded + 1;
        case Failed => failed := failed + 1;
        case Disabled => disabled := disabled + 1;
        case _ =>
      }
    }
    assert statuses[..|statuses|] == statuses;
    s := Summary(overall, healthy, degraded, recovering, failed, disabled);
  }

  lemma NothingTells()
    ensures Tells(AllHealthy, [])
  {
  }

  lemma WorsenIsWorst(overall: Overall, statuses: seq<Status>, i: nat)
    requires i < |statuses| && Severity(overall) == Worst(statuses[..i])
    ensures Severity(Worsen(overall, statuses[i])) == Worst(statuses[..i + 1])
  {
    assert statuses[..i + 1][..i] == statuses[..i];
  }

  /** The worst severity bounds all and is reached, so it depends on the set of
      statuses only. */
  lemma {:induction false} WorstIsMaximum(statuses: seq<Status>)
    ensures forall k | 0 <= k < |statuses| :: StatusSeverity(statuses[k]) <= Worst(statuses)
    ensures Worst(statuses) == 0 || exists k :: 0 <= k < |statuses| && StatusSeverity(statuses[k]) == Worst(statuses)
  {
    if statuses != [] {
      var n := |statuses| - 1;
      WorstIsMaximum(statuses[..n]);
      forall k | 0 <= k < |statuses| ensures StatusSeverity(statuses[k]) <= Worst(statuses) {
        if k < n { assert statuses[..n][k] == statuses[k]; }
      }
      if Worst(statuses) != 0 && StatusSeverity(statuses[n]) != Worst(statuses) {
        var k :| 0 <= k < n && StatusSeverity(statuses[..n][k]) == Worst(statuses[..n]);
        assert StatusSeverity(statuses[k]) == Worst(statuses);
      }
    }
  }

  /** The order of the monitors, and repetition, do not matter. */
  lemma WorstIgnoresOrder(a: seq<Status>, b: seq<Status>)
    requires forall status :: status in a <==> status in b
    ensures Worst(a) == Worst(b)
  {
    WorstAtMost(a, b);
    WorstAtMost(b, a);
  }

  lemma WorstAtMost(a: seq<Status>, b: seq<Status>)
    requires forall status :: status in a ==> status in b
    ensures Worst(a) <= Worst(b)
  {
    WorstIsMaximum(a);
    WorstIsMaximum(b);
    if Worst(a) != 0 {
      var k :| 0 <= k < |a| && StatusSeverity(a[k]) == Worst(a);
      assert a[k] in b;
      var j :| 0 <= j < |b| && b[j] == a[k];
      assert StatusSeverity(b[j]) <= Worst(b);
    }
  }

  /** Overall healthy or recovering exactly when every monitor is healthy, disabled,
      checking or recovering. */
  lemma FineMeansAllFine(statuses: seq<Status>)
    ensures Worst(statuses) <= 1 <==>
            forall k | 0 <= k < |statuses| :: statuses[k] in {Healthy, Disabled, Checking, Recovering}
  {
    WorstIsMaximum(statuses);
    forall k | 0 <= k < |statuses|
      ensures StatusSeverity(statuses[k]) <= 1 <==> statuses[k] in {Healthy, Disabled, Checking, Recovering} {
    }
  }
}
