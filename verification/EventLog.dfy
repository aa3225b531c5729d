/**
 The bounded event history (appendEventLocked, internal/events/store.go) and the
 query over it (EventsSnapshot).
 */
module EventLog {
  import opened Wrappers
  import opened MonitorRecord
  import opened RecoveryMachine
  import opened System
  import opened Locking

  // ---- trimming

  lemma TrimTwice(events: History, limit: int)
    ensures Trim(Trim(events, limit), limit) == Trim(events, limit)
  {
  }

  lemma TrimOne(total: History, e: Event, limit: int)
    ensures Trim(Trim(total, limit) + [e], limit) == Trim(total + [e], limit)
  {
  }

  lemma FirstAndRest(total: History, more: History)
    requires more != []
    ensures total + [more[0]] + more[1..] == total + more
  {
  }

  lemma AppendFirst(log: History, more: History, limit: int)
    requires more != []
    ensures AppendAll(log, more, limit) == AppendAll(Trim(log + [more[0]], limit), more[1..], limit)
  {
    hide Trim;
  }

  /** Appending to the trimmed history, trimming every time, keeps what trimming the
      untrimmed history would keep. */
  lemma {:induction false} AppendTrimmed(total: History, more: History, limit: int)
    ensures AppendAll(Trim(total, limit), more, limit) == Trim(total + more, limit)
    decreases |more|
  {
    if more == [] {
      assert total + more == total;
    } else {
      AppendFirst(Trim(total, limit), more, limit);
      TrimOne(total, more[0], limit);
      hide Trim, AppendAll;
      AppendTrimmed(total + [more[0]], more[1..], limit);
      FirstAndRest(total, more);
    }
  }

  // ---- the history of a run

  /** Memory holds the last entries of the untrimmed log; a clean history is on disk;
      and whatever a crash leaves would be loaded without being trimmed. */
  ghost predicate HistoryOk(cfg: Config, s: Sys) {
    && (s.up ==> s.log == Trim(s.total, cfg.maxEvents))
    && (s.up && !s.dirty ==> s.diskLog == {s.log})
    && forall h: History | h in s.diskLog :: Trim(h, cfg.maxEvents) == h
  }

  lemma PersistHistory(cfg: Config, s: Sys, save: Save)
    requires s.up && HistoryOk(cfg, s)
    ensures HistoryOk(cfg, Persist(s, save))
  {
    hide Trim;
    TrimTwice(s.total, cfg.maxEvents);
  }

  lemma InstallHistory(cfg: Config, s: Sys, o: OpId, inp: Input, next: Local)
    requires o in s.ops && s.up && HistoryOk(cfg, s)
    ensures HistoryOk(cfg, Install(cfg, s, o, inp, next))
  {
    hide AppendAll, Trim, Persist;
    AppendTrimmed(s.total, next.events, cfg.maxEvents);
    if next.events == [] {
      assert s.total + next.events == s.total;
    }
    var quiet := Install(cfg, s, o, inp, next.(persist := false));
    assert HistoryOk(cfg, quiet);
    PersistHistory(cfg, quiet, inp.save);
  }

  lemma StartHistory(cfg: Config, s: Sys, t: nat, saved: Records, events: History, save: Save)
    requires HistoryOk(cfg, s)
    ensures HistoryOk(cfg, Start(cfg, s, t, saved, events, save))
  {
    hide Trim, BootRecords;
    TrimTwice(events, cfg.maxEvents);
  }

  lemma HistoryStep(cfg: Config, s: Sys, l: Label)
    requires Enabled(cfg, s, l) && HistoryOk(cfg, s)
    ensures HistoryOk(cfg, Next(cfg, s, l))
  {
    hide Install, Moved, Start, Trim;
    match l {
      case Step(o, inp) => InstallHistory(cfg, s, o, inp, Moved(cfg, s, o, inp));
      case Boot(t, saved, events, save) => StartHistory(cfg, s, t, saved, events, save);
      case _ =>
    }
  }

  lemma {:induction false} HistoryAlways(cfg: Config, s: Sys, run: seq<Label>)
    requires HistoryOk(cfg, s)
    ensures HistoryOk(cfg, Exec(cfg, s, run))
  {
    hide Next, HistoryOk;
    if run != [] {
      var n := |run| - 1;
      HistoryAlways(cfg, s, run[..n]);
      if Enabled(cfg, Exec(cfg, s, run[..n]), run[n]) {
        HistoryStep(cfg, Exec(cfg, s, run[..n]), run[n]);
      }
    }
  }

  /** In every run, whatever saves failed and whatever crashed: the history in memory
      is the last maxEvents entries of the untrimmed log, a clear dirty flag means
      that the same history is on disk, and loading does not change it. */
  lemma HistoryIsTheTail(cfg: Config, now: nat, run: seq<Label>)
    ensures var s := Exec(cfg, Blank(now), run);
      && (s.up ==>
        && |s.log| <= |s.total| && s.log == s.total[|s.total| - |s.log|..]
        && (cfg.maxEvents > 0 ==> |s.log| == if |s.total| <= cfg.maxEvents then |s.total| else cfg.maxEvents)
        && (cfg.maxEvents <= 0 ==> s.log == s.total))
      && (s.up && !s.dirty ==> s.diskLog == {s.log})
      && forall h: History | h in s.diskLog :: Trim(h, cfg.maxEvents) == h
  {
    HistoryAlways(cfg, Blank(now), run);
  }

  // ---- the query

  datatype Filter = Filter(monitor: Option<Id>, kind: Option<EventKind>, since: Option<nat>, limit: int)

  predicate Wanted(f: Filter, e: Event) {
    && (f.monitor.Some? ==> e.monitor == f.monitor.value)
    && (f.kind.Some? ==> e.kind == f.kind.value)
    && (f.since.Some? ==> e.at * NS >= f.since.value)
  }

  function Clamp(limit: int): nat {
    if limit <= 0 then 50 else if limit > 500 then 500 else limit
  }

  function Reversed(events: History): History {
    if events == [] then [] else Reversed(events[1..]) + [events[0]]
  }

  function Select(f: Filter, events: History): History {
    if events == [] then []
    else (if Wanted(f, events[0]) then [events[0]] else []) + Select(f, events[1..])
  }

  function First(events: History, n: nat): History {
    if |events| <= n then events else events[..n]
  }

  /** Reversing takes the last entry first. */
  lemma {:induction false} ReversedLast(events: History, e: Event)
    ensures Reversed(events + [e]) == [e] + Reversed(events)
  {
    if events == [] {
      assert [] + [e] == [e];
    } else {
      assert (events + [e])[1..] == events[1..] + [e];
      ReversedLast(events[1..], e);
    }
  }

  /** What the next entry, going backwards, adds to the selection. */
  lemma SelectNext(f: Filter, history: History, i: nat)
    requires i < |history|
    ensures Select(f, Reversed(history[..i + 1]))
         == (if Wanted(f, history[i]) then [history[i]] else []) + Select(f, Reversed(history[..i]))
  {
    hide Wanted;
    var e := history[i];
    assert history[..i + 1] == history[..i] + [e];
    ReversedLast(history[..i], e);
    assert ([e] + Reversed(history[..i]))[1..] == Reversed(history[..i]);
  }

  lemma FirstOf(result: History, rest: History, limit: nat)
    ensures |result| == limit ==> First(result + rest, limit) == result
    ensures |result| <= limit && rest == [] ==> First(result + rest, limit) == result
  {
  }

  lemma SelectNone(f: Filter, history: History)
    ensures Select(f, Reversed(history[..0])) == []
  {
  }

  // ---- what a query promises

  /** The entry is of the monitor and the kind asked for, and not before the time asked for. */
  predicate Matches(f: Filter, e: Event) {
    f.monitor in {None, Some(e.monitor)} && f.kind in {None, Some(e.kind)}
    && (f.since.None? || f.since.value <= e.at * NS)
  }

  /** The answer is the entries at these places, newest first; each matches; there are no more
      than asked for, 50 when nothing is asked for and never more than 500; and a match left out
      is older than all of them, and there was no room for it. */
  ghost predicate Answers(history: History, f: Filter, result: seq<Event>, places: seq<nat>) {
    && |places| == |result|
    && (forall k | 0 <= k < |places| ::
          places[k] < |history| && result[k] == history[places[k]] && Matches(f, result[k]))
    && (forall j, k | 0 <= j < k < |places| :: places[j] > places[k])
    && |result| <= 500 && (if f.limit > 0 then |result| <= f.limit else |result| <= 50)
    && (forall i: nat | i < |history| && Matches(f, history[i]) && i !in places ::
          && (|result| == 500 || (if f.limit > 0 then |result| == f.limit else |result| == 50))
          && forall k | 0 <= k < |places| :: places[k] > i)
  }

  /** The places of the wanted entries among the first i, newest first. */
  function Places(f: Filter, history: History, i: nat): seq<nat>
    requires i <= |history|
  {
    if i == 0 then []
    else (if Wanted(f, history[i - 1]) then [i - 1] else []) + Places(f, history, i - 1)
  }

  lemma {:induction false} PlacesOfSelected(f: Filter, history: History, i: nat)
    requires i <= |history|
    ensures var places := Places(f, history, i); var selected := Select(f, Reversed(history[..i]));
      && |places| == |selected|
      && (forall k | 0 <= k < |places| ::
            places[k] < i && selected[k] == history[places[k]] && Wanted(f, history[places[k]]))
      && (forall j, k | 0 <= j < k < |places| :: places[j] > places[k])
      && (forall j: nat | j < i && Wanted(f, history[j]) :: j in places)
  {
    hide Wanted, Select, Reversed;
    if i == 0 {
      SelectNone(f, history);
    } else {
      PlacesOfSelected(f, history, i - 1);
      SelectNext(f, history, i - 1);
    }
  }

  lemma WantedMatches(f: Filter, e: Event)
    ensures Wanted(f, e) <==> Matches(f, e)
  {
  }

  lemma ClampIs(limit: int)
    ensures Clamp(limit) <= 500 && (if limit > 0 then Clamp(limit) <= limit else Clamp(limit) <= 50)
    ensures Clamp(limit) == 500 || (if limit > 0 then Clamp(limit) == limit else Clamp(limit) == 50)
  {
  }

  /** Every match is among all, with its place, newest first. */
  ghost predicate AllMatches(history: History, f: Filter, selected: History, all: seq<nat>) {
    && |all| == |selected|
    && (forall k | 0 <= k < |all| ::
          all[k] < |history| && selected[k] == history[all[k]] && Matches(f, history[all[k]]))
    && (forall j, k | 0 <= j < k < |all| :: all[j] > all[k])
    && (forall j: nat | j < |history| && Matches(f, history[j]) :: j in all)
  }

  lemma CutMatches(history: History, f: Filter, selected: History, all: seq<nat>, n: nat)
    requires AllMatches(history, f, selected, all) && n < |all|
    ensures forall i: nat | i < |history| && Matches(f, history[i]) && i !in all[..n] ::
              forall k | 0 <= k < n :: all[..n][k] > i
  {
    hide Matches;
    forall i: nat | i < |history| && Matches(f, history[i]) && i !in all[..n]
      ensures forall k | 0 <= k < n :: all[..n][k] > i
    {
      var k :| 0 <= k < |all| && all[k] == i;
      assert n <= k by { assert forall j | 0 <= j < n :: all[j] in all[..n]; }
    }
  }

  /** The first of all matching entries, with their places, answer the query. */
  lemma FirstAnswers(history: History, f: Filter, selected: History, all: seq<nat>, n: nat)
    requires AllMatches(history, f, selected, all)
    requires n <= 500 && (if f.limit > 0 then n <= f.limit else n <= 50)
    requires n == 500 || (if f.limit > 0 then n == f.limit else n == 50)
    ensures Answers(history, f, First(selected, n), if |all| <= n then all else all[..n])
  {
    hide Matches;
    if n < |all| {
      CutMatches(history, f, selected, all, n);
    }
  }

  /** The first selected entries answer the query. */
  lemma SelectionAnswers(history: History, f: Filter)
    ensures exists places :: Answers(history, f, First(Select(f, Reversed(history)), Clamp(f.limit)), places)
  {
    hide Wanted, Matches, Select, Reversed, Clamp, Places, Answers, First;
    var all := Places(f, history, |history|);
    PlacesOfSelected(f, history, |history|);
    assert history[..|history|] == history;
    ClampIs(f.limit);
    forall e ensures Wanted(f, e) <==> Matches(f, e) {
      WantedMatches(f, e);
    }
    FirstAnswers(history, f, Select(f, Reversed(history)), all, Clamp(f.limit));
  }

  /** The newest matching entries first, at most `limit` of them after clamping. */
  method EventsSnapshot(history: History, f: Filter) returns (result: seq<Event>)
    ensures result == First(Select(f, Reversed(history)), Clamp(f.limit))
    ensures exists places :: Answers(history, f, result, places)
  {
    SelectionAnswers(history, f);
    hide Wanted, Select, Reversed, First, Answers;
    var limit := Clamp(f.limit);
    assert limit > 0;
    result := [];
    var i := |history|;
    assert history[..|history|] == history;
    while i > 0
      invariant 0 <= i <= |history| && |result| < limit
      invariant Select(f, Reversed(history)) == result + Select(f, Reversed(history[..i]))
    {
      i := i - 1;
      var e := history[i];
      SelectNext(f, history, i);
      FirstOf(result + [e], Select(f, Reversed(history[..i])), limit);
      if Wanted(f, e) {
        assert result + ([e] + Select(f, Reversed(history[..i]))) == result + [e] + Select(f, Reversed(history[..i]));
        result := result + [e];
        if |result| >= limit {
          return;
        }
      }
    }
    SelectNone(f, history);
    FirstOf(result, [], limit);
  }
}
