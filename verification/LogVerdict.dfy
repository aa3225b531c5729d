/**
 The verdict of a docker_log_pattern check (internal/checks/checks.go): three loops
 over the lines of a log, against a verdict that does not mention their order.

 Regular expressions and RFC 3339 parsing are parameters. Counting looks at whole
 lines, the time line at the part after the time stamp. A time is a number, 0 being
 Go's zero time.
 */
module LogVerdict {
  import opened Wrappers
  import opened Text

  /** regexp.Compile, MatchString, the first group of FindStringSubmatch (None when
      there is no match or no group), and time.Parse of RFC3339Nano. */
  datatype Library = Library(
    compiles: string -> bool,
    matches: (string, string) -> bool,
    group: (string, string) -> Option<string>,
    time: string -> Option<int>)

  /** Only a match has groups. */
  ghost predicate Coherent(lib: Library) {
    forall pattern, text :: lib.group(pattern, text).Some? ==> lib.matches(pattern, text)
  }

  // ---- what a line contributes

  function FirstMatch(lib: Library, patterns: seq<string>, text: string): (k: nat)
    ensures k <= |patterns| && (k < |patterns| ==> lib.matches(patterns[k], text))
    ensures forall j | 0 <= j < k :: !lib.matches(patterns[j], text)
  {
    if patterns == [] || lib.matches(patterns[0], text) then 0 else 1 + FirstMatch(lib, patterns[1..], text)
  }

  predicate Hits(lib: Library, patterns: seq<string>, text: string) {
    exists k :: 0 <= k < |patterns| && lib.matches(patterns[k], text)
  }

  /** The group of the first pattern that has one. */
  function Captured(lib: Library, patterns: seq<string>, line: string): Option<string> {
    if patterns == [] then None
    else if lib.group(patterns[0], line).Some? then lib.group(patterns[0], line)
    else Captured(lib, patterns[1..], line)
  }

  /** The capture a line adds, if any. */
  function Value(lib: Library, patterns: seq<string>, line: string): Option<string> {
    var c := Captured(lib, patterns, line);
    if c.None? || TrimSpace(c.value) == "" then None else Some(TrimSpace(c.value))
  }

  function IndexOfSpace(s: string): (k: nat)
    ensures k <= |s| && (k < |s| ==> s[k] == ' ') && forall j | 0 <= j < k :: s[j] != ' '
  {
    if s == "" || s[0] == ' ' then 0 else 1 + IndexOfSpace(s[1..])
  }

  datatype Stamped = Unstamped | Stamped(at: int, message: string)

  /** splitDockerTimestampLine */
  function Split(lib: Library, line: string): Stamped {
    var k := IndexOfSpace(line);
    if k == 0 || k == |line| then Unstamped
    else match lib.time(line[..k])
      case None => Unstamped
      case Some(t) => Stamped(t, line[k + 1..])
  }

  /** A line is stamped exactly when it is a time, a space and a message, the time being its
      text up to the first space and one that can be parsed. */
  lemma SplitExactly(lib: Library, line: string, t: int, message: string)
    ensures Split(lib, line) == Stamped(t, message) <==>
            exists stamp :: line == stamp + " " + message && ' ' !in stamp && stamp != "" && lib.time(stamp) == Some(t)
  {
    var k := IndexOfSpace(line);
    if Split(lib, line) == Stamped(t, message) {
      var stamp := line[..k];
      assert line == stamp + " " + message && ' ' !in stamp;
    }
    if exists stamp :: line == stamp + " " + message && ' ' !in stamp && stamp != "" && lib.time(stamp) == Some(t) {
      var stamp :| line == stamp + " " + message && ' ' !in stamp && stamp != "" && lib.time(stamp) == Some(t);
      assert line[|stamp|] == ' ' && forall j | 0 <= j < |stamp| :: line[j] == stamp[j] && stamp[j] in stamp;
      assert k == |stamp|;
      assert line[..k] == stamp && line[k + 1..] == message;
    }
  }

  /** The capture of a line is the group of the first pattern that has one there, trimmed; none
      if no pattern has one or nothing is left of it. */
  lemma {:induction false} CapturedExactly(lib: Library, patterns: seq<string>, line: string)
    ensures Captured(lib, patterns, line).Some? <==>
            exists k :: 0 <= k < |patterns| && lib.group(patterns[k], line).Some?
    ensures Captured(lib, patterns, line).Some? ==>
              exists k :: 0 <= k < |patterns| && Captured(lib, patterns, line) == lib.group(patterns[k], line)
                && forall j | 0 <= j < k :: lib.group(patterns[j], line).None?
  {
    if patterns != [] && lib.group(patterns[0], line).None? {
      CapturedExactly(lib, patterns[1..], line);
      if Captured(lib, patterns, line).Some? {
        var k :| 0 <= k < |patterns[1..]| && Captured(lib, patterns[1..], line) == lib.group(patterns[1..][k], line)
          && forall j | 0 <= j < k :: lib.group(patterns[1..][j], line).None?;
        assert patterns[1..][k] == patterns[k + 1];
        forall j | 0 <= j < k + 1 ensures lib.group(patterns[j], line).None? {
          if j > 0 { assert patterns[1..][j - 1] == patterns[j]; }
        }
      }
      forall k | 0 < k < |patterns| ensures patterns[1..][k - 1] == patterns[k] {
      }
    }
  }

  /** When a line with a matching message is stamped. */
  function HitAt(lib: Library, patterns: seq<string>, line: string): Option<int> {
    match Split(lib, line)
    case Unstamped => None
    case Stamped(t, message) => if Hits(lib, patterns, message) then Some(t) else None
  }

  // ---- what a log comes to

  function Count(lib: Library, patterns: seq<string>, lines: seq<string>): nat {
    if lines == [] then 0
    else
      var n := |lines| - 1;
      Count(lib, patterns, lines[..n]) + if Hits(lib, patterns, lines[n]) then 1 else 0
  }

  ghost function Values(lib: Library, patterns: seq<string>, lines: seq<string>): set<string> {
    set line | line in lines && Value(lib, patterns, line).Some? :: Value(lib, patterns, line).value
  }

  /** The latest stamp of a matching message, zero if none is later. */
  ghost predicate IsLatest(lib: Library, patterns: seq<string>, lines: seq<string>, t: int) {
    && t >= 0
    && (forall line | line in lines && HitAt(lib, patterns, line).Some? :: HitAt(lib, patterns, line).value <= t)
    && (t == 0 || exists line | line in lines :: HitAt(lib, patterns, line) == Some(t))
  }

  // ---- the loops

  method FirstMatching(lib: Library, patterns: seq<string>, text: string) returns (k: nat)
    ensures k <= |patterns| && (k < |patterns| <==> Hits(lib, patterns, text))
    ensures k == FirstMatch(lib, patterns, text)
  {
    k := 0;
    while k < |patterns|
      invariant k <= |patterns| && forall j | 0 <= j < k :: !lib.matches(patterns[j], text)
    {
      if lib.matches(patterns[k], text) {
        break;
      }
      k := k + 1;
    }
    FirstMatchUnique(lib, patterns, text, k);
  }

  lemma {:induction false} FirstMatchUnique(lib: Library, patterns: seq<string>, text: string, k: nat)
    requires k <= |patterns| && (k < |patterns| ==> lib.matches(patterns[k], text))
    requires forall j | 0 <= j < k :: !lib.matches(patterns[j], text)
    ensures FirstMatch(lib, patterns, text) == k
  {
    if k > 0 {
      assert patterns[1..][k - 1..] == patterns[k..];
      FirstMatchUnique(lib, patterns[1..], text, k - 1);
    }
  }

  /** The pattern is the first to match the line. */
  predicate Leads(lib: Library, patterns: seq<string>, line: string, pattern: string) {
    var k := FirstMatch(lib, patterns, line);
    k < |patterns| && patterns[k] == pattern
  }

  /** A pattern is reported exactly when it is the first to match some line. */
  ghost predicate Reports(lib: Library, patterns: seq<string>, lines: seq<string>, pattern: string) {
    exists line | line in lines :: Leads(lib, patterns, line, pattern)
  }

  function Keep(patterns: seq<string>, chosen: set<string>): seq<string> {
    if patterns == [] then []
    else Keep(patterns[..|patterns| - 1], chosen)
         + if patterns[|patterns| - 1] in chosen then [patterns[|patterns| - 1]] else []
  }

  /** The first pattern that does not compile. */
  function Uncompiled(lib: Library, patterns: seq<string>): Option<string> {
    if patterns == [] then None
    else if !lib.compiles(patterns[0]) then Some(patterns[0])
    else Uncompiled(lib, patterns[1..])
  }

  /** It is one that does not compile while all before it do; none exactly when all compile. */
  lemma {:induction false} UncompiledExactly(lib: Library, patterns: seq<string>)
    ensures Uncompiled(lib, patterns).None? <==> forall k | 0 <= k < |patterns| :: lib.compiles(patterns[k])
    ensures Uncompiled(lib, patterns).Some? ==>
              exists k :: 0 <= k < |patterns| && Uncompiled(lib, patterns) == Some(patterns[k])
                && !lib.compiles(patterns[k]) && forall j | 0 <= j < k :: lib.compiles(patterns[j])
  {
    if patterns != [] && lib.compiles(patterns[0]) {
      UncompiledExactly(lib, patterns[1..]);
      assert forall k | 0 < k < |patterns| :: patterns[1..][k - 1] == patterns[k];
      if Uncompiled(lib, patterns).Some? {
        var k :| 0 <= k < |patterns[1..]| && Uncompiled(lib, patterns[1..]) == Some(patterns[1..][k])
          && !lib.compiles(patterns[1..][k]) && forall j | 0 <= j < k :: lib.compiles(patterns[1..][j]);
        forall j | 0 <= j < k + 1 ensures lib.compiles(patterns[j]) {
          if j > 0 { assert patterns[1..][j - 1] == patterns[j]; }
        }
        assert patterns[k + 1] == patterns[1..][k];
      }
    }
  }

  /** The count is the number of places in the log whose line some pattern matches. */
  lemma {:induction false} CountExactly(lib: Library, patterns: seq<string>, lines: seq<string>)
    ensures Count(lib, patterns, lines) == |set i | 0 <= i < |lines| && Hits(lib, patterns, lines[i])|
  {
    hide Hits;
    var places := set i | 0 <= i < |lines| && Hits(lib, patterns, lines[i]);
    if lines == [] {
      assert places == {};
    } else {
      var n := |lines| - 1;
      CountExactly(lib, patterns, lines[..n]);
      var before := set i | 0 <= i < n && Hits(lib, patterns, lines[..n][i]);
      assert forall i | 0 <= i < n :: lines[..n][i] == lines[i];
      assert places == before + if Hits(lib, patterns, lines[n]) then {n} else {};
    }
  }

  method Compile(lib: Library, patterns: seq<string>) returns (bad: Option<string>)
    ensures bad == Uncompiled(lib, patterns)
  {
    for i := 0 to |patterns|
      invariant Uncompiled(lib, patterns) == Uncompiled(lib, patterns[i..])
    {
      if !lib.compiles(patterns[i]) {
        return Some(patterns[i]);
      }
      assert patterns[i..][1..] == patterns[i + 1..];
    }
    bad := None;
  }

  /** countPatternMatches, patterns compiled */
  method CountPatternMatches(lib: Library, lines: seq<string>, patterns: seq<string>)
    returns (count: nat, matched: seq<string>)
    ensures count == Count(lib, patterns, lines)
    ensures exists chosen: set<string> :: matched == Keep(patterns, chosen)
              && forall p :: p in chosen <==> Reports(lib, patterns, lines, p)
  {
    var chosen: set<string> := {};
    count := 0;
    for i := 0 to |lines|
      invariant count == Count(lib, patterns, lines[..i])
      invariant forall p :: p in chosen <==> Reports(lib, patterns, lines[..i], p)
    {
      assert lines[..i + 1][..i] == lines[..i];
      var k := FirstMatching(lib, patterns, lines[i]);
      ReportsMore(lib, patterns, lines, i);
      if k < |patterns| {
        count := count + 1;
        chosen := chosen + {patterns[k]};
      }
    }
    assert lines[..|lines|] == lines;
    matched := [];
    for i := 0 to |patterns|
      invariant matched == Keep(patterns[..i], chosen)
    {
      assert patterns[..i + 1][..i] == patterns[..i];
      if patterns[i] in chosen {
        matched := matched + [patterns[i]];
      }
    }
    assert patterns[..|patterns|] == patterns;
  }

  lemma ReportsMore(lib: Library, patterns: seq<string>, lines: seq<string>, i: nat)
    requires i < |lines|
    ensures forall p :: Reports(lib, patterns, lines[..i + 1], p) <==>
              Reports(lib, patterns, lines[..i], p) || Leads(lib, patterns, lines[i], p)
  {
    hide Reports, Leads;
    forall p
      ensures Reports(lib, patterns, lines[..i + 1], p) <==>
                Reports(lib, patterns, lines[..i], p) || Leads(lib, patterns, lines[i], p)
    {
      ReportsOneMore(lib, patterns, lines, i, p);
    }
  }

  lemma ReportsOneMore(lib: Library, patterns: seq<string>, lines: seq<string>, i: nat, p: string)
    requires i < |lines|
    ensures Reports(lib, patterns, lines[..i + 1], p) <==>
              Reports(lib, patterns, lines[..i], p) || Leads(lib, patterns, lines[i], p)
  {
    hide Leads;
    if Reports(lib, patterns, lines[..i + 1], p) {
      var line :| line in lines[..i + 1] && Leads(lib, patterns, line, p);
      var k :| 0 <= k <= i && lines[k] == line;
      assert k < i ==> lines[..i][k] == line;
    }
    if Reports(lib, patterns, lines[..i], p) {
      var line :| line in lines[..i] && Leads(lib, patterns, line, p);
      var k :| 0 <= k < i && lines[k] == line;
      assert lines[..i + 1][k] == line;
    }
    assert lines[..i + 1][i] == lines[i];
  }

  /** distinctPatternCaptureGroups, patterns compiled */
  method DistinctCaptures(lib: Library, lines: seq<string>, patterns: seq<string>) returns (values: set<string>)
    ensures values == Values(lib, patterns, lines)
  {
    values := {};
    for i := 0 to |lines|
      invariant values == Values(lib, patterns, lines[..i])
    {
      var k := 0;
      while k < |patterns| && lib.group(patterns[k], lines[i]).None?
        invariant k <= |patterns| && Captured(lib, patterns, lines[i]) == Captured(lib, patterns[k..], lines[i])
      {
        assert patterns[k..][1..] == patterns[k + 1..];
        k := k + 1;
      }
      ghost var before := values;
      if k < |patterns| {
        var value := TrimSpace(lib.group(patterns[k], lines[i]).value);
        if value != "" {
          values := values + {value};
        }
      }
      ValuesMore(lib, patterns, lines, i);
    }
    assert lines[..|lines|] == lines;
  }

  lemma ValuesMore(lib: Library, patterns: seq<string>, lines: seq<string>, i: nat)
    requires i < |lines|
    ensures var v := Value(lib, patterns, lines[i]);
      Values(lib, patterns, lines[..i + 1]) == Values(lib, patterns, lines[..i]) + if v.Some? then {v.value} else {}
  {
    hide Value;
    assert lines[..i + 1] == lines[..i] + [lines[i]];
    var all := Values(lib, patterns, lines[..i + 1]);
    var v := Value(lib, patterns, lines[i]);
    if v.Some? {
      assert lines[i] in lines[..i + 1];
      assert v.value in all;
    }
  }

  /** findLatestPatternTimestamps, patterns compiled */
  method LatestTimestamps(lib: Library, lines: seq<string>, failures: seq<string>, successes: seq<string>)
    returns (lastFailure: int, lastSuccess: int)
    ensures IsLatest(lib, failures, lines, lastFailure) && IsLatest(lib, successes, lines, lastSuccess)
  {
    hide IsLatest;
    lastFailure, lastSuccess := 0, 0;
    NoneLatest(lib, failures);
    NoneLatest(lib, successes);
    for i := 0 to |lines|
      invariant IsLatest(lib, failures, lines[..i], lastFailure) && IsLatest(lib, successes, lines[..i], lastSuccess)
    {
      LatestMore(lib, failures, lines, i, lastFailure);
      LatestMore(lib, successes, lines, i, lastSuccess);
      var split := Split(lib, lines[i]);
      if split.Stamped? {
        var k := FirstMatching(lib, failures, split.message);
        if k < |failures| && split.at > lastFailure {
          lastFailure := split.at;
        }
        k := FirstMatching(lib, successes, split.message);
        if k < |successes| && split.at > lastSuccess {
          lastSuccess := split.at;
        }
      }
    }
    assert lines[..|lines|] == lines;
  }

  lemma NoneLatest(lib: Library, patterns: seq<string>)
    ensures IsLatest(lib, patterns, [], 0)
  {
  }

  lemma LatestMore(lib: Library, patterns: seq<string>, lines: seq<string>, i: nat, t: int)
    requires i < |lines| && IsLatest(lib, patterns, lines[..i], t)
    ensures var hit := HitAt(lib, patterns, lines[i]);
      IsLatest(lib, patterns, lines[..i + 1], if hit.Some? && hit.value > t then hit.value else t)
  {
    hide HitAt;
    assert lines[..i + 1] == lines[..i] + [lines[i]];
    var hit := HitAt(lib, patterns, lines[i]);
    if hit.Some? && hit.value > t {
      assert lines[i] in lines[..i + 1];
    } else if t > 0 {
      var line :| line in lines[..i] && HitAt(lib, patterns, line) == Some(t);
      assert line in lines[..i + 1];
    }
  }

  // ---- the verdict

  datatype LogCheck = LogCheck(
    patterns: seq<string>, successPatterns: seq<string>, matchCountThreshold: int, distinctThreshold: int)

  datatype Finding = Invalid(pattern: string) | Failed(matches: nat) | Passed

  function Threshold(c: LogCheck): int {
    if c.matchCountThreshold <= 0 then 1 else c.matchCountThreshold
  }

  /** A success is stamped later than every failure. */
  ghost predicate Superseded(lib: Library, c: LogCheck, lines: seq<string>) {
    exists line | line in lines ::
      && HitAt(lib, c.successPatterns, line).Some? && HitAt(lib, c.successPatterns, line).value > 0
      && forall other | other in lines && HitAt(lib, c.patterns, other).Some? ::
           HitAt(lib, c.patterns, other).value < HitAt(lib, c.successPatterns, line).value
  }

  /** Enough lines match, no later success supersedes them, and enough different
      captures are among them where that is asked for. */
  ghost predicate Fails(lib: Library, c: LogCheck, lines: seq<string>) {
    && Count(lib, c.patterns, lines) >= 1 && Count(lib, c.patterns, lines) >= c.matchCountThreshold
    && !Superseded(lib, c, lines)
    && (c.distinctThreshold > 0 ==> |Values(lib, c.patterns, lines)| >= c.distinctThreshold)
  }

  lemma SupersededByLatest(lib: Library, c: LogCheck, lines: seq<string>, failure: int, success: int)
    requires IsLatest(lib, c.patterns, lines, failure) && IsLatest(lib, c.successPatterns, lines, success)
    ensures Superseded(lib, c, lines) <==> success > failure
    ensures c.successPatterns == [] ==> !Superseded(lib, c, lines)
  {
    if success > failure {
      var line :| line in lines && HitAt(lib, c.successPatterns, line) == Some(success);
    }
  }

  /** runDockerLogPattern over the lines of a log that was read. */
  method RunDockerLogPattern(lib: Library, c: LogCheck, lines: seq<string>) returns (v: Finding)
    ensures v.Invalid? <==> Uncompiled(lib, c.patterns + c.successPatterns) != None
    ensures v.Invalid? ==> Some(v.pattern) == Uncompiled(lib, c.patterns + c.successPatterns)
    ensures !v.Invalid? ==> (v.Failed? <==> Fails(lib, c, lines))
    ensures !v.Invalid? ==>
              (v.Failed? <==>
                 var count, captures := Count(lib, c.patterns, lines), Values(lib, c.patterns, lines);
                 && count > 0 && count >= c.matchCountThreshold && !Superseded(lib, c, lines)
                 && (c.distinctThreshold <= 0 || |captures| >= c.distinctThreshold))
    ensures v.Failed? ==> v.matches == Count(lib, c.patterns, lines)
  {
    hide IsLatest, Superseded, HitAt, Values;
    UncompiledBoth(lib, c.patterns, c.successPatterns);
    var bad := Compile(lib, c.patterns);
    if bad.Some? {
      return Invalid(bad.value);
    }
    var count, _ := CountPatternMatches(lib, lines, c.patterns);
    var distinct := DistinctCaptures(lib, lines, c.patterns);
    bad := Compile(lib, c.successPatterns);
    if bad.Some? {
      return Invalid(bad.value);
    }
    var threshold := Threshold(c);
    var lastFailure, lastSuccess := LatestTimestamps(lib, lines, c.patterns, c.successPatterns);
    SupersededByLatest(lib, c, lines, lastFailure, lastSuccess);
    if |c.successPatterns| > 0 && count >= threshold && lastSuccess != 0 && lastSuccess > lastFailure {
      return Passed;
    }
    NotBelowZero(lib, c, lines, lastFailure, lastSuccess);
    if count >= threshold {
      if c.distinctThreshold > 0 && |distinct| < c.distinctThreshold {
        return Passed;
      }
      return Failed(count);
    }
    return Passed;
  }

  lemma NotBelowZero(lib: Library, c: LogCheck, lines: seq<string>, failure: int, success: int)
    requires IsLatest(lib, c.patterns, lines, failure) && IsLatest(lib, c.successPatterns, lines, success)
    ensures failure >= 0 && success >= 0
  {
  }

  lemma {:induction false} UncompiledBoth(lib: Library, a: seq<string>, b: seq<string>)
    ensures Uncompiled(lib, a + b) == if Uncompiled(lib, a).Some? then Uncompiled(lib, a) else Uncompiled(lib, b)
  {
    if a == [] {
      assert a + b == b;
    } else {
      assert (a + b)[1..] == a[1..] + b;
      UncompiledBoth(lib, a[1..], b);
    }
  }

  // ---- the order of the lines does not matter

  lemma {:induction false} CountAppend(lib: Library, patterns: seq<string>, a: seq<string>, b: seq<string>)
    ensures Count(lib, patterns, a + b) == Count(lib, patterns, a) + Count(lib, patterns, b)
  {
    hide Hits;
    if b == [] {
      assert a + b == a;
    } else {
      var n := |b| - 1;
      assert (a + b)[..|a + b| - 1] == a + b[..n];
      CountAppend(lib, patterns, a, b[..n]);
    }
  }

  lemma CountWithout(lib: Library, patterns: seq<string>, b: seq<string>, k: nat)
    requires k < |b|
    ensures Count(lib, patterns, b)
         == Count(lib, patterns, b[..k] + b[k + 1..]) + if Hits(lib, patterns, b[k]) then 1 else 0
  {
    hide Count, Hits;
    assert b == b[..k] + [b[k]] + b[k + 1..];
    CountAppend(lib, patterns, b[..k], b[k + 1..]);
    CountAppend(lib, patterns, b[..k] + [b[k]], b[k + 1..]);
    CountOne(lib, patterns, b[..k], b[k]);
  }

  lemma {:induction false} CountIgnoresOrder(lib: Library, patterns: seq<string>, a: seq<string>, b: seq<string>)
    requires multiset(a) == multiset(b)
    ensures Count(lib, patterns, a) == Count(lib, patterns, b)
    decreases |a|
  {
    hide Hits;
    if a == [] {
      assert |multiset(b)| == |b| && |multiset(a)| == 0;
    } else {
      hide Count;
      var n := |a| - 1;
      assert a[..n] + a[n + 1..] == a[..n];
      WithoutOne(a, n);
      assert a[n] in multiset(b);
      var k :| 0 <= k < |b| && b[k] == a[n];
      WithoutOne(b, k);
      CountIgnoresOrder(lib, patterns, a[..n], b[..k] + b[k + 1..]);
      CountWithout(lib, patterns, a, n);
      CountWithout(lib, patterns, b, k);
    }
  }

  lemma WithoutOne(b: seq<string>, k: nat)
    requires k < |b|
    ensures multiset(b[..k] + b[k + 1..]) == multiset(b) - multiset{b[k]}
  {
    assert b == b[..k] + [b[k]] + b[k + 1..];
  }

  lemma SameLines(a: seq<string>, b: seq<string>)
    requires multiset(a) == multiset(b)
    ensures forall line :: line in a <==> line in b
  {
    forall line ensures line in a <==> line in b {
      assert line in multiset(a) <==> line in multiset(b);
    }
  }

  /** Permuting the lines of a log does not change the verdict. */
  lemma VerdictIgnoresOrder(lib: Library, c: LogCheck, a: seq<string>, b: seq<string>)
    requires multiset(a) == multiset(b)
    ensures Fails(lib, c, a) <==> Fails(lib, c, b)
  {
    hide Count, Hits, HitAt, Value;
    CountIgnoresOrder(lib, c.patterns, a, b);
    SameLines(a, b);
    assert Values(lib, c.patterns, a) == Values(lib, c.patterns, b);
  }

  // ---- adding a line

  lemma CountOne(lib: Library, patterns: seq<string>, lines: seq<string>, line: string)
    ensures Count(lib, patterns, lines + [line])
         == Count(lib, patterns, lines) + if Hits(lib, patterns, line) then 1 else 0
  {
    assert (lines + [line])[..|lines|] == lines;
  }

  lemma MoreIsMore(a: set<string>, b: set<string>)
    requires a <= b
    ensures |a| <= |b|
  {
    assert b == a + (b - a);
  }

  /** A failing log stays failing after any line whose message matches no success pattern. */
  lemma FailingStaysFailing(lib: Library, c: LogCheck, lines: seq<string>, line: string)
    requires Fails(lib, c, lines) && HitAt(lib, c.successPatterns, line).None?
    ensures Fails(lib, c, lines + [line])
  {
    hide Count, Hits, HitAt, Value;
    CountOne(lib, c.patterns, lines, line);
    var all := lines + [line];
    MoreIsMore(Values(lib, c.patterns, lines), Values(lib, c.patterns, all));
    if !Superseded(lib, c, lines) {
      NotSuperseded(lib, c, lines, line);
    }
  }

  lemma NotSuperseded(lib: Library, c: LogCheck, lines: seq<string>, line: string)
    requires !Superseded(lib, c, lines) && HitAt(lib, c.successPatterns, line).None?
    ensures !Superseded(lib, c, lines + [line])
  {
    hide HitAt;
    var all := lines + [line];
    forall s | s in all && HitAt(lib, c.successPatterns, s).Some? && HitAt(lib, c.successPatterns, s).value > 0
      ensures exists other | other in all ::
                HitAt(lib, c.patterns, other).Some?
                && HitAt(lib, c.patterns, other).value >= HitAt(lib, c.successPatterns, s).value {
      assert s in lines;
      var other :| other in lines && HitAt(lib, c.patterns, other).Some?
                   && HitAt(lib, c.patterns, other).value >= HitAt(lib, c.successPatterns, s).value;
      assert other in all;
    }
  }

  lemma {:induction false} NoGroupNoCapture(lib: Library, patterns: seq<string>, line: string)
    requires Coherent(lib) && !Hits(lib, patterns, line)
    ensures Captured(lib, patterns, line) == None
  {
    if patterns != [] {
      assert !lib.matches(patterns[0], line);
      assert forall k | 0 <= k < |patterns[1..]| :: patterns[1..][k] == patterns[k + 1];
      NoGroupNoCapture(lib, patterns[1..], line);
    }
  }

  /** A passing log stays passing after any line that matches no failure pattern,
      neither as a whole nor in its message. */
  lemma PassingStaysPassing(lib: Library, c: LogCheck, lines: seq<string>, line: string)
    requires Coherent(lib) && !Fails(lib, c, lines)
    requires !Hits(lib, c.patterns, line) && HitAt(lib, c.patterns, line).None?
    ensures !Fails(lib, c, lines + [line])
  {
    NoGroupNoCapture(lib, c.patterns, line);
    CountOne(lib, c.patterns, lines, line);
    hide Count, Hits, HitAt, Captured;
    var all := lines + [line];
    assert Values(lib, c.patterns, all) == Values(lib, c.patterns, lines);
    if Superseded(lib, c, lines) {
      var s :| s in lines && HitAt(lib, c.successPatterns, s).Some? && HitAt(lib, c.successPatterns, s).value > 0
               && forall other | other in lines && HitAt(lib, c.patterns, other).Some? ::
                    HitAt(lib, c.patterns, other).value < HitAt(lib, c.successPatterns, s).value;
      assert s in all;
      assert Superseded(lib, c, all);
    }
  }
}
