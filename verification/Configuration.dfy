/**
 The configuration file made canonical (internal/config/load.go) and what
 internal/config/validate.go lets through. Durations and regular expressions are
 parsed by parameters. Fields that no rule looks at are left out.
 */
module Configuration {
  import opened Wrappers
  import opened Text
  import opened CommandLine
  import opened Remote

  datatype Result<+T> = Ok(value: T) | Err(error: Error)

  datatype Check = Check(
    id: string, name: string, kind: string, url: string, timeout: string, paths: seq<string>, container: string,
    dockerCommand: string, since: string, patterns: seq<string>, successPatterns: seq<string>,
    expectedPatterns: seq<string>, forbiddenPatterns: seq<string>, matchCountThreshold: int, distinctThreshold: int,
    command: string, service: string)

  datatype Action = Action(
    name: string, kind: string, command: string, service: string, container: string, duration: string)

  datatype Monitor = Monitor(
    id: string, name: string, kind: string, enabled: bool, interval: string, threshold: int, maxAttempts: int,
    cooldown: string, target: Target, checks: seq<Check>, recovery: seq<Action>)

  datatype Error =
    | BlankId
    | DuplicateId(id: string)
    | NegativeAttempts
    | BadInterval
    | BadCooldown
    | BadTarget
    | NoChecks
    | CheckWithoutType(check: string)
    | DuplicateCheck(check: string)
    | BadCheck(check: string)
    | NoRecovery
    | ActionWithoutType(action: string)
    | BadAction(action: string)

  /** time.ParseDuration, in nanoseconds, and whether regexp.Compile succeeds. */
  datatype Library = Library(duration: string -> Option<int>, compiles: string -> bool)

  // ---- validate.go

  predicate ValidDuration(lib: Library, value: string, allowZero: bool) {
    var d := lib.duration(TrimSpace(value));
    d.Some? && d.value >= 0 && (allowZero || d.value != 0)
  }

  const CHECK_TYPES := {
    "http_json", "load", "memory", "io_pressure", "io_paths", "docker_container", "docker_log_pattern", "docker_exec",
    "command", "systemd_service"}

  const ACTION_TYPES := {
    "command", "docker_exec", "sleep", "recheck", "restart_docker_container", "restart_systemd_service"}

  predicate Blank(s: string) {
    TrimSpace(s) == ""
  }

  predicate ValidTarget(t: Target) {
    var transport := if Blank(t.transport) then "local" else TrimSpace(t.transport);
    transport == "local"
    || (transport == "ssh" && !Blank(t.host) && (forall h | h in t.fallbackHosts :: !Blank(h)) && 0 <= t.port <= 65535)
  }

  predicate Compile(lib: Library, patterns: seq<string>) {
    forall p | p in patterns :: lib.compiles(p)
  }

  predicate ValidCheck(lib: Library, c: Check) {
    && c.kind in CHECK_TYPES
    && Compile(lib, c.patterns) && Compile(lib, c.successPatterns)
    && Compile(lib, c.expectedPatterns) && Compile(lib, c.forbiddenPatterns)
    && (c.kind == "http_json" ==> !Blank(c.url) && (Blank(c.timeout) || ValidDuration(lib, c.timeout, false)))
    && (c.kind == "docker_container" ==> !Blank(c.container))
    && (c.kind == "docker_log_pattern" ==>
          && !Blank(c.container) && c.patterns != [] && (Blank(c.since) || ValidDuration(lib, c.since, false))
          && c.matchCountThreshold >= 0 && c.distinctThreshold >= 0)
    && (c.kind == "docker_exec" ==> !Blank(c.container) && !Blank(c.dockerCommand))
    && (c.kind == "io_paths" ==> c.paths != [])
    && (c.kind == "command" ==> !Blank(c.command))
    && (c.kind == "systemd_service" ==> !Blank(c.service))
  }

  predicate ValidAction(lib: Library, a: Action) {
    && a.kind in ACTION_TYPES
    && (a.kind == "command" ==> !Blank(a.command))
    && (a.kind == "restart_systemd_service" ==> !Blank(a.service))
    && (a.kind == "restart_docker_container" ==> !Blank(a.container))
    && (a.kind == "docker_exec" ==> !Blank(a.container) && !Blank(a.command))
    && (a.kind == "sleep" ==> !Blank(a.duration) && ValidDuration(lib, a.duration, true))
  }

  /** A valid remote target has a host to try. */
  lemma ValidTargetHasHosts(t: Target)
    requires ValidTarget(t)
    ensures IsLocal(t) || (TrimSpace(t.transport) == "ssh" && HostsOf(t) != [])
  {
    if !IsLocal(t) {
      HostsInOrder(t);
      var named := Trimmed([t.host] + t.fallbackHosts);
      assert named[0] == TrimSpace(t.host);
      assert TrimSpace(t.host) in named;
      assert TrimSpace(t.host) in HostsOf(t);
    }
  }

  // ---- canonical form

  function Default(s: string, d: string): string {
    if Blank(s) then d else s
  }

  function CanonicalCheck(id: string, j: nat, c: Check): Check {
    var checkId := Default(c.id, id + "-check-" + Decimal(j + 1));
    c.(id := checkId, name := Default(c.name, checkId))
  }

  function CanonicalAction(id: string, j: nat, a: Action): Action {
    a.(name := Default(a.name, id + "-action-" + Decimal(j + 1)))
  }

  function CanonicalChecks(id: string, checks: seq<Check>): seq<Check> {
    seq(|checks|, j requires 0 <= j < |checks| => CanonicalCheck(id, j, checks[j]))
  }

  function CanonicalActions(id: string, actions: seq<Action>): seq<Action> {
    seq(|actions|, j requires 0 <= j < |actions| => CanonicalAction(id, j, actions[j]))
  }

  /** A monitor with every default filled in. */
  function Canonical(m: Monitor): Monitor {
    var id := TrimSpace(m.id);
    m.(id := id,
       name := Default(m.name, id),
       kind := Default(m.kind, "generic"),
       interval := Default(m.interval, "1m"),
       threshold := if m.threshold <= 0 then 1 else m.threshold,
       cooldown := Default(m.cooldown, "5m"),
       target := m.target.(transport := Default(m.target.transport, "local")),
       checks := CanonicalChecks(id, m.checks),
       recovery := CanonicalActions(id, m.recovery))
  }

  // ---- what is filled in, field by field

  /** A text that was given stays as it is; one that was left out becomes the default. */
  predicate Filled(given: string, default: string, result: string) {
    result == if AllSpace(given) then default else given
  }

  /** A check keeps its settings; an id and a name it lacks come from its place. */
  predicate CheckFilled(id: string, j: nat, given: Check, c: Check) {
    && c == given.(id := c.id, name := c.name)
    && Filled(given.id, id + "-check-" + Decimal(j + 1), c.id) && Filled(given.name, c.id, c.name)
  }

  predicate ActionFilled(id: string, j: nat, given: Action, a: Action) {
    a == given.(name := a.name) && Filled(given.name, id + "-action-" + Decimal(j + 1), a.name)
  }

  /** Everything that was given stays: whether the monitor is enabled, its attempts, the rest of
      its target and all settings of its checks and actions. Each field left out has its default. */
  ghost predicate MonitorFilled(given: Monitor, m: Monitor) {
    && m == given.(id := m.id, name := m.name, kind := m.kind, interval := m.interval, threshold := m.threshold,
                   cooldown := m.cooldown, target := given.target.(transport := m.target.transport),
                   checks := m.checks, recovery := m.recovery)
    && Trims(given.id, m.id) && Filled(given.name, m.id, m.name) && Filled(given.kind, "generic", m.kind)
    && Filled(given.interval, "1m", m.interval) && Filled(given.cooldown, "5m", m.cooldown)
    && Filled(given.target.transport, "local", m.target.transport)
    && m.threshold == (if given.threshold > 0 then given.threshold else 1)
    && |m.checks| == |given.checks| && |m.recovery| == |given.recovery|
    && (forall j | 0 <= j < |given.checks| :: CheckFilled(m.id, j, given.checks[j], m.checks[j]))
    && (forall j | 0 <= j < |given.recovery| :: ActionFilled(m.id, j, given.recovery[j], m.recovery[j]))
  }

  lemma DefaultFills(given: string, default: string)
    ensures Filled(given, default, Default(given, default))
  {
    hide TrimSpace, AllSpace;
    BlankExactly(given);
  }

  lemma CanonicalCheckFills(id: string, j: nat, c: Check)
    ensures CheckFilled(id, j, c, CanonicalCheck(id, j, c))
  {
    hide TrimSpace, Decimal, Filled, Default;
    var d := id + "-check-" + Decimal(j + 1);
    DefaultFills(c.id, d);
    DefaultFills(c.name, Default(c.id, d));
  }

  lemma CanonicalActionFills(id: string, j: nat, a: Action)
    ensures ActionFilled(id, j, a, CanonicalAction(id, j, a))
  {
    hide TrimSpace, Decimal, Filled, Default;
    DefaultFills(a.name, id + "-action-" + Decimal(j + 1));
  }

  /** The canonical form is the given monitor with what it lacks filled in. */
  lemma CanonicalFills(m: Monitor)
    ensures MonitorFilled(m, Canonical(m))
  {
    hide TrimSpace, Trims, Filled, Default, CheckFilled, ActionFilled, CanonicalCheck, CanonicalAction;
    var id := TrimSpace(m.id);
    TrimExactly(m.id);
    DefaultFills(m.name, id);
    DefaultFills(m.kind, "generic");
    DefaultFills(m.interval, "1m");
    DefaultFills(m.cooldown, "5m");
    DefaultFills(m.target.transport, "local");
    forall j | 0 <= j < |m.checks| ensures CheckFilled(id, j, m.checks[j], CanonicalChecks(id, m.checks)[j]) {
      CanonicalCheckFills(id, j, m.checks[j]);
    }
    forall j | 0 <= j < |m.recovery| ensures ActionFilled(id, j, m.recovery[j], CanonicalActions(id, m.recovery)[j]) {
      CanonicalActionFills(id, j, m.recovery[j]);
    }
  }

  lemma ChecksFilledOnce(id: string, given: seq<Check>, a: seq<Check>, b: seq<Check>)
    requires |a| == |b| == |given|
    requires forall j | 0 <= j < |given| :: CheckFilled(id, j, given[j], a[j]) && CheckFilled(id, j, given[j], b[j])
    ensures a == b
  {
    hide Filled, Decimal;
    forall j | 0 <= j < |given| ensures a[j] == b[j] {
      FilledOnce(given[j].id, id + "-check-" + Decimal(j + 1), a[j].id, b[j].id);
      FilledOnce(given[j].name, a[j].id, a[j].name, b[j].name);
    }
  }

  lemma ActionsFilledOnce(id: string, given: seq<Action>, a: seq<Action>, b: seq<Action>)
    requires |a| == |b| == |given|
    requires forall j | 0 <= j < |given| :: ActionFilled(id, j, given[j], a[j]) && ActionFilled(id, j, given[j], b[j])
    ensures a == b
  {
    hide Filled, Decimal;
    forall j | 0 <= j < |given| ensures a[j] == b[j] {
      FilledOnce(given[j].name, id + "-action-" + Decimal(j + 1), a[j].name, b[j].name);
    }
  }

  /** ... and that says all there is to say: no other monitor is. */
  lemma FilledIsCanonical(given: Monitor, m: Monitor)
    requires MonitorFilled(given, m)
    ensures m == Canonical(given)
  {
    hide Canonical, Trims, Filled, CheckFilled, ActionFilled;
    var c := Canonical(given);
    CanonicalFills(given);
    TrimsOnce(given.id, m.id, c.id);
    FilledOnce(given.name, m.id, m.name, c.name);
    FilledOnce(given.kind, "generic", m.kind, c.kind);
    FilledOnce(given.interval, "1m", m.interval, c.interval);
    FilledOnce(given.cooldown, "5m", m.cooldown, c.cooldown);
    FilledOnce(given.target.transport, "local", m.target.transport, c.target.transport);
    ChecksFilledOnce(m.id, given.checks, m.checks, c.checks);
    ActionsFilledOnce(m.id, given.recovery, m.recovery, c.recovery);
  }

  lemma FilledOnce(given: string, default: string, a: string, b: string)
    requires Filled(given, default, a) && Filled(given, default, b)
    ensures a == b
  {
  }

  lemma {:induction false} TrimLeftKeeps(s: string, k: nat)
    requires k < |s| && !IsSpace(s[k])
    ensures var r := TrimLeft(s); |r| >= |s| - k
  {
    if IsSpace(s[0]) {
      TrimLeftKeeps(s[1..], k - 1);
    }
  }

  lemma {:induction false} TrimRightKeeps(s: string, k: nat)
    requires k < |s| && !IsSpace(s[k])
    ensures TrimRight(s) != ""
  {
    if IsSpace(s[|s| - 1]) {
      TrimRightKeeps(s[..|s| - 1], k);
    }
  }

  lemma NotBlank(s: string, k: nat)
    requires k < |s| && !IsSpace(s[k])
    ensures !Blank(s)
  {
    TrimLeftKeeps(s, k);
    var r := TrimLeft(s);
    var k' := k - (|s| - |r|);
    assert r[k'] == s[k];
    TrimRightKeeps(r, k');
  }

  lemma DefaultTwice(s: string, d: string)
    requires !Blank(d) || d == ""
    ensures Default(Default(s, d), d) == Default(s, d)
    ensures !Blank(d) ==> !Blank(Default(s, d))
  {
  }

  lemma CheckTwice(id: string, j: nat, c: Check)
    ensures CanonicalCheck(id, j, CanonicalCheck(id, j, c)) == CanonicalCheck(id, j, c)
  {
    hide TrimSpace, Decimal;
    var d := id + "-check-" + Decimal(j + 1);
    assert d[|id|] == '-';
    NotBlank(d, |id|);
    DefaultTwice(c.id, d);
    DefaultTwice(c.name, Default(c.id, d));
  }

  lemma ActionTwice(id: string, j: nat, a: Action)
    ensures CanonicalAction(id, j, CanonicalAction(id, j, a)) == CanonicalAction(id, j, a)
  {
    hide TrimSpace, Decimal;
    var d := id + "-action-" + Decimal(j + 1);
    assert d[|id|] == '-';
    NotBlank(d, |id|);
    DefaultTwice(a.name, d);
  }

  lemma ChecksTwice(id: string, checks: seq<Check>)
    ensures CanonicalChecks(id, CanonicalChecks(id, checks)) == CanonicalChecks(id, checks)
  {
    hide CanonicalCheck;
    forall j | 0 <= j < |checks|
      ensures CanonicalCheck(id, j, CanonicalCheck(id, j, checks[j])) == CanonicalCheck(id, j, checks[j])
    {
      CheckTwice(id, j, checks[j]);
    }
  }

  lemma ActionsTwice(id: string, actions: seq<Action>)
    ensures CanonicalActions(id, CanonicalActions(id, actions)) == CanonicalActions(id, actions)
  {
    hide CanonicalAction;
    forall j | 0 <= j < |actions|
      ensures CanonicalAction(id, j, CanonicalAction(id, j, actions[j])) == CanonicalAction(id, j, actions[j])
    {
      ActionTwice(id, j, actions[j]);
    }
  }

  /** Making a monitor canonical twice is making it canonical once. */
  lemma CanonicalTwice(m: Monitor)
    ensures Canonical(Canonical(m)) == Canonical(m)
  {
    hide TrimSpace, CanonicalChecks, CanonicalActions;
    var id := TrimSpace(m.id);
    assert TrimSpace(id) == id && (!Blank(id) || id == "") by { TrimmedId(m.id); }
    ChecksTwice(id, m.checks);
    ActionsTwice(id, m.recovery);
    NotBlank("generic", 0);
    NotBlank("1m", 0);
    NotBlank("5m", 0);
    NotBlank("local", 0);
    DefaultTwice(m.name, id);
    DefaultTwice(m.kind, "generic");
    DefaultTwice(m.interval, "1m");
    DefaultTwice(m.cooldown, "5m");
    DefaultTwice(m.target.transport, "local");
  }

  lemma TrimmedId(s: string)
    ensures TrimSpace(TrimSpace(s)) == TrimSpace(s) && (!Blank(TrimSpace(s)) || TrimSpace(s) == "")
  {
    TrimTwice(s);
  }

  // ---- the first thing wrong with a canonical monitor

  function CheckProblem(lib: Library, checks: seq<Check>, from: nat): Option<Error>
    requires from <= |checks|
    decreases |checks| - from
  {
    if from == |checks| then None
    else
      var c := checks[from];
      if Blank(c.kind) then Some(CheckWithoutType(c.id))
      else if exists k :: 0 <= k < from && checks[k].id == c.id then Some(DuplicateCheck(c.id))
      else if !ValidCheck(lib, c) then Some(BadCheck(c.id))
      else CheckProblem(lib, checks, from + 1)
  }

  function ActionProblem(lib: Library, actions: seq<Action>, from: nat): Option<Error>
    requires from <= |actions|
    decreases |actions| - from
  {
    if from == |actions| then None
    else
      var a := actions[from];
      if Blank(a.kind) then Some(ActionWithoutType(a.name))
      else if !ValidAction(lib, a) then Some(BadAction(a.name))
      else ActionProblem(lib, actions, from + 1)
  }

  function Problem(lib: Library, m: Monitor): Option<Error> {
    if m.maxAttempts < 0 then Some(NegativeAttempts)
    else if !ValidDuration(lib, m.interval, false) then Some(BadInterval)
    else if !ValidDuration(lib, m.cooldown, true) then Some(BadCooldown)
    else if !ValidTarget(m.target) then Some(BadTarget)
    else if m.checks == [] then Some(NoChecks)
    else if CheckProblem(lib, m.checks, 0).Some? then CheckProblem(lib, m.checks, 0)
    else if m.recovery == [] then Some(NoRecovery)
    else ActionProblem(lib, m.recovery, 0)
  }

  function CanonicalAll(ms: seq<Monitor>): seq<Monitor> {
    seq(|ms|, i requires 0 <= i < |ms| => Canonical(ms[i]))
  }

  /** The first thing wrong with a list of canonical monitors, in order. */
  function FirstProblem(lib: Library, ms: seq<Monitor>, from: nat): Option<Error>
    requires from <= |ms|
    decreases |ms| - from
  {
    if from == |ms| then None
    else if ms[from].id == "" then Some(BlankId)
    else if exists k :: 0 <= k < from && ms[k].id == ms[from].id then Some(DuplicateId(ms[from].id))
    else if Problem(lib, ms[from]).Some? then Problem(lib, ms[from])
    else FirstProblem(lib, ms, from + 1)
  }

  // ---- Normalize

  /** The defaults of one check. */
  method NameCheck(id: string, j: nat, check: Check) returns (c: Check)
    ensures c == CanonicalCheck(id, j, check)
  {
    hide TrimSpace, Decimal;
    c := check;
    if Blank(c.id) {
      c := c.(id := id + "-check-" + Decimal(j + 1));
    }
    if Blank(c.name) {
      c := c.(name := c.id);
    }
  }

  /** The default of one action. */
  method NameAction(id: string, j: nat, action: Action) returns (a: Action)
    ensures a == CanonicalAction(id, j, action)
  {
    hide TrimSpace, Decimal;
    a := action;
    if Blank(a.name) {
      a := a.(name := id + "-action-" + Decimal(j + 1));
    }
  }

  /** The loop over the checks of one monitor. */
  method NormalizeChecks(lib: Library, id: string, checks: seq<Check>) returns (r: Result<seq<Check>>)
    ensures var canonical := CanonicalChecks(id, checks);
      r == if CheckProblem(lib, canonical, 0).None? then Ok(canonical) else Err(CheckProblem(lib, canonical, 0).value)
  {
    hide TrimSpace, ValidCheck, CanonicalCheck;
    ghost var canonical := CanonicalChecks(id, checks);
    var cs := checks;
    var seen: set<string> := {};
    for j := 0 to |cs|
      invariant |cs| == |checks| == |canonical| && cs == canonical[..j] + checks[j..]
      invariant seen == set k | 0 <= k < j :: canonical[k].id
      invariant CheckProblem(lib, canonical, 0) == CheckProblem(lib, canonical, j)
    {
      assert cs[j] == checks[j];
      var c := NameCheck(id, j, cs[j]);
      cs := cs[j := c];
      if Blank(c.kind) {
        return Err(CheckWithoutType(c.id));
      }
      if c.id in seen {
        return Err(DuplicateCheck(c.id));
      }
      seen := seen + {c.id};
      if !ValidCheck(lib, c) {
        return Err(BadCheck(c.id));
      }
    }
    assert cs == canonical;
    r := Ok(cs);
  }

  /** The loop over the recovery actions of one monitor. */
  method NormalizeActions(lib: Library, id: string, actions: seq<Action>) returns (r: Result<seq<Action>>)
    ensures var canonical := CanonicalActions(id, actions);
      r == if ActionProblem(lib, canonical, 0).None? then Ok(canonical) else Err(ActionProblem(lib, canonical, 0).value)
  {
    hide TrimSpace, ValidAction, CanonicalAction;
    ghost var canonical := CanonicalActions(id, actions);
    var acts := actions;
    for j := 0 to |acts|
      invariant |acts| == |actions| == |canonical| && acts == canonical[..j] + actions[j..]
      invariant ActionProblem(lib, canonical, 0) == ActionProblem(lib, canonical, j)
    {
      assert acts[j] == actions[j];
      var a := NameAction(id, j, acts[j]);
      acts := acts[j := a];
      if Blank(a.kind) {
        return Err(ActionWithoutType(a.name));
      }
      if !ValidAction(lib, a) {
        return Err(BadAction(a.name));
      }
    }
    assert acts == canonical;
    r := Ok(acts);
  }

  /** The canonical form but for the two lists. */
  function CanonicalFields(m: Monitor): Monitor {
    Canonical(m).(checks := m.checks, recovery := m.recovery)
  }

  /** What is wrong with the fields before the lists are looked at. */
  function FieldProblem(lib: Library, m: Monitor): Option<Error> {
    if m.maxAttempts < 0 then Some(NegativeAttempts)
    else if !ValidDuration(lib, m.interval, false) then Some(BadInterval)
    else if !ValidDuration(lib, m.cooldown, true) then Some(BadCooldown)
    else if !ValidTarget(m.target) then Some(BadTarget)
    else None
  }

  /** What the loop of Normalize does to the fields of one monitor. */
  method NormalizeFields(lib: Library, m: Monitor) returns (r: Result<Monitor>)
    ensures var fields := CanonicalFields(m);
      r == if FieldProblem(lib, fields).None? then Ok(fields) else Err(FieldProblem(lib, fields).value)
  {
    hide TrimSpace, CanonicalChecks, CanonicalActions, ValidDuration, ValidTarget;
    var mon := m.(id := TrimSpace(m.id));
    if Blank(mon.name) {
      mon := mon.(name := mon.id);
    }
    if Blank(mon.kind) {
      mon := mon.(kind := "generic");
    }
    if Blank(mon.interval) {
      mon := mon.(interval := "1m");
    }
    if mon.threshold <= 0 {
      mon := mon.(threshold := 1);
    }
    if mon.maxAttempts < 0 {
      return Err(NegativeAttempts);
    }
    if Blank(mon.cooldown) {
      mon := mon.(cooldown := "5m");
    }
    if Blank(mon.target.transport) {
      mon := mon.(target := mon.target.(transport := "local"));
    }
    assert mon == CanonicalFields(m);
    if !ValidDuration(lib, mon.interval, false) {
      return Err(BadInterval);
    }
    if !ValidDuration(lib, mon.cooldown, true) {
      return Err(BadCooldown);
    }
    if !ValidTarget(mon.target) {
      return Err(BadTarget);
    }
    r := Ok(mon);
  }

  /** What the loop of Normalize does to one monitor once its id is settled. */
  method NormalizeMonitor(lib: Library, m: Monitor) returns (r: Result<Monitor>)
    ensures r == if Problem(lib, Canonical(m)).None? then Ok(Canonical(m)) else Err(Problem(lib, Canonical(m)).value)
    ensures r.Ok? ==> MonitorFilled(m, r.value)
  {
    hide TrimSpace, CanonicalChecks, CanonicalActions, CheckProblem, ActionProblem, ValidDuration, ValidTarget, Default,
         MonitorFilled;
    CanonicalFills(m);
    r := NormalizeFields(lib, m);
    if r.Err? {
      return;
    }
    var mon := r.value;
    SameLength(mon.id, mon.checks, mon.recovery);
    if |mon.checks| == 0 {
      return Err(NoChecks);
    }
    var checks := NormalizeChecks(lib, mon.id, mon.checks);
    if checks.Err? {
      return Err(checks.error);
    }
    if |mon.recovery| == 0 {
      return Err(NoRecovery);
    }
    var actions := NormalizeActions(lib, mon.id, mon.recovery);
    if actions.Err? {
      return Err(actions.error);
    }
    r := Ok(mon.(checks := checks.value, recovery := actions.value));
  }

  lemma SameLength(id: string, checks: seq<Check>, actions: seq<Action>)
    ensures |CanonicalChecks(id, checks)| == |checks| && |CanonicalActions(id, actions)| == |actions|
  {
  }

  /** Normalize rewrites the monitors in place. It succeeds exactly when nothing is
      wrong with the canonical ones, and then leaves those. */
  method Normalize(lib: Library, monitors: array<Monitor>) returns (err: Option<Error>)
    modifies monitors
    ensures err == FirstProblem(lib, CanonicalAll(old(monitors[..])), 0)
    ensures err.None? ==> monitors[..] == CanonicalAll(old(monitors[..]))
    ensures err.None? ==> forall i | 0 <= i < monitors.Length :: MonitorFilled(old(monitors[i]), monitors[i])
  {
    hide TrimSpace, Canonical, Problem, MonitorFilled;
    ghost var canonical := CanonicalAll(monitors[..]);
    var seen: set<string> := {};
    for i := 0 to monitors.Length
      invariant forall k | 0 <= k < i :: monitors[k] == canonical[k] && MonitorFilled(old(monitors[k]), monitors[k])
      invariant forall k | i <= k < monitors.Length :: monitors[k] == old(monitors[k])
      invariant seen == set k | 0 <= k < i :: canonical[k].id
      invariant FirstProblem(lib, canonical, 0) == FirstProblem(lib, canonical, i)
    {
      CanonicalId(monitors[i]);
      var id := TrimSpace(monitors[i].id);
      if id == "" {
        return Some(BlankId);
      }
      if id in seen {
        return Some(DuplicateId(id));
      }
      seen := seen + {id};
      var r := NormalizeMonitor(lib, monitors[i]);
      if r.Err? {
        return Some(r.error);
      }
      monitors[i] := r.value;
    }
    err := None;
  }

  lemma CanonicalId(m: Monitor)
    ensures Canonical(m).id == TrimSpace(m.id)
  {
  }

  // ---- what a normal configuration is

  ghost predicate NormalMonitor(lib: Library, m: Monitor) {
    && m.id != "" && Canonical(m) == m && Problem(lib, m).None?
  }

  ghost predicate Normal(lib: Library, ms: seq<Monitor>) {
    && (forall i | 0 <= i < |ms| :: NormalMonitor(lib, ms[i]))
    && forall i, j | 0 <= i < j < |ms| :: ms[i].id != ms[j].id
  }

  lemma {:induction false} NoProblemMeans(lib: Library, ms: seq<Monitor>, from: nat)
    requires from <= |ms| && FirstProblem(lib, ms, from).None?
    ensures forall i | from <= i < |ms| :: ms[i].id != "" && Problem(lib, ms[i]).None?
    ensures forall i, j | 0 <= i < j < |ms| && from <= j :: ms[i].id != ms[j].id
    decreases |ms| - from
  {
    hide Problem;
    if from < |ms| {
      NoProblemMeans(lib, ms, from + 1);
    }
  }

  lemma {:induction false} NormalHasNoProblem(lib: Library, ms: seq<Monitor>, from: nat)
    requires from <= |ms|
    requires forall i | 0 <= i < |ms| :: ms[i].id != "" && Problem(lib, ms[i]).None?
    requires forall i, j | 0 <= i < j < |ms| :: ms[i].id != ms[j].id
    ensures FirstProblem(lib, ms, from).None?
    decreases |ms| - from
  {
    hide Problem;
    if from < |ms| {
      NormalHasNoProblem(lib, ms, from + 1);
    }
  }

  /** Nothing is wrong exactly when every monitor is in order by itself and the ids differ. */
  lemma NoProblemExactly(lib: Library, ms: seq<Monitor>)
    ensures FirstProblem(lib, ms, 0).None? <==>
            && (forall i | 0 <= i < |ms| :: ms[i].id != "" && Problem(lib, ms[i]).None?)
            && forall i, j | 0 <= i < j < |ms| :: ms[i].id != ms[j].id
  {
    hide Problem;
    if FirstProblem(lib, ms, 0).None? {
      NoProblemMeans(lib, ms, 0);
    }
    if (forall i | 0 <= i < |ms| :: ms[i].id != "" && Problem(lib, ms[i]).None?)
       && forall i, j | 0 <= i < j < |ms| :: ms[i].id != ms[j].id {
      NormalHasNoProblem(lib, ms, 0);
    }
  }

  /** What Normalize leaves when it succeeds is normal, and Normalize of it succeeds
      and changes nothing. */
  lemma NormalizeTwice(lib: Library, ms: seq<Monitor>)
    requires FirstProblem(lib, CanonicalAll(ms), 0).None?
    ensures var once := CanonicalAll(ms);
      Normal(lib, once) && CanonicalAll(once) == once && FirstProblem(lib, CanonicalAll(once), 0).None?
  {
    hide Canonical, Problem;
    var once := CanonicalAll(ms);
    NoProblemMeans(lib, once, 0);
    forall i | 0 <= i < |ms| ensures Canonical(once[i]) == once[i] {
      CanonicalTwice(ms[i]);
    }
    assert CanonicalAll(once) == once;
  }

  lemma {:induction false} ChecksAreValid(lib: Library, checks: seq<Check>, from: nat)
    requires from <= |checks| && CheckProblem(lib, checks, from).None?
    ensures forall j | from <= j < |checks| :: !Blank(checks[j].kind) && ValidCheck(lib, checks[j])
    ensures forall k, j | 0 <= k < j < |checks| && from <= j :: checks[k].id != checks[j].id
    decreases |checks| - from
  {
    hide ValidCheck, TrimSpace;
    if from < |checks| {
      ChecksAreValid(lib, checks, from + 1);
    }
  }

  lemma {:induction false} ActionsAreValid(lib: Library, actions: seq<Action>, from: nat)
    requires from <= |actions| && ActionProblem(lib, actions, from).None?
    ensures forall j | from <= j < |actions| :: ValidAction(lib, actions[j])
    decreases |actions| - from
  {
    hide ValidAction, TrimSpace;
    if from < |actions| {
      ActionsAreValid(lib, actions, from + 1);
    }
  }

  lemma {:induction false} ValidChecksHaveNoProblem(lib: Library, checks: seq<Check>, from: nat)
    requires from <= |checks|
    requires forall j | 0 <= j < |checks| :: !Blank(checks[j].kind) && ValidCheck(lib, checks[j])
    requires forall k, j | 0 <= k < j < |checks| :: checks[k].id != checks[j].id
    ensures CheckProblem(lib, checks, from).None?
    decreases |checks| - from
  {
    hide ValidCheck, TrimSpace;
    if from < |checks| {
      ValidChecksHaveNoProblem(lib, checks, from + 1);
    }
  }

  lemma {:induction false} ValidActionsHaveNoProblem(lib: Library, actions: seq<Action>, from: nat)
    requires from <= |actions|
    requires forall j | 0 <= j < |actions| :: !Blank(actions[j].kind) && ValidAction(lib, actions[j])
    ensures ActionProblem(lib, actions, from).None?
    decreases |actions| - from
  {
    hide ValidAction, TrimSpace;
    if from < |actions| {
      ValidActionsHaveNoProblem(lib, actions, from + 1);
    }
  }

  /** No type that has a handler is blank. */
  lemma KnownIsNotBlank(kind: string)
    requires kind in CHECK_TYPES || kind in ACTION_TYPES
    ensures !Blank(kind)
  {
    hide TrimSpace;
    NotBlank(kind, 0);
  }

  predicate Span(lib: Library, value: string, least: int) {
    var d := lib.duration(TrimSpace(value));
    d.Some? && d.value >= least
  }

  /** Nothing is wrong with a monitor exactly when its numbers are in range, its target is a
      valid one, and it has checks and actions, all of them valid and the checks' ids distinct. */
  lemma ProblemExactly(lib: Library, m: Monitor)
    ensures Problem(lib, m).None? <==>
            && m.maxAttempts >= 0 && Span(lib, m.interval, 1) && Span(lib, m.cooldown, 0) && ValidTarget(m.target)
            && m.checks != [] && m.recovery != []
            && (forall j | 0 <= j < |m.checks| :: ValidCheck(lib, m.checks[j]))
            && (forall k, j | 0 <= k < j < |m.checks| :: m.checks[k].id != m.checks[j].id)
            && (forall j | 0 <= j < |m.recovery| :: ValidAction(lib, m.recovery[j]))
  {
    hide TrimSpace, Blank, Compile;
    if Problem(lib, m).None? {
      ChecksAreValid(lib, m.checks, 0);
      ActionsAreValid(lib, m.recovery, 0);
    } else if (forall j | 0 <= j < |m.checks| :: ValidCheck(lib, m.checks[j]))
              && (forall k, j | 0 <= k < j < |m.checks| :: m.checks[k].id != m.checks[j].id)
              && (forall j | 0 <= j < |m.recovery| :: ValidAction(lib, m.recovery[j])) {
      forall j | 0 <= j < |m.checks| ensures !Blank(m.checks[j].kind) { KnownIsNotBlank(m.checks[j].kind); }
      forall j | 0 <= j < |m.recovery| ensures !Blank(m.recovery[j].kind) { KnownIsNotBlank(m.recovery[j].kind); }
      ValidChecksHaveNoProblem(lib, m.checks, 0);
      ValidActionsHaveNoProblem(lib, m.recovery, 0);
    }
  }

  /** Which of the fields is reported: the first of them, in this order, that is out of range. */
  lemma FirstErrorExactly(lib: Library, m: Monitor)
    ensures var attempts, interval, cooldown, target :=
              m.maxAttempts >= 0, Span(lib, m.interval, 1), Span(lib, m.cooldown, 0), ValidTarget(m.target);
      && (Problem(lib, m) == Some(NegativeAttempts) <==> !attempts)
      && (Problem(lib, m) == Some(BadInterval) <==> attempts && !interval)
      && (Problem(lib, m) == Some(BadCooldown) <==> attempts && interval && !cooldown)
      && (Problem(lib, m) == Some(BadTarget) <==> attempts && interval && cooldown && !target)
      && (Problem(lib, m) == Some(NoChecks) <==> attempts && interval && cooldown && target && m.checks == [])
  {
    hide TrimSpace, Blank, Compile, ValidTarget;
    CheckErrors(lib, m.checks, 0);
    ActionErrors(lib, m.recovery, 0);
  }

  lemma {:induction false} CheckErrors(lib: Library, checks: seq<Check>, from: nat)
    requires from <= |checks|
    ensures var e := CheckProblem(lib, checks, from);
      e.None? || e.value.CheckWithoutType? || e.value.DuplicateCheck? || e.value.BadCheck?
    decreases |checks| - from
  {
    hide ValidCheck, TrimSpace;
    if from < |checks| {
      CheckErrors(lib, checks, from + 1);
    }
  }

  lemma {:induction false} ActionErrors(lib: Library, actions: seq<Action>, from: nat)
    requires from <= |actions|
    ensures var e := ActionProblem(lib, actions, from); e.None? || e.value.ActionWithoutType? || e.value.BadAction?
    decreases |actions| - from
  {
    hide ValidAction, TrimSpace;
    if from < |actions| {
      ActionErrors(lib, actions, from + 1);
    }
  }

  /** A target is valid exactly when it is local, or ssh with a host, no blank host beside it
      and a port there can be. */
  lemma TargetExactly(t: Target)
    ensures ValidTarget(t) <==>
            || Trims(t.transport, "") || Trims(t.transport, "local")
            || (Trims(t.transport, "ssh") && !AllSpace(t.host) && 0 <= t.port <= 65535
                && forall h | h in t.fallbackHosts :: !AllSpace(h))
  {
    hide TrimSpace, AllSpace, Trims;
    TrimExactly(t.transport);
    var transport := TrimSpace(t.transport);
    forall text | Trims(t.transport, text) ensures text == transport {
      TrimsOnce(t.transport, text, transport);
    }
    BlankExactly(t.host);
    forall h | h in t.fallbackHosts ensures Blank(h) <==> AllSpace(h) {
      BlankExactly(h);
    }
  }

  /** The checks and actions of a normal monitor are of known types, its check ids are
      distinct, and what the engine reads of it is in range. */
  lemma NormalMeansSupported(lib: Library, m: Monitor)
    requires NormalMonitor(lib, m)
    ensures m.checks != [] && forall j | 0 <= j < |m.checks| :: m.checks[j].kind in CHECK_TYPES
    ensures m.recovery != [] && forall j | 0 <= j < |m.recovery| :: m.recovery[j].kind in ACTION_TYPES
    ensures forall k, j | 0 <= k < j < |m.checks| :: m.checks[k].id != m.checks[j].id
    ensures m.threshold >= 1 && m.maxAttempts >= 0
    ensures lib.duration(TrimSpace(m.interval)).Some? && lib.duration(TrimSpace(m.interval)).value > 0
    ensures lib.duration(TrimSpace(m.cooldown)).Some? && lib.duration(TrimSpace(m.cooldown)).value >= 0
    ensures IsLocal(m.target) || HostsOf(m.target) != []
  {
    hide TrimSpace, Decimal, CanonicalChecks, CanonicalActions;
    ChecksAreValid(lib, m.checks, 0);
    ActionsAreValid(lib, m.recovery, 0);
    ValidTargetHasHosts(m.target);
  }

  /** parseDuration of the engine */
  function ParseDuration(lib: Library, value: string, fallback: int): int {
    var trimmed := TrimSpace(value);
    if trimmed == "" || lib.duration(trimmed).None? then fallback else lib.duration(trimmed).value
  }

  /** On a normal monitor the engine never falls back on its own durations. */
  lemma NoFallback(lib: Library, m: Monitor, fallback: int)
    requires NormalMonitor(lib, m)
    ensures ParseDuration(lib, m.interval, fallback) == lib.duration(TrimSpace(m.interval)).value > 0
    ensures ParseDuration(lib, m.cooldown, fallback) == lib.duration(TrimSpace(m.cooldown)).value >= 0
  {
    hide TrimSpace, CanonicalChecks, CanonicalActions, CheckProblem, ActionProblem;
    NormalMeansSupported(lib, m);
    NotBlank("1m", 0);
    NotBlank("5m", 0);
    DefaultTwice(m.interval, "1m");
    DefaultTwice(m.cooldown, "5m");
  }

  // ---- dedupeMonitors

  function Ids(ms: seq<Monitor>): seq<string> {
    seq(|ms|, i requires 0 <= i < |ms| => TrimSpace(ms[i].id))
  }

  /** The last definition of an id, with the id trimmed. */
  function LastDefinition(ms: seq<Monitor>, id: string): Monitor
    requires id in Ids(ms)
  {
    var n := |ms| - 1;
    if TrimSpace(ms[n].id) == id then ms[n].(id := id)
    else
      assert Ids(ms[..n]) == Ids(ms)[..n];
      LastDefinition(ms[..n], id)
  }

  /** It is one of the definitions of the id, with the id trimmed, and none comes after it. */
  lemma {:induction false} LastDefinitionIs(ms: seq<Monitor>, id: string) returns (k: nat)
    requires id in Ids(ms)
    ensures k < |ms| && Trims(ms[k].id, id) && LastDefinition(ms, id) == ms[k].(id := id)
    ensures forall j | k < j < |ms| :: !Trims(ms[j].id, id)
  {
    hide TrimSpace, Trims;
    var n := |ms| - 1;
    TrimExactly(ms[n].id);
    if TrimSpace(ms[n].id) == id {
      k := n;
    } else {
      assert Ids(ms[..n]) == Ids(ms)[..n];
      k := LastDefinitionIs(ms[..n], id);
      forall j | k < j < |ms| ensures !Trims(ms[j].id, id) {
        if j == n && Trims(ms[n].id, id) {
          TrimsOnce(ms[n].id, id, TrimSpace(ms[n].id));
        }
      }
    }
  }

  /** The ids that occur again, each once, in the order of their second occurrence. */
  function Repeated(ids: seq<string>): seq<string> {
    if ids == [] then []
    else
      var n := |ids| - 1;
      var before := Repeated(ids[..n]);
      if ids[n] in ids[..n] && ids[n] !in before then before + [ids[n]] else before
  }

  ghost predicate IsDeduped(ms: seq<Monitor>, deduped: seq<Monitor>) {
    var ids := Distinct(Ids(ms));
    && |deduped| == |ids|
    && forall k | 0 <= k < |ids| :: ids[k] in Ids(ms) && deduped[k] == LastDefinition(ms, ids[k])
  }

  /** The index says where each id stands. */
  ghost predicate Indexes(index: map<string, nat>, ids: seq<string>) {
    && (forall id :: id in index <==> id in ids)
    && forall id | id in index :: index[id] < |ids| && ids[index[id]] == id
  }

  lemma IdsLast(ms: seq<Monitor>, m: Monitor)
    ensures Ids(ms + [m]) == Ids(ms) + [TrimSpace(m.id)]
  {
  }

  lemma DistinctLast(ids: seq<string>, id: string)
    requires id != ""
    ensures Distinct(ids + [id]) == if id in Distinct(ids) then Distinct(ids) else Distinct(ids) + [id]
    ensures Repeated(ids + [id]) == if id in ids && id !in Repeated(ids) then Repeated(ids) + [id] else Repeated(ids)
  {
    assert (ids + [id])[..|ids|] == ids;
  }

  lemma LastOf(ms: seq<Monitor>, m: Monitor, id: string)
    requires id in Ids(ms) || id == TrimSpace(m.id)
    ensures id in Ids(ms + [m])
    ensures LastDefinition(ms + [m], id) == if TrimSpace(m.id) == id then m.(id := id) else LastDefinition(ms, id)
  {
    hide TrimSpace;
    IdsLast(ms, m);
    assert (ms + [m])[..|ms|] == ms;
    assert TrimSpace(m.id) in Ids(ms) + [TrimSpace(m.id)];
  }

  /** What the loop of dedupeMonitors keeps. */
  ghost predicate Deduping(
    ms: seq<Monitor>, deduped: seq<Monitor>, index: map<string, nat>, duplicates: seq<string>, seen: set<string>)
  {
    && "" !in Ids(ms) && IsDeduped(ms, deduped) && Indexes(index, Distinct(Ids(ms)))
    && duplicates == Repeated(Ids(ms)) && seen == set d | d in duplicates
  }

  lemma KnownId(
    ms: seq<Monitor>, deduped: seq<Monitor>, index: map<string, nat>, duplicates: seq<string>, seen: set<string>,
    id: string)
    requires Deduping(ms, deduped, index, duplicates, seen) && id != ""
    ensures id in index <==> id in Ids(ms)
    ensures id in index ==> index[id] < |deduped|
  {
    hide TrimSpace;
    DistinctItems(Ids(ms));
  }

  /** The definitions kept, when one more of a known id takes its place. */
  lemma Redefined(ms: seq<Monitor>, m: Monitor, deduped: seq<Monitor>, k: nat)
    requires IsDeduped(ms, deduped) && "" !in Ids(ms)
    requires k < |deduped| && TrimSpace(m.id) != "" && Distinct(Ids(ms))[k] == TrimSpace(m.id)
    ensures IsDeduped(ms + [m], deduped[k := m.(id := TrimSpace(m.id))])
  {
    hide TrimSpace, LastDefinition;
    var id := TrimSpace(m.id);
    var ids := Distinct(Ids(ms));
    IdsLast(ms, m);
    DistinctLast(Ids(ms), id);
    DistinctItems(Ids(ms));
    hide Distinct;
    forall j | 0 <= j < |ids|
      ensures ids[j] in Ids(ms + [m]) && deduped[k := m.(id := id)][j] == LastDefinition(ms + [m], ids[j])
    {
      assert ids[j] in ids;
      LastOf(ms, m, ids[j]);
      if j != k { Differs(Ids(ms), ids, j, k); }
    }
  }

  lemma Again(ids: seq<string>, id: string, duplicates: seq<string>, seen: set<string>)
    requires id in ids && id != "" && duplicates == Repeated(ids) && seen == set d | d in duplicates
    ensures var duplicates' := if id in seen then duplicates else duplicates + [id];
      && duplicates' == Repeated(ids + [id])
      && (if id in seen then seen else seen + {id}) == set d | d in duplicates'
  {
    DistinctLast(ids, id);
    hide Repeated;
  }

  lemma AppendAgain(
    ms: seq<Monitor>, m: Monitor, deduped: seq<Monitor>, index: map<string, nat>, duplicates: seq<string>,
    seen: set<string>)
    requires Deduping(ms, deduped, index, duplicates, seen)
    requires var id := TrimSpace(m.id); id != "" && id in index && index[id] < |deduped|
    ensures var id := TrimSpace(m.id);
      var twice := id in seen;
      Deduping(ms + [m], deduped[index[id] := m.(id := id)], index,
               if twice then duplicates else duplicates + [id], if twice then seen else seen + {id})
  {
    hide TrimSpace, LastDefinition;
    var id := TrimSpace(m.id);
    hide Ids, Distinct, Repeated, IsDeduped;
    IdsLast(ms, m);
    DistinctLast(Ids(ms), id);
    DistinctItems(Ids(ms));
    Redefined(ms, m, deduped, index[id]);
    Again(Ids(ms), id, duplicates, seen);
    assert "" !in Ids(ms + [m]);
  }

  lemma Differs(items: seq<string>, d: seq<string>, j: nat, k: nat)
    requires InOrder(items, d) && j < |d| && k < |d| && j != k
    ensures d[j] != d[k]
  {
  }

  lemma AppendNew(
    ms: seq<Monitor>, m: Monitor, deduped: seq<Monitor>, index: map<string, nat>, duplicates: seq<string>,
    seen: set<string>)
    requires Deduping(ms, deduped, index, duplicates, seen)
    requires TrimSpace(m.id) != "" && TrimSpace(m.id) !in index
    ensures var id := TrimSpace(m.id);
      Deduping(ms + [m], deduped + [m.(id := id)], index[id := |deduped|], duplicates, seen)
  {
    hide TrimSpace, LastDefinition, IsDeduped, Indexes;
    var id := TrimSpace(m.id);
    IdsLast(ms, m);
    DistinctLast(Ids(ms), id);
    DistinctItems(Ids(ms));
    hide Distinct, Repeated;
    SameKeys(index, Distinct(Ids(ms)));
    NewDefinition(ms, m, deduped);
    NewIndex(index, Distinct(Ids(ms)), id, |deduped|);
  }

  lemma SameKeys(index: map<string, nat>, ids: seq<string>)
    requires Indexes(index, ids)
    ensures forall id :: id in index <==> id in ids
  {
  }

  lemma NewIndex(index: map<string, nat>, ids: seq<string>, id: string, n: nat)
    requires Indexes(index, ids) && id !in ids && n == |ids|
    ensures Indexes(index[id := n], ids + [id])
  {
  }

  lemma NewDefinition(ms: seq<Monitor>, m: Monitor, deduped: seq<Monitor>)
    requires var id := TrimSpace(m.id);
      IsDeduped(ms, deduped) && Distinct(Ids(ms + [m])) == Distinct(Ids(ms)) + [id] && id !in Distinct(Ids(ms))
    ensures |deduped| == |Distinct(Ids(ms))| && IsDeduped(ms + [m], deduped + [m.(id := TrimSpace(m.id))])
  {
    hide TrimSpace, LastDefinition, Distinct;
    var id := TrimSpace(m.id);
    var ids, deduped' := Distinct(Ids(ms)), deduped + [m.(id := id)];
    forall k | 0 <= k < |ids| + 1
      ensures (ids + [id])[k] in Ids(ms + [m]) && deduped'[k] == LastDefinition(ms + [m], (ids + [id])[k]) {
      if k < |ids| { assert ids[k] in ids; }
      LastOf(ms, m, (ids + [id])[k]);
    }
  }

  /** It fails exactly when some id is blank; otherwise every id once, in the order of
      first occurrence, with its last definition, and the repeated ids. */
  method DedupeMonitors(ms: seq<Monitor>) returns (r: Result<(seq<Monitor>, seq<string>)>)
    ensures r.Err? <==> "" in Ids(ms)
    ensures r.Err? ==> r.error == BlankId
    ensures r.Ok? ==> IsDeduped(ms, r.value.0) && r.value.1 == Repeated(Ids(ms))
  {
    hide TrimSpace, IsDeduped, Indexes, Repeated;
    var deduped: seq<Monitor> := [];
    var indexById: map<string, nat> := map[];
    var duplicates: seq<string> := [];
    var duplicateSeen: set<string> := {};
    DedupingNone();
    for i := 0 to |ms|
      invariant Deduping(ms[..i], deduped, indexById, duplicates, duplicateSeen)
    {
      assert ms[..i + 1] == ms[..i] + [ms[i]];
      var id := TrimSpace(ms[i].id);
      if id == "" {
        assert Ids(ms)[i] == "";
        return Err(BlankId);
      }
      var monitor := ms[i].(id := id);
      KnownId(ms[..i], deduped, indexById, duplicates, duplicateSeen, id);
      if id in indexById {
        AppendAgain(ms[..i], ms[i], deduped, indexById, duplicates, duplicateSeen);
        var index := indexById[id];
        deduped := deduped[index := monitor];
        if id !in duplicateSeen {
          duplicateSeen := duplicateSeen + {id};
          duplicates := duplicates + [id];
        }
      } else {
        AppendNew(ms[..i], ms[i], deduped, indexById, duplicates, duplicateSeen);
        indexById := indexById[id := |deduped|];
        deduped := deduped + [monitor];
      }
    }
    assert ms[..|ms|] == ms;
    r := Ok((deduped, duplicates));
  }

  lemma DedupingNone()
    ensures Deduping([], [], map[], [], {})
  {
  }

  /** The result of dedupeMonitors: ids distinct, not blank and trimmed, in the order of
      their first occurrence. */
  lemma DedupedIds(ms: seq<Monitor>, deduped: seq<Monitor>)
    requires "" !in Ids(ms) && IsDeduped(ms, deduped)
    ensures Ids(deduped) == Distinct(Ids(ms)) && InOrder(Ids(ms), Ids(deduped))
    ensures forall k | 0 <= k < |deduped| :: deduped[k].id == Ids(deduped)[k]
    ensures forall id :: id in Ids(deduped) <==> id in Ids(ms)
  {
    hide TrimSpace;
    DistinctItems(Ids(ms));
    var ids := Distinct(Ids(ms));
    forall k | 0 <= k < |deduped| ensures deduped[k].id == ids[k] && TrimSpace(deduped[k].id) == ids[k] {
      DefinesItself(ms, ids[k]);
    }
  }

  lemma {:induction false} DefinesItself(ms: seq<Monitor>, id: string)
    requires id in Ids(ms)
    ensures LastDefinition(ms, id).id == id && TrimSpace(id) == id
  {
    hide TrimSpace;
    var n := |ms| - 1;
    if TrimSpace(ms[n].id) == id {
      TrimmedId(ms[n].id);
    } else {
      assert Ids(ms[..n]) == Ids(ms)[..n];
      DefinesItself(ms[..n], id);
    }
  }

  /** How often an id occurs. */
  function Occurrences(ids: seq<string>, id: string): nat {
    if ids == [] then 0 else Occurrences(ids[..|ids| - 1], id) + if ids[|ids| - 1] == id then 1 else 0
  }

  lemma {:induction false} OccursSomewhere(ids: seq<string>, id: string)
    ensures Occurrences(ids, id) > 0 <==> id in ids
  {
    if ids != [] {
      OccursSomewhere(ids[..|ids| - 1], id);
      assert ids == ids[..|ids| - 1] + [ids[|ids| - 1]];
    }
  }

  /** Exactly the ids that occur at least twice are reported, each once. */
  lemma {:induction false} RepeatedExactly(ids: seq<string>)
    ensures forall id :: id in Repeated(ids) <==> Occurrences(ids, id) >= 2
    ensures forall i, j | 0 <= i < j < |Repeated(ids)| :: Repeated(ids)[i] != Repeated(ids)[j]
  {
    if ids != [] {
      var n := |ids| - 1;
      RepeatedExactly(ids[..n]);
      forall id ensures id in Repeated(ids) <==> Occurrences(ids, id) >= 2 {
        OccursSomewhere(ids[..n], id);
      }
    }
  }

  lemma {:induction false} DistinctOfDistinct(ids: seq<string>)
    requires "" !in ids && forall i, j | 0 <= i < j < |ids| :: ids[i] != ids[j]
    ensures Distinct(ids) == ids && Repeated(ids) == []
  {
    if ids != [] {
      var n := |ids| - 1;
      DistinctOfDistinct(ids[..n]);
      assert ids == ids[..n] + [ids[n]];
    }
  }

  lemma {:induction false} OnlyDefinition(ms: seq<Monitor>, k: nat)
    requires k < |ms| && TrimSpace(ms[k].id) == ms[k].id
    requires forall i, j | 0 <= i < j < |ms| :: Ids(ms)[i] != Ids(ms)[j]
    ensures ms[k].id in Ids(ms) && LastDefinition(ms, ms[k].id) == ms[k]
  {
    hide TrimSpace;
    assert Ids(ms)[k] == ms[k].id;
    var n := |ms| - 1;
    if k < n {
      assert Ids(ms)[n] == TrimSpace(ms[n].id);
      assert forall i | 0 <= i < n :: Ids(ms[..n])[i] == Ids(ms)[i];
      assert Ids(ms[..n]) == Ids(ms)[..n];
      OnlyDefinition(ms[..n], k);
    }
  }

  /** Deduplicating again changes nothing and reports nothing. */
  lemma DedupeTwice(ms: seq<Monitor>, deduped: seq<Monitor>)
    requires "" !in Ids(ms) && IsDeduped(ms, deduped)
    ensures "" !in Ids(deduped) && IsDeduped(deduped, deduped) && Repeated(Ids(deduped)) == []
  {
    hide TrimSpace, LastDefinition;
    DedupedIds(ms, deduped);
    DistinctOfDistinct(Ids(deduped));
    forall k | 0 <= k < |deduped| ensures LastDefinition(deduped, deduped[k].id) == deduped[k] {
      assert Ids(deduped)[k] == TrimSpace(deduped[k].id);
      OnlyDefinition(deduped, k);
    }
  }

  /** After dedupeMonitors, Normalize never reports a duplicate monitor. */
  lemma NoDuplicateAfterDedupe(lib: Library, ms: seq<Monitor>, deduped: seq<Monitor>)
    requires "" !in Ids(ms) && IsDeduped(ms, deduped)
    ensures var p := FirstProblem(lib, CanonicalAll(deduped), 0);
      p.None? || (!p.value.DuplicateId? && !p.value.BlankId?)
  {
    hide TrimSpace, Canonical;
    DedupedIds(ms, deduped);
    var all := CanonicalAll(deduped);
    forall i | 0 <= i < |all| ensures all[i].id == Ids(deduped)[i] {
      CanonicalId(deduped[i]);
    }
    NoDuplicates(lib, all, 0);
  }

  lemma ProblemIsLocal(lib: Library, m: Monitor)
    ensures var p := Problem(lib, m); p.None? || (!p.value.DuplicateId? && !p.value.BlankId?)
  {
    hide CheckProblem, ActionProblem, ValidDuration, ValidTarget;
    CheckProblemIsLocal(lib, m.checks, 0);
    ActionProblemIsLocal(lib, m.recovery, 0);
  }

  lemma {:induction false} CheckProblemIsLocal(lib: Library, checks: seq<Check>, from: nat)
    requires from <= |checks|
    ensures var p := CheckProblem(lib, checks, from); p.None? || (!p.value.DuplicateId? && !p.value.BlankId?)
    decreases |checks| - from
  {
    hide ValidCheck, TrimSpace;
    if from < |checks| { CheckProblemIsLocal(lib, checks, from + 1); }
  }

  lemma {:induction false} ActionProblemIsLocal(lib: Library, actions: seq<Action>, from: nat)
    requires from <= |actions|
    ensures var p := ActionProblem(lib, actions, from); p.None? || (!p.value.DuplicateId? && !p.value.BlankId?)
    decreases |actions| - from
  {
    hide ValidAction, TrimSpace;
    if from < |actions| { ActionProblemIsLocal(lib, actions, from + 1); }
  }

  lemma {:induction false} NoDuplicates(lib: Library, ms: seq<Monitor>, from: nat)
    requires from <= |ms| && (forall i | 0 <= i < |ms| :: ms[i].id != "")
    requires forall i, j | 0 <= i < j < |ms| :: ms[i].id != ms[j].id
    ensures var p := FirstProblem(lib, ms, from); p.None? || (!p.value.DuplicateId? && !p.value.BlankId?)
    decreases |ms| - from
  {
    hide Problem;
    if from < |ms| {
      ProblemIsLocal(lib, ms[from]);
      NoDuplicates(lib, ms, from + 1);
    }
  }
}
