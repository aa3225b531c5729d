/**
 What stands between a monitor's configuration and a running command: the two
 registries (internal/checks/checks.go:30-41, internal/actions/actions.go:16-23), the
 configuration each handler asks for before it does anything, and the command line it
 hands to the runner.
 */
module Dispatch {
  import opened Wrappers
  import opened Text
  import L = ShellLexer
  import opened CommandLine
  import opened Remote
  import opened Fallback
  import opened Configuration
  import B = Builders
  import S = ShellScript

  datatype CheckHandler =
    | HTTPJSON | Load | Memory | IOPressure | IOPaths | DockerContainer | DockerLogPattern | ExecCheck | CommandCheck
    | SystemdService

  datatype ActionHandler = CommandAction | ExecAction | Sleep | Recheck | RestartContainer | RestartService

  const CHECK_REGISTRY: map<string, CheckHandler> := map[
    "http_json" := HTTPJSON,
    "load" := Load,
    "memory" := Memory,
    "io_pressure" := IOPressure,
    "io_paths" := IOPaths,
    "docker_container" := DockerContainer,
    "docker_log_pattern" := DockerLogPattern,
    "docker_exec" := ExecCheck,
    "command" := CommandCheck,
    "systemd_service" := SystemdService]

  const ACTION_REGISTRY: map<string, ActionHandler> := map[
    "command" := CommandAction,
    "docker_exec" := ExecAction,
    "sleep" := Sleep,
    "recheck" := Recheck,
    "restart_docker_container" := RestartContainer,
    "restart_systemd_service" := RestartService]

  /** How a check or an action begins: refused for its type or for a setting it lacks,
      done by the process itself, or by a command line. */
  datatype Start = Unsupported | Missing(field: string) | Inside | Line(text: string)

  predicate Refused(s: Start) {
    s.Unsupported? || s.Missing?
  }

  function HandleCheck(h: CheckHandler, t: Target, c: Check): Start {
    match h
    case DockerContainer =>
      if Blank(c.container) then Missing("container") else Line(RemoteCommand(t, B.DockerInspect(c.container)))
    case DockerLogPattern =>
      if Blank(c.container) then Missing("container")
      else Line(RemoteCommand(t, B.DockerLogs(c.container, Default(c.since, "10m"))))
    case ExecCheck =>
      if Blank(c.container) then Missing("container")
      else if Blank(c.dockerCommand) then Missing("docker_command")
      else Line(RemoteCommand(t, B.DockerExec(c.container, c.dockerCommand)))
    case CommandCheck =>
      if Blank(c.command) then Missing("command") else Line(c.command)
    case SystemdService =>
      if Blank(c.service) then Missing("service")
      else Line(B.SystemdCommand(t, B.SystemdIsActive(TrimSpace(c.service))))
    case _ => Inside
  }

  function StartCheck(t: Target, c: Check): Start {
    if c.kind in CHECK_REGISTRY then HandleCheck(CHECK_REGISTRY[c.kind], t, c) else Unsupported
  }

  function HandleAction(h: ActionHandler, t: Target, a: Action): Start {
    match h
    case CommandAction =>
      if Blank(a.command) then Missing("command") else Line(a.command)
    case ExecAction =>
      if Blank(a.container) then Missing("container")
      else if Blank(a.command) then Missing("command")
      else Line(RemoteCommand(t, B.DockerExec(a.container, a.command)))
    case RestartContainer =>
      if Blank(a.container) then Missing("container")
      else Line(RemoteCommand(t, B.DockerRestart(TrimSpace(a.container))))
    case RestartService =>
      if Blank(a.service) then Missing("service")
      else Line(B.SystemdCommand(t, B.SystemdRestart(t, TrimSpace(a.service))))
    case _ => Inside
  }

  function StartAction(t: Target, a: Action): Start {
    if a.kind in ACTION_REGISTRY then HandleAction(ACTION_REGISTRY[a.kind], t, a) else Unsupported
  }

  // ---- the validator knows the registries

  /** The validator lets through exactly the types that have a handler. */
  lemma TypesAreRegistered(kind: string)
    ensures kind in CHECK_REGISTRY <==> kind in CHECK_TYPES
    ensures kind in ACTION_REGISTRY <==> kind in ACTION_TYPES
  {
  }

  lemma CheckKinds(c: Check)
    requires c.kind in CHECK_REGISTRY
    ensures CHECK_REGISTRY[c.kind].DockerContainer? <==> c.kind == "docker_container"
    ensures CHECK_REGISTRY[c.kind].DockerLogPattern? <==> c.kind == "docker_log_pattern"
    ensures CHECK_REGISTRY[c.kind].ExecCheck? <==> c.kind == "docker_exec"
    ensures CHECK_REGISTRY[c.kind].CommandCheck? <==> c.kind == "command"
    ensures CHECK_REGISTRY[c.kind].SystemdService? <==> c.kind == "systemd_service"
  {
  }

  lemma ActionKinds(a: Action)
    requires a.kind in ACTION_REGISTRY
    ensures ACTION_REGISTRY[a.kind].CommandAction? <==> a.kind == "command"
    ensures ACTION_REGISTRY[a.kind].ExecAction? <==> a.kind == "docker_exec"
    ensures ACTION_REGISTRY[a.kind].RestartContainer? <==> a.kind == "restart_docker_container"
    ensures ACTION_REGISTRY[a.kind].RestartService? <==> a.kind == "restart_systemd_service"
  {
  }

  lemma ValidCheckStarts(lib: Library, t: Target, c: Check)
    requires ValidCheck(lib, c)
    ensures !Refused(StartCheck(t, c))
  {
    hide TrimSpace, RemoteCommand, B.SystemdCommand, CHECK_REGISTRY, CHECK_TYPES, Compile, ValidDuration;
    TypesAreRegistered(c.kind);
    CheckKinds(c);
  }

  lemma ValidActionStarts(lib: Library, t: Target, a: Action)
    requires ValidAction(lib, a)
    ensures !Refused(StartAction(t, a))
  {
    hide TrimSpace, RemoteCommand, B.SystemdCommand, ACTION_REGISTRY, ACTION_TYPES, ValidDuration;
    TypesAreRegistered(a.kind);
    ActionKinds(a);
  }

  /** No check and no action of a normal monitor is turned away by dispatch or by its
      handler's test for a missing setting, whatever the target. */
  lemma NothingIsRefused(lib: Library, m: Monitor)
    requires NormalMonitor(lib, m)
    ensures forall j | 0 <= j < |m.checks| :: !Refused(StartCheck(m.target, m.checks[j]))
    ensures forall j | 0 <= j < |m.recovery| :: !Refused(StartAction(m.target, m.recovery[j]))
  {
    hide ValidCheck, ValidAction, StartCheck, StartAction, TrimSpace, ValidTarget, CanonicalChecks, CanonicalActions,
         Refused;
    ChecksAreValid(lib, m.checks, 0);
    ActionsAreValid(lib, m.recovery, 0);
    forall j | 0 <= j < |m.checks| ensures !Refused(StartCheck(m.target, m.checks[j])) {
      ValidCheckStarts(lib, m.target, m.checks[j]);
    }
    forall j | 0 <= j < |m.recovery| ensures !Refused(StartAction(m.target, m.recovery[j])) {
      ValidActionStarts(lib, m.target, m.recovery[j]);
    }
  }

  /** The settings a handler reads besides those it tests for itself. */
  predicate InRange(lib: Library, h: CheckHandler, c: Check) {
    match h
    case HTTPJSON => !Blank(c.url) && (Blank(c.timeout) || Span(lib, c.timeout, 1))
    case IOPaths => c.paths != []
    case DockerLogPattern =>
      && c.patterns != [] && (Blank(c.since) || Span(lib, c.since, 1))
      && c.matchCountThreshold >= 0 && c.distinctThreshold >= 0
    case _ => true
  }

  /** A check is valid exactly when there is a handler for it, the handler does not turn it away,
      what else it reads is in range, and every pattern compiles. */
  lemma CheckIsValidExactly(lib: Library, t: Target, c: Check)
    ensures ValidCheck(lib, c) <==>
            && c.kind in CHECK_REGISTRY && !Refused(StartCheck(t, c)) && InRange(lib, CHECK_REGISTRY[c.kind], c)
            && forall p | p in c.patterns + c.successPatterns + c.expectedPatterns + c.forbiddenPatterns ::
                 lib.compiles(p)
  {
    hide TrimSpace, RemoteCommand, B.SystemdCommand, CHECK_REGISTRY, CHECK_TYPES;
    TypesAreRegistered(c.kind);
    if c.kind in CHECK_REGISTRY {
      CheckKinds(c);
      OtherCheckKinds(c);
    }
  }

  lemma OtherCheckKinds(c: Check)
    requires c.kind in CHECK_REGISTRY
    ensures CHECK_REGISTRY[c.kind].HTTPJSON? <==> c.kind == "http_json"
    ensures CHECK_REGISTRY[c.kind].IOPaths? <==> c.kind == "io_paths"
    ensures CHECK_REGISTRY[c.kind].Load? <==> c.kind == "load"
    ensures CHECK_REGISTRY[c.kind].Memory? <==> c.kind == "memory"
    ensures CHECK_REGISTRY[c.kind].IOPressure? <==> c.kind == "io_pressure"
  {
  }

  /** The same of an action; of the settings only the time to sleep is not tested again. */
  lemma ActionIsValidExactly(lib: Library, t: Target, a: Action)
    ensures ValidAction(lib, a) <==>
            && a.kind in ACTION_REGISTRY && !Refused(StartAction(t, a))
            && (ACTION_REGISTRY[a.kind].Sleep? ==> !Blank(a.duration) && Span(lib, a.duration, 0))
  {
    hide TrimSpace, RemoteCommand, B.SystemdCommand, ACTION_REGISTRY, ACTION_TYPES;
    TypesAreRegistered(a.kind);
    if a.kind in ACTION_REGISTRY {
      ActionKinds(a);
      OtherActionKinds(a);
    }
  }

  lemma OtherActionKinds(a: Action)
    requires a.kind in ACTION_REGISTRY
    ensures ACTION_REGISTRY[a.kind].Sleep? <==> a.kind == "sleep"
    ensures ACTION_REGISTRY[a.kind].Recheck? <==> a.kind == "recheck"
  {
  }

  /** A command of the monitor's own is run as it is written; what is left needs no command. */
  lemma OwnCommands(lib: Library, m: Monitor)
    requires NormalMonitor(lib, m)
    ensures forall j | 0 <= j < |m.checks| && CheckWords(m.checks[j]).None? ::
              StartCheck(m.target, m.checks[j])
              == if m.checks[j].kind == "command" then Line(m.checks[j].command) else Inside
    ensures forall j | 0 <= j < |m.recovery| && ActionWords(m.target, m.recovery[j]).None? ::
              StartAction(m.target, m.recovery[j])
              == if m.recovery[j].kind == "command" then Line(m.recovery[j].command) else Inside
  {
    hide ValidCheck, ValidAction, StartCheck, StartAction, TrimSpace, ValidTarget, CanonicalChecks, CanonicalActions,
         CheckWords, ActionWords;
    ChecksAreValid(lib, m.checks, 0);
    ActionsAreValid(lib, m.recovery, 0);
    forall j | 0 <= j < |m.checks| && CheckWords(m.checks[j]).None?
      ensures StartCheck(m.target, m.checks[j])
              == if m.checks[j].kind == "command" then Line(m.checks[j].command) else Inside
    {
      OwnCheck(lib, m.target, m.checks[j]);
    }
    forall j | 0 <= j < |m.recovery| && ActionWords(m.target, m.recovery[j]).None?
      ensures StartAction(m.target, m.recovery[j])
              == if m.recovery[j].kind == "command" then Line(m.recovery[j].command) else Inside
    {
      OwnAction(lib, m.target, m.recovery[j]);
    }
  }

  lemma OwnCheck(lib: Library, t: Target, c: Check)
    requires ValidCheck(lib, c) && CheckWords(c).None?
    ensures StartCheck(t, c) == if c.kind == "command" then Line(c.command) else Inside
  {
    hide TrimSpace, RemoteCommand, B.SystemdCommand, CHECK_REGISTRY, CHECK_TYPES, Compile, ValidDuration;
    TypesAreRegistered(c.kind);
    CheckKinds(c);
  }

  lemma OwnAction(lib: Library, t: Target, a: Action)
    requires ValidAction(lib, a) && ActionWords(t, a).None?
    ensures StartAction(t, a) == if a.kind == "command" then Line(a.command) else Inside
  {
    hide TrimSpace, RemoteCommand, B.SystemdCommand, ACTION_REGISTRY, ACTION_TYPES, ValidDuration, IsLocal;
    TypesAreRegistered(a.kind);
    ActionKinds(a);
  }

  // ---- where the command line ends up

  /** Running line has cmd run where the target says: by the shell that reads line itself,
      or on the target's hosts in turn. */
  ghost predicate Arrives(t: Target, line: string, cmd: string, replies: S.Replies) {
    if IsLocal(t) then line == cmd
    else exists n: nat, o: S.Outcome ::
      S.Shell(line, replies) == Some(o) && n > 0 && Tries(t, HostsOf(t), cmd, replies, 0, n, o.calls, o.status)
  }

  /** The logs command sends its errors after its output; no other redirects anything. */
  ghost predicate Reads(cmd: string, words: seq<string>, merged: bool) {
    if merged then
      exists read :: L.Arguments(L.Words(read)) == Some(words)
        && L.Lex(cmd) == Some(L.Words(read) + [L.IoNumber("2"), L.Operator(">&"), L.Word(L.AsPlain("1"))])
    else AsCommand(cmd) == Some(words)
  }

  /** What a check means to run where the monitored thing lives, if it goes through a target. */
  function CheckWords(c: Check): Option<seq<string>> {
    if c.kind == "docker_container" then Some(["docker", "inspect", "-f", "{{.State.Running}}", c.container])
    else if c.kind == "docker_log_pattern" then
      Some(["docker", "logs", "--timestamps", "--since", Default(c.since, "10m"), c.container])
    else if c.kind == "docker_exec" then Some(["docker", "exec", c.container, "sh", "-lc", c.dockerCommand])
    else if c.kind == "systemd_service" then Some(["systemctl", "is-active", "--quiet", TrimSpace(c.service)])
    else None
  }

  /** The same for an action; sudo is asked for on an ssh target alone. */
  function ActionWords(t: Target, a: Action): Option<seq<string>> {
    if a.kind == "docker_exec" then Some(["docker", "exec", a.container, "sh", "-lc", a.command])
    else if a.kind == "restart_docker_container" then Some(["docker", "restart", TrimSpace(a.container)])
    else if a.kind == "restart_systemd_service" then
      Some((if IsLocal(t) then [] else ["sudo", "-n"]) + ["systemctl", "restart", TrimSpace(a.service)])
    else None
  }

  lemma RemoteArrives(t: Target, cmd: string, replies: S.Replies)
    requires ValidTarget(t)
    ensures Arrives(t, RemoteCommand(t, cmd), cmd, replies)
  {
    hide TrimSpace, HostsOf, S.Shell, Tries, ValidTarget, BuildSSHCommand, Attempts, Join;
    ValidTargetHasHosts(t);
    if !IsLocal(t) {
      FallbackIsCorrect(t, cmd, replies);
    }
  }

  lemma SystemdArrives(t: Target, cmd: string, replies: S.Replies)
    requires ValidTarget(t)
    ensures Arrives(t, B.SystemdCommand(t, cmd), cmd, replies)
  {
    hide TrimSpace, HostsOf, S.Shell, Tries, ValidTarget, RemoteCommand, Arrives;
    ValidTargetHasHosts(t);
    RemoteArrives(t, cmd, replies);
    if TrimSpace(t.transport) != "ssh" {
      assert IsLocal(t);
      LocalArrives(t, cmd, replies);
    }
  }

  lemma LocalArrives(t: Target, cmd: string, replies: S.Replies)
    requires IsLocal(t)
    ensures Arrives(t, cmd, cmd, replies)
  {
  }

  lemma LogsRead(container: string, since: string)
    ensures Reads(B.DockerLogs(container, since), ["docker", "logs", "--timestamps", "--since", since, container], true)
  {
    hide L.Lex, L.Arguments, B.DockerLogs;
    B.LogsReads(container, since);
  }

  /** The check starts the line, the line has cmd run on the target, and cmd is the intended words. */
  ghost predicate CheckGoes(t: Target, c: Check, replies: S.Replies, line: string, cmd: string) {
    && StartCheck(t, c) == Line(line) && Arrives(t, line, cmd, replies)
    && CheckWords(c).Some? && Reads(cmd, CheckWords(c).value, c.kind == "docker_log_pattern")
  }

  ghost predicate ActionGoes(t: Target, a: Action, replies: S.Replies, line: string, cmd: string) {
    && StartAction(t, a) == Line(line) && Arrives(t, line, cmd, replies)
    && ActionWords(t, a).Some? && Reads(cmd, ActionWords(t, a).value, false)
  }

  /** From the configuration to the program that runs: each check of a normal monitor that
      goes through its target starts a command line which, once every shell on the way has
      read it, is exactly the intended words on the intended machine. */
  lemma CheckArrives(lib: Library, m: Monitor, j: nat, replies: S.Replies)
    requires NormalMonitor(lib, m) && j < |m.checks| && CheckWords(m.checks[j]).Some?
    ensures exists line, cmd :: CheckGoes(m.target, m.checks[j], replies, line, cmd)
  {
    hide ValidCheck, StartCheck, CheckGoes, CheckWords, TrimSpace, ValidTarget, CanonicalChecks, CanonicalActions;
    ChecksAreValid(lib, m.checks, 0);
    ValidCheckArrives(lib, m.target, m.checks[j], replies);
  }

  lemma ValidCheckArrives(lib: Library, t: Target, c: Check, replies: S.Replies)
    requires ValidCheck(lib, c) && ValidTarget(t) && CheckWords(c).Some?
    ensures exists line, cmd :: CheckGoes(t, c, replies, line, cmd)
  {
    hide TrimSpace, RemoteCommand, B.SystemdCommand, CHECK_REGISTRY, CHECK_TYPES, Compile, ValidDuration, ValidTarget,
         Arrives, Reads, AsCommand, Default, B.DockerInspect, B.DockerLogs, B.DockerExec, B.SystemdIsActive;
    TypesAreRegistered(c.kind);
    CheckKinds(c);
    var cmd := CheckCommand(c);
    CheckReads(c);
    RemoteArrives(t, cmd, replies);
    SystemdArrives(t, cmd, replies);
    assert CheckGoes(t, c, replies, RemoteCommand(t, cmd), cmd)
      || CheckGoes(t, c, replies, B.SystemdCommand(t, cmd), cmd);
  }

  function CheckCommand(c: Check): string {
    if c.kind == "docker_container" then B.DockerInspect(c.container)
    else if c.kind == "docker_log_pattern" then B.DockerLogs(c.container, Default(c.since, "10m"))
    else if c.kind == "docker_exec" then B.DockerExec(c.container, c.dockerCommand)
    else B.SystemdIsActive(TrimSpace(c.service))
  }

  lemma CheckReads(c: Check)
    requires CheckWords(c).Some?
    ensures Reads(CheckCommand(c), CheckWords(c).value, c.kind == "docker_log_pattern")
  {
    hide TrimSpace, AsCommand, B.DockerInspect, B.DockerLogs, B.DockerExec, B.SystemdIsActive, L.Lex, L.Arguments;
    B.InspectReads(c.container);
    LogsRead(c.container, Default(c.since, "10m"));
    B.ExecReads(c.container, c.dockerCommand);
    B.IsActiveReads(TrimSpace(c.service));
  }

  /** The same for the recovery actions. */
  lemma ActionArrives(lib: Library, m: Monitor, j: nat, replies: S.Replies)
    requires NormalMonitor(lib, m) && j < |m.recovery| && ActionWords(m.target, m.recovery[j]).Some?
    ensures exists line, cmd :: ActionGoes(m.target, m.recovery[j], replies, line, cmd)
  {
    hide ValidAction, StartAction, ActionGoes, ActionWords, TrimSpace, ValidTarget, CanonicalChecks, CanonicalActions;
    ActionsAreValid(lib, m.recovery, 0);
    ValidActionArrives(lib, m.target, m.recovery[j], replies);
  }

  lemma ValidActionArrives(lib: Library, t: Target, a: Action, replies: S.Replies)
    requires ValidAction(lib, a) && ValidTarget(t) && ActionWords(t, a).Some?
    ensures exists line, cmd :: ActionGoes(t, a, replies, line, cmd)
  {
    hide TrimSpace, RemoteCommand, B.SystemdCommand, ACTION_REGISTRY, ACTION_TYPES, ValidDuration, ValidTarget,
         Arrives, Reads, AsCommand, IsLocal, B.DockerExec, B.DockerRestart, B.SystemdRestart;
    TypesAreRegistered(a.kind);
    ActionKinds(a);
    var cmd := ActionCommand(t, a);
    ActionReads(t, a);
    RemoteArrives(t, cmd, replies);
    SystemdArrives(t, cmd, replies);
    assert ActionGoes(t, a, replies, RemoteCommand(t, cmd), cmd)
      || ActionGoes(t, a, replies, B.SystemdCommand(t, cmd), cmd);
  }

  function ActionCommand(t: Target, a: Action): string {
    if a.kind == "docker_exec" then B.DockerExec(a.container, a.command)
    else if a.kind == "restart_docker_container" then B.DockerRestart(TrimSpace(a.container))
    else B.SystemdRestart(t, TrimSpace(a.service))
  }

  lemma ActionReads(t: Target, a: Action)
    requires ValidTarget(t) && ActionWords(t, a).Some?
    ensures Reads(ActionCommand(t, a), ActionWords(t, a).value, false)
  {
    hide TrimSpace, AsCommand, B.DockerExec, B.DockerRestart, B.SystemdRestart, HostsOf, ValidTarget;
    B.ExecReads(a.container, a.command);
    B.RestartReads(TrimSpace(a.container));
    B.SystemdRestartReads(t, TrimSpace(a.service));
    ValidTargetHasHosts(t);
  }
}
