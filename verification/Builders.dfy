/**
 The docker and systemd commands of internal/command/runner.go, and what arrives
 behind the last of the shells they pass through.
 */
module Builders {
  import opened Wrappers
  import opened Text
  import opened ShellLexer
  import opened CommandLine
  import opened Remote
  import opened Fallback
  import S = ShellScript

  // ---- the commands to be run where the monitored thing lives

  function DockerInspect(container: string): string {
    "docker inspect -f " + "'{{.State.Running}}'" + " " + ShellQuote(container)
  }

  function DockerLogs(container: string, since: string): string {
    "docker logs --timestamps --since " + ShellQuote(since) + " " + ShellQuote(container) + " 2>&1"
  }

  function DockerExec(container: string, command: string): string {
    "docker exec " + ShellQuote(container) + " sh -lc " + ShellQuote(command)
  }

  function DockerRestart(container: string): string {
    "docker restart " + ShellQuote(container)
  }

  function SystemdIsActive(service: string): string {
    "systemctl is-active --quiet " + ShellQuote(service)
  }

  function SystemdRestart(t: Target, service: string): string {
    (if TrimSpace(t.transport) == "ssh" then "sudo -n " else "") + ("systemctl restart " + ShellQuote(service))
  }

  /** buildSystemdCommand */
  function SystemdCommand(t: Target, command: string): string {
    if TrimSpace(t.transport) == "ssh" then RemoteCommand(t, command) else command
  }

  // ---- what a shell reads in them

  lemma {:induction false} NothingToEscape(s: string)
    requires forall k | 0 <= k < |s| :: s[k] != '\''
    ensures Escaped(s) == s
  {
    if s != "" {
      NothingToEscape(s[1..]);
    }
  }

  /** The texts before a first and a last quoted argument, word by word. */
  lemma Leading(text: string, words: seq<string>, last: string)
    requires words != [] && (forall k | 0 <= k < |words| :: Sound(Bare(words[k])))
    requires text == Join(words, " ") && '=' !in words[0] && !Reserved(AsPlain(words[0]))
    ensures AsCommand(text + " " + ShellQuote(last)) == Some(words + [last])
  {
    hide AsCommand, AsPlain, Reserved, Sound, ShellQuote, Join;
    var parts := BareAll(words) + [InQuotes(last)];
    assert parts[0] == Bare(words[0]);
    SoundQuotes(last);
    LineIsCommand(parts);
    assert WrittenAll(parts) == words + [ShellQuote(last)];
    JoinLast(words, ShellQuote(last));
    assert Texts(parts) == words + [last];
  }

  lemma {:induction false} JoinLast(words: seq<string>, last: string)
    requires words != []
    ensures Join(words + [last], " ") == Join(words, " ") + " " + last
  {
    if |words| > 1 {
      JoinLast(words[1..], last);
      assert (words + [last])[1..] == words[1..] + [last];
      assert words[0] + " " + (Join(words[1..], " ") + " " + last)
        == words[0] + " " + Join(words[1..], " ") + " " + last;
    } else {
      assert (words + [last])[1..] == [last];
    }
  }

  lemma CommandNames()
    ensures !Reserved(AsPlain("docker")) && !Reserved(AsPlain("systemctl")) && !Reserved(AsPlain("sudo"))
  {
    NotReserved(AsPlain("sudo"));
    NotReserved(AsPlain("systemctl"));
    forall text | text in RESERVED ensures AsPlain("docker") != AsPlain(text) {
      assert |AsPlain(text)| == |text| && |AsPlain("docker")| == 6;
    }
  }

  lemma Words2(a: string, b: string)
    ensures Join([a, b], " ") == a + " " + b
  {
    assert [a, b][1..] == [b];
  }

  lemma Words3(a: string, b: string, c: string)
    ensures Join([a, b, c], " ") == a + " " + (b + " " + c)
  {
    assert [a, b, c][1..] == [b, c];
    Words2(b, c);
  }

  lemma RestartReads(container: string)
    ensures AsCommand(DockerRestart(container)) == Some(["docker", "restart", container])
  {
    hide AsCommand, ShellQuote, Reserved, Sound;
    CommandNames();
    Inert("docker");
    Inert("restart");
    Words2("docker", "restart");
    Leading("docker" + " " + "restart", ["docker", "restart"], container);
    assert "docker" + " " + "restart" + " " + ShellQuote(container) == DockerRestart(container);
    assert ["docker", "restart"] + [container] == ["docker", "restart", container];
  }

  lemma IsActiveReads(service: string)
    ensures AsCommand(SystemdIsActive(service)) == Some(["systemctl", "is-active", "--quiet", service])
  {
    hide AsCommand, ShellQuote, Reserved, Sound;
    CommandNames();
    Inert("systemctl");
    Inert("is-active");
    Inert("--quiet");
    Words3("systemctl", "is-active", "--quiet");
    var words := ["systemctl", "is-active", "--quiet"];
    assert words + [service] == ["systemctl", "is-active", "--quiet", service];
    IsActiveText();
    Leading("systemctl is-active --quiet", words, service);
    LastSpace("systemctl is-active --quiet", ShellQuote(service));
    IsActivePrefix();
  }

  lemma IsActiveText()
    ensures "systemctl" + " " + ("is-active" + " " + "--quiet") == "systemctl is-active --quiet"
  {
  }

  lemma IsActivePrefix()
    ensures "systemctl is-active --quiet" + " " == "systemctl is-active --quiet "
  {
  }

  lemma LastSpace(a: string, b: string)
    ensures a + " " + b == (a + " ") + b
  {
  }

  lemma InspectAny(format: string, container: string)
    ensures AsCommand("docker inspect -f " + ShellQuote(format) + " " + ShellQuote(container))
         == Some(["docker", "inspect", "-f", format, container])
  {
    hide AsCommand, Reserved, Sound, Lex, ShellQuote;
    CommandNames();
    Inert("docker");
    Inert("inspect");
    Inert("-f");
    SoundQuotes(format);
    SoundQuotes(container);
    var parts := [Bare("docker"), Bare("inspect"), Bare("-f"), InQuotes(format), InQuotes(container)];
    LineIsCommand(parts);
    assert Texts(parts) == ["docker", "inspect", "-f", format, container];
    assert WrittenAll(parts) == ["docker", "inspect", "-f", ShellQuote(format), ShellQuote(container)];
    Words5("docker", "inspect", "-f", ShellQuote(format), ShellQuote(container));
    InspectText(ShellQuote(format), ShellQuote(container));
  }

  lemma InspectReads(container: string)
    ensures AsCommand(DockerInspect(container)) == Some(["docker", "inspect", "-f", "{{.State.Running}}", container])
  {
    hide AsCommand, ShellQuote;
    FormatQuoted();
    InspectAny("{{.State.Running}}", container);
  }

  lemma InspectText(a: string, b: string)
    ensures "docker" + " " + ("inspect" + " " + ("-f" + " " + (a + " " + b))) == "docker inspect -f " + a + " " + b
  {
    assert "docker" + " " + ("inspect" + " " + ("-f" + " " + (a + " " + b))) == "docker inspect -f " + (a + " " + b);
  }

  lemma FormatQuoted()
    ensures ShellQuote("{{.State.Running}}") == "'{{.State.Running}}'"
  {
    hide Escaped;
    NothingToEscape("{{.State.Running}}");
  }

  lemma SoundQuotes(s: string)
    ensures Sound(InQuotes(s))
  {
  }

  lemma Words5(a: string, b: string, c: string, d: string, e: string)
    ensures Join([a, b, c, d, e], " ") == a + " " + (b + " " + (c + " " + (d + " " + e)))
  {
    assert [a, b, c, d, e][1..] == [b, c, d, e] && [b, c, d, e][1..] == [c, d, e];
    Words3(c, d, e);
  }

  lemma Words6(a: string, b: string, c: string, d: string, e: string, f: string)
    ensures Join([a, b, c, d, e, f], " ") == a + " " + (b + " " + (c + " " + (d + " " + (e + " " + f))))
  {
    assert [a, b, c, d, e, f][1..] == [b, c, d, e, f];
    Words5(b, c, d, e, f);
  }

  lemma ExecReads(container: string, command: string)
    ensures AsCommand(DockerExec(container, command)) == Some(["docker", "exec", container, "sh", "-lc", command])
  {
    hide AsCommand, Reserved, Sound, ShellQuote, Lex;
    CommandNames();
    Inert("docker");
    Inert("exec");
    Inert("sh");
    Inert("-lc");
    SoundQuotes(container);
    SoundQuotes(command);
    var parts := [Bare("docker"), Bare("exec"), InQuotes(container), Bare("sh"), Bare("-lc"), InQuotes(command)];
    LineIsCommand(parts);
    assert Texts(parts) == ["docker", "exec", container, "sh", "-lc", command];
    assert WrittenAll(parts) == ["docker", "exec", ShellQuote(container), "sh", "-lc", ShellQuote(command)];
    Words6("docker", "exec", ShellQuote(container), "sh", "-lc", ShellQuote(command));
    ExecText(ShellQuote(container), ShellQuote(command));
  }

  lemma ExecText(a: string, b: string)
    ensures "docker" + " " + ("exec" + " " + (a + " " + ("sh" + " " + ("-lc" + " " + b))))
         == "docker exec " + a + " sh -lc " + b
  {
    assert " " + ("sh" + " " + ("-lc" + " " + b)) == " sh -lc " + b;
    assert "docker" + " " + ("exec" + " " + (a + " sh -lc " + b)) == "docker exec " + (a + " sh -lc " + b);
  }

  /** An ssh call to the host whose remote command is docker exec of exactly this. */
  ghost predicate Delivers(t: Target, host: string, container: string, command: string, call: seq<string>) {
    && |call| >= 2 && Addresses(t, host, call[|call| - 2])
    && AsCommand(call[|call| - 1]) == Some(["docker", "exec", container, "sh", "-lc", command])
  }

  ghost predicate AllDeliver(
    t: Target, hosts: seq<string>, container: string, command: string, calls: seq<seq<string>>)
  {
    |calls| <= |hosts| && forall k | 0 <= k < |calls| :: Delivers(t, hosts[k], container, command, calls[k])
  }

  lemma OneDelivers(t: Target, host: string, container: string, command: string)
    ensures Delivers(t, host, container, command, SSHArguments(t, host, DockerExec(container, command)))
  {
    hide AsCommand, DockerExec, SSHArguments;
    ExecReads(container, command);
    SSHOperands(t, host, DockerExec(container, command));
  }

  lemma TriedDeliver(
    t: Target, hosts: seq<string>, container: string, command: string, replies: S.Replies, n: nat,
    calls: seq<seq<string>>, status: nat)
    requires Tries(t, hosts, DockerExec(container, command), replies, 0, n, calls, status)
    ensures AllDeliver(t, hosts, container, command, calls)
  {
    hide Delivers, DockerExec, SSHArguments;
    forall k | 0 <= k < |calls| ensures Delivers(t, hosts[k], container, command, calls[k]) {
      OneDelivers(t, hosts[k], container, command);
    }
  }

  /** All the way: on every host the script asks, the remote shell runs docker exec with
      the container's name as it is, and the shell in the container is given the command
      as it is, whatever characters container and command hold. */
  lemma ThreeLayers(t: Target, container: string, command: string, replies: S.Replies)
    requires !IsLocal(t) && HostsOf(t) != []
    ensures exists n: nat, o: S.Outcome ::
              && S.Shell(RemoteCommand(t, DockerExec(container, command)), replies) == Some(o)
              && n > 0 && Tries(t, HostsOf(t), DockerExec(container, command), replies, 0, n, o.calls, o.status)
              && AllDeliver(t, HostsOf(t), container, command, o.calls)
  {
    hide HostsOf, S.Shell, IsLocal, RemoteCommand, DockerExec, Tries, AllDeliver;
    var remote := DockerExec(container, command);
    FallbackIsCorrect(t, remote, replies);
    var n: nat, o: S.Outcome :|
      S.Shell(RemoteCommand(t, remote), replies) == Some(o) && n > 0
      && Tries(t, HostsOf(t), remote, replies, 0, n, o.calls, o.status);
    TriedDeliver(t, HostsOf(t), container, command, replies, n, o.calls, o.status);
  }

  /** The same command on the monitor's own machine passes two shells. */
  lemma TwoLayers(t: Target, container: string, command: string)
    requires IsLocal(t) || HostsOf(t) == []
    ensures AsCommand(RemoteCommand(t, DockerExec(container, command)))
         == Some(["docker", "exec", container, "sh", "-lc", command])
  {
    hide AsCommand, DockerExec;
    ExecReads(container, command);
  }

  /** The redirection at the end of the logs command is the only thing in it that is no argument. */
  lemma LogsReads(container: string, since: string)
    ensures exists words ::
      && Lex(DockerLogs(container, since)) == Some(Words(words) + [IoNumber("2"), Operator(">&"), Word(AsPlain("1"))])
      && Arguments(Words(words)) == Some(["docker", "logs", "--timestamps", "--since", since, container])
  {
    hide Lex, Sound, ShellQuote, Line, Yields;
    Inert("docker");
    Inert("logs");
    Inert("--timestamps");
    Inert("--since");
    SoundQuotes(since);
    SoundQuotes(container);
    var parts := [Bare("docker"), Bare("logs"), Bare("--timestamps"), Bare("--since"), InQuotes(since),
                  InQuotes(container)];
    PartsLine(parts);
    PartsArguments(parts);
    assert Texts(parts) == ["docker", "logs", "--timestamps", "--since", since, container];
    assert WrittenAll(parts) == ["docker", "logs", "--timestamps", "--since", ShellQuote(since), ShellQuote(container)];
    Words6("docker", "logs", "--timestamps", "--since", ShellQuote(since), ShellQuote(container));
    var text := Join(WrittenAll(parts), " ");
    LineThenSpace(text, ReadParts(parts));
    Redirected(text + " ", Words(ReadParts(parts)));
    LogsText(ShellQuote(since), ShellQuote(container));
    assert text + " " + "2>&1" == DockerLogs(container, since);
  }

  lemma LogsText(a: string, b: string)
    ensures "docker" + " " + ("logs" + " " + ("--timestamps" + " " + ("--since" + " " + (a + " " + b)))) + " " + "2>&1"
         == "docker logs --timestamps --since " + a + " " + b + " 2>&1"
  {
    assert "docker" + " " + ("logs" + " " + ("--timestamps" + " " + ("--since" + " " + (a + " " + b))))
        == "docker logs --timestamps --since " + (a + " " + b);
  }

  lemma ReadsTwoOut(x: seq<Token>)
    ensures ReadAll(Lexer(x, [], Blank), "2>") == Lexer(x + [IoNumber("2")], [], Operating('>'))
  {
    hide ReadAll;
    var l0 := Lexer(x, [], Blank);
    var l1 := Lexer(x, [Plain('2')], InWord);
    ReadTwo(l0, '2', '>');
    assert ['2', '>'] == "2>";
    assert [] + [Plain('2')] == [Plain('2')];
    assert ShellLexer.Read(l0, '2') == l1;
    assert Spelling([Plain('2')]) == "2";
  }

  lemma ReadsToOne(x: seq<Token>)
    ensures ReadAll(Lexer(x, [], Operating('>')), "&1") == Lexer(x + [Operator(">&")], [Plain('1')], InWord)
  {
    hide ReadAll;
    var l0 := Lexer(x, [], Operating('>'));
    var l1 := Lexer(x + [Operator(">&")], [], Blank);
    ReadTwo(l0, '&', '1');
    assert ['&', '1'] == "&1";
    assert ['>', '&'] == ">&";
    assert ShellLexer.Read(l0, '&') == l1;
    assert [] + [Plain('1')] == [Plain('1')];
    assert ShellLexer.Read(l1, '1') == Lexer(l1.tokens, [Plain('1')], InWord);
  }

  lemma Redirected(a: string, x: seq<Token>)
    requires Yields(a, x)
    ensures Lex(a + "2>&1") == Some(x + [IoNumber("2"), Operator(">&"), Word(AsPlain("1"))])
  {
    hide ReadAll, ShellLexer.Read;
    ReadAllAppend(Start, a, "2>&1");
    assert [] + x == x;
    ReadAllAppend(Lexer(x, [], Blank), "2>", "&1");
    assert "2>" + "&1" == "2>&1";
    ReadsTwoOut(x);
    ReadsToOne(x + [IoNumber("2")]);
    assert AsPlain("1") == [Plain('1')];
    assert x + [IoNumber("2")] + [Operator(">&")] + [Word([Plain('1')])]
        == x + [IoNumber("2"), Operator(">&"), Word([Plain('1')])];
  }

  lemma PlainRestartReads(service: string)
    ensures AsCommand("systemctl restart " + ShellQuote(service)) == Some(["systemctl", "restart", service])
  {
    hide AsCommand, ShellQuote, Reserved, Sound;
    CommandNames();
    Inert("systemctl");
    Inert("restart");
    Words2("systemctl", "restart");
    Leading("systemctl" + " " + "restart", ["systemctl", "restart"], service);
    assert "systemctl" + " " + "restart" + " " == "systemctl restart ";
    assert ["systemctl", "restart"] + [service] == ["systemctl", "restart", service];
  }

  lemma SudoRestartReads(service: string)
    ensures AsCommand("sudo -n " + ("systemctl restart " + ShellQuote(service)))
         == Some(["sudo", "-n", "systemctl", "restart", service])
  {
    hide AsCommand, ShellQuote, Reserved, Sound;
    CommandNames();
    Inert("sudo");
    Inert("-n");
    Inert("systemctl");
    Inert("restart");
    var words := ["sudo", "-n", "systemctl", "restart"];
    Words4("sudo", "-n", "systemctl", "restart");
    SudoText();
    Leading("sudo -n systemctl restart", words, service);
    SudoPrefix(ShellQuote(service));
    assert words + [service] == ["sudo", "-n", "systemctl", "restart", service];
  }

  lemma Words4(a: string, b: string, c: string, d: string)
    ensures Join([a, b, c, d], " ") == a + " " + (b + " " + (c + " " + d))
  {
    assert [a, b, c, d][1..] == [b, c, d];
    Words3(b, c, d);
  }

  lemma SudoText()
    ensures "sudo" + " " + ("-n" + " " + ("systemctl" + " " + "restart")) == "sudo -n systemctl restart"
  {
  }

  lemma SudoPrefix(s: string)
    ensures "sudo -n systemctl restart" + " " + s == "sudo -n " + ("systemctl restart " + s)
  {
    assert "sudo -n systemctl restart" + " " == "sudo -n " + "systemctl restart ";
  }

  /** Restarting a service goes through sudo exactly on an ssh target. */
  lemma SystemdRestartReads(t: Target, service: string)
    ensures AsCommand(SystemdRestart(t, service))
         == Some((if TrimSpace(t.transport) == "ssh" then ["sudo", "-n"] else []) + ["systemctl", "restart", service])
  {
    hide AsCommand, ShellQuote, TrimSpace;
    PlainRestartReads(service);
    SudoRestartReads(service);
    var plain := "systemctl restart " + ShellQuote(service);
    assert "" + plain == plain;
    assert ["sudo", "-n"] + ["systemctl", "restart", service] == ["sudo", "-n", "systemctl", "restart", service];
    assert [] + ["systemctl", "restart", service] == ["systemctl", "restart", service];
  }

  /** On an ssh target the restart goes to its hosts like any remote command; on any
      other it is run as it is. */
  lemma SystemdRestartRuns(t: Target, service: string, replies: S.Replies)
    ensures TrimSpace(t.transport) == "ssh" && HostsOf(t) != [] ==>
              exists n: nat, o: S.Outcome ::
                S.Shell(SystemdCommand(t, SystemdRestart(t, service)), replies) == Some(o)
                && n > 0 && Tries(t, HostsOf(t), SystemdRestart(t, service), replies, 0, n, o.calls, o.status)
    ensures TrimSpace(t.transport) != "ssh" ==>
              AsCommand(SystemdCommand(t, SystemdRestart(t, service))) == Some(["systemctl", "restart", service])
  {
    hide AsCommand, S.Shell, TrimSpace, HostsOf, Tries, RemoteCommand, SystemdRestart;
    SystemdRestartReads(t, service);
    if TrimSpace(t.transport) == "ssh" && HostsOf(t) != [] {
      FallbackIsCorrect(t, SystemdRestart(t, service), replies);
    }
    assert [] + ["systemctl", "restart", service] == ["systemctl", "restart", service];
  }
}
