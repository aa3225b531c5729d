/**
 What the script of buildRemoteCommand does when a shell runs it, and what reaches
 the shells behind it.
 */
module Fallback {
  import opened Wrappers
  import opened Text
  import opened ShellLexer
  import opened CommandLine
  import opened Remote
  import S = ShellScript

  // ---- the statements, one by one

  lemma {:induction false} ExpandQuoted(s: string, env: S.Env)
    ensures S.Expand(AsQuoted(s), env, true) == Some(s)
  {
    if s == "" {
      assert AsQuoted(s) == [];
    } else {
      ExpandQuoted(s[1..], env);
      assert AsQuoted(s)[1..] == AsQuoted(s[1..]);
      assert [s[0]] + s[1..] == s;
    }
  }

  lemma {:induction false} ExpandPlain(s: string, env: S.Env, splitting: bool)
    requires forall k | 0 <= k < |s| :: IsInert(s[k])
    ensures S.Expand(AsPlain(s), env, splitting) == Some(s)
  {
    if s == "" {
      assert AsPlain(s) == [];
    } else {
      ExpandPlain(s[1..], env, splitting);
      assert AsPlain(s)[1..] == AsPlain(s[1..]);
      assert [s[0]] + s[1..] == s;
    }
  }

  lemma ExpandPart(p: Part, env: S.Env)
    requires Sound(p)
    ensures S.ExpandWord(CommandLine.Read(p), env) == Some(p.text)
  {
    if p.Bare? {
      forall k | 0 <= k < |p.text| ensures IsInert(p.text[k]) { assert p.text[k] in p.text; }
      ExpandPlain(p.text, env, true);
      assert p.text[0] in p.text && AsPlain(p.text)[0] == Plain(p.text[0]);
    } else {
      ExpandQuoted(p.text, env);
    }
  }

  lemma {:induction false} ExpandParts(parts: seq<Part>, env: S.Env)
    requires AllSound(parts)
    ensures S.ExpandAll(ReadParts(parts), env) == Some(Texts(parts))
  {
    hide Sound, CommandLine.Read, S.ExpandWord;
    if parts == [] {
      assert ReadParts(parts) == [] && Texts(parts) == [];
    } else {
      ExpandPart(parts[0], env);
      ExpandParts(parts[1..], env);
      assert ReadParts(parts)[1..] == ReadParts(parts[1..]);
      assert Texts(parts) == [parts[0].text] + Texts(parts[1..]);
    }
  }

  lemma NoAssignment(w: Pieces)
    requires |w| == 3 && forall k | 0 <= k < 3 :: w[k].Plain? && IsNameChar(w[k].c) && w[k].c != '='
    ensures S.AssignedName(w) == None
  {
    assert S.AssignedName(w[1..][1..][1..]) == None;
    assert S.AssignedName(w[1..][1..]) == None;
    assert S.AssignedName(w[1..]) == None;
  }

  lemma SSHExpands(t: Target, host: string, remote: string, env: S.Env)
    ensures S.ExpandAll(ReadParts(SSHWords(t, host, remote)), env) == Some(SSHArguments(t, host, remote))
  {
    SSHWordsAreSound(t, host, remote);
    hide S.ExpandAll, SSHWords, SSHArguments, ReadParts, Texts, AllSound;
    ExpandParts(SSHWords(t, host, remote), env);
  }

  lemma RunSSH(t: Target, host: string, remote: string, env: S.Env, replies: S.Replies)
    ensures S.Run(S.Simple(ReadParts(SSHWords(t, host, remote))), env, replies)
         == Some(env.(calls := env.calls + [SSHArguments(t, host, remote)], last := replies(|env.calls|)))
  {
    hide S.ExpandAll, S.AssignedName, SSHWords, SSHArguments, ReadParts;
    SSHFirst(t, host, remote);
    SSHExpands(t, host, remote, env);
    NoAssignment(AsPlain("ssh"));
    SSHNamed(t, host, remote);
  }

  lemma SSHNamed(t: Target, host: string, remote: string)
    ensures SSHArguments(t, host, remote) != [] && SSHArguments(t, host, remote)[0] == "ssh"
  {
  }

  lemma AssignsRc(w: Pieces)
    requires |w| >= 3 && w[..3] == AsPlain("rc=")
    ensures S.AssignedName(w) == Some(2) && seq(2, k requires 0 <= k < 2 => w[k].c) == "rc"
    ensures w[0].Plain? && w[1].Plain?
  {
    assert w[..3][0] == w[0] && w[..3][1] == w[1] && w[..3][2] == w[2];
    assert S.AssignedName(w[1..][1..]) == Some(0);
    assert S.AssignedName(w[1..]) == Some(1);
  }

  lemma RunAssignment(w: Pieces, value: string, env: S.Env, replies: S.Replies)
    requires |w| >= 3 && w[..3] == AsPlain("rc=") && S.Expand(w[3..], env, false) == Some(value)
    ensures S.Run(S.Simple([w]), env, replies) == Some(env.(vars := env.vars["rc" := value], last := 0))
  {
    hide S.AssignedName, S.Expand;
    AssignsRc(w);
  }

  lemma RunSet(env: S.Env, replies: S.Replies)
    ensures S.Run(S.Simple([SET]), env, replies) == Some(env.(vars := env.vars["rc" := "255"], last := 0))
  {
    assert SET[..3] == AsPlain("rc=") && SET[3..] == AsPlain("255");
    ExpandPlain("255", env, false);
    RunAssignment(SET, "255", env, replies);
  }

  lemma RunKeep(env: S.Env, replies: S.Replies)
    ensures S.Run(S.Simple([KEEP]), env, replies)
         == Some(env.(vars := env.vars["rc" := Decimal(env.last)], last := 0))
  {
    assert KEEP[..3] == AsPlain("rc=") && KEEP[3..] == [Param("?", false)];
    assert [Param("?", false)][1..] == [] && S.Expand([], env, false) == Some("");
    assert Decimal(env.last) + "" == Decimal(env.last);
    RunAssignment(KEEP, Decimal(env.last), env, replies);
  }

  lemma ExpandRc(env: S.Env, n: nat)
    requires "rc" in env.vars && env.vars["rc"] == Decimal(n)
    ensures S.ExpandWord(RC, env) == Some(Decimal(n))
  {
    assert RC[1..] == [] && S.Expand([], env, true) == Some("");
    assert Decimal(n) + "" == Decimal(n);
  }

  lemma ExpandText(s: string, env: S.Env)
    requires s != "" && forall k | 0 <= k < |s| :: IsInert(s[k])
    ensures S.ExpandWord(AsPlain(s), env) == Some(s)
  {
    Inert(s);
    ExpandPart(Bare(s), env);
  }

  lemma ExpandMore(w: Pieces, text: string, rest: seq<Pieces>, texts: seq<string>, env: S.Env)
    requires S.ExpandWord(w, env) == Some(text) && S.ExpandAll(rest, env) == Some(texts)
    ensures S.ExpandAll([w] + rest, env) == Some([text] + texts)
  {
    hide S.ExpandWord;
    assert ([w] + rest)[1..] == rest;
  }

  lemma ExpandNone(env: S.Env)
    ensures S.ExpandAll([], env) == Some([])
  {
  }

  lemma AssignsNothing(w: Pieces)
    requires w != [] && (!w[0].Plain? || (w[0].c != '=' && !IsNameChar(w[0].c)) || w == AsPlain("exit"))
    ensures S.AssignedName(w) == None
  {
    if w == AsPlain("exit") {
      assert w[1..] == AsPlain("xit");
      NoAssignment(AsPlain("xit"));
    }
  }

  lemma RunExit(w: Pieces, n: nat, env: S.Env, replies: S.Replies)
    requires S.ExpandWord(w, env) == Some(Decimal(n))
    ensures S.Run(S.Simple([AsPlain("exit"), w]), env, replies) == Some(env.(last := n, exited := true))
  {
    hide S.AssignedName, S.ExpandWord, S.ExpandAll;
    AssignsNothing(AsPlain("exit"));
    ExpandText("exit", env);
    ExpandNone(env);
    ExpandMore(w, Decimal(n), [], [], env);
    assert [w] + [] == [w] && [Decimal(n)] + [] == [Decimal(n)];
    ExpandMore(AsPlain("exit"), "exit", [w], [Decimal(n)], env);
    assert [AsPlain("exit")] + [w] == [AsPlain("exit"), w];
    DecimalRoundTrip(n);
  }

  lemma Number255()
    ensures Decimal(255) == "255" && S.IsNumber("255") && ParseDecimal("255") == 255 && Decimal(0) == "0"
  {
    assert Decimal(2) == "2";
    assert Decimal(25) == "2" + "5";
    assert Decimal(255) == "25" + "5";
    DecimalRoundTrip(255);
  }

  lemma RunTest(n: nat, env: S.Env, replies: S.Replies)
    requires "rc" in env.vars && env.vars["rc"] == Decimal(n)
    ensures S.Run(S.Simple(TEST), env, replies) == Some(env.(last := if n != 255 then 0 else 1))
  {
    hide S.AssignedName, S.ExpandWord, S.Expand, S.ExpandAll;
    AssignsNothing(TEST[0]);
    assert S.ExpandWord(TEST[0], env) == Some("[") by { BracketExpands(env); }
    ExpandRc(env, n);
    ExpandText("-ne", env);
    ExpandText("255", env);
    ExpandText("]", env);
    ExpandNone(env);
    ExpandMore(AsPlain("]"), "]", [], [], env);
    ExpandMore(AsPlain("255"), "255", [AsPlain("]")] + [], ["]"] + [], env);
    var w1, x1 := [AsPlain("255")] + ([AsPlain("]")] + []), ["255"] + (["]"] + []);
    ExpandMore(AsPlain("-ne"), "-ne", w1, x1, env);
    ExpandMore(RC, Decimal(n), [AsPlain("-ne")] + w1, ["-ne"] + x1, env);
    var w2, x2 := [RC] + ([AsPlain("-ne")] + w1), [Decimal(n)] + (["-ne"] + x1);
    ExpandMore(TEST[0], "[", w2, x2, env);
    assert [TEST[0]] + w2 == TEST;
    assert ["["] + x2 == ["[", Decimal(n), "-ne", "255", "]"];
    DecimalRoundTrip(n);
    Number255();
  }

  lemma BracketExpands(env: S.Env)
    ensures S.ExpandWord(TEST[0], env) == Some("[")
  {
  }

  // ---- one host

  function Asked(env: S.Env, args: seq<string>, replies: S.Replies): S.Env {
    env.(calls := env.calls + [args], last := replies(|env.calls|))
  }

  lemma RunAttempt(t: Target, host: string, remote: string, env: S.Env, replies: S.Replies)
    ensures var asked := Asked(env, SSHArguments(t, host, remote), replies);
      S.Run(S.AndIf(S.Simple(ReadParts(SSHWords(t, host, remote))), S.Simple(DONE)), env, replies)
      == Some(if env.exited || asked.last != 0 then asked else asked.(exited := true))
  {
    hide S.RunSimple, SSHArguments, SSHWords;
    RunSSH(t, host, remote, env, replies);
    var asked := Asked(env, SSHArguments(t, host, remote), replies);
    Number255();
    ExpandText("0", asked);
    RunExit(AsPlain("0"), 0, asked, replies);
  }

  lemma RunRest(n: nat, env: S.Env, replies: S.Replies)
    requires "rc" in env.vars && env.vars["rc"] == Decimal(n) && !env.exited
    ensures S.Run(S.If([S.Simple(TEST)], [S.Simple(LEAVE)]), env, replies)
         == Some(if n != 255 then env.(last := n, exited := true) else env.(last := 0))
  {
    hide S.RunSimple;
    RunTest(n, env, replies);
    var tested := env.(last := if n != 255 then 0 else 1);
    OneCommand(S.Simple(TEST), env, tested, replies);
    if n == 255 {
      assert S.Run(S.If([S.Simple(TEST)], [S.Simple(LEAVE)]), env, replies) == Some(tested.(last := 0));
    } else {
      ExpandRc(tested, n);
      RunExit(RC, n, tested, replies);
      OneCommand(S.Simple(LEAVE), tested, tested.(last := n, exited := true), replies);
    }
  }

  lemma OneCommand(c: S.Command, env: S.Env, end: S.Env, replies: S.Replies)
    requires S.Run(c, env, replies) == Some(end)
    ensures S.RunList([c], env, replies) == Some(end)
  {
    assert [c][1..] == [];
    assert S.RunList([], end, replies) == Some(end);
  }

  lemma RunFirst(c: S.Command, others: seq<S.Command>, env: S.Env, next: S.Env, replies: S.Replies)
    requires S.Run(c, env, replies) == Some(next)
    ensures S.RunList([c] + others, env, replies)
         == if next.exited then Some(next) else S.RunList(others, next, replies)
  {
    assert ([c] + others)[1..] == others;
  }

  /** After one host: finished with its answer, or on to the next. */
  lemma RunBlock(t: Target, host: string, remote: string, others: seq<S.Command>, env: S.Env, replies: S.Replies)
    requires !env.exited
    ensures var asked := Asked(env, SSHArguments(t, host, remote), replies);
      if asked.last != 255
      then exists end :: S.RunList(Block(t, host, remote) + others, env, replies) == Some(end)
                         && end.calls == asked.calls && end.last == asked.last
      else S.RunList(Block(t, host, remote) + others, env, replies)
           == S.RunList(others, asked.(vars := env.vars["rc" := "255"], last := 0), replies)
  {
    hide S.Run, S.RunList, SSHArguments, SSHWords;
    var asked := Asked(env, SSHArguments(t, host, remote), replies);
    var attempt := S.AndIf(S.Simple(ReadParts(SSHWords(t, host, remote))), S.Simple(DONE));
    var check := S.If([S.Simple(TEST)], [S.Simple(LEAVE)]);
    RunAttempt(t, host, remote, env, replies);
    var first := if asked.last != 0 then asked else asked.(exited := true);
    assert Block(t, host, remote) + others == [attempt] + ([S.Simple([KEEP])] + ([check] + others));
    RunFirst(attempt, [S.Simple([KEEP])] + ([check] + others), env, first, replies);
    if asked.last != 0 {
      RunKeep(asked, replies);
      var kept := asked.(vars := asked.vars["rc" := Decimal(asked.last)], last := 0);
      RunFirst(S.Simple([KEEP]), [check] + others, asked, kept, replies);
      RunRest(asked.last, kept, replies);
      var end := if asked.last != 255 then kept.(last := asked.last, exited := true) else kept.(last := 0);
      RunFirst(check, others, kept, end, replies);
      Number255();
      if asked.last != 255 {
        assert S.RunList(Block(t, host, remote) + others, env, replies) == Some(end);
      }
    } else {
      assert S.RunList(Block(t, host, remote) + others, env, replies) == Some(first);
    }
  }

  // ---- all hosts

  function Calls(t: Target, hosts: seq<string>, remote: string): seq<seq<string>> {
    seq(|hosts|, k requires 0 <= k < |hosts| => SSHArguments(t, hosts[k], remote))
  }

  /** The first n hosts are asked, in order: all but the last of them answered 255,
      the last one otherwise unless no host is left, and its answer is the status. */
  ghost predicate Tries(
    t: Target, hosts: seq<string>, remote: string, replies: S.Replies, first: nat, n: nat,
    calls: seq<seq<string>>, status: nat)
  {
    && n <= |hosts| && calls == Calls(t, hosts[..n], remote)
    && (forall k | first <= k < first + n - 1 :: replies(k) == 255)
    && (n < |hosts| ==> n > 0 && replies(first + n - 1) != 255)
    && status == if n == 0 then 255 else replies(first + n - 1)
  }

  lemma {:induction false} RunBlocks(t: Target, hosts: seq<string>, remote: string, env: S.Env, replies: S.Replies)
    returns (n: nat, end: S.Env)
    requires !env.exited && "rc" in env.vars && env.vars["rc"] == "255"
    ensures S.RunList(Blocks(t, hosts, remote), env, replies) == Some(end) && |env.calls| <= |end.calls|
    ensures end.calls[..|env.calls|] == env.calls
    ensures Tries(t, hosts, remote, replies, |env.calls|, n, end.calls[|env.calls|..], end.last)
    decreases |hosts|
  {
    hide S.RunList, S.Run, Block, SSHArguments;
    if hosts == [] {
      Number255();
      ExpandRc(env, 255);
      RunExit(RC, 255, env, replies);
      n, end := 0, env.(last := 255, exited := true);
      OneCommand(S.Simple(LEAVE), env, end, replies);
      assert end.calls[|env.calls|..] == Calls(t, hosts[..0], remote);
    } else {
      var others := Blocks(t, hosts[1..], remote);
      var asked := Asked(env, SSHArguments(t, hosts[0], remote), replies);
      RunBlock(t, hosts[0], remote, others, env, replies);
      if asked.last != 255 {
        end :| S.RunList(Block(t, hosts[0], remote) + others, env, replies) == Some(end)
               && end.calls == asked.calls && end.last == asked.last;
        n := 1;
        assert end.calls[|env.calls|..] == Calls(t, hosts[..1], remote);
      } else {
        n, end := RunBlocks(t, hosts[1..], remote, asked.(vars := env.vars["rc" := "255"], last := 0), replies);
        TriesMore(t, hosts, remote, env.calls, replies, n, end.calls, end.last);
        n := n + 1;
      }
    }
  }

  lemma TriesMore(
    t: Target, hosts: seq<string>, remote: string, before: seq<seq<string>>, replies: S.Replies, n: nat,
    calls: seq<seq<string>>, status: nat)
    requires hosts != [] && replies(|before|) == 255 && |before| + 1 <= |calls|
    requires calls[..|before| + 1] == before + [SSHArguments(t, hosts[0], remote)]
    requires Tries(t, hosts[1..], remote, replies, |before| + 1, n, calls[|before| + 1..], status)
    ensures calls[..|before|] == before
    ensures Tries(t, hosts, remote, replies, |before|, n + 1, calls[|before|..], status)
  {
    hide SSHArguments;
    var all := before + [SSHArguments(t, hosts[0], remote)];
    assert calls[..|before|] == calls[..|before| + 1][..|before|] == before;
    assert calls[|before|] == calls[..|before| + 1][|before|];
    assert calls[|before|..] == [calls[|before|]] + calls[|before| + 1..];
    assert Calls(t, hosts[..n + 1], remote) == [SSHArguments(t, hosts[0], remote)] + Calls(t, hosts[1..][..n], remote);
  }

  /** A single ssh command is a script of its own. */
  lemma RunsAlone(t: Target, host: string, remote: string, replies: S.Replies)
    ensures S.Shell(BuildSSHCommand(t, host, remote), replies)
         == Some(S.Outcome([SSHArguments(t, host, remote)], replies(0)))
  {
    hide Yields, Line, Lex, S.ParseCommand, S.Run, SSHArguments, SSHWords, BuildSSHCommand, Reserved;
    var text, words := BuildSSHCommand(t, host, remote), ReadParts(SSHWords(t, host, remote));
    SSHLine(t, host, remote);
    YieldsNothing();
    LineAtEnd("", [], text, words);
    assert "" + text == text && [] + Words(words) == Words(words) == Words(words) + [];
    SSHFirst(t, host, remote);
    Unreserved();
    S.ParsesSimple(words, []);
    assert Lex(text) == Some(Words(words));
    assert S.ParseAndOr(Words(words)) == S.Done(S.Simple(words), []);
    assert S.ParseList(Words(words)) == S.Done([S.Simple(words)], []);
    assert S.Parse(text) == Some([S.Simple(words)]);
    var env := S.Env(map[], 0, [], false);
    RunSSH(t, host, remote, env, replies);
    OneCommand(S.Simple(words), env, Asked(env, SSHArguments(t, host, remote), replies), replies);
    assert [] + [SSHArguments(t, host, remote)] == [SSHArguments(t, host, remote)];
  }

  lemma RunsScript(t: Target, hosts: seq<string>, remote: string, replies: S.Replies) returns (n: nat, o: S.Outcome)
    requires hosts != []
    ensures S.Shell(Join(["rc=255"] + Attempts(t, hosts, remote) + [LAST], "; "), replies) == Some(o)
    ensures Tries(t, hosts, remote, replies, 0, n, o.calls, o.status)
  {
    hide S.Parse, S.RunList, S.Run, Tries, Blocks, Attempts;
    ParsesScript(t, hosts, remote);
    var env := S.Env(map[], 0, [], false);
    RunSet(env, replies);
    var set1 := env.(vars := env.vars["rc" := "255"], last := 0);
    RunFirst(S.Simple([SET]), Blocks(t, hosts, remote), env, set1, replies);
    var end;
    n, end := RunBlocks(t, hosts, remote, set1, replies);
    assert end.calls[0..] == end.calls;
    o := S.Outcome(end.calls, end.last);
  }

  /** For every list of hosts and whatever they answer: the generated script asks the
      hosts in order, asks the next one only after an answer of 255, and exits with
      the first other answer, or with 255 when there is none. */
  lemma FallbackIsCorrect(t: Target, remote: string, replies: S.Replies)
    requires !IsLocal(t) && HostsOf(t) != []
    ensures exists n: nat, o: S.Outcome ::
              S.Shell(RemoteCommand(t, remote), replies) == Some(o)
              && n > 0 && Tries(t, HostsOf(t), remote, replies, 0, n, o.calls, o.status)
  {
    hide HostsOf, S.Shell, Tries, IsLocal, BuildSSHCommand, Attempts;
    var hosts := HostsOf(t);
    if |hosts| == 1 {
      RunsAlone(t, hosts[0], remote, replies);
      var o := S.Outcome([SSHArguments(t, hosts[0], remote)], replies(0));
      OneTry(t, hosts, remote, replies);
      assert S.Shell(RemoteCommand(t, remote), replies) == Some(o);
    } else {
      var n, o := RunsScript(t, hosts, remote, replies);
      SomeTry(t, hosts, remote, replies, n, o);
    }
  }

  lemma OneTry(t: Target, hosts: seq<string>, remote: string, replies: S.Replies)
    requires |hosts| == 1
    ensures Tries(t, hosts, remote, replies, 0, 1, [SSHArguments(t, hosts[0], remote)], replies(0))
  {
  }

  lemma SomeTry(t: Target, hosts: seq<string>, remote: string, replies: S.Replies, n: nat, o: S.Outcome)
    requires hosts != [] && Tries(t, hosts, remote, replies, 0, n, o.calls, o.status)
    ensures n > 0
  {
  }

  /** Tries leaves no choice. */
  lemma TriesDetermines(
    t: Target, hosts: seq<string>, remote: string, replies: S.Replies, first: nat, n: nat, n': nat,
    calls: seq<seq<string>>, calls': seq<seq<string>>, status: nat, status': nat)
    requires Tries(t, hosts, remote, replies, first, n, calls, status)
    requires Tries(t, hosts, remote, replies, first, n', calls', status')
    ensures n == n' && calls == calls' && status == status'
  {
  }
}
