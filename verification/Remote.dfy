/**
 The remote command compiler of internal/command/runner.go: the host list, the
 script that tries one host after the other, and the docker and systemd commands
 sent through it.
 */
module Remote {
  import opened Wrappers
  import opened Text
  import opened ShellLexer
  import opened CommandLine
  import S = ShellScript

  // ---- the host list

  function HostsOf(t: Target): seq<string> {
    Distinct(Trimmed([t.host] + t.fallbackHosts))
  }

  /** The hosts to try: none empty, none twice, in the order of their first occurrence. */
  lemma HostsInOrder(t: Target)
    ensures var named := Trimmed([t.host] + t.fallbackHosts);
      (forall h :: h in HostsOf(t) <==> h != "" && h in named) && InOrder(named, HostsOf(t))
  {
    DistinctItems(Trimmed([t.host] + t.fallbackHosts));
  }

  /** targetHosts: appendHost for the host, then for each fallback host. */
  method TargetHosts(t: Target) returns (hosts: seq<string>)
    ensures hosts == HostsOf(t)
  {
    hide TrimSpace;
    var seen: set<string> := {};
    hosts := [];
    var all := [t.host] + t.fallbackHosts;
    for i := 0 to |all|
      invariant hosts == Distinct(Trimmed(all[..i])) && seen == set h | h in hosts
    {
      assert Trimmed(all[..i + 1])[..i] == Trimmed(all[..i]);
      var host := TrimSpace(all[i]);
      if host != "" && host !in seen {
        seen := seen + {host};
        hosts := hosts + [host];
      }
    }
    assert all[..|all|] == all;
  }

  // ---- the script

  const LAST := "exit \"$rc\""

  /** What follows each ssh command; statement by statement. */
  const TRIED_TAIL := "&& " + ("exit 0" + "; ") + ("rc=$?" + "; ") + ("if [ \"$rc\" -ne 255 ]" + "; ")
                      + ("then " + LAST + "; ") + "fi"
  const TRIED := " " + TRIED_TAIL

  predicate IsLocal(t: Target) {
    TrimSpace(t.transport) == "" || TrimSpace(t.transport) == "local"
  }

  function Attempts(t: Target, hosts: seq<string>, remote: string): seq<string> {
    seq(|hosts|, k requires 0 <= k < |hosts| => BuildSSHCommand(t, hosts[k], remote) + TRIED)
  }

  /** What buildRemoteCommand returns. */
  function RemoteCommand(t: Target, remote: string): string {
    var hosts := HostsOf(t);
    if IsLocal(t) || hosts == [] then remote
    else if |hosts| == 1 then BuildSSHCommand(t, hosts[0], remote)
    else Join(["rc=255"] + Attempts(t, hosts, remote) + [LAST], "; ")
  }

  method BuildRemoteCommand(t: Target, remote: string) returns (script: string)
    ensures script == RemoteCommand(t, remote)
  {
    hide TrimSpace, BuildSSHCommand, Join, HostsOf;
    var transport := TrimSpace(t.transport);
    if transport == "" || transport == "local" {
      return remote;
    }
    var hosts := TargetHosts(t);
    if |hosts| == 0 {
      return remote;
    }
    if |hosts| == 1 {
      return BuildSSHCommand(t, hosts[0], remote);
    }
    var parts := ["rc=255"];
    for i := 0 to |hosts|
      invariant parts == ["rc=255"] + Attempts(t, hosts[..i], remote)
    {
      var ssh := BuildSSHCommand(t, hosts[i], remote);
      parts := parts + [ssh + TRIED];
      assert hosts[..i + 1] == hosts[..i] + [hosts[i]];
      assert Attempts(t, hosts[..i + 1], remote) == Attempts(t, hosts[..i], remote) + [ssh + TRIED];
    }
    assert hosts[..|hosts|] == hosts;
    parts := parts + [LAST];
    script := Join(parts, "; ");
  }

  // ---- the words of the script

  const RC := [Param("rc", true)]

  const SET := AsPlain("rc=255")
  const KEEP := AsPlain("rc=") + [Param("?", false)]
  const TEST := [[Plain('[')], RC, AsPlain("-ne"), AsPlain("255"), AsPlain("]")]
  const LEAVE := [AsPlain("exit"), RC]
  const DONE := [AsPlain("exit"), AsPlain("0")]

  lemma ReadsRc(before: seq<Token>)
    ensures ReadAll(Lexer(before, [], Blank), "\"$rc\"") == Lexer(before, RC, InWord)
  {
    hide ReadAll;
    var lx := Lexer(before, [], Blank);
    ReadAllAppend(lx, "\"$", "rc\"");
    ReadTwo(lx, '"', '$');
    assert "\"$" + "rc\"" == "\"$rc\"" && ['"', '$'] == "\"$";
    var l1 := Lexer(before, [], Dollar(true));
    ReadAllAppend(l1, "rc", "\"");
    ReadTwo(l1, 'r', 'c');
    ReadOne(Lexer(before, [], Name("rc", true)), '"');
    assert "rc" + "\"" == "rc\"" && ['r', 'c'] == "rc" && ['"'] == "\"";
    assert ['r'] + ['c'] == "rc" && [] + RC == RC;
  }

  lemma SpellsRc()
    ensures Spells("\"$rc\"", RC)
  {
    forall before: seq<Token> ensures ReadAll(Lexer(before, [], Blank), "\"$rc\"") == Lexer(before, RC, InWord) {
      ReadsRc(before);
    }
  }

  lemma SpellsKeep()
    ensures Spells("rc=$?", KEEP)
  {
    Inert("rc=");
    PartSpells(Bare("rc="));
    forall before: seq<Token>, word: Pieces
      ensures ReadAll(Lexer(before, word, InWord), "$?") == Lexer(before, word + [Param("?", false)], InWord) {
      ReadTwo(Lexer(before, word, InWord), '$', '?');
    }
    SpellsMore("rc=", AsPlain("rc="), "$?", [Param("?", false)]);
    assert "rc=" + "$?" == "rc=$?";
  }

  lemma SpellsBracket()
    ensures Spells("[", [Plain('[')])
  {
    forall before: seq<Token> ensures ReadAll(Lexer(before, [], Blank), "[") == Lexer(before, [Plain('[')], InWord) {
      ReadOne(Lexer(before, [], Blank), '[');
    }
  }

  lemma SpellsBare(s: string)
    requires s != "" && forall k | 0 <= k < |s| :: IsInert(s[k])
    ensures Spells(s, AsPlain(s))
  {
    Inert(s);
    PartSpells(Bare(s));
  }

  lemma LineLeave()
    ensures Line(LAST, LEAVE)
  {
    hide Spells, Line;
    SpellsBare("exit");
    SpellsRc();
    SpellsLine("\"$rc\"", RC);
    WordThenLine("exit", AsPlain("exit"), "\"$rc\"", [RC]);
    assert "exit" + " " + "\"$rc\"" == LAST;
    assert [AsPlain("exit")] + [RC] == LEAVE;
  }

  lemma LineTest()
    ensures Line("if [ \"$rc\" -ne 255 ]", [AsPlain("if")] + TEST)
  {
    hide Spells, Line;
    SpellsBare("if");
    SpellsBracket();
    SpellsRc();
    SpellsBare("-ne");
    SpellsBare("255");
    SpellsBare("]");
    SpellsLine("]", AsPlain("]"));
    WordThenLine("255", AsPlain("255"), "]", [AsPlain("]")]);
    var l1 := "255" + " " + "]";
    WordThenLine("-ne", AsPlain("-ne"), l1, [AsPlain("255")] + [AsPlain("]")]);
    var l2 := "-ne" + " " + l1;
    WordThenLine("\"$rc\"", RC, l2, [AsPlain("-ne")] + ([AsPlain("255")] + [AsPlain("]")]));
    var l3 := "\"$rc\"" + " " + l2;
    WordThenLine("[", [Plain('[')], l3, [RC] + ([AsPlain("-ne")] + ([AsPlain("255")] + [AsPlain("]")])));
    assert [[Plain('[')]] + ([RC] + ([AsPlain("-ne")] + ([AsPlain("255")] + [AsPlain("]")]))) == TEST;
    WordThenLine("if", AsPlain("if"), "[" + " " + l3, TEST);
    assert "if" + " " + ("[" + " " + l3) == "if [ \"$rc\" -ne 255 ]";
  }

  lemma LineThen()
    ensures Line("then " + LAST, [AsPlain("then")] + LEAVE)
  {
    hide Spells, Line;
    SpellsBare("then");
    LineLeave();
    WordThenLine("then", AsPlain("then"), LAST, LEAVE);
    assert "then" + " " + LAST == "then " + LAST;
  }

  lemma LineDone()
    ensures Line("exit 0", DONE)
  {
    hide Spells, Line;
    SpellsBare("exit");
    SpellsBare("0");
    SpellsLine("0", AsPlain("0"));
    WordThenLine("exit", AsPlain("exit"), "0", [AsPlain("0")]);
    assert "exit" + " " + "0" == "exit 0";
    assert [AsPlain("exit")] + [AsPlain("0")] == DONE;
  }

  const SEMI := [S.SEMICOLON]

  /** The tokens after an ssh command. */
  const TRIED_TOKENS := [S.AND_IF] + (Words(DONE) + SEMI) + (Words([KEEP]) + SEMI)
                        + (Words([AsPlain("if")] + TEST) + SEMI) + (Words([AsPlain("then")] + LEAVE) + SEMI)
                        + (Words([AsPlain("fi")]) + SEMI)

  lemma YieldsTried()
    ensures Yields(TRIED_TAIL + "; ", TRIED_TOKENS)
  {
    hide Line, Yields, Spells;
    YieldsAndIf();
    LineDone();
    LineThenSemicolon("exit 0", DONE);
    SpellsKeep();
    SpellsLine("rc=$?", KEEP);
    LineThenSemicolon("rc=$?", [KEEP]);
    LineTest();
    LineThenSemicolon("if [ \"$rc\" -ne 255 ]", [AsPlain("if")] + TEST);
    LineThen();
    LineThenSemicolon("then " + LAST, [AsPlain("then")] + LEAVE);
    SpellsBare("fi");
    SpellsLine("fi", AsPlain("fi"));
    LineThenSemicolon("fi", [AsPlain("fi")]);
    var a := "&& ";
    YieldsBoth(a, [S.AND_IF], "exit 0" + "; ", Words(DONE) + SEMI);
    var b := a + ("exit 0" + "; ");
    YieldsBoth(b, [S.AND_IF] + (Words(DONE) + SEMI), "rc=$?" + "; ", Words([KEEP]) + SEMI);
    var c := b + ("rc=$?" + "; ");
    YieldsBoth(c, [S.AND_IF] + (Words(DONE) + SEMI) + (Words([KEEP]) + SEMI),
               "if [ \"$rc\" -ne 255 ]" + "; ", Words([AsPlain("if")] + TEST) + SEMI);
    var d := c + ("if [ \"$rc\" -ne 255 ]" + "; ");
    YieldsBoth(d, [S.AND_IF] + (Words(DONE) + SEMI) + (Words([KEEP]) + SEMI) + (Words([AsPlain("if")] + TEST) + SEMI),
               "then " + LAST + "; ", Words([AsPlain("then")] + LEAVE) + SEMI);
    var e := d + ("then " + LAST + "; ");
    YieldsBoth(e, [S.AND_IF] + (Words(DONE) + SEMI) + (Words([KEEP]) + SEMI)
                  + (Words([AsPlain("if")] + TEST) + SEMI) + (Words([AsPlain("then")] + LEAVE) + SEMI),
               "fi" + "; ", Words([AsPlain("fi")]) + SEMI);
    assert e + ("fi" + "; ") == e + "fi" + "; ";
  }

  function AttemptTokens(t: Target, host: string, remote: string): seq<Token> {
    Words(ReadParts(SSHWords(t, host, remote))) + TRIED_TOKENS
  }

  lemma Shift(a: string, b: string)
    ensures a + " " + (b + "; ") == a + (" " + b) + "; "
  {
  }

  lemma YieldsAttempt(t: Target, host: string, remote: string)
    ensures Yields(BuildSSHCommand(t, host, remote) + TRIED + "; ", AttemptTokens(t, host, remote))
  {
    hide Line, Yields, BuildSSHCommand, SSHWords, TRIED_TAIL, TRIED_TOKENS;
    var ssh := BuildSSHCommand(t, host, remote);
    SSHLine(t, host, remote);
    LineThenSpace(ssh, ReadParts(SSHWords(t, host, remote)));
    YieldsTried();
    YieldsBoth(ssh + " ", Words(ReadParts(SSHWords(t, host, remote))), TRIED_TAIL + "; ", TRIED_TOKENS);
    Shift(ssh, TRIED_TAIL);
  }

  lemma SSHLine(t: Target, host: string, remote: string)
    ensures Line(BuildSSHCommand(t, host, remote), ReadParts(SSHWords(t, host, remote)))
  {
    SSHWordsAreSound(t, host, remote);
    PartsLine(SSHWords(t, host, remote));
  }

  // ---- the script, parsed

  function Block(t: Target, host: string, remote: string): seq<S.Command> {
    [S.AndIf(S.Simple(ReadParts(SSHWords(t, host, remote))), S.Simple(DONE)),
     S.Simple([KEEP]),
     S.If([S.Simple(TEST)], [S.Simple(LEAVE)])]
  }

  function Blocks(t: Target, hosts: seq<string>, remote: string): seq<S.Command> {
    if hosts == [] then [S.Simple(LEAVE)]
    else Block(t, hosts[0], remote) + Blocks(t, hosts[1..], remote)
  }

  function BlockTokens(t: Target, hosts: seq<string>, remote: string): seq<Token> {
    if hosts == [] then Words(LEAVE)
    else AttemptTokens(t, hosts[0], remote) + BlockTokens(t, hosts[1..], remote)
  }

  lemma Unreserved()
    ensures !Reserved(KEEP) && !Reserved(SET)
    ensures !Reserved(TEST[0]) && !Reserved(LEAVE[0]) && !Reserved(DONE[0])
    ensures !Reserved(AsPlain("ssh"))
  {
    NotReserved(KEEP);
    NotReserved(SET);
    NotReserved(TEST[0]);
    NotReserved(LEAVE[0]);
    NotReserved(DONE[0]);
    NotReserved(AsPlain("ssh"));
  }

  lemma SSHFirst(t: Target, host: string, remote: string)
    ensures ReadParts(SSHWords(t, host, remote)) != [] && ReadParts(SSHWords(t, host, remote))[0] == AsPlain("ssh")
  {
    assert SSHWords(t, host, remote)[0] == Bare("ssh");
  }

  /** The test that leaves the script, and what comes after it. */
  function TestTokens(rest: seq<Token>): seq<Token> {
    [Word(AsPlain("if"))] + (Words(TEST) + (SEMI + ([Word(AsPlain("then"))]
    + (Words(LEAVE) + (SEMI + ([Word(AsPlain("fi"))] + (SEMI + rest)))))))
  }

  /** The same from where the exit status is kept. */
  function KeepTokens(rest: seq<Token>): seq<Token> {
    Words([KEEP]) + (SEMI + TestTokens(rest))
  }

  lemma TriedTokens(ssh: seq<Token>, rest: seq<Token>)
    ensures ssh + TRIED_TOKENS + rest == ssh + ([S.AND_IF] + (Words(DONE) + (SEMI + KeepTokens(rest))))
  {
    assert Words([AsPlain("if")] + TEST) == [Word(AsPlain("if"))] + Words(TEST);
    assert Words([AsPlain("then")] + LEAVE) == [Word(AsPlain("then"))] + Words(LEAVE);
    assert Words([AsPlain("fi")]) == [Word(AsPlain("fi"))];
  }

  lemma ParsesTest(rest: seq<Token>, others: seq<S.Command>)
    requires rest != [] && !S.Closes(rest[0]) && S.ParseList(rest) == S.Done(others, [])
    ensures S.ParseList(TestTokens(rest)) == S.Done([S.If([S.Simple(TEST)], [S.Simple(LEAVE)])] + others, [])
  {
    hide S.ParseList, S.ParseAndOr, Reserved;
    Unreserved();
    S.ParsesIf(TEST, LEAVE, SEMI + rest);
    S.ParsesNext(TestTokens(rest), S.If([S.Simple(TEST)], [S.Simple(LEAVE)]), rest, others, []);
  }

  lemma ParsesKeep(rest: seq<Token>, others: seq<S.Command>)
    requires rest != [] && !S.Closes(rest[0]) && S.ParseList(rest) == S.Done(others, [])
    ensures S.ParseList(KeepTokens(rest))
         == S.Done([S.Simple([KEEP])] + ([S.If([S.Simple(TEST)], [S.Simple(LEAVE)])] + others), [])
    ensures KeepTokens(rest) != [] && !S.Closes(KeepTokens(rest)[0])
  {
    hide S.ParseList, S.ParseAndOr, Reserved;
    Unreserved();
    ParsesTest(rest, others);
    var test := TestTokens(rest);
    NotClosing(test[0]);
    NotClosing(KeepTokens(rest)[0]);
    S.ParsesStatement([KEEP], test);
    S.ParsesNext(KeepTokens(rest), S.Simple([KEEP]), test, [S.If([S.Simple(TEST)], [S.Simple(LEAVE)])] + others, []);
  }

  lemma ParsesBlock(t: Target, host: string, remote: string, rest: seq<Token>, others: seq<S.Command>)
    requires rest != [] && !S.Closes(rest[0]) && S.ParseList(rest) == S.Done(others, [])
    ensures S.ParseList(AttemptTokens(t, host, remote) + rest) == S.Done(Block(t, host, remote) + others, [])
  {
    hide S.ParseList, S.ParseAndOr, Reserved, TRIED_TOKENS, SSHWords, KeepTokens;
    var ssh := ReadParts(SSHWords(t, host, remote));
    Unreserved();
    SSHFirst(t, host, remote);
    TriedTokens(Words(ssh), rest);
    ParsesKeep(rest, others);
    S.ParsesAndIf(ssh, DONE, KeepTokens(rest));
    S.ParsesNext(AttemptTokens(t, host, remote) + rest, S.AndIf(S.Simple(ssh), S.Simple(DONE)), KeepTokens(rest),
                 [S.Simple([KEEP])] + ([S.If([S.Simple(TEST)], [S.Simple(LEAVE)])] + others), []);
    assert Block(t, host, remote) + others
        == [S.AndIf(S.Simple(ssh), S.Simple(DONE))]
           + ([S.Simple([KEEP])] + ([S.If([S.Simple(TEST)], [S.Simple(LEAVE)])] + others));
  }

  lemma NotClosing(t: Token)
    requires t == Word(AsPlain("if")) || t == Word(KEEP)
    ensures !S.Closes(t)
  {
    assert AsPlain("if")[0] == Plain('i') && KEEP[0] == Plain('r');
    assert AsPlain("then")[0] == Plain('t') && AsPlain("fi")[0] == Plain('f');
  }

  lemma {:induction false} ParsesBlocks(t: Target, hosts: seq<string>, remote: string)
    ensures var ts := BlockTokens(t, hosts, remote);
      ts != [] && !S.Closes(ts[0]) && S.ParseList(ts) == S.Done(Blocks(t, hosts, remote), [])
  {
    hide AttemptTokens, Block;
    if hosts == [] {
      Unreserved();
      S.ParsesSimple(LEAVE, []);
      assert Words(LEAVE) + [] == Words(LEAVE);
      assert AsPlain("exit")[0] == Plain('e');
    } else {
      ParsesBlocks(t, hosts[1..], remote);
      ParsesBlock(t, hosts[0], remote, BlockTokens(t, hosts[1..], remote), Blocks(t, hosts[1..], remote));
      AttemptStarts(t, hosts[0], remote);
    }
  }

  lemma AttemptStarts(t: Target, host: string, remote: string)
    ensures var ts := AttemptTokens(t, host, remote); ts != [] && ts[0] == Word(AsPlain("ssh")) && !S.Closes(ts[0])
  {
    SSHFirst(t, host, remote);
    assert AsPlain("ssh")[0] == Plain('s');
  }

  /** The text after `rc=255; `. */
  function BlockText(t: Target, hosts: seq<string>, remote: string): string {
    Join(Attempts(t, hosts, remote) + [LAST], "; ")
  }

  lemma {:induction false} LexesBlocks(t: Target, hosts: seq<string>, remote: string, a: string, x: seq<Token>)
    requires Yields(a, x)
    ensures Lex(a + BlockText(t, hosts, remote)) == Some(x + BlockTokens(t, hosts, remote))
    decreases |hosts|
  {
    hide Yields, Lex, Line, BuildSSHCommand, AttemptTokens, TRIED;
    if hosts == [] {
      LineLeave();
      LineAtEnd(a, x, LAST, LEAVE);
      assert Attempts(t, hosts, remote) + [LAST] == [LAST];
    } else {
      var attempt := BuildSSHCommand(t, hosts[0], remote) + TRIED;
      YieldsAttempt(t, hosts[0], remote);
      YieldsBoth(a, x, attempt + "; ", AttemptTokens(t, hosts[0], remote));
      LexesBlocks(t, hosts[1..], remote, a + (attempt + "; "), x + AttemptTokens(t, hosts[0], remote));
      var parts := Attempts(t, hosts, remote) + [LAST];
      assert parts[1..] == Attempts(t, hosts[1..], remote) + [LAST];
      assert BlockText(t, hosts, remote) == attempt + "; " + BlockText(t, hosts[1..], remote);
      assert a + (attempt + "; ") + BlockText(t, hosts[1..], remote) == a + BlockText(t, hosts, remote);
      assert x + AttemptTokens(t, hosts[0], remote) + BlockTokens(t, hosts[1..], remote)
          == x + BlockTokens(t, hosts, remote);
    }
  }

  lemma ParsesScript(t: Target, hosts: seq<string>, remote: string)
    requires hosts != []
    ensures S.Parse(Join(["rc=255"] + Attempts(t, hosts, remote) + [LAST], "; "))
         == Some([S.Simple([SET])] + Blocks(t, hosts, remote))
  {
    hide Yields, Lex, Line, Attempts, BlockTokens, Blocks, S.ParseList, S.ParseAndOr, Reserved;
    SpellsBare("rc=255");
    SpellsLine("rc=255", SET);
    LineThenSemicolon("rc=255", [SET]);
    LexesBlocks(t, hosts, remote, "rc=255" + "; ", Words([SET]) + SEMI);
    var parts := ["rc=255"] + Attempts(t, hosts, remote) + [LAST];
    assert parts[1..] == Attempts(t, hosts, remote) + [LAST];
    assert Join(parts, "; ") == "rc=255" + "; " + BlockText(t, hosts, remote);
    ParsesBlocks(t, hosts, remote);
    Unreserved();
    var rest := BlockTokens(t, hosts, remote);
    S.ParsesStatement([SET], rest);
    assert Words([SET]) + SEMI + rest == Words([SET]) + (SEMI + rest);
    S.ParsesNext(Words([SET]) + (SEMI + rest), S.Simple([SET]), rest, Blocks(t, hosts, remote), []);
  }
}
