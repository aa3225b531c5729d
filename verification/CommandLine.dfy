/**
 The command builder of internal/command/runner.go up to one ssh command: quoting,
 and what the shells that read the result make of it. A remote docker command
 passes three of them: the local one, the remote one, and the one in the container.
 */
module CommandLine {
  import opened Wrappers
  import opened Text
  import opened ShellLexer

  /** TargetConfig of internal/config/types.go */
  datatype Target = Target(
    transport: string, host: string, fallbackHosts: seq<string>, user: string, port: int, identityFile: string)

  /** strings.ReplaceAll(value, "'", `'"'"'`) */
  function Escaped(s: string): string {
    if s == "" then ""
    else (if s[0] == '\'' then "'\"'\"'" else [s[0]]) + Escaped(s[1..])
  }

  function ShellQuote(s: string): string {
    "'" + Escaped(s) + "'"
  }

  // ---- quoting

  /** A quote inside quotes: close, quote it the other way, open again. */
  lemma ReadQuoteMark(before: seq<Token>, word: Pieces)
    ensures ReadAll(Lexer(before, word, Single), "'\"'\"'") == Lexer(before, word + [Quoted('\'')], Single)
  {
    var lx := Lexer(before, word, Single);
    ReadAllAppend(lx, "'\"", "'\"'");
    ReadTwo(lx, '\'', '"');
    var l2 := Lexer(before, word, Double);
    ReadAllAppend(l2, "'\"", "'");
    ReadTwo(l2, '\'', '"');
    ReadOne(Lexer(before, word + [Quoted('\'')], InWord), '\'');
  }

  lemma {:induction false} ReadEscaped(before: seq<Token>, word: Pieces, s: string)
    ensures ReadAll(Lexer(before, word, Single), Escaped(s)) == Lexer(before, word + AsQuoted(s), Single)
    decreases |s|
  {
    if s == "" {
      assert word + AsQuoted(s) == word;
    } else {
      var lx := Lexer(before, word, Single);
      var head := if s[0] == '\'' then "'\"'\"'" else [s[0]];
      ReadAllAppend(lx, head, Escaped(s[1..]));
      if s[0] == '\'' {
        ReadQuoteMark(before, word);
      } else {
        ReadOne(lx, s[0]);
      }
      ReadEscaped(before, word + [Quoted(s[0])], s[1..]);
      assert word + [Quoted(s[0])] + AsQuoted(s[1..]) == word + AsQuoted(s);
    }
  }

  lemma QuoteSpells(s: string)
    ensures Spells(ShellQuote(s), AsQuoted(s))
  {
    forall before: seq<Token>
      ensures ReadAll(Lexer(before, [], Blank), ShellQuote(s)) == Lexer(before, AsQuoted(s), InWord) {
      hide ReadAll;
      ReadAllAppend(Lexer(before, [], Blank), "'" + Escaped(s), "'");
      ReadAllAppend(Lexer(before, [], Blank), "'", Escaped(s));
      ReadOne(Lexer(before, [], Blank), '\'');
      ReadEscaped(before, [], s);
      assert [] + AsQuoted(s) == AsQuoted(s);
      ReadOne(Lexer(before, AsQuoted(s), Single), '\'');
    }
  }

  /** For every string: the shell reads the quoted text as one word, no character of
      which it treats as its own, and the word is the string. */
  lemma QuoteRoundTrip(s: string)
    ensures Lex(ShellQuote(s)) == Some([Word(AsQuoted(s))])
    ensures Arguments([Word(AsQuoted(s))]) == Some([s])
  {
    QuoteSpells(s);
    SpellsLine(ShellQuote(s), AsQuoted(s));
    YieldsNothing();
    LineAtEnd("", [], ShellQuote(s), [AsQuoted(s)]);
    assert "" + ShellQuote(s) == ShellQuote(s);
    assert [] + Words([AsQuoted(s)]) == [Word(AsQuoted(s))];
    assert FixedText(AsQuoted(s)) == s;
    assert [Word(AsQuoted(s))][1..] == [] && Arguments([]) == Some([]);
    assert [s] + [] == [s];
  }

  // ---- lines of words

  /** A word of a command line: written as it is, or quoted. */
  datatype Part = Bare(text: string) | InQuotes(text: string)

  function Written(p: Part): string {
    if p.Bare? then p.text else ShellQuote(p.text)
  }

  function Read(p: Part): Pieces {
    if p.Bare? then AsPlain(p.text) else AsQuoted(p.text)
  }

  predicate Sound(p: Part) {
    p.Bare? ==> p.text != "" && forall c | c in p.text :: IsInert(c)
  }

  function WrittenAll(parts: seq<Part>): seq<string> {
    seq(|parts|, k requires 0 <= k < |parts| => Written(parts[k]))
  }

  function ReadParts(parts: seq<Part>): seq<Pieces> {
    seq(|parts|, k requires 0 <= k < |parts| => Read(parts[k]))
  }

  function Texts(parts: seq<Part>): seq<string> {
    seq(|parts|, k requires 0 <= k < |parts| => parts[k].text)
  }

  predicate AllSound(parts: seq<Part>) {
    forall k | 0 <= k < |parts| :: Sound(parts[k])
  }

  lemma PartSpells(p: Part)
    requires Sound(p)
    ensures Spells(Written(p), Read(p))
    ensures IsFixed(Read(p)) && FixedText(Read(p)) == p.text
  {
    if p.Bare? {
      PlainSpells(p.text);
      forall k | 0 <= k < |p.text| ensures IsInert(p.text[k]) {
        assert p.text[k] in p.text;
      }
    } else {
      QuoteSpells(p.text);
    }
  }

  lemma {:induction false} PartsLine(parts: seq<Part>)
    requires parts != [] && AllSound(parts)
    ensures Line(Join(WrittenAll(parts), " "), ReadParts(parts))
  {
    hide Line, Spells, Sound, Written, Read;
    PartSpells(parts[0]);
    if |parts| == 1 {
      SpellsLine(Written(parts[0]), Read(parts[0]));
      assert ReadParts(parts) == [Read(parts[0])];
    } else {
      var rest := parts[1..];
      PartsLine(rest);
      WordThenLine(Written(parts[0]), Read(parts[0]), Join(WrittenAll(rest), " "), ReadParts(rest));
      assert WrittenAll(parts)[1..] == WrittenAll(rest);
      assert [Read(parts[0])] + ReadParts(rest) == ReadParts(parts);
    }
  }

  lemma {:induction false} PartsArguments(parts: seq<Part>)
    requires AllSound(parts)
    ensures Arguments(Words(ReadParts(parts))) == Some(Texts(parts))
  {
    hide Sound, Read, FixedText;
    if parts == [] {
      assert Texts(parts) == [];
    } else {
      PartSpells(parts[0]);
      PartsArguments(parts[1..]);
      assert Words(ReadParts(parts))[1..] == Words(ReadParts(parts[1..]));
      assert Texts(parts) == [parts[0].text] + Texts(parts[1..]);
    }
  }

  /** What a shell makes of a line: the argument vector of one simple command. */
  function AsCommand(text: string): Option<seq<string>> {
    var tokens := Lex(text);
    if tokens.None? || tokens.value == [] || !NamesCommand(tokens.value[0]) then None else Arguments(tokens.value)
  }

  /** Neither an assignment nor a reserved word. */
  predicate NamesCommand(t: Token) {
    && t.Word? && IsFixed(t.pieces)
    && (forall k | 0 <= k < |t.pieces| :: t.pieces[k] != Plain('='))
    && !Reserved(t.pieces)
  }

  predicate StartsPlainly(parts: seq<Part>) {
    parts != [] && parts[0].Bare? && '=' !in parts[0].text && !Reserved(AsPlain(parts[0].text))
  }

  /** A line of sound parts is one command with exactly the texts as its arguments. */
  lemma LineIsCommand(parts: seq<Part>)
    requires AllSound(parts) && StartsPlainly(parts)
    ensures AsCommand(Join(WrittenAll(parts), " ")) == Some(Texts(parts))
  {
    hide Line, Yields, Lex, Spells;
    PartSpells(parts[0]);
    PartsLine(parts);
    PartsArguments(parts);
    YieldsNothing();
    var text := Join(WrittenAll(parts), " ");
    LineAtEnd("", [], text, ReadParts(parts));
    assert "" + text == text && [] + Words(ReadParts(parts)) == Words(ReadParts(parts));
    assert Words(ReadParts(parts))[0] == Word(AsPlain(parts[0].text));
  }

  // ---- ssh

  const SSH_OPTIONS := [
    "ssh", "-o", "BatchMode=yes", "-o", "ConnectTimeout=10", "-o", "ServerAliveInterval=15",
    "-o", "ServerAliveCountMax=2", "-o", "StrictHostKeyChecking=accept-new"]

  function Destination(t: Target, host: string): string {
    var user := TrimSpace(t.user);
    if user != "" then user + "@" + host else host
  }

  /** buildSSHCommand */
  function BuildSSHCommand(t: Target, host: string, remote: string): string {
    Join(
      SSH_OPTIONS
      + (if t.port > 0 then ["-p", ShellQuote(Decimal(t.port))] else [])
      + (if TrimSpace(t.identityFile) != "" then ["-i", ShellQuote(t.identityFile)] else [])
      + [ShellQuote(Destination(t, host)), ShellQuote(remote)],
      " ")
  }

  /** The command ssh is meant to be run with. */
  function SSHArguments(t: Target, host: string, remote: string): seq<string> {
    SSH_OPTIONS
    + (if t.port > 0 then ["-p", Decimal(t.port)] else [])
    + (if TrimSpace(t.identityFile) != "" then ["-i", t.identityFile] else [])
    + [Destination(t, host), remote]
  }

  function BareAll(texts: seq<string>): seq<Part> {
    seq(|texts|, k requires 0 <= k < |texts| => Bare(texts[k]))
  }

  function SSHWords(t: Target, host: string, remote: string): seq<Part> {
    BareAll(SSH_OPTIONS)
    + (if t.port > 0 then [Bare("-p"), InQuotes(Decimal(t.port))] else [])
    + (if TrimSpace(t.identityFile) != "" then [Bare("-i"), InQuotes(t.identityFile)] else [])
    + [InQuotes(Destination(t, host)), InQuotes(remote)]
  }

  lemma Inert(s: string)
    requires s != "" && forall k | 0 <= k < |s| :: IsInert(s[k])
    ensures Sound(Bare(s))
  {
  }

  lemma OptionsAreInert()
    ensures AllSound(BareAll(SSH_OPTIONS))
  {
    hide Sound;
    Inert("ssh");
    Inert("-o");
    Inert("BatchMode=yes");
    Inert("ConnectTimeout=10");
    Inert("ServerAliveInterval=15");
    Inert("ServerAliveCountMax=2");
    Inert("StrictHostKeyChecking=accept-new");
    forall k | 0 <= k < |SSH_OPTIONS| ensures Sound(BareAll(SSH_OPTIONS)[k]) {
      assert BareAll(SSH_OPTIONS)[k] == Bare(SSH_OPTIONS[k]);
    }
  }

  lemma SSHWordsAreSound(t: Target, host: string, remote: string)
    ensures AllSound(SSHWords(t, host, remote)) && StartsPlainly(SSHWords(t, host, remote))
    ensures WrittenAll(SSHWords(t, host, remote)) == SSH_OPTIONS
      + (if t.port > 0 then ["-p", ShellQuote(Decimal(t.port))] else [])
      + (if TrimSpace(t.identityFile) != "" then ["-i", ShellQuote(t.identityFile)] else [])
      + [ShellQuote(Destination(t, host)), ShellQuote(remote)]
    ensures Texts(SSHWords(t, host, remote)) == SSHArguments(t, host, remote)
  {
    hide ShellQuote, TrimSpace, Decimal, Reserved;
    OptionsAreInert();
    NotReserved(AsPlain("ssh"));
    assert SSHWords(t, host, remote)[0] == Bare("ssh");
  }

  // ---- what ssh makes of its arguments

  /** A destination names the host, after the trimmed user and an `@` unless the user is blank. */
  ghost predicate Addresses(t: Target, host: string, destination: string) {
    && |host| <= |destination| && destination[|destination| - |host|..] == host
    && var login := destination[..|destination| - |host|];
      if AllSpace(t.user) then login == ""
      else |login| > 1 && login[|login| - 1] == '@' && Trims(t.user, login[..|login| - 1])
  }

  /** The arguments ssh is meant to get: its options, the port and the key file where they are
      given, and last the destination and the remote command. */
  ghost predicate Intended(t: Target, host: string, remote: string, args: seq<string>) {
    var key := !AllSpace(t.identityFile);
    && |args| == 13 + (if t.port > 0 then 2 else 0) + (if key then 2 else 0)
    && args[..11] == [
         "ssh", "-o", "BatchMode=yes", "-o", "ConnectTimeout=10", "-o", "ServerAliveInterval=15",
         "-o", "ServerAliveCountMax=2", "-o", "StrictHostKeyChecking=accept-new"]
    && (t.port > 0 ==>
          args[11] == "-p" && (forall c | c in args[12] :: IsDigit(c)) && ParseDecimal(args[12]) == t.port)
    && (key ==> args[|args| - 4] == "-i" && args[|args| - 3] == t.identityFile)
    && Addresses(t, host, args[|args| - 2]) && args[|args| - 1] == remote
  }

  /** Where the last `@` stands; the length if there is none. */
  function LastAt(s: string): (k: nat)
    ensures k <= |s| && (k < |s| ==> s[k] == '@')
    ensures forall j | 0 <= j < |s| && s[j] == '@' :: j <= k < |s|
  {
    if s == "" then 0
    else if s[|s| - 1] == '@' then |s| - 1
    else
      var k := LastAt(s[..|s| - 1]);
      if k == |s| - 1 then |s| else k
  }

  /** The user and the host of a destination as ssh takes it apart. */
  function LoginOf(destination: string): string {
    var k := LastAt(destination);
    if k == |destination| then "" else destination[..k]
  }

  function HostOf(destination: string): string {
    var k := LastAt(destination);
    if k == |destination| then destination else destination[k + 1..]
  }

  lemma DestinationAddresses(t: Target, host: string)
    ensures Addresses(t, host, Destination(t, host))
  {
    hide TrimSpace;
    TrimExactly(t.user);
    BlankExactly(t.user);
    var user := TrimSpace(t.user);
    if user != "" {
      var d := user + "@" + host;
      assert d[..|d| - |host|] == user + "@";
      assert (user + "@")[..|user|] == user;
    }
  }

  /** Taking it apart gives back the trimmed user and the host if and only if the host holds
      no `@` of its own. */
  lemma DestinationReads(t: Target, host: string)
    ensures LoginOf(Destination(t, host)) == TrimSpace(t.user) && HostOf(Destination(t, host)) == host
            <==> '@' !in host
  {
    hide TrimSpace;
    var user := TrimSpace(t.user);
    var d := Destination(t, host);
    var k := LastAt(d);
    if '@' in host {
      var j :| 0 <= j < |host| && host[j] == '@';
      assert d[|d| - |host| + j] == '@';
      assert '@' !in HostOf(d) by {
        assert forall i | 0 <= i < |HostOf(d)| :: HostOf(d)[i] == d[k + 1 + i];
      }
    } else if user == "" {
      assert forall i | 0 <= i < |d| :: d[i] != '@';
    } else {
      assert d[|user|] == '@';
      assert forall i | |user| < i < |d| :: d[i] == host[i - |user| - 1] && host[i - |user| - 1] in host;
      assert k == |user|;
    }
  }

  /** The options, the port, the key file, the destination and the remote command stand where
      they belong, and nothing else does. */
  lemma SSHOperands(t: Target, host: string, remote: string)
    ensures Intended(t, host, remote, SSHArguments(t, host, remote))
  {
    hide TrimSpace, Decimal, Addresses, Destination;
    BlankExactly(t.identityFile);
    DestinationAddresses(t, host);
    if t.port > 0 {
      DecimalRoundTrip(t.port);
    }
  }

  /** The local shell runs ssh with the intended arguments and no others, whatever
      characters the host, the identity file and the remote command hold. */
  lemma SSHRoundTrip(t: Target, host: string, remote: string)
    ensures AsCommand(BuildSSHCommand(t, host, remote)) == Some(SSHArguments(t, host, remote))
    ensures Intended(t, host, remote, AsCommand(BuildSSHCommand(t, host, remote)).value)
  {
    SSHWordsAreSound(t, host, remote);
    LineIsCommand(SSHWords(t, host, remote));
    SSHOperands(t, host, remote);
    hide AsCommand, ShellQuote, Texts, SSHWords, Intended;
  }
}
