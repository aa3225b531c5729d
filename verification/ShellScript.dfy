/**
 A parser and an interpreter for the part of the shell language the generated
 scripts use: simple commands, assignments, AND lists, lists and the if clause
 (POSIX.1-2017 XCU sections 2.9.1, 2.9.3, 2.9.4 and 2.10). Everything outside that
 part has no meaning here: the functions answer None.
 */
module ShellScript {
  import opened Wrappers
  import opened Text
  import opened ShellLexer

  datatype Command =
    | Simple(words: seq<Pieces>)
    | AndIf(first: Command, second: Command)
    | If(condition: seq<Command>, body: seq<Command>)

  // ---- parsing

  datatype Parsed<T> = Fail | Done(value: T, rest: seq<Token>)

  predicate IsPlainly(t: Token, text: string) {
    t == Word(AsPlain(text))
  }

  const SEMICOLON := Operator(";")
  const AND_IF := Operator("&&")

  /** A word that ends a list of commands when it stands where a command could. */
  predicate Closes(t: Token) {
    IsPlainly(t, "then") || IsPlainly(t, "fi")
  }

  /** How many words stand at the front. */
  function CountWords(ts: seq<Token>): (n: nat)
    ensures n <= |ts| && forall k | 0 <= k < n :: ts[k].Word?
  {
    if ts == [] || !ts[0].Word? then 0 else 1 + CountWords(ts[1..])
  }

  function ParseCommand(ts: seq<Token>): (p: Parsed<Command>)
    ensures p.Done? ==> |p.rest| < |ts|
    decreases |ts|, 0
  {
    if ts == [] || !ts[0].Word? then Fail
    else if IsPlainly(ts[0], "if") then
      var condition := ParseList(ts[1..]);
      if condition.Fail? || condition.rest == [] || !IsPlainly(condition.rest[0], "then") then Fail
      else
        var body := ParseList(condition.rest[1..]);
        if body.Fail? || body.rest == [] || !IsPlainly(body.rest[0], "fi") then Fail
        else Done(If(condition.value, body.value), body.rest[1..])
    else if Reserved(ts[0].pieces) then Fail
    else
      var n := CountWords(ts);
      Done(Simple(seq(n, k requires 0 <= k < n => ts[k].pieces)), ts[n..])
  }

  function ParseAndOr(ts: seq<Token>): (p: Parsed<Command>)
    ensures p.Done? ==> |p.rest| < |ts|
    decreases |ts|, 1
  {
    var first := ParseCommand(ts);
    if first.Fail? || first.rest == [] || first.rest[0] != AND_IF then first
    else
      var second := ParseAndOr(first.rest[1..]);
      if second.Fail? then Fail else Done(AndIf(first.value, second.value), second.rest)
  }

  function ParseList(ts: seq<Token>): (p: Parsed<seq<Command>>)
    ensures p.Done? ==> |p.rest| < |ts|
    decreases |ts|, 2
  {
    var first := ParseAndOr(ts);
    if first.Fail? then Fail
    else if first.rest == [] || first.rest[0] != SEMICOLON then Done([first.value], first.rest)
    else if |first.rest| == 1 || Closes(first.rest[1]) then Done([first.value], first.rest[1..])
    else
      var others := ParseList(first.rest[1..]);
      if others.Fail? then Fail else Done([first.value] + others.value, others.rest)
  }

  function Parse(text: string): Option<seq<Command>> {
    var tokens := Lex(text);
    if tokens.None? then None
    else
      var p := ParseList(tokens.value);
      if p.Done? && p.rest == [] then Some(p.value) else None
  }

  // ---- running

  /** Shell variables, the last exit status, the programs run so far. */
  datatype Env = Env(vars: map<string, string>, last: nat, calls: seq<seq<string>>, exited: bool)

  /** What programs answer: the exit status of the n-th one run. */
  type Replies = nat -> nat

  function Parameter(name: string, env: Env): string {
    if name == "?" then Decimal(env.last)
    else if name in env.vars then env.vars[name]
    else ""
  }

  /** The text of a word. Where fields would be split, an unquoted parameter has no meaning here. */
  function Expand(w: Pieces, env: Env, splitting: bool): Option<string> {
    if w == [] then Some("")
    else
      var rest := Expand(w[1..], env, splitting);
      if rest.None? then None
      else match w[0]
        case Plain(c) => if IsInert(c) then Some([c] + rest.value) else None
        case Quoted(c) => Some([c] + rest.value)
        case Param(name, inQuotes) =>
          if splitting && !inQuotes then None else Some(Parameter(name, env) + rest.value)
  }

  function ExpandWord(w: Pieces, env: Env): Option<string> {
    if w == [Plain('[')] then Some("[") else Expand(w, env, true)
  }

  function ExpandAll(words: seq<Pieces>, env: Env): Option<seq<string>> {
    if words == [] then Some([])
    else
      var first, rest := ExpandWord(words[0], env), ExpandAll(words[1..], env);
      if first.None? || rest.None? then None else Some([first.value] + rest.value)
  }

  /** The length of the name before the = of an assignment, if the word is one. */
  function AssignedName(w: Pieces): Option<nat> {
    if w == [] || !w[0].Plain? then None
    else if w[0].c == '=' then Some(0)
    else if !IsNameChar(w[0].c) then None
    else
      var rest := AssignedName(w[1..]);
      if rest.None? then None else Some(rest.value + 1)
  }

  predicate IsNumber(s: string) {
    s != "" && forall c | c in s :: IsDigit(c)
  }

  function RunProgram(argv: seq<string>, env: Env, replies: Replies): Option<Env>
    requires argv != []
  {
    if argv[0] == "exit" then
      if |argv| == 2 && IsNumber(argv[1]) then Some(env.(last := ParseDecimal(argv[1]), exited := true)) else None
    else if argv[0] == "[" then
      if |argv| == 5 && argv[2] == "-ne" && argv[4] == "]" && IsNumber(argv[1]) && IsNumber(argv[3])
      then Some(env.(last := if ParseDecimal(argv[1]) != ParseDecimal(argv[3]) then 0 else 1))
      else None
    else
      Some(env.(calls := env.calls + [argv], last := replies(|env.calls|)))
  }

  function RunSimple(words: seq<Pieces>, env: Env, replies: Replies): Option<Env> {
    if words == [] then None
    else
      var name := AssignedName(words[0]);
      if name.Some? && name.value > 0 then
        var n := name.value;
        var value := if |words| == 1 && n < |words[0]| then Expand(words[0][n + 1..], env, false) else None;
        if value.None? || exists k :: 0 <= k < n && !words[0][k].Plain? then None
        else Some(env.(vars := env.vars[seq(n, k requires 0 <= k < n => words[0][k].c) := value.value], last := 0))
      else
        var argv := ExpandAll(words, env);
        if argv.None? || argv.value == [] then None else RunProgram(argv.value, env, replies)
  }

  function Run(c: Command, env: Env, replies: Replies): Option<Env>
    decreases c
  {
    match c
    case Simple(words) => RunSimple(words, env, replies)
    case AndIf(first, second) =>
      var r := Run(first, env, replies);
      if r.None? || r.value.exited || r.value.last != 0 then r else Run(second, r.value, replies)
    case If(condition, body) =>
      var r := RunList(condition, env, replies);
      if r.None? || r.value.exited then r
      else if r.value.last == 0 then RunList(body, r.value, replies)
      else Some(r.value.(last := 0))
  }

  function RunList(cs: seq<Command>, env: Env, replies: Replies): Option<Env>
    decreases cs
  {
    if cs == [] then Some(env)
    else
      var r := Run(cs[0], env, replies);
      if r.None? || r.value.exited then r else RunList(cs[1..], r.value, replies)
  }

  /** The programs a shell runs for a text, in order, and its exit status. */
  datatype Outcome = Outcome(calls: seq<seq<string>>, status: nat)

  function Shell(text: string, replies: Replies): Option<Outcome> {
    var program := Parse(text);
    if program.None? then None
    else
      var end := RunList(program.value, Env(map[], 0, [], false), replies);
      if end.None? then None else Some(Outcome(end.value.calls, end.value.last))
  }

  // ---- what parses to what

  lemma {:induction false} CountAllWords(words: seq<Pieces>, rest: seq<Token>)
    requires rest == [] || !rest[0].Word?
    ensures CountWords(Words(words) + rest) == |words|
  {
    if words == [] {
      assert Words(words) + rest == rest;
    } else {
      assert (Words(words) + rest)[1..] == Words(words[1..]) + rest;
      CountAllWords(words[1..], rest);
    }
  }

  lemma ParsesSimple(words: seq<Pieces>, rest: seq<Token>)
    requires words != [] && !Reserved(words[0]) && (rest == [] || !rest[0].Word?)
    ensures ParseCommand(Words(words) + rest) == Done(Simple(words), rest)
  {
    hide Reserved;
    var ts := Words(words) + rest;
    CountAllWords(words, rest);
    assert ts[0] == Word(words[0]);
    IfIsReserved();
    assert ts[|words|..] == rest;
    assert seq(|words|, k requires 0 <= k < |words| => ts[k].pieces) == words;
  }

  lemma IfIsReserved()
    ensures Reserved(AsPlain("if"))
  {
  }

  /** A command followed by a semicolon and more. */
  lemma ParsesNext(ts: seq<Token>, first: Command, rest: seq<Token>, others: seq<Command>, end: seq<Token>)
    requires ParseAndOr(ts) == Done(first, [SEMICOLON] + rest)
    requires rest != [] && !Closes(rest[0]) && ParseList(rest) == Done(others, end)
    ensures ParseList(ts) == Done([first] + others, end)
  {
    assert ([SEMICOLON] + rest)[1..] == rest;
  }

  lemma ParsesStatement(words: seq<Pieces>, rest: seq<Token>)
    requires words != [] && !Reserved(words[0])
    ensures ParseAndOr(Words(words) + ([SEMICOLON] + rest)) == Done(Simple(words), [SEMICOLON] + rest)
  {
    ParsesSimple(words, [SEMICOLON] + rest);
  }

  /** One statement of a condition or a body. */
  lemma ParsesInner(words: seq<Pieces>, rest: seq<Token>)
    requires words != [] && !Reserved(words[0]) && rest != [] && Closes(rest[0])
    ensures ParseList(Words(words) + ([SEMICOLON] + rest)) == Done([Simple(words)], rest)
  {
    hide ParseAndOr, Reserved;
    ParsesStatement(words, rest);
    assert ([SEMICOLON] + rest)[1..] == rest;
  }

  lemma ParsesAndIf(first: seq<Pieces>, second: seq<Pieces>, rest: seq<Token>)
    requires first != [] && second != [] && !Reserved(first[0]) && !Reserved(second[0])
    ensures ParseAndOr(Words(first) + ([AND_IF] + (Words(second) + ([SEMICOLON] + rest))))
         == Done(AndIf(Simple(first), Simple(second)), [SEMICOLON] + rest)
  {
    hide ParseCommand, Reserved;
    var tail := Words(second) + ([SEMICOLON] + rest);
    ParsesSimple(first, [AND_IF] + tail);
    assert ([AND_IF] + tail)[1..] == tail;
    ParsesStatement(second, rest);
  }

  lemma ParsesIf(condition: seq<Pieces>, body: seq<Pieces>, rest: seq<Token>)
    requires condition != [] && body != [] && !Reserved(condition[0]) && !Reserved(body[0])
    requires rest == [] || rest[0] != AND_IF
    ensures ParseAndOr(
              [Word(AsPlain("if"))] + (Words(condition) + ([SEMICOLON] + ([Word(AsPlain("then"))]
              + (Words(body) + ([SEMICOLON] + ([Word(AsPlain("fi"))] + rest)))))))
         == Done(If([Simple(condition)], [Simple(body)]), rest)
  {
    hide ParseList, Reserved;
    var end := [Word(AsPlain("fi"))] + rest;
    var middle := [Word(AsPlain("then"))] + (Words(body) + ([SEMICOLON] + end));
    ParsesInner(condition, middle);
    ParsesInner(body, end);
    var ts := [Word(AsPlain("if"))] + (Words(condition) + ([SEMICOLON] + middle));
    assert ts[1..] == Words(condition) + ([SEMICOLON] + middle);
    assert middle[1..] == Words(body) + ([SEMICOLON] + end);
    assert end[1..] == rest;
    assert middle[0] == Word(AsPlain("then")) && end[0] == Word(AsPlain("fi"));
  }
}
