/**
 Token recognition and quoting of the POSIX shell (POSIX.1-2017 XCU sections 2.2
 and 2.3) as a machine that reads one character at a time, so that the meaning of
 a text is built from the meaning of its parts. Command substitution, ${...} and
 here-documents are not lexed: the machine gives up on them.
 */
module ShellLexer {
  import opened Wrappers

  /** A character as written, a quoted one, or a parameter to be expanded. */
  datatype Piece = Plain(c: char) | Quoted(c: char) | Param(name: string, inQuotes: bool)

  type Pieces = seq<Piece>

  datatype Token = Word(pieces: Pieces) | IoNumber(number: string) | Operator(op: string)

  datatype Mode =
    | Blank                              // between tokens
    | Comment
    | InWord
    | Escape                             // after a backslash outside quotes
    | Single                             // inside '...'
    | Double                             // inside "..."
    | DoubleEscape
    | Dollar(inQuotes: bool)             // after $
    | Name(name: string, inQuotes: bool) // inside the name of a parameter
    | Operating(first: char)             // after the first character of an operator
    | Broken

  /** The tokens read, the word being read, and where the reader is. */
  datatype Lexer = Lexer(tokens: seq<Token>, word: Pieces, mode: Mode)

  const Start := Lexer([], [], Blank)

  predicate IsOperatorChar(c: char) {
    c in {'&', '|', ';', '<', '>', '(', ')'}
  }

  predicate IsTwoCharOperator(first: char, c: char) {
    [first, c] in {"&&", "||", ";;", "<&", ">&", ">>", "<>", ">|"}
  }

  predicate IsNameStart(c: char) {
    'a' <= c <= 'z' || 'A' <= c <= 'Z' || c == '_'
  }

  predicate IsNameChar(c: char) {
    IsNameStart(c) || '0' <= c <= '9'
  }

  predicate IsSpecialParameter(c: char) {
    c in {'?', '@', '*', '#', '-', '$', '!'} || '0' <= c <= '9'
  }

  predicate AllDigits(w: Pieces) {
    w != [] && forall k | 0 <= k < |w| :: w[k].Plain? && '0' <= w[k].c <= '9'
  }

  function Spelling(w: Pieces): string
    requires forall k | 0 <= k < |w| :: w[k].Plain?
  {
    seq(|w|, k requires 0 <= k < |w| => w[k].c)
  }

  function AddPiece(lx: Lexer, p: Piece, mode: Mode): Lexer {
    Lexer(lx.tokens, lx.word + [p], mode)
  }

  function AddToken(lx: Lexer, t: Token, mode: Mode): Lexer {
    Lexer(lx.tokens + [t], [], mode)
  }

  /** A character outside quotes at a place where a word may start or go on. */
  function ReadOpen(lx: Lexer, c: char, started: bool): Lexer {
    if c == '\'' then lx.(mode := Single)
    else if c == '"' then lx.(mode := Double)
    else if c == '\\' then lx.(mode := Escape)
    else if c == '$' then lx.(mode := Dollar(false))
    else if c == '`' then lx.(mode := Broken)
    else if c == '#' && !started then lx.(mode := Comment)
    else if c == ' ' || c == '\t' then
      if started then AddToken(lx, Word(lx.word), Blank) else lx
    else if c == '\n' then
      var ended := if started then AddToken(lx, Word(lx.word), Blank) else lx;
      AddToken(ended, Operator("\n"), Blank)
    else if IsOperatorChar(c) then
      if !started then lx.(mode := Operating(c))
      else if (c == '<' || c == '>') && AllDigits(lx.word)
      then AddToken(lx, IoNumber(Spelling(lx.word)), Operating(c))
      else AddToken(lx, Word(lx.word), Operating(c))
    else AddPiece(lx, Plain(c), InWord)
  }

  function ReadDouble(lx: Lexer, c: char): Lexer {
    if c == '"' then lx.(mode := InWord)
    else if c == '\\' then lx.(mode := DoubleEscape)
    else if c == '$' then lx.(mode := Dollar(true))
    else if c == '`' then lx.(mode := Broken)
    else AddPiece(lx, Quoted(c), Double)
  }

  function ReadDollar(lx: Lexer, c: char, inQuotes: bool): Lexer {
    if IsNameStart(c) then lx.(mode := Name([c], inQuotes))
    else if IsSpecialParameter(c) then AddPiece(lx, Param([c], inQuotes), if inQuotes then Double else InWord)
    else lx.(mode := Broken)
  }

  function ReadOperating(lx: Lexer, c: char, first: char): Lexer {
    if [first, c] == "<<" then lx.(mode := Broken)
    else if IsTwoCharOperator(first, c) then AddToken(lx, Operator([first, c]), Blank)
    else ReadOpen(AddToken(lx, Operator([first]), Blank), c, false)
  }

  /** Section 2.2.3: within double quotes a backslash quotes only these; anywhere
      a backslash before a newline removes both. */
  function ReadDoubleEscape(lx: Lexer, c: char): Lexer {
    if c in {'$', '`', '"', '\\'} then AddPiece(lx, Quoted(c), Double)
    else if c == '\n' then lx.(mode := Double)
    else Lexer(lx.tokens, lx.word + [Quoted('\\'), Quoted(c)], Double)
  }

  function Read(lx: Lexer, c: char): Lexer {
    match lx.mode
    case Blank => ReadOpen(lx, c, false)
    case Comment => if c == '\n' then AddToken(lx, Operator("\n"), Blank) else lx
    case InWord => ReadOpen(lx, c, true)
    case Escape => if c == '\n' then lx.(mode := InWord) else AddPiece(lx, Quoted(c), InWord)
    case Single => if c == '\'' then lx.(mode := InWord) else AddPiece(lx, Quoted(c), Single)
    case Double => ReadDouble(lx, c)
    case DoubleEscape => ReadDoubleEscape(lx, c)
    case Dollar(inQuotes) => ReadDollar(lx, c, inQuotes)
    case Name(name, inQuotes) =>
      if IsNameChar(c) then lx.(mode := Name(name + [c], inQuotes))
      else
        var read := AddPiece(lx, Param(name, inQuotes), if inQuotes then Double else InWord);
        if inQuotes then ReadDouble(read, c) else ReadOpen(read, c, true)
    case Operating(first) => ReadOperating(lx, c, first)
    case Broken => lx
  }

  function ReadAll(lx: Lexer, text: string): Lexer
    decreases |text|
  {
    if text == "" then lx else ReadAll(Read(lx, text[0]), text[1..])
  }

  /** At the end of the text an open quote or expansion is an error. */
  function End(lx: Lexer): Option<seq<Token>> {
    match lx.mode
    case Blank => Some(lx.tokens)
    case Comment => Some(lx.tokens)
    case InWord => Some(lx.tokens + [Word(lx.word)])
    case Name(name, inQuotes) => if inQuotes then None else Some(lx.tokens + [Word(lx.word + [Param(name, false)])])
    case Operating(first) => Some(lx.tokens + [Operator([first])])
    case _ => None
  }

  function Lex(text: string): Option<seq<Token>> {
    End(ReadAll(Start, text))
  }

  lemma {:induction false} ReadAllAppend(lx: Lexer, a: string, b: string)
    ensures ReadAll(lx, a + b) == ReadAll(ReadAll(lx, a), b)
    decreases |a|
  {
    hide Read;
    if a == "" {
      assert a + b == b;
    } else {
      assert (a + b)[1..] == a[1..] + b;
      ReadAllAppend(Read(lx, a[0]), a[1..], b);
    }
  }

  lemma ReadOne(lx: Lexer, c: char)
    ensures ReadAll(lx, [c]) == Read(lx, c)
  {
    hide Read;
  }

  lemma ReadTwo(lx: Lexer, c: char, d: char)
    ensures ReadAll(lx, [c, d]) == Read(Read(lx, c), d)
  {
    hide Read;
    assert [c, d][1..] == [d];
    ReadOne(Read(lx, c), d);
  }

  // ---- texts with a meaning of their own

  /** Read anywhere between tokens, `text` adds these tokens and nothing is left open. */
  ghost predicate Yields(text: string, tokens: seq<Token>) {
    forall before: seq<Token> :: ReadAll(Lexer(before, [], Blank), text) == Lexer(before + tokens, [], Blank)
  }

  /** Read anywhere between tokens, `text` is the beginning of one word. */
  ghost predicate Spells(text: string, pieces: Pieces) {
    forall before: seq<Token> :: ReadAll(Lexer(before, [], Blank), text) == Lexer(before, pieces, InWord)
  }

  /** Read inside a word, `text` goes on with it. */
  ghost predicate Continues(text: string, pieces: Pieces) {
    forall before: seq<Token>, word: Pieces ::
      ReadAll(Lexer(before, word, InWord), text) == Lexer(before, word + pieces, InWord)
  }

  lemma YieldsNothing()
    ensures Yields("", [])
  {
    forall before: seq<Token> ensures before + [] == before {}
  }

  lemma YieldsBoth(a: string, x: seq<Token>, b: string, y: seq<Token>)
    requires Yields(a, x) && Yields(b, y)
    ensures Yields(a + b, x + y)
  {
    hide ReadAll;
    forall before: seq<Token>
      ensures ReadAll(Lexer(before, [], Blank), a + b) == Lexer(before + (x + y), [], Blank) {
      ReadAllAppend(Lexer(before, [], Blank), a, b);
      assert before + x + y == before + (x + y);
    }
  }

  lemma SpellsMore(a: string, x: Pieces, b: string, y: Pieces)
    requires Spells(a, x) && Continues(b, y)
    ensures Spells(a + b, x + y)
  {
    hide ReadAll;
    forall before: seq<Token> ensures ReadAll(Lexer(before, [], Blank), a + b) == Lexer(before, x + y, InWord) {
      ReadAllAppend(Lexer(before, [], Blank), a, b);
    }
  }

  function Words(words: seq<Pieces>): seq<Token> {
    seq(|words|, k requires 0 <= k < |words| => Word(words[k]))
  }

  /** Read anywhere between tokens, `text` is these words, the last one still open. */
  ghost predicate Line(text: string, words: seq<Pieces>) {
    words != [] && forall before: seq<Token> ::
      ReadAll(Lexer(before, [], Blank), text)
      == Lexer(before + Words(words[..|words| - 1]), words[|words| - 1], InWord)
  }

  lemma SpellsLine(text: string, w: Pieces)
    requires Spells(text, w)
    ensures Line(text, [w])
  {
    forall before: seq<Token> ensures before + Words([w][..0]) == before {}
  }

  lemma WordThenLine(a: string, w: Pieces, b: string, words: seq<Pieces>)
    requires Spells(a, w) && Line(b, words)
    ensures Line(a + " " + b, [w] + words)
  {
    hide ReadAll;
    var n := |words| - 1;
    var all := [w] + words;
    SpellsLine(a, w);
    LineThenSpace(a, [w]);
    forall before: seq<Token>
      ensures ReadAll(Lexer(before, [], Blank), a + " " + b)
           == Lexer(before + Words(all[..|all| - 1]), all[|all| - 1], InWord) {
      ReadAllAppend(Lexer(before, [], Blank), a + " ", b);
      assert all[..|all| - 1] == [w] + words[..n];
      assert before + Words([w]) + Words(words[..n]) == before + Words(all[..|all| - 1]);
    }
  }

  lemma WordsLast(before: seq<Token>, words: seq<Pieces>)
    requires words != []
    ensures before + Words(words[..|words| - 1]) + [Word(words[|words| - 1])] == before + Words(words)
  {
  }

  /** The last word ends at a space ... */
  lemma LineThenSpace(text: string, words: seq<Pieces>)
    requires Line(text, words)
    ensures Yields(text + " ", Words(words))
  {
    hide ReadAll;
    forall before: seq<Token>
      ensures ReadAll(Lexer(before, [], Blank), text + " ") == Lexer(before + Words(words), [], Blank)
    {
      ReadAllAppend(Lexer(before, [], Blank), text, " ");
      var lx := Lexer(before + Words(words[..|words| - 1]), words[|words| - 1], InWord);
      ReadOne(lx, ' ');
      WordsLast(before, words);
    }
  }

  /** ... or at a semicolon, which is a token of its own ... */
  lemma LineThenSemicolon(text: string, words: seq<Pieces>)
    requires Line(text, words)
    ensures Yields(text + "; ", Words(words) + [Operator(";")])
  {
    hide ReadAll;
    forall before: seq<Token>
      ensures ReadAll(Lexer(before, [], Blank), text + "; ")
           == Lexer(before + (Words(words) + [Operator(";")]), [], Blank) {
      ReadAllAppend(Lexer(before, [], Blank), text, "; ");
      var lx := Lexer(before + Words(words[..|words| - 1]), words[|words| - 1], InWord);
      ReadTwo(lx, ';', ' ');
      WordsLast(before, words);
      var l1 := Read(lx, ';');
      assert l1 == Lexer(before + Words(words), [], Operating(';'));
      assert Read(l1, ' ') == Lexer(before + Words(words) + [Operator(";")], [], Blank);
      assert before + Words(words) + [Operator(";")] == before + (Words(words) + [Operator(";")]);
    }
  }

  /** ... or at the end of the text. */
  lemma LineAtEnd(a: string, x: seq<Token>, b: string, words: seq<Pieces>)
    requires Yields(a, x) && Line(b, words)
    ensures Lex(a + b) == Some(x + Words(words))
  {
    hide ReadAll;
    ReadAllAppend(Start, a, b);
    assert [] + x == x;
    WordsLast(x, words);
  }

  lemma YieldsAndIf()
    ensures Yields("&& ", [Operator("&&")])
  {
    forall before: seq<Token>
      ensures ReadAll(Lexer(before, [], Blank), "&& ") == Lexer(before + [Operator("&&")], [], Blank) {
      var lx := Lexer(before, [], Blank);
      ReadAllAppend(lx, "&&", " ");
      ReadTwo(lx, '&', '&');
      ReadOne(Lexer(before + [Operator("&&")], [], Blank), ' ');
    }
  }

  // ---- plain text

  /** Characters that are ordinary wherever they stand in a word and that no later
      expansion touches. */
  predicate IsInert(c: char) {
    'a' <= c <= 'z' || 'A' <= c <= 'Z' || '0' <= c <= '9'
      || c in {'-', '_', '=', '.', '/', ',', ':', '+', '%', '@', ']'}
  }

  function AsPlain(s: string): Pieces {
    seq(|s|, k requires 0 <= k < |s| => Plain(s[k]))
  }

  function AsQuoted(s: string): Pieces {
    seq(|s|, k requires 0 <= k < |s| => Quoted(s[k]))
  }

  lemma {:induction false} ReadPlain(before: seq<Token>, word: Pieces, s: string)
    requires forall c | c in s :: IsInert(c)
    ensures ReadAll(Lexer(before, word, InWord), s) == Lexer(before, word + AsPlain(s), InWord)
    decreases |s|
  {
    if s == "" {
      assert word + AsPlain(s) == word;
    } else {
      assert s[0] in s;
      ReadPlain(before, word + [Plain(s[0])], s[1..]);
      assert word + [Plain(s[0])] + AsPlain(s[1..]) == word + AsPlain(s);
    }
  }

  lemma ReadInert(before: seq<Token>, c: char)
    requires IsInert(c)
    ensures Read(Lexer(before, [], Blank), c) == Lexer(before, [Plain(c)], InWord)
  {
    assert [] + [Plain(c)] == [Plain(c)];
  }

  lemma PlainSpells(s: string)
    requires s != "" && forall c | c in s :: IsInert(c)
    ensures Spells(s, AsPlain(s))
  {
    forall before: seq<Token> ensures ReadAll(Lexer(before, [], Blank), s) == Lexer(before, AsPlain(s), InWord) {
      hide Read;
      assert s[0] in s;
      ReadInert(before, s[0]);
      ReadPlain(before, [Plain(s[0])], s[1..]);
      assert [Plain(s[0])] + AsPlain(s[1..]) == AsPlain(s);
    }
  }

  // ---- words as arguments

  /** Section 2.4, as far as words that are plain text go. */
  const RESERVED := {
    "if", "then", "else", "elif", "fi", "do", "done", "case", "esac", "while", "until", "for", "{", "}", "!"}

  predicate Reserved(w: Pieces) {
    exists text :: text in RESERVED && w == AsPlain(text)
  }

  lemma NotReserved(w: Pieces)
    requires w != [] && (w[0] in {Plain('r'), Plain('s'), Plain('[')}
      || (|w| > 1 && w[..2] == [Plain('e'), Plain('x')]))
    ensures !Reserved(w)
  {
    forall text | text in RESERVED ensures w != AsPlain(text) {
      assert text != "" && AsPlain(text)[0] == Plain(text[0]);
      assert |text| > 1 ==> AsPlain(text)[1] == Plain(text[1]);
      assert |w| > 1 ==> w[..2][1] == w[1];
    }
  }

  /** The text of a word that no expansion changes. */
  predicate IsFixed(w: Pieces) {
    forall k | 0 <= k < |w| :: w[k].Quoted? || (w[k].Plain? && IsInert(w[k].c))
  }

  function FixedText(w: Pieces): string
    requires IsFixed(w)
  {
    seq(|w|, k requires 0 <= k < |w| => w[k].c)
  }

  /** Tokens that are words only, all fixed: the argument vector they stand for. */
  function Arguments(tokens: seq<Token>): Option<seq<string>> {
    if tokens == [] then Some([])
    else if !tokens[0].Word? || !IsFixed(tokens[0].pieces) then None
    else
      var rest := Arguments(tokens[1..]);
      if rest.None? then None else Some([FixedText(tokens[0].pieces)] + rest.value)
  }
}
