/** Quoting of commands and directories, against the token rules of the POSIX.1-2017 Shell Command
    Language (sections 2.2 and 2.3). */
module ShellQuote {
  import opened Prelude
  import opened Strings

  // ---- How a shell reads a line ------------------------------------------------------------------

  /** A character of a word: taken literally, or still special to the shell. */
  datatype Piece = Literal(c: char) | Special(c: char)

  datatype Token = Word(pieces: seq<Piece>) | Operator(text: string)

  datatype Mode = Plain | Single | Double | Escaped | DoubleEscaped

  /** `word` is the word being read, `operator` the operator being read. */
  datatype Lexer = Lexer(mode: Mode, word: Option<seq<Piece>>, operator: string, tokens: seq<Token>)

  const START := Lexer(Plain, None, "", [])

  predicate IsBlank(c: char) { c == ' ' || c == '\t' }

  predicate IsOperatorChar(c: char) { c in "|&;<>()\n" }

  /** Characters that may be special in an unquoted word (section 2.2). */
  predicate MayBeSpecial(c: char) { c in "$`*?[#~=%" }

  function Extend(l: Lexer, p: Piece): Lexer {
    l.(word := Some((if l.word.Some? then l.word.value else []) + [p]))
  }

  function Open(l: Lexer, mode: Mode): Lexer {
    l.(mode := mode, word := Some(if l.word.Some? then l.word.value else []))
  }

  /** Ends the token being read. */
  function Delimit(l: Lexer): Lexer {
    var words := if l.word.Some? then l.tokens + [Word(l.word.value)] else l.tokens;
    l.(word := None, operator := "", tokens := if l.operator != "" then words + [Operator(l.operator)] else words)
  }

  /** One character of input (section 2.3); doubled operators are one token. */
  function Read(l: Lexer, c: char): Lexer {
    match l.mode
    case Single => if c == '\'' then l.(mode := Plain) else Extend(l, Literal(c))
    case Escaped => if c == '\n' then l.(mode := Plain) else Extend(l, Literal(c)).(mode := Plain)
    case Double =>
      if c == '"' then l.(mode := Plain)
      else if c == '\\' then l.(mode := DoubleEscaped)
      else Extend(l, if c == '$' || c == '`' then Special(c) else Literal(c))
    case DoubleEscaped =>
      if c == '\n' then l.(mode := Double)
      else if c in "$`\"\\" then Extend(l, Literal(c)).(mode := Double)
      else Extend(Extend(l, Literal('\\')), Literal(c)).(mode := Double)
    case Plain =>
      if l.operator == [c] && c in "|&;<>" then Delimit(l.(operator := [c, c]))
      else
        var d := if l.operator != "" then Delimit(l) else l;
        if IsBlank(c) then Delimit(d)
        else if IsOperatorChar(c) then Delimit(d).(operator := [c])
        else if c == '\'' then Open(d, Single)
        else if c == '"' then Open(d, Double)
        else if c == '\\' then Open(d, Escaped)
        else Extend(d, if MayBeSpecial(c) then Special(c) else Literal(c))
  }

  function ReadAll(l: Lexer, s: string): Lexer
    decreases |s|
  {
    if s == "" then l else ReadAll(Read(l, s[0]), s[1..])
  }

  /** The tokens of a complete line. */
  function Tokens(s: string): seq<Token> { Delimit(ReadAll(START, s)).tokens }

  function Literals(s: string): (r: seq<Piece>)
    ensures |r| == |s|
  {
    seq(|s|, i requires 0 <= i < |s| => Literal(s[i]))
  }

  // ---- The source's quoting ------------------------------------------------------------------------

  /** Every quote becomes quote, backslash, quote, quote. */
  function ReplaceQuotes(s: string): string
    decreases |s|
  {
    if s == "" then "" else (if s[0] == '\'' then "'\\''" else [s[0]]) + ReplaceQuotes(s[1..])
  }

  /** `posix_quote`. */
  function PosixQuote(s: string): string { "'" + ReplaceQuotes(s) + "'" }

  /** `shell_path`. */
  function ShellPath(s: string): string {
    if "~/" <= s then "\"$HOME\"/" + PosixQuote(s[2..]) else PosixQuote(s)
  }

  /** `in_directory`. */
  function InDirectory(command: string, directory: Option<string>): string {
    if directory.None? || Trim(directory.value) in {"", "~", "~/"} then command
    else "cd -- " + ShellPath(Trim(directory.value)) + " && " + command
  }

  /** The command that is run with elevated rights. */
  function SudoCommand(raw: string): string { "sudo -- sh -lc " + PosixQuote(Trim(raw)) }

  // ---- Reading in pieces -----------------------------------------------------------------------------

  lemma {:induction false} ReadAppend(l: Lexer, a: string, b: string)
    ensures ReadAll(l, a + b) == ReadAll(ReadAll(l, a), b)
    decreases |a|
  {
    if a == "" {
      assert a + b == b;
    } else {
      assert (a + b)[1..] == a[1..] + b;
      ReadAppend(Read(l, a[0]), a[1..], b);
    }
  }

  lemma ReadOne(l: Lexer, c: char)
    ensures ReadAll(l, [c]) == Read(l, c)
  {
    assert ReadAll(l, [c]) == ReadAll(Read(l, c), [c][1..]);
  }

  /** Between tokens, or inside a plain word. */
  predicate InWords(l: Lexer) { l.mode.Plain? && l.operator == "" }

  function WordSoFar(l: Lexer): seq<Piece> { if l.word.Some? then l.word.value else [] }

  /** Inside single quotes the replaced text reads as the original, literally. */
  lemma {:induction false} QuotedReads(l: Lexer, s: string)
    requires l.mode.Single? && l.word.Some? && l.operator == ""
    ensures ReadAll(l, ReplaceQuotes(s)) == l.(word := Some(l.word.value + Literals(s)))
    decreases |s|
  {
    if s == "" {
      assert l.word.value + Literals(s) == l.word.value;
    } else {
      var head := if s[0] == '\'' then "'\\''" else [s[0]];
      ReadAppend(l, head, ReplaceQuotes(s[1..]));
      if s[0] == '\'' { QuoteReads(l); } else { ReadOne(l, s[0]); }
      QuotedReads(Extend(l, Literal(s[0])), s[1..]);
      assert Literals(s) == [Literal(s[0])] + Literals(s[1..]);
      assert l.word.value + [Literal(s[0])] + Literals(s[1..]) == l.word.value + Literals(s);
    }
  }

  /** Closing the quotation, an escaped quote, and opening it again: one literal quote. */
  lemma QuoteReads(l: Lexer)
    requires l.mode.Single? && l.word.Some? && l.operator == ""
    ensures ReadAll(l, "'\\''") == Extend(l, Literal('\''))
  {
    var s := "'\\''";
    assert s[1..] == "\\''" && s[1..][1..] == "''" && s[1..][1..][1..] == "'" && s[1..][1..][1..][1..] == "";
    var l1 := Read(l, '\'');
    var l2 := Read(l1, '\\');
    var l3 := Read(l2, '\'');
    var l4 := Read(l3, '\'');
    assert l1 == l.(mode := Plain);
    assert l2 == l.(mode := Escaped);
    assert l3 == Extend(l, Literal('\'')).(mode := Plain);
    assert l4 == Extend(l, Literal('\''));
    assert ReadAll(l, s) == ReadAll(l1, s[1..]) == ReadAll(l2, s[1..][1..]) == ReadAll(l3, "'") == ReadAll(l4, "");
  }

  /** A quoted text adds itself, literally, to the word being read. */
  lemma PosixQuoteReads(l: Lexer, s: string)
    requires InWords(l)
    ensures ReadAll(l, PosixQuote(s)) == l.(word := Some(WordSoFar(l) + Literals(s)))
  {
    var begun := Open(l, Single);
    ReadOne(l, '\'');
    ReadAppend(l, "'", ReplaceQuotes(s));
    QuotedReads(begun, s);
    ReadAppend(l, "'" + ReplaceQuotes(s), "'");
    ReadOne(ReadAll(begun, ReplaceQuotes(s)), '\'');
  }

  predicate IsOrdinary(c: char) {
    !IsBlank(c) && !IsOperatorChar(c) && !MayBeSpecial(c) && c !in "'\"\\"
  }

  lemma {:induction false} OrdinaryReads(l: Lexer, s: string)
    requires InWords(l) && s != "" && forall i | 0 <= i < |s| :: IsOrdinary(s[i])
    ensures ReadAll(l, s) == l.(word := Some(WordSoFar(l) + Literals(s)))
    decreases |s|
  {
    var l1 := Extend(l, Literal(s[0]));
    assert Read(l, s[0]) == l1;
    assert Literals(s) == [Literal(s[0])] + Literals(s[1..]);
    if |s| == 1 {
      assert Literals(s) == [Literal(s[0])];
      ReadOne(l, s[0]);
      assert s == [s[0]];
    } else {
      OrdinaryReads(l1, s[1..]);
      assert WordSoFar(l) + [Literal(s[0])] + Literals(s[1..]) == WordSoFar(l) + Literals(s);
    }
  }

  /** A plain word and the blank behind it are one token. */
  lemma WordReads(l: Lexer, s: string)
    requires InWords(l) && l.word.None? && s != "" && forall i | 0 <= i < |s| :: IsOrdinary(s[i])
    ensures ReadAll(l, s + " ") == l.(tokens := l.tokens + [Word(Literals(s))])
  {
    ReadAppend(l, s, " ");
    OrdinaryReads(l, s);
    ReadOne(ReadAll(l, s), ' ');
    assert [] + Literals(s) == Literals(s);
  }

  /** Tokens already read have no influence on what follows. */
  lemma {:induction false} TokensBefore(l: Lexer, before: seq<Token>, s: string)
    ensures ReadAll(l.(tokens := before + l.tokens), s) == ReadAll(l, s).(tokens := before + ReadAll(l, s).tokens)
    decreases |s|
  {
    if s != "" {
      ReadBefore(l, before, s[0]);
      TokensBefore(Read(l, s[0]), before, s[1..]);
    }
  }

  lemma DelimitBefore(l: Lexer, before: seq<Token>)
    ensures Delimit(l.(tokens := before + l.tokens)) == Delimit(l).(tokens := before + Delimit(l).tokens)
  {
    var words := if l.word.Some? then l.tokens + [Word(l.word.value)] else l.tokens;
    assert l.word.Some? ==> before + l.tokens + [Word(l.word.value)] == before + words;
    assert before + words + [Operator(l.operator)] == before + (words + [Operator(l.operator)]);
  }

  lemma ReadBefore(l: Lexer, before: seq<Token>, c: char)
    ensures Read(l.(tokens := before + l.tokens), c) == Read(l, c).(tokens := before + Read(l, c).tokens)
  {
    DelimitBefore(l, before);
    DelimitBefore(l.(operator := [c, c]), before);
    var d := if l.operator != "" then Delimit(l) else l;
    DelimitBefore(d, before);
  }

  /** Behind a line that ends between tokens, the rest reads as if it stood alone. */
  lemma RestReads(prefix: string, tokens: seq<Token>, rest: string)
    requires ReadAll(START, prefix) == START.(tokens := tokens)
    ensures Tokens(prefix + rest) == tokens + Tokens(rest)
  {
    ReadAppend(START, prefix, rest);
    TokensBefore(START, tokens, rest);
    assert tokens + START.tokens == tokens;
    DelimitBefore(ReadAll(START, rest), tokens);
  }

  // ---- What the wrappers mean ------------------------------------------------------------------------

  /** For every text, its quotation is exactly one word, and the word is the text. */
  lemma QuoteIsOneWord(s: string)
    ensures Tokens(PosixQuote(s)) == [Word(Literals(s))]
  {
    PosixQuoteReads(START, s);
    assert [] + Literals(s) == Literals(s);
  }

  /** Plain words, each with a blank behind it. */
  function WordLine(words: seq<string>): string {
    if words == [] then "" else words[0] + " " + WordLine(words[1..])
  }

  function WordTokens(words: seq<string>): (r: seq<Token>)
    ensures |r| == |words|
  {
    seq(|words|, i requires 0 <= i < |words| => Word(Literals(words[i])))
  }

  predicate IsPlainWord(s: string) { s != "" && forall i | 0 <= i < |s| :: IsOrdinary(s[i]) }

  lemma {:induction false} WordLineReads(l: Lexer, words: seq<string>)
    requires InWords(l) && l.word.None? && forall i | 0 <= i < |words| :: IsPlainWord(words[i])
    ensures ReadAll(l, WordLine(words)) == l.(tokens := l.tokens + WordTokens(words))
    decreases |words|
  {
    if words == [] {
      assert l.tokens + WordTokens(words) == l.tokens;
    } else {
      var l1 := l.(tokens := l.tokens + [Word(Literals(words[0]))]);
      ReadAppend(l, words[0] + " ", WordLine(words[1..]));
      WordReads(l, words[0]);
      WordLineReads(l1, words[1..]);
      assert WordTokens(words) == [Word(Literals(words[0]))] + WordTokens(words[1..]);
      assert l.tokens + [Word(Literals(words[0]))] + WordTokens(words[1..]) == l.tokens + WordTokens(words);
    }
  }

  const SUDO_WORDS := ["sudo", "--", "sh", "-lc"]

  lemma OneWordLine(word: string)
    ensures WordLine([word]) == word + " "
  {
    assert [word][1..] == [] && word + " " + "" == word + " ";
  }

  lemma WordLineMore(word: string, words: seq<string>, line: string)
    requires WordLine(words) == line
    ensures WordLine([word] + words) == word + " " + line
  {
    assert ([word] + words)[1..] == words;
  }

  lemma SudoWordsPlain()
    ensures IsPlainWord("sudo") && IsPlainWord("--") && IsPlainWord("sh") && IsPlainWord("-lc")
  {
  }

  lemma SudoLine()
    ensures WordLine(SUDO_WORDS) == "sudo -- sh -lc "
    ensures forall i | 0 <= i < |SUDO_WORDS| :: IsPlainWord(SUDO_WORDS[i])
  {
    SudoWordsPlain();
    OneWordLine("-lc");
    WordLineMore("sh", ["-lc"], "-lc ");
    WordLineMore("--", ["sh", "-lc"], "sh -lc ");
    WordLineMore("sudo", ["--", "sh", "-lc"], "-- sh -lc ");
  }

  /** The shell is started with exactly the trimmed command as its script. */
  lemma SudoCommandTokens(raw: string)
    ensures Tokens(SudoCommand(raw)) == WordTokens(SUDO_WORDS) + [Word(Literals(Trim(raw)))]
  {
    SudoLine();
    WordLineReads(START, SUDO_WORDS);
    assert START.tokens + WordTokens(SUDO_WORDS) == WordTokens(SUDO_WORDS);
    RestReads("sudo -- sh -lc ", WordTokens(SUDO_WORDS), PosixQuote(Trim(raw)));
    QuoteIsOneWord(Trim(raw));
  }

  /** The word a directory becomes: itself, or what follows the home directory. */
  function DirectoryWord(s: string): seq<Piece> {
    if "~/" <= s then [Special('$')] + Literals("HOME/") + Literals(s[2..]) else Literals(s)
  }

  /** A quoted parameter and the slash behind it. */
  lemma ParameterReads(l: Lexer, name: string, s: string)
    requires InWords(l) && l.word.None? && forall i | 0 <= i < |name| :: IsOrdinary(name[i])
    requires s == ['"', '$'] + name + ['"', '/']
    ensures ReadAll(l, s) == l.(word := Some([Special('$')] + Literals(name + "/")))
  {
    var inside := l.(mode := Double, word := Some([Special('$')]));
    HomeOpens(l);
    ReadAppend(l, ['"', '$'], name);
    DoubleReads(inside, name);
    ReadAppend(l, ['"', '$'] + name, ['"', '/']);
    ParameterCloses(inside.(word := Some([Special('$')] + Literals(name))), [Special('$')], name);
  }

  lemma HomeReads(l: Lexer)
    requires InWords(l) && l.word.None?
    ensures ReadAll(l, "\"$HOME\"/") == l.(word := Some([Special('$')] + Literals("HOME/")))
  {
    assert "HOME" + "/" == "HOME/" && "\"$HOME\"/" == ['"', '$'] + "HOME" + ['"', '/'];
    ParameterReads(l, "HOME", "\"$HOME\"/");
  }

  lemma HomeOpens(l: Lexer)
    requires InWords(l) && l.word.None?
    ensures ReadAll(l, ['"', '$']) == l.(mode := Double, word := Some([Special('$')]))
  {
    ReadTwo(l, '"', '$');
    assert [] + [Special('$')] == [Special('$')];
  }

  lemma ParameterCloses(l: Lexer, head: seq<Piece>, name: string)
    requires l.mode.Double? && l.operator == "" && l.word == Some(head + Literals(name))
    ensures ReadAll(l, ['"', '/']) == l.(mode := Plain, word := Some(head + Literals(name + "/")))
  {
    ReadTwo(l, '"', '/');
    assert Literals(name + "/") == Literals(name) + [Literal('/')];
    assert head + Literals(name) + [Literal('/')] == head + Literals(name + "/");
  }

  lemma ReadTwo(l: Lexer, c: char, d: char)
    ensures ReadAll(l, [c, d]) == Read(Read(l, c), d)
  {
    assert [c, d] == [c] + [d];
    ReadAppend(l, [c], [d]);
    ReadOne(l, c);
    ReadOne(Read(l, c), d);
  }

  /** Letters inside double quotes. */
  lemma {:induction false} DoubleReads(l: Lexer, s: string)
    requires l.mode.Double? && l.word.Some? && forall i | 0 <= i < |s| :: IsOrdinary(s[i])
    ensures ReadAll(l, s) == l.(word := Some(l.word.value + Literals(s)))
    decreases |s|
  {
    if s == "" {
      assert l.word.value + Literals(s) == l.word.value;
    } else {
      assert Read(l, s[0]) == Extend(l, Literal(s[0]));
      DoubleReads(Extend(l, Literal(s[0])), s[1..]);
      assert Literals(s) == [Literal(s[0])] + Literals(s[1..]);
      assert l.word.value + [Literal(s[0])] + Literals(s[1..]) == l.word.value + Literals(s);
    }
  }

  lemma ShellPathReads(l: Lexer, s: string)
    requires InWords(l) && l.word.None?
    ensures ReadAll(l, ShellPath(s)) == l.(word := Some(DirectoryWord(s)))
  {
    if "~/" <= s {
      ReadAppend(l, "\"$HOME\"/", PosixQuote(s[2..]));
      HomeReads(l);
      PosixQuoteReads(l.(word := Some([Special('$')] + Literals("HOME/"))), s[2..]);
    } else {
      PosixQuoteReads(l, s);
      assert [] + Literals(s) == Literals(s);
    }
  }

  const CD_WORDS := ["cd", "--"]

  lemma CdLine()
    ensures WordLine(CD_WORDS) == "cd -- " && forall i | 0 <= i < |CD_WORDS| :: IsPlainWord(CD_WORDS[i])
  {
    OneWordLine("--");
    WordLineMore("cd", ["--"], "-- ");
  }

  /** What stands in front of a command that runs in a directory. */
  function DirectoryTokens(path: string): seq<Token> {
    WordTokens(CD_WORDS) + [Word(DirectoryWord(path))] + [Operator("&&")]
  }

  lemma CdReads(path: string)
    ensures ReadAll(START, "cd -- " + ShellPath(path) + " && ") == START.(tokens := DirectoryTokens(path))
  {
    var l := START.(tokens := WordTokens(CD_WORDS));
    CdLine();
    WordLineReads(START, CD_WORDS);
    assert START.tokens + WordTokens(CD_WORDS) == WordTokens(CD_WORDS);
    ReadAppend(START, "cd -- ", ShellPath(path));
    ShellPathReads(l, path);
    ReadAppend(START, "cd -- " + ShellPath(path), " && ");
    AndReads(l.(word := Some(DirectoryWord(path))));
  }

  /** A working directory is passed to `cd` as one argument, in front of the unchanged command. */
  lemma InDirectoryTokens(command: string, directory: Option<string>)
    ensures directory.None? || Trim(directory.value) in {"", "~", "~/"} ==> InDirectory(command, directory) == command
    ensures directory.Some? && Trim(directory.value) !in {"", "~", "~/"} ==>
      Tokens(InDirectory(command, directory)) == DirectoryTokens(Trim(directory.value)) + Tokens(command)
  {
    if directory.Some? && Trim(directory.value) !in {"", "~", "~/"} {
      var path := Trim(directory.value);
      CdReads(path);
      var prefix := "cd -- " + ShellPath(path) + " && ";
      assert InDirectory(command, directory) == prefix + command;
      RestReads(prefix, DirectoryTokens(path), command);
    }
  }

  lemma AndReads(l: Lexer)
    requires InWords(l) && l.word.Some?
    ensures ReadAll(l, " && ") == l.(word := None, tokens := l.tokens + [Word(l.word.value)] + [Operator("&&")])
  {
    var s := " && ";
    assert s[1..] == "&& " && s[1..][1..] == "& " && s[1..][1..][1..] == " " && s[1..][1..][1..][1..] == "";
    var l1 := l.(word := None, tokens := l.tokens + [Word(l.word.value)]);
    assert Read(l, ' ') == l1;
    assert Read(l1, '&') == l1.(operator := "&");
    var l3 := l1.(tokens := l1.tokens + [Operator("&&")]);
    assert ['&', '&'] == "&&";
    assert Read(l1.(operator := "&"), '&') == l3;
    assert Read(l3, ' ') == l3;
    assert ReadAll(l, s) == ReadAll(l1, s[1..]) == ReadAll(l1.(operator := "&"), s[1..][1..]) == ReadAll(l3, " ")
      == ReadAll(l3, "");
  }

  /** Different texts have different quotations. */
  lemma QuoteInjective(a: string, b: string)
    requires PosixQuote(a) == PosixQuote(b)
    ensures a == b
  {
    QuoteIsOneWord(a);
    QuoteIsOneWord(b);
    assert Literals(a) == Literals(b);
    forall i | 0 <= i < |a| ensures a[i] == b[i] { assert Literals(a)[i] == Literals(b)[i]; }
  }
}
