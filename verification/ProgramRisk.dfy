/** The classes of commands, told from the text alone: exactly which commands are L2, L1 and L0, with every
    list of programs and words spelled out. */
module ProgramRisk {
  import opened CommandRisk
  import opened Prelude
  import opened Profiles
  import opened Strings

  // ---- Occurrences, whatever the case -----------------------------------------------------------------------

  /** The lower-case character that a character of the command stands for. */
  predicate Same(c: char, lower: char) {
    if 'A' <= c <= 'Z' then c as int + 32 == lower as int else c == lower
  }

  predicate ReadsAt(command: string, text: string, i: nat) {
    i + |text| <= |command| && forall k | 0 <= k < |text| :: Same(command[i + k], text[k])
  }

  predicate Reads(command: string, text: string) { exists i: nat | i <= |command| :: ReadsAt(command, text, i) }

  /** What the name of a program may go on with. */
  predicate GoesOn(c: char) {
    'a' <= c <= 'z' || 'A' <= c <= 'Z' || '0' <= c <= '9' || c == '_' || c == '-' || c == '.'
  }

  /** The name of the program, whole; a path may lead to it. */
  predicate StandsAt(command: string, program: string, i: nat) {
    && ReadsAt(command, program, i)
    && (i > 0 ==> !GoesOn(command[i - 1]))
    && (i + |program| < |command| ==> !GoesOn(command[i + |program|]))
  }

  predicate Stands(command: string, program: string) {
    exists i: nat | i <= |command| :: StandsAt(command, program, i)
  }

  predicate AnyStands(command: string, programs: seq<string>) { exists p | p in programs :: Stands(command, p) }

  lemma LowerIs(command: string, i: nat, n: nat)
    requires i + n <= |command|
    ensures |Lower(command)| == |command| && |Lower(command)[i..i + n]| == n
    ensures var part := Lower(command)[i..i + n]; forall k | 0 <= k < n :: part[k] == LowerChar(command[i + k])
  {
  }

  lemma ReadsAtIsSlice(command: string, text: string, i: nat)
    requires i + |text| <= |command|
    ensures ReadsAt(command, text, i) <==> Lower(command)[i..i + |text|] == text
  {
    LowerIs(command, i, |text|);
    var part := Lower(command)[i..i + |text|];
    if ReadsAt(command, text, i) {
      forall k | 0 <= k < |text| ensures part[k] == text[k] { assert Same(command[i + k], text[k]); }
    }
    if part == text {
      forall k | 0 <= k < |text| ensures Same(command[i + k], text[k]) { assert part[k] == text[k]; }
    }
  }

  lemma ReadsIsContains(command: string, text: string)
    ensures Reads(command, text) <==> Contains(Lower(command), text)
  {
    if Reads(command, text) {
      var i: nat :| i <= |command| && ReadsAt(command, text, i);
      ReadsAtIsSlice(command, text, i);
      assert PartAt(Lower(command), text, i);
    }
    if Contains(Lower(command), text) {
      var i: nat :| i <= |Lower(command)| && PartAt(Lower(command), text, i);
      ReadsAtIsSlice(command, text, i);
    }
  }

  lemma BoundaryIs(c: char)
    ensures GoesOn(c) <==> IsWordByte(LowerChar(c))
    ensures LowerChar(c) != '/' || c == '/'
  {
  }

  lemma StandsIsOccurs(command: string, program: string, i: nat)
    ensures StandsAt(command, program, i) <==> OccursAt(Lower(command), program, i)
  {
    if i + |program| <= |command| {
      ReadsAtIsSlice(command, program, i);
      if i > 0 { BoundaryIs(command[i - 1]); }
      if i + |program| < |command| { BoundaryIs(command[i + |program|]); }
    }
  }

  /** A program is found exactly if its name stands in the command. */
  lemma StandsIsFound(command: string, program: string)
    requires program != ""
    ensures Stands(command, program) <==> ContainsCommand(Lower(command), program)
  {
    if Stands(command, program) {
      var i: nat :| i <= |command| && StandsAt(command, program, i);
      StandsIsOccurs(command, program, i);
    }
    if ContainsCommand(Lower(command), program) {
      var i: nat :| i <= |Lower(command)| && OccursAt(Lower(command), program, i);
      StandsIsOccurs(command, program, i);
    }
  }

  // ---- Words and segments -----------------------------------------------------------------------------------

  /** A whole stretch between two separators, or between one and an end. */
  predicate StretchAt(s: string, separates: char -> bool, i: nat, j: nat) {
    && i <= j <= |s| && (forall k | i <= k < j :: !separates(s[k]))
    && (i > 0 ==> separates(s[i - 1])) && (j < |s| ==> separates(s[j]))
  }

  lemma StretchShifts(s: string, separates: char -> bool, i: nat, j: nat)
    requires s != "" && StretchAt(s[1..], separates, i, j)
    ensures (i > 0 || separates(s[0])) ==>
      StretchAt(s, separates, i + 1, j + 1) && s[i + 1..j + 1] == s[1..][i..j]
    ensures i == 0 && !separates(s[0]) ==> StretchAt(s, separates, 0, j + 1) && s[0..j + 1] == [s[0]] + s[1..][0..j]
  {
    var t := s[1..];
    forall k | i < k < j + 1 ensures !separates(s[k]) { assert t[k - 1] == s[k]; }
    if i > 0 { assert t[i - 1] == s[i]; }
    if j < |t| { assert t[j] == s[j + 1]; }
    assert s[i + 1..j + 1] == t[i..j];
  }

  lemma StretchOfRest(s: string, separates: char -> bool, i: nat, j: nat)
    requires s != "" && StretchAt(s, separates, i, j)
    ensures i > 0 ==> StretchAt(s[1..], separates, i - 1, j - 1) && s[1..][i - 1..j - 1] == s[i..j]
    ensures i == 0 && j > 0 ==> StretchAt(s[1..], separates, 0, j - 1) && s[0..j] == [s[0]] + s[1..][0..j - 1]
  {
    var t := s[1..];
    forall k | 0 <= k < |t| ensures t[k] == s[k + 1] { }
    if i > 0 { assert t[i - 1..j - 1] == s[i..j]; }
    if i == 0 && j > 0 { assert s[0..j] == [s[0]] + t[0..j - 1]; }
  }

  lemma PiecesUnfold(s: string, separates: char -> bool, q: nat)
    requires s != "" && q < |Pieces(s, separates)|
    ensures var rest := Pieces(s[1..], separates); var piece := Pieces(s, separates)[q];
      if separates(s[0]) then
        |Pieces(s, separates)| == 1 + |rest| && piece == if q == 0 then "" else rest[q - 1]
      else
        |Pieces(s, separates)| == |rest| && piece == if q == 0 then [s[0]] + rest[0] else rest[q]
  {
  }

  lemma StretchHere(s: string, separates: char -> bool)
    ensures s == "" || separates(s[0]) ==> StretchAt(s, separates, 0, 0) && s[0..0] == ""
  {
  }

  /** Every piece is a stretch, the first piece the one at the start. */
  lemma {:induction false} PieceIsStretch(s: string, separates: char -> bool, q: nat) returns (i: nat, j: nat)
    requires q < |Pieces(s, separates)|
    ensures StretchAt(s, separates, i, j) && s[i..j] == Pieces(s, separates)[q] && (q == 0 <==> i == 0)
  {
    i, j := 0, 0;
    StretchHere(s, separates);
    if s != "" {
      PiecesUnfold(s, separates, q);
      if !separates(s[0]) {
        i, j := PieceIsStretch(s[1..], separates, q);
        StretchShifts(s, separates, i, j);
        i, j := if i == 0 then 0 else i + 1, j + 1;
      } else if q > 0 {
        i, j := PieceIsStretch(s[1..], separates, q - 1);
        StretchShifts(s, separates, i, j);
        i, j := i + 1, j + 1;
      }
    }
  }

  lemma PiecesFold(s: string, separates: char -> bool, q: nat)
    requires s != "" && q < |Pieces(s[1..], separates)|
    ensures var rest := Pieces(s[1..], separates); var pieces := Pieces(s, separates);
      if separates(s[0]) then q + 1 < |pieces| && pieces[q + 1] == rest[q]
      else q < |pieces| && pieces[q] == if q == 0 then [s[0]] + rest[0] else rest[q]
  {
  }

  lemma FirstPiece(s: string, separates: char -> bool)
    ensures s == "" || separates(s[0]) ==> Pieces(s, separates)[0] == ""
  {
  }

  /** Every stretch is a piece, the one at the start the first. */
  lemma {:induction false} StretchIsPiece(s: string, separates: char -> bool, i: nat, j: nat) returns (q: nat)
    requires StretchAt(s, separates, i, j)
    ensures q < |Pieces(s, separates)| && Pieces(s, separates)[q] == s[i..j] && (i == 0 <==> q == 0)
  {
    q := 0;
    FirstPiece(s, separates);
    if s != "" && (i > 0 || j > 0) {
      StretchOfRest(s, separates, i, j);
      q := StretchIsPiece(s[1..], separates, if i > 0 then i - 1 else 0, j - 1);
      PiecesFold(s, separates, q);
      q := if separates(s[0]) then q + 1 else q;
    }
  }

  /** Among the cleaned pieces are exactly the non-empty ones, cleaned. */
  lemma {:induction false} CleanedAre(pieces: seq<string>, clean: string -> string, word: string)
    ensures word in Cleaned(pieces, clean) <==> word != "" && exists p | p in pieces :: clean(p) == word
  {
    if pieces != [] {
      CleanedAre(pieces[1..], clean, word);
      assert pieces == [pieces[0]] + pieces[1..];
    }
  }

  /** The middle of a text, from which the characters to be trimmed are gone at both ends. */
  predicate MiddleAt(s: string, trims: char -> bool, a: nat, b: nat) {
    && a <= b <= |s| && (forall k | 0 <= k < a :: trims(s[k])) && (forall k | b <= k < |s| :: trims(s[k]))
    && (a < b ==> !trims(s[a]) && !trims(s[b - 1]))
  }

  lemma {:induction false} TrimmedIsMiddle(s: string, trims: char -> bool) returns (a: nat, b: nat)
    ensures MiddleAt(s, trims, a, b) && TrimMatches(s, trims) == s[a..b]
    decreases |s|
  {
    if s != "" && trims(s[0]) {
      a, b := TrimmedIsMiddle(s[1..], trims);
      assert s[1..][a..b] == s[a + 1..b + 1];
      MiddleShifts(s, trims, a, b);
      a, b := a + 1, b + 1;
    } else if s != "" && trims(s[|s| - 1]) {
      a, b := TrimmedIsMiddle(s[..|s| - 1], trims);
      assert s[..|s| - 1][a..b] == s[a..b];
    } else {
      a, b := 0, |s|;
      assert s[0..|s|] == s;
    }
  }

  lemma MiddleShifts(s: string, trims: char -> bool, a: nat, b: nat)
    requires s != "" && trims(s[0]) && MiddleAt(s[1..], trims, a, b)
    ensures MiddleAt(s, trims, a + 1, b + 1)
  {
    forall k | 0 <= k < a + 1 || b + 1 <= k < |s| ensures trims(s[k]) {
      if k > 0 { assert s[1..][k - 1] == s[k]; }
    }
  }

  lemma MiddleOnce(s: string, trims: char -> bool, a: nat, b: nat, a': nat, b': nat)
    requires MiddleAt(s, trims, a, b) && MiddleAt(s, trims, a', b') && a < b
    ensures a' == a && b' == b
  {
  }

  /** The marks that are cut off a word at both ends. */
  predicate Wraps(c: char) { c == '\'' || c == '"' || c == '(' || c == ')' || c == '{' || c == '}' || c == ',' }

  /** The word is what stands between whitespace, in any case, less the marks around it. */
  predicate WordAt(s: string, word: string, i: nat, a: nat, b: nat, j: nat) {
    && i <= a < b <= j <= |s| && StretchAt(s, IsWhitespace, i, j)
    && (forall k | i <= k < a :: Wraps(s[k])) && (forall k | b <= k < j :: Wraps(s[k]))
    && !Wraps(s[a]) && !Wraps(s[b - 1])
    && |word| == b - a && ReadsAt(s, word, a)
  }

  ghost predicate IsWord(s: string, word: string) {
    exists i: nat, a: nat, b: nat, j: nat :: WordAt(s, word, i, a, b, j)
  }

  lemma WrapsIsWrapping(c: char)
    ensures Wraps(c) <==> IsWrapping(c)
  {
  }

  lemma MiddleInside(s: string, i: nat, j: nat, a: nat, b: nat)
    requires i <= j <= |s| && a <= b <= j - i
    ensures MiddleAt(s[i..j], IsWrapping, a, b) <==>
      && (forall k | i <= k < i + a :: Wraps(s[k])) && (forall k | i + b <= k < j :: Wraps(s[k]))
      && (a < b ==> !Wraps(s[i + a]) && !Wraps(s[i + b - 1]))
    ensures s[i..j][a..b] == s[i + a..i + b]
  {
    var t := s[i..j];
    SliceOfSlice(s, i, j - i, a, b - a);
    forall k | 0 <= k < |t| ensures Wraps(s[i + k]) <==> IsWrapping(t[k]) { WrapsIsWrapping(t[k]); }
    if MiddleAt(t, IsWrapping, a, b) {
      forall k | i <= k < i + a ensures Wraps(s[k]) { assert IsWrapping(t[k - i]); }
      forall k | i + b <= k < j ensures Wraps(s[k]) { assert IsWrapping(t[k - i]); }
    }
  }

  lemma MiddleIsCleaned(piece: string, a: nat, b: nat)
    requires MiddleAt(piece, IsWrapping, a, b) && a < b
    ensures CleanWord(piece) == Lower(piece[a..b])
  {
    var a', b' := TrimmedIsMiddle(piece, IsWrapping);
    MiddleOnce(piece, IsWrapping, a, b, a', b');
  }

  lemma MiddleReads(s: string, word: string, i: nat, j: nat, a: nat, b: nat)
    requires i <= j <= |s| && a <= b <= j - i && |word| == b - a && ReadsAt(s, word, i + a)
    ensures Lower(s[i..j][a..b]) == word
  {
    SliceOfSlice(s, i, j - i, a, b - a);
    ReadsAtIsSlice(s, word, i + a);
    LowerOfSlice(s, i + a, i + b);
  }

  lemma MiddleOfWord(s: string, word: string, i: nat, j: nat, a: nat, b: nat)
    requires i <= j <= |s| && a < b <= j - i && WordAt(s, word, i, i + a, i + b, j)
    ensures MiddleAt(s[i..j], IsWrapping, a, b)
  {
    MiddleInside(s, i, j, a, b);
  }

  lemma WordIsCleaned(s: string, word: string, i: nat, a: nat, b: nat, j: nat)
    requires i <= j <= |s| && a < b <= j - i && WordAt(s, word, i, i + a, i + b, j)
    ensures CleanWord(s[i..j]) == word
  {
    MiddleOfWord(s, word, i, j, a, b);
    MiddleReads(s, word, i, j, a, b);
    MiddleIsCleaned(s[i..j], a, b);
  }

  lemma WordIsShellWord(s: string, word: string, i: nat, a: nat, b: nat, j: nat)
    requires WordAt(s, word, i, a, b, j)
    ensures word in ShellWords(s)
  {
    var q := StretchIsPiece(s, IsWhitespace, i, j);
    WordIsCleaned(s, word, i, a - i, b - i, j);
    CleanedAre(Pieces(s, IsWhitespace), CleanWord, word);
    assert Pieces(s, IsWhitespace)[q] in Pieces(s, IsWhitespace);
  }

  lemma LowerOfSlice(s: string, a: nat, b: nat)
    requires a <= b <= |s|
    ensures Lower(s[a..b]) == Lower(s)[a..b]
  {
  }

  lemma ShellWordIsWord(s: string, word: string)
    requires word in ShellWords(s)
    ensures IsWord(s, word)
  {
    CleanedAre(Pieces(s, IsWhitespace), CleanWord, word);
    var q: nat :| q < |Pieces(s, IsWhitespace)| && CleanWord(Pieces(s, IsWhitespace)[q]) == word;
    var i, j := PieceIsStretch(s, IsWhitespace, q);
    var a, b := TrimmedIsMiddle(s[i..j], IsWrapping);
    MiddleInside(s, i, j, a, b);
    LowerOfSlice(s, i + a, i + b);
    ReadsAtIsSlice(s, word, i + a);
    assert WordAt(s, word, i, i + a, i + b, j);
  }

  lemma LowerKeepsWord(command: string, word: string, i: nat, a: nat, b: nat, j: nat)
    ensures WordAt(Lower(command), word, i, a, b, j) <==> WordAt(command, word, i, a, b, j)
  {
    var lower := Lower(command);
    forall k | 0 <= k < |command|
      ensures IsWhitespace(lower[k]) == IsWhitespace(command[k]) && Wraps(lower[k]) == Wraps(command[k])
    {
    }
    if a + |word| <= |command| {
      ReadsAtIsSlice(command, word, a);
      ReadsAtIsSlice(lower, word, a);
      LowerIdempotent(command);
    }
  }

  /** The words of a command are what stands between whitespace, in lower case, less the marks around it. */
  lemma WordsMeans(command: string, word: string)
    ensures word in ShellWords(Lower(command)) <==> IsWord(command, word)
  {
    if word in ShellWords(Lower(command)) {
      ShellWordIsWord(Lower(command), word);
      var i: nat, a: nat, b: nat, j: nat :| WordAt(Lower(command), word, i, a, b, j);
      LowerKeepsWord(command, word, i, a, b, j);
    }
    if IsWord(command, word) {
      var i: nat, a: nat, b: nat, j: nat :| WordAt(command, word, i, a, b, j);
      LowerKeepsWord(command, word, i, a, b, j);
      WordIsShellWord(Lower(command), word, i, a, b, j);
    }
  }

  /** The word `core`, with any number of dashes on either side. */
  predicate DashedAt(word: string, core: string, a: nat) {
    && a + |core| <= |word| && word[a..a + |core|] == core
    && (forall k | 0 <= k < a :: word[k] == '-') && (forall k | a + |core| <= k < |word| :: word[k] == '-')
  }

  /** The command has the word, with or without dashes. */
  ghost predicate Says(command: string, core: string) {
    exists word, a: nat :: IsWord(command, word) && DashedAt(word, core, a)
  }

  ghost predicate SaysAny(command: string, words: seq<string>) { exists w | w in words :: Says(command, w) }

  predicate Undashed(s: string) { s != "" && s[0] != '-' && s[|s| - 1] != '-' }

  lemma DashedMatches(word: string, expected: string, core: string)
    requires Undashed(core) && TrimMatches(expected, IsDash) == core
    ensures MatchesWord(word, expected) <==> exists a: nat :: DashedAt(word, core, a)
  {
    var a, b := TrimmedIsMiddle(word, IsDash);
    if MatchesWord(word, expected) { assert DashedAt(word, core, a); }
    if exists a: nat :: DashedAt(word, core, a) {
      var c: nat :| DashedAt(word, core, c);
      assert word[c] == core[0] && word[c + |core| - 1] == core[|core| - 1];
      MiddleOnce(word, IsDash, c, c + |core|, a, b);
    }
  }

  lemma SaysIsWord(command: string, expected: string, core: string)
    requires Undashed(core) && TrimMatches(expected, IsDash) == core
    ensures Says(command, core) <==> exists t | t in ShellWords(Lower(command)) :: MatchesWord(t, expected)
  {
    if Says(command, core) {
      var word, a: nat :| IsWord(command, word) && DashedAt(word, core, a);
      WordsMeans(command, word);
      DashedMatches(word, expected, core);
    }
    if exists t | t in ShellWords(Lower(command)) :: MatchesWord(t, expected) {
      var t :| t in ShellWords(Lower(command)) && MatchesWord(t, expected);
      WordsMeans(command, t);
      DashedMatches(t, expected, core);
    }
  }

  // ---- The three classes ------------------------------------------------------------------------------------

  /** The last part of a path, or the whole word, begins with the text at `k`. */
  predicate BeginsAfterSlash(word: string, text: string, k: nat) {
    && k + |text| <= |word| && word[k..k + |text|] == text
    && (k > 0 ==> word[k - 1] == '/') && (forall l | k <= l < |word| :: word[l] != '/')
  }

  /** Formats a file system: a word such as "mkfs.ext4", with or without a path. */
  ghost predicate Formats(command: string) {
    exists word, k: nat :: IsWord(command, word) && BeginsAfterSlash(word, "mkfs.", k)
  }

  /** A short flag with an f in it, such as "-fd", or any other word that starts with a dash and has an f. */
  ghost predicate Forces(command: string) {
    exists word :: IsWord(command, word) && word != "" && word[0] == '-' && 'f' in word
  }

  ghost predicate ResetsHard(command: string) { IsWord(command, "reset") && IsWord(command, "--hard") }

  ghost predicate PushesByForce(command: string) {
    && IsWord(command, "push")
    && (IsWord(command, "--force") || IsWord(command, "--force-with-lease") || IsWord(command, "-f"))
  }

  ghost predicate DiscardsInGit(command: string) {
    && Stands(command, "git")
    && (ResetsHard(command) || (IsWord(command, "clean") && Forces(command)) || PushesByForce(command))
  }

  predicate UsesPackages(command: string) {
    AnyStands(command,
      ["apt", "apt-get", "dnf", "yum", "pacman", "zypper", "snap", "npm", "pnpm", "pip", "pip3"])
  }

  /** Names a program that is destructive whatever it is called with. */
  predicate NamesDestructive(command: string) {
    || AnyStands(command, ["sudo", "su"]) || AnyStands(command, ["reboot", "shutdown", "poweroff", "halt"])
    || AnyStands(command, ["rm", "rmdir", "unlink"]) || AnyStands(command, ["kill", "pkill", "killall"])
    || AnyStands(command, ["mkfs", "fdisk", "parted", "wipefs"])
  }

  /** Everything that makes a command L2. */
  ghost predicate Destructive(command: string) {
    || NamesDestructive(command)
    || (Stands(command, "systemctl") && SaysAny(command, ["reboot", "poweroff", "halt", "kill"]))
    || (Stands(command, "find") && Says(command, "delete"))
    || Formats(command)
    || (Stands(command, "dd") && (Reads(command, "if=") || Reads(command, "of=")))
    || DiscardsInGit(command)
    || (AnyStands(command, ["curl", "wget"]) && '|' in command && AnyStands(command, ["sh", "bash", "zsh"]))
    || (UsesPackages(command) && SaysAny(command, ["remove", "uninstall", "purge"]))
  }

  predicate Named(programs: seq<string>) { forall p | p in programs :: p != "" }

  lemma AnyStandsIsFound(command: string, programs: seq<string>)
    requires Named(programs)
    ensures AnyStands(command, programs) <==> ContainsAnyCommand(Lower(command), programs)
  {
    forall p | p in programs ensures Stands(command, p) <==> ContainsCommand(Lower(command), p) {
      StandsIsFound(command, p);
    }
  }

  predicate AllUndashed(words: seq<string>) { forall w | w in words :: Undashed(w) }

  lemma UndashedIsTrimmed(word: string)
    requires Undashed(word)
    ensures TrimMatches(word, IsDash) == word
  {
  }

  lemma SaysAnyIsWord(command: string, words: seq<string>)
    requires AllUndashed(words)
    ensures SaysAny(command, words) <==> ContainsAnyWord(Lower(command), words)
  {
    forall w | w in words
      ensures Says(command, w) <==> exists t | t in ShellWords(Lower(command)) :: MatchesWord(t, w)
    {
      UndashedIsTrimmed(w);
      SaysIsWord(command, w, w);
    }
  }

  lemma {:induction false} BasenameIs(word: string) returns (k: nat)
    ensures k <= |word| && Basename(word) == word[k..]
    ensures (k > 0 ==> word[k - 1] == '/') && forall l | k <= l < |word| :: word[l] != '/'
    decreases |word|
  {
    k := 0;
    if word != "" && '/' in word {
      var rest := BasenameIs(word[1..]);
      k := rest + 1;
      BasenameShifts(word, rest);
    }
  }

  lemma BasenameShifts(word: string, k: nat)
    requires word != "" && '/' in word && k < |word| && (k > 0 ==> word[1..][k - 1] == '/')
    requires forall l | k <= l < |word| - 1 :: word[1..][l] != '/'
    ensures word[k] == '/' && word[1..][k..] == word[k + 1..] && forall l | k < l < |word| :: word[l] != '/'
  {
    forall l | k < l < |word| ensures word[l] != '/' { assert word[1..][l - 1] == word[l]; }
    if k > 0 { assert word[1..][k - 1] == word[k]; }
  }

  lemma FormatsIsBasename(word: string)
    ensures (exists k: nat :: BeginsAfterSlash(word, "mkfs.", k)) <==> "mkfs." <= Basename(word)
  {
    var k := BasenameIs(word);
    if "mkfs." <= word[k..] { assert BeginsAfterSlash(word, "mkfs.", k); }
    if exists k': nat :: BeginsAfterSlash(word, "mkfs.", k') {
      var k': nat :| BeginsAfterSlash(word, "mkfs.", k');
      assert word[k'] == 'm';
      assert k' == k;
    }
  }

  lemma CharIsContained(command: string, c: char)
    requires !('A' <= c <= 'Z') && !('a' <= c <= 'z')
    ensures c in command <==> Contains(Lower(command), [c])
  {
    ReadsIsContains(command, [c]);
    if c in command {
      var i: nat :| i < |command| && command[i] == c;
      assert ReadsAt(command, [c], i);
    }
    if Reads(command, [c]) {
      var i: nat :| i <= |command| && ReadsAt(command, [c], i);
      assert Same(command[i], [c][0]);
    }
  }

  lemma NamesIsFound(command: string)
    ensures NamesDestructive(command) <==> var c := Lower(command);
      || Elevates(c) || ContainsAnyCommand(c, ["reboot", "shutdown", "poweroff", "halt"])
      || ContainsAnyCommand(c, ["rm", "rmdir", "unlink"]) || ContainsAnyCommand(c, ["kill", "pkill", "killall"])
      || ContainsAnyCommand(c, ["mkfs", "fdisk", "parted", "wipefs"])
  {
    AnyStandsIsFound(command, ["reboot", "shutdown", "poweroff", "halt"]);
    AnyStandsIsFound(command, ["rm", "rmdir", "unlink"]);
    AnyStandsIsFound(command, ["kill", "pkill", "killall"]);
    AnyStandsIsFound(command, ["mkfs", "fdisk", "parted", "wipefs"]);
    ElevatesIs(command);
  }

  lemma ElevatesIs(command: string)
    ensures AnyStands(command, ["sudo", "su"]) <==> Elevates(Lower(command))
  {
    StandsIsFound(command, "sudo");
    StandsIsFound(command, "su");
    assert "sudo" in ["sudo", "su"] && "su" in ["sudo", "su"];
  }

  lemma SystemctlIs(command: string)
    ensures Stands(command, "systemctl") && SaysAny(command, ["reboot", "poweroff", "halt", "kill"]) <==>
      ContainsCommand(Lower(command), "systemctl")
        && (ContainsAnyWord(Lower(command), ["reboot", "poweroff", "halt"])
             || ContainsAnyWord(Lower(command), ["kill"]))
  {
    StandsIsFound(command, "systemctl");
    SaysAnyIsWord(command, ["reboot", "poweroff", "halt"]);
    SaysAnyIsWord(command, ["kill"]);
    var all, some, last := ["reboot", "poweroff", "halt", "kill"], ["reboot", "poweroff", "halt"], ["kill"];
    assert all == some + last;
    assert forall w :: w in all <==> w in some || w in last;
  }

  lemma FindIs(command: string)
    ensures Stands(command, "find") && Says(command, "delete") <==>
      ContainsCommand(Lower(command), "find") && ContainsAnyWord(Lower(command), ["-delete"])
  {
    StandsIsFound(command, "find");
    DeleteTrimmed();
    SaysIsWord(command, "-delete", "delete");
    assert "-delete" in ["-delete"];
  }

  lemma DeleteTrimmed()
    ensures Undashed("delete") && TrimMatches("-delete", IsDash) == "delete"
  {
    assert "-delete"[1..] == "delete";
    UndashedIsTrimmed("delete");
  }

  lemma DisksIs(command: string)
    ensures
      (Formats(command) || (Stands(command, "dd") && (Reads(command, "if=") || Reads(command, "of=")))
       || AnyStands(command, ["mkfs", "fdisk", "parted", "wipefs"]))
      <==> ModifiesDisks(Lower(command))
  {
    StandsIsFound(command, "dd");
    ReadsIsContains(command, "if=");
    ReadsIsContains(command, "of=");
    AnyStandsIsFound(command, ["mkfs", "fdisk", "parted", "wipefs"]);
    FormatsIs(command);
  }

  lemma FormatsIs(command: string)
    ensures Formats(command) <==> exists w | w in ShellWords(Lower(command)) :: "mkfs." <= Basename(w)
  {
    if Formats(command) {
      var word, k: nat :| IsWord(command, word) && BeginsAfterSlash(word, "mkfs.", k);
      WordsMeans(command, word);
      FormatsIsBasename(word);
    }
    if exists w | w in ShellWords(Lower(command)) :: "mkfs." <= Basename(w) {
      var w :| w in ShellWords(Lower(command)) && "mkfs." <= Basename(w);
      WordsMeans(command, w);
      FormatsIsBasename(w);
    }
  }

  lemma ResetsIs(command: string)
    ensures ResetsHard(command) <==> HasWord(Lower(command), "reset") && HasWord(Lower(command), "--hard")
  {
    WordsMeans(command, "reset");
    WordsMeans(command, "--hard");
  }

  lemma PushesIs(command: string)
    ensures PushesByForce(command) <==> var c := Lower(command);
      HasWord(c, "push") && (HasWord(c, "--force") || HasWord(c, "--force-with-lease") || HasWord(c, "-f"))
  {
    WordsMeans(command, "push");
    WordsMeans(command, "--force");
    WordsMeans(command, "--force-with-lease");
    WordsMeans(command, "-f");
  }

  lemma GitIs(command: string)
    ensures DiscardsInGit(command) <==> DestroysGit(Lower(command))
  {
    StandsIsFound(command, "git");
    ResetsIs(command);
    PushesIs(command);
    WordsMeans(command, "clean");
    ForcesIs(command);
  }

  lemma ForcesIs(command: string)
    ensures Forces(command) <==> exists w | w in ShellWords(Lower(command)) :: "-" <= w && 'f' in w
  {
    if Forces(command) {
      var word :| IsWord(command, word) && word != "" && word[0] == '-' && 'f' in word;
      WordsMeans(command, word);
      assert "-" <= word;
    }
    if exists w | w in ShellWords(Lower(command)) :: "-" <= w && 'f' in w {
      var w :| w in ShellWords(Lower(command)) && "-" <= w && 'f' in w;
      WordsMeans(command, w);
    }
  }

  lemma ScriptsIs(command: string)
    ensures AnyStands(command, ["curl", "wget"]) && '|' in command && AnyStands(command, ["sh", "bash", "zsh"])
      <==> RunsRemoteScript(Lower(command))
  {
    StandsIsFound(command, "curl");
    StandsIsFound(command, "wget");
    assert "curl" in ["curl", "wget"] && "wget" in ["curl", "wget"];
    CharIsContained(command, '|');
    AnyStandsIsFound(command, ["sh", "bash", "zsh"]);
  }

  lemma PackagesIs(command: string)
    ensures UsesPackages(command) <==> ContainsAnyCommand(Lower(command), PACKAGE_TOOLS)
  {
    AnyStandsIsFound(command, PACKAGE_TOOLS);
  }

  lemma RemovalIs(command: string)
    ensures UsesPackages(command) && SaysAny(command, ["remove", "uninstall", "purge"])
      <==> RemovesPackages(Lower(command))
  {
    PackagesIs(command);
    SaysAnyIsWord(command, ["remove", "uninstall", "purge"]);
  }

  lemma DestructiveIs(command: string)
    ensures Destructive(command) <==> AnyMatched(LevelTwoFindings(Lower(command)))
  {
    LevelTwoIsAny(Lower(command));
    NamesIsFound(command);
    AnyStandsIsFound(command, ["mkfs", "fdisk", "parted", "wipefs"]);
    SystemctlIs(command);
    FindIs(command);
    DisksIs(command);
    GitIs(command);
    ScriptsIs(command);
    RemovalIs(command);
  }

  /** A word that begins with "-i". */
  ghost predicate EditsInPlace(command: string) { exists word :: IsWord(command, word) && "-i" <= word }

  /** What makes a command L1 at least. */
  ghost predicate Noted(command: string) {
    || AnyStands(command, ["cp", "mv", "mkdir", "touch", "chmod", "chown"])
    || (AnyStands(command, ["systemctl", "service"])
        && SaysAny(command, ["start", "stop", "restart", "reload", "enable", "disable"]))
    || (UsesPackages(command) && SaysAny(command, ["install", "upgrade", "update", "add"]))
    || (Stands(command, "git") && SaysAny(command,
          ["add", "commit", "checkout", "switch", "merge", "rebase", "pull", "push", "restore", "tag"]))
    || '>' in command || AnyStands(command, ["tee", "truncate"])
    || (Stands(command, "sed") && EditsInPlace(command))
    || Reads(command, "$(") || '`' in command
  }

  lemma LevelOneIsAny(c: string)
    ensures AnyMatched(LevelOneFindings(c)) <==>
      (ChangesFiles(c) || ChangesServices(c) || ChangesPackages(c) || ChangesGit(c) || Contains(c, ">")
       || WritesFiles(c) || Substitutes(c))
  {
    var f := LevelOneFindings(c);
    assert f[0].matched == ChangesFiles(c) && f[1].matched == ChangesServices(c)
      && f[2].matched == ChangesPackages(c) && f[3].matched == ChangesGit(c);
    assert f[4].matched == Contains(c, ">") && f[5].matched == WritesFiles(c) && f[6].matched == Substitutes(c);
  }

  lemma FilesIs(command: string)
    ensures AnyStands(command, ["cp", "mv", "mkdir", "touch", "chmod", "chown"]) <==> ChangesFiles(Lower(command))
  {
    AnyStandsIsFound(command, ["cp", "mv", "mkdir", "touch", "chmod", "chown"]);
  }

  lemma ServicesIs(command: string)
    ensures AnyStands(command, ["systemctl", "service"])
        && SaysAny(command, ["start", "stop", "restart", "reload", "enable", "disable"])
      <==> ChangesServices(Lower(command))
  {
    StandsIsFound(command, "systemctl");
    StandsIsFound(command, "service");
    assert "systemctl" in ["systemctl", "service"] && "service" in ["systemctl", "service"];
    SaysAnyIsWord(command, ["start", "stop", "restart", "reload", "enable", "disable"]);
  }

  lemma ChangesGitIs(command: string)
    ensures Stands(command, "git") && SaysAny(command,
        ["add", "commit", "checkout", "switch", "merge", "rebase", "pull", "push", "restore", "tag"])
      <==> ChangesGit(Lower(command))
  {
    StandsIsFound(command, "git");
    SaysAnyIsWord(command,
      ["add", "commit", "checkout", "switch", "merge", "rebase", "pull", "push", "restore", "tag"]);
  }

  lemma InstallIs(command: string)
    ensures UsesPackages(command) && SaysAny(command, ["install", "upgrade", "update", "add"])
      <==> ChangesPackages(Lower(command))
  {
    PackagesIs(command);
    SaysAnyIsWord(command, ["install", "upgrade", "update", "add"]);
  }

  lemma WritesIs(command: string)
    ensures AnyStands(command, ["tee", "truncate"]) || (Stands(command, "sed") && EditsInPlace(command))
      <==> WritesFiles(Lower(command))
  {
    AnyStandsIsFound(command, ["tee", "truncate"]);
    StandsIsFound(command, "sed");
    if EditsInPlace(command) {
      var word :| IsWord(command, word) && "-i" <= word;
      WordsMeans(command, word);
    }
    if HasInPlaceFlag(Lower(command)) {
      var w :| w in ShellWords(Lower(command)) && "-i" <= w;
      WordsMeans(command, w);
    }
  }

  lemma SubstitutesIs(command: string)
    ensures Reads(command, "$(") || '`' in command <==> Substitutes(Lower(command))
  {
    ReadsIsContains(command, "$(");
    CharIsContained(command, '`');
  }

  lemma NotedIs(command: string)
    ensures Noted(command) <==> AnyMatched(LevelOneFindings(Lower(command)))
  {
    LevelOneIsAny(Lower(command));
    FilesIs(command);
    ServicesIs(command);
    InstallIs(command);
    ChangesGitIs(command);
    CharIsContained(command, '>');
    WritesIs(command);
    SubstitutesIs(command);
  }

  // ---- Segments that only read ------------------------------------------------------------------------------

  predicate Separates(c: char) { c == '\n' || c == ';' || c == '|' || c == '&' }

  /** The text is a stretch between separators, trimmed, with something in it. */
  ghost predicate IsSegment(command: string, text: string) {
    text != "" && exists i: nat, j: nat :: StretchAt(command, Separates, i, j) && text == Trim(command[i..j])
  }

  lemma SegmentIsPiece(command: string, i: nat, j: nat)
    requires StretchAt(command, IsSeparator, i, j)
    ensures command[i..j] in Pieces(command, IsSeparator)
  {
    var q := StretchIsPiece(command, IsSeparator, i, j);
    assert Pieces(command, IsSeparator)[q] in Pieces(command, IsSeparator);
  }

  lemma PieceIsSegment(command: string, piece: string)
    requires piece in Pieces(command, IsSeparator) && Trim(piece) != ""
    ensures IsSegment(command, Trim(piece))
  {
    var q: nat :| q < |Pieces(command, IsSeparator)| && Pieces(command, IsSeparator)[q] == piece;
    var i, j := PieceIsStretch(command, IsSeparator, q);
    assert StretchAt(command, Separates, i, j);
  }

  /** The segments of a command are the trimmed stretches between separators that are not empty. */
  lemma SegmentsMeans(command: string, text: string)
    ensures text in Segments(command) <==> IsSegment(command, text)
  {
    CleanedAre(Pieces(command, IsSeparator), Trim, text);
    if text in Segments(command) {
      var piece :| piece in Pieces(command, IsSeparator) && Trim(piece) == text;
      PieceIsSegment(command, piece);
    }
    if IsSegment(command, text) {
      var i: nat, j: nat :| StretchAt(command, Separates, i, j) && text == Trim(command[i..j]);
      SegmentIsPiece(command, i, j);
    }
  }

  /** NAME=value, with a name that a shell takes for a variable. */
  predicate AssignsAt(word: string, e: nat) {
    && 0 < e < |word| && word[e] == '=' && !('0' <= word[0] <= '9')
    && forall k | 0 <= k < e :: GoesOn(word[k]) && word[k] != '-' && word[k] != '.'
  }

  predicate Assigns(word: string) { exists e: nat | e < |word| :: AssignsAt(word, e) }

  /** The last part of the path, or the whole word, is this name. */
  predicate EndsWith(word: string, name: string) {
    && |name| <= |word| && word[|word| - |name|..] == name && '/' !in name
    && (|word| > |name| ==> word[|word| - |name| - 1] == '/')
  }

  const READERS := [
    "awk", "btop", "cat", "cut", "date", "df", "du", "echo", "env", "free", "grep", "head", "hostname", "id", "ip",
    "journalctl", "ls", "lscpu", "lsblk", "nvidia-smi", "printf", "ps", "pwd", "squeue", "ss", "stat", "tail",
    "top", "uname", "uptime", "vmstat", "wc", "who", "whoami"]

  /** The word at `b` is a program that, with the words of its segment, only reads. */
  predicate ReadsOnlyFrom(words: seq<string>, b: nat) {
    && b < |words|
    && (|| (exists name | name in READERS :: EndsWith(words[b], name))
        || (EndsWith(words[b], "git") && b + 1 < |words|
            && words[b + 1] in ["status", "branch", "log", "diff", "show", "rev-parse"])
        || (EndsWith(words[b], "find") && "-delete" !in words)
        || (EndsWith(words[b], "sed") && forall w | w in words :: !("-i" <= w)))
  }

  /** Assignments up to `a`, lead-ins from there to `b`, and no more of either. */
  predicate LeadsTo(words: seq<string>, a: nat, b: nat) {
    && a <= b < |words| && (forall k | 0 <= k < a :: Assigns(words[k])) && !Assigns(words[a])
    && (forall k | a <= k < b :: words[k] in ["command", "exec", "if", "then"])
    && words[b] !in ["command", "exec", "if", "then"]
  }

  predicate OnlyReads(words: seq<string>) {
    exists a: nat, b: nat | a <= b <= |words| :: LeadsTo(words, a, b) && ReadsOnlyFrom(words, b)
  }

  lemma {:induction false} NameIs(word: string) returns (e: nat)
    ensures NameOf(word).Some? ==>
      e < |word| && word[e] == '=' && NameOf(word).value == word[..e] && '=' !in word[..e]
    ensures NameOf(word).None? ==> '=' !in word
  {
    e := 0;
    if word != "" && word[0] != '=' {
      var rest := NameIs(word[1..]);
      e := rest + 1;
      assert word == [word[0]] + word[1..];
      if NameOf(word[1..]).Some? { assert word[..e] == [word[0]] + word[1..][..rest]; }
    }
  }

  lemma AssignsIs(word: string)
    ensures Assigns(word) <==> IsEnvironmentAssignment(word)
  {
    var e := NameIs(word);
    if IsEnvironmentAssignment(word) {
      var name := NameOf(word).value;
      forall k | 0 <= k < e ensures GoesOn(word[k]) && word[k] != '-' && word[k] != '.' { assert name[k] == word[k]; }
      assert IsNameChar(name[0], true);
      assert AssignsAt(word, e);
    }
    if Assigns(word) {
      var f: nat :| f < |word| && AssignsAt(word, f);
      assert word[f] == '=';
      FirstEquals(word, e, f);
      forall k | 0 <= k < e ensures IsNameChar(word[..e][k], k == 0) { assert GoesOn(word[k]); }
    }
  }

  lemma FirstEquals(word: string, e: nat, f: nat)
    requires AssignsAt(word, f) && e < |word| && word[e] == '=' && '=' !in word[..e]
    ensures e == f
  {
  }

  lemma {:induction false} SkipIs(words: seq<string>, from: nat, p: string -> bool)
    requires from <= |words|
    ensures var i := SkipWhile(words, from, p);
      (forall k | from <= k < i :: p(words[k])) && (i < |words| ==> !p(words[i]))
    decreases |words| - from
  {
    if from < |words| && p(words[from]) { SkipIs(words, from + 1, p); }
  }

  lemma LeadIs(words: seq<string>)
    ensures var a := SkipWhile(words, 0, IsEnvironmentAssignment); var b := SkipWhile(words, a, IsLeadIn);
      && (b < |words| && a < |words| ==> LeadsTo(words, a, b))
      && (forall a': nat, b': nat | LeadsTo(words, a', b') :: a' == a && b' == b)
  {
    var a := SkipWhile(words, 0, IsEnvironmentAssignment);
    var b := SkipWhile(words, a, IsLeadIn);
    SkipIs(words, 0, IsEnvironmentAssignment);
    SkipIs(words, a, IsLeadIn);
    forall k | 0 <= k < |words| ensures Assigns(words[k]) <==> IsEnvironmentAssignment(words[k]) {
      AssignsIs(words[k]);
    }
    forall a': nat, b': nat | LeadsTo(words, a', b') ensures a' == a && b' == b {
    }
  }

  lemma EndsWithIs(word: string, name: string)
    ensures EndsWith(word, name) <==> Basename(word) == name
  {
    var k := BasenameIs(word);
    if EndsWith(word, name) {
      var m := |word| - |name|;
      assert word[m..] == name;
    }
  }

  lemma ReaderIs(word: string, names: seq<string>)
    ensures (exists name | name in names :: EndsWith(word, name)) <==> Basename(word) in names
  {
    forall name | name in names ensures EndsWith(word, name) <==> Basename(word) == name { EndsWithIs(word, name); }
  }

  lemma ReadersAre(program: string)
    ensures program in READ_ONLY <==> program in READERS || program in ["git", "find", "sed"]
    ensures program in ["git", "find", "sed"] ==> program !in READERS
  {
  }

  lemma ReadsOnlyIs(words: seq<string>, b: nat)
    ensures ReadsOnlyFrom(words, b) <==> IsReadOnlyProgram(words, b)
  {
    if b < |words| {
      ReaderIs(words[b], READERS);
      ReadersAre(Basename(words[b]));
      EndsWithIs(words[b], "git");
      EndsWithIs(words[b], "find");
      EndsWithIs(words[b], "sed");
    }
  }

  lemma OnlyReadsIs(words: seq<string>)
    ensures OnlyReads(words) <==>
      IsReadOnlyProgram(words, SkipWhile(words, SkipWhile(words, 0, IsEnvironmentAssignment), IsLeadIn))
  {
    var a := SkipWhile(words, 0, IsEnvironmentAssignment);
    var b := SkipWhile(words, a, IsLeadIn);
    LeadIs(words);
    ReadsOnlyIs(words, b);
  }

  lemma PartInside(command: string, i: nat, j: nat, mark: string)
    requires i <= j <= |command| && Contains(command[i..j], mark)
    ensures Contains(command, mark)
  {
    var k: nat :| k <= j - i && PartAt(command[i..j], mark, k);
    SliceOfSlice(command, i, j - i, k, |mark|);
    assert PartAt(command, mark, i + k);
  }

  lemma SegmentInside(command: string, text: string, mark: string)
    requires IsSegment(command, text) && Contains(text, mark)
    ensures Contains(command, mark)
  {
    var i: nat, j: nat :| StretchAt(command, Separates, i, j) && text == Trim(command[i..j]);
    var t := command[i..j];
    var a := TrimStart(t);
    PartInside(t, a, TrimEnd(t, a), mark);
    PartInside(command, i, j, mark);
  }

  /** A command is L2 exactly if it is destructive by its text. */
  lemma DestructiveIsL2(command: string)
    ensures DetectedRisk(command).L2? <==> Destructive(command)
  {
    DestructiveIs(command);
  }

  /** Without a finding, a segment counts as reading only if its program does. */
  lemma SegmentReads(command: string, text: string)
    requires IsSegment(command, text) && !Noted(command)
    ensures IsReadOnlySegment(text) <==> OnlyReads(ShellWords(text))
  {
    OnlyReadsIs(ShellWords(text));
    if Contains(text, ">") { SegmentInside(command, text, ">"); }
    if Contains(text, "$(") { SegmentInside(command, text, "$("); }
    if Contains(text, "`") { SegmentInside(command, text, "`"); }
    UnnotedHolds(command);
  }

  lemma UnnotedHolds(command: string)
    requires !Noted(command)
    ensures !Contains(command, ">") && !Contains(command, "$(") && !Contains(command, "`")
  {
    if Contains(command, "$(") {
      var i: nat :| i <= |command| && PartAt(command, "$(", i);
      assert command[i] == command[i..i + 2][0] && command[i + 1] == command[i..i + 2][1];
      assert ReadsAt(command, "$(", i);
    }
    HoldsChar(command, '>');
    HoldsChar(command, '`');
  }

  lemma HoldsChar(command: string, c: char)
    ensures Contains(command, [c]) ==> c in command
  {
    if Contains(command, [c]) {
      var i: nat :| i <= |command| && PartAt(command, [c], i);
      assert command[i] == command[i..i + 1][0];
    }
  }

  /** A command is L0 exactly if nothing is found in it, it has a segment, and each of its segments starts
      a program that only reads. */
  lemma OnlyReadersAreL0(command: string)
    ensures DetectedRisk(command).L0? <==>
      && !Destructive(command) && !Noted(command)
      && (exists text :: IsSegment(command, text))
      && (forall text | IsSegment(command, text) :: OnlyReads(ShellWords(text)))
  {
    DestructiveIs(command);
    NotedIs(command);
    forall text ensures text in Segments(command) <==> IsSegment(command, text) { SegmentsMeans(command, text); }
    if Segments(command) != [] { assert Segments(command)[0] in Segments(command); }
    if !Noted(command) {
      forall text | IsSegment(command, text) ensures IsReadOnlySegment(text) <==> OnlyReads(ShellWords(text)) {
        SegmentReads(command, text);
      }
    }
  }
}
