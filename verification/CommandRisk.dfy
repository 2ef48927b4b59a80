/** The conservative risk classes of shell commands: what each class looks for, and why joining
    commands can hide nothing. */
module CommandRisk {
  import opened Prelude
  import opened Profiles
  import opened ShellQuote
  import opened Strings

  predicate AtMost(a: Risk, b: Risk) { a.L0? || b.L2? || a == b }

  function MaxRisk(a: Risk, b: Risk): Risk { if AtMost(a, b) then b else a }

  const MAX_COMMAND_BYTES := 32 * 1024
  const MAX_CONFIRMATION_CHARS := 256

  // ---- Cutting a command into parts ------------------------------------------------------------------

  predicate IsSeparator(c: char) { c in "\n;|&" }

  /** `str::split`: the possibly empty stretches between separating characters. */
  function Pieces(s: string, separates: char -> bool): (r: seq<string>)
    ensures r != []
  {
    if s == "" then [""] else
      var rest := Pieces(s[1..], separates);
      if separates(s[0]) then [""] + rest else [[s[0]] + rest[0]] + rest[1..]
  }

  /** The pieces that are not empty once cleaned. */
  function Cleaned(pieces: seq<string>, clean: string -> string): seq<string> {
    if pieces == [] then [] else
      (if clean(pieces[0]) != "" then [clean(pieces[0])] else []) + Cleaned(pieces[1..], clean)
  }

  /** `split_shell_segments`. */
  function Segments(s: string): seq<string> { Cleaned(Pieces(s, IsSeparator), Trim) }

  predicate IsWrapping(c: char) { c in "'\"(){}," }

  /** `trim_matches`. */
  function TrimMatches(s: string, p: char -> bool): string
    decreases |s|
  {
    if s != "" && p(s[0]) then TrimMatches(s[1..], p)
    else if s != "" && p(s[|s| - 1]) then TrimMatches(s[..|s| - 1], p)
    else s
  }

  function CleanWord(s: string): string { Lower(TrimMatches(s, IsWrapping)) }

  /** `shell_words`. */
  function ShellWords(s: string): seq<string> { Cleaned(Pieces(s, IsWhitespace), CleanWord) }

  lemma JoinHead(p: seq<string>, q: seq<string>, h: char)
    requires p != []
    ensures [[h] + (p + q)[0]] + (p + q)[1..] == ([[h] + p[0]] + p[1..]) + q
    ensures [""] + (p + q) == ([""] + p) + q
  {
  }

  lemma {:induction false} PiecesJoin(a: string, c: char, b: string, separates: char -> bool)
    requires separates(c)
    ensures Pieces(a + [c] + b, separates) == Pieces(a, separates) + Pieces(b, separates)
  {
    if a == "" {
      assert a + [c] + b == [c] + b && ([c] + b)[1..] == b;
    } else {
      PiecesJoin(a[1..], c, b, separates);
      assert (a + [c] + b)[1..] == a[1..] + [c] + b;
      JoinHead(Pieces(a[1..], separates), Pieces(b, separates), a[0]);
    }
  }

  lemma {:induction false} CleanedConcat(a: seq<string>, b: seq<string>, clean: string -> string)
    ensures Cleaned(a + b, clean) == Cleaned(a, clean) + Cleaned(b, clean)
  {
    if a == [] {
      assert a + b == b;
    } else {
      assert (a + b)[1..] == a[1..] + b;
      CleanedConcat(a[1..], b, clean);
    }
  }

  lemma SnocHead(p: seq<string>, c: char, h: char)
    requires p != []
    ensures var r := p[..|p| - 1] + [p[|p| - 1] + [c]];
      var q := [[h] + p[0]] + p[1..];
      [[h] + r[0]] + r[1..] == q[..|q| - 1] + [q[|q| - 1] + [c]]
  {
    if |p| == 1 { assert [h] + (p[0] + [c]) == ([h] + p[0]) + [c]; }
  }

  lemma SnocEmpty(p: seq<string>, c: char)
    requires p != []
    ensures var q := [""] + p; [""] + (p[..|p| - 1] + [p[|p| - 1] + [c]]) == q[..|q| - 1] + [q[|q| - 1] + [c]]
  {
  }

  lemma OnePiece(s: string, separates: char -> bool)
    requires |s| == 1 && !separates(s[0])
    ensures Pieces(s, separates) == [s]
  {
    assert Pieces(s[1..], separates) == [""] && [s[0]] + "" == s;
  }

  lemma FirstOff(a: string, c: char)
    requires a != ""
    ensures a + [c] != "" && (a + [c])[0] == a[0] && (a + [c])[1..] == a[1..] + [c]
  {
  }

  /** A non-separating character more ends up in the last piece. */
  lemma {:induction false} PiecesSnoc(a: string, c: char, separates: char -> bool)
    requires !separates(c)
    ensures var p := Pieces(a, separates); Pieces(a + [c], separates) == p[..|p| - 1] + [p[|p| - 1] + [c]]
  {
    if a == "" {
      OnePiece([c], separates);
      assert a + [c] == [c] && [""][..0] == [] && "" + [c] == [c];
    } else {
      PiecesSnoc(a[1..], c, separates);
      FirstOff(a, c);
      SnocHead(Pieces(a[1..], separates), c, a[0]);
      SnocEmpty(Pieces(a[1..], separates), c);
    }
  }

  lemma TrimIs(s: string, i: nat, j: nat)
    requires TextStart(s, i) && TextEnd(s, i, j)
    ensures Trim(s) == s[i..j]
  {
    assert TrimStart(s) == i && TrimEnd(s, i) == j;
  }

  lemma TrimPaddedEnd(s: string, c: char)
    requires IsWhitespace(c)
    ensures Trim(s + [c]) == Trim(s)
  {
    var i := TrimStart(s);
    var j := TrimEnd(s, i);
    TrimIs(s, i, j);
    if i < |s| {
      TrimIs(s + [c], i, j);
      assert (s + [c])[i..j] == s[i..j];
    } else {
      TrimIs(s + [c], |s| + 1, |s| + 1);
    }
  }

  lemma TrimPaddedStart(s: string, c: char)
    requires IsWhitespace(c)
    ensures Trim([c] + s) == Trim(s)
  {
    var i := TrimStart(s);
    var j := TrimEnd(s, i);
    TrimIs(s, i, j);
    TrimIs([c] + s, i + 1, j + 1);
    assert ([c] + s)[i + 1..j + 1] == s[i..j];
  }

  // ---- Words and programs ------------------------------------------------------------------------------

  predicate IsWordByte(c: char) { IsAlphanumeric(c) || c == '_' || c == '-' || c == '.' }

  /** The program stands at `i`, with nothing word-like on either side but a path in front. */
  predicate OccursAt(command: string, program: string, i: nat) {
    && i + |program| <= |command| && command[i..i + |program|] == program
    && (i == 0 || !IsWordByte(command[i - 1]) || command[i - 1] == '/')
    && (i + |program| == |command| || !IsWordByte(command[i + |program|]))
  }

  predicate ContainsCommand(command: string, program: string) {
    program != "" && exists i: nat | i <= |command| :: OccursAt(command, program, i)
  }

  method FindCommand(command: string, program: string) returns (found: bool)
    ensures found == ContainsCommand(command, program)
  {
    if program == "" || |command| < |program| {
      return false;
    }
    var index := 0;
    while index <= |command| - |program|
      invariant index <= |command| - |program| + 1
      invariant forall i: nat | i < index :: !OccursAt(command, program, i)
    {
      if command[index..index + |program|] == program {
        var end := index + |program|;
        var boundaryBefore := index == 0 || !IsWordByte(command[index - 1]) || command[index - 1] == '/';
        var boundaryAfter := end == |command| || !IsWordByte(command[end]);
        if boundaryBefore && boundaryAfter {
          assert OccursAt(command, program, index);
          return true;
        }
      }
      index := index + 1;
    }
    return false;
  }

  predicate ContainsAnyCommand(command: string, programs: seq<string>) {
    exists p | p in programs :: ContainsCommand(command, p)
  }

  /** `str::contains`. */
  predicate Contains(s: string, t: string) { exists i: nat | i <= |s| :: PartAt(s, t, i) }

  predicate PartAt(s: string, t: string, i: nat) { i + |t| <= |s| && s[i..i + |t|] == t }

  predicate IsDash(c: char) { c == '-' }

  predicate MatchesWord(token: string, expected: string) {
    token == expected || TrimMatches(token, IsDash) == TrimMatches(expected, IsDash)
  }

  predicate ContainsAnyWord(command: string, words: seq<string>) {
    exists w, t | w in words && t in ShellWords(command) :: MatchesWord(t, w)
  }

  predicate HasWord(command: string, word: string) { word in ShellWords(command) }

  /** `executable_basename`. */
  function Basename(s: string): string
    decreases |s|
  {
    if s == "" then "" else if '/' in s then Basename(s[1..]) else s
  }

  predicate HasInPlaceFlag(command: string) { exists w | w in ShellWords(command) :: "-i" <= w }

  // ---- Findings ------------------------------------------------------------------------------------------

  datatype Finding = Finding(matched: bool, reason: string)

  const PACKAGE_TOOLS := ["apt", "apt-get", "dnf", "yum", "pacman", "zypper", "snap", "npm", "pnpm", "pip", "pip3"]

  predicate ChangesServices(c: string) {
    (ContainsCommand(c, "systemctl") || ContainsCommand(c, "service"))
    && ContainsAnyWord(c, ["start", "stop", "restart", "reload", "enable", "disable"])
  }

  predicate ChangesPackages(c: string) {
    ContainsAnyCommand(c, PACKAGE_TOOLS) && ContainsAnyWord(c, ["install", "upgrade", "update", "add"])
  }

  predicate ChangesGit(c: string) {
    ContainsCommand(c, "git")
    && ContainsAnyWord(c, ["add", "commit", "checkout", "switch", "merge", "rebase", "pull", "push", "restore", "tag"])
  }

  predicate WritesFiles(c: string) {
    ContainsAnyCommand(c, ["tee", "truncate"]) || (ContainsCommand(c, "sed") && HasInPlaceFlag(c))
  }

  predicate ChangesFiles(c: string) { ContainsAnyCommand(c, ["cp", "mv", "mkdir", "touch", "chmod", "chown"]) }

  predicate Substitutes(c: string) { Contains(c, "$(") || Contains(c, "`") }

  /** What makes a command at least L1; `c` is in lower case. */
  function LevelOneFindings(c: string): (f: seq<Finding>)
    ensures |f| == 7
  {
    [Finding(ChangesFiles(c), "May modify files or permissions"),
     Finding(ChangesServices(c), "Changes service state"),
     Finding(ChangesPackages(c), "Changes installed software"),
     Finding(ChangesGit(c), "Changes Git state"),
     Finding(Contains(c, ">"), "Contains output redirection"),
     Finding(WritesFiles(c), "Uses a file-writing utility"),
     Finding(Substitutes(c), "Contains command substitution")]
  }

  predicate DestroysGit(c: string) {
    ContainsCommand(c, "git") &&
    (|| (HasWord(c, "reset") && HasWord(c, "--hard"))
     || (HasWord(c, "clean") && exists w | w in ShellWords(c) :: "-" <= w && 'f' in w)
     || (HasWord(c, "push") && (HasWord(c, "--force") || HasWord(c, "--force-with-lease") || HasWord(c, "-f"))))
  }

  predicate ModifiesDisks(c: string) {
    || ContainsAnyCommand(c, ["mkfs", "fdisk", "parted", "wipefs"])
    || (exists w | w in ShellWords(c) :: "mkfs." <= Basename(w))
    || (ContainsCommand(c, "dd") && (Contains(c, "if=") || Contains(c, "of=")))
  }

  predicate RunsRemoteScript(c: string) {
    (ContainsCommand(c, "curl") || ContainsCommand(c, "wget")) && Contains(c, "|")
      && ContainsAnyCommand(c, ["sh", "bash", "zsh"])
  }

  predicate Elevates(c: string) { ContainsCommand(c, "sudo") || ContainsCommand(c, "su") }

  predicate ShutsDown(c: string) {
    ContainsAnyCommand(c, ["reboot", "shutdown", "poweroff", "halt"])
    || (ContainsCommand(c, "systemctl") && ContainsAnyWord(c, ["reboot", "poweroff", "halt"]))
  }

  predicate Deletes(c: string) {
    ContainsAnyCommand(c, ["rm", "rmdir", "unlink"]) || (ContainsCommand(c, "find") && ContainsAnyWord(c, ["-delete"]))
  }

  predicate Signals(c: string) {
    ContainsAnyCommand(c, ["kill", "pkill", "killall"])
      || (ContainsCommand(c, "systemctl") && ContainsAnyWord(c, ["kill"]))
  }

  predicate RemovesPackages(c: string) {
    ContainsAnyCommand(c, PACKAGE_TOOLS) && ContainsAnyWord(c, ["remove", "uninstall", "purge"])
  }

  /** What makes a command L2. */
  function LevelTwoFindings(c: string): (f: seq<Finding>)
    ensures |f| == 8
  {
    [Finding(Elevates(c), "Requests privilege elevation"),
     Finding(ShutsDown(c), "Can shut down or reboot the host"),
     Finding(Deletes(c), "Deletes filesystem entries"),
     Finding(Signals(c), "Signals or terminates processes"),
     Finding(ModifiesDisks(c), "Can modify disks or filesystems"),
     Finding(DestroysGit(c), "Contains a destructive Git operation"),
     Finding(RunsRemoteScript(c), "Downloads and executes a remote script"),
     Finding(RemovesPackages(c), "Removes installed software")]
  }

  predicate AnyMatched(f: seq<Finding>) { exists i :: 0 <= i < |f| && f[i].matched }

  // ---- The read-only allowlist ---------------------------------------------------------------------------

  const READ_ONLY := [
    "awk", "btop", "cat", "cut", "date", "df", "du", "echo", "env", "find", "free", "git", "grep", "head",
    "hostname", "id", "ip", "journalctl", "ls", "lscpu", "lsblk", "nvidia-smi", "printf", "ps", "pwd", "sed",
    "squeue", "ss", "stat", "tail", "top", "uname", "uptime", "vmstat", "wc", "who", "whoami"]

  predicate IsNameChar(c: char, first: bool) {
    c == '_' || (IsAlphanumeric(c) && (!first || !('0' <= c <= '9')))
  }

  /** The text before the first equals sign. */
  function NameOf(s: string): Option<string> {
    if s == "" then None
    else if s[0] == '=' then Some("")
    else var rest := NameOf(s[1..]); if rest.None? then None else Some([s[0]] + rest.value)
  }

  predicate IsEnvironmentAssignment(s: string) {
    var name := NameOf(s);
    name.Some? && name.value != "" && forall i | 0 <= i < |name.value| :: IsNameChar(name.value[i], i == 0)
  }

  predicate IsLeadIn(s: string) { s in ["command", "exec", "if", "then"] }

  /** The first index from `from` on whose word does not satisfy `p`. */
  function SkipWhile(words: seq<string>, from: nat, p: string -> bool): (i: nat)
    requires from <= |words|
    ensures from <= i <= |words|
    decreases |words| - from
  {
    if from < |words| && p(words[from]) then SkipWhile(words, from + 1, p) else from
  }

  predicate IsReadOnlyProgram(words: seq<string>, at: nat) {
    at < |words| &&
      var program := Basename(words[at]);
      && program in READ_ONLY
      && (program == "git" ==>
           at + 1 < |words| && words[at + 1] in ["status", "branch", "log", "diff", "show", "rev-parse"])
      && (program == "find" ==> "-delete" !in words)
      && (program == "sed" ==> forall w | w in words :: !("-i" <= w))
  }

  predicate IsReadOnlySegment(segment: string) {
    && !Contains(segment, ">") && !Contains(segment, "$(") && !Contains(segment, "`")
    && var words := ShellWords(segment);
    IsReadOnlyProgram(words, SkipWhile(words, SkipWhile(words, 0, IsEnvironmentAssignment), IsLeadIn))
  }

  method CheckReadOnlySegment(segment: string) returns (ok: bool)
    ensures ok == IsReadOnlySegment(segment)
  {
    if Contains(segment, ">") || Contains(segment, "$(") || Contains(segment, "`") {
      return false;
    }
    var words := ShellWords(segment);
    var index := 0;
    while index < |words| && IsEnvironmentAssignment(words[index])
      invariant index <= |words|
      invariant SkipWhile(words, 0, IsEnvironmentAssignment) == SkipWhile(words, index, IsEnvironmentAssignment)
    {
      index := index + 1;
    }
    ghost var start := index;
    while index < |words| && IsLeadIn(words[index])
      invariant start <= index <= |words|
      invariant SkipWhile(words, start, IsLeadIn) == SkipWhile(words, index, IsLeadIn)
    {
      index := index + 1;
    }
    return IsReadOnlyProgram(words, index);
  }

  predicate IsReadOnlyCommand(command: string) {
    Segments(command) != [] && forall s | s in Segments(command) :: IsReadOnlySegment(s)
  }

  /** The class found in the text of the command alone. */
  function DetectedRisk(command: string): Risk {
    var lower := Lower(command);
    if AnyMatched(LevelTwoFindings(lower)) then L2
    else if IsReadOnlyCommand(command) && !AnyMatched(LevelOneFindings(lower)) then L0
    else L1
  }

  // ---- Joined commands -------------------------------------------------------------------------------------

  /** Whatever is found in `part` is found in `whole`. */
  ghost predicate Covers(whole: string, part: string) {
    && (forall p :: ContainsCommand(part, p) ==> ContainsCommand(whole, p))
    && (forall t :: Contains(part, t) ==> Contains(whole, t))
    && (forall w | w in ShellWords(part) :: w in ShellWords(whole))
  }

  lemma CoversWords(whole: string, part: string)
    requires Covers(whole, part)
    ensures forall words | ContainsAnyWord(part, words) :: ContainsAnyWord(whole, words)
  {
    forall words | ContainsAnyWord(part, words) ensures ContainsAnyWord(whole, words) {
      var w, t :| w in words && t in ShellWords(part) && MatchesWord(t, w);
      assert t in ShellWords(whole);
    }
  }

  lemma CoversCommands(whole: string, part: string)
    requires Covers(whole, part)
    ensures forall programs | ContainsAnyCommand(part, programs) :: ContainsAnyCommand(whole, programs)
  {
  }

  lemma ServicesGrow(whole: string, part: string)
    requires Covers(whole, part) && ChangesServices(part)
    ensures ChangesServices(whole)
  {
    CoversWords(whole, part);
  }

  lemma PackagesGrow(whole: string, part: string)
    requires Covers(whole, part)
    ensures ChangesPackages(part) ==> ChangesPackages(whole)
    ensures RemovesPackages(part) ==> RemovesPackages(whole)
  {
    CoversWords(whole, part);
    CoversCommands(whole, part);
  }

  lemma GitGrows(whole: string, part: string)
    requires Covers(whole, part) && ChangesGit(part)
    ensures ChangesGit(whole)
  {
    CoversWords(whole, part);
  }

  lemma FilesGrow(whole: string, part: string)
    requires Covers(whole, part)
    ensures ChangesFiles(part) ==> ChangesFiles(whole)
    ensures WritesFiles(part) ==> WritesFiles(whole)
  {
    CoversCommands(whole, part);
  }

  lemma LevelOneGrows(whole: string, part: string)
    requires Covers(whole, part) && AnyMatched(LevelOneFindings(part))
    ensures AnyMatched(LevelOneFindings(whole))
  {
    var f, g := LevelOneFindings(part), LevelOneFindings(whole);
    var i :| 0 <= i < |f| && f[i].matched;
    FilesGrow(whole, part);
    PackagesGrow(whole, part);
    if i == 1 { ServicesGrow(whole, part); }
    if i == 3 { GitGrows(whole, part); }
    assert g[i].matched;
  }

  lemma ShutdownGrows(whole: string, part: string)
    requires Covers(whole, part) && ShutsDown(part)
    ensures ShutsDown(whole)
  {
    CoversWords(whole, part);
    CoversCommands(whole, part);
  }

  lemma DeletionGrows(whole: string, part: string)
    requires Covers(whole, part)
    ensures Deletes(part) ==> Deletes(whole)
    ensures Signals(part) ==> Signals(whole)
  {
    CoversWords(whole, part);
    CoversCommands(whole, part);
  }

  lemma DisksGrow(whole: string, part: string)
    requires Covers(whole, part)
    ensures ModifiesDisks(part) ==> ModifiesDisks(whole)
    ensures RunsRemoteScript(part) ==> RunsRemoteScript(whole)
    ensures DestroysGit(part) ==> DestroysGit(whole)
  {
    CoversCommands(whole, part);
  }

  lemma LevelTwoIsAny(c: string)
    ensures AnyMatched(LevelTwoFindings(c)) <==>
      (Elevates(c) || ShutsDown(c) || Deletes(c) || Signals(c) || ModifiesDisks(c) || DestroysGit(c)
       || RunsRemoteScript(c) || RemovesPackages(c))
  {
    var f := LevelTwoFindings(c);
    assert f[0].matched == Elevates(c) && f[1].matched == ShutsDown(c) && f[2].matched == Deletes(c)
      && f[3].matched == Signals(c);
    assert f[4].matched == ModifiesDisks(c) && f[5].matched == DestroysGit(c)
        && f[6].matched == RunsRemoteScript(c) && f[7].matched == RemovesPackages(c);
  }

  lemma ElevationGrows(whole: string, part: string)
    requires Covers(whole, part) && Elevates(part)
    ensures Elevates(whole)
  {
  }

  lemma LevelTwoGrows(whole: string, part: string)
    requires Covers(whole, part) && AnyMatched(LevelTwoFindings(part))
    ensures AnyMatched(LevelTwoFindings(whole))
  {
    LevelTwoIsAny(part);
    LevelTwoIsAny(whole);
    PackagesGrow(whole, part);
    DeletionGrows(whole, part);
    DisksGrow(whole, part);
    if ShutsDown(part) { ShutdownGrows(whole, part); }
    if Elevates(part) { ElevationGrows(whole, part); }
  }

  // ---- Joining keeps every occurrence ------------------------------------------------------------------------

  /** `part` inside `whole`, set off by whitespace or the ends. */
  predicate SetOff(whole: string, part: string, at: nat) {
    && at + |part| <= |whole| && whole[at..at + |part|] == part
    && (at == 0 || IsWhitespace(whole[at - 1]))
    && (at + |part| == |whole| || IsWhitespace(whole[at + |part|]))
  }

  lemma SliceOfSlice(s: string, at: nat, n: nat, i: nat, m: nat)
    requires at + n <= |s| && i + m <= n
    ensures s[at..at + n][i..i + m] == s[at + i..at + i + m]
  {
    var a, b := s[at..at + n][i..i + m], s[at + i..at + i + m];
    forall k | 0 <= k < m ensures a[k] == b[k] { }
  }

  lemma SetOffCovers(whole: string, part: string, at: nat)
    requires SetOff(whole, part, at) && forall w | w in ShellWords(part) :: w in ShellWords(whole)
    ensures Covers(whole, part)
  {
    forall p | ContainsCommand(part, p) ensures ContainsCommand(whole, p) {
      var i: nat :| i <= |part| && OccursAt(part, p, i);
      OccursShifted(whole, part, at, p, i);
    }
    forall t | Contains(part, t) ensures Contains(whole, t) {
      var i: nat :| i <= |part| && PartAt(part, t, i);
      SliceOfSlice(whole, at, |part|, i, |t|);
      assert PartAt(whole, t, at + i);
    }
  }

  lemma OccursShifted(whole: string, part: string, at: nat, p: string, i: nat)
    requires SetOff(whole, part, at) && OccursAt(part, p, i)
    ensures at + i <= |whole| && OccursAt(whole, p, at + i)
  {
    SliceOfSlice(whole, at, |part|, i, |p|);
    if i > 0 { assert part[i - 1] == whole[at + i - 1]; }
    if i + |p| < |part| { assert part[i + |p|] == whole[at + i + |p|]; }
  }

  predicate IsBlank(c: char) { IsWhitespace(c) || IsSeparator(c) }

  predicate Blank(s: string) { forall i | 0 <= i < |s| :: IsBlank(s[i]) }

  /** What two commands are joined by: separators between whitespace, such as " ; ", " && ", " | " or a
      line break. */
  predicate IsJoint(s: string) {
    && s != "" && IsWhitespace(s[0]) && IsWhitespace(s[|s| - 1]) && Blank(s)
    && exists i | 0 <= i < |s| :: IsSeparator(s[i])
  }

  function Join(a: string, joint: string, b: string): string { a + joint + b }

  /** The words of a joint of at least two characters. */
  function Inner(joint: string): string { if |joint| < 2 then "" else joint[1..|joint| - 1] }

  lemma JointPieces(joint: string, b: string)
    requires joint != "" && IsWhitespace(joint[0]) && IsWhitespace(joint[|joint| - 1])
    ensures |joint| == 1 ==> joint[1..] + b == b
    ensures |joint| > 1 ==>
      Pieces(joint[1..] + b, IsWhitespace) == Pieces(Inner(joint), IsWhitespace) + Pieces(b, IsWhitespace)
  {
    if |joint| > 1 {
      assert joint[1..] + b == Inner(joint) + [joint[|joint| - 1]] + b;
      PiecesJoin(Inner(joint), joint[|joint| - 1], b, IsWhitespace);
    }
  }

  lemma JoinWords(a: string, joint: string, b: string)
    requires IsJoint(joint)
    ensures ShellWords(Join(a, joint, b)) == ShellWords(a) + ShellWords(Inner(joint)) + ShellWords(b)
  {
    assert Join(a, joint, b) == a + [joint[0]] + (joint[1..] + b);
    PiecesJoin(a, joint[0], joint[1..] + b, IsWhitespace);
    JointPieces(joint, b);
    if |joint| > 1 {
      CleanedThree(Pieces(a, IsWhitespace), Pieces(Inner(joint), IsWhitespace), Pieces(b, IsWhitespace), CleanWord);
    } else {
      CleanedConcat(Pieces(a, IsWhitespace), Pieces(b, IsWhitespace), CleanWord);
      NoWords();
    }
  }

  lemma NoWords()
    ensures ShellWords("") == []
  {
    CleanedOne("", CleanWord);
  }

  lemma CleanedThree(a: seq<string>, b: seq<string>, c: seq<string>, clean: string -> string)
    ensures Cleaned(a + (b + c), clean) == Cleaned(a, clean) + Cleaned(b, clean) + Cleaned(c, clean)
  {
    CleanedConcat(a, b + c, clean);
    CleanedConcat(b, c, clean);
  }

  lemma JoinSetsOff(a: string, joint: string, b: string)
    requires IsJoint(joint)
    ensures SetOff(Join(a, joint, b), a, 0) && SetOff(Join(a, joint, b), b, |a| + |joint|)
  {
    var whole := Join(a, joint, b);
    assert whole[|a|] == joint[0] && whole[|a| + |joint| - 1] == joint[|joint| - 1];
    assert whole[0..|a|] == a && whole[|a| + |joint|..|whole|] == b;
  }

  lemma JoinCovers(a: string, joint: string, b: string)
    requires IsJoint(joint)
    ensures Covers(Join(a, joint, b), a) && Covers(Join(a, joint, b), b)
  {
    JoinWords(a, joint, b);
    JoinSetsOff(a, joint, b);
    SetOffCovers(Join(a, joint, b), a, 0);
    SetOffCovers(Join(a, joint, b), b, |a| + |joint|);
  }

  lemma LowerJoin(a: string, joint: string, b: string)
    requires IsJoint(joint)
    ensures Lower(Join(a, joint, b)) == Join(Lower(a), joint, Lower(b))
  {
    assert forall i | 0 <= i < |joint| :: LowerChar(joint[i]) == joint[i];
  }

  /** Blanks at either end bring in no segment. */
  lemma {:induction false} PadEnd(s: string, blanks: string)
    requires Blank(blanks)
    ensures Segments(s + blanks) == Segments(s)
    decreases |blanks|
  {
    if blanks == "" {
      assert s + blanks == s;
    } else {
      PadEnd(s + [blanks[0]], blanks[1..]);
      assert s + blanks == s + [blanks[0]] + blanks[1..];
      if IsSeparator(blanks[0]) { SeparatorAtEnd(s, blanks[0]); } else { WhitespaceAtEnd(s, blanks[0]); }
    }
  }

  lemma SeparatorAtEnd(s: string, c: char)
    requires IsSeparator(c)
    ensures Segments(s + [c]) == Segments(s)
  {
    assert s + [c] == s + [c] + "";
    PiecesJoin(s, c, "", IsSeparator);
    CleanedConcat(Pieces(s, IsSeparator), [""], Trim);
    CleanedOne("", Trim);
    assert Trim("") == "";
  }

  lemma WhitespaceAtEnd(s: string, c: char)
    requires IsWhitespace(c) && !IsSeparator(c)
    ensures Segments(s + [c]) == Segments(s)
  {
    var p := Pieces(s, IsSeparator);
    var last := p[|p| - 1];
    PiecesSnoc(s, c, IsSeparator);
    assert p == p[..|p| - 1] + [last];
    CleanedConcat(p[..|p| - 1], [last], Trim);
    CleanedConcat(p[..|p| - 1], [last + [c]], Trim);
    TrimPaddedEnd(last, c);
    CleanedOne(last, Trim);
    CleanedOne(last + [c], Trim);
  }

  lemma CleanedOne(s: string, clean: string -> string)
    ensures Cleaned([s], clean) == if clean(s) != "" then [clean(s)] else []
  {
    assert Cleaned([s][1..], clean) == [];
  }

  lemma {:induction false} PadStart(blanks: string, s: string)
    requires Blank(blanks)
    ensures Segments(blanks + s) == Segments(s)
    decreases |blanks|
  {
    if blanks == "" {
      assert blanks + s == s;
    } else {
      PadStart(blanks[1..], s);
      assert blanks + s == [blanks[0]] + (blanks[1..] + s);
      if IsSeparator(blanks[0]) { SeparatorAtStart(blanks[0], blanks[1..] + s); }
      else { WhitespaceAtStart(blanks[0], blanks[1..] + s); }
    }
  }

  lemma SeparatorAtStart(c: char, s: string)
    requires IsSeparator(c)
    ensures Segments([c] + s) == Segments(s)
  {
    assert [c] + s == "" + [c] + s;
    PiecesJoin("", c, s, IsSeparator);
    CleanedConcat([""], Pieces(s, IsSeparator), Trim);
    CleanedOne("", Trim);
    assert Trim("") == "";
  }

  lemma WhitespaceAtStart(c: char, s: string)
    requires IsWhitespace(c) && !IsSeparator(c)
    ensures Segments([c] + s) == Segments(s)
  {
    var p := Pieces(s, IsSeparator);
    assert ([c] + s)[1..] == s;
    assert Pieces([c] + s, IsSeparator) == [[c] + p[0]] + p[1..];
    assert p == [p[0]] + p[1..];
    CleanedConcat([[c] + p[0]], p[1..], Trim);
    CleanedConcat([p[0]], p[1..], Trim);
    TrimPaddedStart(p[0], c);
    CleanedOne(p[0], Trim);
    CleanedOne([c] + p[0], Trim);
  }

  /** Joining concatenates the segments. */
  lemma JoinSegments(a: string, joint: string, b: string)
    requires IsJoint(joint)
    ensures Segments(Join(a, joint, b)) == Segments(a) + Segments(b)
  {
    var i :| 0 <= i < |joint| && IsSeparator(joint[i]);
    var u, v := joint[..i], joint[i + 1..];
    assert Join(a, joint, b) == (a + u) + [joint[i]] + (v + b);
    PiecesJoin(a + u, joint[i], v + b, IsSeparator);
    CleanedConcat(Pieces(a + u, IsSeparator), Pieces(v + b, IsSeparator), Trim);
    PadEnd(a, u);
    PadStart(v, b);
  }

  /** Joining never lowers the risk of a command that has a non-empty segment. */
  lemma JoinNeverLowers(a: string, joint: string, b: string)
    requires IsJoint(joint)
    ensures var whole := Join(a, joint, b);
      && (Segments(a) != [] ==> AtMost(DetectedRisk(a), DetectedRisk(whole)))
      && (Segments(b) != [] ==> AtMost(DetectedRisk(b), DetectedRisk(whole)))
      && (DetectedRisk(a).L2? || DetectedRisk(b).L2? ==> DetectedRisk(whole).L2?)
  {
    LowerJoin(a, joint, b);
    JoinCovers(Lower(a), joint, Lower(b));
    JoinSegments(a, joint, b);
    var whole := Lower(Join(a, joint, b));
    GrowsFrom(whole, Lower(a));
    GrowsFrom(whole, Lower(b));
  }

  lemma GrowsFrom(whole: string, part: string)
    requires Covers(whole, part)
    ensures AnyMatched(LevelOneFindings(part)) ==> AnyMatched(LevelOneFindings(whole))
    ensures AnyMatched(LevelTwoFindings(part)) ==> AnyMatched(LevelTwoFindings(whole))
  {
    if AnyMatched(LevelOneFindings(part)) { LevelOneGrows(whole, part); }
    if AnyMatched(LevelTwoFindings(part)) { LevelTwoGrows(whole, part); }
  }

  /** Everything run with elevated rights is L2. */
  lemma SudoIsL2(raw: string)
    ensures DetectedRisk(SudoCommand(raw)).L2?
  {
    var lower := Lower(SudoCommand(raw));
    SudoPrefix(SudoCommand(raw), raw);
    assert OccursAt(lower, "sudo", 0);
    assert LevelTwoFindings(lower)[0].matched;
  }

  lemma SudoPrefix(command: string, raw: string)
    requires command == SudoCommand(raw)
    ensures |command| >= 5 && Lower(command)[0..4] == "sudo" && Lower(command)[4] == ' '
  {
    assert command[..5] == "sudo ";
    assert Lower(command)[0] == 's' && Lower(command)[1] == 'u' && Lower(command)[2] == 'd' && Lower(command)[3] == 'o';
  }

  // ---- The analysis ------------------------------------------------------------------------------------------

  datatype Confirmation = NoConfirmation | Acknowledge | TypeExact(value: string)

  datatype Analysis = Analysis(declared: Risk, detected: Risk, effective: Risk, reasons: seq<string>,
    confirmation: Confirmation)

  datatype RiskError = InvalidCommand | InvalidConfirmationText | MissingConfirmationText

  predicate ValidCommandText(command: string) {
    Trim(command) != "" && Utf8Len(command) <= MAX_COMMAND_BYTES && NoNul(command)
  }

  /** The confirmation an L2 command asks for, if the text for it is usable. */
  function ExactConfirmation(text: Option<string>): Result<string, RiskError> {
    if text.None? || Trim(text.value) == "" then Err(MissingConfirmationText)
    else if |Trim(text.value)| > MAX_CONFIRMATION_CHARS || !NoControl(Trim(text.value))
      then Err(InvalidConfirmationText)
    else Ok(Trim(text.value))
  }

  /** A confirmation that fits the effective risk. */
  predicate Asks(effective: Risk, confirmation: Confirmation, text: Option<string>) {
    match effective
    case L0 => confirmation.NoConfirmation?
    case L1 => confirmation.Acknowledge?
    case L2 => ExactConfirmation(text).Ok? && confirmation == TypeExact(ExactConfirmation(text).value)
  }

  method PushReason(reasons: seq<string>, reason: string) returns (r: seq<string>)
    ensures r == if reason in reasons then reasons else reasons + [reason]
  {
    r := if reason in reasons then reasons else reasons + [reason];
  }

  /** Raises the risk for every finding that matched, and notes why. */
  method Raise(findings: seq<Finding>, level: Risk, start: Risk, noted: seq<string>)
      returns (risk: Risk, reasons: seq<string>)
    requires !level.L0?
    ensures risk == if AnyMatched(findings) then MaxRisk(start, level) else start
    ensures forall r | r in noted :: r in reasons
    ensures forall f | f in findings && f.matched :: f.reason in reasons
    ensures forall r | r in reasons :: r in noted || exists f | f in findings :: f.matched && f.reason == r
  {
    risk, reasons := start, noted;
    var k := 0;
    while k < |findings|
      invariant k <= |findings|
      invariant risk == if AnyMatched(findings[..k]) then MaxRisk(start, level) else start
      invariant forall r | r in noted :: r in reasons
      invariant forall i | 0 <= i < k && findings[i].matched :: findings[i].reason in reasons
      invariant forall r | r in reasons :: r in noted || exists f | f in findings :: f.matched && f.reason == r
    {
      if findings[k].matched {
        risk := MaxRisk(risk, level);
        reasons := PushReason(reasons, findings[k].reason);
        assert findings[..k + 1][k].matched;
      }
      MatchedMore(findings, k);
      k := k + 1;
    }
    assert findings[..k] == findings;
  }

  lemma MatchedMore(findings: seq<Finding>, k: nat)
    requires k < |findings|
    ensures AnyMatched(findings[..k + 1]) <==> AnyMatched(findings[..k]) || findings[k].matched
  {
    var more := findings[..k + 1];
    if AnyMatched(findings[..k]) {
      var i :| 0 <= i < k && findings[..k][i].matched;
      assert more[i].matched;
    }
    if findings[k].matched { assert more[k].matched; }
    if AnyMatched(more) && !findings[k].matched {
      var i :| 0 <= i < |more| && more[i].matched;
      assert findings[..k][i].matched;
    }
  }

  /** The loops over the findings: the detected risk, and a reason for anything above L0. */
  method Detect(command: string) returns (detected: Risk, reasons: seq<string>)
    ensures detected == DetectedRisk(command)
    ensures !detected.L0? ==> reasons != []
  {
    var lower := Lower(command);
    reasons := [];
    detected := L0;
    if !IsReadOnlyCommand(command) {
      reasons := PushReason(reasons, "Command is not wholly covered by the read-only allowlist");
      detected := L1;
    }
    var one, two := LevelOneFindings(lower), LevelTwoFindings(lower);
    ghost var before, noted := detected, reasons;
    detected, reasons := Raise(one, L1, detected, reasons);
    ReasonsGrow(one, noted, reasons);
    ghost var middle := reasons;
    detected, reasons := Raise(two, L2, detected, reasons);
    ReasonsGrow(two, middle, reasons);
  }

  lemma ReasonsGrow(findings: seq<Finding>, noted: seq<string>, reasons: seq<string>)
    requires forall r | r in noted :: r in reasons
    requires forall f | f in findings && f.matched :: f.reason in reasons
    ensures noted != [] || AnyMatched(findings) ==> reasons != []
  {
    if noted != [] { assert noted[0] in reasons; }
    if AnyMatched(findings) {
      var i :| 0 <= i < |findings| && findings[i].matched;
      assert findings[i] in findings;
    }
  }

  function RiskName(r: Risk): string { match r case L0 => "L0" case L1 => "L1" case L2 => "L2" }

  /** `analyze_command`: the effective risk is the larger of the declared and the detected one, and
      whatever is above L0 comes with a reason. */
  method AnalyzeCommand(command: string, declared: Risk, text: Option<string>) returns (r: Result<Analysis, RiskError>)
    ensures !ValidCommandText(command) ==> r == Err(InvalidCommand)
    ensures
      ValidCommandText(command) && MaxRisk(declared, DetectedRisk(command)).L2? && ExactConfirmation(text).Err? ==>
        r == Err(ExactConfirmation(text).error)
    ensures r.Ok? == (ValidCommandText(command)
      && (MaxRisk(declared, DetectedRisk(command)).L2? ==> ExactConfirmation(text).Ok?))
    ensures r.Ok? ==>
      && r.value.declared == declared && r.value.detected == DetectedRisk(command)
      && r.value.effective == MaxRisk(declared, DetectedRisk(command))
      && AtMost(declared, r.value.effective)
      && Asks(r.value.effective, r.value.confirmation, text)
      && (!r.value.effective.L0? ==> r.value.reasons != [])
  {
    if !ValidCommandText(command) {
      return Err(InvalidCommand);
    }
    var detected, reasons := Detect(command);
    if !AtMost(declared, detected) {
      reasons := PushReason(reasons, "Preset declares risk " + RiskName(declared));
    }
    var effective := MaxRisk(declared, detected);
    var confirmation := NoConfirmation;
    if effective.L1? {
      confirmation := Acknowledge;
    } else if effective.L2? {
      var value := ExactConfirmation(text);
      if value.Err? {
        return Err(value.error);
      }
      confirmation := TypeExact(value.value);
    }
    return Ok(Analysis(declared, detected, effective, reasons, confirmation));
  }
}
