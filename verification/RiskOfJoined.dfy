/** When joining two commands lowers their risk: a part of nothing but blanks and separators is L1 for
    itself, and what it brings into the joined command is no more than a pipe. */
module RiskOfJoined {
  import opened Profiles
  import opened Strings
  import opened CommandRisk

  predicate IsSolid(c: char) {
    IsAlphanumeric(c) || c == '-' || c == '>' || c == '$' || c == '(' || c == '`' || c == '='
  }

  /** A text with no blank at either end, so one that a blank part cannot take part in. */
  predicate Plain(s: string) { s != "" && IsSolid(s[0]) && IsSolid(s[|s| - 1]) }

  /** A plain text that starts and ends with no dash. */
  predicate PlainWord(s: string) { Plain(s) && !IsDash(s[0]) && !IsDash(s[|s| - 1]) }

  lemma SolidIsNotBlank(c: char)
    requires IsSolid(c)
    ensures !IsBlank(c)
  {
  }

  // ---- A command without segments ---------------------------------------------------------------------------

  lemma TrimmedAway(s: string)
    requires Trim(s) == ""
    ensures forall i | 0 <= i < |s| :: IsWhitespace(s[i])
  {
    var i := TrimStart(s);
    assert TextEnd(s, i, TrimEnd(s, i));
  }

  lemma {:induction false} CleanedAway(pieces: seq<string>, clean: string -> string)
    requires Cleaned(pieces, clean) == []
    ensures forall p | p in pieces :: clean(p) == ""
  {
    if pieces != [] { CleanedAway(pieces[1..], clean); }
  }

  /** Every character separates, or is found in a piece. */
  lemma {:induction false} InPieces(s: string, separates: char -> bool, i: nat)
    requires i < |s|
    ensures separates(s[i]) || exists p :: p in Pieces(s, separates) && s[i] in p
    decreases |s|
  {
    var rest := Pieces(s[1..], separates);
    var pieces := Pieces(s, separates);
    if !separates(s[i]) {
      if i == 0 {
        assert pieces[0] in pieces && s[0] in pieces[0];
      } else {
        InPieces(s[1..], separates, i - 1);
        var p :| p in rest && s[1..][i - 1] in p;
        if separates(s[0]) { assert p in pieces; }
        else if p == rest[0] { assert pieces[0] in pieces && s[i] in pieces[0]; }
        else { assert p in rest[1..] && p in pieces; }
      }
    }
  }

  /** A piece holds no separating character, and none that is not in the text. */
  lemma {:induction false} PieceChars(s: string, separates: char -> bool, p: string)
    requires p in Pieces(s, separates)
    ensures forall c | c in p :: c in s && !separates(c)
    decreases |s|
  {
    if s != "" {
      var rest := Pieces(s[1..], separates);
      assert rest[0] in rest;
      if p in rest { PieceChars(s[1..], separates, p); }
      else if !separates(s[0]) {
        PieceChars(s[1..], separates, rest[0]);
        assert p == [s[0]] + rest[0];
      }
    }
  }

  lemma NoSegmentsIsBlank(s: string)
    requires Segments(s) == []
    ensures Blank(s)
  {
    CleanedAway(Pieces(s, IsSeparator), Trim);
    forall i | 0 <= i < |s| ensures IsBlank(s[i]) {
      InPieces(s, IsSeparator, i);
      if !IsSeparator(s[i]) {
        var p :| p in Pieces(s, IsSeparator) && s[i] in p;
        TrimmedAway(p);
      }
    }
  }

  // ---- Words of a blank part --------------------------------------------------------------------------------

  /** A word of separators, as `shell_words` finds them in a blank part. */
  predicate Separating(word: string) { word != "" && forall i | 0 <= i < |word| :: IsSeparator(word[i]) }

  lemma {:induction false} TrimMatchesChars(s: string, p: char -> bool)
    ensures forall c | c in TrimMatches(s, p) :: c in s
    decreases |s|
  {
    if s != "" && p(s[0]) { TrimMatchesChars(s[1..], p); }
    else if s != "" && p(s[|s| - 1]) { TrimMatchesChars(s[..|s| - 1], p); }
  }

  lemma {:induction false} CleanedFrom(pieces: seq<string>, clean: string -> string, word: string)
    requires word in Cleaned(pieces, clean)
    ensures word != "" && exists p :: p in pieces && word == clean(p)
  {
    if word !in Cleaned(pieces[1..], clean) {
      assert pieces[0] in pieces;
    } else {
      CleanedFrom(pieces[1..], clean, word);
    }
  }

  lemma BlankWords(s: string)
    requires Blank(s)
    ensures forall w | w in ShellWords(s) :: Separating(w)
  {
    forall w | w in ShellWords(s) ensures Separating(w) {
      CleanedFrom(Pieces(s, IsWhitespace), CleanWord, w);
      var p :| p in Pieces(s, IsWhitespace) && w == CleanWord(p);
      PieceChars(s, IsWhitespace, p);
      SeparatorsCleaned(p);
    }
  }

  lemma SeparatorsCleaned(p: string)
    requires forall c | c in p :: IsSeparator(c)
    ensures forall i | 0 <= i < |CleanWord(p)| :: IsSeparator(CleanWord(p)[i])
  {
    TrimMatchesChars(p, IsWrapping);
    var trimmed := TrimMatches(p, IsWrapping);
    forall i | 0 <= i < |CleanWord(p)| ensures IsSeparator(CleanWord(p)[i]) { assert trimmed[i] in p; }
  }

  lemma JointWords(joint: string)
    requires IsJoint(joint)
    ensures forall w | w in ShellWords(Inner(joint)) :: Separating(w)
  {
    BlankWords(Inner(joint));
  }

  // ---- What the joined command is found to contain -----------------------------------------------------------

  /** `part` inside `whole` with nothing but blanks around it. */
  predicate Alone(whole: string, part: string, at: nat) {
    && at + |part| <= |whole| && whole[at..at + |part|] == part
    && forall i | 0 <= i < |whole| && !(at <= i < at + |part|) :: IsBlank(whole[i])
  }

  lemma FoundInside(whole: string, part: string, at: nat, t: string, i: nat)
    requires Alone(whole, part, at) && Plain(t) && PartAt(whole, t, i)
    ensures at <= i && i - at <= |part| && PartAt(part, t, i - at)
  {
    SolidIsNotBlank(t[0]);
    SolidIsNotBlank(t[|t| - 1]);
    assert whole[i..i + |t|][0] == whole[i] && whole[i..i + |t|][|t| - 1] == whole[i + |t| - 1];
    SliceOfSlice(whole, at, |part|, i - at, |t|);
  }

  lemma RunsInside(whole: string, part: string, at: nat, program: string)
    requires Alone(whole, part, at) && Plain(program) && ContainsCommand(whole, program)
    ensures ContainsCommand(part, program)
  {
    var i: nat :| i <= |whole| && OccursAt(whole, program, i);
    FoundInside(whole, part, at, program, i);
    var k := i - at;
    assert k > 0 ==> part[k - 1] == whole[i - 1];
    assert k + |program| < |part| ==> part[k + |program|] == whole[i + |program|];
    assert OccursAt(part, program, k);
  }

  /** Nothing is found in `whole` that is not in `part`, but for separators. */
  ghost predicate AddsNothing(whole: string, part: string) {
    && (forall p | Plain(p) && ContainsCommand(whole, p) :: ContainsCommand(part, p))
    && (forall t | Plain(t) && Contains(whole, t) :: Contains(part, t))
    && (forall w | w in ShellWords(whole) :: w in ShellWords(part) || Separating(w))
  }

  lemma AloneAddsNothing(whole: string, part: string, at: nat)
    requires Alone(whole, part, at) && forall w | w in ShellWords(whole) :: w in ShellWords(part) || Separating(w)
    ensures AddsNothing(whole, part)
  {
    forall p | Plain(p) && ContainsCommand(whole, p) ensures ContainsCommand(part, p) {
      RunsInside(whole, part, at, p);
    }
    forall t | Plain(t) && Contains(whole, t) ensures Contains(part, t) {
      var i: nat :| i <= |whole| && PartAt(whole, t, i);
      FoundInside(whole, part, at, t, i);
      assert PartAt(part, t, i - at);
    }
  }

  lemma JoinAddsNothing(a: string, joint: string, b: string)
    requires IsJoint(joint)
    ensures Blank(a) ==> AddsNothing(Join(a, joint, b), b)
    ensures Blank(b) ==> AddsNothing(Join(a, joint, b), a)
  {
    JoinWords(a, joint, b);
    JointWords(joint);
    if Blank(a) {
      BlankWords(a);
      AloneBehind(a, joint, b);
      AloneAddsNothing(Join(a, joint, b), b, |a| + |joint|);
    }
    if Blank(b) {
      BlankWords(b);
      AloneInFront(a, joint, b);
      AloneAddsNothing(Join(a, joint, b), a, 0);
    }
  }

  lemma AloneBehind(a: string, joint: string, b: string)
    requires Blank(a) && Blank(joint)
    ensures Alone(Join(a, joint, b), b, |a| + |joint|)
  {
  }

  lemma AloneInFront(a: string, joint: string, b: string)
    requires Blank(b) && Blank(joint)
    ensures Alone(Join(a, joint, b), a, 0)
  {
  }

  lemma CommandShrinks(whole: string, part: string, program: string)
    requires AddsNothing(whole, part) && Plain(program)
    ensures ContainsCommand(whole, program) ==> ContainsCommand(part, program)
  {
  }

  lemma CommandsShrink(whole: string, part: string, programs: seq<string>)
    requires AddsNothing(whole, part) && forall p | p in programs :: Plain(p)
    ensures ContainsAnyCommand(whole, programs) ==> ContainsAnyCommand(part, programs)
  {
  }

  lemma {:induction false} UndashedIsSame(t: string)
    requires Separating(t)
    ensures TrimMatches(t, IsDash) == t
  {
    assert !IsDash(t[0]) && !IsDash(t[|t| - 1]);
  }

  lemma SeparatorMatchesNothing(t: string, w: string)
    requires Separating(t) && PlainWord(w)
    ensures !MatchesWord(t, w)
  {
    SolidIsNotBlank(w[0]);
    UndashedIsSame(t);
    assert TrimMatches(w, IsDash) == w;
  }

  lemma WordsShrink(whole: string, part: string, words: seq<string>)
    requires AddsNothing(whole, part) && forall w | w in words :: PlainWord(w)
    ensures ContainsAnyWord(whole, words) ==> ContainsAnyWord(part, words)
  {
    if ContainsAnyWord(whole, words) {
      var w, t :| w in words && t in ShellWords(whole) && MatchesWord(t, w);
      if Separating(t) { SeparatorMatchesNothing(t, w); }
    }
  }

  lemma HasWordShrinks(whole: string, part: string, word: string)
    requires AddsNothing(whole, part) && Plain(word)
    ensures HasWord(whole, word) ==> HasWord(part, word)
  {
    SolidIsNotBlank(word[0]);
  }

  // ---- The findings ------------------------------------------------------------------------------------------

  lemma ToolsArePlain()
    ensures forall p | p in PACKAGE_TOOLS :: Plain(p)
  {
    assert Plain("apt") && Plain("apt-get") && Plain("dnf") && Plain("yum") && Plain("pacman") && Plain("zypper");
    assert Plain("snap") && Plain("npm") && Plain("pnpm") && Plain("pip") && Plain("pip3");
  }

  lemma FilesShrink(whole: string, part: string)
    requires AddsNothing(whole, part)
    ensures ChangesFiles(whole) ==> ChangesFiles(part)
  {
    CommandsShrink(whole, part, ["cp", "mv", "mkdir", "touch", "chmod", "chown"]);
  }

  lemma ServicesShrink(whole: string, part: string)
    requires AddsNothing(whole, part)
    ensures ChangesServices(whole) ==> ChangesServices(part)
  {
    CommandShrinks(whole, part, "systemctl");
    CommandShrinks(whole, part, "service");
    WordsShrink(whole, part, ["start", "stop", "restart", "reload", "enable", "disable"]);
  }

  lemma PackagesShrink(whole: string, part: string)
    requires AddsNothing(whole, part)
    ensures ChangesPackages(whole) ==> ChangesPackages(part)
    ensures RemovesPackages(whole) ==> RemovesPackages(part)
  {
    ToolsArePlain();
    CommandsShrink(whole, part, PACKAGE_TOOLS);
    WordsShrink(whole, part, ["install", "upgrade", "update", "add"]);
    WordsShrink(whole, part, ["remove", "uninstall", "purge"]);
  }

  lemma GitShrinks(whole: string, part: string)
    requires AddsNothing(whole, part)
    ensures ChangesGit(whole) ==> ChangesGit(part)
  {
    CommandShrinks(whole, part, "git");
    WordsShrink(whole, part, ["add", "commit", "checkout", "switch", "merge", "rebase", "pull", "push", "restore",
      "tag"]);
  }

  lemma WritesShrink(whole: string, part: string)
    requires AddsNothing(whole, part)
    ensures WritesFiles(whole) ==> WritesFiles(part)
  {
    CommandShrinks(whole, part, "sed");
    CommandsShrink(whole, part, ["tee", "truncate"]);
    if w :| w in ShellWords(whole) && "-i" <= w {
      assert w[0] == '-';
      assert !Separating(w);
    }
  }

  lemma TextsShrink(whole: string, part: string)
    requires AddsNothing(whole, part)
    ensures Contains(whole, ">") ==> Contains(part, ">")
    ensures Substitutes(whole) ==> Substitutes(part)
  {
    assert Plain(">") && Plain("$(") && Plain("`");
  }

  lemma LevelOneShrinks(whole: string, part: string)
    requires AddsNothing(whole, part) && AnyMatched(LevelOneFindings(whole))
    ensures AnyMatched(LevelOneFindings(part))
  {
    var f, g := LevelOneFindings(whole), LevelOneFindings(part);
    var i :| 0 <= i < |f| && f[i].matched;
    FilesShrink(whole, part);
    ServicesShrink(whole, part);
    PackagesShrink(whole, part);
    GitShrinks(whole, part);
    TextsShrink(whole, part);
    WritesShrink(whole, part);
    assert g[i].matched;
  }

  lemma ElevationShrinks(whole: string, part: string)
    requires AddsNothing(whole, part)
    ensures Elevates(whole) ==> Elevates(part)
  {
    CommandShrinks(whole, part, "sudo");
    CommandShrinks(whole, part, "su");
  }

  lemma ShutdownShrinks(whole: string, part: string)
    requires AddsNothing(whole, part)
    ensures ShutsDown(whole) ==> ShutsDown(part)
  {
    CommandShrinks(whole, part, "systemctl");
    CommandsShrink(whole, part, ["reboot", "shutdown", "poweroff", "halt"]);
    WordsShrink(whole, part, ["reboot", "poweroff", "halt"]);
  }

  lemma SeparatorDeletesNothing(t: string)
    requires Separating(t)
    ensures !MatchesWord(t, "-delete")
  {
    UndashedIsSame(t);
    var w := "delete";
    assert "-delete"[1..] == w && TrimMatches(w, IsDash) == w;
  }

  lemma DeletionShrinks(whole: string, part: string)
    requires AddsNothing(whole, part)
    ensures Deletes(whole) ==> Deletes(part)
  {
    CommandShrinks(whole, part, "find");
    CommandsShrink(whole, part, ["rm", "rmdir", "unlink"]);
    if t :| t in ShellWords(whole) && MatchesWord(t, "-delete") {
      if Separating(t) { SeparatorDeletesNothing(t); }
      assert ContainsAnyWord(part, ["-delete"]);
    }
  }

  lemma SignalsShrink(whole: string, part: string)
    requires AddsNothing(whole, part)
    ensures Signals(whole) ==> Signals(part)
  {
    CommandShrinks(whole, part, "systemctl");
    CommandsShrink(whole, part, ["kill", "pkill", "killall"]);
    WordsShrink(whole, part, ["kill"]);
  }

  lemma {:induction false} BasenameChars(s: string)
    ensures forall c | c in Basename(s) :: c in s
  {
    if s != "" && '/' in s { BasenameChars(s[1..]); }
  }

  lemma SeparatorFormatsNothing(w: string)
    requires Separating(w)
    ensures !("mkfs." <= Basename(w))
  {
    BasenameChars(w);
    if Basename(w) != "" { assert Basename(w)[0] in w; }
  }

  lemma DisksShrink(whole: string, part: string)
    requires AddsNothing(whole, part)
    ensures ModifiesDisks(whole) ==> ModifiesDisks(part)
  {
    CommandShrinks(whole, part, "dd");
    assert Plain("if=") && Plain("of=");
    CommandsShrink(whole, part, ["mkfs", "fdisk", "parted", "wipefs"]);
    if w :| w in ShellWords(whole) && "mkfs." <= Basename(w) {
      if Separating(w) { SeparatorFormatsNothing(w); }
    }
  }

  lemma DestructionShrinks(whole: string, part: string)
    requires AddsNothing(whole, part)
    ensures DestroysGit(whole) ==> DestroysGit(part)
  {
    CommandShrinks(whole, part, "git");
    HasWordShrinks(whole, part, "reset");
    HasWordShrinks(whole, part, "--hard");
    HasWordShrinks(whole, part, "clean");
    HasWordShrinks(whole, part, "push");
    HasWordShrinks(whole, part, "--force");
    HasWordShrinks(whole, part, "--force-with-lease");
    HasWordShrinks(whole, part, "-f");
    if w :| w in ShellWords(whole) && "-" <= w && 'f' in w {
      assert w[0] == '-';
      assert !Separating(w);
    }
  }

  /** Downloading and a shell, which only a pipe between them makes a finding. */
  predicate FetchesAndRuns(c: string) {
    (ContainsCommand(c, "curl") || ContainsCommand(c, "wget")) && ContainsAnyCommand(c, ["sh", "bash", "zsh"])
  }

  lemma FetchingShrinks(whole: string, part: string)
    requires AddsNothing(whole, part)
    ensures FetchesAndRuns(whole) ==> FetchesAndRuns(part)
  {
    CommandShrinks(whole, part, "curl");
    CommandShrinks(whole, part, "wget");
    CommandsShrink(whole, part, ["sh", "bash", "zsh"]);
  }

  lemma FetchingGrows(whole: string, part: string)
    requires Covers(whole, part)
    ensures FetchesAndRuns(part) ==> FetchesAndRuns(whole)
  {
    CoversCommands(whole, part);
  }

  lemma LevelTwoShrinks(whole: string, part: string)
    requires AddsNothing(whole, part) && AnyMatched(LevelTwoFindings(whole))
    ensures AnyMatched(LevelTwoFindings(part)) || (FetchesAndRuns(part) && Contains(whole, "|"))
  {
    LevelTwoIsAny(whole);
    LevelTwoIsAny(part);
    ElevationShrinks(whole, part);
    ShutdownShrinks(whole, part);
    DeletionShrinks(whole, part);
    SignalsShrink(whole, part);
    DisksShrink(whole, part);
    DestructionShrinks(whole, part);
    PackagesShrink(whole, part);
    FetchingShrinks(whole, part);
  }

  // ---- The condition -----------------------------------------------------------------------------------------

  lemma LowerStaysBlank(s: string)
    ensures Blank(s) ==> Blank(Lower(s))
    ensures Contains(Lower(s), "|") <==> Contains(s, "|")
  {
    if i: nat :| i <= |s| && PartAt(s, "|", i) { assert Lower(s)[i] == '|' && PartAt(Lower(s), "|", i); }
    if i: nat :| i <= |s| && PartAt(Lower(s), "|", i) {
      assert Lower(s)[i..i + 1][0] == Lower(s)[i] && PartAt(s, "|", i);
    }
  }

  /** A command without segments is L1: not read-only, and nothing is found in it. */
  lemma BlankIsL1(s: string)
    requires Segments(s) == []
    ensures DetectedRisk(s).L1?
  {
    NoSegmentsIsBlank(s);
    LowerStaysBlank(s);
    BlankFindsNothing(Lower(s));
  }

  lemma BlankFindsNothing(s: string)
    requires Blank(s)
    ensures !AnyMatched(LevelTwoFindings(s))
  {
    BlankWords(s);
    assert Alone(s, "", 0);
    AloneAddsNothing(s, "", 0);
    EmptyFindsNothing();
    if AnyMatched(LevelTwoFindings(s)) { LevelTwoShrinks(s, ""); }
  }

  lemma EmptyFindsNothing()
    ensures !AnyMatched(LevelTwoFindings("")) && !FetchesAndRuns("")
  {
    LevelTwoIsAny("");
    CleanedOne("", CleanWord);
    assert ShellWords("") == [];
  }

  lemma PipeJoined(a: string, joint: string, b: string)
    ensures Contains(Join(a, joint, b), "|") <==> Contains(a, "|") || Contains(joint, "|") || Contains(b, "|")
  {
    HasPipe(a);
    HasPipe(joint);
    HasPipe(b);
    HasPipe(Join(a, joint, b));
  }

  lemma HasPipe(s: string)
    ensures Contains(s, "|") <==> '|' in s
  {
    if i: nat :| i <= |s| && PartAt(s, "|", i) { assert s[i..i + 1][0] == s[i]; }
    if i :| 0 <= i < |s| && s[i] == '|' { assert PartAt(s, "|", i); }
  }

  /** An L0 command between blanks stays L0, but for a pipe among them. */
  lemma BetweenBlanks(whole: string, part: string)
    requires DetectedRisk(part).L0? && Segments(whole) == Segments(part)
    requires AddsNothing(Lower(whole), Lower(part)) && Covers(Lower(whole), Lower(part))
    ensures DetectedRisk(whole) == if FetchesAndRuns(Lower(part)) && Contains(Lower(whole), "|") then L2 else L0
  {
    var w, p := Lower(whole), Lower(part);
    if AnyMatched(LevelOneFindings(w)) { LevelOneShrinks(w, p); }
    if AnyMatched(LevelTwoFindings(w)) { LevelTwoShrinks(w, p); }
    FetchingGrows(w, p);
    LevelTwoIsAny(w);
  }

  lemma NoPipeToShell(c: string)
    requires DetectedRisk(c).L0?
    ensures !(FetchesAndRuns(Lower(c)) && Contains(Lower(c), "|"))
  {
    LevelTwoIsAny(Lower(c));
  }

  /** The empty part loses its L1 in the other one. */
  predicate Vanishes(empty: string, joint: string, other: string) {
    && Segments(empty) == [] && DetectedRisk(other).L0?
    && !((Contains(empty, "|") || Contains(joint, "|")) && FetchesAndRuns(Lower(other)))
  }

  lemma JoinWithBlank(a: string, joint: string, b: string)
    requires IsJoint(joint)
    ensures var joined := DetectedRisk(Join(a, joint, b));
      && (Segments(a) == [] && DetectedRisk(b).L0? ==> (joined.L0? <==> Vanishes(a, joint, b)))
      && (Segments(b) == [] && DetectedRisk(a).L0? ==> (joined.L0? <==> Vanishes(b, joint, a)))
  {
    LowerJoin(a, joint, b);
    JoinSegments(a, joint, b);
    JoinCovers(Lower(a), joint, Lower(b));
    PipeJoined(Lower(a), joint, Lower(b));
    LowerStaysBlank(a);
    LowerStaysBlank(b);
    JoinAddsNothing(Lower(a), joint, Lower(b));
    if Segments(a) == [] && DetectedRisk(b).L0? {
      NoSegmentsIsBlank(a);
      BetweenBlanks(Join(a, joint, b), b);
      NoPipeToShell(b);
    }
    if Segments(b) == [] && DetectedRisk(a).L0? {
      NoSegmentsIsBlank(b);
      BetweenBlanks(Join(a, joint, b), a);
      NoPipeToShell(a);
    }
  }

  /** Joining lowers the risk exactly when one part has no segment and the other is L0, unless the
      empty part or the joint brings the pipe that turns a download and a shell into a finding. */
  lemma JoinLowersExactly(a: string, joint: string, b: string)
    requires IsJoint(joint)
    ensures !AtMost(MaxRisk(DetectedRisk(a), DetectedRisk(b)), DetectedRisk(Join(a, joint, b)))
            <==> Vanishes(a, joint, b) || Vanishes(b, joint, a)
  {
    JoinNeverLowers(a, joint, b);
    JoinWithBlank(a, joint, b);
    JoinSegments(a, joint, b);
    if Segments(a) == [] { BlankIsL1(a); }
    if Segments(b) == [] { BlankIsL1(b); }
  }

  // ---- Pipes -------------------------------------------------------------------------------------------------

  lemma Joints()
    ensures IsJoint(" ; ") && IsJoint(" && ") && IsJoint(" || ") && IsJoint(" & ") && IsJoint(" | ") && IsJoint("\n")
  {
    assert IsSeparator(" ; "[1]) && IsSeparator(" && "[1]) && IsSeparator(" || "[1]);
    assert IsSeparator(" & "[1]) && IsSeparator(" | "[1]) && IsSeparator("\n"[0]);
  }

  predicate Unblank(s: string) { s != "" && forall i | 0 <= i < |s| :: !IsBlank(s[i]) }

  /** A program does not stretch over a joint. */
  lemma RunsInPart(a: string, joint: string, b: string, p: string)
    requires IsJoint(joint) && Unblank(p)
    ensures ContainsCommand(Join(a, joint, b), p) <==> ContainsCommand(a, p) || ContainsCommand(b, p)
  {
    var whole := Join(a, joint, b);
    JoinCovers(a, joint, b);
    if i: nat :| i <= |whole| && OccursAt(whole, p, i) {
      var k := |a| + |joint|;
      assert whole[i..i + |p|][0] == whole[i];
      assert forall x | |a| <= x < k :: whole[x] == joint[x - |a|];
      if i < |a| {
        OccursInFront(a, joint, b, p, i);
      } else {
        OccursBehind(a, joint, b, p, i);
      }
    }
  }

  lemma OccursInFront(a: string, joint: string, b: string, p: string, i: nat)
    requires IsJoint(joint) && Unblank(p) && i < |a| && OccursAt(Join(a, joint, b), p, i)
    ensures ContainsCommand(a, p)
  {
    var whole := Join(a, joint, b);
    assert whole[|a|] == joint[0];
    assert forall x | i <= x < i + |p| :: whole[i..i + |p|][x - i] == whole[x];
    assert whole[i..i + |p|] == a[i..i + |p|];
    assert OccursAt(a, p, i);
  }

  lemma OccursBehind(a: string, joint: string, b: string, p: string, i: nat)
    requires p != "" && i >= |a| + |joint| && OccursAt(Join(a, joint, b), p, i)
    ensures ContainsCommand(b, p)
  {
    var whole, k := Join(a, joint, b), |a| + |joint|;
    assert whole[k..] == b;
    assert whole[i..i + |p|] == b[i - k..i - k + |p|];
    assert i > k ==> whole[i - 1] == b[i - k - 1];
    assert OccursAt(b, p, i - k);
  }

  /** A download piped into a shell is found in a joined command exactly if the download, the pipe and
      the shell are each found in one of the parts, or the joint is the pipe. */
  lemma JoinRunsRemoteScript(a: string, joint: string, b: string)
    requires IsJoint(joint)
    ensures RunsRemoteScript(Join(a, joint, b)) <==>
      && (ContainsCommand(a, "curl") || ContainsCommand(a, "wget") || ContainsCommand(b, "curl")
           || ContainsCommand(b, "wget"))
      && (Contains(a, "|") || Contains(joint, "|") || Contains(b, "|"))
      && (ContainsAnyCommand(a, ["sh", "bash", "zsh"]) || ContainsAnyCommand(b, ["sh", "bash", "zsh"]))
  {
    RunsInPart(a, joint, b, "curl");
    RunsInPart(a, joint, b, "wget");
    PipeJoined(a, joint, b);
    forall p | p in ["sh", "bash", "zsh"]
      ensures ContainsCommand(Join(a, joint, b), p) <==> ContainsCommand(a, p) || ContainsCommand(b, p)
    {
      RunsInPart(a, joint, b, p);
    }
  }
}
