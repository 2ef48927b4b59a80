/** Aliases that are spelled like the id of another host: which jumps a rename redirects, and how a
    marked deletion comes to be refused. */
module AliasRuns {
  import opened Prelude
  import opened Strings
  import opened Profiles
  import opened ProxyJump
  import opened Repository
  import opened RepositorySteps
  import opened RepositoryRuns
  import Paths

  // ---- Which jumps an edit redirects -----------------------------------------------------------

  /** The draft edits the host at `at` and changes its alias by more than case. */
  predicate RenamesAt(hosts: Hosts, d: HostDraft, at: nat) {
    && d.id.Some? && IndexOfId(hosts, d.id.value) == Some(at)
    && !EqIgnoreCase(hosts[at].alias, Trim(d.alias))
  }

  predicate SpelledAs(h: Host, alias: string) { h.proxyJump.Some? && EqIgnoreCase(h.proxyJump.value, alias) }

  /** Where the jump of host `k` points once the host at `at` has been edited. */
  function FollowedJump(hosts: Hosts, d: HostDraft, at: nat, k: nat): Option<string>
    requires at < |hosts| && k < |hosts|
  {
    if RenamesAt(hosts, d, at) && SpelledAs(hosts[k], hosts[at].alias) then d.id else hosts[k].proxyJump
  }

  ghost predicate JumpsFollow(before: Hosts, after: Hosts, d: HostDraft, at: nat) {
    && |before| <= |after|
    && forall k: nat | k < |before| && k != at ::
         after[k].proxyJump == if at < |before| then FollowedJump(before, d, at, k) else before[k].proxyJump
  }

  lemma FollowRenameFollows(hosts: Hosts, d: HostDraft, a: Applied)
    requires OnlyTouched(hosts, a.hosts, a.at) && a.hosts[a.at].alias == Trim(d.alias)
    requires d.id.Some? ==> IndexOfId(hosts, d.id.value) == Some(a.at)
    ensures JumpsFollow(hosts, FollowRename(hosts, d, a), d, a.at)
  {
  }

  lemma SettleFollows(before: Hosts, hosts: Hosts, d: HostDraft, at: nat)
    requires JumpsFollow(before, hosts, d, at) && DistinctHosts(hosts) && at < |hosts| && Settle(hosts, at).Ok?
    ensures JumpsFollow(before, Settle(hosts, at).value, d, at)
  {
    NormalizeEffect(hosts, at);
  }

  /** A successful edit redirects exactly the jumps spelled like the alias it replaces. */
  lemma UpdateRedirects(hosts: Hosts, d: HostDraft, newId: string, now: nat, r: Applied)
    requires DistinctHosts(hosts) && IdsOk(hosts) && AllValid(hosts) && DepthOne(hosts) && UnusedId(hosts, newId)
    requires UpdateHost(hosts, d, newId, now) == Ok(r)
    ensures JumpsFollow(hosts, r.hosts, d, r.at)
  {
    var a := ApplyDraft(hosts, d, newId, now).value;
    var made := ApplyDraftShape(hosts, d, newId, now, a);
    ApplyDraftKeeps(hosts, d, newId, now, a);
    assert a.hosts[a.at] == made;
    FollowRenameKeeps(hosts, d, a);
    FollowRenameFollows(hosts, d, a);
    SettleFollows(hosts, FollowRename(hosts, d, a), d, a.at);
  }

  /** Some host jumps to another one whose id is spelled like the alias of the host at `at`. */
  ghost predicate HidesJump(hosts: Hosts, at: nat) {
    at < |hosts| && exists k: nat, j: nat ::
      JumpsTo(hosts, k, j) && k != at && j != at && EqIgnoreCase(hosts[j].id, hosts[at].alias)
  }

  ghost predicate OthersKeepJumps(before: Hosts, after: Hosts, at: nat) {
    |before| <= |after| && forall k: nat | k < |before| && k != at :: after[k].proxyJump == before[k].proxyJump
  }

  lemma RedirectedIsHidden(hosts: Hosts, at: nat, k: nat)
    requires DepthOne(hosts) && at < |hosts| && k < |hosts| && k != at && SpelledAs(hosts[k], hosts[at].alias)
    ensures hosts[k].proxyJump == Some(hosts[at].id) || HidesJump(hosts, at)
  {
    var j: nat :| JumpsTo(hosts, k, j);
  }

  lemma HiddenIsRedirected(before: Hosts, after: Hosts, d: HostDraft, at: nat)
    requires DistinctHosts(before) && JumpsFollow(before, after, d, at) && RenamesAt(before, d, at)
      && HidesJump(before, at)
    ensures !OthersKeepJumps(before, after, at)
  {
    var k: nat, j: nat :| JumpsTo(before, k, j) && k != at && j != at && EqIgnoreCase(before[j].id, before[at].alias);
    assert before[j].id != before[at].id;
    assert after[k].proxyJump == FollowedJump(before, d, at, k) == d.id;
  }

  lemma KeptUnlessHidden(before: Hosts, after: Hosts, d: HostDraft, at: nat)
    requires DepthOne(before) && JumpsFollow(before, after, d, at)
      && !(RenamesAt(before, d, at) && HidesJump(before, at))
    ensures OthersKeepJumps(before, after, at)
  {
    forall k: nat | k < |before| && k != at ensures after[k].proxyJump == before[k].proxyJump {
      if at < |before| && RenamesAt(before, d, at) && SpelledAs(before[k], before[at].alias) {
        RedirectedIsHidden(before, at, k);
      }
    }
  }

  /** An edit leaves the jumps of all other hosts as they are, unless it renames a host whose old
      alias is spelled like the id of another host that some third host jumps to. */
  lemma UpdateLeavesJumps(hosts: Hosts, d: HostDraft, newId: string, now: nat, r: Applied)
    requires DistinctHosts(hosts) && IdsOk(hosts) && AllValid(hosts) && DepthOne(hosts) && UnusedId(hosts, newId)
    requires UpdateHost(hosts, d, newId, now) == Ok(r)
    ensures OthersKeepJumps(hosts, r.hosts, r.at) <==> !(RenamesAt(hosts, d, r.at) && HidesJump(hosts, r.at))
  {
    UpdateRedirects(hosts, d, newId, now, r);
    if RenamesAt(hosts, d, r.at) && HidesJump(hosts, r.at) {
      HiddenIsRedirected(hosts, r.hosts, d, r.at);
    } else {
      KeptUnlessHidden(hosts, r.hosts, d, r.at);
    }
  }

  // ---- Saving plain hosts ----------------------------------------------------------------------

  function PlainHost(id: string, alias: string, jump: Option<string>): Host {
    Host(id, alias, "h", 22, "u", Interactive, None, jump, "~", [], DEFAULT_ADVANCED, true, 0, 0)
  }

  function PlainDraft(id: Option<string>, alias: string, jump: Option<string>): HostDraft {
    HostDraft(id, alias, "h", 22, "u", None, None, jump, None, [], None, None)
  }

  function Save(id: Option<string>, newId: string, alias: string, jump: Option<string>): Step {
    RepositorySteps.SaveHost(PlainDraft(id, alias, jump), newId, 0, None)
  }

  /** An alias, and a jump that is an id if there is one. */
  ghost predicate PlainNames(alias: string, jump: Option<string>) {
    ValidAlias(alias) && Trim(alias) == alias && (jump.Some? ==> IsId(jump.value))
  }

  lemma PlainDraftMakes(id: string, alias: string, jump: Option<string>)
    requires PlainNames(alias, jump)
    ensures ValidHostDraft(PlainDraft(None, alias, jump))
    ensures HostFromDraft(PlainDraft(None, alias, jump), None, id, 0) == Ok(PlainHost(id, alias, jump))
  {
    TrimOfTrimmed("h");
    TrimOfTrimmed("u");
    Utf8LenAscii("h");
    Utf8LenAscii("u");
    if jump.Some? { IdIsAtom(jump.value); }
  }

  /** A list of hosts without jumps, and one more host that may jump to one of them. */
  ghost predicate PlainList(hosts: Hosts, id: string, alias: string, jump: Option<string>) {
    && DistinctHosts(hosts + [PlainHost(id, alias, jump)]) && IdsOk(hosts + [PlainHost(id, alias, jump)])
    && (forall h | h in hosts :: h.proxyJump.None?)
    && (jump.Some? ==> exists j: nat | j < |hosts| :: hosts[j].id == jump.value)
  }

  lemma PlainJumpSettled(hosts: Hosts, at: nat, j: nat)
    requires DistinctHosts(hosts) && IdsOk(hosts) && at < |hosts| && j < |hosts| && j != at
    requires hosts[at].proxyJump == Some(hosts[j].id) && hosts[j].proxyJump.None?
    ensures SettledJump(hosts, hosts[at]) == Ok(hosts[at].proxyJump) && ResolveJump(hosts, hosts[at]) == Ok(Some(j))
  {
    IdResolves(hosts, j);
    assert hosts[j].id != hosts[at].id;
  }

  lemma PlainRole(hosts: Hosts, at: nat)
    requires DistinctHosts(hosts) && at < |hosts| && ResolveJump(hosts, hosts[at]).Ok?
    requires forall k | 0 <= k < |hosts| && k != at :: hosts[k].proxyJump.None?
    ensures CheckRole(hosts, hosts[at].id).None?
  {
    IndexOfIdUnique(hosts, at);
    forall h | h in hosts && h.id != hosts[at].id ensures !ReferenceMatches(h.proxyJump, hosts[at]) {
      var k :| 0 <= k < |hosts| && hosts[k] == h;
    }
  }

  lemma PlainSettles(hosts: Hosts, at: nat)
    requires DistinctHosts(hosts) && IdsOk(hosts) && at < |hosts|
    requires forall k | 0 <= k < |hosts| && k != at :: hosts[k].proxyJump.None?
    requires hosts[at].proxyJump.Some? ==> exists j: nat :: JumpsTo(hosts, at, j)
    ensures Settle(hosts, at) == Ok(hosts)
  {
    IndexOfIdUnique(hosts, at);
    if hosts[at].proxyJump.Some? {
      var j: nat :| JumpsTo(hosts, at, j);
      PlainJumpSettled(hosts, at, j);
    }
    assert hosts[at := hosts[at].(proxyJump := hosts[at].proxyJump)] == hosts;
    PlainRole(hosts, at);
  }

  lemma PlainIsAdded(hosts: Hosts, id: string, alias: string, jump: Option<string>)
    requires PlainNames(alias, jump) && PlainList(hosts, id, alias, jump)
    ensures UpdateHost(hosts, PlainDraft(None, alias, jump), id, 0)
      == Ok(Applied(hosts + [PlainHost(id, alias, jump)], |hosts|))
  {
    var after := hosts + [PlainHost(id, alias, jump)];
    PlainDraftMakes(id, alias, jump);
    forall h | h in hosts ensures !EqIgnoreCase(h.alias, alias) {
      var k :| 0 <= k < |hosts| && hosts[k] == h;
      assert after[k] == h && after[|hosts|].alias == alias;
    }
    assert ApplyDraft(hosts, PlainDraft(None, alias, jump), id, 0) == Ok(Applied(after, |hosts|));
    if jump.Some? {
      var j: nat :| j < |hosts| && hosts[j].id == jump.value;
      assert hosts[j] in hosts && JumpsTo(after, |hosts|, j);
    }
    PlainSettles(after, |hosts|);
  }

  function RepoOf(hosts: Hosts, deleting: set<string>): Repo {
    Repo(PersistedState(2, Settings(map[]), hosts, [], [], []), deleting)
  }

  lemma PlainIsProposed(hosts: Hosts, deleting: set<string>, id: string, alias: string, jump: Option<string>)
    requires PlainNames(alias, jump) && PlainList(hosts, id, alias, jump) && (jump.Some? ==> jump.value !in deleting)
    ensures SaveHostState(RepoOf(hosts, deleting), PlainDraft(None, alias, jump), id, 0)
            == Ok(RepoOf(hosts + [PlainHost(id, alias, jump)], deleting).state)
  {
    var after := hosts + [PlainHost(id, alias, jump)];
    PlainIsAdded(hosts, id, alias, jump);
    if jump.Some? {
      var j: nat :| j < |hosts| && hosts[j].id == jump.value;
      assert hosts[j] in hosts;
      PlainJumpSettled(after, |hosts|, j);
    }
  }

  lemma SaveIsWritten(r: Repo, step: Step, s: PersistedState)
    requires RepoInv(r) && step.SaveHost? && step.disk.None? && StepIdsNew(r.state, step)
    requires Proposed(r, step) == Ok(s) && WithinCounts(s)
    ensures Next(r, step) == (r.(state := s), None) && RepoInv(r.(state := s))
  {
    WriteFailsOnlyOnSize(r, step, None);
    NextKeeps(r, step);
  }

  // ---- Runs ------------------------------------------------------------------------------------

  ghost predicate Does(r: Repo, s: Step, r': Repo) { StepIdsNew(r.state, s) && r' == Next(r, s).0 }

  /** The steps lead from the empty repository to `r`. */
  ghost predicate Reaches(steps: seq<Step>, r: Repo) { Paths.Leads(Does, INITIAL, steps, r) }

  lemma {:induction false} LeadsRuns(r: Repo, steps: seq<Step>, r': Repo)
    requires Paths.Leads(Does, r, steps, r')
    ensures RunIdsNew(r, steps) && Exec(r, steps) == r'
    decreases |steps|
  {
    var r1 := Paths.Unfolded(Does, r, steps, r');
    if steps != [] { LeadsRuns(r1, steps[1..], r'); }
  }

  lemma ReachesRuns(steps: seq<Step>, r: Repo)
    requires Reaches(steps, r)
    ensures RunIdsNew(INITIAL, steps) && Exec(INITIAL, steps) == r && RepoInv(r)
  {
    LeadsRuns(INITIAL, steps, r);
    InitialInv();
    ExecKeeps(INITIAL, steps);
  }

  lemma ReachesMore(steps: seq<Step>, r: Repo, s: Step, r': Repo)
    requires Reaches(steps, r) && StepIdsNew(r.state, s) && Next(r, s).0 == r'
    ensures Reaches(steps + [s], r')
  {
    Paths.OneStep(Does, r, s, r');
    Paths.Joined(Does, INITIAL, steps, r, [s], r');
  }

  /** Saving one more plain host, while only hosts it does not jump to are being deleted. */
  lemma PlainIsSaved(steps: seq<Step>, hosts: Hosts, deleting: set<string>, id: string, alias: string,
      jump: Option<string>)
    requires Reaches(steps, RepoOf(hosts, deleting)) && |hosts| < MAX_HOSTS && UnusedId(hosts, id)
    requires PlainNames(alias, jump) && PlainList(hosts, id, alias, jump) && (jump.Some? ==> jump.value !in deleting)
    ensures Reaches(steps + [Save(None, id, alias, jump)], RepoOf(hosts + [PlainHost(id, alias, jump)], deleting))
  {
    var r, r' := RepoOf(hosts, deleting), RepoOf(hosts + [PlainHost(id, alias, jump)], deleting);
    ReachesRuns(steps, r);
    PlainIsProposed(hosts, deleting, id, alias, jump);
    SaveIsWritten(r, Save(None, id, alias, jump), r'.state);
    ReachesMore(steps, r, Save(None, id, alias, jump), r');
  }

  ghost predicate ThreeIds(a: string, b: string, c: string) {
    IsId(a) && IsId(b) && IsId(c) && a != b && b != c && a != c
  }

  function HostB(b: string): Host { PlainHost(b, "b", None) }

  /** The host whose alias is the id of the other one. */
  function HostA(a: string, b: string): Host { PlainHost(a, b, None) }

  function HostC(b: string, c: string): Host { PlainHost(c, "c", Some(b)) }

  lemma IdIsAlias(id: string)
    requires IsId(id)
    ensures ValidAlias(id) && Trim(id) == id
  {
    IdIsAtom(id);
    Utf8LenAscii(id);
  }

  lemma LetterIsAlias(c: char)
    requires 'a' <= c <= 'z'
    ensures ValidAlias([c]) && Trim([c]) == [c]
  {
    TrimOfTrimmed([c]);
    Utf8LenAscii([c]);
  }

  lemma NamesDiffer(b: string)
    requires IsId(b)
    ensures !EqIgnoreCase("b", b) && !EqIgnoreCase("c", b) && !EqIgnoreCase("a", b)
    ensures !EqIgnoreCase("b", "c") && !EqIgnoreCase("a", "b") && !EqIgnoreCase("a", "c")
  {
    assert |Lower("a")| == 1 && |Lower("b")| == 1 && |Lower("c")| == 1 && |Lower(b)| == 36;
    assert Lower("a")[0] == 'a' && Lower("b")[0] == 'b' && Lower("c")[0] == 'c';
  }

  lemma FirstIsPlain(b: string)
    requires IsId(b)
    ensures PlainList([], b, "b", None)
  {
  }

  lemma SecondIsPlain(a: string, b: string)
    requires IsId(a) && IsId(b) && a != b
    ensures PlainList([HostB(b)], a, b, None)
  {
    NamesDiffer(b);
  }

  lemma ThirdIsPlain(a: string, b: string, c: string)
    requires ThreeIds(a, b, c)
    ensures PlainList([HostB(b), HostA(a, b)], c, "c", Some(b))
  {
    NamesDiffer(b);
    assert [HostB(b), HostA(a, b)][0].id == b;
  }

  function TwoSaves(a: string, b: string): seq<Step> { [] + [Save(None, b, "b", None)] + [Save(None, a, b, None)] }

  /** Host `b` saved, then host `a` with the id of `b` as its alias. */
  lemma TwoSaved(a: string, b: string)
    requires IsId(a) && IsId(b) && a != b
    ensures Reaches(TwoSaves(a, b), RepoOf([HostB(b), HostA(a, b)], {}))
  {
    LetterIsAlias('b');
    IdIsAlias(b);
    Paths.NoStep(Does, INITIAL);
    FirstIsPlain(b);
    PlainIsSaved([], [], {}, b, "b", None);
    assert [] + [HostB(b)] == [HostB(b)];
    SecondIsPlain(a, b);
    PlainIsSaved([] + [Save(None, b, "b", None)], [HostB(b)], {}, a, b, None);
    assert [HostB(b)] + [HostA(a, b)] == [HostB(b), HostA(a, b)];
  }

  /** Host `c` saved behind them, with a jump through `b`. */
  lemma ThirdSaved(steps: seq<Step>, a: string, b: string, c: string, deleting: set<string>)
    requires ThreeIds(a, b, c) && deleting <= {a} && Reaches(steps, RepoOf([HostB(b), HostA(a, b)], deleting))
    ensures Reaches(steps + [Save(None, c, "c", Some(b))], RepoOf([HostB(b), HostA(a, b), HostC(b, c)], deleting))
  {
    LetterIsAlias('c');
    ThirdIsPlain(a, b, c);
    PlainIsSaved(steps, [HostB(b), HostA(a, b)], deleting, c, "c", Some(b));
    assert [HostB(b), HostA(a, b)] + [HostC(b, c)] == [HostB(b), HostA(a, b), HostC(b, c)];
  }

  lemma SecondIsMarked(steps: seq<Step>, a: string, b: string)
    requires IsId(a) && IsId(b) && a != b && Reaches(steps, RepoOf([HostB(b), HostA(a, b)], {}))
    ensures Reaches(steps + [BeginDeletion(a)], RepoOf([HostB(b), HostA(a, b)], {a}))
  {
    var two := [HostB(b), HostA(a, b)];
    assert two[1].id == a;
    forall h | h in two ensures h.proxyJump.None? { }
    assert {} + {a} == {a};
    ReachesMore(steps, RepoOf(two, {}), BeginDeletion(a), RepoOf(two, {a}));
  }

  lemma SecondIsShadowed(a: string, b: string, c: string)
    requires ThreeIds(a, b, c)
    ensures var hosts := [HostB(b), HostA(a, b), HostC(b, c)]; Unreferenced(hosts, a) && AliasShadowsJump(hosts, a)
  {
    var hosts := [HostB(b), HostA(a, b), HostC(b, c)];
    assert hosts[1] in hosts && hosts[2] in hosts;
  }

  /** Saving `b`, then `a` under the id of `b` as its alias, marking `a`, and saving `c` with a jump
      through `b`: then finishing the deletion is refused, whatever the disk would have said. */
  lemma AliasTrap(a: string, b: string, c: string, disk: Option<Error>)
    requires ThreeIds(a, b, c)
    ensures var steps := TwoSaves(a, b) + [BeginDeletion(a)] + [Save(None, c, "c", Some(b))];
      var r := Exec(INITIAL, steps);
      && RunIdsNew(INITIAL, steps)
      && a in r.deleting && Unreferenced(r.state.hosts, a) && Next(r, FinishDeletion(a, disk)).1 == Some(Validation)
  {
    TwoSaved(a, b);
    SecondIsMarked(TwoSaves(a, b), a, b);
    ThirdSaved(TwoSaves(a, b) + [BeginDeletion(a)], a, b, c, {a});
    ReachesRuns(TwoSaves(a, b) + [BeginDeletion(a)] + [Save(None, c, "c", Some(b))],
      RepoOf([HostB(b), HostA(a, b), HostC(b, c)], {a}));
    SecondIsShadowed(a, b, c);
    FinishDeletionOutcome(RepoOf([HostB(b), HostA(a, b), HostC(b, c)], {a}), a, disk);
  }

  lemma RenameIsApplied(a: string, b: string, c: string, e: string)
    requires ThreeIds(a, b, c)
    ensures ApplyDraft([HostB(b), HostA(a, b), HostC(b, c)], PlainDraft(Some(a), "a", None), e, 0)
            == Ok(Applied([HostB(b), PlainHost(a, "a", None), HostC(b, c)], 1))
  {
    var hosts := [HostB(b), HostA(a, b), HostC(b, c)];
    LetterIsAlias('a');
    NamesDiffer(b);
    PlainDraftMakes(a, "a", None);
    assert hosts[1].id == a && IndexOfId(hosts, a) == Some(1);
    assert Put(hosts, 1, PlainHost(a, "a", None)) == [HostB(b), PlainHost(a, "a", None), HostC(b, c)];
  }

  lemma RenameIsPassedOn(a: string, b: string, c: string, e: string)
    requires ThreeIds(a, b, c)
    ensures FollowRename([HostB(b), HostA(a, b), HostC(b, c)], PlainDraft(Some(a), "a", None),
                         Applied([HostB(b), PlainHost(a, "a", None), HostC(b, c)], 1))
            == [HostB(b), PlainHost(a, "a", None), HostC(a, c)]
  {
    var hosts := [HostB(b), HostA(a, b), HostC(b, c)];
    NamesDiffer(b);
    assert hosts[1].id == a && IndexOfId(hosts, a) == Some(1);
    assert RenameDependents([HostB(b), PlainHost(a, "a", None), HostC(b, c)], b, a)
      == [HostB(b), PlainHost(a, "a", None), HostC(a, c)];
  }

  lemma RenameIsFollowed(a: string, b: string, c: string, e: string)
    requires ThreeIds(a, b, c)
    ensures UpdateHost([HostB(b), HostA(a, b), HostC(b, c)], PlainDraft(Some(a), "a", None), e, 0)
            == Ok(Applied([HostB(b), PlainHost(a, "a", None), HostC(a, c)], 1))
  {
    var after := [HostB(b), PlainHost(a, "a", None), HostC(a, c)];
    RenameIsApplied(a, b, c, e);
    RenameIsPassedOn(a, b, c, e);
    assert after[1].id == a && IndexOfId(after, a) == Some(1);
    DirectSettles(after, 1);
  }

  lemma DirectSettles(hosts: Hosts, at: nat)
    requires at < |hosts| && IndexOfId(hosts, hosts[at].id) == Some(at) && hosts[at].proxyJump.None?
    ensures Settle(hosts, at) == Ok(hosts)
  {
    assert hosts[at := hosts[at].(proxyJump := None)] == hosts;
  }

  lemma RenameIsProposed(a: string, b: string, c: string, e: string)
    requires ThreeIds(a, b, c)
    ensures SaveHostState(RepoOf([HostB(b), HostA(a, b), HostC(b, c)], {}), PlainDraft(Some(a), "a", None), e, 0)
            == Ok(RepoOf([HostB(b), PlainHost(a, "a", None), HostC(a, c)], {}).state)
  {
    RenameIsFollowed(a, b, c, e);
  }

  lemma RenameIsSaved(steps: seq<Step>, a: string, b: string, c: string, e: string)
    requires ThreeIds(a, b, c) && IsId(e) && e !in {a, b, c}
      && Reaches(steps, RepoOf([HostB(b), HostA(a, b), HostC(b, c)], {}))
    ensures Reaches(steps + [Save(Some(a), e, "a", None)], RepoOf([HostB(b), PlainHost(a, "a", None), HostC(a, c)], {}))
  {
    var r, r' := RepoOf([HostB(b), HostA(a, b), HostC(b, c)], {}),
      RepoOf([HostB(b), PlainHost(a, "a", None), HostC(a, c)], {});
    ReachesRuns(steps, r);
    RenameIsProposed(a, b, c, e);
    SaveIsWritten(r, Save(Some(a), e, "a", None), r'.state);
    ReachesMore(steps, r, Save(Some(a), e, "a", None), r');
  }

  /** Saving `b`, then `a` under the id of `b` as its alias, and `c` with a jump through `b`: renaming
      `a` sends `c` through `a`. */
  lemma RenameTrap(a: string, b: string, c: string, e: string)
    requires ThreeIds(a, b, c) && IsId(e) && e !in {a, b, c}
    ensures var steps := TwoSaves(a, b) + [Save(None, c, "c", Some(b))];
      var more := steps + [Save(Some(a), e, "a", None)];
      && RunIdsNew(INITIAL, more)
      && Exec(INITIAL, steps).state.hosts == [HostB(b), HostA(a, b), HostC(b, c)]
      && Exec(INITIAL, more).state.hosts == [HostB(b), PlainHost(a, "a", None), HostC(a, c)]
  {
    var steps := TwoSaves(a, b) + [Save(None, c, "c", Some(b))];
    TwoSaved(a, b);
    ThirdSaved(TwoSaves(a, b), a, b, c, {});
    RenameIsSaved(steps, a, b, c, e);
    ReachesRuns(steps, RepoOf([HostB(b), HostA(a, b), HostC(b, c)], {}));
    ReachesRuns(steps + [Save(Some(a), e, "a", None)], RepoOf([HostB(b), PlainHost(a, "a", None), HostC(a, c)], {}));
  }

  const ID_A := "aaaaaaaa-aaaa-4aaa-8aaa-aaaaaaaaaaaa"
  const ID_B := "bbbbbbbb-bbbb-4bbb-8bbb-bbbbbbbbbbbb"
  const ID_C := "cccccccc-cccc-4ccc-8ccc-cccccccccccc"

  lemma ThreeIdsExist()
    ensures ThreeIds(ID_A, ID_B, ID_C)
  {
    assert ID_A[0] == 'a' && ID_B[0] == 'b' && ID_C[0] == 'c';
  }
}
