/** All runs of the repository: sound states, depth-one jumps, safe deletions, idempotent
    batch imports. */
module RepositoryRuns {
  import opened Prelude
  import opened Strings
  import opened Profiles
  import opened ProxyJump
  import opened HostImport
  import opened HostRecords
  import opened Repository
  import opened RepositorySteps

  /** The host exists and nobody jumps through it. */
  ghost predicate Unreferenced(hosts: Hosts, id: string) {
    HasHost(hosts, id) && forall h | h in hosts :: h.proxyJump != Some(id)
  }

  ghost predicate RepoInv(r: Repo) {
    && Sound(r.state) && WithinCounts(r.state)
    && forall id | id in r.deleting :: Unreferenced(r.state.hosts, id)
  }

  const INITIAL := Repo(PersistedState(2, Settings(map[]), [], [], [], []), {})

  lemma InitialInv()
    ensures RepoInv(INITIAL)
  {
  }

  // ---- A marked host stays unreferenced ------------------------------------------------------

  /** `after` keeps every old id, and only the host at `at` got a jump to anything but `edited`. */
  ghost predicate RetargetsTo(before: Hosts, after: Hosts, at: nat, edited: Option<string>) {
    && at < |after| && |before| <= |after|
    && (forall k | 0 <= k < |before| :: after[k].id == before[k].id)
    && forall k | 0 <= k < |after| && k != at :: JumpKept(before, after, k, edited)
  }

  ghost predicate JumpKept(before: Hosts, after: Hosts, k: nat, edited: Option<string>)
    requires k < |after|
  {
    k < |before| && (after[k].proxyJump == before[k].proxyJump || (edited.Some? && after[k].proxyJump == edited))
  }

  lemma FollowRetargets(before: Hosts, d: HostDraft, a: Applied)
    requires RetargetsTo(before, a.hosts, a.at, d.id)
    requires d.id.Some? ==> a.hosts[a.at].id == d.id.value
    ensures RetargetsTo(before, FollowRename(before, d, a), a.at, d.id)
  {
    var r := FollowRename(before, d, a);
    forall k | 0 <= k < |r| && k != a.at
      ensures JumpKept(before, r, k, d.id)
    {
      assert JumpKept(before, a.hosts, k, d.id);
    }
  }

  lemma SettleRetargets(before: Hosts, hosts: Hosts, at: nat, edited: Option<string>, after: Hosts)
    requires RetargetsTo(before, hosts, at, edited) && DistinctHosts(hosts) && Settle(hosts, at) == Ok(after)
    ensures RetargetsTo(before, after, at, edited)
  {
    NormalizeEffect(hosts, at);
    assert after[at] == hosts[at].(proxyJump := after[at].proxyJump);
    forall k | 0 <= k < |after| && k != at
      ensures JumpKept(before, after, k, edited)
    {
      assert after[k] == hosts[k] && JumpKept(before, hosts, k, edited);
    }
  }

  lemma DraftRetargets(hosts: Hosts, d: HostDraft, newId: string, now: nat, a: Applied)
    requires ApplyDraft(hosts, d, newId, now) == Ok(a) && OnlyTouched(hosts, a.hosts, a.at)
    ensures RetargetsTo(hosts, a.hosts, a.at, d.id)
    ensures d.id.Some? ==> a.hosts[a.at].id == d.id.value
  {
    var made := ApplyDraftShape(hosts, d, newId, now, a);
    TouchRetargets(hosts, a.hosts, a.at, d.id);
  }

  lemma TouchRetargets(before: Hosts, after: Hosts, at: nat, edited: Option<string>)
    requires OnlyTouched(before, after, at)
    ensures RetargetsTo(before, after, at, edited)
  {
  }

  /** An edit changes the jump of another host only to point it at the edited host. */
  lemma UpdateRetargets(hosts: Hosts, d: HostDraft, newId: string, now: nat, r: Applied)
    requires DistinctHosts(hosts) && IdsOk(hosts) && AllValid(hosts) && DepthOne(hosts) && UnusedId(hosts, newId)
    requires UpdateHost(hosts, d, newId, now) == Ok(r)
    ensures RetargetsTo(hosts, r.hosts, r.at, d.id)
  {
    var a := ApplyDraft(hosts, d, newId, now).value;
    ApplyDraftKeeps(hosts, d, newId, now, a);
    DraftRetargets(hosts, d, newId, now, a);
    FollowRenameKeeps(hosts, d, a);
    FollowRetargets(hosts, d, a);
    SettleRetargets(hosts, FollowRename(hosts, d, a), a.at, d.id, r.hosts);
  }

  /** The stored jump of a host in a good list is the id of the host it resolves to. */
  lemma JumpIsResolved(hosts: Hosts, at: nat, jump: Option<nat>)
    requires DistinctHosts(hosts) && IdsOk(hosts) && DepthOne(hosts) && at < |hosts|
    requires ResolveJump(hosts, hosts[at]) == Ok(jump)
    ensures hosts[at].proxyJump == if jump.Some? then Some(hosts[jump.value].id) else None
  {
    if hosts[at].proxyJump.Some? {
      var j: nat :| JumpsTo(hosts, at, j);
      IdResolves(hosts, j);
    }
  }

  lemma StillUnreferenced(before: Hosts, after: Hosts, at: nat, edited: Option<string>, id: string)
    requires Unreferenced(before, id) && RetargetsTo(before, after, at, edited)
    requires edited != Some(id) && after[at].proxyJump != Some(id)
    ensures Unreferenced(after, id)
  {
    var h :| h in before && h.id == id;
    var i :| 0 <= i < |before| && before[i] == h;
    assert after[i].id == id && after[i] in after;
    forall g | g in after ensures g.proxyJump != Some(id) {
      var k :| 0 <= k < |after| && after[k] == g;
      if k != at { assert JumpKept(before, after, k, edited) && before[k] in before; }
    }
  }

  lemma SaveHostKeepsMark(r: Repo, d: HostDraft, newId: string, now: nat, id: string)
    requires Sound(r.state) && UnusedId(r.state.hosts, newId)
    requires id in r.deleting && Unreferenced(r.state.hosts, id)
    ensures var p := SaveHostState(r, d, newId, now); p.Ok? ==> Unreferenced(p.value.hosts, id)
  {
    var p := SaveHostState(r, d, newId, now);
    if p.Ok? {
      var hosts := r.state.hosts;
      var a := UpdateHost(hosts, d, newId, now).value;
      UpdateHostKeeps(hosts, d, newId, now);
      UpdateRetargets(hosts, d, newId, now, a);
      SavedKeepsMark(hosts, a, d.id, r.deleting, id);
    }
  }

  lemma SavedKeepsMark(before: Hosts, a: Applied, edited: Option<string>, deleting: set<string>, id: string)
    requires UpdatePost(before, a.hosts, a.at) && RetargetsTo(before, a.hosts, a.at, edited)
    requires id in deleting && Unreferenced(before, id) && edited != Some(id)
    requires var jump := ResolveJump(a.hosts, a.hosts[a.at]);
      jump.Ok? && (jump.value.Some? ==> a.hosts[jump.value.value].id !in deleting)
    ensures Unreferenced(a.hosts, id)
  {
    JumpIsResolved(a.hosts, a.at, ResolveJump(a.hosts, a.hosts[a.at]).value);
    StillUnreferenced(before, a.hosts, a.at, edited, id);
  }

  lemma DeletionKeepsMarks(s: PersistedState, gone: string, id: string)
    requires Unreferenced(s.hosts, id) && id != gone
    ensures Unreferenced(WithoutHost(s, gone).hosts, id)
  {
    var h :| h in s.hosts && h.id == id;
    assert h in WithoutHost(s, gone).hosts;
  }

  lemma NoSelfJump(hosts: Hosts, i: nat)
    requires DistinctHosts(hosts) && DepthOne(hosts) && i < |hosts|
    ensures hosts[i].proxyJump != Some(hosts[i].id)
  {
    if hosts[i].proxyJump.Some? {
      var j: nat :| JumpsTo(hosts, i, j);
      assert hosts[j].id != hosts[i].id;
    }
  }

  lemma MarkIsUnreferenced(s: PersistedState, id: string)
    requires DistinctHosts(s.hosts) && IdsOk(s.hosts) && DepthOne(s.hosts) && CheckDeletable(s, id).None?
    ensures Unreferenced(s.hosts, id)
  {
    NobodyJumpsTo(s, id);
    var at := IndexOfId(s.hosts, id).value;
    assert s.hosts[at] in s.hosts;
    forall h | h in s.hosts ensures h.proxyJump != Some(id) {
      var i :| 0 <= i < |s.hosts| && s.hosts[i] == h;
      NoSelfJump(s.hosts, i);
    }
  }

  /** Only saving a host, finishing a deletion and importing change the host list. */
  lemma OtherStepsKeepHosts(r: Repo, step: Step)
    requires !step.SaveHost? && !step.FinishDeletion? && r.deleting != {}
    ensures Proposed(r, step).Ok? ==> Proposed(r, step).value.hosts == r.state.hosts
  {
  }

  /** While a host is marked as being deleted, no step can make another host jump through it. */
  lemma ProposedKeepsMarks(r: Repo, step: Step, id: string)
    requires Sound(r.state) && StepIdsNew(r.state, step) && id in r.deleting && Unreferenced(r.state.hosts, id)
    requires step.FinishDeletion? ==> step.id != id
    ensures Proposed(r, step).Ok? ==> Unreferenced(Proposed(r, step).value.hosts, id)
  {
    if step.SaveHost? { SaveHostKeepsMark(r, step.host, step.newId, step.now, id); }
    else if step.FinishDeletion? { DeletionKeepsMarks(r.state, step.id, id); }
    else { OtherStepsKeepHosts(r, step); }
  }

  /** While a host is marked, no step adds a tunnel for it or a command scoped to it. */
  lemma MarkedHostGainsNothing(r: Repo, step: Step, id: string)
    requires Sound(r.state) && StepIdsNew(r.state, step) && id in r.deleting && Proposed(r, step).Ok?
    ensures forall t | t in Proposed(r, step).value.tunnels && t.hostId == id :: t in r.state.tunnels
    ensures forall c | c in Proposed(r, step).value.commands && c.hostId == Some(id) :: c in r.state.commands
  {
    if step.SaveTunnel? { ApplyTunnelKeeps(r.state.tunnels, r.state.hosts, step.tunnel, step.newId, step.now); }
    else if step.SaveCommand? {
      ApplyCommandKeeps(r.state.commands, r.state.hosts, step.command, step.newId, step.now);
    }
    else { OtherStepsAddNoRecords(r, step); }
  }

  lemma OtherStepsAddNoRecords(r: Repo, step: Step)
    requires !step.SaveTunnel? && !step.SaveCommand? && r.deleting != {} && Proposed(r, step).Ok?
    ensures forall t | t in Proposed(r, step).value.tunnels :: t in r.state.tunnels
    ensures forall c | c in Proposed(r, step).value.commands :: c in r.state.commands
  {
  }

  lemma CommitKeepsMark(r: Repo, step: Step, disk: Option<Error>, id: string)
    requires Sound(r.state) && StepIdsNew(r.state, step) && id in r.deleting && Unreferenced(r.state.hosts, id)
    requires step.FinishDeletion? ==> step.id != id
    ensures Unreferenced(Commit(r, Proposed(r, step), disk).0.state.hosts, id)
  {
    ProposedKeepsMarks(r, step, id);
  }

  lemma CommitIsSound(r: Repo, s: Result<PersistedState, Error>, disk: Option<Error>)
    requires Sound(r.state) && WithinCounts(r.state) && (s.Ok? ==> Sound(s.value))
    ensures var r' := Commit(r, s, disk).0; Sound(r'.state) && WithinCounts(r'.state) && r'.deleting == r.deleting
  {
  }

  lemma CommitKeeps(r: Repo, step: Step, disk: Option<Error>)
    requires RepoInv(r) && StepIdsNew(r.state, step)
    ensures var r' := Commit(r, Proposed(r, step), disk).0;
      && Sound(r'.state) && WithinCounts(r'.state) && r'.deleting == r.deleting
      && forall id | id in r.deleting && !(step.FinishDeletion? && step.id == id) :: Unreferenced(r'.state.hosts, id)
  {
    ProposedSound(r, step);
    CommitIsSound(r, Proposed(r, step), disk);
    forall id | id in r.deleting && !(step.FinishDeletion? && step.id == id)
      ensures Unreferenced(Commit(r, Proposed(r, step), disk).0.state.hosts, id)
    {
      CommitKeepsMark(r, step, disk, id);
    }
  }

  lemma NextKeeps(r: Repo, step: Step)
    requires RepoInv(r) && StepIdsNew(r.state, step)
    ensures RepoInv(Next(r, step).0)
  {
    match step
    case BeginDeletion(id) => if CheckDeletable(r.state, id).None? { MarkIsUnreferenced(r.state, id); }
    case AbortDeletion(id) =>
    case FinishDeletion(id, disk) => CommitKeeps(r, step, disk);
    case ImportHostList(_, _, disk) => CommitKeeps(r, step, disk);
    case ImportBatch(_, _, _, disk) => CommitKeeps(r, step, disk);
    case _ => CommitKeeps(r, step, step.disk);
  }

  // ---- Whole runs ----------------------------------------------------------------------------

  function Exec(r: Repo, steps: seq<Step>): (out: Repo)
    decreases |steps|
  {
    if steps == [] then r else Exec(Next(r, steps[0]).0, steps[1..])
  }

  ghost predicate RunIdsNew(r: Repo, steps: seq<Step>)
    decreases |steps|
  {
    steps == [] || (StepIdsNew(r.state, steps[0]) && RunIdsNew(Next(r, steps[0]).0, steps[1..]))
  }

  lemma {:induction false} ExecKeeps(r: Repo, steps: seq<Step>)
    requires RepoInv(r) && RunIdsNew(r, steps)
    ensures RepoInv(Exec(r, steps))
    decreases |steps|
  {
    if steps != [] {
      NextKeeps(r, steps[0]);
      ExecKeeps(Next(r, steps[0]).0, steps[1..]);
    }
  }

  /** From an empty repository, every run of saves, edits, renames, imports and deletions
      leaves a state the validator accepts whose jumps form a depth-one graph. */
  lemma EveryRunIsSound(steps: seq<Step>)
    requires RunIdsNew(INITIAL, steps)
    ensures var s := Exec(INITIAL, steps).state; Validates(s) && DepthOne(s.hosts) && IdsOk(s.hosts)
  {
    InitialInv();
    ExecKeeps(INITIAL, steps);
  }

  // ---- Two-phase deletion --------------------------------------------------------------------

  /** Nothing in the state mentions the host any more. */
  ghost predicate Forgotten(s: PersistedState, id: string) {
    && (forall h | h in s.hosts :: h.id != id && h.proxyJump != Some(id))
    && (forall t | t in s.tunnels :: t.hostId != id)
    && (forall c | c in s.commands :: c.hostId != Some(id))
  }

  /** Some jump, although it is the id of another host, is spelled like the alias of `id`. */
  ghost predicate AliasShadowsJump(hosts: Hosts, id: string) {
    exists h, g | h in hosts && g in hosts ::
      g.id == id && h.proxyJump.Some? && EqIgnoreCase(h.proxyJump.value, g.alias) && h.id != id
  }

  lemma MatchIsByAlias(hosts: Hosts, h: Host, g: Host)
    requires DistinctHosts(hosts) && IdsOk(hosts) && DepthOne(hosts) && h in hosts && g in hosts
      && h.proxyJump != Some(g.id)
    ensures ReferenceMatches(h.proxyJump, g) <==> h.proxyJump.Some? && EqIgnoreCase(h.proxyJump.value, g.alias)
  {
    if h.proxyJump.Some? {
      var i :| 0 <= i < |hosts| && hosts[i] == h;
      var j: nat :| JumpsTo(hosts, i, j);
      assert hosts[j] in hosts;
      IdIsAtom(hosts[j].id);
      NotAnEndpoint(hosts[j].id, g);
    }
  }

  lemma NotAnEndpoint(id: string, g: Host)
    requires '@' !in id
    ensures !IsEndpointOf(id, g)
  {
    assert EndpointWithPort(g)[|g.username|] == '@';
    assert Endpoint(g)[|g.username|] == '@';
  }

  lemma DeletableUnlessShadowed(s: PersistedState, id: string)
    requires Sound(s) && Unreferenced(s.hosts, id)
    ensures CheckDeletable(s, id) == if AliasShadowsJump(s.hosts, id) then Some(Validation) else None
  {
    var k := IndexOfId(s.hosts, id);
    var g := s.hosts[k.value];
    assert g in s.hosts;
    forall h | h in s.hosts
      ensures ReferenceMatches(h.proxyJump, g) <==> h.proxyJump.Some? && EqIgnoreCase(h.proxyJump.value, g.alias)
    {
      MatchIsByAlias(s.hosts, h, g);
    }
    forall x | x in s.hosts && x.id == id ensures x == g {
      var i :| 0 <= i < |s.hosts| && s.hosts[i] == x;
    }
  }

  lemma WithoutHostForgets(s: PersistedState, id: string)
    requires Unreferenced(s.hosts, id)
    ensures Forgotten(WithoutHost(s, id), id)
  {
  }

  lemma SmallerPersists(s: PersistedState, id: string, disk: Option<Error>)
    requires Sound(s) && WithinCounts(s) && CheckDeletable(s, id).None?
    ensures Persist(WithoutHost(s, id), disk) == disk
  {
    DeleteHostKeeps(s, id);
  }

  lemma FinishDeletionSteps(r: Repo, id: string, disk: Option<Error>)
    requires id in r.deleting
    ensures var (r', failed) := Next(r, FinishDeletion(id, disk));
      var refused := CheckDeletable(r.state, id);
      && r'.deleting == r.deleting - {id}
      && failed == (if refused.Some? then refused else Persist(WithoutHost(r.state, id), disk))
      && r'.state == if failed.Some? then r.state else WithoutHost(r.state, id)
  {
  }

  /** Finishing a marked deletion succeeds exactly when the file write does, unless the alias
      of the host is spelled like the id some other host jumps through. */
  lemma FinishDeletionOutcome(r: Repo, id: string, disk: Option<Error>)
    requires RepoInv(r) && id in r.deleting
    ensures var (r', failed) := Next(r, FinishDeletion(id, disk));
      && r'.deleting == r.deleting - {id}
      && failed == (if AliasShadowsJump(r.state.hosts, id) then Some(Validation) else disk)
      && (failed.Some? ==> r'.state == r.state)
      && (failed.None? ==> Forgotten(r'.state, id))
  {
    FinishDeletionSteps(r, id, disk);
    DeletableUnlessShadowed(r.state, id);
    WithoutHostForgets(r.state, id);
    if CheckDeletable(r.state, id).None? { SmallerPersists(r.state, id, disk); }
  }

  /** No alias is spelled like a host id. */
  ghost predicate AliasesAreNotIds(hosts: Hosts) {
    forall g, h | g in hosts && h in hosts :: !EqIgnoreCase(h.id, g.alias)
  }

  lemma PlainAliasesNeverShadow(hosts: Hosts, id: string)
    requires DepthOne(hosts) && AliasesAreNotIds(hosts)
    ensures !AliasShadowsJump(hosts, id)
  {
    forall h, g | h in hosts && g in hosts && h.proxyJump.Some? ensures !EqIgnoreCase(h.proxyJump.value, g.alias) {
      var i :| 0 <= i < |hosts| && hosts[i] == h;
      var j: nat :| JumpsTo(hosts, i, j);
      assert hosts[j] in hosts;
    }
  }

  /** While aliases are not ids, a marked deletion can fail only in persistence. */
  lemma FinishDeletionFailsOnlyOnDisk(r: Repo, id: string, disk: Option<Error>)
    requires RepoInv(r) && id in r.deleting && AliasesAreNotIds(r.state.hosts)
    ensures Next(r, FinishDeletion(id, disk)).1 == disk
    ensures disk.None? ==> Forgotten(Next(r, FinishDeletion(id, disk)).0.state, id)
  {
    PlainAliasesNeverShadow(r.state.hosts, id);
    FinishDeletionOutcome(r, id, disk);
  }

  // ---- Batch import --------------------------------------------------------------------------

  lemma CommitOutcome(r: Repo, s: Result<PersistedState, Error>, disk: Option<Error>)
    ensures var (r', failed) := Commit(r, s, disk);
      if failed.Some? then r' == r else s.Ok? && r' == r.(state := s.value)
  {
  }

  lemma ImportBatchStep(r: Repo, b: Batch, order: seq<string>, now: nat, disk: Option<Error>)
    ensures Next(r, ImportBatch(b, order, now, disk)) ==
      if !ValidHash(b.sourceHash) then (r, Some(Validation))
      else if r.deleting != {} then (r, Some(State))
      else if HasImport(r.state, b.sourceHash) then (r, None)
      else Commit(r, ImportNewBatch(r.state, b, order, now), disk)
  {
  }

  /** A batch import is all or nothing. */
  lemma ImportBatchAllOrNothing(r: Repo, b: Batch, order: seq<string>, now: nat, disk: Option<Error>)
    requires RepoInv(r) && BatchIdsNew(r.state, b, order)
    ensures var (r', failed) := Next(r, ImportBatch(b, order, now, disk));
      && (failed.Some? ==> r' == r)
      && (failed.None? ==>
            && ValidHash(b.sourceHash) && r.deleting == {} && r'.deleting == {}
            && (if HasImport(r.state, b.sourceHash) then r' == r else BatchAdded(r.state, b, r'.state)))
  {
    ImportBatchStep(r, b, order, now, disk);
    if ValidHash(b.sourceHash) && r.deleting == {} {
      ImportNewBatchKeeps(r.state, b, order, now);
      CommitOutcome(r, ImportNewBatch(r.state, b, order, now), disk);
    }
  }

  lemma HashCase(a: string, b: string)
    requires EqIgnoreCase(a, b) && ValidHash(a)
    ensures ValidHash(b)
  {
    forall i | 0 <= i < |b| ensures IsHexDigit(b[i]) && a[i] as int < 0x80 && b[i] as int < 0x80 {
      assert a[i] in a;
      assert LowerChar(a[i]) == Lower(a)[i] == Lower(b)[i] == LowerChar(b[i]);
    }
    assert |a| == |Lower(a)| == |Lower(b)| == |b|;
    Utf8LenAscii(a);
    Utf8LenAscii(b);
  }

  /** Importing the same source again, its hash in any letter case, changes nothing. */
  lemma ImportBatchIdempotent(r: Repo, b: Batch, order: seq<string>, now: nat, disk: Option<Error>,
                              again: Batch, order': seq<string>, now': nat, disk': Option<Error>)
    requires RepoInv(r) && BatchIdsNew(r.state, b, order)
    requires Next(r, ImportBatch(b, order, now, disk)).1.None?
    requires EqIgnoreCase(again.sourceHash, b.sourceHash)
    ensures var r' := Next(r, ImportBatch(b, order, now, disk)).0;
      Next(r', ImportBatch(again, order', now', disk')) == (r', None)
  {
    ImportBatchAllOrNothing(r, b, order, now, disk);
    var s' := Next(r, ImportBatch(b, order, now, disk)).0.state;
    HashCase(b.sourceHash, again.sourceHash);
    if HasImport(r.state, b.sourceHash) {
      var h :| h in r.state.hashes && EqIgnoreCase(h, b.sourceHash);
      assert EqIgnoreCase(h, again.sourceHash);
    } else {
      LowerIdempotent(b.sourceHash);
      assert s'.hashes[|r.state.hashes|] == Lower(b.sourceHash);
      assert Lower(b.sourceHash) in s'.hashes;
    }
    assert HasImport(s', again.sourceHash);
  }
}
