/** Every operation of the repository from the outside: exactly when it succeeds, and the whole state it
    leaves, in terms of the state before it and what it was asked for. */
module RepositoryOutcomes {
  import opened Prelude
  import opened Strings
  import opened Profiles
  import opened ProxyJump
  import opened HostImport
  import opened HostRecords
  import opened Repository
  import opened RepositorySteps
  import opened RepositoryRuns
  import opened Jumps
  import opened SavedRecords

  // ---- Putting one record into a list ------------------------------------------------------------------------

  /** Where a record goes: the place of the one it replaces, or behind all of them. */
  predicate GoesTo<T>(xs: seq<T>, id: T -> string, wanted: Option<string>, at: nat) {
    if wanted.None? then at == |xs| else at < |xs| && id(xs[at]) == wanted.value
  }

  function Replaced<T>(xs: seq<T>, at: nat): Option<T> { if at < |xs| then Some(xs[at]) else None }

  /** `after` is `xs` with `x` at `at`, and everything else where it was. */
  predicate Has<T(==)>(xs: seq<T>, at: nat, x: T, after: seq<T>) {
    && at <= |xs| && |after| == (if at < |xs| then |xs| else |xs| + 1) && after[at] == x
    && forall k | 0 <= k < |xs| && k != at :: after[k] == xs[k]
  }

  function HostId(h: Host): string { h.id }

  function TunnelId(t: Tunnel): string { t.id }

  function CommandId(c: Command): string { c.id }

  predicate AliasIsFree(hosts: Hosts, d: HostDraft) {
    forall h | h in hosts && SameButCase(h.alias, Trim(d.alias)) :: d.id == Some(h.id)
  }

  /** The connection options asked for are within bounds, and a key is given where one is needed. */
  ghost predicate CanMake(d: HostDraft, existing: Option<Host>) {
    && (ChosenAuth(d, existing).PrivateKey? ==> !IsBlank(d.identityFile))
    && exists a :: AdvancedFits(a, d, existing)
  }

  lemma AliasTaken(hosts: Hosts, d: HostDraft)
    ensures AliasIsFree(hosts, d) <==>
      !exists h | h in hosts :: EqIgnoreCase(h.alias, Trim(d.alias)) && d.id != Some(h.id)
  {
    forall h | h in hosts ensures EqIgnoreCase(h.alias, Trim(d.alias)) <==> SameButCase(h.alias, Trim(d.alias)) {
      EqualIsSameButCase(h.alias, Trim(d.alias));
    }
  }

  lemma DraftAppliedAt(hosts: Hosts, d: HostDraft, newId: string, now: nat, at: nat)
    requires DistinctHosts(hosts) && GoesTo(hosts, HostId, d.id, at)
    ensures var (r, made) := (ApplyDraft(hosts, d, newId, now), HostFromDraft(d, Replaced(hosts, at), newId, now));
      && (r.Ok? <==> ValidHostDraft(d) && AliasIsFree(hosts, d) && made.Ok?)
      && (r.Ok? ==> r.value.at == at && r.value.hosts == Put(hosts, at, made.value))
  {
    if at < |hosts| { IndexOfIdUnique(hosts, at); }
    AliasTaken(hosts, d);
  }

  /** A draft can be put into the list if and only if it is well-formed, its alias is free, the host it
      edits is there, and a host can be made of it. */
  lemma DraftApplies(hosts: Hosts, d: HostDraft, newId: string, now: nat, at: nat)
    requires DistinctHosts(hosts) && GoesTo(hosts, HostId, d.id, at)
    ensures var r := ApplyDraft(hosts, d, newId, now);
      && (r.Ok? <==> ValidHostDraft(d) && AliasIsFree(hosts, d) && CanMake(d, Replaced(hosts, at)))
      && (r.Ok? ==>
            && r.value.at == at && Has(hosts, at, r.value.hosts[at], r.value.hosts)
            && HostTakes(r.value.hosts[at], d, Replaced(hosts, at), newId, now))
  {
    DraftAppliedAt(hosts, d, newId, now, at);
    MadeHost(d, Replaced(hosts, at), newId, now);
    var made := HostFromDraft(d, Replaced(hosts, at), newId, now);
    if made.Ok? { PutHas(hosts, at, made.value); }
  }

  predicate TunnelNameIsFree(tunnels: Tunnels, d: TunnelDraft) {
    forall t | t in tunnels && t.hostId == d.hostId && SameButCase(t.name, Trim(d.name)) :: d.id == Some(t.id)
  }

  lemma TunnelFound(tunnels: Tunnels, id: Option<string>, at: nat)
    requires DistinctTunnels(tunnels) && GoesTo(tunnels, TunnelId, id, at)
    ensures IndexOfTunnel(tunnels, id) == if at < |tunnels| then Some(at) else None
  {
    if at < |tunnels| { assert tunnels[at] in tunnels; }
  }

  lemma TunnelNameTaken(tunnels: Tunnels, d: TunnelDraft)
    ensures TunnelNameIsFree(tunnels, d) <==>
      !exists t | t in tunnels :: t.hostId == d.hostId && EqIgnoreCase(t.name, Trim(d.name)) && d.id != Some(t.id)
  {
    forall t | t in tunnels ensures EqIgnoreCase(t.name, Trim(d.name)) <==> SameButCase(t.name, Trim(d.name)) {
      EqualIsSameButCase(t.name, Trim(d.name));
    }
  }

  lemma PutHas<T>(xs: seq<T>, at: nat, x: T)
    requires at <= |xs|
    ensures Has(xs, at, x, Put(xs, at, x))
  {
  }

  lemma TunnelAppliedAt(tunnels: Tunnels, hosts: Hosts, d: TunnelDraft, newId: string, now: nat, at: nat)
    requires DistinctTunnels(tunnels) && GoesTo(tunnels, TunnelId, d.id, at)
    ensures var r := ApplyTunnel(tunnels, hosts, d, newId, now);
      && (r.Ok? <==> ValidTunnelDraft(d) && HasHost(hosts, d.hostId) && TunnelNameIsFree(tunnels, d))
      && (r.Ok? ==> r.value == Put(tunnels, at, TunnelFromDraft(d, Replaced(tunnels, at), newId, now)))
  {
    TunnelFound(tunnels, d.id, at);
    TunnelNameTaken(tunnels, d);
  }

  /** A tunnel can be put into the list if and only if its draft is well-formed, its host exists, its name is
      free on that host, and the tunnel it edits is there. */
  lemma TunnelApplies(tunnels: Tunnels, hosts: Hosts, d: TunnelDraft, newId: string, now: nat, at: nat)
    requires DistinctTunnels(tunnels) && GoesTo(tunnels, TunnelId, d.id, at)
    ensures var r := ApplyTunnel(tunnels, hosts, d, newId, now);
      && (r.Ok? <==> ValidTunnelDraft(d) && HasHost(hosts, d.hostId) && TunnelNameIsFree(tunnels, d))
      && (r.Ok? ==> at < |r.value| && Has(tunnels, at, r.value[at], r.value)
                    && TunnelTakes(r.value[at], d, Replaced(tunnels, at), newId, now))
  {
    TunnelAppliedAt(tunnels, hosts, d, newId, now, at);
    MadeTunnel(d, Replaced(tunnels, at), newId, now);
    PutHas(tunnels, at, TunnelFromDraft(d, Replaced(tunnels, at), newId, now));
  }

  predicate CommandNameIsFree(commands: Commands, d: CommandDraft) {
    forall c | c in commands && c.hostId == d.hostId && SameButCase(c.name, Trim(d.name)) :: d.id == Some(c.id)
  }

  lemma CommandFound(commands: Commands, id: Option<string>, at: nat)
    requires DistinctCommands(commands) && GoesTo(commands, CommandId, id, at)
    ensures IndexOfCommand(commands, id) == if at < |commands| then Some(at) else None
  {
    if at < |commands| { assert commands[at] in commands; }
  }

  lemma CommandNameTaken(commands: Commands, d: CommandDraft)
    ensures CommandNameIsFree(commands, d) <==>
      !exists c | c in commands :: c.hostId == d.hostId && EqIgnoreCase(c.name, Trim(d.name)) && d.id != Some(c.id)
  {
    forall c | c in commands ensures EqIgnoreCase(c.name, Trim(d.name)) <==> SameButCase(c.name, Trim(d.name)) {
      EqualIsSameButCase(c.name, Trim(d.name));
    }
  }

  lemma CommandAppliedAt(commands: Commands, hosts: Hosts, d: CommandDraft, newId: string, now: nat, at: nat)
    requires DistinctCommands(commands) && GoesTo(commands, CommandId, d.id, at)
    ensures var r := ApplyCommand(commands, hosts, d, newId, now);
      && (r.Ok? <==> ValidCommandDraft(d) && (d.hostId.Some? ==> HasHost(hosts, d.hostId.value))
                     && CommandNameIsFree(commands, d))
      && (r.Ok? ==> r.value == Put(commands, at, CommandFromDraft(d, Replaced(commands, at), newId, now)))
  {
    CommandFound(commands, d.id, at);
    CommandNameTaken(commands, d);
  }

  /** The same for a preset, whose host, if it has one, must exist. */
  lemma CommandApplies(commands: Commands, hosts: Hosts, d: CommandDraft, newId: string, now: nat, at: nat)
    requires DistinctCommands(commands) && GoesTo(commands, CommandId, d.id, at)
    ensures var r := ApplyCommand(commands, hosts, d, newId, now);
      && (r.Ok? <==> ValidCommandDraft(d) && (d.hostId.Some? ==> HasHost(hosts, d.hostId.value))
                     && CommandNameIsFree(commands, d))
      && (r.Ok? ==> at < |r.value| && Has(commands, at, r.value[at], r.value)
                    && CommandTakes(r.value[at], d, Replaced(commands, at), newId, now))
  {
    CommandAppliedAt(commands, hosts, d, newId, now, at);
    MadeCommand(d, Replaced(commands, at), newId, now);
    PutHas(commands, at, CommandFromDraft(d, Replaced(commands, at), newId, now));
  }

  /** What is to be edited is not there. */
  predicate IsMissing<T(==)>(xs: seq<T>, id: T -> string, wanted: Option<string>) {
    wanted.Some? && forall x | x in xs :: id(x) != wanted.value
  }

  // ---- The operations on single records ------------------------------------------------------------------------

  /** The disk takes the new state, and it is not too large. */
  predicate CanWrite(s: PersistedState, disk: Option<Error>) {
    |s.hosts| <= 512 && |s.tunnels| <= 2048 && |s.commands| <= 4096 && |s.hashes| <= 4096 && disk.None?
  }

  lemma CommitOfSound(r: Repo, p: Result<PersistedState, Error>, disk: Option<Error>)
    requires RepoInv(r) && (p.Ok? ==> Sound(p.value))
    ensures var (r', failed) := Commit(r, p, disk);
      && (failed.None? <==> p.Ok? && CanWrite(p.value, disk))
      && r' == if failed.None? then r.(state := p.value) else r
  {
  }

  /** `after` is the list with the tunnel of the draft in its place. */
  ghost predicate HasTunnel(ts: Tunnels, d: TunnelDraft, newId: string, now: nat, at: nat, after: Tunnels) {
    at < |after| && Has(ts, at, after[at], after) && TunnelTakes(after[at], d, Replaced(ts, at), newId, now)
  }

  function TunnelProposed(r: Repo, d: TunnelDraft, newId: string, now: nat): Result<PersistedState, Error> {
    if d.hostId in r.deleting then Err(State)
    else WithTunnels(r.state, ApplyTunnel(r.state.tunnels, r.state.hosts, d, newId, now))
  }

  lemma SaveTunnelStep(r: Repo, d: TunnelDraft, newId: string, now: nat, disk: Option<Error>)
    ensures Next(r, SaveTunnel(d, newId, now, disk)) == Commit(r, TunnelProposed(r, d, newId, now), disk)
  {
  }

  lemma TunnelProposedSound(r: Repo, d: TunnelDraft, newId: string, now: nat)
    requires RepoInv(r) && forall t | t in r.state.tunnels :: t.id != newId
    ensures TunnelProposed(r, d, newId, now).Ok? ==> Sound(TunnelProposed(r, d, newId, now).value)
  {
    SaveTunnelKeeps(r.state, d, newId, now);
  }

  lemma TunnelProposedHas(r: Repo, d: TunnelDraft, newId: string, now: nat, at: nat)
    requires DistinctTunnels(r.state.tunnels) && GoesTo(r.state.tunnels, TunnelId, d.id, at)
    ensures var (s, p) := (r.state, TunnelProposed(r, d, newId, now));
      && (p.Ok? <==>
            && d.hostId !in r.deleting && ValidTunnelDraft(d) && HasHost(s.hosts, d.hostId)
            && TunnelNameIsFree(s.tunnels, d))
      && (p.Ok? ==>
            && p.value == s.(tunnels := p.value.tunnels)
            && HasTunnel(s.tunnels, d, newId, now, at, p.value.tunnels))
  {
    TunnelApplies(r.state.tunnels, r.state.hosts, d, newId, now, at);
  }

  /** With only one list changed, only its length can be in the way of a write. */
  lemma CanWriteOne(before: PersistedState, after: PersistedState, disk: Option<Error>)
    requires WithinCounts(before)
    ensures after == before.(tunnels := after.tunnels) ==>
      (CanWrite(after, disk) <==> |after.tunnels| <= 2048 && disk.None?)
    ensures after == before.(hosts := after.hosts) ==> (CanWrite(after, disk) <==> |after.hosts| <= 512 && disk.None?)
  {
  }

  lemma TunnelCommitted(r: Repo, d: TunnelDraft, newId: string, now: nat, disk: Option<Error>, at: nat)
    requires RepoInv(r) && forall t | t in r.state.tunnels :: t.id != newId
    requires GoesTo(r.state.tunnels, TunnelId, d.id, at)
    ensures var (p, (r', failed)) := (TunnelProposed(r, d, newId, now),
      Commit(r, TunnelProposed(r, d, newId, now), disk));
      && (failed.None? <==> p.Ok? && |p.value.tunnels| <= 2048 && disk.None?)
      && r' == if failed.None? then r.(state := p.value) else r
  {
    var p := TunnelProposed(r, d, newId, now);
    TunnelProposedSound(r, d, newId, now);
    CommitOfSound(r, p, disk);
    if p.Ok? { CanWriteOne(r.state, p.value, disk); }
  }

  /** Saving a tunnel succeeds exactly under the conditions of its draft, unless its host is being deleted;
      one tunnel is then made or replaced, with the fields of the draft, and nothing else changes. */
  lemma SaveTunnelOutcome(r: Repo, d: TunnelDraft, newId: string, now: nat, disk: Option<Error>, at: nat)
    requires RepoInv(r) && forall t | t in r.state.tunnels :: t.id != newId
    requires GoesTo(r.state.tunnels, TunnelId, d.id, at)
    ensures var s := r.state; var (r', failed) := Next(r, SaveTunnel(d, newId, now, disk));
      && (failed.None? <==>
            && d.hostId !in r.deleting && ValidTunnelDraft(d) && HasHost(s.hosts, d.hostId)
            && TunnelNameIsFree(s.tunnels, d) && (at == |s.tunnels| ==> |s.tunnels| < 2048) && disk.None?)
      && (failed.Some? ==> r' == r)
      && (failed.None? ==>
            && r' == r.(state := s.(tunnels := r'.state.tunnels))
            && HasTunnel(s.tunnels, d, newId, now, at, r'.state.tunnels))
  {
    SaveTunnelStep(r, d, newId, now, disk);
    TunnelProposedHas(r, d, newId, now, at);
    TunnelCommitted(r, d, newId, now, disk, at);
  }

  ghost predicate HasCommand(cs: Commands, d: CommandDraft, newId: string, now: nat, at: nat, after: Commands) {
    at < |after| && Has(cs, at, after[at], after) && CommandTakes(after[at], d, Replaced(cs, at), newId, now)
  }

  lemma SaveCommandStep(r: Repo, d: CommandDraft, newId: string, now: nat, disk: Option<Error>)
    ensures Next(r, SaveCommand(d, newId, now, disk)) == Commit(r,
      if d.hostId.Some? && d.hostId.value in r.deleting then Err(State)
      else WithCommands(r.state, ApplyCommand(r.state.commands, r.state.hosts, d, newId, now)), disk)
  {
  }

  /** The same for a preset. */
  lemma SaveCommandOutcome(r: Repo, d: CommandDraft, newId: string, now: nat, disk: Option<Error>, at: nat)
    requires RepoInv(r) && forall c | c in r.state.commands :: c.id != newId
    requires GoesTo(r.state.commands, CommandId, d.id, at)
    ensures var s := r.state; var (r', failed) := Next(r, SaveCommand(d, newId, now, disk));
      && (failed.None? <==>
            && !(d.hostId.Some? && d.hostId.value in r.deleting) && ValidCommandDraft(d)
            && (d.hostId.Some? ==> HasHost(s.hosts, d.hostId.value))
            && CommandNameIsFree(s.commands, d) && (at == |s.commands| ==> |s.commands| < 4096) && disk.None?)
      && (failed.Some? ==> r' == r)
      && (failed.None? ==>
            && r' == r.(state := s.(commands := r'.state.commands))
            && HasCommand(s.commands, d, newId, now, at, r'.state.commands))
  {
    SaveCommandStep(r, d, newId, now, disk);
    SaveCommandKeeps(r.state, d, newId, now);
    CommandApplies(r.state.commands, r.state.hosts, d, newId, now, at);
    CommitOfSound(r, if d.hostId.Some? && d.hostId.value in r.deleting then Err(State)
                     else WithCommands(r.state, ApplyCommand(r.state.commands, r.state.hosts, d, newId, now)), disk);
  }

  lemma MissingTunnel(s: PersistedState, d: TunnelDraft, newId: string, now: nat)
    requires IsMissing(s.tunnels, TunnelId, d.id)
    ensures ApplyTunnel(s.tunnels, s.hosts, d, newId, now).Err?
  {
    forall t | t in s.tunnels ensures TunnelId(t) == t.id { }
  }

  lemma MissingCommand(s: PersistedState, d: CommandDraft, newId: string, now: nat)
    requires IsMissing(s.commands, CommandId, d.id)
    ensures ApplyCommand(s.commands, s.hosts, d, newId, now).Err?
  {
    forall c | c in s.commands ensures CommandId(c) == c.id { }
  }

  lemma MissingHost(s: PersistedState, d: HostDraft, newId: string, now: nat)
    requires IsMissing(s.hosts, HostId, d.id)
    ensures ApplyDraft(s.hosts, d, newId, now).Err?
  {
    forall h | h in s.hosts ensures HostId(h) == h.id { }
  }

  /** A record that is to be edited and is not there is refused. */
  lemma MissingIsRefused(r: Repo, step: Step)
    requires || (step.SaveTunnel? && IsMissing(r.state.tunnels, TunnelId, step.tunnel.id))
             || (step.SaveCommand? && IsMissing(r.state.commands, CommandId, step.command.id))
             || (step.SaveHost? && IsMissing(r.state.hosts, HostId, step.host.id))
    ensures Proposed(r, step).Err? && Next(r, step).0 == r && Next(r, step).1.Some?
  {
    if step.SaveTunnel? { MissingTunnel(r.state, step.tunnel, step.newId, step.now); }
    else if step.SaveCommand? { MissingCommand(r.state, step.command, step.newId, step.now); }
    else { MissingHost(r.state, step.host, step.newId, step.now); }
    assert Next(r, step) == Commit(r, Proposed(r, step), step.disk);
  }

  // ---- Saving a host -----------------------------------------------------------------------------------------------

  /** The jump of the saved host leads to a host that is not being deleted, if it has one. */
  predicate JumpsClear(r: Repo, after: Hosts, at: nat) {
    at < |after| && (after[at].proxyJump.Some? ==> after[at].proxyJump.value !in r.deleting)
  }

  lemma SaveHostProposed(r: Repo, d: HostDraft, newId: string, now: nat)
    requires RepoInv(r) && UnusedId(r.state.hosts, newId)
    ensures var (p, u) := (SaveHostState(r, d, newId, now), UpdateHost(r.state.hosts, d, newId, now));
      && (p.Ok? <==> !(d.id.Some? && d.id.value in r.deleting) && u.Ok? && JumpsClear(r, u.value.hosts, u.value.at))
      && (p.Ok? ==> p.value == r.state.(hosts := u.value.hosts))
  {
    var u := UpdateHost(r.state.hosts, d, newId, now);
    UpdateHostKeeps(r.state.hosts, d, newId, now);
    if u.Ok? { SavedJumpResolves(u.value.hosts, u.value.at); }
  }

  lemma SavedJumpResolves(hosts: Hosts, at: nat)
    requires DistinctHosts(hosts) && IdsOk(hosts) && DepthOne(hosts) && at < |hosts|
    ensures var jump := ResolveJump(hosts, hosts[at]);
      && jump.Ok? && (jump.value.Some? <==> hosts[at].proxyJump.Some?)
      && (jump.value.Some? ==> hosts[at].proxyJump == Some(hosts[jump.value.value].id))
  {
    if hosts[at].proxyJump.Some? {
      var j: nat :| JumpsTo(hosts, at, j);
      IdResolves(hosts, j);
    }
  }

  /** What saving a host may change: the host itself, and the jumps of others. */
  ghost predicate OnlyHostSaved(before: Hosts, d: HostDraft, newId: string, now: nat, at: nat, after: Hosts) {
    && at < |after| && |after| == (if at < |before| then |before| else |before| + 1) && at <= |before|
    && (forall k | 0 <= k < |before| && k != at :: after[k] == before[k].(proxyJump := after[k].proxyJump))
    && exists made :: HostTakes(made, d, Replaced(before, at), newId, now)
                      && after[at] == made.(proxyJump := after[at].proxyJump)
  }

  lemma UpdateRespells(hosts: Hosts, d: HostDraft, newId: string, now: nat)
    requires DistinctHosts(hosts) && IdsOk(hosts) && AllValid(hosts) && DepthOne(hosts) && UnusedId(hosts, newId)
    requires UpdateHost(hosts, d, newId, now).Ok?
    ensures var (a, u) := (ApplyDraft(hosts, d, newId, now).value, UpdateHost(hosts, d, newId, now).value);
      u.at == a.at && JumpsRespelled(a.hosts, u.hosts)
  {
    var a := ApplyDraft(hosts, d, newId, now).value;
    ApplyDraftKeeps(hosts, d, newId, now, a);
    FollowRenameKeeps(hosts, d, a);
    NormalizeEffect(FollowRename(hosts, d, a), a.at);
    FollowRespells(hosts, d, a);
    RespelledTransitive(a.hosts, FollowRename(hosts, d, a), UpdateHost(hosts, d, newId, now).value.hosts);
  }

  lemma RespelledChanges(before: Hosts, d: HostDraft, newId: string, now: nat, at: nat, listed: Hosts, after: Hosts)
    requires at < |listed| && Has(before, at, listed[at], listed) && JumpsRespelled(listed, after)
    requires HostTakes(listed[at], d, Replaced(before, at), newId, now)
    ensures OnlyHostSaved(before, d, newId, now, at, after)
  {
    assert after[at] == listed[at].(proxyJump := after[at].proxyJump);
    forall k | 0 <= k < |before| && k != at ensures after[k] == before[k].(proxyJump := after[k].proxyJump) {
      assert listed[k] == before[k];
    }
  }

  lemma UpdateChanges(hosts: Hosts, d: HostDraft, newId: string, now: nat, at: nat)
    requires DistinctHosts(hosts) && IdsOk(hosts) && AllValid(hosts) && DepthOne(hosts) && UnusedId(hosts, newId)
    requires GoesTo(hosts, HostId, d.id, at) && UpdateHost(hosts, d, newId, now).Ok?
    ensures var u := UpdateHost(hosts, d, newId, now).value;
      u.at == at && OnlyHostSaved(hosts, d, newId, now, at, u.hosts)
  {
    DraftApplies(hosts, d, newId, now, at);
    UpdateRespells(hosts, d, newId, now);
    RespelledChanges(hosts, d, newId, now, at, ApplyDraft(hosts, d, newId, now).value.hosts,
                     UpdateHost(hosts, d, newId, now).value.hosts);
  }

  lemma FollowRespells(before: Hosts, d: HostDraft, a: Applied)
    requires a.at < |a.hosts|
    ensures JumpsRespelled(a.hosts, FollowRename(before, d, a))
  {
  }

  lemma SaveHostStep(r: Repo, d: HostDraft, newId: string, now: nat, disk: Option<Error>)
    ensures Next(r, SaveHost(d, newId, now, disk)) == Commit(r, SaveHostState(r, d, newId, now), disk)
  {
  }

  lemma HostCommitted(r: Repo, d: HostDraft, newId: string, now: nat, disk: Option<Error>)
    requires RepoInv(r) && UnusedId(r.state.hosts, newId)
    ensures var (p, (r', failed)) := (SaveHostState(r, d, newId, now),
      Commit(r, SaveHostState(r, d, newId, now), disk));
      && (failed.None? <==> p.Ok? && |p.value.hosts| <= 512 && disk.None?)
      && r' == if failed.None? then r.(state := p.value) else r
  {
    var p := SaveHostState(r, d, newId, now);
    SaveHostKeeps(r, d, newId, now);
    CommitOfSound(r, p, disk);
    SaveHostProposed(r, d, newId, now);
    if p.Ok? { CanWriteOne(r.state, p.value, disk); }
  }

  /** Saving a host goes through if and only if neither it nor the host it jumps through is being deleted,
      its draft can be put into the list, and its jump can be settled (`SaveMeansJump`); the host then has
      the fields of its draft, and of all others at most the jump has changed. */
  lemma SaveHostOutcome(r: Repo, d: HostDraft, newId: string, now: nat, disk: Option<Error>, at: nat)
    requires RepoInv(r) && UnusedId(r.state.hosts, newId) && GoesTo(r.state.hosts, HostId, d.id, at)
    ensures var (r', failed) := Next(r, SaveHost(d, newId, now, disk));
      var u := UpdateHost(r.state.hosts, d, newId, now);
      && (failed.None? <==>
            && !(d.id.Some? && d.id.value in r.deleting) && u.Ok? && JumpsClear(r, u.value.hosts, at)
            && (at == |r.state.hosts| ==> |r.state.hosts| < 512) && disk.None?)
      && (failed.Some? ==> r' == r)
      && (failed.None? ==>
            && r' == r.(state := r.state.(hosts := u.value.hosts))
            && OnlyHostSaved(r.state.hosts, d, newId, now, at, r'.state.hosts))
  {
    SaveHostStep(r, d, newId, now, disk);
    HostCommitted(r, d, newId, now, disk);
    SaveHostProposed(r, d, newId, now);
    if UpdateHost(r.state.hosts, d, newId, now).Ok? { UpdateChanges(r.state.hosts, d, newId, now, at); }
  }

  // ---- The jump of a saved host -----------------------------------------------------------------------------------

  lemma NameIgnoresJump(name: string, h: Host, jump: Option<string>)
    ensures NamesEndpoint(name, h.(proxyJump := jump)) <==> NamesEndpoint(name, h)
  {
    EndpointIsNamed(name, h);
    EndpointIsNamed(name, h.(proxyJump := jump));
    EndpointIgnoresJump(name, h, jump);
  }

  lemma StandsForRespelled(before: Hosts, after: Hosts, name: string, j: nat)
    requires JumpsRespelled(before, after) && StandsFor(before, name, j)
    ensures StandsFor(after, name, j)
  {
    forall k | 0 <= k < |before|
      ensures after[k].id == before[k].id && after[k].alias == before[k].alias
      ensures NamesEndpoint(name, after[k]) <==> NamesEndpoint(name, before[k])
    {
      assert after[k] == before[k].(proxyJump := after[k].proxyJump);
      NameIgnoresJump(name, before[k], after[k].proxyJump);
    }
    forall h | h in after ensures exists k :: 0 <= k < |before| && after[k] == h && before[k] in before {
      var k :| 0 <= k < |after| && after[k] == h;
      assert before[k] in before;
    }
  }

  lemma OwnIdLeadsNowhere(hosts: Hosts, at: nat, j: nat)
    requires DistinctHosts(hosts) && IdsOk(hosts) && at < |hosts| && hosts[at].proxyJump == Some(hosts[at].id)
    ensures !Leads(hosts, at, j)
  {
    if Leads(hosts, at, j) {
      assert hosts[at] in hosts;
      IdIsAtom(hosts[at].id);
      StandsForOne(hosts, hosts[at].id, at, j);
    }
  }

  /** The jump is another host of the list, which connects directly and is the one `name` stands for. */
  ghost predicate JumpStandsFor(hosts: Hosts, at: nat, name: string) {
    at < |hosts| && exists j: nat :: StandsFor(hosts, name, j) && j != at && hosts[j].proxyJump.None?
                                     && hosts[at].proxyJump == Some(hosts[j].id)
  }

  lemma LedStandsFor(listed: Hosts, at: nat, j: nat, after: Hosts)
    requires Leads(listed, at, j) && after == listed[at := listed[at].(proxyJump := Some(listed[j].id))]
    ensures JumpStandsFor(after, at, Trim(listed[at].proxyJump.value))
  {
    StandsForRespelled(listed, after, Trim(listed[at].proxyJump.value), j);
  }

  lemma ListedJump(hosts: Hosts, d: HostDraft, newId: string, now: nat, at: nat)
    requires DistinctHosts(hosts) && GoesTo(hosts, HostId, d.id, at) && ApplyDraft(hosts, d, newId, now).Ok?
    ensures var a := ApplyDraft(hosts, d, newId, now).value; var listed := FollowRename(hosts, d, a);
      && a.at == at && at < |listed|
      && (listed[at].proxyJump == Given(d.proxyJump)
          || (!IsBlank(d.proxyJump) && listed[at].proxyJump == Some(listed[at].id)))
  {
    DraftApplies(hosts, d, newId, now, at);
  }

  /** Once a host is saved, its jump is blank if the draft leaves it blank, and otherwise the id of the one
      host of the list that the text of the draft stands for. */
  lemma SavedJumpStandsFor(hosts: Hosts, d: HostDraft, newId: string, now: nat, at: nat)
    requires DistinctHosts(hosts) && IdsOk(hosts) && AllValid(hosts) && DepthOne(hosts) && UnusedId(hosts, newId)
    requires GoesTo(hosts, HostId, d.id, at) && UpdateHost(hosts, d, newId, now).Ok?
    ensures var u := UpdateHost(hosts, d, newId, now).value;
      && at < |u.hosts|
      && (if IsBlank(d.proxyJump) then u.hosts[at].proxyJump.None?
           else JumpStandsFor(u.hosts, at, Trim(d.proxyJump.value)))
  {
    var a := ApplyDraft(hosts, d, newId, now).value;
    var listed := FollowRename(hosts, d, a);
    SaveMeansJump(hosts, d, newId, now);
    ListedJump(hosts, d, newId, now, at);
    if !IsBlank(d.proxyJump) {
      ApplyDraftKeeps(hosts, d, newId, now, a);
      FollowRenameKeeps(hosts, d, a);
      var j: nat :| Leads(listed, at, j);
      if listed[at].proxyJump == Some(listed[at].id) { OwnIdLeadsNowhere(listed, at, j); }
      TrimTwice(d.proxyJump.value);
      LedStandsFor(listed, at, j, UpdateHost(hosts, d, newId, now).value.hosts);
    }
  }

  // ---- Removing ---------------------------------------------------------------------------------------------------

  /** `after` is what of `before` satisfies `p`, each once and in the old order. */
  ghost predicate Picks<T>(before: seq<T>, p: T -> bool, after: seq<T>, from: seq<nat>) {
    && |from| == |after| && (forall i | 0 <= i < |after| :: from[i] < |before| && after[i] == before[from[i]])
    && (forall i, j | 0 <= i < j < |from| :: from[i] < from[j])
    && forall k: nat | k < |before| :: p(before[k]) <==> k in from
  }

  lemma {:induction false} KeepPicks<T>(xs: seq<T>, p: T -> bool) returns (from: seq<nat>)
    ensures Picks(xs, p, Keep(xs, p), from)
  {
    if xs == [] {
      from := [];
    } else {
      var rest := KeepPicks(xs[1..], p);
      from := PickOneMore(xs, p, Keep(xs[1..], p), rest);
    }
  }

  function OneOn(at: seq<nat>): (r: seq<nat>)
    ensures |r| == |at| && forall i | 0 <= i < |at| :: r[i] == at[i] + 1
  {
    seq(|at|, i requires 0 <= i < |at| => at[i] + 1)
  }

  lemma OneOnHas(at: seq<nat>, k: nat)
    ensures k + 1 in OneOn(at) <==> k in at
    ensures 0 !in OneOn(at)
  {
    if k in at {
      var i :| 0 <= i < |at| && at[i] == k;
      assert OneOn(at)[i] == k + 1;
    }
    if k + 1 in OneOn(at) {
      var i :| 0 <= i < |at| && OneOn(at)[i] == k + 1;
      assert at[i] == k;
    }
  }

  lemma PickOneMore<T>(xs: seq<T>, p: T -> bool, after: seq<T>, rest: seq<nat>) returns (from: seq<nat>)
    requires xs != [] && Picks(xs[1..], p, after, rest)
    ensures Picks(xs, p, (if p(xs[0]) then [xs[0]] else []) + after, from)
  {
    var moved := OneOn(rest);
    from := if p(xs[0]) then [0] + moved else moved;
    forall k: nat | k < |xs| ensures p(xs[k]) <==> k in from {
      OneOnHas(rest, if k > 0 then k - 1 else 0);
      if k > 0 { assert xs[k] == xs[1..][k - 1] && (k in from <==> k in moved); }
    }
    if p(xs[0]) { PickedFront(xs, after, moved); }
    forall i | 0 <= i < |after| ensures moved[i] < |xs| && after[i] == xs[moved[i]] {
      assert after[i] == xs[1..][rest[i]];
    }
  }

  lemma PickedFront<T>(xs: seq<T>, after: seq<T>, moved: seq<nat>)
    requires xs != [] && |moved| == |after| && forall i | 0 <= i < |moved| :: 0 < moved[i] < |xs|
    requires forall i, j | 0 <= i < j < |moved| :: moved[i] < moved[j]
    requires forall i | 0 <= i < |after| :: after[i] == xs[moved[i]]
    ensures var (from, all) := ([0] + moved, [xs[0]] + after);
      && |from| == |all| && (forall i | 0 <= i < |all| :: from[i] < |xs| && all[i] == xs[from[i]])
      && (forall i, j | 0 <= i < j < |from| :: from[i] < from[j])
  {
  }

  ghost predicate Remains<T>(before: seq<T>, p: T -> bool, after: seq<T>) {
    exists from :: Picks(before, p, after, from)
  }

  lemma KeepRemains<T>(xs: seq<T>, p: T -> bool)
    ensures Remains(xs, p, Keep(xs, p))
  {
    var from := KeepPicks(xs, p);
  }

  /** A host can be deleted if and only if it exists and no other host mentions it as its jump. */
  ghost predicate CanDelete(hosts: Hosts, id: string) {
    exists at :: 0 <= at < |hosts| && hosts[at].id == id && Jumps.Unused(hosts, at)
  }

  lemma DeletableMeans(s: PersistedState, id: string)
    requires DistinctHosts(s.hosts)
    ensures CheckDeletable(s, id).None? <==> CanDelete(s.hosts, id)
    ensures CheckDeletable(s, id).Some? ==> CheckDeletable(s, id).value == if HasHost(s.hosts, id) then Validation
      else NotFound
  {
    var at := IndexOfId(s.hosts, id);
    if at.Some? {
      OthersMatch(s.hosts, at.value);
      assert s.hosts[at.value] in s.hosts;
      forall k | 0 <= k < |s.hosts| && s.hosts[k].id == id ensures k == at.value { }
    } else {
      forall h | h in s.hosts ensures h.id != id { }
    }
  }

  /** A deletion marks its host exactly if it can be deleted and is not marked already. */
  lemma BeginDeletionOutcome(r: Repo, id: string)
    requires RepoInv(r)
    ensures var (r', failed) := Next(r, BeginDeletion(id));
      && (failed.None? <==> id !in r.deleting && CanDelete(r.state.hosts, id))
      && r' == if failed.None? then r.(deleting := r.deleting + {id}) else r
  {
    DeletableMeans(r.state, id);
  }

  /** `s'` is `s` without the host, its tunnels and its presets, and otherwise the same. */
  ghost predicate HostRemoved(s: PersistedState, id: string, s': PersistedState) {
    && s' == s.(hosts := s'.hosts, tunnels := s'.tunnels, commands := s'.commands)
    && Remains(s.hosts, (h: Host) => h.id != id, s'.hosts)
    && Remains(s.tunnels, (t: Tunnel) => t.hostId != id, s'.tunnels)
    && Remains(s.commands, (c: Command) => c.hostId != Some(id), s'.commands)
  }

  lemma WithoutHostRemoves(s: PersistedState, id: string)
    ensures HostRemoved(s, id, WithoutHost(s, id))
  {
    KeepRemains(s.hosts, (h: Host) => h.id != id);
    KeepRemains(s.tunnels, (t: Tunnel) => t.hostId != id);
    KeepRemains(s.commands, (c: Command) => c.hostId != Some(id));
  }

  /** Deleting a marked host removes it, its tunnels and its presets, and nothing else. */
  lemma FinishDeletionRemoves(r: Repo, id: string, disk: Option<Error>)
    requires RepoInv(r)
    ensures var (r', failed) := Next(r, FinishDeletion(id, disk));
      && (failed.None? <==> id in r.deleting && CanDelete(r.state.hosts, id) && disk.None?)
      && (if failed.Some? then r'.state == r.state else HostRemoved(r.state, id, r'.state))
  {
    DeletableMeans(r.state, id);
    WithoutHostRemoves(r.state, id);
    if id in r.deleting { FinishedDeletion(r, id, disk); } else { NotMarked(r, id, disk); }
  }

  lemma NotMarked(r: Repo, id: string, disk: Option<Error>)
    requires id !in r.deleting
    ensures Next(r, FinishDeletion(id, disk)) == (r, Some(State))
  {
  }

  lemma FinishedDeletion(r: Repo, id: string, disk: Option<Error>)
    requires RepoInv(r) && id in r.deleting
    ensures var (r', failed) := Next(r, FinishDeletion(id, disk));
      && (failed.None? <==> CheckDeletable(r.state, id).None? && disk.None?)
      && r'.state == if failed.Some? then r.state else WithoutHost(r.state, id)
  {
    FinishDeletionSteps(r, id, disk);
    if CheckDeletable(r.state, id).None? { SmallerPersists(r.state, id, disk); }
  }

  function TunnelDropped(s: PersistedState, id: string): Result<PersistedState, Error> {
    if IndexOfTunnel(s.tunnels, Some(id)).None? then Err(NotFound)
    else Ok(s.(tunnels := Keep(s.tunnels, (t: Tunnel) => t.id != id)))
  }

  lemma DeleteTunnelStep(r: Repo, id: string, disk: Option<Error>)
    ensures Next(r, DeleteTunnel(id, disk)) == Commit(r, TunnelDropped(r.state, id), disk)
  {
  }

  lemma KnownTunnel(tunnels: Tunnels, id: string)
    ensures IndexOfTunnel(tunnels, Some(id)).Some? <==> exists t :: t in tunnels && t.id == id
  {
    var at := IndexOfTunnel(tunnels, Some(id));
    if at.Some? { assert tunnels[at.value] in tunnels; }
  }

  lemma DeleteTunnelOutcome(r: Repo, id: string, disk: Option<Error>)
    requires RepoInv(r)
    ensures var (r', failed) := Next(r, DeleteTunnel(id, disk));
      && (failed.None? <==> (exists t :: t in r.state.tunnels && t.id == id) && disk.None?)
      && (failed.Some? ==> r' == r)
      && (failed.None? ==>
            && r' == r.(state := r.state.(tunnels := r'.state.tunnels))
            && Remains(r.state.tunnels, (t: Tunnel) => t.id != id, r'.state.tunnels))
  {
    DeleteTunnelStep(r, id, disk);
    DroppedCommitted(r, id, disk);
    KnownTunnel(r.state.tunnels, id);
  }

  lemma DroppedCommitted(r: Repo, id: string, disk: Option<Error>)
    requires RepoInv(r)
    ensures var (r', failed) := Commit(r, TunnelDropped(r.state, id), disk);
      && (failed.None? <==> IndexOfTunnel(r.state.tunnels, Some(id)).Some? && disk.None?)
      && (failed.Some? ==> r' == r)
      && (failed.None? ==>
            && r' == r.(state := r.state.(tunnels := r'.state.tunnels))
            && Remains(r.state.tunnels, (t: Tunnel) => t.id != id, r'.state.tunnels))
  {
    DropTunnelKeeps(r.state, id);
    CommitOfSound(r, TunnelDropped(r.state, id), disk);
    KeepRemains(r.state.tunnels, (t: Tunnel) => t.id != id);
  }

  /** A preset that can be deleted for a host: it is one of that host or of all hosts. */
  ghost predicate CanDrop(r: Repo, id: string, hostId: string) {
    && hostId !in r.deleting && HasHost(r.state.hosts, hostId)
    && exists c :: c in r.state.commands && c.id == id && (c.hostId.None? || c.hostId == Some(hostId))
  }

  lemma CommandDropped(r: Repo, id: string, hostId: string)
    requires DistinctCommands(r.state.commands)
    ensures var p := DeleteCommandState(r, id, hostId);
      && (p.Ok? <==> CanDrop(r, id, hostId))
      && (p.Ok? ==> p.value == r.state.(commands := Keep(r.state.commands, (c: Command) => c.id != id)))
  {
    var commands := r.state.commands;
    var at := IndexOfCommand(commands, Some(id));
    if at.Some? {
      assert commands[at.value] in commands;
      forall c | c in commands && c.id == id ensures c == commands[at.value] {
        var k :| 0 <= k < |commands| && commands[k] == c;
        assert k == at.value;
      }
    }
  }

  lemma DeleteCommandStep(r: Repo, id: string, hostId: string, disk: Option<Error>)
    ensures Next(r, DeleteCommand(id, hostId, disk)) == Commit(r, DeleteCommandState(r, id, hostId), disk)
  {
  }

  /** A preset is deleted for a host exactly if it exists, is one of that host or of all hosts, and the
      host exists and is not being deleted. */
  lemma DeleteCommandOutcome(r: Repo, id: string, hostId: string, disk: Option<Error>)
    requires RepoInv(r)
    ensures var (r', failed) := Next(r, DeleteCommand(id, hostId, disk));
      && (failed.None? <==> CanDrop(r, id, hostId) && disk.None?)
      && (failed.Some? ==> r' == r)
      && (failed.None? ==>
            && r' == r.(state := r.state.(commands := r'.state.commands))
            && Remains(r.state.commands, (c: Command) => c.id != id, r'.state.commands))
  {
    DeleteCommandStep(r, id, hostId, disk);
    CommandDropped(r, id, hostId);
    DeleteCommandKeeps(r, id, hostId);
    CommitOfSound(r, DeleteCommandState(r, id, hostId), disk);
    KeepRemains(r.state.commands, (c: Command) => c.id != id);
  }
}
