/** Every operation of the repository as one atomic step, and what all runs of them keep. */
module RepositorySteps {
  import opened Prelude
  import opened Strings
  import opened Profiles
  import opened ProxyJump
  import opened HostImport
  import opened HostRecords
  import opened Repository

  /** Memory of the repository: the state and the hosts marked as being deleted. */
  datatype Repo = Repo(state: PersistedState, deleting: set<string>)

  /** `disk` is the outcome of the file write, should the step get that far. */
  datatype Step =
    | SaveHost(host: HostDraft, newId: string, now: nat, disk: Option<Error>)
    | ImportHostList(plan: seq<Planned<HostDraft>>, now: nat, disk: Option<Error>)
    | BeginDeletion(id: string)
    | FinishDeletion(id: string, disk: Option<Error>)
    | AbortDeletion(id: string)
    | SaveTunnel(tunnel: TunnelDraft, newId: string, now: nat, disk: Option<Error>)
    | DeleteTunnel(id: string, disk: Option<Error>)
    | SaveCommand(command: CommandDraft, newId: string, now: nat, disk: Option<Error>)
    | DeleteCommand(id: string, hostId: string, disk: Option<Error>)
    | ImportBatch(batch: Batch, order: seq<string>, now: nat, disk: Option<Error>)
    | UpdateSettings(patch: SettingsPatch, disk: Option<Error>)

  function PlannedIds(plan: seq<Planned<HostDraft>>): (r: seq<string>)
    ensures |r| == |plan| && forall k | 0 <= k < |plan| :: r[k] == plan[k].newId
  {
    seq(|plan|, k requires 0 <= k < |plan| => plan[k].newId)
  }

  function SaveHostState(r: Repo, d: HostDraft, newId: string, now: nat): (s: Result<PersistedState, Error>) {
    if d.id.Some? && d.id.value in r.deleting then Err(State) else
      var a := UpdateHost(r.state.hosts, d, newId, now);
      if a.Err? then Err(a.error) else
        var jump := ResolveJump(a.value.hosts, a.value.hosts[a.value.at]);
        if jump.Err? then Err(jump.error)
        else if jump.value.Some? && a.value.hosts[jump.value.value].id in r.deleting then Err(State)
        else Ok(r.state.(hosts := a.value.hosts))
  }

  function DeleteHostState(s: PersistedState, id: string): (r: Result<PersistedState, Error>) {
    var refused := CheckDeletable(s, id);
    if refused.Some? then Err(refused.value) else Ok(WithoutHost(s, id))
  }

  function DeleteCommandState(r: Repo, id: string, hostId: string): (s: Result<PersistedState, Error>) {
    if hostId in r.deleting then Err(State)
    else if !HasHost(r.state.hosts, hostId) then Err(NotFound)
    else
      var at := IndexOfCommand(r.state.commands, Some(id));
      if at.None? then Err(NotFound)
      else
        var owner := r.state.commands[at.value].hostId;
        if owner.Some? && owner.value != hostId then Err(State)
        else Ok(r.state.(commands := Keep(r.state.commands, (c: Command) => c.id != id)))
  }

  function WithTunnels(s: PersistedState, ts: Result<Tunnels, Error>): (r: Result<PersistedState, Error>) {
    if ts.Err? then Err(ts.error) else Ok(s.(tunnels := ts.value))
  }

  function WithCommands(s: PersistedState, cs: Result<Commands, Error>): (r: Result<PersistedState, Error>) {
    if cs.Err? then Err(cs.error) else Ok(s.(commands := cs.value))
  }

  function WithHosts(s: PersistedState, hs: Result<Hosts, Error>): (r: Result<PersistedState, Error>) {
    if hs.Err? then Err(hs.error) else Ok(s.(hosts := hs.value))
  }

  /** The state a step wants to write, or why it refuses before writing. */
  function Proposed(r: Repo, step: Step): (s: Result<PersistedState, Error>) {
    match step
    case SaveHost(d, newId, now, _) => SaveHostState(r, d, newId, now)
    case ImportHostList(plan, now, _) =>
      if r.deleting != {} then Err(State)
      else WithHosts(r.state, ImportHosts(r.state.hosts, plan, PlannedIds(plan), now))
    case FinishDeletion(id, _) => DeleteHostState(r.state, id)
    case SaveTunnel(d, newId, now, _) =>
      if d.hostId in r.deleting then Err(State)
      else WithTunnels(r.state, ApplyTunnel(r.state.tunnels, r.state.hosts, d, newId, now))
    case DeleteTunnel(id, _) =>
      if IndexOfTunnel(r.state.tunnels, Some(id)).None? then Err(NotFound)
      else Ok(r.state.(tunnels := Keep(r.state.tunnels, (t: Tunnel) => t.id != id)))
    case SaveCommand(d, newId, now, _) =>
      if d.hostId.Some? && d.hostId.value in r.deleting then Err(State)
      else WithCommands(r.state, ApplyCommand(r.state.commands, r.state.hosts, d, newId, now))
    case DeleteCommand(id, hostId, _) => DeleteCommandState(r, id, hostId)
    case ImportBatch(b, order, now, _) =>
      if !ValidHash(b.sourceHash) then Err(Validation)
      else if r.deleting != {} then Err(State)
      else ImportNewBatch(r.state, b, order, now)
    case UpdateSettings(patch, _) =>
      if patch.Err? then Err(patch.error) else Ok(r.state.(settings := patch.value))
    case BeginDeletion(_) => Ok(r.state)
    case AbortDeletion(_) => Ok(r.state)
  }

  /** `persist_locked`: the validator first, then the file write. */
  function Persist(s: PersistedState, disk: Option<Error>): (r: Option<Error>) {
    if !Validates(s) then Some(State) else disk
  }

  /** Clone, change, persist, and only then swap the new state in. */
  function Commit(r: Repo, s: Result<PersistedState, Error>, disk: Option<Error>): (out: (Repo, Option<Error>)) {
    if s.Err? then (r, Some(s.error)) else
      var failed := Persist(s.value, disk);
      if failed.Some? then (r, failed) else (r.(state := s.value), None)
  }

  /** `begin_host_deletion`. */
  function MarkHost(r: Repo, id: string): (out: (Repo, Option<Error>)) {
    if id in r.deleting then (r, Some(State)) else
      var refused := CheckDeletable(r.state, id);
      if refused.Some? then (r, refused) else (r.(deleting := r.deleting + {id}), None)
  }

  /** `abort_host_deletion`. */
  function UnmarkHost(r: Repo, id: string): (out: Repo) { r.(deleting := r.deleting - {id}) }

  /** `finish_host_deletion`: the mark goes whatever the outcome. */
  function EraseHost(r: Repo, id: string, disk: Option<Error>): (out: (Repo, Option<Error>)) {
    if id !in r.deleting then (r, Some(State)) else
      var out := Commit(r, DeleteHostState(r.state, id), disk);
      (UnmarkHost(out.0, id), out.1)
  }

  function Next(r: Repo, step: Step): (out: (Repo, Option<Error>)) {
    match step
    case BeginDeletion(id) => MarkHost(r, id)
    case AbortDeletion(id) => (UnmarkHost(r, id), None)
    case FinishDeletion(id, disk) => EraseHost(r, id, disk)
    case ImportHostList(plan, _, disk) => if plan == [] then (r, None) else Commit(r, Proposed(r, step), disk)
    case ImportBatch(b, _, _, disk) =>
      if ValidHash(b.sourceHash) && r.deleting == {} && HasImport(r.state, b.sourceHash) then (r, None)
      else Commit(r, Proposed(r, step), disk)
    case _ => Commit(r, Proposed(r, step), step.disk)
  }

  /** Ids drawn by a step are new: the only assumption about generated identifiers. */
  ghost predicate StepIdsNew(s: PersistedState, step: Step) {
    match step
    case SaveHost(_, newId, _, _) => UnusedId(s.hosts, newId)
    case ImportHostList(plan, _, _) => NewIds(s.hosts, plan)
    case SaveTunnel(_, newId, _, _) => forall t | t in s.tunnels :: t.id != newId
    case SaveCommand(_, newId, _, _) => forall c | c in s.commands :: c.id != newId
    case ImportBatch(b, order, _, _) => BatchIdsNew(s, b, order)
    case _ => true
  }

  // ---- What every step keeps -----------------------------------------------------------------

  lemma {:induction false} KeepDistinct<T>(xs: seq<T>, p: T -> bool, id: T -> string, clash: (T, T) -> bool)
    requires DistinctRecords(xs, id, clash)
    ensures DistinctRecords(Keep(xs, p), id, clash)
  {
    if xs != [] {
      KeepDistinct(xs[1..], p, id, clash);
      var rest := Keep(xs[1..], p);
      forall j | 0 <= j < |rest| ensures id(xs[0]) != id(rest[j]) && !clash(xs[0], rest[j]) {
        assert rest[j] in rest;
        var k :| 0 <= k < |xs[1..]| && xs[1..][k] == rest[j];
        assert xs[k + 1] == rest[j];
      }
    }
  }

  lemma DeleteHostKeeps(s: PersistedState, id: string)
    requires Sound(s) && CheckDeletable(s, id).None?
    ensures Sound(WithoutHost(s, id))
  {
    var s' := WithoutHost(s, id);
    KeepDistinct(s.hosts, (h: Host) => h.id != id, (h: Host) => h.id,
                 (a: Host, b: Host) => EqIgnoreCase(a.alias, b.alias));
    KeepDistinct(s.tunnels, (t: Tunnel) => t.hostId != id, (t: Tunnel) => t.id, (a, b) => SameTunnelName(a, b));
    KeepDistinct(s.commands, (c: Command) => c.hostId != Some(id), (c: Command) => c.id,
                 (a, b) => SameCommandName(a, b));
    KeepHostsDeep(s, id);
    forall t | t in s'.tunnels ensures HasHost(s'.hosts, t.hostId) {
      var h :| h in s.hosts && h.id == t.hostId;
      assert h in s'.hosts;
    }
    forall c | c in s'.commands && c.hostId.Some? ensures HasHost(s'.hosts, c.hostId.value) {
      var h :| h in s.hosts && h.id == c.hostId.value;
      assert h in s'.hosts;
    }
  }

  lemma NobodyJumpsTo(s: PersistedState, id: string)
    requires DistinctHosts(s.hosts) && IdsOk(s.hosts) && CheckDeletable(s, id).None?
    ensures forall h | h in s.hosts && h.id != id :: h.proxyJump != Some(id)
  {
    var at := IndexOfId(s.hosts, id).value;
    assert s.hosts[at] in s.hosts;
    IdIsAtom(id);
    forall h | h in s.hosts && h.id != id ensures h.proxyJump != Some(id) {
      assert !ReferenceMatches(h.proxyJump, s.hosts[at]);
    }
  }

  /** Removing a host nobody jumps through leaves every other jump in place. */
  lemma KeepHostsDeep(s: PersistedState, id: string)
    requires DistinctHosts(s.hosts) && IdsOk(s.hosts) && DepthOne(s.hosts) && CheckDeletable(s, id).None?
    ensures DepthOne(Keep(s.hosts, (h: Host) => h.id != id))
  {
    var hosts := Keep(s.hosts, (h: Host) => h.id != id);
    NobodyJumpsTo(s, id);
    forall i | 0 <= i < |hosts| && hosts[i].proxyJump.Some? ensures exists j: nat :: JumpsTo(hosts, i, j) {
      assert hosts[i] in hosts;
      var k :| 0 <= k < |s.hosts| && s.hosts[k] == hosts[i];
      var l: nat :| JumpsTo(s.hosts, k, l);
      assert s.hosts[l] in s.hosts && s.hosts[l] in hosts;
      var j: nat :| j < |hosts| && hosts[j] == s.hosts[l];
      assert JumpsTo(hosts, i, j);
    }
  }

  lemma VisitsPlanned(plan: seq<Planned<HostDraft>>)
    ensures Visits(PlannedIds(plan), plan)
  {
    forall k | 0 <= k < |plan| ensures plan[k].newId in PlannedIds(plan) {
      assert PlannedIds(plan)[k] == plan[k].newId;
    }
  }

  lemma UpdateKeepsSound(s: PersistedState, after: Hosts, at: nat)
    requires Sound(s) && UpdatePost(s.hosts, after, at)
    ensures Sound(s.(hosts := after))
  {
    forall id | HasHost(s.hosts, id) ensures HasHost(after, id) {
      var h :| h in s.hosts && h.id == id;
      var k :| 0 <= k < |s.hosts| && s.hosts[k] == h;
      assert after[k] in after;
    }
    RecordsFollowHosts(s.tunnels, s.commands, s.hosts, after);
  }

  lemma SaveHostKeeps(r: Repo, d: HostDraft, newId: string, now: nat)
    requires Sound(r.state) && UnusedId(r.state.hosts, newId)
    ensures var p := SaveHostState(r, d, newId, now); p.Ok? ==> Sound(p.value)
  {
    UpdateHostKeeps(r.state.hosts, d, newId, now);
    var a := UpdateHost(r.state.hosts, d, newId, now);
    if a.Ok? { UpdateKeepsSound(r.state, a.value.hosts, a.value.at); }
  }

  lemma ImportKeepsSound(s: PersistedState, after: Hosts, plan: seq<Planned<HostDraft>>)
    requires Sound(s) && Extended(s.hosts, after, plan, |plan|) && DepthOne(after)
    ensures Sound(s.(hosts := after))
  {
    HostsGrow(s.hosts, after, plan);
    RecordsFollowHosts(s.tunnels, s.commands, s.hosts, after);
  }

  lemma ImportListKeeps(s: PersistedState, plan: seq<Planned<HostDraft>>, now: nat)
    requires Sound(s) && NewIds(s.hosts, plan)
    ensures var p := WithHosts(s, ImportHosts(s.hosts, plan, PlannedIds(plan), now)); p.Ok? ==> Sound(p.value)
  {
    VisitsPlanned(plan);
    ImportHostsKeeps(s.hosts, plan, PlannedIds(plan), now);
    var hs := ImportHosts(s.hosts, plan, PlannedIds(plan), now);
    if hs.Ok? { ImportKeepsSound(s, hs.value, plan); }
  }

  lemma SaveTunnelKeeps(s: PersistedState, d: TunnelDraft, newId: string, now: nat)
    requires Sound(s) && forall t | t in s.tunnels :: t.id != newId
    ensures var p := WithTunnels(s, ApplyTunnel(s.tunnels, s.hosts, d, newId, now)); p.Ok? ==> Sound(p.value)
  {
    ApplyTunnelKeeps(s.tunnels, s.hosts, d, newId, now);
  }

  lemma SaveCommandKeeps(s: PersistedState, d: CommandDraft, newId: string, now: nat)
    requires Sound(s) && forall c | c in s.commands :: c.id != newId
    ensures var p := WithCommands(s, ApplyCommand(s.commands, s.hosts, d, newId, now)); p.Ok? ==> Sound(p.value)
  {
    ApplyCommandKeeps(s.commands, s.hosts, d, newId, now);
  }

  lemma DropTunnelKeeps(s: PersistedState, id: string)
    requires Sound(s)
    ensures Sound(s.(tunnels := Keep(s.tunnels, (t: Tunnel) => t.id != id)))
  {
    KeepDistinct(s.tunnels, (t: Tunnel) => t.id != id, (t: Tunnel) => t.id, (a, b) => SameTunnelName(a, b));
  }

  lemma DeleteCommandKeeps(r: Repo, id: string, hostId: string)
    requires Sound(r.state)
    ensures var p := DeleteCommandState(r, id, hostId); p.Ok? ==> Sound(p.value)
  {
    KeepDistinct(r.state.commands, (c: Command) => c.id != id, (c: Command) => c.id, (a, b) => SameCommandName(a, b));
  }

  lemma DeleteHostStateKeeps(s: PersistedState, id: string)
    requires Sound(s)
    ensures var p := DeleteHostState(s, id); p.Ok? ==> Sound(p.value)
  {
    if CheckDeletable(s, id).None? { DeleteHostKeeps(s, id); }
  }

  /** Whatever a step wants to write is sound: all clauses of the validator but the count
      caps hold, and the jumps stay at depth one. */
  lemma ProposedSound(r: Repo, step: Step)
    requires Sound(r.state) && StepIdsNew(r.state, step)
    ensures Proposed(r, step).Ok? ==> Sound(Proposed(r, step).value)
  {
    var s := r.state;
    match step
    case SaveHost(d, newId, now, _) => SaveHostKeeps(r, d, newId, now);
    case ImportHostList(plan, now, _) => ImportListKeeps(s, plan, now);
    case FinishDeletion(id, _) => DeleteHostStateKeeps(s, id);
    case SaveTunnel(d, newId, now, _) => SaveTunnelKeeps(s, d, newId, now);
    case DeleteTunnel(id, _) => DropTunnelKeeps(s, id);
    case SaveCommand(d, newId, now, _) => SaveCommandKeeps(s, d, newId, now);
    case DeleteCommand(id, hostId, _) => DeleteCommandKeeps(r, id, hostId);
    case ImportBatch(b, order, now, _) => if ValidHash(b.sourceHash) { ImportNewBatchKeeps(s, b, order, now); }
    case UpdateSettings(_, _) =>
    case BeginDeletion(_) =>
    case AbortDeletion(_) =>
  }

  /** The write-time validator can fail only on the number of records. */
  lemma WriteFailsOnlyOnSize(r: Repo, step: Step, disk: Option<Error>)
    requires Sound(r.state) && StepIdsNew(r.state, step) && Proposed(r, step).Ok?
    ensures Persist(Proposed(r, step).value, disk) ==
      if WithinCounts(Proposed(r, step).value) then disk else Some(State)
  {
    ProposedSound(r, step);
  }
}
