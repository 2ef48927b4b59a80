/** The repository as the object behind its lock: every operation works on a copy of the state,
    persists it, and only then swaps it in. */
module AppRepositories {
  import opened Prelude
  import opened Profiles
  import opened ProxyJump
  import opened HostImport
  import opened HostRecords
  import opened Repository
  import RS = RepositorySteps
  import Strings

  // ---- The loops of the operations ----------------------------------------------------------------------

  /** Rewrites the jumps that name the old alias of a renamed host. */
  method RewriteDependents(hosts: Hosts, previous: string, id: string) returns (r: Hosts)
    ensures r == RenameDependents(hosts, previous, id)
  {
    r := hosts;
    var k := 0;
    while k < |r|
      invariant k <= |r| == |hosts|
      invariant forall i | 0 <= i < |r| :: r[i] == if i < k then Renamed(hosts[i], previous, id) else hosts[i]
    {
      if r[k].proxyJump.Some? && Strings.EqIgnoreCase(r[k].proxyJump.value, previous) {
        r := r[k := r[k].(proxyJump := Some(id))];
      }
      k := k + 1;
    }
  }

  /** `apply_host_update`. */
  method ApplyHostUpdate(hosts: Hosts, d: HostDraft, newId: string, now: nat) returns (r: Result<Applied, Error>)
    ensures r == UpdateHost(hosts, d, newId, now)
  {
    var previous := if d.id.Some? then IndexOfId(hosts, d.id.value) else None;
    var applied := ApplyDraft(hosts, d, newId, now);
    if applied.Err? {
      return applied;
    }
    var a := applied.value;
    var changed := a.hosts;
    if previous.Some? && !Strings.EqIgnoreCase(hosts[previous.value].alias, changed[a.at].alias) {
      changed := RewriteDependents(changed, hosts[previous.value].alias, changed[a.at].id);
    }
    assert changed == FollowRename(hosts, d, a);
    var id := changed[a.at].id;
    var normalized := NormalizeJumpFor(changed, id);
    if normalized.Err? {
      return Err(normalized.error);
    }
    var role := CheckRole(normalized.value, id);
    if role.Some? {
      return Err(role.value);
    }
    return Ok(Applied(normalized.value, a.at));
  }

  /** The loop of every import phase: one element after the other, until one fails. */
  method ForEach<S, X, E>(start: S, xs: seq<X>, step: (S, X) -> Result<S, E>) returns (r: Result<S, E>)
    ensures r == Run(start, xs, step, |xs|)
  {
    var reached := start;
    var k := 0;
    while k < |xs|
      invariant k <= |xs| && Run(start, xs, step, k) == Ok(reached)
    {
      var next := step(reached, xs[k]);
      if next.Err? {
        RunFails(start, xs, step, k + 1, |xs|);
        return next;
      }
      reached := next.value;
      k := k + 1;
    }
    return Ok(reached);
  }

  lemma {:induction false} RoleFails(hosts: Hosts, ids: seq<string>, k: nat, n: nat)
    requires k <= n <= |ids| && CheckRoles(hosts, ids, k).Some?
    ensures CheckRoles(hosts, ids, n) == CheckRoles(hosts, ids, k)
    decreases n
  {
    if k < n { RoleFails(hosts, ids, k, n - 1); }
  }

  lemma RoleNext(hosts: Hosts, ids: seq<string>, k: nat)
    requires k < |ids| && CheckRoles(hosts, ids, k).None?
    ensures CheckRoles(hosts, ids, k + 1) == CheckRole(hosts, ids[k])
  {
  }

  method ValidateRoles(hosts: Hosts, ids: seq<string>) returns (r: Option<Error>)
    ensures r == CheckRoles(hosts, ids, |ids|)
  {
    var k := 0;
    while k < |ids|
      invariant k <= |ids| && CheckRoles(hosts, ids, k).None?
    {
      var role := CheckRole(hosts, ids[k]);
      RoleNext(hosts, ids, k);
      if role.Some? {
        RoleFails(hosts, ids, k + 1, |ids|);
        return role;
      }
      k := k + 1;
    }
    return None;
  }

  method SettleHosts(applied: Hosts, order: seq<string>) returns (r: Result<Hosts, Error>)
    ensures r == SettleImported(applied, order)
  {
    r := ForEach(applied, order, (h, id) => NormalizeJumpFor(h, id));
    if r.Err? {
      return;
    }
    var role := ValidateRoles(r.value, order);
    if role.Some? {
      return Err(role.value);
    }
  }

  /** The phases of a batch import that is not a duplicate. */
  method BuildBatch(s: PersistedState, b: Batch, order: seq<string>, now: nat)
      returns (r: Result<PersistedState, Error>)
    ensures r == ImportNewBatch(s, b, order, now)
  {
    if EmptyBatch(b) {
      return Err(Validation);
    }
    var admitted := ForEach(Admitted(s.hosts, map[]), b.hosts, (a, x) => AdmitHost(a, x, now));
    if admitted.Err? {
      return Err(admitted.error);
    }
    var hosts := SettleHosts(admitted.value.hosts, order);
    if hosts.Err? {
      return Err(hosts.error);
    }
    r := BuildRecords(s, b, Admitted(hosts.value, admitted.value.ids), now);
  }

  method BuildRecords(s: PersistedState, b: Batch, a: Admitted, now: nat) returns (r: Result<PersistedState, Error>)
    ensures r == ImportBatchRecords(s, b, a, now)
  {
    var existing := HostIds(s.hosts);
    var ts := ForEach(s.tunnels, b.tunnels, (t, x) => ImportTunnel(t, x, a.hosts, a.ids, existing, now));
    if ts.Err? {
      return Err(ts.error);
    }
    var cs := ForEach(s.commands, b.commands, (c, x) => ImportCommand(c, x, a.hosts, a.ids, existing, now));
    if cs.Err? {
      return Err(cs.error);
    }
    var settings := s.settings;
    if b.settings.Some? {
      if b.settings.value.Err? {
        return Err(b.settings.value.error);
      }
      settings := b.settings.value.value;
    }
    return Ok(PersistedState(s.schemaVersion, settings, a.hosts, ts.value, cs.value,
      s.hashes + [Strings.Lower(b.sourceHash)]));
  }

  // ---- The object ------------------------------------------------------------------------------------------

  /** `disk` is the outcome of the file write, should an operation get that far. */
  class AppRepository {
    var state: PersistedState
    var deletingHosts: set<string>

    constructor (loaded: PersistedState)
      ensures Value() == RS.Repo(loaded, {})
    {
      state, deletingHosts := loaded, {};
    }

    function Value(): RS.Repo
      reads this
    {
      RS.Repo(state, deletingHosts)
    }

    /** Validates and writes the changed copy, and swaps it in only when that succeeded. */
    method Persist(changed: Result<PersistedState, Error>, disk: Option<Error>) returns (failed: Option<Error>)
      modifies this`state
      ensures (Value(), failed) == RS.Commit(old(Value()), changed, disk)
    {
      if changed.Err? {
        return Some(changed.error);
      }
      if !Validates(changed.value) {
        return Some(State);
      }
      if disk.Some? {
        return disk;
      }
      state := changed.value;
      return None;
    }

    method SaveHost(d: HostDraft, newId: string, now: nat, disk: Option<Error>) returns (failed: Option<Error>)
      modifies this`state
      ensures (Value(), failed) == RS.Next(old(Value()), RS.SaveHost(d, newId, now, disk))
    {
      if d.id.Some? && d.id.value in deletingHosts {
        return Some(State);
      }
      var applied := ApplyHostUpdate(state.hosts, d, newId, now);
      if applied.Err? {
        return Some(applied.error);
      }
      var a := applied.value;
      var jump := ResolveJump(a.hosts, a.hosts[a.at]);
      if jump.Err? {
        return Some(jump.error);
      }
      if jump.value.Some? && a.hosts[jump.value.value].id in deletingHosts {
        return Some(State);
      }
      failed := Persist(Ok(state.(hosts := a.hosts)), disk);
    }

    method ImportHosts(plan: seq<Planned<HostDraft>>, now: nat, disk: Option<Error>) returns (failed: Option<Error>)
      modifies this`state
      ensures (Value(), failed) == RS.Next(old(Value()), RS.ImportHostList(plan, now, disk))
    {
      if plan == [] {
        return None;
      }
      if deletingHosts != {} {
        return Some(State);
      }
      var applied := ForEach(state.hosts, plan, (h, p) => AppendPlanned(h, p, now));
      if applied.Err? {
        return Some(applied.error);
      }
      var settled := SettleHosts(applied.value, RS.PlannedIds(plan));
      if settled.Err? {
        return Some(settled.error);
      }
      failed := Persist(Ok(state.(hosts := settled.value)), disk);
    }

    method BeginHostDeletion(id: string) returns (failed: Option<Error>)
      modifies this`deletingHosts
      ensures (Value(), failed) == RS.Next(old(Value()), RS.BeginDeletion(id))
    {
      if id in deletingHosts {
        return Some(State);
      }
      failed := CheckDeletable(state, id);
      if failed.None? {
        deletingHosts := deletingHosts + {id};
      }
    }

    method FinishHostDeletion(id: string, disk: Option<Error>) returns (failed: Option<Error>)
      modifies this
      ensures (Value(), failed) == RS.Next(old(Value()), RS.FinishDeletion(id, disk))
    {
      if id !in deletingHosts {
        return Some(State);
      }
      var refused := CheckDeletable(state, id);
      failed := Persist(if refused.Some? then Err(refused.value) else Ok(WithoutHost(state, id)), disk);
      deletingHosts := deletingHosts - {id};
    }

    method AbortHostDeletion(id: string)
      modifies this`deletingHosts
      ensures Value() == RS.Next(old(Value()), RS.AbortDeletion(id)).0
    {
      deletingHosts := deletingHosts - {id};
    }

    method SaveTunnel(d: TunnelDraft, newId: string, now: nat, disk: Option<Error>) returns (failed: Option<Error>)
      modifies this`state
      ensures (Value(), failed) == RS.Next(old(Value()), RS.SaveTunnel(d, newId, now, disk))
    {
      if d.hostId in deletingHosts {
        return Some(State);
      }
      var tunnels := ApplyTunnel(state.tunnels, state.hosts, d, newId, now);
      failed := Persist(if tunnels.Err? then Err(tunnels.error) else Ok(state.(tunnels := tunnels.value)), disk);
    }

    method DeleteTunnel(id: string, disk: Option<Error>) returns (failed: Option<Error>)
      modifies this`state
      ensures (Value(), failed) == RS.Next(old(Value()), RS.DeleteTunnel(id, disk))
    {
      if IndexOfTunnel(state.tunnels, Some(id)).None? {
        return Some(NotFound);
      }
      failed := Persist(Ok(state.(tunnels := Keep(state.tunnels, (t: Tunnel) => t.id != id))), disk);
    }

    method SaveCommand(d: CommandDraft, newId: string, now: nat, disk: Option<Error>) returns (failed: Option<Error>)
      modifies this`state
      ensures (Value(), failed) == RS.Next(old(Value()), RS.SaveCommand(d, newId, now, disk))
    {
      if d.hostId.Some? && d.hostId.value in deletingHosts {
        return Some(State);
      }
      var commands := ApplyCommand(state.commands, state.hosts, d, newId, now);
      failed := Persist(if commands.Err? then Err(commands.error) else Ok(state.(commands := commands.value)), disk);
    }

    method DeleteCommandForHost(id: string, hostId: string, disk: Option<Error>) returns (failed: Option<Error>)
      modifies this`state
      ensures (Value(), failed) == RS.Next(old(Value()), RS.DeleteCommand(id, hostId, disk))
    {
      if hostId in deletingHosts {
        return Some(State);
      }
      if !HasHost(state.hosts, hostId) {
        return Some(NotFound);
      }
      var at := IndexOfCommand(state.commands, Some(id));
      if at.None? {
        return Some(NotFound);
      }
      var owner := state.commands[at.value].hostId;
      if owner.Some? && owner.value != hostId {
        return Some(State);
      }
      failed := Persist(Ok(state.(commands := Keep(state.commands, (c: Command) => c.id != id))), disk);
    }

    method ImportBatch(b: Batch, order: seq<string>, now: nat, disk: Option<Error>) returns (failed: Option<Error>)
      modifies this`state
      ensures (Value(), failed) == RS.Next(old(Value()), RS.ImportBatch(b, order, now, disk))
    {
      if !ValidHash(b.sourceHash) {
        return Some(Validation);
      }
      if deletingHosts != {} {
        return Some(State);
      }
      if HasImport(state, b.sourceHash) {
        return None;
      }
      var built := BuildBatch(state, b, order, now);
      failed := Persist(built, disk);
    }

    method UpdateSettings(patch: SettingsPatch, disk: Option<Error>) returns (failed: Option<Error>)
      modifies this`state
      ensures (Value(), failed) == RS.Next(old(Value()), RS.UpdateSettings(patch, disk))
    {
      failed := Persist(if patch.Err? then Err(patch.error) else Ok(state.(settings := patch.value)), disk);
    }
  }
}
