/** Tunnels and command presets: the records that belong to hosts. */
module HostRecords {
  import opened Prelude
  import opened Strings
  import opened Profiles
  import opened ProxyJump
  import opened HostImport

  type Tunnels = seq<Tunnel>
  type Commands = seq<Command>

  predicate HasHost(hosts: Hosts, id: string) { exists h | h in hosts :: h.id == id }

  // ---- What a stored list satisfies ----------------------------------------------------------

  /** No two records share an id or a scoped name. */
  predicate DistinctRecords<T>(xs: seq<T>, id: T -> string, clash: (T, T) -> bool) {
    forall i, j | 0 <= i < j < |xs| :: id(xs[i]) != id(xs[j]) && !clash(xs[i], xs[j])
  }

  predicate SameTunnelName(a: Tunnel, b: Tunnel) { a.hostId == b.hostId && EqIgnoreCase(a.name, b.name) }

  predicate DistinctTunnels(tunnels: Tunnels) {
    DistinctRecords(tunnels, (t: Tunnel) => t.id, (a, b) => SameTunnelName(a, b))
  }

  predicate AllTunnelsValid(tunnels: Tunnels) { forall t | t in tunnels :: ValidTunnel(t) }

  predicate NoDanglingTunnel(tunnels: Tunnels, hosts: Hosts) { forall t | t in tunnels :: HasHost(hosts, t.hostId) }

  predicate TunnelsGood(tunnels: Tunnels, hosts: Hosts) {
    DistinctTunnels(tunnels) && AllTunnelsValid(tunnels) && NoDanglingTunnel(tunnels, hosts)
  }

  predicate SameCommandName(a: Command, b: Command) { a.hostId == b.hostId && EqIgnoreCase(a.name, b.name) }

  predicate DistinctCommands(commands: Commands) {
    DistinctRecords(commands, (c: Command) => c.id, (a, b) => SameCommandName(a, b))
  }

  predicate AllCommandsValid(commands: Commands) { forall c | c in commands :: ValidCommand(c) }

  predicate NoDanglingCommand(commands: Commands, hosts: Hosts) {
    forall c | c in commands && c.hostId.Some? :: HasHost(hosts, c.hostId.value)
  }

  predicate CommandsGood(commands: Commands, hosts: Hosts) {
    DistinctCommands(commands) && AllCommandsValid(commands) && NoDanglingCommand(commands, hosts)
  }

  // ---- Create and edit -----------------------------------------------------------------------

  function IndexOfTunnel(tunnels: Tunnels, id: Option<string>): (r: Option<nat>)
    ensures r.Some? ==> r.value < |tunnels| && id == Some(tunnels[r.value].id)
    ensures r.None? && id.Some? ==> forall t | t in tunnels :: t.id != id.value
  {
    FindFirst(tunnels, (t: Tunnel) => id == Some(t.id))
  }

  /** `apply_tunnel_draft`. */
  function ApplyTunnel(tunnels: Tunnels, hosts: Hosts, d: TunnelDraft, newId: string,
      now: nat): (r: Result<Tunnels, Error>)
  {
    if !ValidTunnelDraft(d) then Err(Validation)
    else if !HasHost(hosts, d.hostId) then Err(NotFound)
    else if exists t | t in tunnels :: t.hostId == d.hostId && EqIgnoreCase(t.name, Trim(d.name)) && d.id != Some(t.id)
    then Err(Validation)
    else
      var at := IndexOfTunnel(tunnels, d.id);
      if d.id.Some? && at.None? then Err(NotFound) else
        var existing := if at.Some? then Some(tunnels[at.value]) else None;
        Ok(Put(tunnels, if at.Some? then at.value else |tunnels|, TunnelFromDraft(d, existing, newId, now)))
  }

  function IndexOfCommand(commands: Commands, id: Option<string>): (r: Option<nat>)
    ensures r.Some? ==> r.value < |commands| && id == Some(commands[r.value].id)
    ensures r.None? && id.Some? ==> forall c | c in commands :: c.id != id.value
  {
    FindFirst(commands, (c: Command) => id == Some(c.id))
  }

  /** `apply_command_draft`. */
  function ApplyCommand(commands: Commands, hosts: Hosts, d: CommandDraft, newId: string,
      now: nat): (r: Result<Commands, Error>)
  {
    if !ValidCommandDraft(d) then Err(Validation)
    else if d.hostId.Some? && !HasHost(hosts, d.hostId.value) then Err(NotFound)
    else if exists c | c in commands :: c.hostId == d.hostId && EqIgnoreCase(c.name, Trim(d.name)) && d.id != Some(c.id)
    then Err(Validation)
    else
      var at := IndexOfCommand(commands, d.id);
      if d.id.Some? && at.None? then Err(NotFound) else
        var existing := if at.Some? then Some(commands[at.value]) else None;
        Ok(Put(commands, if at.Some? then at.value else |commands|, CommandFromDraft(d, existing, newId, now)))
  }

  // ---- Facts ---------------------------------------------------------------------------------

  /** `after` is `before` with one record put at `at`, its name free, its id kept or new. */
  ghost predicate PutsRecord<T>(before: seq<T>, after: seq<T>, at: nat, id: T -> string, clash: (T, T) -> bool,
      newId: string) {
    && at <= |before| && at < |after| && after == Put(before, at, after[at])
    && id(after[at]) == (if at < |before| then id(before[at]) else newId)
    && forall k | 0 <= k < |before| && k != at :: !clash(before[k], after[at])
  }

  lemma PutsKeepsDistinct<T>(before: seq<T>, after: seq<T>, at: nat, id: T -> string, clash: (T, T) -> bool,
      newId: string)
    requires DistinctRecords(before, id, clash) && PutsRecord(before, after, at, id, clash, newId)
    requires forall x | x in before :: id(x) != newId
    requires forall x, y | x in before :: clash(x, y) == clash(y, x)
    ensures DistinctRecords(after, id, clash)
  {
    forall i, j | 0 <= i < j < |after| ensures id(after[i]) != id(after[j]) && !clash(after[i], after[j]) {
      if i < |before| { assert before[i] in before; }
      if j < |before| { assert before[j] in before; }
    }
  }

  lemma PutsMembers<T>(before: seq<T>, after: seq<T>, at: nat, id: T -> string, clash: (T, T) -> bool, newId: string)
    requires PutsRecord(before, after, at, id, clash, newId)
    ensures forall x | x in after :: x in before || x == after[at]
    ensures forall x | x in after :: id(x) == newId || exists y :: y in before && id(y) == id(x)
    ensures at == |before| ==> after[..|before|] == before && |after| == |before| + 1
    ensures |before| <= |after| <= |before| + 1
  {
    if at < |before| { assert before[at] in before; }
  }

  /** Where a successful `ApplyTunnel` put its one record, and what that record looks like. */
  lemma ApplyTunnelShape(tunnels: Tunnels, hosts: Hosts, d: TunnelDraft, newId: string, now: nat, after: Tunnels)
      returns (at: nat)
    requires DistinctTunnels(tunnels) && ApplyTunnel(tunnels, hosts, d, newId, now) == Ok(after)
    ensures PutsRecord(tunnels, after, at, (x: Tunnel) => x.id, (a, b) => SameTunnelName(a, b), newId)
    ensures ValidTunnel(after[at]) && after[at].hostId == d.hostId && (d.id.None? ==> at == |tunnels|)
    ensures HasHost(hosts, d.hostId)
  {
    var found := IndexOfTunnel(tunnels, d.id);
    at := if found.Some? then found.value else |tunnels|;
    TunnelFromDraftValid(d, if found.Some? then Some(tunnels[at]) else None, newId, now);
    var made := TunnelFromDraft(d, if found.Some? then Some(tunnels[at]) else None, newId, now);
    assert after == Put(tunnels, at, made);
    forall k | 0 <= k < |tunnels| && k != at ensures !SameTunnelName(tunnels[k], made) {
      assert tunnels[k] in tunnels && d.id != Some(tunnels[k].id);
    }
  }

  /** What saving one tunnel promises about the whole list. */
  ghost predicate TunnelSaved(before: Tunnels, hosts: Hosts, d: TunnelDraft, newId: string, after: Tunnels) {
    && TunnelsGood(after, hosts)
    && |before| <= |after| <= |before| + 1
    && (d.id.None? ==>
          && |after| == |before| + 1 && after[..|before|] == before
          && after[|before|].hostId == d.hostId && after[|before|].id == newId)
    && (forall x | x in after :: x in before || x.hostId == d.hostId)
    && (forall x | x in after :: x.id == newId || exists y :: y in before && y.id == x.id)
  }

  lemma ApplyTunnelKeeps(tunnels: Tunnels, hosts: Hosts, d: TunnelDraft, newId: string, now: nat)
    requires TunnelsGood(tunnels, hosts) && forall x | x in tunnels :: x.id != newId
    ensures var r := ApplyTunnel(tunnels, hosts, d, newId, now);
      r.Ok? ==> TunnelSaved(tunnels, hosts, d, newId, r.value)
  {
    var r := ApplyTunnel(tunnels, hosts, d, newId, now);
    if r.Ok? {
      var at := ApplyTunnelShape(tunnels, hosts, d, newId, now, r.value);
      PutTunnelKeeps(tunnels, hosts, d, newId, r.value, at);
    }
  }

  lemma PutTunnelKeeps(before: Tunnels, hosts: Hosts, d: TunnelDraft, newId: string, after: Tunnels, at: nat)
    requires TunnelsGood(before, hosts) && forall x | x in before :: x.id != newId
    requires PutsRecord(before, after, at, (x: Tunnel) => x.id, (a, b) => SameTunnelName(a, b), newId)
    requires ValidTunnel(after[at]) && after[at].hostId == d.hostId && (d.id.None? ==> at == |before|)
    requires HasHost(hosts, d.hostId)
    ensures TunnelSaved(before, hosts, d, newId, after)
  {
    PutsKeepsDistinct(before, after, at, (x: Tunnel) => x.id, (a, b) => SameTunnelName(a, b), newId);
    PutsMembers(before, after, at, (x: Tunnel) => x.id, (a, b) => SameTunnelName(a, b), newId);
  }

  /** Where a successful `ApplyCommand` put its one record, and what that record looks like. */
  lemma ApplyCommandShape(commands: Commands, hosts: Hosts, d: CommandDraft, newId: string, now: nat, after: Commands)
      returns (at: nat)
    requires DistinctCommands(commands) && ApplyCommand(commands, hosts, d, newId, now) == Ok(after)
    ensures PutsRecord(commands, after, at, (x: Command) => x.id, (a, b) => SameCommandName(a, b), newId)
    ensures ValidCommand(after[at]) && after[at].hostId == d.hostId && (d.id.None? ==> at == |commands|)
    ensures d.hostId.Some? ==> HasHost(hosts, d.hostId.value)
  {
    var found := IndexOfCommand(commands, d.id);
    at := if found.Some? then found.value else |commands|;
    CommandFromDraftValid(d, if found.Some? then Some(commands[at]) else None, newId, now);
    var made := CommandFromDraft(d, if found.Some? then Some(commands[at]) else None, newId, now);
    assert after == Put(commands, at, made);
    forall k | 0 <= k < |commands| && k != at ensures !SameCommandName(commands[k], made) {
      assert commands[k] in commands && d.id != Some(commands[k].id);
    }
  }

  /** What saving one command promises about the whole list. */
  ghost predicate CommandSaved(before: Commands, hosts: Hosts, d: CommandDraft, newId: string, after: Commands) {
    && CommandsGood(after, hosts)
    && |before| <= |after| <= |before| + 1
    && (d.id.None? ==>
          && |after| == |before| + 1 && after[..|before|] == before
          && after[|before|].hostId == d.hostId && after[|before|].id == newId)
    && (forall x | x in after :: x in before || x.hostId == d.hostId)
    && (forall x | x in after :: x.id == newId || exists y :: y in before && y.id == x.id)
  }

  lemma ApplyCommandKeeps(commands: Commands, hosts: Hosts, d: CommandDraft, newId: string, now: nat)
    requires CommandsGood(commands, hosts) && forall x | x in commands :: x.id != newId
    ensures var r := ApplyCommand(commands, hosts, d, newId, now);
      r.Ok? ==> CommandSaved(commands, hosts, d, newId, r.value)
  {
    var r := ApplyCommand(commands, hosts, d, newId, now);
    if r.Ok? {
      var at := ApplyCommandShape(commands, hosts, d, newId, now, r.value);
      PutCommandKeeps(commands, hosts, d, newId, r.value, at);
    }
  }

  lemma PutCommandKeeps(before: Commands, hosts: Hosts, d: CommandDraft, newId: string, after: Commands, at: nat)
    requires CommandsGood(before, hosts) && forall x | x in before :: x.id != newId
    requires PutsRecord(before, after, at, (x: Command) => x.id, (a, b) => SameCommandName(a, b), newId)
    requires ValidCommand(after[at]) && after[at].hostId == d.hostId && (d.id.None? ==> at == |before|)
    requires d.hostId.Some? ==> HasHost(hosts, d.hostId.value)
    ensures CommandSaved(before, hosts, d, newId, after)
  {
    PutsKeepsDistinct(before, after, at, (x: Command) => x.id, (a, b) => SameCommandName(a, b), newId);
    PutsMembers(before, after, at, (x: Command) => x.id, (a, b) => SameCommandName(a, b), newId);
  }

  /** Records stay attached while no host id disappears. */
  lemma RecordsFollowHosts(tunnels: Tunnels, commands: Commands, before: Hosts, after: Hosts)
    requires TunnelsGood(tunnels, before) && CommandsGood(commands, before)
    requires forall id | HasHost(before, id) :: HasHost(after, id)
    ensures TunnelsGood(tunnels, after) && CommandsGood(commands, after)
  {
  }
}
