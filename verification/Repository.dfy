/** The persisted state, its write-time validator, and every operation that changes it. */
module Repository {
  import opened Prelude
  import opened Strings
  import opened Profiles
  import opened ProxyJump
  import opened HostImport
  import opened HostRecords

  const MAX_HOSTS := 512
  const MAX_TUNNELS := 2048
  const MAX_COMMANDS := 4096
  const MAX_HASHES := 4096

  /** The settings are opaque here; a patch is known by what it yields. */
  datatype Settings = Settings(values: map<string, string>)
  type SettingsPatch = Result<Settings, Error>

  datatype PersistedState = PersistedState(schemaVersion: nat, settings: Settings, hosts: Hosts,
                                           tunnels: Tunnels, commands: Commands, hashes: seq<string>)

  predicate ValidHash(hash: string) { Utf8Len(hash) == 64 && forall c | c in hash :: IsHexDigit(c) }

  predicate WithinCounts(s: PersistedState) {
    && |s.hosts| <= MAX_HOSTS && |s.tunnels| <= MAX_TUNNELS
    && |s.commands| <= MAX_COMMANDS && |s.hashes| <= MAX_HASHES
  }

  /** Every clause of the validator that is not a count cap. */
  predicate ContentsValid(s: PersistedState) {
    && s.schemaVersion == 2
    && AllValid(s.hosts) && DistinctHosts(s.hosts)
    && TunnelsGood(s.tunnels, s.hosts)
    && CommandsGood(s.commands, s.hosts)
    && forall h | h in s.hashes :: ValidHash(h)
  }

  /** `validate_persisted_state`. */
  predicate Validates(s: PersistedState) { WithinCounts(s) && ContentsValid(s) }

  /** What the repository keeps beyond the validator: generated ids and depth-one jumps. */
  ghost predicate Sound(s: PersistedState) {
    ContentsValid(s) && IdsOk(s.hosts) && DepthOne(s.hosts)
  }

  // ---- Host deletion -------------------------------------------------------------------------

  /** `validate_host_deletion_state`. */
  function CheckDeletable(s: PersistedState, id: string): (r: Option<Error>) {
    var at := IndexOfId(s.hosts, id);
    if at.None? then Some(NotFound)
    else if exists h | h in s.hosts :: h.id != id && ReferenceMatches(h.proxyJump, s.hosts[at.value])
      then Some(Validation)
    else None
  }

  function Keep<T>(xs: seq<T>, p: T -> bool): (r: seq<T>)
    ensures forall x | x in r :: x in xs && p(x)
    ensures forall x | x in xs :: p(x) ==> x in r
    ensures |r| <= |xs|
  {
    if xs == [] then [] else (if p(xs[0]) then [xs[0]] else []) + Keep(xs[1..], p)
  }

  function WithoutHost(s: PersistedState, id: string): PersistedState {
    s.(hosts := Keep(s.hosts, (h: Host) => h.id != id),
       tunnels := Keep(s.tunnels, (t: Tunnel) => t.hostId != id),
       commands := Keep(s.commands, (c: Command) => c.hostId != Some(id)))
  }

  // ---- Batch import --------------------------------------------------------------------------

  datatype HostRef = Imported(sourceId: string) | Existing(hostId: string)

  datatype BatchHost = BatchHost(sourceId: string, planned: Planned<HostDraft>)
  datatype BatchTunnel = BatchTunnel(host: HostRef, planned: Planned<TunnelDraft>)
  datatype BatchCommand = BatchCommand(host: Option<HostRef>, planned: Planned<CommandDraft>)

  datatype Batch = Batch(sourceHash: string, hosts: seq<BatchHost>, tunnels: seq<BatchTunnel>,
                         commands: seq<BatchCommand>, settings: Option<SettingsPatch>)

  predicate ValidSourceId(id: string) { id != [] && Utf8Len(id) <= 512 && NoControl(id) }

  datatype Admitted = Admitted(hosts: Hosts, ids: map<string, string>)

  /** Appends one batch host and remembers which id its source id was given. */
  function AdmitHost(a: Admitted, x: BatchHost, now: nat): (r: Result<Admitted, Error>) {
    if !ValidSourceId(x.sourceId) || x.sourceId in a.ids then Err(Validation) else
      var appended := AppendPlanned(a.hosts, x.planned, now);
      if appended.Err? then Err(appended.error)
      else Ok(Admitted(appended.value, a.ids[x.sourceId := x.planned.newId]))
  }

  function ResolveImportHost(ref: HostRef, ids: map<string, string>,
      existing: set<string>): (r: Result<string, Error>) {
    match ref
    case Imported(source) => if source in ids then Ok(ids[source]) else Err(Validation)
    case Existing(id) => if id in existing then Ok(id) else Err(Validation)
  }

  function ImportTunnel(ts: Tunnels, x: BatchTunnel, hosts: Hosts, ids: map<string, string>, existing: set<string>,
      now: nat): (r: Result<Tunnels, Error>) {
    if x.planned.draft.id.Some? then Err(Validation) else
      var host := ResolveImportHost(x.host, ids, existing);
      if host.Err? then Err(host.error)
      else ApplyTunnel(ts, hosts, x.planned.draft.(hostId := host.value), x.planned.newId, now)
  }

  function ResolveScope(ref: Option<HostRef>, ids: map<string, string>,
      existing: set<string>): (r: Result<Option<string>, Error>) {
    if ref.None? then Ok(None) else
      var host := ResolveImportHost(ref.value, ids, existing);
      if host.Err? then Err(host.error) else Ok(Some(host.value))
  }

  function ImportCommand(cs: Commands, x: BatchCommand, hosts: Hosts, ids: map<string, string>, existing: set<string>,
      now: nat): (r: Result<Commands, Error>) {
    if x.planned.draft.id.Some? then Err(Validation) else
      var scope := ResolveScope(x.host, ids, existing);
      if scope.Err? then Err(scope.error)
      else ApplyCommand(cs, hosts, x.planned.draft.(hostId := scope.value), x.planned.newId, now)
  }

  function HostIds(hosts: Hosts): set<string> { set h | h in hosts :: h.id }

  function AdmitHosts(hosts: Hosts, xs: seq<BatchHost>, now: nat, n: nat): (r: Result<Admitted, Error>)
    requires n <= |xs|
  {
    Run(Admitted(hosts, map[]), xs, (a, x) => AdmitHost(a, x, now), n)
  }

  function ImportTunnels(ts: Tunnels, xs: seq<BatchTunnel>, hosts: Hosts, ids: map<string, string>,
      existing: set<string>, now: nat, n: nat): (r: Result<Tunnels, Error>)
    requires n <= |xs|
  {
    Run(ts, xs, (s, x) => ImportTunnel(s, x, hosts, ids, existing, now), n)
  }

  function ImportCommands(cs: Commands, xs: seq<BatchCommand>, hosts: Hosts, ids: map<string, string>,
      existing: set<string>, now: nat, n: nat): (r: Result<Commands, Error>)
    requires n <= |xs|
  {
    Run(cs, xs, (s, x) => ImportCommand(s, x, hosts, ids, existing, now), n)
  }

  predicate HasImport(s: PersistedState, hash: string) { exists h | h in s.hashes :: EqIgnoreCase(h, hash) }

  /** The hosts of a batch, settled; `order` is how the hash map of new ids is visited. */
  function ImportBatchHosts(s: PersistedState, b: Batch, order: seq<string>, now: nat): (r: Result<Admitted, Error>) {
    var admitted := AdmitHosts(s.hosts, b.hosts, now, |b.hosts|);
    if admitted.Err? then admitted else
      var hosts := SettleImported(admitted.value.hosts, order);
      if hosts.Err? then Err(hosts.error) else Ok(Admitted(hosts.value, admitted.value.ids))
  }

  /** The tunnels, commands and settings of a batch whose hosts are in place. */
  function ImportBatchRecords(s: PersistedState, b: Batch, a: Admitted, now: nat): (r: Result<PersistedState, Error>) {
    var existing := HostIds(s.hosts);
    var ts := ImportTunnels(s.tunnels, b.tunnels, a.hosts, a.ids, existing, now, |b.tunnels|);
    if ts.Err? then Err(ts.error) else
      var cs := ImportCommands(s.commands, b.commands, a.hosts, a.ids, existing, now, |b.commands|);
      if cs.Err? then Err(cs.error)
      else if b.settings.Some? && b.settings.value.Err? then Err(b.settings.value.error)
      else
        var settings := if b.settings.Some? then b.settings.value.value else s.settings;
        Ok(PersistedState(s.schemaVersion, settings, a.hosts, ts.value, cs.value, s.hashes + [Lower(b.sourceHash)]))
  }

  predicate EmptyBatch(b: Batch) { b.hosts == [] && b.tunnels == [] && b.commands == [] && b.settings.None? }

  /** The new state of a batch that is not a duplicate. */
  function ImportNewBatch(s: PersistedState, b: Batch, order: seq<string>,
      now: nat): (r: Result<PersistedState, Error>) {
    if EmptyBatch(b) then Err(Validation) else
      var hosts := ImportBatchHosts(s, b, order, now);
      if hosts.Err? then Err(hosts.error) else ImportBatchRecords(s, b, hosts.value, now)
  }

  /** The planned ids are new to `xs` and distinct. */
  ghost predicate NewRecordIds<T(!new), X(!new)>(xs: seq<T>, id: T -> string, plan: seq<X>, newId: X -> string) {
    && (forall k, x | 0 <= k < |plan| && x in xs :: id(x) != newId(plan[k]))
    && (forall j, k | 0 <= j < k < |plan| :: newId(plan[j]) != newId(plan[k]))
  }

  function HostPlan(b: Batch): (r: seq<Planned<HostDraft>>)
    ensures |r| == |b.hosts| && forall k | 0 <= k < |r| :: r[k] == b.hosts[k].planned
  {
    seq(|b.hosts|, k requires 0 <= k < |b.hosts| => b.hosts[k].planned)
  }

  ghost predicate NewTunnelIds(ts: Tunnels, b: Batch) {
    NewRecordIds(ts, (t: Tunnel) => t.id, b.tunnels, (x: BatchTunnel) => x.planned.newId)
  }

  ghost predicate NewCommandIds(cs: Commands, b: Batch) {
    NewRecordIds(cs, (c: Command) => c.id, b.commands, (x: BatchCommand) => x.planned.newId)
  }

  /** The ids drawn for a batch are new, and `order` visits the new hosts. */
  ghost predicate BatchIdsNew(s: PersistedState, b: Batch, order: seq<string>) {
    && NewIds(s.hosts, HostPlan(b)) && Visits(order, HostPlan(b))
    && NewTunnelIds(s.tunnels, b) && NewCommandIds(s.commands, b)
  }

  // ---- A batch import is complete --------------------------------------------------------------

  ghost predicate AdmitsOne(a: Admitted, x: BatchHost, a': Admitted) {
    && AppendsOne(a.hosts, x.planned, a'.hosts)
    && x.sourceId !in a.ids && a'.ids == a.ids[x.sourceId := x.planned.newId]
  }

  /** After `n` batch hosts: the host list extended by them, each source id mapped to its host. */
  ghost predicate AdmittedSoFar(hosts: Hosts, b: Batch, a: Admitted, n: nat) {
    && n <= |b.hosts| && Extended(hosts, a.hosts, HostPlan(b), n)
    && (forall k | 0 <= k < n :: b.hosts[k].sourceId in a.ids && a.ids[b.hosts[k].sourceId] == b.hosts[k].planned.newId)
    && (forall x | x in a.ids :: exists k :: 0 <= k < n && b.hosts[k].sourceId == x)
  }

  lemma AdmitKeeps(hosts: Hosts, b: Batch, a: Admitted, n: nat, a': Admitted)
    requires NewIds(hosts, HostPlan(b)) && AdmittedSoFar(hosts, b, a, n) && n < |b.hosts|
    requires AdmitsOne(a, b.hosts[n], a')
    ensures AdmittedSoFar(hosts, b, a', n + 1)
  {
    AppendKeeps(hosts, a.hosts, HostPlan(b), n, a'.hosts);
    forall k | 0 <= k < n ensures b.hosts[k].sourceId in a'.ids
      && a'.ids[b.hosts[k].sourceId] == b.hosts[k].planned.newId {
      assert b.hosts[k].sourceId in a.ids;
    }
  }

  lemma AdmitHostsKeeps(hosts: Hosts, b: Batch, now: nat)
    requires NewIds(hosts, HostPlan(b)) && DistinctHosts(hosts) && IdsOk(hosts) && AllValid(hosts)
    ensures var r := AdmitHosts(hosts, b.hosts, now, |b.hosts|);
      r.Ok? ==> AdmittedSoFar(hosts, b, r.value, |b.hosts|)
  {
    var step := (a, x) => AdmitHost(a, x, now);
    var does := (a, x, a') => AdmitsOne(a, x, a');
    var keeps := (a: Admitted, k: nat) => AdmittedSoFar(hosts, b, a, k);
    forall a, x | step(a, x).Ok? ensures does(a, x, step(a, x).value) { AppendPlannedShape(a.hosts, x.planned, now); }
    forall a, a', k: nat | k < |b.hosts| && keeps(a, k) && does(a, b.hosts[k], a') ensures keeps(a', k + 1) {
      AdmitKeeps(hosts, b, a, k, a');
    }
    RunKeeps(Admitted(hosts, map[]), b.hosts, step, |b.hosts|, does, keeps);
  }

  /** `ts` is `base` followed by one record for each of the first `n` elements of `xs`, each
      placed as its element asks; every id is an old one or one of those drawn so far. */
  ghost predicate RecordsSoFar<T(!new), X(!new)>(base: seq<T>, xs: seq<X>, ts: seq<T>, n: nat, id: T -> string,
      newId: X -> string, placed: (X, T) -> bool) {
    && n <= |xs| && |ts| == |base| + n && ts[..|base|] == base
    && (forall i | |base| <= i < |ts| :: placed(xs[i - |base|], ts[i]))
    && (forall i | |base| <= i < |ts| :: exists k :: 0 <= k < n && newId(xs[k]) == id(ts[i]))
  }

  lemma RecordIdUnused<T(!new), X(!new)>(base: seq<T>, xs: seq<X>, ts: seq<T>, n: nat, id: T -> string,
      newId: X -> string, placed: (X, T) -> bool)
    requires NewRecordIds(base, id, xs, newId) && n < |xs|
    requires RecordsSoFar(base, xs, ts, n, id, newId, placed)
    ensures forall t | t in ts :: id(t) != newId(xs[n])
  {
    forall t | t in ts ensures id(t) != newId(xs[n]) {
      var i :| 0 <= i < |ts| && ts[i] == t;
      if i < |base| { assert ts[i] == ts[..|base|][i] == base[i]; assert t in base; }
    }
  }

  lemma RecordsNext<T(!new), X(!new)>(base: seq<T>, xs: seq<X>, ts: seq<T>, n: nat, id: T -> string,
      newId: X -> string, placed: (X, T) -> bool, ts': seq<T>)
    requires n < |xs| && RecordsSoFar(base, xs, ts, n, id, newId, placed)
    requires |ts'| == |ts| + 1 && ts'[..|ts|] == ts && placed(xs[n], ts'[|ts|])
    requires id(ts'[|ts|]) == newId(xs[n])
    ensures RecordsSoFar(base, xs, ts', n + 1, id, newId, placed)
  {
    assert ts'[..|base|] == ts'[..|ts|][..|base|];
    forall i | |base| <= i < |ts'|
      ensures placed(xs[i - |base|], ts'[i]) && exists k :: 0 <= k < n + 1 && newId(xs[k]) == id(ts'[i])
    {
      if i < |ts| {
        assert ts'[i] == ts'[..|ts|][i] == ts[i];
        var k :| 0 <= k < n && newId(xs[k]) == id(ts[i]);
      }
    }
  }

  ghost predicate PlacedTunnel(x: BatchTunnel, t: Tunnel, ids: map<string, string>, existing: set<string>) {
    ResolveImportHost(x.host, ids, existing) == Ok(t.hostId)
  }

  /** The first `n` batch tunnels follow the old ones, each where its reference points. */
  ghost predicate TunnelsSoFar(base: Tunnels, b: Batch, hosts: Hosts, ids: map<string, string>, existing: set<string>,
      ts: Tunnels, n: nat) {
    && TunnelsGood(ts, hosts)
    && RecordsSoFar(base, b.tunnels, ts, n, (t: Tunnel) => t.id, (x: BatchTunnel) => x.planned.newId,
                    (x, t) => PlacedTunnel(x, t, ids, existing))
  }

  ghost predicate ImportsTunnel(ts: Tunnels, x: BatchTunnel, hosts: Hosts, ids: map<string, string>,
      existing: set<string>, ts': Tunnels) {
    TunnelsGood(ts, hosts) && (forall t | t in ts :: t.id != x.planned.newId) ==>
      var host := ResolveImportHost(x.host, ids, existing);
      && x.planned.draft.id.None? && host.Ok?
      && TunnelSaved(ts, hosts, x.planned.draft.(hostId := host.value), x.planned.newId, ts')
  }

  lemma ImportTunnelShape(ts: Tunnels, x: BatchTunnel, hosts: Hosts, ids: map<string, string>, existing: set<string>,
      now: nat)
    ensures var r := ImportTunnel(ts, x, hosts, ids, existing, now);
      r.Ok? ==> ImportsTunnel(ts, x, hosts, ids, existing, r.value)
  {
    if ImportTunnel(ts, x, hosts, ids, existing, now).Ok? && TunnelsGood(ts, hosts)
      && (forall t | t in ts :: t.id != x.planned.newId) {
      var host := ResolveImportHost(x.host, ids, existing).value;
      ApplyTunnelKeeps(ts, hosts, x.planned.draft.(hostId := host), x.planned.newId, now);
    }
  }

  lemma TunnelSoFarKeeps(base: Tunnels, b: Batch, hosts: Hosts, ids: map<string, string>, existing: set<string>,
      ts: Tunnels, n: nat, ts': Tunnels)
    requires NewTunnelIds(base, b) && n < |b.tunnels|
    requires TunnelsSoFar(base, b, hosts, ids, existing, ts, n)
    requires ImportsTunnel(ts, b.tunnels[n], hosts, ids, existing, ts')
    ensures TunnelsSoFar(base, b, hosts, ids, existing, ts', n + 1)
  {
    var id := (t: Tunnel) => t.id;
    var newId := (x: BatchTunnel) => x.planned.newId;
    var placed := (x, t) => PlacedTunnel(x, t, ids, existing);
    RecordIdUnused(base, b.tunnels, ts, n, id, newId, placed);
    RecordsNext(base, b.tunnels, ts, n, id, newId, placed, ts');
  }

  lemma ImportTunnelsKeeps(base: Tunnels, b: Batch, hosts: Hosts, ids: map<string, string>, existing: set<string>,
      now: nat)
    requires NewTunnelIds(base, b) && TunnelsGood(base, hosts)
    ensures var r := ImportTunnels(base, b.tunnels, hosts, ids, existing, now, |b.tunnels|);
      r.Ok? ==> TunnelsSoFar(base, b, hosts, ids, existing, r.value, |b.tunnels|)
  {
    var step := (s, x) => ImportTunnel(s, x, hosts, ids, existing, now);
    var does := (s, x, s') => ImportsTunnel(s, x, hosts, ids, existing, s');
    var keeps := (s: Tunnels, k: nat) => TunnelsSoFar(base, b, hosts, ids, existing, s, k);
    forall s, x | step(s, x).Ok? ensures does(s, x, step(s, x).value) {
      ImportTunnelShape(s, x, hosts, ids, existing, now);
    }
    forall s, s', k: nat | k < |b.tunnels| && keeps(s, k) && does(s, b.tunnels[k], s') ensures keeps(s', k + 1) {
      TunnelSoFarKeeps(base, b, hosts, ids, existing, s, k, s');
    }
    assert base[..|base|] == base;
    RunKeeps(base, b.tunnels, step, |b.tunnels|, does, keeps);
  }

  ghost predicate PlacedCommand(x: BatchCommand, t: Command, ids: map<string, string>, existing: set<string>) {
    ResolveScope(x.host, ids, existing) == Ok(t.hostId)
  }

  /** The first `n` batch commands follow the old ones, each where its reference points. */
  ghost predicate CommandsSoFar(base: Commands, b: Batch, hosts: Hosts, ids: map<string, string>,
      existing: set<string>, ts: Commands, n: nat) {
    && CommandsGood(ts, hosts)
    && RecordsSoFar(base, b.commands, ts, n, (t: Command) => t.id, (x: BatchCommand) => x.planned.newId,
                    (x, t) => PlacedCommand(x, t, ids, existing))
  }

  ghost predicate ImportsCommand(ts: Commands, x: BatchCommand, hosts: Hosts, ids: map<string, string>,
      existing: set<string>, ts': Commands) {
    CommandsGood(ts, hosts) && (forall t | t in ts :: t.id != x.planned.newId) ==>
      var host := ResolveScope(x.host, ids, existing);
      && x.planned.draft.id.None? && host.Ok?
      && CommandSaved(ts, hosts, x.planned.draft.(hostId := host.value), x.planned.newId, ts')
  }

  lemma ImportCommandShape(ts: Commands, x: BatchCommand, hosts: Hosts, ids: map<string, string>,
      existing: set<string>, now: nat)
    ensures var r := ImportCommand(ts, x, hosts, ids, existing, now);
      r.Ok? ==> ImportsCommand(ts, x, hosts, ids, existing, r.value)
  {
    if ImportCommand(ts, x, hosts, ids, existing, now).Ok? && CommandsGood(ts, hosts)
      && (forall t | t in ts :: t.id != x.planned.newId) {
      var host := ResolveScope(x.host, ids, existing).value;
      ApplyCommandKeeps(ts, hosts, x.planned.draft.(hostId := host), x.planned.newId, now);
    }
  }

  lemma CommandSoFarKeeps(base: Commands, b: Batch, hosts: Hosts, ids: map<string, string>, existing: set<string>,
      ts: Commands, n: nat, ts': Commands)
    requires NewCommandIds(base, b) && n < |b.commands|
    requires CommandsSoFar(base, b, hosts, ids, existing, ts, n)
    requires ImportsCommand(ts, b.commands[n], hosts, ids, existing, ts')
    ensures CommandsSoFar(base, b, hosts, ids, existing, ts', n + 1)
  {
    var id := (t: Command) => t.id;
    var newId := (x: BatchCommand) => x.planned.newId;
    var placed := (x, t) => PlacedCommand(x, t, ids, existing);
    RecordIdUnused(base, b.commands, ts, n, id, newId, placed);
    RecordsNext(base, b.commands, ts, n, id, newId, placed, ts');
  }

  lemma ImportCommandsKeeps(base: Commands, b: Batch, hosts: Hosts, ids: map<string, string>, existing: set<string>,
      now: nat)
    requires NewCommandIds(base, b) && CommandsGood(base, hosts)
    ensures var r := ImportCommands(base, b.commands, hosts, ids, existing, now, |b.commands|);
      r.Ok? ==> CommandsSoFar(base, b, hosts, ids, existing, r.value, |b.commands|)
  {
    var step := (s, x) => ImportCommand(s, x, hosts, ids, existing, now);
    var does := (s, x, s') => ImportsCommand(s, x, hosts, ids, existing, s');
    var keeps := (s: Commands, k: nat) => CommandsSoFar(base, b, hosts, ids, existing, s, k);
    forall s, x | step(s, x).Ok? ensures does(s, x, step(s, x).value) {
      ImportCommandShape(s, x, hosts, ids, existing, now);
    }
    forall s, s', k: nat | k < |b.commands| && keeps(s, k) && does(s, b.commands[k], s') ensures keeps(s', k + 1) {
      CommandSoFarKeeps(base, b, hosts, ids, existing, s, k, s');
    }
    assert base[..|base|] == base;
    RunKeeps(base, b.commands, step, |b.commands|, does, keeps);
  }

  /** `hostId` is the host a reference of the batch stands for. */
  ghost predicate PointsTo(s: PersistedState, b: Batch, ref: HostRef, hostId: string) {
    match ref
    case Imported(source) =>
      exists k :: 0 <= k < |b.hosts| && b.hosts[k].sourceId == source && b.hosts[k].planned.newId == hostId
    case Existing(id) => hostId == id && HasHost(s.hosts, id)
  }

  /** Everything the batch holds was added behind what was there, and nothing else changed. */
  ghost predicate BatchAdded(s: PersistedState, b: Batch, s': PersistedState) {
    && |s'.hosts| == |s.hosts| + |b.hosts| && s'.hosts[..|s.hosts|] == s.hosts
    && |s'.tunnels| == |s.tunnels| + |b.tunnels| && s'.tunnels[..|s.tunnels|] == s.tunnels
    && |s'.commands| == |s.commands| + |b.commands| && s'.commands[..|s.commands|] == s.commands
    && s'.hashes == s.hashes + [Lower(b.sourceHash)]
    && (forall i | |s.hosts| <= i < |s'.hosts| :: s'.hosts[i].id == b.hosts[i - |s.hosts|].planned.newId)
    && (forall i | |s.tunnels| <= i < |s'.tunnels| :: TunnelPlaced(s, b, b.tunnels[i - |s.tunnels|], s'.tunnels[i]))
    && (forall i | |s.commands| <= i < |s'.commands| ::
         CommandPlaced(s, b, b.commands[i - |s.commands|], s'.commands[i]))
  }

  lemma ResolvedPointsTo(s: PersistedState, b: Batch, a: Admitted, ref: HostRef)
    requires AdmittedSoFar(s.hosts, b, a, |b.hosts|)
    ensures var r := ResolveImportHost(ref, a.ids, HostIds(s.hosts)); r.Ok? ==> PointsTo(s, b, ref, r.value)
  {
    if ref.Imported? && ref.sourceId in a.ids {
      var k :| 0 <= k < |b.hosts| && b.hosts[k].sourceId == ref.sourceId;
    }
  }

  lemma LowerHashValid(hash: string)
    requires ValidHash(hash)
    ensures ValidHash(Lower(hash))
  {
    var l := Lower(hash);
    forall i | 0 <= i < |l| ensures IsHexDigit(l[i]) && l[i] as int < 0x80 && hash[i] as int < 0x80 {
      assert hash[i] in hash;
    }
    Utf8LenAscii(hash);
    Utf8LenAscii(l);
  }

  lemma HostsGrow(before: Hosts, after: Hosts, plan: seq<Planned<HostDraft>>)
    requires Appended(before, after, plan, |plan|)
    ensures forall id | HasHost(before, id) :: HasHost(after, id)
    ensures after[..|before|] == before
  {
    forall id | HasHost(before, id) ensures HasHost(after, id) {
      var h :| h in before && h.id == id;
      var i :| 0 <= i < |before| && before[i] == h;
      assert after[i] in after;
    }
  }

  ghost predicate TunnelPlaced(s: PersistedState, b: Batch, x: BatchTunnel, t: Tunnel) {
    PointsTo(s, b, x.host, t.hostId)
  }

  ghost predicate CommandPlaced(s: PersistedState, b: Batch, x: BatchCommand, c: Command) {
    if x.host.None? then c.hostId.None? else c.hostId.Some? && PointsTo(s, b, x.host.value, c.hostId.value)
  }

  lemma BatchPlaces(s: PersistedState, b: Batch, a: Admitted, hosts: Hosts, ts: Tunnels, cs: Commands)
    requires AdmittedSoFar(s.hosts, b, a, |b.hosts|)
    requires TunnelsSoFar(s.tunnels, b, hosts, a.ids, HostIds(s.hosts), ts, |b.tunnels|)
    requires CommandsSoFar(s.commands, b, hosts, a.ids, HostIds(s.hosts), cs, |b.commands|)
    ensures forall i | |s.tunnels| <= i < |ts| :: TunnelPlaced(s, b, b.tunnels[i - |s.tunnels|], ts[i])
    ensures forall i | |s.commands| <= i < |cs| :: CommandPlaced(s, b, b.commands[i - |s.commands|], cs[i])
  {
    forall i | |s.tunnels| <= i < |ts| ensures TunnelPlaced(s, b, b.tunnels[i - |s.tunnels|], ts[i]) {
      ResolvedPointsTo(s, b, a, b.tunnels[i - |s.tunnels|].host);
    }
    forall i | |s.commands| <= i < |cs| ensures CommandPlaced(s, b, b.commands[i - |s.commands|], cs[i]) {
      var x := b.commands[i - |s.commands|];
      if x.host.Some? { ResolvedPointsTo(s, b, a, x.host.value); }
    }
  }

  ghost predicate BatchHostsDone(s: PersistedState, b: Batch, a: Admitted) {
    AdmittedSoFar(s.hosts, b, a, |b.hosts|) && DepthOne(a.hosts)
  }

  lemma ImportBatchHostsKeeps(s: PersistedState, b: Batch, order: seq<string>, now: nat)
    requires Sound(s) && NewIds(s.hosts, HostPlan(b)) && Visits(order, HostPlan(b))
    ensures var r := ImportBatchHosts(s, b, order, now); r.Ok? ==> BatchHostsDone(s, b, r.value)
  {
    var admitted := AdmitHosts(s.hosts, b.hosts, now, |b.hosts|);
    AdmitHostsKeeps(s.hosts, b, now);
    if admitted.Ok? { SettleImportedKeeps(s.hosts, admitted.value.hosts, HostPlan(b), order); }
  }

  lemma BatchSound(s: PersistedState, b: Batch, hosts: Hosts, s': PersistedState)
    requires s.schemaVersion == 2 && (forall h | h in s.hashes :: ValidHash(h)) && ValidHash(b.sourceHash)
    requires AllValid(hosts) && DistinctHosts(hosts) && IdsOk(hosts) && DepthOne(hosts)
    requires TunnelsGood(s'.tunnels, hosts) && CommandsGood(s'.commands, hosts)
    requires s' == s'.(schemaVersion := s.schemaVersion, hosts := hosts, hashes := s.hashes + [Lower(b.sourceHash)])
    ensures Sound(s')
  {
    LowerHashValid(b.sourceHash);
  }

  lemma BatchAssembled(s: PersistedState, b: Batch, a: Admitted, ts: Tunnels, cs: Commands, s': PersistedState)
    requires BatchHostsDone(s, b, a)
    requires TunnelsSoFar(s.tunnels, b, a.hosts, a.ids, HostIds(s.hosts), ts, |b.tunnels|)
    requires CommandsSoFar(s.commands, b, a.hosts, a.ids, HostIds(s.hosts), cs, |b.commands|)
    requires s' == PersistedState(s.schemaVersion, s'.settings, a.hosts, ts, cs, s.hashes + [Lower(b.sourceHash)])
    ensures BatchAdded(s, b, s')
  {
    HostsGrow(s.hosts, a.hosts, HostPlan(b));
    BatchPlaces(s, b, a, a.hosts, ts, cs);
    assert s'.hosts == a.hosts && s'.tunnels == ts && s'.commands == cs;
    forall i | |s.hosts| <= i < |a.hosts| ensures a.hosts[i].id == b.hosts[i - |s.hosts|].planned.newId {
      assert a.hosts[i].id == HostPlan(b)[i - |s.hosts|].newId;
    }
  }

  lemma ImportBatchRecordsKeeps(s: PersistedState, b: Batch, a: Admitted, now: nat)
    requires Sound(s) && BatchHostsDone(s, b, a) && ValidHash(b.sourceHash)
    requires NewTunnelIds(s.tunnels, b) && NewCommandIds(s.commands, b)
    ensures var r := ImportBatchRecords(s, b, a, now); r.Ok? ==> Sound(r.value) && BatchAdded(s, b, r.value)
  {
    var existing := HostIds(s.hosts);
    HostsGrow(s.hosts, a.hosts, HostPlan(b));
    RecordsFollowHosts(s.tunnels, s.commands, s.hosts, a.hosts);
    ImportTunnelsKeeps(s.tunnels, b, a.hosts, a.ids, existing, now);
    ImportCommandsKeeps(s.commands, b, a.hosts, a.ids, existing, now);
    var ts := ImportTunnels(s.tunnels, b.tunnels, a.hosts, a.ids, existing, now, |b.tunnels|);
    var cs := ImportCommands(s.commands, b.commands, a.hosts, a.ids, existing, now, |b.commands|);
    if ts.Ok? && cs.Ok? && !(b.settings.Some? && b.settings.value.Err?) {
      var s' := ImportBatchRecords(s, b, a, now).value;
      BatchAssembled(s, b, a, ts.value, cs.value, s');
      BatchSound(s, b, a.hosts, s');
    }
  }

  /** A batch import that succeeds adds all of the batch, each child at its mapped host, and
      keeps the state sound; so only its size can still make the write fail. */
  lemma ImportNewBatchKeeps(s: PersistedState, b: Batch, order: seq<string>, now: nat)
    requires Sound(s) && BatchIdsNew(s, b, order) && ValidHash(b.sourceHash)
    ensures var r := ImportNewBatch(s, b, order, now); r.Ok? ==> Sound(r.value) && BatchAdded(s, b, r.value)
  {
    var hosts := ImportBatchHosts(s, b, order, now);
    ImportBatchHostsKeeps(s, b, order, now);
    if hosts.Ok? { ImportBatchRecordsKeeps(s, b, hosts.value, now); }
  }
}
