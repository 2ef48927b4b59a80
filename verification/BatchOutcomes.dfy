/** A batch import from the outside: exactly when it goes through, and every record it adds. */
module BatchOutcomes {
  import opened Prelude
  import opened Strings
  import opened Profiles
  import opened ProxyJump
  import opened HostImport
  import opened HostRecords
  import opened Repository
  import opened RepositorySteps
  import opened RepositoryRuns
  import opened Jumps
  import opened SavedRecords
  import opened RepositoryOutcomes

  // ---- Lists that grow by one record at a time ---------------------------------------------------------------------

  /** `after` is `base` and then one record for each of the first `n` elements of `xs`, each `good` behind
      what comes before it. */
  ghost predicate Listed<T, X>(base: seq<T>, xs: seq<X>, good: (seq<T>, X, T) -> bool, after: seq<T>, n: nat) {
    && n <= |xs| && |after| == |base| + n && after[..|base|] == base
    && forall k: nat | k < n :: good(after[..|base| + k], xs[k], after[|base| + k])
  }

  lemma ListedLess<T, X>(base: seq<T>, xs: seq<X>, good: (seq<T>, X, T) -> bool, after: seq<T>, n: nat)
    requires 0 < n && Listed(base, xs, good, after, n)
    ensures Listed(base, xs, good, after[..|base| + n - 1], n - 1)
  {
    var less := after[..|base| + n - 1];
    assert less[..|base|] == after[..|base|];
    forall k: nat | k < n - 1 ensures good(less[..|base| + k], xs[k], less[|base| + k]) {
      assert less[..|base| + k] == after[..|base| + k];
    }
  }

  lemma ListedMore<T, X>(base: seq<T>, xs: seq<X>, good: (seq<T>, X, T) -> bool, before: seq<T>, n: nat, t: T)
    requires n < |xs| && Listed(base, xs, good, before, n) && good(before, xs[n], t)
    ensures Listed(base, xs, good, before + [t], n + 1)
  {
    var after := before + [t];
    assert after[..|base|] == before[..|base|] && after[..|before|] == before;
    forall k: nat | k < n ensures good(after[..|base| + k], xs[k], after[|base| + k]) {
      assert after[..|base| + k] == before[..|base| + k];
    }
  }

  /** A step that appends the one good record, if there is one, and fails otherwise. */
  ghost predicate Appends<T(!new), X(!new), E>(step: (seq<T>, X) -> Result<seq<T>, E>, good: (seq<T>, X, T) -> bool) {
    && (forall s, x, t | good(s, x, t) :: step(s, x) == Ok(s + [t]))
    && (forall s, x | step(s, x).Ok? :: exists t :: good(s, x, t))
  }

  lemma {:induction false} ListedOnce<T(!new), X(!new), E>(base: seq<T>, xs: seq<X>,
      step: (seq<T>, X) -> Result<seq<T>, E>, good: (seq<T>, X, T) -> bool, after: seq<T>, n: nat)
    requires Appends(step, good) && Listed(base, xs, good, after, n)
    ensures Run(base, xs, step, n) == Ok(after)
  {
    if n == 0 {
      assert after == base;
    } else {
      ListedLess(base, xs, good, after, n);
      ListedOnce(base, xs, step, good, after[..|base| + n - 1], n - 1);
      var before, t := after[..|base| + n - 1], after[|base| + n - 1];
      assert good(before, xs[n - 1], t) && after == before + [t];
    }
  }

  lemma {:induction false} RunLists<T(!new), X(!new), E>(base: seq<T>, xs: seq<X>,
      step: (seq<T>, X) -> Result<seq<T>, E>, good: (seq<T>, X, T) -> bool, n: nat)
    requires n <= |xs| && Appends(step, good) && Run(base, xs, step, n).Ok?
    ensures Listed(base, xs, good, Run(base, xs, step, n).value, n)
  {
    if n == 0 {
      assert base[..|base|] == base;
    } else {
      RunLists(base, xs, step, good, n - 1);
      var before := Run(base, xs, step, n - 1).value;
      var t :| good(before, xs[n - 1], t);
      ListedMore(base, xs, good, before, n - 1, t);
    }
  }

  /** A phase of an import goes through if and only if there is such a list, and yields it. */
  lemma PhaseMeans<T(!new), X(!new), E>(base: seq<T>, xs: seq<X>, step: (seq<T>, X) -> Result<seq<T>, E>,
      good: (seq<T>, X, T) -> bool)
    requires Appends(step, good)
    ensures forall after :: Run(base, xs, step, |xs|) == Ok(after) <==> Listed(base, xs, good, after, |xs|)
  {
    forall after ensures Run(base, xs, step, |xs|) == Ok(after) <==> Listed(base, xs, good, after, |xs|) {
      if Listed(base, xs, good, after, |xs|) { ListedOnce(base, xs, step, good, after, |xs|); }
      if Run(base, xs, step, |xs|) == Ok(after) { RunLists(base, xs, step, good, |xs|); }
    }
  }

  // ---- Hosts -----------------------------------------------------------------------------------------------------

  /** A planned host can be added behind `hosts`, as `h`. */
  ghost predicate GoodHost(hosts: Hosts, p: Planned<HostDraft>, h: Host, now: nat) {
    && p.draft.id.None? && ValidHostDraft(p.draft) && AliasIsFree(hosts, p.draft) && CanMake(p.draft, None)
    && HostTakes(h, p.draft, None, p.newId, now)
  }

  lemma HostTakesOnce(a: Host, b: Host, d: HostDraft, existing: Option<Host>, newId: string, now: nat)
    requires HostTakes(a, d, existing, newId, now) && HostTakes(b, d, existing, newId, now)
    ensures a == b
  {
    assert a.advanced == b.advanced;
  }

  lemma AppendMeans(hosts: Hosts, p: Planned<HostDraft>, now: nat)
    ensures AppendPlanned(hosts, p, now).Ok? ==> exists h :: GoodHost(hosts, p, h, now)
    ensures forall h | GoodHost(hosts, p, h, now) :: AppendPlanned(hosts, p, now) == Ok(hosts + [h])
  {
    if p.draft.id.None? {
      AliasTaken(hosts, p.draft);
      MadeHost(p.draft, None, p.newId, now);
      var made := HostFromDraft(p.draft, None, p.newId, now);
      if made.Ok? {
        assert HostTakes(made.value, p.draft, None, p.newId, now);
        forall h | GoodHost(hosts, p, h, now) ensures h == made.value {
          HostTakesOnce(h, made.value, p.draft, None, p.newId, now);
        }
        if AppendPlanned(hosts, p, now).Ok? { assert GoodHost(hosts, p, made.value, now); }
      }
    }
  }

  ghost predicate HostsListed(base: Hosts, plan: seq<Planned<HostDraft>>, now: nat, after: Hosts) {
    Listed(base, plan, (hosts, p, h) => GoodHost(hosts, p, h, now), after, |plan|)
  }

  /** The drafts of an import can all be listed if and only if each is well-formed, new, and with an alias
      that is free in front of it. */
  lemma DraftsMean(hosts: Hosts, plan: seq<Planned<HostDraft>>, now: nat)
    ensures forall after :: ApplyDrafts(hosts, plan, now, |plan|) == Ok(after) <==> HostsListed(hosts, plan, now, after)
  {
    var step := (h, p) => AppendPlanned(h, p, now);
    var good := (hosts, p, h) => GoodHost(hosts, p, h, now);
    forall s, p | step(s, p).Ok? ensures exists h :: good(s, p, h) {
      AppendMeans(s, p, now);
      var h :| GoodHost(s, p, h, now);
      assert good(s, p, h);
    }
    forall s, p, h | good(s, p, h) ensures step(s, p) == Ok(s + [h]) { AppendMeans(s, p, now); }
    PhaseMeans(hosts, plan, step, good);
  }

  // ---- Importing a list of hosts -----------------------------------------------------------------------------------

  /** The imported list: every planned host added, and its jump led to a host of the whole list. */
  ghost predicate HostsImported(base: Hosts, plan: seq<Planned<HostDraft>>, now: nat, after: Hosts) {
    && NewRolesGood(after, |base|)
    && exists listed :: HostsListed(base, plan, now, listed) && AllLed(listed, |base|, after)
  }

  /** Hosts are imported if and only if all of them can be listed, the jump of each leads to a host of the
      whole list, and nobody jumps through one that itself jumps. */
  lemma ImportMeans(hosts: Hosts, plan: seq<Planned<HostDraft>>, order: seq<string>, now: nat)
    requires NewIds(hosts, plan) && Visits(order, plan) && DistinctIds(order)
    requires DistinctHosts(hosts) && IdsOk(hosts) && AllValid(hosts) && DepthOne(hosts)
    ensures forall after :: ImportHosts(hosts, plan, order, now) == Ok(after) <==>
      HostsImported(hosts, plan, now, after)
  {
    DraftsMean(hosts, plan, now);
    ApplyDraftsKeeps(hosts, plan, now, |plan|);
    var applied := ApplyDrafts(hosts, plan, now, |plan|);
    if applied.Ok? {
      SettledImport(hosts, plan, order, now, applied.value);
    } else {
      forall listed ensures !HostsListed(hosts, plan, now, listed) { }
    }
  }

  lemma SettledImport(hosts: Hosts, plan: seq<Planned<HostDraft>>, order: seq<string>, now: nat, listed: Hosts)
    requires Extended(hosts, listed, plan, |plan|) && Visits(order, plan) && DistinctIds(order) && DepthOne(hosts)
    requires forall other :: HostsListed(hosts, plan, now, other) <==> other == listed
    ensures forall after :: SettleImported(listed, order) == Ok(after) <==> HostsImported(hosts, plan, now, after)
  {
    AppendedLists(hosts, listed, plan, order);
    AppendedSettled(hosts, listed, plan, order);
    ImportMeansJumps(listed, |hosts|, order);
    SettledExactly(listed, |hosts|, order);
    assert HostsListed(hosts, plan, now, listed);
    forall after ensures HostsImported(hosts, plan, now, after) <==>
      AllLed(listed, |hosts|, after) && NewRolesGood(after, |hosts|) {
    }
  }

  lemma SettledExactly(listed: Hosts, base: nat, order: seq<string>)
    requires DistinctHosts(listed)
    requires var r := SettleImported(listed, order);
      && (r.Ok? <==> exists after :: AllLed(listed, base, after) && NewRolesGood(after, base))
      && (r.Ok? ==> AllLed(listed, base, r.value))
    ensures forall after :: SettleImported(listed, order) == Ok(after) <==>
      AllLed(listed, base, after) && NewRolesGood(after, base)
  {
    var r := SettleImported(listed, order);
    forall after ensures r == Ok(after) <==> AllLed(listed, base, after) && NewRolesGood(after, base) {
      if AllLed(listed, base, after) && NewRolesGood(after, base) { LedOnce(listed, base, after, r.value); }
      if r == Ok(after) {
        var other :| AllLed(listed, base, other) && NewRolesGood(other, base);
        LedOnce(listed, base, after, other);
      }
    }
  }

  function ListProposed(r: Repo, plan: seq<Planned<HostDraft>>, now: nat): Result<PersistedState, Error> {
    if r.deleting != {} then Err(State) else WithHosts(r.state, ImportHosts(r.state.hosts, plan, PlannedIds(plan), now))
  }

  lemma ImportListStep(r: Repo, plan: seq<Planned<HostDraft>>, now: nat, disk: Option<Error>)
    ensures Next(r, ImportHostList(plan, now, disk)) ==
      if plan == [] then (r, None) else Commit(r, ListProposed(r, plan, now), disk)
  {
  }

  ghost predicate CanImport(r: Repo, plan: seq<Planned<HostDraft>>, now: nat, disk: Option<Error>) {
    && r.deleting == {} && disk.None?
    && exists after :: HostsImported(r.state.hosts, plan, now, after) && |after| <= 512
  }

  /** Importing a list of hosts succeeds exactly if it is empty, or no deletion is under way and it goes
      into the list, which can be written; everything else in the state stays. */
  lemma ImportListOutcome(r: Repo, plan: seq<Planned<HostDraft>>, now: nat, disk: Option<Error>)
    requires RepoInv(r) && NewIds(r.state.hosts, plan)
    ensures var (r', failed) := Next(r, ImportHostList(plan, now, disk));
      && (failed.None? <==> plan == [] || CanImport(r, plan, now, disk))
      && (if failed.Some? || plan == [] then r' == r
          else && r' == r.(state := r.state.(hosts := r'.state.hosts))
               && HostsImported(r.state.hosts, plan, now, r'.state.hosts))
  {
    ImportListStep(r, plan, now, disk);
    VisitsPlanned(plan);
    ImportMeans(r.state.hosts, plan, PlannedIds(plan), now);
    ImportListKeeps(r.state, plan, now);
    var p := ListProposed(r, plan, now);
    CommitOfSound(r, p, disk);
    if p.Ok? { CanWriteOne(r.state, p.value, disk); }
  }

  // ---- The hosts of a batch -------------------------------------------------------------------------------------

  /** Every source id is well-formed and used once. */
  predicate SourcesGood(xs: seq<BatchHost>, n: nat)
    requires n <= |xs|
  {
    && (forall k | 0 <= k < n :: ValidSourceId(xs[k].sourceId))
    && (forall j, k | 0 <= j < k < n :: xs[j].sourceId != xs[k].sourceId)
  }

  ghost predicate Mapped(xs: seq<BatchHost>, ids: map<string, string>, n: nat)
    requires n <= |xs|
  {
    forall source :: source in ids <==> exists k :: 0 <= k < n && xs[k].sourceId == source
  }

  lemma AdmitUnfolds(hosts: Hosts, b: Batch, now: nat, n: nat)
    requires 0 < n <= |b.hosts|
    ensures var before := AdmitHosts(hosts, b.hosts, now, n - 1);
      AdmitHosts(hosts, b.hosts, now, n) == if before.Err? then before else AdmitHost(before.value, b.hosts[n - 1], now)
  {
  }

  lemma ApplyUnfolds(hosts: Hosts, plan: seq<Planned<HostDraft>>, now: nat, n: nat)
    requires 0 < n <= |plan|
    ensures var before := ApplyDrafts(hosts, plan, now, n - 1);
      ApplyDrafts(hosts, plan, now, n) == if before.Err? then before else AppendPlanned(before.value, plan[n - 1], now)
  {
  }

  ghost predicate SameHosts(b: Batch, r: Result<Admitted, Error>, applied: Result<Hosts, Error>, n: nat)
    requires n <= |b.hosts|
  {
    && (r.Ok? <==> applied.Ok? && SourcesGood(b.hosts, n))
    && (r.Ok? ==> r.value.hosts == applied.value && Mapped(b.hosts, r.value.ids, n))
  }

  lemma SourcesFewer(xs: seq<BatchHost>, n: nat)
    requires 0 < n <= |xs| && SourcesGood(xs, n)
    ensures SourcesGood(xs, n - 1)
  {
  }

  /** Admitting batch hosts is listing their drafts while the source ids are good. */
  lemma {:induction false} AdmittedDrafts(hosts: Hosts, b: Batch, now: nat, n: nat)
    requires n <= |b.hosts|
    ensures SameHosts(b, AdmitHosts(hosts, b.hosts, now, n), ApplyDrafts(hosts, HostPlan(b), now, n), n)
  {
    if n == 0 {
      NoneAdmitted(hosts, b);
    } else {
      AdmittedDrafts(hosts, b, now, n - 1);
      AdmittedOneMore(hosts, b, now, n);
    }
  }

  lemma NoneAdmitted(hosts: Hosts, b: Batch)
    ensures SameHosts(b, Ok(Admitted(hosts, map[])), Ok(hosts), 0)
  {
  }

  lemma AdmittedOneMore(hosts: Hosts, b: Batch, now: nat, n: nat)
    requires 0 < n <= |b.hosts|
    requires SameHosts(b, AdmitHosts(hosts, b.hosts, now, n - 1), ApplyDrafts(hosts, HostPlan(b), now, n - 1), n - 1)
    ensures SameHosts(b, AdmitHosts(hosts, b.hosts, now, n), ApplyDrafts(hosts, HostPlan(b), now, n), n)
  {
    AdmitUnfolds(hosts, b, now, n);
    ApplyUnfolds(hosts, HostPlan(b), now, n);
    AdmittedStep(b, AdmitHosts(hosts, b.hosts, now, n - 1), ApplyDrafts(hosts, HostPlan(b), now, n - 1), now, n);
  }

  lemma AdmittedStep(b: Batch, before: Result<Admitted, Error>, applied: Result<Hosts, Error>, now: nat, n: nat)
    requires 0 < n <= |b.hosts| && SameHosts(b, before, applied, n - 1)
    ensures SameHosts(b, if before.Err? then before else AdmitHost(before.value, b.hosts[n - 1], now),
                      if applied.Err? then applied else AppendPlanned(applied.value, HostPlan(b)[n - 1], now), n)
  {
    if SourcesGood(b.hosts, n) { SourcesFewer(b.hosts, n); }
    if before.Ok? { AdmittedNext(before.value, b, now, n); }
  }

  lemma MappedMore(xs: seq<BatchHost>, ids: map<string, string>, n: nat, id: string)
    requires 0 < n <= |xs| && Mapped(xs, ids, n - 1)
    ensures Mapped(xs, ids[xs[n - 1].sourceId := id], n)
  {
    var more := ids[xs[n - 1].sourceId := id];
    forall source ensures source in more <==> exists k :: 0 <= k < n && xs[k].sourceId == source {
      if source in ids { var k :| 0 <= k < n - 1 && xs[k].sourceId == source; }
      if source == xs[n - 1].sourceId { assert xs[n - 1].sourceId == source; }
    }
  }

  lemma SourcesMore(xs: seq<BatchHost>, ids: map<string, string>, n: nat)
    requires 0 < n <= |xs| && SourcesGood(xs, n - 1) && Mapped(xs, ids, n - 1)
    ensures SourcesGood(xs, n) <==> ValidSourceId(xs[n - 1].sourceId) && xs[n - 1].sourceId !in ids
  {
  }

  lemma AdmittedNext(a: Admitted, b: Batch, now: nat, n: nat)
    requires 0 < n <= |b.hosts| && SourcesGood(b.hosts, n - 1) && Mapped(b.hosts, a.ids, n - 1)
    ensures var (appended, r) := (AppendPlanned(a.hosts, b.hosts[n - 1].planned, now),
      AdmitHost(a, b.hosts[n - 1], now));
      && (r.Ok? <==> appended.Ok? && SourcesGood(b.hosts, n))
      && (r.Ok? ==> r.value.hosts == appended.value && Mapped(b.hosts, r.value.ids, n))
  {
    SourcesMore(b.hosts, a.ids, n);
    MappedMore(b.hosts, a.ids, n, b.hosts[n - 1].planned.newId);
  }

  // ---- Tunnels and presets of a batch -----------------------------------------------------------------------------

  /** A batch tunnel can be added behind `ts`, as `t`: on the host its reference points to. */
  ghost predicate GoodTunnel(ts: Tunnels, x: BatchTunnel, t: Tunnel, hosts: Hosts, points: (HostRef, string) -> bool,
      now: nat) {
    var d := x.planned.draft.(hostId := t.hostId);
    && d.id.None? && points(x.host, t.hostId) && HasHost(hosts, t.hostId)
    && ValidTunnelDraft(d) && TunnelNameIsFree(ts, d) && TunnelTakes(t, d, None, x.planned.newId, now)
  }

  lemma TunnelTakesOnce(a: Tunnel, b: Tunnel, d: TunnelDraft, newId: string, now: nat)
    requires TunnelTakes(a, d, None, newId, now) && TunnelTakes(b, d, None, newId, now)
    ensures a == b
  {
  }

  lemma NewTunnelMeans(ts: Tunnels, hosts: Hosts, d: TunnelDraft, newId: string, now: nat)
    requires d.id.None?
    ensures var (r, t) := (ApplyTunnel(ts, hosts, d, newId, now), TunnelFromDraft(d, None, newId, now));
      && (r.Ok? <==> ValidTunnelDraft(d) && HasHost(hosts, d.hostId) && TunnelNameIsFree(ts, d))
      && (r.Ok? ==> r.value == ts + [t]) && TunnelTakes(t, d, None, newId, now)
  {
    TunnelNameTaken(ts, d);
    MadeTunnel(d, None, newId, now);
  }

  /** `points` says of each reference the one host it stands for, if it stands for one. */
  ghost predicate Resolves(points: (HostRef, string) -> bool, ids: map<string, string>, existing: set<string>) {
    forall ref, id :: points(ref, id) <==> ResolveImportHost(ref, ids, existing) == Ok(id)
  }

  lemma ImportTunnelMeans(ts: Tunnels, x: BatchTunnel, hosts: Hosts, ids: map<string, string>, existing: set<string>,
                          points: (HostRef, string) -> bool, now: nat)
    requires Resolves(points, ids, existing)
    ensures var r := ImportTunnel(ts, x, hosts, ids, existing, now);
      && (r.Ok? ==> exists t :: GoodTunnel(ts, x, t, hosts, points, now))
      && (forall t | GoodTunnel(ts, x, t, hosts, points, now) :: r == Ok(ts + [t]))
  {
    var host := ResolveImportHost(x.host, ids, existing);
    if x.planned.draft.id.None? && host.Ok? {
      var d := x.planned.draft.(hostId := host.value);
      NewTunnelMeans(ts, hosts, d, x.planned.newId, now);
      var made := TunnelFromDraft(d, None, x.planned.newId, now);
      forall t | GoodTunnel(ts, x, t, hosts, points, now) ensures t == made {
        assert t.hostId == host.value;
        TunnelTakesOnce(t, made, d, x.planned.newId, now);
      }
      if ImportTunnel(ts, x, hosts, ids, existing, now).Ok? { assert GoodTunnel(ts, x, made, hosts, points, now); }
    } else {
      forall t ensures !GoodTunnel(ts, x, t, hosts, points, now) { }
    }
  }

  ghost predicate TunnelsListed(base: Tunnels, xs: seq<BatchTunnel>, hosts: Hosts, points: (HostRef, string) -> bool,
                                now: nat, after: Tunnels) {
    Listed(base, xs, (ts, x, t) => GoodTunnel(ts, x, t, hosts, points, now), after, |xs|)
  }

  lemma TunnelsMean(base: Tunnels, xs: seq<BatchTunnel>, hosts: Hosts, ids: map<string, string>, existing: set<string>,
                    points: (HostRef, string) -> bool, now: nat)
    requires Resolves(points, ids, existing)
    ensures forall after :: ImportTunnels(base, xs, hosts, ids, existing, now, |xs|) == Ok(after)
                            <==> TunnelsListed(base, xs, hosts, points, now, after)
  {
    var step := (s, x) => ImportTunnel(s, x, hosts, ids, existing, now);
    var good := (ts, x, t) => GoodTunnel(ts, x, t, hosts, points, now);
    forall s, x | step(s, x).Ok? ensures exists t :: good(s, x, t) {
      ImportTunnelMeans(s, x, hosts, ids, existing, points, now);
      var t :| GoodTunnel(s, x, t, hosts, points, now);
      assert good(s, x, t);
    }
    forall s, x, t | good(s, x, t) ensures step(s, x) == Ok(s + [t]) {
      ImportTunnelMeans(s, x, hosts, ids, existing, points, now);
    }
    PhaseMeans(base, xs, step, good);
  }

  /** A batch preset belongs to all hosts, or to the host its reference points to. */
  ghost predicate ScopePoints(ref: Option<HostRef>, hostId: Option<string>, points: (HostRef, string) -> bool) {
    if ref.None? then hostId.None? else hostId.Some? && points(ref.value, hostId.value)
  }

  ghost predicate GoodCommand(cs: Commands, x: BatchCommand, c: Command, hosts: Hosts,
      points: (HostRef, string) -> bool, now: nat) {
    var d := x.planned.draft.(hostId := c.hostId);
    && d.id.None? && ScopePoints(x.host, c.hostId, points) && (c.hostId.Some? ==> HasHost(hosts, c.hostId.value))
    && ValidCommandDraft(d) && CommandNameIsFree(cs, d) && CommandTakes(c, d, None, x.planned.newId, now)
  }

  lemma CommandTakesOnce(a: Command, b: Command, d: CommandDraft, newId: string, now: nat)
    requires CommandTakes(a, d, None, newId, now) && CommandTakes(b, d, None, newId, now)
    ensures a == b
  {
  }

  lemma NewCommandMeans(cs: Commands, hosts: Hosts, d: CommandDraft, newId: string, now: nat)
    requires d.id.None?
    ensures var (r, c) := (ApplyCommand(cs, hosts, d, newId, now), CommandFromDraft(d, None, newId, now));
      && (r.Ok? <==>
           ValidCommandDraft(d) && (d.hostId.Some? ==> HasHost(hosts, d.hostId.value)) && CommandNameIsFree(cs, d))
      && (r.Ok? ==> r.value == cs + [c]) && CommandTakes(c, d, None, newId, now)
  {
    CommandNameTaken(cs, d);
    MadeCommand(d, None, newId, now);
  }

  lemma ImportCommandMeans(cs: Commands, x: BatchCommand, hosts: Hosts, ids: map<string, string>, existing: set<string>,
                           points: (HostRef, string) -> bool, now: nat)
    requires Resolves(points, ids, existing)
    ensures var r := ImportCommand(cs, x, hosts, ids, existing, now);
      && (r.Ok? ==> exists c :: GoodCommand(cs, x, c, hosts, points, now))
      && (forall c | GoodCommand(cs, x, c, hosts, points, now) :: r == Ok(cs + [c]))
  {
    var scope := ResolveScope(x.host, ids, existing);
    assert forall hostId :: ScopePoints(x.host, hostId, points) <==> scope == Ok(hostId);
    if x.planned.draft.id.None? && scope.Ok? {
      var d := x.planned.draft.(hostId := scope.value);
      NewCommandMeans(cs, hosts, d, x.planned.newId, now);
      var made := CommandFromDraft(d, None, x.planned.newId, now);
      forall c | GoodCommand(cs, x, c, hosts, points, now) ensures c == made {
        assert c.hostId == scope.value;
        CommandTakesOnce(c, made, d, x.planned.newId, now);
      }
      if ImportCommand(cs, x, hosts, ids, existing, now).Ok? { assert GoodCommand(cs, x, made, hosts, points, now); }
    } else {
      forall c ensures !GoodCommand(cs, x, c, hosts, points, now) { }
    }
  }

  ghost predicate CommandsListed(base: Commands, xs: seq<BatchCommand>, hosts: Hosts, points: (HostRef, string) -> bool,
                                 now: nat, after: Commands) {
    Listed(base, xs, (cs, x, c) => GoodCommand(cs, x, c, hosts, points, now), after, |xs|)
  }

  lemma CommandsMean(base: Commands, xs: seq<BatchCommand>, hosts: Hosts, ids: map<string, string>,
      existing: set<string>,
                     points: (HostRef, string) -> bool, now: nat)
    requires Resolves(points, ids, existing)
    ensures forall after :: ImportCommands(base, xs, hosts, ids, existing, now, |xs|) == Ok(after)
                            <==> CommandsListed(base, xs, hosts, points, now, after)
  {
    var step := (s, x) => ImportCommand(s, x, hosts, ids, existing, now);
    var good := (cs, x, c) => GoodCommand(cs, x, c, hosts, points, now);
    forall s, x | step(s, x).Ok? ensures exists c :: good(s, x, c) {
      ImportCommandMeans(s, x, hosts, ids, existing, points, now);
      var c :| GoodCommand(s, x, c, hosts, points, now);
      assert good(s, x, c);
    }
    forall s, x, c | good(s, x, c) ensures step(s, x) == Ok(s + [c]) {
      ImportCommandMeans(s, x, hosts, ids, existing, points, now);
    }
    PhaseMeans(base, xs, step, good);
  }

  // ---- Whole batches -------------------------------------------------------------------------------------------

  ghost function Points(s: PersistedState, b: Batch): (points: (HostRef, string) -> bool) {
    (ref, id) => PointsTo(s, b, ref, id)
  }

  lemma PointsResolve(s: PersistedState, b: Batch, a: Admitted)
    requires AdmittedSoFar(s.hosts, b, a, |b.hosts|) && NewIds(s.hosts, HostPlan(b))
    ensures Resolves(Points(s, b), a.ids, HostIds(s.hosts))
  {
    forall ref, id ensures Points(s, b)(ref, id) <==> ResolveImportHost(ref, a.ids, HostIds(s.hosts)) == Ok(id) {
      ResolvedPointsTo(s, b, a, ref);
      if PointsTo(s, b, ref, id) && ref.Imported? {
        var k :| 0 <= k < |b.hosts| && b.hosts[k].sourceId == ref.sourceId && b.hosts[k].planned.newId == id;
        assert ref.sourceId in a.ids && a.ids[ref.sourceId] == id;
      }
    }
  }

  /** What of a batch can be told without the state it goes into. */
  predicate BatchAdmissible(b: Batch) {
    && !(b.hosts == [] && b.tunnels == [] && b.commands == [] && b.settings.None?)
    && SourcesGood(b.hosts, |b.hosts|) && (b.settings.Some? ==> b.settings.value.Ok?)
  }

  /** `s'` is `s` with the whole batch added: the hosts with their jumps led, then the tunnels and presets
      where their references point, the settings, and the hash of the source. */
  ghost predicate BatchImported(s: PersistedState, b: Batch, now: nat, s': PersistedState) {
    && HostsImported(s.hosts, HostPlan(b), now, s'.hosts)
    && TunnelsListed(s.tunnels, b.tunnels, s'.hosts, Points(s, b), now, s'.tunnels)
    && CommandsListed(s.commands, b.commands, s'.hosts, Points(s, b), now, s'.commands)
    && s'.settings == (if b.settings.Some? && b.settings.value.Ok? then b.settings.value.value else s.settings)
    && s'.schemaVersion == s.schemaVersion && s'.hashes == s.hashes + [Lower(b.sourceHash)]
  }

  lemma BatchHostsMean(s: PersistedState, b: Batch, order: seq<string>, now: nat)
    requires Sound(s) && NewIds(s.hosts, HostPlan(b)) && Visits(order, HostPlan(b)) && DistinctIds(order)
    ensures var r := ImportBatchHosts(s, b, order, now);
      && (r.Ok? <==> SourcesGood(b.hosts, |b.hosts|) && exists after :: HostsImported(s.hosts, HostPlan(b), now, after))
      && (r.Ok? ==> HostsImported(s.hosts, HostPlan(b), now, r.value.hosts)
                    && forall after :: HostsImported(s.hosts, HostPlan(b), now, after) ==> after == r.value.hosts)
  {
    AdmittedDrafts(s.hosts, b, now, |b.hosts|);
    ImportMeans(s.hosts, HostPlan(b), order, now);
    BatchHostsAre(s, b, order, now);
  }

  lemma BatchHostsAre(s: PersistedState, b: Batch, order: seq<string>, now: nat)
    requires var (r, applied) := (AdmitHosts(s.hosts, b.hosts, now, |b.hosts|),
      ApplyDrafts(s.hosts, HostPlan(b), now, |b.hosts|));
      && (r.Ok? <==> applied.Ok? && SourcesGood(b.hosts, |b.hosts|))
      && (r.Ok? ==> r.value.hosts == applied.value)
    ensures var (r, imported) := (ImportBatchHosts(s, b, order, now), ImportHosts(s.hosts, HostPlan(b), order, now));
      && (r.Ok? <==> imported.Ok? && SourcesGood(b.hosts, |b.hosts|))
      && (r.Ok? ==> r.value.hosts == imported.value)
  {
  }

  lemma BatchRecordsMean(s: PersistedState, b: Batch, a: Admitted, now: nat)
    requires Resolves(Points(s, b), a.ids, HostIds(s.hosts)) && (b.settings.Some? ==> b.settings.value.Ok?)
    requires HostsImported(s.hosts, HostPlan(b), now, a.hosts)
    requires forall after :: HostsImported(s.hosts, HostPlan(b), now, after) ==> after == a.hosts
    ensures forall s' :: ImportBatchRecords(s, b, a, now) == Ok(s') <==> BatchImported(s, b, now, s')
  {
    TunnelsMean(s.tunnels, b.tunnels, a.hosts, a.ids, HostIds(s.hosts), Points(s, b), now);
    CommandsMean(s.commands, b.commands, a.hosts, a.ids, HostIds(s.hosts), Points(s, b), now);
    forall s' ensures ImportBatchRecords(s, b, a, now) == Ok(s') <==> BatchImported(s, b, now, s') { }
  }

  lemma NewBatchUnfolds(s: PersistedState, b: Batch, order: seq<string>, now: nat)
    ensures var hosts := ImportBatchHosts(s, b, order, now);
      ImportNewBatch(s, b, order, now) ==
        if EmptyBatch(b) then Err(Validation) else if hosts.Err? then Err(hosts.error)
        else ImportBatchRecords(s, b, hosts.value, now)
  {
  }

  lemma BadSettings(s: PersistedState, b: Batch, a: Admitted, now: nat)
    requires b.settings.Some? && b.settings.value.Err?
    ensures ImportBatchRecords(s, b, a, now).Err?
  {
  }

  lemma BatchWithHosts(s: PersistedState, b: Batch, order: seq<string>, now: nat, a: Admitted)
    requires Sound(s) && BatchIdsNew(s, b, order) && DistinctIds(order) && ImportBatchHosts(s, b, order, now) == Ok(a)
    ensures SourcesGood(b.hosts, |b.hosts|)
    ensures (b.settings.Some? ==> b.settings.value.Ok?) ==>
      forall s' :: ImportBatchRecords(s, b, a, now) == Ok(s') <==> BatchImported(s, b, now, s')
  {
    BatchHostsMean(s, b, order, now);
    ImportBatchHostsKeeps(s, b, order, now);
    PointsResolve(s, b, a);
    if b.settings.Some? ==> b.settings.value.Ok? { BatchRecordsMean(s, b, a, now); }
  }

  /** A batch goes into a sound state if and only if it is admissible and there is a state with all of it
      added; that state is the outcome. */
  lemma BatchMeans(s: PersistedState, b: Batch, order: seq<string>, now: nat)
    requires Sound(s) && BatchIdsNew(s, b, order) && DistinctIds(order)
    ensures forall s' :: ImportNewBatch(s, b, order, now) == Ok(s') <==>
      BatchAdmissible(b) && BatchImported(s, b, now, s')
  {
    NewBatchUnfolds(s, b, order, now);
    var hosts := ImportBatchHosts(s, b, order, now);
    if hosts.Ok? {
      BatchWithHosts(s, b, order, now, hosts.value);
      if b.settings.Some? && b.settings.value.Err? { BadSettings(s, b, hosts.value, now); }
    } else {
      BatchHostsMean(s, b, order, now);
    }
  }

  /** Importing a batch succeeds exactly if its hash is well-formed, no deletion is under way, and it was
      imported before, in which case nothing changes, or it goes into the state, which can be written. */
  lemma ImportBatchOutcome(r: Repo, b: Batch, order: seq<string>, now: nat, disk: Option<Error>)
    requires RepoInv(r) && BatchIdsNew(r.state, b, order) && DistinctIds(order)
    ensures var (r', failed) := Next(r, ImportBatch(b, order, now, disk));
      var before := exists h :: h in r.state.hashes && SameButCase(h, b.sourceHash);
      && (failed.None? <==>
            && ValidHash(b.sourceHash) && r.deleting == {}
            && (before || (BatchAdmissible(b)
                 && exists s' :: BatchImported(r.state, b, now, s') && CanWrite(s', disk))))
      && (if failed.Some? || before then r' == r
          else r'.deleting == r.deleting && BatchImported(r.state, b, now, r'.state))
  {
    ImportBatchStep(r, b, order, now, disk);
    BatchMeans(r.state, b, order, now);
    forall h ensures EqIgnoreCase(h, b.sourceHash) <==> SameButCase(h, b.sourceHash) {
      EqualIsSameButCase(h, b.sourceHash);
    }
    if ValidHash(b.sourceHash) {
      ImportNewBatchKeeps(r.state, b, order, now);
      CommitOfSound(r, ImportNewBatch(r.state, b, order, now), disk);
    }
  }
}
