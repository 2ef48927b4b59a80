/** What requests other than deletions do to the set of hosts: they remove none, they leave the
    marks alone, and a host they add carries an id drawn for it. */
module HostRequests {
  import opened Prelude
  import opened Profiles
  import opened ProxyJump
  import opened HostImport
  import opened HostRecords
  import opened Repository
  import opened RepositorySteps

  /** Only `delete_host` prepares, finishes or aborts a deletion. */
  predicate IsRequest(step: Step) { !step.BeginDeletion? && !step.FinishDeletion? && !step.AbortDeletion? }

  /** `id` was drawn for a host this step may create. */
  ghost predicate DrawsHost(step: Step, id: string) {
    match step
    case SaveHost(_, newId, _, _) => newId == id
    case ImportHostList(plan, _, _) => exists k :: 0 <= k < |plan| && plan[k].newId == id
    case ImportBatch(b, _, _, _) => exists k :: 0 <= k < |b.hosts| && b.hosts[k].planned.newId == id
    case _ => false
  }

  /** Every host before is there after, and a host that was not there before carries `id`s drawn. */
  ghost predicate GrowsBy(before: Hosts, after: Hosts, step: Step) {
    && (forall id | HasHost(before, id) :: HasHost(after, id))
    && (forall id | HasHost(after, id) :: HasHost(before, id) || DrawsHost(step, id))
  }

  predicate SameIds(a: Hosts, b: Hosts) { |a| == |b| && forall k | 0 <= k < |a| :: a[k].id == b[k].id }

  lemma FollowKeepsIds(before: Hosts, d: HostDraft, a: Applied)
    requires a.at < |a.hosts|
    ensures SameIds(a.hosts, FollowRename(before, d, a))
  {
  }

  lemma SettleKeepsIds(hosts: Hosts, at: nat)
    requires at < |hosts|
    ensures Settle(hosts, at).Ok? ==> SameIds(hosts, Settle(hosts, at).value)
  {
  }

  /** `after` keeps the ids in place; a host more carries the drawn id. */
  predicate IdsExtend(before: Hosts, after: Hosts, newId: string) {
    && |before| <= |after| <= |before| + 1
    && (forall k | 0 <= k < |before| :: after[k].id == before[k].id)
    && (|after| > |before| ==> after[|before|].id == newId)
  }

  lemma PutIds(hosts: Hosts, at: nat, made: Host, newId: string)
    requires at <= |hosts| && made.id == if at < |hosts| then hosts[at].id else newId
    ensures IdsExtend(hosts, Put(hosts, at, made), newId)
  {
  }

  lemma SameIdsExtend(before: Hosts, a: Hosts, b: Hosts, newId: string)
    requires IdsExtend(before, a, newId) && SameIds(a, b)
    ensures IdsExtend(before, b, newId)
  {
  }

  lemma UpdateIds(hosts: Hosts, d: HostDraft, newId: string, now: nat, r: Applied)
    requires UpdateHost(hosts, d, newId, now) == Ok(r)
    ensures IdsExtend(hosts, r.hosts, newId)
  {
    var a := ApplyDraft(hosts, d, newId, now).value;
    var made := ApplyDraftShape(hosts, d, newId, now, a);
    PutIds(hosts, a.at, made, newId);
    FollowedIds(hosts, d, a, newId);
    UpdateSettles(hosts, d, newId, now, a, r);
    SettleKeepsIds(FollowRename(hosts, d, a), a.at);
    SameIdsExtend(hosts, FollowRename(hosts, d, a), r.hosts, newId);
  }

  lemma FollowedIds(hosts: Hosts, d: HostDraft, a: Applied, newId: string)
    requires a.at < |a.hosts| && IdsExtend(hosts, a.hosts, newId)
    ensures IdsExtend(hosts, FollowRename(hosts, d, a), newId)
  {
    FollowKeepsIds(hosts, d, a);
    SameIdsExtend(hosts, a.hosts, FollowRename(hosts, d, a), newId);
  }

  lemma UpdateSettles(hosts: Hosts, d: HostDraft, newId: string, now: nat, a: Applied, r: Applied)
    requires ApplyDraft(hosts, d, newId, now) == Ok(a) && UpdateHost(hosts, d, newId, now) == Ok(r)
    ensures Settle(FollowRename(hosts, d, a), a.at) == Ok(r.hosts)
  {
  }

  lemma SameFrontGrows(before: Hosts, after: Hosts, step: Step)
    requires |before| <= |after| && forall k | 0 <= k < |before| :: after[k].id == before[k].id
    requires forall k | |before| <= k < |after| :: DrawsHost(step, after[k].id)
    ensures GrowsBy(before, after, step)
  {
    forall id | HasHost(before, id) ensures HasHost(after, id) {
      var h :| h in before && h.id == id;
      var k :| 0 <= k < |before| && before[k] == h;
      assert after[k] in after;
    }
    forall id | HasHost(after, id) ensures HasHost(before, id) || DrawsHost(step, id) {
      var h :| h in after && h.id == id;
      var k :| 0 <= k < |after| && after[k] == h;
      if k < |before| { assert before[k] in before; }
    }
  }

  lemma SavedHosts(r: Repo, d: HostDraft, newId: string, now: nat)
    requires SaveHostState(r, d, newId, now).Ok?
    ensures var u := UpdateHost(r.state.hosts, d, newId, now);
      u.Ok? && SaveHostState(r, d, newId, now).value.hosts == u.value.hosts
  {
  }

  lemma SaveIds(r: Repo, d: HostDraft, newId: string, now: nat)
    requires SaveHostState(r, d, newId, now).Ok?
    ensures IdsExtend(r.state.hosts, SaveHostState(r, d, newId, now).value.hosts, newId)
  {
    SavedHosts(r, d, newId, now);
    UpdateIds(r.state.hosts, d, newId, now, UpdateHost(r.state.hosts, d, newId, now).value);
  }

  lemma ExtendGrows(before: Hosts, after: Hosts, newId: string, step: Step)
    requires IdsExtend(before, after, newId) && DrawsHost(step, newId)
    ensures GrowsBy(before, after, step)
  {
    SameFrontGrows(before, after, step);
  }

  lemma SaveGrows(r: Repo, step: Step)
    requires step.SaveHost? && Proposed(r, step).Ok?
    ensures GrowsBy(r.state.hosts, Proposed(r, step).value.hosts, step)
  {
    SaveIds(r, step.host, step.newId, step.now);
    ExtendGrows(r.state.hosts, Proposed(r, step).value.hosts, step.newId, step);
  }

  lemma ListGrows(r: Repo, step: Step)
    requires Sound(r.state) && StepIdsNew(r.state, step) && step.ImportHostList? && Proposed(r, step).Ok?
    ensures GrowsBy(r.state.hosts, Proposed(r, step).value.hosts, step)
  {
    VisitsPlanned(step.plan);
    ImportHostsKeeps(r.state.hosts, step.plan, PlannedIds(step.plan), step.now);
    SameFrontGrows(r.state.hosts, Proposed(r, step).value.hosts, step);
  }

  lemma BatchGrows(r: Repo, step: Step)
    requires Sound(r.state) && StepIdsNew(r.state, step) && step.ImportBatch? && Proposed(r, step).Ok?
    ensures GrowsBy(r.state.hosts, Proposed(r, step).value.hosts, step)
  {
    var before, after := r.state.hosts, Proposed(r, step).value.hosts;
    ImportNewBatchKeeps(r.state, step.batch, step.order, step.now);
    forall k | 0 <= k < |before| ensures after[k].id == before[k].id {
      assert after[k] == after[..|before|][k] == before[k];
    }
    SameFrontGrows(before, after, step);
  }

  lemma OthersKeepHosts(r: Repo, step: Step)
    requires IsRequest(step) && !step.SaveHost? && !step.ImportHostList? && !step.ImportBatch? && Proposed(r, step).Ok?
    ensures Proposed(r, step).value.hosts == r.state.hosts
  {
  }

  lemma ProposedGrows(r: Repo, step: Step)
    requires Sound(r.state) && StepIdsNew(r.state, step) && IsRequest(step) && Proposed(r, step).Ok?
    ensures GrowsBy(r.state.hosts, Proposed(r, step).value.hosts, step)
  {
    if step.SaveHost? { SaveGrows(r, step); }
    else if step.ImportHostList? { ListGrows(r, step); }
    else if step.ImportBatch? { BatchGrows(r, step); }
    else { OthersKeepHosts(r, step); }
  }

  lemma RequestCommits(r: Repo, step: Step)
    requires IsRequest(step)
    ensures var r' := Next(r, step).0;
      r' == r || (Proposed(r, step).Ok? && r' == r.(state := Proposed(r, step).value))
  {
  }

  /** A request leaves the marks alone and removes no host; what it adds was drawn for it. */
  lemma RequestKeepsHosts(r: Repo, step: Step)
    requires Sound(r.state) && StepIdsNew(r.state, step) && IsRequest(step)
    ensures Next(r, step).0.deleting == r.deleting
    ensures GrowsBy(r.state.hosts, Next(r, step).0.state.hosts, step)
  {
    RequestCommits(r, step);
    if Next(r, step).0 != r { ProposedGrows(r, step); }
  }
}
