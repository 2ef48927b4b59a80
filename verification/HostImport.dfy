/** Importing several hosts at once: all drafts first, then every jump, then every role, so
    that a jump may name a host that appears later in the batch. */
module HostImport {
  import opened Prelude
  import opened Strings
  import opened Profiles
  import opened ProxyJump

  /** A draft together with the id drawn for it in case it creates a record. */
  datatype Planned<D> = Planned(draft: D, newId: string)

  function AppendPlanned(hosts: Hosts, p: Planned<HostDraft>, now: nat): (r: Result<Hosts, Error>) {
    if p.draft.id.Some? then Err(Validation) else
      var a := ApplyDraft(hosts, p.draft, p.newId, now);
      if a.Err? then Err(a.error) else Ok(a.value.hosts)
  }

  /** Appends the first `n` drafts. */
  function ApplyDrafts(hosts: Hosts, plan: seq<Planned<HostDraft>>, now: nat, n: nat): (r: Result<Hosts, Error>)
    requires n <= |plan|
  {
    Run(hosts, plan, (h, p) => AppendPlanned(h, p, now), n)
  }

  /** Normalises the jumps of the first `n` listed hosts, one after the other. */
  function NormalizeAll(hosts: Hosts, ids: seq<string>, n: nat): (r: Result<Hosts, Error>)
    requires n <= |ids|
  {
    Run(hosts, ids, (h, id) => NormalizeJumpFor(h, id), n)
  }

  function CheckRoles(hosts: Hosts, ids: seq<string>, n: nat): (r: Option<Error>)
    requires n <= |ids|
  {
    FirstError(ids, id => CheckRole(hosts, id), n)
  }

  /** Settles all new jumps, then checks all new roles; `order` is how the ids are visited. */
  function SettleImported(applied: Hosts, order: seq<string>): (r: Result<Hosts, Error>) {
    var normalized := NormalizeAll(applied, order, |order|);
    if normalized.Err? then normalized else
      var role := CheckRoles(normalized.value, order, |order|);
      if role.Some? then Err(role.value) else normalized
  }

  /** The whole host part of an import. */
  function ImportHosts(hosts: Hosts, plan: seq<Planned<HostDraft>>, order: seq<string>,
      now: nat): (r: Result<Hosts, Error>) {
    var applied := ApplyDrafts(hosts, plan, now, |plan|);
    if applied.Err? then applied else SettleImported(applied.value, order)
  }

  ghost predicate NewIds(hosts: Hosts, plan: seq<Planned<HostDraft>>) {
    && (forall k | 0 <= k < |plan| :: UnusedId(hosts, plan[k].newId))
    && (forall j, k | 0 <= j < k < |plan| :: plan[j].newId != plan[k].newId)
  }

  /** `order` visits the new hosts, in any order. */
  ghost predicate Visits(order: seq<string>, plan: seq<Planned<HostDraft>>) {
    && (forall id | id in order :: exists k :: 0 <= k < |plan| && plan[k].newId == id)
    && (forall k | 0 <= k < |plan| :: plan[k].newId in order)
  }

  // ---- Appending -----------------------------------------------------------------------------

  /** `after` is `before` followed by one host for each of the first `n` plans. */
  ghost predicate Appended(before: Hosts, after: Hosts, plan: seq<Planned<HostDraft>>, n: nat) {
    && n <= |plan|
    && |after| == |before| + n
    && (forall i | 0 <= i < |before| :: after[i] == before[i])
    && (forall i | |before| <= i < |after| :: after[i].id == plan[i - |before|].newId)
  }

  /** A good host list that continues `base` with the first `n` plans. */
  ghost predicate Extended(base: Hosts, hosts: Hosts, plan: seq<Planned<HostDraft>>, n: nat) {
    Appended(base, hosts, plan, n) && DistinctHosts(hosts) && IdsOk(hosts) && AllValid(hosts)
  }

  /** `after` is `hosts` with one more valid host that carries the planned id and a free alias. */
  ghost predicate AppendsOne(hosts: Hosts, p: Planned<HostDraft>, after: Hosts) {
    && |after| == |hosts| + 1 && after == Put(hosts, |hosts|, after[|hosts|])
    && var made := after[|hosts|];
    && made.id == p.newId && ValidHost(made)
    && forall h | h in hosts :: !EqIgnoreCase(h.alias, made.alias)
  }

  lemma AppendPlannedShape(hosts: Hosts, p: Planned<HostDraft>, now: nat)
    ensures var r := AppendPlanned(hosts, p, now); r.Ok? ==> AppendsOne(hosts, p, r.value)
  {
    if AppendPlanned(hosts, p, now).Ok? {
      var made := ApplyDraftShape(hosts, p.draft, p.newId, now, ApplyDraft(hosts, p.draft, p.newId, now).value);
    }
  }

  lemma AppendKeeps(base: Hosts, hosts: Hosts, plan: seq<Planned<HostDraft>>, n: nat, after: Hosts)
    requires n < |plan| && Extended(base, hosts, plan, n) && NewIds(base, plan)
    requires AppendsOne(hosts, plan[n], after)
    ensures Extended(base, after, plan, n + 1)
  {
    StillUnused(base, hosts, plan, n);
    PutEffect(hosts, |hosts|, after[|hosts|], None);
    PutKeepsValid(hosts, |hosts|, after[|hosts|]);
  }

  lemma ApplyDraftsKeeps(hosts: Hosts, plan: seq<Planned<HostDraft>>, now: nat, n: nat)
    requires n <= |plan| && NewIds(hosts, plan)
    requires DistinctHosts(hosts) && IdsOk(hosts) && AllValid(hosts)
    ensures var r := ApplyDrafts(hosts, plan, now, n); r.Ok? ==> Extended(hosts, r.value, plan, n)
  {
    var step := (h, p) => AppendPlanned(h, p, now);
    var does := (h, p, h') => AppendsOne(h, p, h');
    var keeps := (h: Hosts, k: nat) => Extended(hosts, h, plan, k);
    forall h, p | step(h, p).Ok? ensures does(h, p, step(h, p).value) { AppendPlannedShape(h, p, now); }
    forall h, h', k: nat | k < n && keeps(h, k) && does(h, plan[k], h') ensures keeps(h', k + 1) {
      AppendKeeps(hosts, h, plan, k, h');
    }
    RunKeeps(hosts, plan, step, n, does, keeps);
  }

  lemma StillUnused(base: Hosts, hosts: Hosts, plan: seq<Planned<HostDraft>>, n: nat)
    requires NewIds(base, plan) && n < |plan| && Appended(base, hosts, plan, n)
    ensures UnusedId(hosts, plan[n].newId)
  {
    forall h | h in hosts ensures h.id != plan[n].newId {
      var i :| 0 <= i < |hosts| && hosts[i] == h;
      if i < |base| { assert base[i] in base; }
    }
  }

  // ---- Normalising all jumps -----------------------------------------------------------------

  /** Hosts before `base` and hosts among the first `n` ids already jump at depth one. */
  ghost predicate SettledSoFar(hosts: Hosts, base: nat, ids: seq<string>, n: nat)
    requires n <= |ids|
  {
    forall i | 0 <= i < |hosts| && (i < base || hosts[i].id in ids[..n]) && hosts[i].proxyJump.Some? ::
      exists j: nat :: JumpsTo(hosts, i, j)
  }

  ghost predicate ListsNewHosts(hosts: Hosts, base: nat, ids: seq<string>) {
    && base <= |hosts|
    && (forall id | id in ids :: exists i :: base <= i < |hosts| && hosts[i].id == id)
    && (forall i | base <= i < |hosts| :: hosts[i].id in ids)
  }

  /** `now` is `start` with the first `n` listed jumps settled, the old hosts untouched. */
  ghost predicate Settling(start: Hosts, now: Hosts, base: nat, ids: seq<string>, n: nat) {
    && n <= |ids| && base <= |start|
    && JumpsRespelled(start, now) && now[..base] == start[..base]
    && AllValid(now) && SettledSoFar(now, base, ids, n)
  }

  /** `after` is `hosts` with the jump of one listed host settled. */
  ghost predicate SettlesOne(hosts: Hosts, id: string, after: Hosts) {
    forall i | 0 <= i < |hosts| && hosts[i].id == id && DistinctHosts(hosts) ::
      && JumpsRespelled(hosts, after)
      && (forall k | 0 <= k < |hosts| && k != i :: after[k] == hosts[k])
      && (hosts[i].proxyJump.Some? ==> exists j: nat :: JumpsTo(after, i, j))
      && (IdsOk(hosts) && AllValid(hosts) ==> AllValid(after))
  }

  lemma NormalizeShape(hosts: Hosts, id: string)
    ensures var r := NormalizeJumpFor(hosts, id); r.Ok? ==> SettlesOne(hosts, id, r.value)
  {
    var r := NormalizeJumpFor(hosts, id);
    if r.Ok? && DistinctHosts(hosts) {
      var i := IndexOfId(hosts, id).value;
      NormalizeEffect(hosts, i);
      if IdsOk(hosts) && AllValid(hosts) { NormalizeKeepsValid(hosts, i, r.value); }
    }
  }

  lemma SettleKeepsSettling(start: Hosts, before: Hosts, base: nat, ids: seq<string>, n: nat, after: Hosts)
    requires n < |ids| && ListsNewHosts(start, base, ids) && DistinctHosts(start) && IdsOk(start)
    requires Settling(start, before, base, ids, n) && SettlesOne(before, ids[n], after)
    ensures Settling(start, after, base, ids, n + 1)
  {
    RespelledKeepsIds(start, before);
    assert ids[n] in ids;
    var i :| base <= i < |start| && start[i].id == ids[n];
    assert before[i].id == ids[n];
    SettleOne(before, after, base, ids, n + 1, i);
    RespelledTransitive(start, before, after);
    SameFront(before, after, base, i);
  }

  lemma SameFront(before: Hosts, after: Hosts, base: nat, at: nat)
    requires base <= at < |before| == |after| && forall k | 0 <= k < |before| && k != at :: after[k] == before[k]
    ensures after[..base] == before[..base]
  {
  }

  lemma NormalizeAllSettles(hosts: Hosts, base: nat, ids: seq<string>, n: nat)
    requires n <= |ids| && ListsNewHosts(hosts, base, ids) && SettledSoFar(hosts, base, ids, 0)
    requires DistinctHosts(hosts) && IdsOk(hosts) && AllValid(hosts)
    ensures var r := NormalizeAll(hosts, ids, n); r.Ok? ==> Settling(hosts, r.value, base, ids, n)
  {
    var step := (h, id) => NormalizeJumpFor(h, id);
    var does := (h, id, h') => SettlesOne(h, id, h');
    var keeps := (h: Hosts, k: nat) => Settling(hosts, h, base, ids, k);
    forall h, id | step(h, id).Ok? ensures does(h, id, step(h, id).value) { NormalizeShape(h, id); }
    forall h, h', k: nat | k < n && keeps(h, k) && does(h, ids[k], h') ensures keeps(h', k + 1) {
      SettleKeepsSettling(hosts, h, base, ids, k, h');
    }
    RunKeeps(hosts, ids, step, n, does, keeps);
  }

  lemma RespelledTransitive(a: Hosts, b: Hosts, c: Hosts)
    requires JumpsRespelled(a, b) && JumpsRespelled(b, c)
    ensures JumpsRespelled(a, c)
  {
    forall i | 0 <= i < |a|
      ensures c[i] == a[i].(proxyJump := c[i].proxyJump) && (c[i].proxyJump.Some? <==> a[i].proxyJump.Some?)
    {
      assert b[i] == a[i].(proxyJump := b[i].proxyJump);
    }
  }

  lemma SettleOne(before: Hosts, after: Hosts, base: nat, ids: seq<string>, n: nat, at: nat)
    requires 0 < n <= |ids| && base <= at < |before| && before[at].id == ids[n - 1]
    requires DistinctHosts(before) && JumpsRespelled(before, after) && SettledSoFar(before, base, ids, n - 1)
    requires forall k | 0 <= k < |before| && k != at :: after[k] == before[k]
    requires before[at].proxyJump.Some? ==> exists j: nat :: JumpsTo(after, at, j)
    ensures SettledSoFar(after, base, ids, n)
  {
    assert after[at].id == before[at].id;
    forall i | 0 <= i < |after| && (i < base || after[i].id in ids[..n]) && after[i].proxyJump.Some?
      ensures exists j: nat :: JumpsTo(after, i, j)
    {
      if i != at {
        assert before[i].id != before[at].id;
        assert ids[..n] == ids[..n - 1] + [ids[n - 1]];
        var j: nat :| JumpsTo(before, i, j);
        assert after[j].id == before[j].id;
        assert JumpsTo(after, i, j);
      }
    }
  }

  lemma SettleImportedKeeps(hosts: Hosts, applied: Hosts, plan: seq<Planned<HostDraft>>, order: seq<string>)
    requires Extended(hosts, applied, plan, |plan|) && Visits(order, plan) && DepthOne(hosts)
    ensures var r := SettleImported(applied, order);
      r.Ok? ==> Extended(hosts, r.value, plan, |plan|) && DepthOne(r.value)
  {
    AppendedLists(hosts, applied, plan, order);
    AppendedSettled(hosts, applied, plan, order);
    NormalizeAllSettles(applied, |hosts|, order, |order|);
    var normalized := NormalizeAll(applied, order, |order|);
    if normalized.Ok? { SettlingCompletes(hosts, applied, normalized.value, plan, order); }
  }

  /** A successful import takes a good host list to a good one and leaves the old hosts as
      they were, even when imports name jumps that appear later in the batch. */
  lemma ImportHostsKeeps(hosts: Hosts, plan: seq<Planned<HostDraft>>, order: seq<string>, now: nat)
    requires NewIds(hosts, plan) && Visits(order, plan)
    requires DistinctHosts(hosts) && IdsOk(hosts) && AllValid(hosts) && DepthOne(hosts)
    ensures var r := ImportHosts(hosts, plan, order, now);
      r.Ok? ==> Extended(hosts, r.value, plan, |plan|) && DepthOne(r.value)
  {
    var applied := ApplyDrafts(hosts, plan, now, |plan|);
    ApplyDraftsKeeps(hosts, plan, now, |plan|);
    if applied.Ok? { SettleImportedKeeps(hosts, applied.value, plan, order); }
  }

  lemma SettlingCompletes(hosts: Hosts, applied: Hosts, after: Hosts, plan: seq<Planned<HostDraft>>, order: seq<string>)
    requires Extended(hosts, applied, plan, |plan|) && ListsNewHosts(applied, |hosts|, order)
    requires Settling(applied, after, |hosts|, order, |order|)
    ensures Extended(hosts, after, plan, |plan|) && DepthOne(after)
  {
    RespelledKeepsIds(applied, after);
    assert order[..|order|] == order;
    forall i | 0 <= i < |hosts| ensures after[i] == hosts[i] {
      assert after[i] == after[..|hosts|][i] == applied[i];
    }
  }

  lemma AppendedLists(hosts: Hosts, applied: Hosts, plan: seq<Planned<HostDraft>>, order: seq<string>)
    requires Appended(hosts, applied, plan, |plan|) && Visits(order, plan)
    ensures ListsNewHosts(applied, |hosts|, order)
  {
    forall id | id in order ensures exists i :: |hosts| <= i < |applied| && applied[i].id == id {
      var k :| 0 <= k < |plan| && plan[k].newId == id;
      assert applied[|hosts| + k].id == id;
    }
  }

  lemma AppendedSettled(hosts: Hosts, applied: Hosts, plan: seq<Planned<HostDraft>>, order: seq<string>)
    requires Appended(hosts, applied, plan, |plan|) && DepthOne(hosts)
    ensures SettledSoFar(applied, |hosts|, order, 0)
  {
    forall i | 0 <= i < |applied| && (i < |hosts| || applied[i].id in order[..0]) && applied[i].proxyJump.Some?
      ensures exists j: nat :: JumpsTo(applied, i, j)
    {
      var j: nat :| JumpsTo(hosts, i, j);
      assert JumpsTo(applied, i, j);
    }
  }

  // ---- The order of the visits does not matter ---------------------------------------------

  ghost predicate DistinctIds(ids: seq<string>) {
    forall j, k | 0 <= j < k < |ids| :: ids[j] != ids[k]
  }

  /** Every listed id names a host, and its jump can be settled in the list as it stands. */
  ghost predicate AllSettle(hosts: Hosts, ids: seq<string>, n: nat)
    requires n <= |ids|
  {
    forall i | 0 <= i < |hosts| && hosts[i].id in ids[..n] :: SettledJump(hosts, hosts[i]).Ok?
  }

  /** All listed jumps settled at once, each against the original list. */
  function SettledAtOnce(hosts: Hosts, ids: seq<string>, n: nat): (r: Hosts)
    requires n <= |ids|
    ensures |r| == |hosts|
  {
    seq(|hosts|, i requires 0 <= i < |hosts| => SettledHost(hosts, hosts[i], ids[..n]))
  }

  function SettledHost(hosts: Hosts, h: Host, ids: seq<string>): Host {
    var jump := SettledJump(hosts, h);
    if h.id in ids && jump.Ok? then h.(proxyJump := jump.value) else h
  }

  lemma SettledJumpRespelled(before: Hosts, after: Hosts, h: Host)
    requires JumpsRespelled(before, after)
    ensures SettledJump(after, h) == SettledJump(before, h)
  {
    ResolveRespelled(before, after, h.proxyJump);
    var r := ResolveReference(before, h.proxyJump);
    if r.Ok? && r.value.Some? {
      assert after[r.value.value] == before[r.value.value].(proxyJump := after[r.value.value].proxyJump);
    }
  }

  lemma SettledAtOnceRespells(hosts: Hosts, ids: seq<string>, n: nat)
    requires n <= |ids|
    ensures JumpsRespelled(hosts, SettledAtOnce(hosts, ids, n))
  {
  }

  /** Settling the jumps one by one is settling them all at once, and fails exactly when
      one of them cannot be settled. */
  lemma {:induction false} NormalizeAllIsAtOnce(hosts: Hosts, ids: seq<string>, n: nat)
    requires n <= |ids| && DistinctIds(ids) && DistinctHosts(hosts)
    requires forall id | id in ids :: IndexOfId(hosts, id).Some?
    ensures NormalizeAll(hosts, ids, n) ==
      if AllSettle(hosts, ids, n) then Ok(SettledAtOnce(hosts, ids, n)) else Err(Validation)
  {
    if n == 0 {
      assert SettledAtOnce(hosts, ids, 0) == hosts;
    } else {
      NormalizeAllIsAtOnce(hosts, ids, n - 1);
      assert ids[n - 1] in ids;
      assert ids[..n] == ids[..n - 1] + [ids[n - 1]];
      SettleNext(hosts, ids, n, IndexOfId(hosts, ids[n - 1]).value);
    }
  }

  lemma SettleNext(hosts: Hosts, ids: seq<string>, n: nat, at: nat)
    requires 0 < n <= |ids| && DistinctIds(ids) && DistinctHosts(hosts)
    requires at < |hosts| && hosts[at].id == ids[n - 1]
    requires ids[..n] == ids[..n - 1] + [ids[n - 1]]
    ensures AllSettle(hosts, ids, n) <==> AllSettle(hosts, ids, n - 1) && SettledJump(hosts, hosts[at]).Ok?
    ensures var before := SettledAtOnce(hosts, ids, n - 1);
      NormalizeJumpFor(before, ids[n - 1]) ==
        if SettledJump(hosts, hosts[at]).Ok? then Ok(SettledAtOnce(hosts, ids, n)) else Err(Validation)
  {
    var before := SettledAtOnce(hosts, ids, n - 1);
    SettledAtOnceRespells(hosts, ids, n - 1);
    assert before[at] == hosts[at] by {
      assert forall k | 0 <= k < n - 1 :: ids[k] != ids[n - 1];
    }
    assert forall i | 0 <= i < |hosts| && i != at :: hosts[i].id != hosts[at].id;
    assert forall i | 0 <= i < |hosts| :: before[i].id == hosts[i].id;
    assert IndexOfId(before, ids[n - 1]) == Some(at);
    SettledJumpRespelled(hosts, before, hosts[at]);
    if SettledJump(hosts, hosts[at]).Ok? {
      assert SettledAtOnce(hosts, ids, n)
        == before[at := before[at].(proxyJump := SettledJump(hosts, hosts[at]).value)];
    }
  }

  lemma CheckRolesIsConjunction(hosts: Hosts, ids: seq<string>, n: nat)
    requires n <= |ids| && forall id | id in ids :: IndexOfId(hosts, id).Some?
    ensures CheckRoles(hosts, ids, n) ==
      if forall id | id in ids[..n] :: CheckRole(hosts, id).None? then None else Some(Validation)
  {
    var check := id => CheckRole(hosts, id);
    forall id | id in ids ensures check(id) == None || check(id) == Some(Validation) { CheckRoleError(hosts, id); }
    FirstErrorIsConjunction(ids, check, n, Validation);
  }

  lemma CheckRoleError(hosts: Hosts, id: string)
    requires IndexOfId(hosts, id).Some?
    ensures CheckRole(hosts, id).Some? ==> CheckRole(hosts, id).value == Validation
  {
  }

  /** The outcome of an import does not depend on the order in which the hash map of new
      ids happens to be visited. */
  lemma ImportOrderIrrelevant(hosts: Hosts, plan: seq<Planned<HostDraft>>, a: seq<string>, b: seq<string>, now: nat)
    requires NewIds(hosts, plan) && DistinctHosts(hosts) && IdsOk(hosts) && AllValid(hosts)
    requires Visits(a, plan) && Visits(b, plan) && DistinctIds(a) && DistinctIds(b)
    ensures ImportHosts(hosts, plan, a, now) == ImportHosts(hosts, plan, b, now)
  {
    var applied := ApplyDrafts(hosts, plan, now, |plan|);
    if applied.Ok? {
      ApplyDraftsKeeps(hosts, plan, now, |plan|);
      SameVisits(hosts, applied.value, plan, a, b);
    }
  }

  lemma VisitsExisting(hosts: Hosts, applied: Hosts, plan: seq<Planned<HostDraft>>, order: seq<string>)
    requires Appended(hosts, applied, plan, |plan|) && Visits(order, plan)
    ensures forall id | id in order :: IndexOfId(applied, id).Some?
  {
    forall id | id in order ensures IndexOfId(applied, id).Some? {
      var k :| 0 <= k < |plan| && plan[k].newId == id;
      assert applied[|hosts| + k].id == id;
    }
  }

  lemma SameVisits(hosts: Hosts, applied: Hosts, plan: seq<Planned<HostDraft>>, a: seq<string>, b: seq<string>)
    requires Appended(hosts, applied, plan, |plan|) && DistinctHosts(applied)
    requires Visits(a, plan) && Visits(b, plan) && DistinctIds(a) && DistinctIds(b)
    ensures NormalizeAll(applied, a, |a|) == NormalizeAll(applied, b, |b|)
    ensures var r := NormalizeAll(applied, a, |a|);
      r.Ok? ==> CheckRoles(r.value, a, |a|) == CheckRoles(r.value, b, |b|)
  {
    VisitsExisting(hosts, applied, plan, a);
    VisitsExisting(hosts, applied, plan, b);
    NormalizeAllIsAtOnce(applied, a, |a|);
    NormalizeAllIsAtOnce(applied, b, |b|);
    assert forall x :: x in a <==> x in b;
    SameSettled(applied, a, b);
    SettledAtOnceRespells(applied, a, |a|);
    SameRoles(applied, SettledAtOnce(applied, a, |a|), a, b);
  }

  lemma SameSettled(hosts: Hosts, a: seq<string>, b: seq<string>)
    requires forall x :: x in a <==> x in b
    ensures SettledAtOnce(hosts, a, |a|) == SettledAtOnce(hosts, b, |b|)
    ensures AllSettle(hosts, a, |a|) == AllSettle(hosts, b, |b|)
  {
    assert a[..|a|] == a && b[..|b|] == b;
    assert forall h :: SettledHost(hosts, h, a) == SettledHost(hosts, h, b);
  }

  lemma SameRoles(before: Hosts, after: Hosts, a: seq<string>, b: seq<string>)
    requires JumpsRespelled(before, after)
    requires forall id | id in a || id in b :: IndexOfId(before, id).Some?
    requires forall x :: x in a <==> x in b
    ensures CheckRoles(after, a, |a|) == CheckRoles(after, b, |b|)
  {
    forall id | id in a || id in b ensures IndexOfId(after, id).Some? {
      IndexesRespelled(before, after, id);
    }
    CheckRolesIsConjunction(after, a, |a|);
    CheckRolesIsConjunction(after, b, |b|);
    assert a[..|a|] == a && b[..|b|] == b;
  }
}
