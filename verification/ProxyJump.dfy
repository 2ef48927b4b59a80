/** ProxyJump references between saved hosts: resolution, normalisation to ids, and the
    depth-one graph every write has to keep. */
module ProxyJump {
  import opened Prelude
  import opened Strings
  import opened Profiles

  type Hosts = seq<Host>

  // ---- What a repository state guarantees --------------------------------------------------

  /** The textual form of a generated id. */
  predicate IsId(s: string) {
    && |s| == 36 && s[0] != '-'
    && forall i | 0 <= i < |s| :: s[i] == '-' || 'a' <= s[i] <= 'f' || '0' <= s[i] <= '9'
  }

  predicate DistinctHosts(hosts: Hosts) {
    forall i, j | 0 <= i < j < |hosts| :: hosts[i].id != hosts[j].id && !EqIgnoreCase(hosts[i].alias, hosts[j].alias)
  }

  ghost predicate IdsOk(hosts: Hosts) { forall h | h in hosts :: IsId(h.id) }

  predicate AllValid(hosts: Hosts) { forall h | h in hosts :: ValidHost(h) }

  /** Host `i` connects through host `j`, and `j` connects directly. */
  ghost predicate JumpsTo(hosts: Hosts, i: nat, j: nat) {
    && i < |hosts| && j < |hosts| && i != j
    && hosts[i].proxyJump == Some(hosts[j].id)
    && hosts[j].proxyJump.None?
  }

  /** Every stored jump is the id of an existing, different host that itself has no jump. */
  ghost predicate DepthOne(hosts: Hosts) {
    forall i | 0 <= i < |hosts| && hosts[i].proxyJump.Some? :: exists j: nat :: JumpsTo(hosts, i, j)
  }

  // ---- Lookups -----------------------------------------------------------------------------

  /** The first host with this id. */
  function IndexOfId(hosts: Hosts, id: string): (r: Option<nat>)
    ensures r.Some? ==> r.value < |hosts| && hosts[r.value].id == id && forall k | 0 <= k < r.value :: hosts[k].id != id
    ensures r.None? ==> forall k | 0 <= k < |hosts| :: hosts[k].id != id
  {
    FindFirst(hosts, (h: Host) => h.id == id)
  }

  /** The first host whose alias is `alias`, ignoring case. */
  function IndexOfAlias(hosts: Hosts, alias: string): (r: Option<nat>)
    ensures r.Some? ==> r.value < |hosts| && EqIgnoreCase(hosts[r.value].alias, alias)
    ensures r.Some? ==> forall k | 0 <= k < r.value :: !EqIgnoreCase(hosts[k].alias, alias)
    ensures r.None? ==> forall k | 0 <= k < |hosts| :: !EqIgnoreCase(hosts[k].alias, alias)
  {
    FindFirst(hosts, (h: Host) => EqIgnoreCase(h.alias, alias))
  }

  function BracketedHostname(h: Host): string {
    var n := h.hostname;
    if ':' in n && !(n != [] && n[0] == '[' && n[|n| - 1] == ']') then "[" + n + "]" else n
  }

  function EndpointWithPort(h: Host): string {
    h.username + "@" + BracketedHostname(h) + ":" + NatToString(h.port)
  }

  function Endpoint(h: Host): string {
    if h.port == 22 then h.username + "@" + BracketedHostname(h) else EndpointWithPort(h)
  }

  predicate IsEndpointOf(reference: string, h: Host) {
    Endpoint(h) == reference || EndpointWithPort(h) == reference
  }

  predicate OnlyEndpoint(hosts: Hosts, name: string, i: nat) {
    && i < |hosts| && IsEndpointOf(name, hosts[i])
    && forall k | 0 <= k < |hosts| && k != i :: !IsEndpointOf(name, hosts[k])
  }

  /** By id, then by alias ignoring case, then by an unambiguous `user@host[:port]`. */
  function ResolveReference(hosts: Hosts, reference: Option<string>): (r: Result<Option<nat>, Error>)
    ensures r.Ok? && r.value.Some? ==> r.value.value < |hosts|
  {
    if reference.None? || Trim(reference.value) == [] then Ok(None) else
      var name := Trim(reference.value);
      var byId := IndexOfId(hosts, name);
      if byId.Some? then Ok(byId) else
        var byAlias := IndexOfAlias(hosts, name);
        if byAlias.Some? then Ok(byAlias) else
          if exists i: nat | i < |hosts| :: OnlyEndpoint(hosts, name, i) then
            var i: nat :| i < |hosts| && OnlyEndpoint(hosts, name, i);
            Ok(Some(i))
          else Err(Validation)
  }

  /** `resolve_proxy_jump`: the host behind the jump of `host`, if it has one. */
  function ResolveJump(hosts: Hosts, host: Host): (r: Result<Option<nat>, Error>)
    ensures r.Ok? && r.value.Some? ==> r.value.value < |hosts|
  {
    var r := ResolveReference(hosts, host.proxyJump);
    if r.Err? || r.value.None? then r
    else if hosts[r.value.value].id == host.id then Err(Validation)
    else if hosts[r.value.value].proxyJump.Some? then Err(Validation)
    else r
  }

  predicate ReferenceMatches(reference: Option<string>, h: Host) {
    reference.Some? &&
      var name := Trim(reference.value);
      name == h.id || EqIgnoreCase(name, h.alias) || IsEndpointOf(name, h)
  }

  // ---- Writes ------------------------------------------------------------------------------

  /** The id the jump of `host` stands for, if it has a jump. */
  function SettledJump(hosts: Hosts, host: Host): (r: Result<Option<string>, Error>)
    ensures r.Ok? ==> (r.value.Some? <==> host.proxyJump.Some?)
    ensures r.Err? ==> r.error == Validation
  {
    if host.proxyJump.None? then Ok(None) else
      var jump := ResolveReference(hosts, host.proxyJump);
      if jump.Err? || jump.value.None? then Err(Validation) else
        var j := jump.value.value;
        if hosts[j].id == host.id || hosts[j].proxyJump.Some? then Err(Validation) else Ok(Some(hosts[j].id))
  }

  /** Replaces the jump of one host by the id it resolves to. */
  function NormalizeJumpFor(hosts: Hosts, id: string): (r: Result<Hosts, Error>)
    ensures r.Ok? ==> |r.value| == |hosts|
  {
    var at := IndexOfId(hosts, id);
    if at.None? then Err(NotFound) else
      var jump := SettledJump(hosts, hosts[at.value]);
      if jump.Err? then Err(jump.error) else Ok(hosts[at.value := hosts[at.value].(proxyJump := jump.value)])
  }

  /** A host that jumps must not itself be anybody's jump. */
  function CheckRole(hosts: Hosts, id: string): (r: Option<Error>)
  {
    var at := IndexOfId(hosts, id);
    if at.None? then Some(NotFound) else
      var host := hosts[at.value];
      var jump := ResolveJump(hosts, host);
      if jump.Err? then Some(jump.error)
      else if host.proxyJump.None? then None
      else if exists d | d in hosts :: d.id != host.id && ReferenceMatches(d.proxyJump, host) then Some(Validation)
      else None
  }

  datatype Applied = Applied(hosts: Hosts, at: nat)

  /** Adds or replaces one host, its jump still as the draft spells it. */
  function ApplyDraft(hosts: Hosts, d: HostDraft, newId: string, now: nat): (r: Result<Applied, Error>)
    ensures r.Ok? ==> r.value.at < |r.value.hosts|
  {
    if !ValidHostDraft(d) then Err(Validation)
    else if exists h | h in hosts :: EqIgnoreCase(h.alias, Trim(d.alias)) && d.id != Some(h.id) then Err(Validation)
    else
      var at := if d.id.Some? then IndexOfId(hosts, d.id.value) else None;
      if d.id.Some? && at.None? then Err(NotFound) else
        var made := HostFromDraft(d, if at.Some? then Some(hosts[at.value]) else None, newId, now);
        if made.Err? then Err(made.error)
        else
          var i := if at.Some? then at.value else |hosts|;
          Ok(Applied(Put(hosts, i, made.value), i))
  }

  /** Jumps spelled with the old alias follow a renamed host. */
  function RenameDependents(hosts: Hosts, previous: string, id: string): (r: Hosts)
    ensures |r| == |hosts|
  {
    seq(|hosts|, i requires 0 <= i < |hosts| => Renamed(hosts[i], previous, id))
  }

  function Renamed(h: Host, previous: string, id: string): Host {
    if h.proxyJump.Some? && EqIgnoreCase(h.proxyJump.value, previous) then h.(proxyJump := Some(id)) else h
  }

  /** The hosts after a draft was applied, dependents following a changed alias. */
  function FollowRename(before: Hosts, d: HostDraft, a: Applied): (r: Hosts)
    requires a.at < |a.hosts|
    ensures |r| == |a.hosts|
  {
    var at := if d.id.Some? then IndexOfId(before, d.id.value) else None;
    if at.Some? && !EqIgnoreCase(before[at.value].alias, a.hosts[a.at].alias)
    then RenameDependents(a.hosts, before[at.value].alias, a.hosts[a.at].id)
    else a.hosts
  }

  /** Normalises the jump of the host at `at` and checks its role. */
  function Settle(hosts: Hosts, at: nat): (r: Result<Hosts, Error>)
    requires at < |hosts|
    ensures r.Ok? ==> |r.value| == |hosts|
  {
    var normalized := NormalizeJumpFor(hosts, hosts[at].id);
    if normalized.Err? then normalized else
      var role := CheckRole(normalized.value, hosts[at].id);
      if role.Some? then Err(role.value) else normalized
  }

  /** `apply_host_update`: a create or an edit, including a rename. */
  function UpdateHost(hosts: Hosts, d: HostDraft, newId: string, now: nat): (r: Result<Applied, Error>)
    ensures r.Ok? ==> r.value.at < |r.value.hosts|
  {
    var applied := ApplyDraft(hosts, d, newId, now);
    if applied.Err? then applied else
      var a := applied.value;
      var settled := Settle(FollowRename(hosts, d, a), a.at);
      if settled.Err? then Err(settled.error) else Ok(Applied(settled.value, a.at))
  }

  // ---- Facts about single writes -------------------------------------------------------------

  lemma IdIsAtom(id: string)
    requires IsId(id)
    ensures Trim(id) == id && ValidAtom(id, 1024) && '@' !in id
  {
    TrimOfTrimmed(id);
    Utf8LenAscii(id);
  }

  lemma JumpToIdValid(h: Host, id: string)
    requires ValidHost(h) && IsId(id)
    ensures ValidHost(h.(proxyJump := Some(id)))
  {
    IdIsAtom(id);
  }

  lemma IndexOfIdUnique(hosts: Hosts, i: nat)
    requires DistinctHosts(hosts) && i < |hosts|
    ensures IndexOfId(hosts, hosts[i].id) == Some(i)
  {
  }

  /** A stored id always resolves to the host that carries it. */
  lemma IdResolves(hosts: Hosts, j: nat)
    requires DistinctHosts(hosts) && IdsOk(hosts) && j < |hosts|
    ensures ResolveReference(hosts, Some(hosts[j].id)) == Ok(Some(j))
  {
    assert hosts[j] in hosts;
    IdIsAtom(hosts[j].id);
    IndexOfIdUnique(hosts, j);
  }

  /** `after` differs from `before` only in how existing jumps are spelled. */
  ghost predicate JumpsRespelled(before: Hosts, after: Hosts) {
    && |before| == |after|
    && forall i | 0 <= i < |before| ::
         && after[i] == before[i].(proxyJump := after[i].proxyJump)
         && (after[i].proxyJump.Some? <==> before[i].proxyJump.Some?)
  }

  lemma IndexesRespelled(before: Hosts, after: Hosts, name: string)
    requires JumpsRespelled(before, after)
    ensures IndexOfId(after, name) == IndexOfId(before, name)
    ensures IndexOfAlias(after, name) == IndexOfAlias(before, name)
  {
    forall i | 0 <= i < |before| ensures after[i].id == before[i].id && after[i].alias == before[i].alias {
      assert after[i] == before[i].(proxyJump := after[i].proxyJump);
    }
  }

  /** Resolution never looks at jumps. */
  lemma ResolveRespelled(before: Hosts, after: Hosts, reference: Option<string>)
    requires JumpsRespelled(before, after)
    ensures ResolveReference(after, reference) == ResolveReference(before, reference)
  {
    if reference.Some? && Trim(reference.value) != [] {
      var name := Trim(reference.value);
      IndexesRespelled(before, after, name);
      forall i | 0 <= i < |before| ensures IsEndpointOf(name, after[i]) == IsEndpointOf(name, before[i]) {
        assert after[i] == before[i].(proxyJump := after[i].proxyJump);
        EndpointIgnoresJump(name, before[i], after[i].proxyJump);
      }
      forall i: nat | i < |before| ensures OnlyEndpoint(after, name, i) == OnlyEndpoint(before, name, i) { }
    }
  }

  lemma EndpointIgnoresJump(name: string, h: Host, jump: Option<string>)
    ensures IsEndpointOf(name, h.(proxyJump := jump)) == IsEndpointOf(name, h)
  {
  }

  /** Normalising one host respells its jump as the id of a different, direct host. */
  lemma NormalizeEffect(hosts: Hosts, i: nat)
    requires DistinctHosts(hosts) && i < |hosts|
    ensures var r := NormalizeJumpFor(hosts, hosts[i].id);
      r.Ok? ==>
        && JumpsRespelled(hosts, r.value)
        && (forall k | 0 <= k < |hosts| && k != i :: r.value[k] == hosts[k])
        && (hosts[i].proxyJump.Some? ==> exists j: nat :: JumpsTo(r.value, i, j))
  {
    IndexOfIdUnique(hosts, i);
    var r := NormalizeJumpFor(hosts, hosts[i].id);
    if r.Ok? && hosts[i].proxyJump.Some? {
      var j := ResolveReference(hosts, hosts[i].proxyJump).value.value;
      assert JumpsTo(r.value, i, j);
    }
  }

  lemma ReplaceKeepsValid(hosts: Hosts, i: nat, h: Host)
    requires AllValid(hosts) && ValidHost(h) && i < |hosts|
    ensures AllValid(hosts[i := h])
  {
  }

  lemma NormalizeKeepsValid(hosts: Hosts, i: nat, after: Hosts)
    requires DistinctHosts(hosts) && IdsOk(hosts) && AllValid(hosts) && i < |hosts|
    requires NormalizeJumpFor(hosts, hosts[i].id) == Ok(after)
    ensures AllValid(after)
  {
    NormalizeEffect(hosts, i);
    if hosts[i].proxyJump.Some? {
      var j: nat :| JumpsTo(after, i, j);
      assert hosts[i] in hosts && hosts[j] in hosts && after[j] == hosts[j];
      JumpToIdValid(hosts[i], hosts[j].id);
      ReplaceKeepsValid(hosts, i, after[i]);
      assert after == hosts[i := after[i]];
    } else {
      assert after == hosts;
    }
  }

  // ---- Create, edit and rename keep the graph ------------------------------------------------

  ghost predicate UnusedId(hosts: Hosts, id: string) {
    IsId(id) && forall h | h in hosts :: h.id != id
  }

  /** Only the host at `at` was added or replaced; an existing host keeps its id. */
  ghost predicate OnlyTouched(before: Hosts, after: Hosts, at: nat) {
    && at < |after| && |before| <= |after| <= |before| + 1
    && (at < |before| ==> |after| == |before| && after[at].id == before[at].id)
    && (|after| > |before| ==> at == |before|)
    && forall k | 0 <= k < |after| && k != at :: after[k] == before[k]
  }

  lemma PutKeepsIds(hosts: Hosts, i: nat, h: Host)
    requires DistinctHosts(hosts) && IdsOk(hosts) && i <= |hosts| && IsId(h.id)
    requires forall k | 0 <= k < |hosts| && k != i :: hosts[k].id != h.id && !EqIgnoreCase(hosts[k].alias, h.alias)
    ensures DistinctHosts(Put(hosts, i, h)) && IdsOk(Put(hosts, i, h))
  {
  }

  lemma PutKeepsValid(hosts: Hosts, i: nat, h: Host)
    requires AllValid(hosts) && ValidHost(h) && i <= |hosts|
    ensures AllValid(Put(hosts, i, h))
  {
  }

  /** What a successful `ApplyDraft` did: it put one valid host with a free alias at `r.at`. */
  lemma ApplyDraftShape(hosts: Hosts, d: HostDraft, newId: string, now: nat, r: Applied) returns (made: Host)
    requires ApplyDraft(hosts, d, newId, now) == Ok(r)
    ensures r.at <= |hosts| && r.hosts == Put(hosts, r.at, made) && ValidHost(made)
    ensures made.id == (if r.at < |hosts| then hosts[r.at].id else newId) && made.alias == Trim(d.alias)
    ensures d.id.Some? ==> r.at < |hosts| && IndexOfId(hosts, d.id.value) == Some(r.at)
    ensures d.id.None? ==> r.at == |hosts|
    ensures forall h | h in hosts && EqIgnoreCase(h.alias, made.alias) :: d.id == Some(h.id)
  {
    var at := if d.id.Some? then IndexOfId(hosts, d.id.value) else None;
    var existing := if at.Some? then Some(hosts[at.value]) else None;
    HostFromDraftValid(d, existing, newId, now);
    made := HostFromDraft(d, existing, newId, now).value;
  }

  lemma PutEffect(hosts: Hosts, at: nat, made: Host, id: Option<string>)
    requires DistinctHosts(hosts) && IdsOk(hosts) && at <= |hosts|
    requires if at < |hosts| then made.id == hosts[at].id && id == Some(made.id)
      else UnusedId(hosts, made.id) && id.None?
    requires forall h | h in hosts && EqIgnoreCase(h.alias, made.alias) :: id == Some(h.id)
    ensures var after := Put(hosts, at, made);
      OnlyTouched(hosts, after, at) && DistinctHosts(after) && IdsOk(after)
  {
    assert IsId(made.id) by { if at < |hosts| { assert hosts[at] in hosts; } }
    forall k | 0 <= k < |hosts| && k != at
      ensures hosts[k].id != made.id && !EqIgnoreCase(hosts[k].alias, made.alias)
    {
      assert hosts[k] in hosts;
    }
    PutKeepsIds(hosts, at, made);
  }

  lemma RenameKeepsValid(hosts: Hosts, previous: string, id: string)
    requires AllValid(hosts) && IsId(id)
    ensures AllValid(RenameDependents(hosts, previous, id))
  {
    var r := RenameDependents(hosts, previous, id);
    forall h | h in r ensures ValidHost(h) {
      var i :| 0 <= i < |r| && r[i] == h;
      assert hosts[i] in hosts && h == Renamed(hosts[i], previous, id);
      RenamedValid(hosts[i], previous, id);
    }
  }

  lemma RenamedValid(h: Host, previous: string, id: string)
    requires ValidHost(h) && IsId(id)
    ensures ValidHost(Renamed(h, previous, id))
  {
    JumpToIdValid(h, id);
  }

  /** Everyone but `at` jumps to an existing, different host that is `at` or direct. */
  ghost predicate DepthOneUpTo(hosts: Hosts, at: nat) {
    forall i | 0 <= i < |hosts| && i != at && hosts[i].proxyJump.Some? ::
      exists j :: 0 <= j < |hosts| && j != i && hosts[i].proxyJump == Some(hosts[j].id)
                  && (j == at || hosts[j].proxyJump.None?)
  }

  lemma TouchKeepsDepthUpTo(before: Hosts, after: Hosts, at: nat)
    requires DepthOne(before) && OnlyTouched(before, after, at)
    ensures DepthOneUpTo(after, at)
  {
    forall i | 0 <= i < |after| && i != at && after[i].proxyJump.Some?
      ensures exists j :: 0 <= j < |after| && j != i && after[i].proxyJump == Some(after[j].id)
                          && (j == at || after[j].proxyJump.None?)
    {
      assert before[i] == after[i];
      var j: nat :| JumpsTo(before, i, j);
      assert after[j].id == before[j].id;
    }
  }

  lemma RenameKeepsDepthUpTo(hosts: Hosts, previous: string, at: nat)
    requires at < |hosts| && DepthOneUpTo(hosts, at)
    ensures DepthOneUpTo(RenameDependents(hosts, previous, hosts[at].id), at)
  {
    var r := RenameDependents(hosts, previous, hosts[at].id);
    forall i | 0 <= i < |r| && i != at && r[i].proxyJump.Some?
      ensures exists j :: 0 <= j < |r| && j != i && r[i].proxyJump == Some(r[j].id)
                          && (j == at || r[j].proxyJump.None?)
    {
      if r[i] != hosts[i] {
        assert r[at].id == hosts[at].id;
      } else {
        var j :| 0 <= j < |hosts| && j != i && hosts[i].proxyJump == Some(hosts[j].id)
                 && (j == at || hosts[j].proxyJump.None?);
        assert r[j].id == hosts[j].id;
      }
    }
  }

  /** The role check is what closes the gap left open at the edited host. */
  lemma RoleClosesDepth(hosts: Hosts, at: nat)
    requires DistinctHosts(hosts) && IdsOk(hosts) && at < |hosts| && DepthOneUpTo(hosts, at)
    requires hosts[at].proxyJump.Some? ==> exists j: nat :: JumpsTo(hosts, at, j)
    requires CheckRole(hosts, hosts[at].id).None?
    ensures DepthOne(hosts)
  {
    IndexOfIdUnique(hosts, at);
    assert hosts[at] in hosts;
    IdIsAtom(hosts[at].id);
    forall i | 0 <= i < |hosts| && hosts[i].proxyJump.Some? ensures exists j: nat :: JumpsTo(hosts, i, j) {
      if i != at {
        var j :| 0 <= j < |hosts| && j != i && hosts[i].proxyJump == Some(hosts[j].id)
                 && (j == at || hosts[j].proxyJump.None?);
        if j == at && hosts[at].proxyJump.Some? {
          assert hosts[i] in hosts && ReferenceMatches(hosts[i].proxyJump, hosts[at]);
          assert false;
        }
        assert JumpsTo(hosts, i, j);
      }
    }
  }

  /** What a create, edit or rename promises about the whole host list. */
  ghost predicate UpdatePost(before: Hosts, after: Hosts, at: nat) {
    && DistinctHosts(after) && IdsOk(after) && AllValid(after) && DepthOne(after)
    && at < |after| && |before| <= |after| <= |before| + 1
    && forall k | 0 <= k < |before| :: after[k].id == before[k].id
  }

  /** A good host list, but for the jump of the host at `at`. */
  ghost predicate GoodUpTo(hosts: Hosts, at: nat) {
    at < |hosts| && DistinctHosts(hosts) && IdsOk(hosts) && AllValid(hosts) && DepthOneUpTo(hosts, at)
  }

  lemma ApplyDraftKeeps(hosts: Hosts, d: HostDraft, newId: string, now: nat, a: Applied)
    requires DistinctHosts(hosts) && IdsOk(hosts) && AllValid(hosts) && DepthOne(hosts)
    requires UnusedId(hosts, newId)
    requires ApplyDraft(hosts, d, newId, now) == Ok(a)
    ensures GoodUpTo(a.hosts, a.at) && OnlyTouched(hosts, a.hosts, a.at)
  {
    var made := ApplyDraftShape(hosts, d, newId, now, a);
    PutEffect(hosts, a.at, made, d.id);
    PutKeepsValid(hosts, a.at, made);
    TouchKeepsDepthUpTo(hosts, a.hosts, a.at);
  }

  lemma RenameKeeps(hosts: Hosts, previous: string, at: nat)
    requires GoodUpTo(hosts, at)
    ensures var r := RenameDependents(hosts, previous, hosts[at].id);
      GoodUpTo(r, at) && forall k | 0 <= k < |hosts| :: r[k].id == hosts[k].id
  {
    var r := RenameDependents(hosts, previous, hosts[at].id);
    assert hosts[at] in hosts;
    assert JumpsRespelled(hosts, r);
    RespelledKeepsIds(hosts, r);
    RenameKeepsValid(hosts, previous, hosts[at].id);
    RenameKeepsDepthUpTo(hosts, previous, at);
  }

  lemma SettleKeeps(hosts: Hosts, at: nat, after: Hosts)
    requires GoodUpTo(hosts, at) && Settle(hosts, at) == Ok(after)
    ensures UpdatePost(hosts, after, at)
  {
    NormalizeEffect(hosts, at);
    NormalizeKeepsValid(hosts, at, after);
    RespelledKeepsIds(hosts, after);
    NormalizeKeepsDepthUpTo(hosts, after, at);
    RoleClosesDepth(after, at);
  }

  lemma FollowRenameKeeps(before: Hosts, d: HostDraft, a: Applied)
    requires GoodUpTo(a.hosts, a.at) && OnlyTouched(before, a.hosts, a.at)
    ensures GoodUpTo(FollowRename(before, d, a), a.at)
    ensures forall k | 0 <= k < |before| :: FollowRename(before, d, a)[k].id == before[k].id
  {
    var at := if d.id.Some? then IndexOfId(before, d.id.value) else None;
    if at.Some? { RenameKeeps(a.hosts, before[at.value].alias, a.at); }
  }

  /** Every successful create, edit or rename takes a good host list to a good host list. */
  lemma UpdateHostKeeps(hosts: Hosts, d: HostDraft, newId: string, now: nat)
    requires DistinctHosts(hosts) && IdsOk(hosts) && AllValid(hosts) && DepthOne(hosts)
    requires UnusedId(hosts, newId)
    ensures var r := UpdateHost(hosts, d, newId, now);
      r.Ok? ==> UpdatePost(hosts, r.value.hosts, r.value.at)
  {
    var applied := ApplyDraft(hosts, d, newId, now);
    if applied.Ok? {
      ApplyDraftKeeps(hosts, d, newId, now, applied.value);
      FollowRenameKeeps(hosts, d, applied.value);
      SettleFollowed(hosts, FollowRename(hosts, d, applied.value), applied.value.at);
    }
  }

  lemma SettleFollowed(before: Hosts, hosts: Hosts, at: nat)
    requires GoodUpTo(hosts, at) && |before| <= |hosts| <= |before| + 1
    requires forall k | 0 <= k < |before| :: hosts[k].id == before[k].id
    ensures Settle(hosts, at).Ok? ==> UpdatePost(before, Settle(hosts, at).value, at)
  {
    if Settle(hosts, at).Ok? { SettleKeeps(hosts, at, Settle(hosts, at).value); }
  }

  lemma NormalizeKeepsDepthUpTo(before: Hosts, after: Hosts, at: nat)
    requires JumpsRespelled(before, after) && DepthOneUpTo(before, at)
    requires forall k | 0 <= k < |before| && k != at :: after[k] == before[k]
    ensures DepthOneUpTo(after, at)
  {
    forall i | 0 <= i < |after| && i != at && after[i].proxyJump.Some?
      ensures exists j :: 0 <= j < |after| && j != i && after[i].proxyJump == Some(after[j].id)
                          && (j == at || after[j].proxyJump.None?)
    {
      var j :| 0 <= j < |before| && j != i && before[i].proxyJump == Some(before[j].id)
               && (j == at || before[j].proxyJump.None?);
      assert after[j].id == before[j].id;
    }
  }

  lemma RespelledKeepsIds(before: Hosts, after: Hosts)
    requires JumpsRespelled(before, after) && DistinctHosts(before) && IdsOk(before)
    ensures DistinctHosts(after) && IdsOk(after)
    ensures forall k | 0 <= k < |before| :: after[k].id == before[k].id && after[k].alias == before[k].alias
  {
    forall k | 0 <= k < |before| ensures after[k].id == before[k].id && after[k].alias == before[k].alias {
      assert after[k] == before[k].(proxyJump := after[k].proxyJump);
    }
    forall h | h in after ensures IsId(h.id) {
      var i :| 0 <= i < |after| && after[i] == h;
      assert before[i] in before;
    }
  }
}
