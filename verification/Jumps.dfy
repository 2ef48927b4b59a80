/** What a ProxyJump stands for: the host a reference names, in terms of the texts of the list alone, and
    what saving and importing hosts makes of it. */
module Jumps {
  import opened Prelude
  import opened Strings
  import opened Profiles
  import opened ProxyJump
  import opened HostImport

  // ---- Texts -------------------------------------------------------------------------------------------

  /** The same letter of the ASCII alphabet, one large and one small. */
  predicate TwoCases(a: char, b: char) {
    ('A' <= a <= 'Z' && b as int == a as int + 32) || ('A' <= b <= 'Z' && a as int == b as int + 32)
  }

  predicate SameButCase(a: string, b: string) {
    |a| == |b| && forall i | 0 <= i < |a| :: a[i] == b[i] || TwoCases(a[i], b[i])
  }

  lemma EqualIsSameButCase(a: string, b: string)
    ensures EqIgnoreCase(a, b) <==> SameButCase(a, b)
  {
    if EqIgnoreCase(a, b) {
      assert |Lower(a)| == |Lower(b)|;
      forall i | 0 <= i < |a| ensures a[i] == b[i] || TwoCases(a[i], b[i]) {
        assert Lower(a)[i] == Lower(b)[i];
      }
    }
    if SameButCase(a, b) {
      forall i | 0 <= i < |a| ensures Lower(a)[i] == Lower(b)[i] { }
      assert Lower(a) == Lower(b);
    }
  }

  predicate IsDigit(c: char) { '0' <= c <= '9' }

  function ValueOf(digits: string): nat
    requires forall c | c in digits :: IsDigit(c)
  {
    if digits == [] then 0
    else
      assert digits[|digits| - 1] in digits && IsDigit(digits[|digits| - 1]);
      var last: nat := digits[|digits| - 1] as int - '0' as int;
      10 * ValueOf(digits[..|digits| - 1]) + last
  }

  /** The decimal digits of `n`, without a leading zero. */
  predicate IsDecimal(s: string, n: nat) {
    && s != [] && (|s| > 1 ==> s[0] != '0')
    && (forall c | c in s :: IsDigit(c)) && ValueOf(s) == n
  }

  lemma {:induction false} WrittenIsDecimal(n: nat)
    ensures IsDecimal(NatToString(n), n)
    ensures n > 0 ==> NatToString(n)[0] != '0'
    decreases n
  {
    var digit := [('0' as int + n % 10) as char];
    if n < 10 {
      assert NatToString(n) == digit;
      assert digit[..0] == [];
    } else {
      WrittenIsDecimal(n / 10);
      var s := NatToString(n / 10) + digit;
      assert s[..|s| - 1] == NatToString(n / 10);
    }
  }

  lemma {:induction false} DecimalIsWritten(s: string, n: nat)
    requires IsDecimal(s, n)
    ensures s == NatToString(n)
    decreases |s|
  {
    var init, last := s[..|s| - 1], s[|s| - 1];
    assert last in s && s == init + [last];
    if init == [] {
      assert ValueOf(init) == 0;
    } else {
      assert forall c | c in init :: c in s;
      LeadingDigit(init);
      DecimalIsWritten(init, ValueOf(init));
      assert n / 10 == ValueOf(init) && n % 10 == last as int - '0' as int;
    }
  }

  lemma {:induction false} LeadingDigit(s: string)
    requires s != [] && s[0] != '0' && forall c | c in s :: IsDigit(c)
    ensures ValueOf(s) > 0
  {
    var init := s[..|s| - 1];
    assert s[|s| - 1] in s && s[0] in s;
    if init != [] { LeadingDigit(init); } else { assert ValueOf(init) == 0; }
  }

  /** How a host name stands in front of a port: a colon in it calls for brackets. */
  predicate IsAddress(text: string, hostname: string) {
    if ':' in hostname && (hostname[0] != '[' || hostname[|hostname| - 1] != ']') then text == "[" + hostname + "]"
    else text == hostname
  }

  /** `user@host:port`, or `user@host` for port 22. */
  ghost predicate NamesEndpoint(name: string, h: Host) {
    exists address, port :: IsAddress(address, h.hostname) && IsDecimal(port, h.port)
      && (name == h.username + "@" + address + ":" + port || (h.port == 22 && name == h.username + "@" + address))
  }

  lemma EndpointIsNamed(name: string, h: Host)
    ensures IsEndpointOf(name, h) <==> NamesEndpoint(name, h)
  {
    var address, port := BracketedHostname(h), NatToString(h.port);
    WrittenIsDecimal(h.port);
    assert IsAddress(address, h.hostname) && IsDecimal(port, h.port);
    if NamesEndpoint(name, h) {
      var a, p :| IsAddress(a, h.hostname) && IsDecimal(p, h.port)
        && (name == h.username + "@" + a + ":" + p || (h.port == 22 && name == h.username + "@" + a));
      DecimalIsWritten(p, h.port);
      assert a == address && p == port;
    }
  }

  // ---- What a reference stands for ------------------------------------------------------------------------

  /** The host with that id; if there is none, the one with that alias, ignoring case; if there is none
      either, the only one with that endpoint. */
  ghost predicate StandsFor(hosts: Hosts, name: string, j: nat) {
    j < |hosts|
    && (|| hosts[j].id == name
        || (SameButCase(hosts[j].alias, name) && forall h | h in hosts :: h.id != name)
        || (&& NamesEndpoint(name, hosts[j])
            && (forall h | h in hosts :: h.id != name && !SameButCase(h.alias, name))
            && (forall k | 0 <= k < |hosts| && k != j :: !NamesEndpoint(name, hosts[k]))))
  }

  predicate IsBlank(reference: Option<string>) { reference.None? || Trim(reference.value) == [] }

  lemma SameButCaseBoth(a: string, b: string, c: string)
    requires SameButCase(a, c) && SameButCase(b, c)
    ensures EqIgnoreCase(a, b)
  {
    EqualIsSameButCase(a, c);
    EqualIsSameButCase(b, c);
  }

  /** A name stands for at most one host. */
  lemma StandsForOne(hosts: Hosts, name: string, i: nat, j: nat)
    requires DistinctHosts(hosts) && StandsFor(hosts, name, i) && StandsFor(hosts, name, j)
    ensures i == j
  {
    assert hosts[i] in hosts && hosts[j] in hosts;
    if i != j {
      assert hosts[i].id != hosts[j].id;
      if SameButCase(hosts[i].alias, name) && SameButCase(hosts[j].alias, name) {
        SameButCaseBoth(hosts[i].alias, hosts[j].alias, name);
      }
    }
  }

  lemma TextsMatch(hosts: Hosts, name: string)
    ensures forall h | h in hosts :: EqIgnoreCase(h.alias, name) <==> SameButCase(h.alias, name)
    ensures forall h | h in hosts :: IsEndpointOf(name, h) <==> NamesEndpoint(name, h)
  {
    forall h | h in hosts
      ensures EqIgnoreCase(h.alias, name) <==> SameButCase(h.alias, name)
      ensures IsEndpointOf(name, h) <==> NamesEndpoint(name, h)
    {
      EqualIsSameButCase(h.alias, name);
      EndpointIsNamed(name, h);
    }
  }

  lemma ResolvedStandsFor(hosts: Hosts, reference: Option<string>)
    requires !IsBlank(reference)
    ensures var r := ResolveReference(hosts, reference);
      if r.Ok? then r.value.Some? && StandsFor(hosts, Trim(reference.value), r.value.value)
      else forall j: nat :: !StandsFor(hosts, Trim(reference.value), j)
  {
    var name := Trim(reference.value);
    TextsMatch(hosts, name);
    assert forall h | h in hosts :: exists k :: 0 <= k < |hosts| && hosts[k] == h;
    var byId, byAlias := IndexOfId(hosts, name), IndexOfAlias(hosts, name);
    if byId.None? && byAlias.None? {
      forall i: nat | i < |hosts| ensures OnlyEndpoint(hosts, name, i) <==> StandsFor(hosts, name, i) {
        assert hosts[i] in hosts;
        assert forall k | 0 <= k < |hosts| :: hosts[k] in hosts;
      }
    }
  }

  /** Over a list with distinct ids and aliases: a reference that is not blank is resolved to exactly the
      host it stands for, and refused exactly if it stands for none. */
  lemma ReferenceMeans(hosts: Hosts, reference: Option<string>, j: nat)
    requires DistinctHosts(hosts)
    ensures var r := ResolveReference(hosts, reference);
      && (r == Ok(None) <==> IsBlank(reference))
      && (r == Ok(Some(j)) <==> !IsBlank(reference) && StandsFor(hosts, Trim(reference.value), j))
      && (r.Err? <==> !IsBlank(reference) && forall k: nat :: !StandsFor(hosts, Trim(reference.value), k))
  {
    if !IsBlank(reference) {
      ResolvedStandsFor(hosts, reference);
      var r := ResolveReference(hosts, reference);
      if r.Ok? && StandsFor(hosts, Trim(reference.value), j) {
        StandsForOne(hosts, Trim(reference.value), r.value.value, j);
      }
    }
  }

  // ---- Settling one jump ----------------------------------------------------------------------------------

  /** The jump of the host at `at` leads to the host at `j`: another one, which connects directly. */
  ghost predicate Leads(hosts: Hosts, at: nat, j: nat) {
    && at < |hosts| && !IsBlank(hosts[at].proxyJump) && StandsFor(hosts, Trim(hosts[at].proxyJump.value), j)
    && j != at && hosts[j].proxyJump.None?
  }

  ghost predicate Mentions(reference: Option<string>, h: Host) {
    reference.Some? &&
      var name := Trim(reference.value);
      name == h.id || SameButCase(name, h.alias) || NamesEndpoint(name, h)
  }

  /** No other host jumps through the host at `at`. */
  ghost predicate Unused(hosts: Hosts, at: nat) {
    at < |hosts| && forall k | 0 <= k < |hosts| && k != at :: !Mentions(hosts[k].proxyJump, hosts[at])
  }

  lemma MatchIsMention(reference: Option<string>, h: Host)
    ensures ReferenceMatches(reference, h) <==> Mentions(reference, h)
  {
    if reference.Some? {
      EqualIsSameButCase(Trim(reference.value), h.alias);
      EndpointIsNamed(Trim(reference.value), h);
    }
  }

  lemma LeadsToOne(hosts: Hosts, at: nat, i: nat, j: nat)
    requires DistinctHosts(hosts) && Leads(hosts, at, i) && Leads(hosts, at, j)
    ensures i == j
  {
    StandsForOne(hosts, Trim(hosts[at].proxyJump.value), i, j);
  }

  /** The jump of a host is settled if and only if it leads to a host, and then as the id of that one. */
  lemma SettledMeans(hosts: Hosts, at: nat)
    requires DistinctHosts(hosts) && at < |hosts| && hosts[at].proxyJump.Some?
    ensures SettledJump(hosts, hosts[at]).Ok? <==> exists j: nat :: Leads(hosts, at, j)
    ensures forall j: nat | Leads(hosts, at, j) :: SettledJump(hosts, hosts[at]) == Ok(Some(hosts[j].id))
  {
    var jump := hosts[at].proxyJump;
    if !IsBlank(jump) { ResolvedStandsFor(hosts, jump); }
    var r := ResolveReference(hosts, jump);
    forall j: nat | Leads(hosts, at, j) ensures r == Ok(Some(j)) && hosts[j].id != hosts[at].id {
      ReferenceMeans(hosts, jump, j);
    }
    if SettledJump(hosts, hosts[at]).Ok? { assert Leads(hosts, at, r.value.value); }
  }

  ghost predicate RoleGood(hosts: Hosts, at: nat) { at < |hosts| && (hosts[at].proxyJump.Some? ==> Unused(hosts, at)) }

  lemma JumpOfSettled(hosts: Hosts, at: nat)
    requires DistinctHosts(hosts) && IdsOk(hosts) && at < |hosts|
    requires hosts[at].proxyJump.Some? ==> exists j: nat :: JumpsTo(hosts, at, j)
    ensures ResolveJump(hosts, hosts[at]).Ok?
  {
    if hosts[at].proxyJump.Some? {
      var j: nat :| JumpsTo(hosts, at, j);
      IdResolves(hosts, j);
    }
  }

  lemma OthersMatch(hosts: Hosts, at: nat)
    requires DistinctHosts(hosts) && at < |hosts|
    ensures (exists d | d in hosts :: d.id != hosts[at].id && ReferenceMatches(d.proxyJump, hosts[at])) <==>
      !Unused(hosts, at)
  {
    var me := hosts[at];
    forall k | 0 <= k < |hosts| ensures ReferenceMatches(hosts[k].proxyJump, me) <==> Mentions(hosts[k].proxyJump, me) {
      MatchIsMention(hosts[k].proxyJump, me);
    }
    if d :| d in hosts && d.id != me.id && ReferenceMatches(d.proxyJump, me) {
      var k :| 0 <= k < |hosts| && hosts[k] == d;
      assert Mentions(hosts[k].proxyJump, me);
    }
    if !Unused(hosts, at) {
      var k :| 0 <= k < |hosts| && k != at && Mentions(hosts[k].proxyJump, me);
      assert hosts[k] in hosts;
    }
  }

  /** A host whose jump has been settled passes the check of its role if and only if nobody jumps through it. */
  lemma RoleMeans(hosts: Hosts, at: nat)
    requires DistinctHosts(hosts) && IdsOk(hosts) && at < |hosts|
    requires hosts[at].proxyJump.Some? ==> exists j: nat :: JumpsTo(hosts, at, j)
    ensures CheckRole(hosts, hosts[at].id).None? <==> RoleGood(hosts, at)
  {
    IndexOfIdUnique(hosts, at);
    JumpOfSettled(hosts, at);
    OthersMatch(hosts, at);
  }

  /** Settling one host goes through if and only if it connects directly, or its jump leads to a host and
      nobody jumps through it. Nothing but its jump changes: it becomes the id of that host. */
  lemma SettleMeans(hosts: Hosts, at: nat)
    requires DistinctHosts(hosts) && IdsOk(hosts) && at < |hosts|
    ensures var (me, r) := (hosts[at], Settle(hosts, at));
      && (r.Ok? <==> me.proxyJump.None? || (Unused(hosts, at) && exists j: nat :: Leads(hosts, at, j)))
      && (r.Ok? && me.proxyJump.None? ==> r.value == hosts)
      && (forall j: nat | Leads(hosts, at, j) && r.Ok? :: r.value == hosts[at := me.(proxyJump := Some(hosts[j].id))])
      && (r.Err? ==> r.error == Validation)
  {
    var me := hosts[at];
    IndexOfIdUnique(hosts, at);
    if me.proxyJump.None? {
      assert hosts[at := me] == hosts;
      RoleMeans(hosts, at);
    } else {
      SettledMeans(hosts, at);
      if j: nat :| Leads(hosts, at, j) { SettleLed(hosts, at, j); }
    }
    if Settle(hosts, at).Err? { SettleError(hosts, at); }
  }

  lemma SettleError(hosts: Hosts, at: nat)
    requires DistinctHosts(hosts) && at < |hosts| && Settle(hosts, at).Err?
    ensures Settle(hosts, at).error == Validation
  {
    IndexOfIdUnique(hosts, at);
    var n := NormalizeJumpFor(hosts, hosts[at].id);
    if n.Ok? {
      NormalizeEffect(hosts, at);
      RespelledKeepsIdsOf(hosts, n.value, at);
      CheckRoleError(n.value, hosts[at].id);
    }
  }

  lemma RespelledKeepsIdsOf(before: Hosts, after: Hosts, at: nat)
    requires JumpsRespelled(before, after) && at < |before|
    ensures IndexOfId(after, before[at].id).Some?
  {
    assert after[at].id == before[at].id;
  }

  lemma SettleLed(hosts: Hosts, at: nat, j: nat)
    requires DistinctHosts(hosts) && IdsOk(hosts) && Leads(hosts, at, j)
    ensures var (me, r) := (hosts[at], Settle(hosts, at));
      && (r.Ok? <==> Unused(hosts, at))
      && (r.Ok? ==> r.value == hosts[at := me.(proxyJump := Some(hosts[j].id))])
  {
    var me := hosts[at];
    var settled := me.(proxyJump := Some(hosts[j].id));
    var after := hosts[at := settled];
    IndexOfIdUnique(hosts, at);
    SettledMeans(hosts, at);
    assert NormalizeJumpFor(hosts, me.id) == Ok(after);
    assert JumpsRespelled(hosts, after);
    RespelledKeepsIds(hosts, after);
    assert JumpsTo(after, at, j);
    RoleMeans(after, at);
    forall k | 0 <= k < |hosts| && k != at ensures Mentions(hosts[k].proxyJump, me) <==>
      Mentions(after[k].proxyJump, settled) {
      MentionIgnoresJump(hosts[k].proxyJump, me, settled.proxyJump);
    }
  }

  lemma MentionIgnoresJump(reference: Option<string>, h: Host, jump: Option<string>)
    ensures Mentions(reference, h.(proxyJump := jump)) <==> Mentions(reference, h)
  {
    MatchIsMention(reference, h);
    MatchIsMention(reference, h.(proxyJump := jump));
    if reference.Some? { EndpointIgnoresJump(Trim(reference.value), h, jump); }
  }

  // ---- Saving a host ----------------------------------------------------------------------------------------

  /** A host is saved if and only if its record can be put into the list and, the dependents of a changed
      alias rewritten, its jump is blank, or leads to another, direct host while nobody jumps through it;
      a save is refused for its jump in no other case. What is stored is the id of that very host. */
  lemma SaveMeansJump(hosts: Hosts, d: HostDraft, newId: string, now: nat)
    requires DistinctHosts(hosts) && IdsOk(hosts) && AllValid(hosts) && DepthOne(hosts) && UnusedId(hosts, newId)
    ensures var (applied, r) := (ApplyDraft(hosts, d, newId, now), UpdateHost(hosts, d, newId, now));
      if applied.Err? then r == applied else
        var (listed, at) := (FollowRename(hosts, d, applied.value), applied.value.at);
        && (r.Ok? <==> listed[at].proxyJump.None? || (Unused(listed, at) && exists j: nat :: Leads(listed, at, j)))
        && (r.Err? ==> r.error == Validation)
        && (r.Ok? && listed[at].proxyJump.None? ==> r.value == Applied(listed, at))
        && (forall j: nat | Leads(listed, at, j) && r.Ok? ::
              r.value == Applied(listed[at := listed[at].(proxyJump := Some(listed[j].id))], at))
  {
    var applied := ApplyDraft(hosts, d, newId, now);
    if applied.Ok? {
      ApplyDraftKeeps(hosts, d, newId, now, applied.value);
      FollowRenameKeeps(hosts, d, applied.value);
      SettleMeans(FollowRename(hosts, d, applied.value), applied.value.at);
    }
  }

  // ---- Importing hosts ----------------------------------------------------------------------------------------

  /** `after` is `hosts` with the jump of every host from `base` on settled, all against `hosts`. */
  ghost predicate AllLed(hosts: Hosts, base: nat, after: Hosts) {
    && |after| == |hosts|
    && forall i: nat | i < |hosts| ::
         if i < base || hosts[i].proxyJump.None? then after[i] == hosts[i]
         else exists j: nat :: Leads(hosts, i, j) && after[i] == hosts[i].(proxyJump := Some(hosts[j].id))
  }

  lemma SettlesLed(hosts: Hosts, base: nat, ids: seq<string>)
    requires DistinctHosts(hosts) && ListsNewHosts(hosts, base, ids)
    ensures AllSettle(hosts, ids, |ids|) <==> forall i: nat | base <= i < |hosts| && hosts[i].proxyJump.Some? ::
      exists j: nat :: Leads(hosts, i, j)
    ensures AllSettle(hosts, ids, |ids|) ==> AllLed(hosts, base, SettledAtOnce(hosts, ids, |ids|))
  {
    assert ids[..|ids|] == ids;
    forall i: nat | i < |hosts|
      ensures hosts[i].id in ids <==> i >= base
      ensures hosts[i].proxyJump.Some? ==>
        (SettledJump(hosts, hosts[i]).Ok? <==> exists j: nat :: Leads(hosts, i, j))
        && forall j: nat | Leads(hosts, i, j) :: SettledJump(hosts, hosts[i]) == Ok(Some(hosts[j].id))
    {
      if hosts[i].proxyJump.Some? { SettledMeans(hosts, i); }
    }
  }

  lemma NothingLed(hosts: Hosts, base: nat, after: Hosts)
    requires exists i: nat :: base <= i < |hosts| && hosts[i].proxyJump.Some? && forall j: nat :: !Leads(hosts, i, j)
    ensures !AllLed(hosts, base, after)
  {
  }

  /** Settling the new hosts of an import goes through if and only if the jump of each leads to a host of
      the whole list, and nobody jumps through one that itself jumps. The list then holds for every jump
      the id of the host it leads to, and is otherwise as it was. */
  lemma ImportMeansJumps(hosts: Hosts, base: nat, order: seq<string>)
    requires DistinctHosts(hosts) && IdsOk(hosts) && AllValid(hosts) && ListsNewHosts(hosts, base, order)
      && DistinctIds(order)
    requires SettledSoFar(hosts, base, order, 0)
    ensures var r := SettleImported(hosts, order);
      && (r.Ok? <==> exists after :: AllLed(hosts, base, after) && NewRolesGood(after, base))
      && (r.Ok? ==> AllLed(hosts, base, r.value))
      && (r.Err? ==> r.error == Validation)
  {
    forall id | id in order ensures IndexOfId(hosts, id).Some? { }
    NormalizeAllIsAtOnce(hosts, order, |order|);
    SettlesLed(hosts, base, order);
    if AllSettle(hosts, order, |order|) {
      ImportedLed(hosts, base, order, SettledAtOnce(hosts, order, |order|));
    } else {
      forall after ensures !AllLed(hosts, base, after) { NothingLed(hosts, base, after); }
    }
  }

  lemma ImportedLed(hosts: Hosts, base: nat, order: seq<string>, after: Hosts)
    requires DistinctHosts(hosts) && IdsOk(hosts) && AllValid(hosts) && ListsNewHosts(hosts, base, order)
    requires SettledSoFar(hosts, base, order, 0)
    requires NormalizeAll(hosts, order, |order|) == Ok(after) && AllLed(hosts, base, after)
    ensures var r := SettleImported(hosts, order);
      && (r.Ok? <==> exists other :: AllLed(hosts, base, other) && NewRolesGood(other, base))
      && (if r.Ok? then r.value == after else r.error == Validation)
  {
    RolesOfImported(hosts, base, order, after);
    OnlyLed(hosts, base, after);
    ImportOutcome(hosts, order, after);
  }

  lemma OnlyLed(hosts: Hosts, base: nat, after: Hosts)
    requires DistinctHosts(hosts) && AllLed(hosts, base, after)
    ensures (exists other :: AllLed(hosts, base, other) && NewRolesGood(other, base)) <==> NewRolesGood(after, base)
  {
    if other :| AllLed(hosts, base, other) && NewRolesGood(other, base) { LedOnce(hosts, base, after, other); }
  }

  lemma ImportOutcome(hosts: Hosts, order: seq<string>, after: Hosts)
    requires NormalizeAll(hosts, order, |order|) == Ok(after)
    ensures var role := CheckRoles(after, order, |order|);
      SettleImported(hosts, order) == if role.Some? then Err(role.value) else Ok(after)
  {
  }

  lemma LedOnce(hosts: Hosts, base: nat, a: Hosts, b: Hosts)
    requires DistinctHosts(hosts) && AllLed(hosts, base, a) && AllLed(hosts, base, b)
    ensures a == b
  {
    forall i: nat | i < |hosts| ensures a[i] == b[i] {
      if i >= base && hosts[i].proxyJump.Some? {
        var j: nat :| Leads(hosts, i, j) && a[i] == hosts[i].(proxyJump := Some(hosts[j].id));
        var k: nat :| Leads(hosts, i, k) && b[i] == hosts[i].(proxyJump := Some(hosts[k].id));
        LeadsToOne(hosts, i, j, k);
      }
    }
  }

  ghost predicate NewRolesGood(hosts: Hosts, base: nat) { forall i: nat | base <= i < |hosts| :: RoleGood(hosts, i) }

  lemma RolesOfListed(hosts: Hosts, base: nat, order: seq<string>)
    requires DistinctHosts(hosts) && IdsOk(hosts) && ListsNewHosts(hosts, base, order)
    requires forall i: nat | base <= i < |hosts| && hosts[i].proxyJump.Some? :: exists j: nat :: JumpsTo(hosts, i, j)
    ensures CheckRoles(hosts, order, |order|) == if NewRolesGood(hosts, base) then None else Some(Validation)
  {
    assert order[..|order|] == order;
    CheckRolesIsConjunction(hosts, order, |order|);
    forall i: nat | base <= i < |hosts| ensures CheckRole(hosts, hosts[i].id).None? <==> RoleGood(hosts, i) {
      RoleMeans(hosts, i);
    }
  }

  lemma RolesOfImported(hosts: Hosts, base: nat, order: seq<string>, after: Hosts)
    requires DistinctHosts(hosts) && IdsOk(hosts) && AllValid(hosts) && ListsNewHosts(hosts, base, order)
    requires SettledSoFar(hosts, base, order, 0) && NormalizeAll(hosts, order, |order|) == Ok(after)
    ensures CheckRoles(after, order, |order|) == if NewRolesGood(after, base) then None else Some(Validation)
  {
    NormalizeAllSettles(hosts, base, order, |order|);
    assert order[..|order|] == order;
    RespelledKeepsIds(hosts, after);
    forall id | id in order ensures exists i :: base <= i < |after| && after[i].id == id {
      var i :| base <= i < |hosts| && hosts[i].id == id;
      assert after[i].id == id;
    }
    RolesOfListed(after, base, order);
  }
}
