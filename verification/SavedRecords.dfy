/** What a saved record takes from its draft, what it keeps of the record it replaces, and that saving
    a record as it is changes nothing but its time. */
module SavedRecords {
  import opened Prelude
  import opened Strings
  import opened Profiles
  import opened Jumps

  /** A text that is not there or blank counts as not given. */
  function Given(text: Option<string>): (r: Option<string>)
    ensures r.None? <==> IsBlank(text)
    ensures r.Some? ==> r.value == Trim(text.value)
  {
    NormalizeOptional(text)
  }

  function Kept<T, U>(existing: Option<T>, field: T -> U, otherwise: U): U {
    if existing.Some? then field(existing.value) else otherwise
  }

  // ---- Groups ----------------------------------------------------------------------------------------------

  predicate IsGroup(g: string) { g != [] && Utf8Len(g) <= 128 && NoControl(g) }

  ghost predicate Represented(groups: seq<string>, g: string) { exists e | e in groups :: SameButCase(e, g) }

  predicate IsTrimmedOf(groups: seq<string>, k: int, g: string) { 0 <= k < |groups| && Trim(groups[k]) == g }

  ghost predicate AllTaken(r: seq<string>, groups: seq<string>) {
    forall g | g in r :: IsGroup(g) && Trim(g) == g && exists k :: IsTrimmedOf(groups, k, g)
  }

  ghost predicate NoneLost(r: seq<string>, groups: seq<string>) {
    forall k | 0 <= k < |groups| && IsGroup(Trim(groups[k])) :: Represented(r, Trim(groups[k]))
  }

  predicate NoneTwice(r: seq<string>) { forall i, j | 0 <= i < j < |r| :: !SameButCase(r[i], r[j]) }

  /** What the last group adds to those before it. */
  lemma NextGroup(before: seq<string>, text: string)
    ensures var (init, g) := (NormalizeGroups(before), Trim(text));
      NormalizeGroups(before + [text]) == if IsGroup(g) && !Represented(init, g) then init + [g] else init
  {
    var (groups, init, g) := (before + [text], NormalizeGroups(before), Trim(text));
    assert groups[..|groups| - 1] == before && groups[|groups| - 1] == text;
    forall e | e in init ensures EqIgnoreCase(e, g) <==> SameButCase(e, g) { EqualIsSameButCase(e, g); }
  }

  /** The groups of a host are those of its draft, trimmed: every usable one is there in some case, none is
      there twice, and nothing else is. */
  lemma {:induction false} GroupsAreUsable(groups: seq<string>)
    ensures var r := NormalizeGroups(groups); AllTaken(r, groups) && NoneLost(r, groups) && NoneTwice(r)
  {
    if groups != [] {
      var before, text := groups[..|groups| - 1], groups[|groups| - 1];
      var init := NormalizeGroups(before);
      assert groups == before + [text];
      GroupsAreUsable(before);
      NextGroup(before, text);
      TrimTwice(text);
      OneTakenMore(init, before, text);
      OneKeptMore(init, before, text);
      if !Represented(init, Trim(text)) { OneOnceMore(init, Trim(text)); }
    }
  }

  lemma OneTakenMore(init: seq<string>, before: seq<string>, text: string)
    requires AllTaken(init, before) && Trim(Trim(text)) == Trim(text)
    ensures AllTaken(init, before + [text])
    ensures IsGroup(Trim(text)) ==> AllTaken(init + [Trim(text)], before + [text])
  {
    var groups := before + [text];
    assert IsTrimmedOf(groups, |before|, Trim(text));
    forall g | g in init ensures exists k :: IsTrimmedOf(groups, k, g) {
      var k :| IsTrimmedOf(before, k, g);
      assert IsTrimmedOf(groups, k, g);
    }
  }

  lemma OneKeptMore(init: seq<string>, before: seq<string>, text: string)
    requires NoneLost(init, before)
    ensures !IsGroup(Trim(text)) || Represented(init, Trim(text)) ==> NoneLost(init, before + [text])
    ensures NoneLost(init + [Trim(text)], before + [text])
  {
    var (groups, more, g) := (before + [text], init + [Trim(text)], Trim(text));
    assert more[|init|] == g && SameButCase(g, g);
    forall k | 0 <= k < |before| && IsGroup(Trim(before[k])) ensures Represented(more, Trim(before[k])) {
      var e :| e in init && SameButCase(e, Trim(before[k]));
      assert e in more;
    }
    assert forall k | 0 <= k < |before| :: groups[k] == before[k];
  }

  lemma OneOnceMore(init: seq<string>, g: string)
    requires NoneTwice(init) && !Represented(init, g)
    ensures NoneTwice(init + [g])
  {
    forall i | 0 <= i < |init| ensures !SameButCase(init[i], g) { assert init[i] in init; }
  }

  lemma {:induction false} GroupsStay(groups: seq<string>)
    requires forall g | g in groups :: IsGroup(g) && Trim(g) == g
    requires forall i, j | 0 <= i < j < |groups| :: !SameButCase(groups[i], groups[j])
    ensures NormalizeGroups(groups) == groups
  {
    if groups != [] {
      var n := |groups| - 1;
      assert groups[n] in groups && groups == groups[..n] + [groups[n]];
      GroupsStay(groups[..n]);
      forall e | e in groups[..n] ensures !EqIgnoreCase(e, groups[n]) {
        var i :| 0 <= i < n && groups[i] == e;
        EqualIsSameButCase(e, groups[n]);
      }
    }
  }

  // ---- Hosts -------------------------------------------------------------------------------------------------

  /** The authentication of a saved host: the one asked for, else the one it had, else by key exactly if a
      key file is given. */
  function ChosenAuth(d: HostDraft, existing: Option<Host>): AuthMethod {
    if d.auth.Some? then d.auth.value
    else Kept(existing, (h: Host) => h.auth, if IsBlank(d.identityFile) then Interactive else PrivateKey)
  }

  ghost predicate AdvancedTakes(a: Advanced, patch: Option<AdvancedPatch>, base: Advanced) {
    var p := if patch.Some? then patch.value else AdvancedPatch(None, None, None, None, None, None);
    && a.connectTimeout == (if p.connectTimeout.Some? then p.connectTimeout.value else base.connectTimeout)
    && a.aliveInterval == (if p.aliveInterval.Some? then p.aliveInterval.value else base.aliveInterval)
    && a.aliveCount == (if p.aliveCount.Some? then p.aliveCount.value else base.aliveCount)
    && a.tcpKeepAlive == (if p.tcpKeepAlive.Some? then p.tcpKeepAlive.value else base.tcpKeepAlive)
    && a.compression == (if p.compression.Some? then p.compression.value else base.compression)
    && a.identitiesOnly == (if p.identitiesOnly.Some? then p.identitiesOnly.value else base.identitiesOnly)
  }

  /** `h` is what draft `d` makes of the record that was there, if any. */
  ghost predicate HostTakes(h: Host, d: HostDraft, existing: Option<Host>, newId: string, now: nat) {
    && h.id == Kept(existing, (x: Host) => x.id, newId)
    && h.createdAt == Kept(existing, (x: Host) => x.createdAt, now) && h.updatedAt == now
    && h.alias == Trim(d.alias) && h.hostname == Trim(d.hostname) && h.username == Trim(d.username) && h.port == d.port
    && h.auth == ChosenAuth(d, existing)
    && h.identityFile == (if h.auth.PrivateKey? then Given(d.identityFile) else None)
    && h.proxyJump == Given(d.proxyJump)
    && h.workspace == (if IsBlank(d.workspace) then "~" else Trim(d.workspace.value))
    && h.groups == NormalizeGroups(d.groups)
    && AdvancedTakes(h.advanced, d.advanced,
                     Kept(existing, (x: Host) => x.advanced, Advanced(15, 30, 3, true, false, false)))
    && h.monitorEnabled == (if d.monitorEnabled.Some? then d.monitorEnabled.value else true)
  }

  /** A draft makes a host if and only if the connection options are within their bounds and a host with
      key authentication has a key file, and every field of it is the one above. */
  lemma MadeHost(d: HostDraft, existing: Option<Host>, newId: string, now: nat)
    ensures var r := HostFromDraft(d, existing, newId, now);
      && (r.Ok? ==> HostTakes(r.value, d, existing, newId, now))
      && (r.Err? ==> r.error == Validation)
      && (r.Ok? <==>
            && (ChosenAuth(d, existing).PrivateKey? ==> !IsBlank(d.identityFile))
            && exists a :: AdvancedFits(a, d, existing))
  {
    var a := ApplyAdvanced(GetOr(d.advanced, AdvancedPatch(None, None, None, None, None, None)),
                           if existing.Some? then existing.value.advanced else DEFAULT_ADVANCED);
    assert AdvancedTakes(a, d.advanced, Kept(existing, (x: Host) => x.advanced, DEFAULT_ADVANCED));
    assert AdvancedFits(a, d, existing) <==> ValidAdvanced(a);
  }

  ghost predicate AdvancedFits(a: Advanced, d: HostDraft, existing: Option<Host>) {
    && AdvancedTakes(a, d.advanced,
                     Kept(existing, (x: Host) => x.advanced, Advanced(15, 30, 3, true, false, false)))
    && 1 <= a.connectTimeout <= 300 && 0 <= a.aliveInterval <= 3600 && 1 <= a.aliveCount <= 100
  }

  lemma NormalizeTwice(text: Option<string>)
    ensures NormalizeOptional(NormalizeOptional(text)) == NormalizeOptional(text)
  {
    if text.Some? { TrimTwice(text.value); }
  }

  /** Every text of the host is trimmed already. */
  predicate IsTidy(h: Host) {
    && Trim(h.alias) == h.alias && Trim(h.hostname) == h.hostname && Trim(h.username) == h.username
    && NormalizeOptional(h.identityFile) == h.identityFile && NormalizeOptional(h.proxyJump) == h.proxyJump
    && NormalizeOptional(Some(h.workspace)) == Some(h.workspace) && NormalizeGroups(h.groups) == h.groups
  }

  lemma GroupsTwice(groups: seq<string>)
    ensures NormalizeGroups(NormalizeGroups(groups)) == NormalizeGroups(groups)
  {
    GroupsAreUsable(groups);
    GroupsStay(NormalizeGroups(groups));
  }

  lemma TakenIsTidy(h: Host, d: HostDraft, existing: Option<Host>, newId: string, now: nat)
    requires HostTakes(h, d, existing, newId, now)
    ensures IsTidy(h)
  {
    TrimTwice(d.alias);
    TrimTwice(d.hostname);
    TrimTwice(d.username);
    NormalizeTwice(d.identityFile);
    NormalizeTwice(d.proxyJump);
    NormalizeTwice(d.workspace);
    TrimOfTrimmed("~");
    GroupsTwice(d.groups);
  }

  lemma TidyHostStays(h: Host, other: string, later: nat)
    requires IsTidy(h) && ValidAdvanced(h.advanced) && (h.auth.PrivateKey? <==> h.identityFile.Some?)
    ensures HostFromDraft(AsHostDraft(h), Some(h), other, later) == Ok(h.(updatedAt := later))
  {
    assert ApplyAdvanced(AdvancedPatch(None, None, None, None, None, None), h.advanced) == h.advanced;
  }

  /** Saving a host as it was saved changes nothing but its time. */
  lemma HostSavedAgain(d: HostDraft, existing: Option<Host>, newId: string, now: nat, h: Host, other: string,
      later: nat)
    requires HostFromDraft(d, existing, newId, now) == Ok(h)
    ensures HostFromDraft(AsHostDraft(h), Some(h), other, later) == Ok(h.(updatedAt := later))
  {
    MadeHost(d, existing, newId, now);
    TakenIsTidy(h, d, existing, newId, now);
    TidyHostStays(h, other, later);
  }

  // ---- Tunnels and presets -----------------------------------------------------------------------------------

  ghost predicate TunnelTakes(t: Tunnel, d: TunnelDraft, existing: Option<Tunnel>, newId: string, now: nat) {
    && t.id == Kept(existing, (x: Tunnel) => x.id, newId)
    && t.createdAt == Kept(existing, (x: Tunnel) => x.createdAt, now) && t.updatedAt == now
    && t.hostId == d.hostId && t.name == Trim(d.name) && t.remote == d.remote
    && t.bindAddress == Trim(d.bindAddress) && t.sourcePort == d.sourcePort
    && t.targetHost == Trim(d.targetHost) && t.targetPort == d.targetPort
    && t.autoStart == (d.autoStart == Some(true)) && t.autoReconnect == (d.autoReconnect == Some(true))
    && t.health == d.health
  }

  lemma MadeTunnel(d: TunnelDraft, existing: Option<Tunnel>, newId: string, now: nat)
    ensures TunnelTakes(TunnelFromDraft(d, existing, newId, now), d, existing, newId, now)
  {
  }

  /** Saving a tunnel as it was saved changes nothing but its time. */
  lemma TunnelSavedAgain(d: TunnelDraft, existing: Option<Tunnel>, newId: string, now: nat, other: string, later: nat)
    ensures var t := TunnelFromDraft(d, existing, newId, now);
      TunnelFromDraft(AsTunnelDraft(t), Some(t), other, later) == t.(updatedAt := later)
  {
    TrimTwice(d.name);
    TrimTwice(d.bindAddress);
    TrimTwice(d.targetHost);
  }

  ghost predicate CommandTakes(c: Command, d: CommandDraft, existing: Option<Command>, newId: string, now: nat) {
    && c.id == Kept(existing, (x: Command) => x.id, newId)
    && c.createdAt == Kept(existing, (x: Command) => x.createdAt, now) && c.updatedAt == now
    && c.hostId == d.hostId && c.name == Trim(d.name) && c.description == Trim(d.description)
    && c.group == Trim(d.group) && c.command == Trim(d.command)
    && c.workingDirectory == Given(d.workingDirectory) && c.confirmation == Given(d.confirmation)
    && c.risk == d.risk && c.requiresPty == d.requiresPty && c.requiresSudo == d.requiresSudo
    && c.sortOrder == d.sortOrder
  }

  lemma MadeCommand(d: CommandDraft, existing: Option<Command>, newId: string, now: nat)
    ensures CommandTakes(CommandFromDraft(d, existing, newId, now), d, existing, newId, now)
  {
  }

  predicate IsTidyCommand(c: Command) {
    && Trim(c.name) == c.name && Trim(c.description) == c.description && Trim(c.group) == c.group
    && Trim(c.command) == c.command
    && NormalizeOptional(c.workingDirectory) == c.workingDirectory
         && NormalizeOptional(c.confirmation) == c.confirmation
  }

  lemma MadeCommandIsTidy(d: CommandDraft, existing: Option<Command>, newId: string, now: nat)
    ensures IsTidyCommand(CommandFromDraft(d, existing, newId, now))
  {
    TrimTwice(d.name);
    TrimTwice(d.description);
    TrimTwice(d.group);
    TrimTwice(d.command);
    NormalizeTwice(d.workingDirectory);
    NormalizeTwice(d.confirmation);
  }

  lemma TidyCommandStays(c: Command, other: string, later: nat)
    requires IsTidyCommand(c)
    ensures CommandFromDraft(AsCommandDraft(c), Some(c), other, later) == c.(updatedAt := later)
  {
  }

  /** Saving a preset as it was saved changes nothing but its time. */
  lemma CommandSavedAgain(d: CommandDraft, existing: Option<Command>, newId: string, now: nat, other: string,
      later: nat)
    ensures var c := CommandFromDraft(d, existing, newId, now);
      CommandFromDraft(AsCommandDraft(c), Some(c), other, later) == c.(updatedAt := later)
  {
    MadeCommandIsTidy(d, existing, newId, now);
    TidyCommandStays(CommandFromDraft(d, existing, newId, now), other, later);
  }
}
