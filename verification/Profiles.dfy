/** The records of the repository and the checks a draft must pass. */
module Profiles {
  import opened Prelude
  import opened Strings

  datatype Error = Validation | NotFound | State | Io

  datatype AuthMethod = Interactive | PrivateKey | Agent

  datatype Advanced = Advanced(connectTimeout: nat, aliveInterval: nat, aliveCount: nat,
                               tcpKeepAlive: bool, compression: bool, identitiesOnly: bool)

  const DEFAULT_ADVANCED := Advanced(15, 30, 3, true, false, false)

  datatype AdvancedPatch = AdvancedPatch(connectTimeout: Option<nat>, aliveInterval: Option<nat>,
                                         aliveCount: Option<nat>, tcpKeepAlive: Option<bool>,
                                         compression: Option<bool>, identitiesOnly: Option<bool>)

  function GetOr<T>(o: Option<T>, default: T): T { if o.Some? then o.value else default }

  function ApplyAdvanced(p: AdvancedPatch, base: Advanced): Advanced {
    Advanced(GetOr(p.connectTimeout, base.connectTimeout), GetOr(p.aliveInterval, base.aliveInterval),
             GetOr(p.aliveCount, base.aliveCount), GetOr(p.tcpKeepAlive, base.tcpKeepAlive),
             GetOr(p.compression, base.compression), GetOr(p.identitiesOnly, base.identitiesOnly))
  }

  datatype Host = Host(id: string, alias: string, hostname: string, port: nat, username: string,
                       auth: AuthMethod, identityFile: Option<string>, proxyJump: Option<string>,
                       workspace: string, groups: seq<string>, advanced: Advanced,
                       monitorEnabled: bool, createdAt: nat, updatedAt: nat)

  datatype HostDraft = HostDraft(id: Option<string>, alias: string, hostname: string, port: nat,
                                 username: string, auth: Option<AuthMethod>, identityFile: Option<string>,
                                 proxyJump: Option<string>, workspace: Option<string>, groups: seq<string>,
                                 advanced: Option<AdvancedPatch>, monitorEnabled: Option<bool>)

  datatype HealthCheck = HealthCheck(tcp: bool, interval: nat, timeout: nat)

  datatype Tunnel = Tunnel(id: string, hostId: string, name: string, remote: bool, bindAddress: string,
                           sourcePort: nat, targetHost: string, targetPort: nat, autoStart: bool,
                           autoReconnect: bool, health: Option<HealthCheck>, createdAt: nat, updatedAt: nat)

  datatype TunnelDraft = TunnelDraft(id: Option<string>, hostId: string, name: string, remote: bool,
                                     bindAddress: string, sourcePort: nat, targetHost: string,
                                     targetPort: nat, autoStart: Option<bool>,
                                     autoReconnect: Option<bool>, health: Option<HealthCheck>)

  datatype Risk = L0 | L1 | L2

  datatype Command = Command(id: string, hostId: Option<string>, name: string, description: string,
                             group: string, command: string, workingDirectory: Option<string>, risk: Risk,
                             requiresPty: bool, requiresSudo: bool, confirmation: Option<string>,
                             sortOrder: int, createdAt: nat, updatedAt: nat)

  datatype CommandDraft = CommandDraft(id: Option<string>, hostId: Option<string>, name: string,
                                       description: string, group: string, command: string,
                                       workingDirectory: Option<string>, risk: Risk, requiresPty: bool,
                                       requiresSudo: bool, confirmation: Option<string>, sortOrder: int)

  // ---- Draft checks ----------------------------------------------------------------------

  predicate NoControl(s: string) { forall c | c in s :: !IsControl(c) }

  predicate NoNul(s: string) { '\0' !in s }

  predicate ValidAtom(s: string, maxLen: nat) {
    && s != [] && Utf8Len(s) <= maxLen && s[0] != '-'
    && (forall c | c in s :: !IsWhitespace(c) && !IsControl(c))
  }

  predicate ValidForwardAtom(s: string) { ValidAtom(s, 512) && ',' !in s }

  predicate IsAliasChar(c: char) { IsAlphanumeric(c) || c == '_' || c == '.' || c == '-' }

  predicate ValidAlias(alias: string) {
    alias != [] && Utf8Len(alias) <= 64 && forall c | c in alias :: IsAliasChar(c)
  }

  predicate ValidPath(path: Option<string>, maxLen: nat) {
    path.Some? ==> Utf8Len(path.value) <= maxLen && NoNul(path.value)
  }

  predicate ValidHostDraft(d: HostDraft) {
    && ValidAlias(Trim(d.alias))
    && ValidAtom(Trim(d.hostname), 512)
    && ValidAtom(Trim(d.username), 128)
    && d.port != 0
    && ValidPath(d.identityFile, 32767)
    && (d.auth == Some(PrivateKey) ==> d.identityFile.Some? && Trim(d.identityFile.value) != [])
    && (d.proxyJump.Some? && Trim(d.proxyJump.value) != [] ==> ValidAtom(Trim(d.proxyJump.value), 1024))
    && ValidPath(d.workspace, 4096)
    && |d.groups| <= 32
  }

  predicate ValidAdvanced(a: Advanced) {
    1 <= a.connectTimeout <= 300 && a.aliveInterval <= 3600 && 1 <= a.aliveCount <= 100
  }

  predicate ValidTunnelDraft(d: TunnelDraft) {
    var name := Trim(d.name);
    && name != [] && Utf8Len(name) <= 128 && NoControl(name)
    && d.sourcePort != 0 && d.targetPort != 0
    && ValidForwardAtom(Trim(d.bindAddress))
    && ValidForwardAtom(Trim(d.targetHost))
    && (d.health.Some? && d.health.value.tcp ==>
          var h := d.health.value;
          2 <= h.interval <= 3600 && 1 <= h.timeout <= 60 && h.timeout < h.interval)
  }

  predicate ValidCommandDraft(d: CommandDraft) {
    var name := Trim(d.name);
    && name != [] && Utf8Len(name) <= 512 && NoControl(name)
    && Utf8Len(d.description) <= 2048 && NoNul(d.description)
    && Utf8Len(d.group) <= 128 && NoControl(d.group)
    && Trim(d.command) != [] && Utf8Len(d.command) <= 32768 && NoNul(d.command)
    && ValidPath(d.workingDirectory, 4096)
    && (d.confirmation.Some? ==> Utf8Len(d.confirmation.value) <= 256 && NoControl(d.confirmation.value))
  }

  // ---- Normalisation ---------------------------------------------------------------------

  function NormalizeOptional(v: Option<string>): (r: Option<string>)
    ensures r.Some? ==> v.Some? && r.value == Trim(v.value) && r.value != []
    ensures r.None? ==> v.None? || Trim(v.value) == []
  {
    if v.Some? && Trim(v.value) != [] then Some(Trim(v.value)) else None
  }

  /** Trimmed, non-empty, short, control-free and without case-insensitive repeats. */
  function NormalizeGroups(groups: seq<string>): (r: seq<string>)
    ensures |r| <= |groups|
  {
    if groups == [] then [] else
      var init := NormalizeGroups(groups[..|groups| - 1]);
      var g := Trim(groups[|groups| - 1]);
      if g == [] || Utf8Len(g) > 128 || !NoControl(g) || (exists e | e in init :: EqIgnoreCase(e, g))
      then init else init + [g]
  }

  // ---- The checks a stored record passes ---------------------------------------------------

  /** A stored record is checked by reading it back as a draft. */
  function AsHostDraft(h: Host): HostDraft {
    HostDraft(Some(h.id), h.alias, h.hostname, h.port, h.username, Some(h.auth), h.identityFile,
              h.proxyJump, Some(h.workspace), h.groups, None, Some(h.monitorEnabled))
  }

  function AsTunnelDraft(t: Tunnel): TunnelDraft {
    TunnelDraft(Some(t.id), t.hostId, t.name, t.remote, t.bindAddress, t.sourcePort, t.targetHost,
                t.targetPort, Some(t.autoStart), Some(t.autoReconnect), t.health)
  }

  function AsCommandDraft(c: Command): CommandDraft {
    CommandDraft(Some(c.id), c.hostId, c.name, c.description, c.group, c.command, c.workingDirectory,
                 c.risk, c.requiresPty, c.requiresSudo, c.confirmation, c.sortOrder)
  }

  predicate ValidHost(h: Host) { ValidHostDraft(AsHostDraft(h)) && ValidAdvanced(h.advanced) }

  predicate ValidTunnel(t: Tunnel) { ValidTunnelDraft(AsTunnelDraft(t)) }

  predicate ValidCommand(c: Command) { ValidCommandDraft(AsCommandDraft(c)) }

  // ---- From a draft to a record ------------------------------------------------------------

  function HostFromDraft(d: HostDraft, existing: Option<Host>, newId: string, now: nat): Result<Host, Error> {
    var advanced := ApplyAdvanced(
      GetOr(d.advanced, AdvancedPatch(None, None, None, None, None, None)),
      if existing.Some? then existing.value.advanced else DEFAULT_ADVANCED);
    var requested := NormalizeOptional(d.identityFile);
    var auth :=
      if d.auth.Some? then d.auth.value
      else if existing.Some? then existing.value.auth
      else if requested.Some? then PrivateKey else Interactive;
    if !ValidAdvanced(advanced) then Err(Validation)
    else if auth.PrivateKey? && requested.None? then Err(Validation)
    else Ok(Host(
      if existing.Some? then existing.value.id else newId,
      Trim(d.alias), Trim(d.hostname), d.port, Trim(d.username), auth,
      if auth.PrivateKey? then requested else None,
      NormalizeOptional(d.proxyJump),
      GetOr(NormalizeOptional(d.workspace), "~"),
      NormalizeGroups(d.groups), advanced, GetOr(d.monitorEnabled, true),
      if existing.Some? then existing.value.createdAt else now, now))
  }

  function TunnelFromDraft(d: TunnelDraft, existing: Option<Tunnel>, newId: string, now: nat): Tunnel {
    Tunnel(if existing.Some? then existing.value.id else newId,
           d.hostId, Trim(d.name), d.remote, Trim(d.bindAddress), d.sourcePort, Trim(d.targetHost),
           d.targetPort, GetOr(d.autoStart, false), GetOr(d.autoReconnect, false), d.health,
           if existing.Some? then existing.value.createdAt else now, now)
  }

  function CommandFromDraft(d: CommandDraft, existing: Option<Command>, newId: string, now: nat): Command {
    Command(if existing.Some? then existing.value.id else newId,
            d.hostId, Trim(d.name), Trim(d.description), Trim(d.group), Trim(d.command),
            NormalizeOptional(d.workingDirectory), d.risk, d.requiresPty, d.requiresSudo,
            NormalizeOptional(d.confirmation), d.sortOrder,
            if existing.Some? then existing.value.createdAt else now, now)
  }

  lemma TrimTwice(s: string)
    ensures Trim(Trim(s)) == Trim(s)
  {
    TrimOfTrimmed(Trim(s));
  }

  lemma ValidPathNormalizes(p: Option<string>, maxLen: nat)
    requires ValidPath(p, maxLen)
    ensures ValidPath(NormalizeOptional(p), maxLen)
    ensures NormalizeOptional(p).Some? ==> Trim(NormalizeOptional(p).value) != []
  {
    if p.Some? { TrimShrinks(p.value); TrimTwice(p.value); }
  }

  /** A record made from a draft that passed its check passes the check of stored records:
      trimming and defaulting lose nothing the check looks at. */
  lemma HostFromDraftValid(d: HostDraft, existing: Option<Host>, newId: string, now: nat)
    requires ValidHostDraft(d)
    ensures var r := HostFromDraft(d, existing, newId, now); r.Ok? ==> ValidHost(r.value)
  {
    var r := HostFromDraft(d, existing, newId, now);
    if r.Ok? {
      var h := r.value;
      assert ValidAlias(Trim(h.alias)) by { TrimTwice(d.alias); }
      assert ValidAtom(Trim(h.hostname), 512) by { TrimTwice(d.hostname); }
      assert ValidAtom(Trim(h.username), 128) by { TrimTwice(d.username); }
      assert ValidPath(h.identityFile, 32767) && (h.auth.PrivateKey? ==> Trim(h.identityFile.value) != []) by {
        ValidPathNormalizes(d.identityFile, 32767);
      }
      assert ValidPath(Some(h.workspace), 4096) by {
        ValidPathNormalizes(d.workspace, 4096);
        Utf8LenAscii("~");
      }
      if d.proxyJump.Some? { TrimTwice(d.proxyJump.value); }
    }
  }

  lemma TunnelFromDraftValid(d: TunnelDraft, existing: Option<Tunnel>, newId: string, now: nat)
    requires ValidTunnelDraft(d)
    ensures ValidTunnel(TunnelFromDraft(d, existing, newId, now))
  {
    TrimTwice(d.name);
    TrimTwice(d.bindAddress);
    TrimTwice(d.targetHost);
  }

  lemma CommandFromDraftValid(d: CommandDraft, existing: Option<Command>, newId: string, now: nat)
    requires ValidCommandDraft(d)
    ensures ValidCommand(CommandFromDraft(d, existing, newId, now))
  {
    TrimTwice(d.name);
    TrimShrinks(d.description);
    TrimShrinks(d.group);
    TrimTwice(d.command);
    TrimShrinks(d.command);
    ValidPathNormalizes(d.workingDirectory, 4096);
    if d.confirmation.Some? { TrimShrinks(d.confirmation.value); }
  }
}
