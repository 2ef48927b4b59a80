/** What the program finds on the disk when it starts and what it leaves there: which files count, which
    of them is taken, and the state that is in place once the opening is through. */
module StateRecovery {
  import opened Prelude
  import opened Strings
  import opened Profiles
  import opened ProxyJump
  import opened HostRecords
  import opened Repository
  import opened RepositoryRuns
  import opened StateFile
  import opened Jumps

  // ---- Which states are valid -------------------------------------------------------------------------------

  predicate Sized(s: PersistedState) {
    && s.schemaVersion == 2
    && |s.hosts| <= 512 && |s.tunnels| <= 2048 && |s.commands| <= 4096 && |s.hashes| <= 4096
  }

  predicate RecordsValid(s: PersistedState) {
    && (forall h | h in s.hosts :: ValidHost(h)) && (forall t | t in s.tunnels :: ValidTunnel(t))
    && (forall c | c in s.commands :: ValidCommand(c))
    && forall x | x in s.hashes :: |x| == 64 && forall c | c in x :: IsHexDigit(c)
  }

  /** No two hosts have an id or an alias in common; no two tunnels or presets have an id in common, or a
      name within the same host or, for presets, within none. Case makes no difference to a name. */
  predicate NoRepeats(s: PersistedState) {
    && (forall i, j | 0 <= i < j < |s.hosts| ::
         s.hosts[i].id != s.hosts[j].id && !SameButCase(s.hosts[i].alias, s.hosts[j].alias))
    && (forall i, j | 0 <= i < j < |s.tunnels| ::
         && s.tunnels[i].id != s.tunnels[j].id
         && !(s.tunnels[i].hostId == s.tunnels[j].hostId && SameButCase(s.tunnels[i].name, s.tunnels[j].name)))
    && (forall i, j | 0 <= i < j < |s.commands| ::
         && s.commands[i].id != s.commands[j].id
         && !(s.commands[i].hostId == s.commands[j].hostId && SameButCase(s.commands[i].name, s.commands[j].name)))
  }

  predicate NothingDangles(s: PersistedState) {
    && (forall t | t in s.tunnels :: exists h | h in s.hosts :: h.id == t.hostId)
    && (forall c | c in s.commands && c.hostId.Some? :: exists h | h in s.hosts :: h.id == c.hostId.value)
  }

  lemma RecordsValidMeans(s: PersistedState)
    ensures RecordsValid(s) <==>
      && AllValid(s.hosts) && AllTunnelsValid(s.tunnels) && AllCommandsValid(s.commands)
      && forall x | x in s.hashes :: ValidHash(x)
  {
    forall x ensures ValidHash(x) <==> |x| == 64 && forall c | c in x :: IsHexDigit(c) { HashMeans(x); }
  }

  lemma HashMeans(x: string)
    ensures ValidHash(x) <==> |x| == 64 && forall c | c in x :: IsHexDigit(c)
  {
    if forall c | c in x :: IsHexDigit(c) {
      forall i | 0 <= i < |x| ensures x[i] as int < 0x80 { assert IsHexDigit(x[i]); }
      Utf8LenAscii(x);
    }
  }

  lemma NoRepeatsMeans(s: PersistedState)
    ensures NoRepeats(s) <==> DistinctHosts(s.hosts) && DistinctTunnels(s.tunnels) && DistinctCommands(s.commands)
  {
    forall a: string, b: string ensures EqIgnoreCase(a, b) <==> SameButCase(a, b) { EqualIsSameButCase(a, b); }
  }

  /** The validator accepts exactly the states of this form. */
  lemma ValidatesMeans(s: PersistedState)
    ensures Validates(s) <==> Sized(s) && RecordsValid(s) && NoRepeats(s) && NothingDangles(s)
  {
    RecordsValidMeans(s);
    NoRepeatsMeans(s);
  }

  // ---- What is found ----------------------------------------------------------------------------------------

  /** The file is there, is at most 16 MiB long, and holds a valid state. */
  ghost predicate HoldsState(c: Codec, d: Directory, name: string, s: PersistedState) {
    && name in d && |d[name].bytes| <= 16777216 && c.decode(d[name].bytes) == Some(s)
    && Sized(s) && RecordsValid(s) && NoRepeats(s) && NothingDangles(s)
  }

  ghost predicate HoldsNone(c: Codec, d: Directory, name: string) { forall s :: !HoldsState(c, d, name, s) }

  lemma HoldsStateMeans(c: Codec, d: Directory, name: string, s: PersistedState)
    ensures HoldsState(c, d, name, s) <==> ReadValid(c, Content(d, name)) == Some(s)
  {
    ValidatesMeans(s);
  }

  lemma HoldsNoneMeans(c: Codec, d: Directory, name: string)
    ensures HoldsNone(c, d, name) <==> ReadValid(c, Content(d, name)).None?
  {
    forall s ensures HoldsState(c, d, name, s) <==> ReadValid(c, Content(d, name)) == Some(s) {
      HoldsStateMeans(c, d, name, s);
    }
    var found := ReadValid(c, Content(d, name));
    assert found.Some? ==> HoldsState(c, d, name, found.value);
  }

  /** An opening finds an empty state if there is no primary; else the state in the primary, if it holds
      one; else the one in the backup, if that does; and fails otherwise. */
  lemma FoundMeans(c: Codec, d: Directory, s: PersistedState)
    ensures var found := FoundState(c, d);
      && (PRIMARY !in d ==> found == Ok(PersistedState(2, Settings(map[]), [], [], [], [])))
      && (HoldsState(c, d, PRIMARY, s) ==> found == Ok(s))
      && (PRIMARY in d && HoldsNone(c, d, PRIMARY) && HoldsState(c, d, BACKUP, s) ==> found == Ok(s))
      && (PRIMARY in d && HoldsNone(c, d, PRIMARY) && HoldsNone(c, d, BACKUP) ==> found == Err(Error.State))
  {
    HoldsStateMeans(c, d, PRIMARY, s);
    HoldsStateMeans(c, d, BACKUP, s);
    HoldsNoneMeans(c, d, PRIMARY);
    HoldsNoneMeans(c, d, BACKUP);
  }

  // ---- What is left -----------------------------------------------------------------------------------------

  /** Only the key files of hosts that do not use one are dropped. */
  lemma CleanMeans(s: PersistedState)
    ensures var t := Clean(s);
      && t.schemaVersion == s.schemaVersion && t.settings == s.settings && t.tunnels == s.tunnels
      && t.commands == s.commands && t.hashes == s.hashes && |t.hosts| == |s.hosts|
      && (forall i | 0 <= i < |s.hosts| ::
           t.hosts[i] == if s.hosts[i].auth == PrivateKey then s.hosts[i] else s.hosts[i].(identityFile := None))
      && (t == s <==> forall h | h in s.hosts :: h.auth == PrivateKey || h.identityFile.None?)
  {
    var t := Clean(s);
    if t == s {
      forall h | h in s.hosts ensures h.auth == PrivateKey || h.identityFile.None? {
        var i :| 0 <= i < |s.hosts| && s.hosts[i] == h;
        assert t.hosts[i] == h;
      }
    }
    if forall h | h in s.hosts :: h.auth == PrivateKey || h.identityFile.None? {
      forall i | 0 <= i < |s.hosts| ensures t.hosts[i] == s.hosts[i] { assert s.hosts[i] in s.hosts; }
      assert t.hosts == s.hosts;
    }
  }

  lemma WrittenHolds(c: Codec, p: Platform, vs: Views, s: PersistedState, temp: string, spare: string, vs': Views)
    requires RoundTrips(c) && SettledViews(vs) && FreshNames(Seen(vs), temp, spare)
    requires WriteState(c, p, vs, s, temp, spare, Completes, vs')
    ensures SettledViews(vs') && |vs'| == 1 && ReadValid(c, Content(Seen(vs'), PRIMARY)) == Some(s)
  {
    WriteIsAtomic(c, p, vs, s, temp, spare, Completes, vs');
    CompletedIsDurable(c, p, vs, s, temp, spare, vs');
    WrittenReadsBack(c, s);
  }

  /** Once an opening is through without a failed write, the primary holds the state it found, less the key
      files that are not used; if anything had to be written for that, no crash can take it away. */
  lemma OpeningLeaves(c: Codec, p: Platform, vs: Views, vs1: Views, vs': Views, names: seq<string>, fates: seq<Fate>)
    requires RoundTrips(c) && SettledViews(vs) && vs1 != []
    requires Opens(c, p, vs, vs1, vs', names, fates) && fates[0].Completes? && fates[1].Completes?
    requires FreshNames(Seen(vs), names[0], names[1]) && FreshNames(Seen(vs1), names[2], names[3])
    ensures var found := FoundState(c, Seen(vs));
      if found.Err? then vs' == vs
      else vs' != [] && HoldsState(c, Seen(vs'), PRIMARY, Clean(found.value)) && (vs' == vs || |vs'| == 1)
  {
    var found := FoundState(c, Seen(vs));
    if found.Ok? {
      if ReadValid(c, Content(Seen(vs), PRIMARY)).None? {
        WrittenHolds(c, p, vs, found.value, names[0], names[1], vs1);
      }
      assert ReadValid(c, Content(Seen(vs1), PRIMARY)) == Some(found.value);
      if Clean(found.value) != found.value {
        WrittenHolds(c, p, vs1, Clean(found.value), names[2], names[3], vs');
      }
      HoldsStateMeans(c, Seen(vs'), PRIMARY, Clean(found.value));
    }
  }
}
