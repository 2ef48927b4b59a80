/** How the repository state reaches the disk: a synced temporary file, an optional backup of
    the old file, an atomic replacement, and the recovery when the program starts. */
module StateFile {
  import opened Prelude
  import opened Profiles
  import opened ProxyJump
  import opened HostRecords
  import opened Repository
  import opened RepositoryRuns

  const MAX_STATE_BYTES := 16 * 1024 * 1024
  const PRIMARY := "state-v2.json"
  const BACKUP := "state-v2.json.bak"

  type Bytes = seq<Byte>

  /** The JSON codec, known only by reading back what it wrote. */
  datatype Codec = Codec(encode: PersistedState -> Bytes, decode: Bytes -> Option<PersistedState>)

  ghost predicate RoundTrips(c: Codec) { forall s :: c.decode(c.encode(s)) == Some(s) }

  /** `synced` files survive a crash with their bytes; the others with any bytes. */
  datatype File = File(bytes: Bytes, synced: bool)
  type Directory = map<string, File>

  function Content(d: Directory, name: string): Option<Bytes> {
    if name in d then Some(d[name].bytes) else None
  }

  /** `read_valid_state`. */
  function ReadValid(c: Codec, bytes: Option<Bytes>): Option<PersistedState> {
    if bytes.None? || |bytes.value| > MAX_STATE_BYTES then None else
      var parsed := c.decode(bytes.value);
      if parsed.Some? && Validates(parsed.value) then parsed else None
  }

  // ---- File operations -----------------------------------------------------------------------

  datatype Op =
    | CreateNew(name: string)
    | Write(name: string, bytes: Bytes)
    | Sync(name: string)
    | Copy(from: string, to: string)
    | Rename(from: string, to: string)
    | Replace(from: string, to: string, keep: string)
    | SyncDirectory
    | NoOp

  function Apply(d: Directory, op: Op): Directory {
    match op
    case CreateNew(n) => d[n := File([], false)]
    case Write(n, bytes) => d[n := File(bytes, false)]
    case Sync(n) => if n in d then d[n := File(d[n].bytes, true)] else d
    case Copy(a, b) => if a in d then d[b := File(d[a].bytes, false)] else d
    case Rename(a, b) => if a in d then d[b := d[a]] - {a} else d
    case Replace(a, b, keep) => if a in d && b in d then d[keep := d[b]][b := d[a]] - {a} else d
    case SyncDirectory => d
    case NoOp => d
  }

  /** A directory that may be seen while `op` is under way: renames and replacements are
      atomic, writes and copies may stop anywhere. */
  ghost predicate During(d: Directory, op: Op, t: Directory) {
    || t == d || t == Apply(d, op)
    || (op.Write? && exists part :: t == d[op.name := File(part, false)])
    || (op.Copy? && exists part :: t == d[op.to := File(part, false)])
  }

  /** A crash makes of a directory: the same names, and the bytes of the files that were synced. */
  ghost predicate AfterCrash(t: Directory, c: Directory) {
    t.Keys == c.Keys && forall n | n in t :: c[n].synced && (t[n].synced ==> c[n].bytes == t[n].bytes)
  }

  /** The directory as of its last sync and after every operation since. Programs see the last of
      these views; a crash can leave any of them. */
  type Views = seq<Directory>

  function Seen(vs: Views): Directory
    requires vs != []
  {
    vs[|vs| - 1]
  }

  function ApplyTo(vs: Views, op: Op): Views
    requires vs != []
  {
    if op.SyncDirectory? then [Seen(vs)] else vs + [Apply(Seen(vs), op)]
  }

  ghost predicate CrashLeaves(vs: Views, vs': Views) { exists v, d :: v in vs && AfterCrash(v, d) && vs' == [d] }

  // ---- write_state ---------------------------------------------------------------------------

  datatype Platform = Posix | Windows

  /** One call: what to write, the two unique temporary names, and whether the current primary
      was found valid and is to be preserved as the backup. */
  datatype Job = Job(platform: Platform, bytes: Bytes, temp: string, spare: string, preserve: bool)

  const PHASES := 8

  /** The file operations of one call in order; a platform that has none in a place does nothing. On
      Windows the last two are one call that writes through. */
  function Phase(j: Job, k: nat): Op {
    var copies := j.platform.Posix? && j.preserve;
    if k == 0 then CreateNew(j.temp)
    else if k == 1 then Write(j.temp, j.bytes)
    else if k == 2 then Sync(j.temp)
    else if k == 3 && copies then Copy(PRIMARY, j.spare)
    else if k == 4 && copies then Sync(j.spare)
    else if k == 5 && copies then Rename(j.spare, BACKUP)
    else if k == 6 then
      if j.platform.Windows? && j.preserve then Replace(j.temp, PRIMARY, BACKUP) else Rename(j.temp, PRIMARY)
    else if k == 7 then SyncDirectory
    else NoOp
  }

  /** The directory after the first `k` phases. */
  function After(d: Directory, j: Job, k: nat): Directory {
    if k == 0 then d else Apply(After(d, j, k - 1), Phase(j, k - 1))
  }

  function ViewsAfter(vs: Views, j: Job, k: nat): (r: Views)
    requires vs != []
    ensures r != [] && Seen(r) == After(Seen(vs), j, k)
  {
    if k == 0 then vs else ApplyTo(ViewsAfter(vs, j, k - 1), Phase(j, k - 1))
  }

  datatype Fate = Completes | Fails(at: nat) | Crashes(at: nat)

  /** Errors before the replacement leave the temporary file; later ones remove it. The last phase
      changes nothing a program can see, but may still fail. */
  ghost predicate Performs(vs: Views, j: Job, fate: Fate, vs': Views)
    requires vs != []
  {
    match fate
    case Completes => vs' == ViewsAfter(vs, j, PHASES)
    case Fails(at) =>
      at < PHASES &&
        exists t :: During(After(Seen(vs), j, at), Phase(j, at), t)
                    && vs' == ViewsAfter(vs, j, at) + [t] + (if at >= 3 then [t - {j.temp}] else [])
    case Crashes(at) =>
      at < PHASES && exists t ::
        During(After(Seen(vs), j, at), Phase(j, at), t) && CrashLeaves(ViewsAfter(vs, j, at) + [t], vs')
  }

  predicate Accepted(c: Codec, s: PersistedState) { Validates(s) && |c.encode(s)| <= MAX_STATE_BYTES }

  function JobFor(c: Codec, p: Platform, d: Directory, s: PersistedState, temp: string, spare: string): Job {
    Job(p, c.encode(s), temp, spare, ReadValid(c, Content(d, PRIMARY)).Some?)
  }

  /** `write_state`: a state that fails a check is refused before the disk is touched. */
  ghost predicate WriteState(c: Codec, p: Platform, vs: Views, s: PersistedState, temp: string, spare: string,
                             fate: Fate, vs': Views)
    requires vs != []
  {
    if Accepted(c, s) then Performs(vs, JobFor(c, p, Seen(vs), s, temp, spare), fate, vs')
      else vs' == vs && !fate.Completes?
  }

  // ---- Nothing half-written is ever seen -------------------------------------------------------

  ghost predicate FreshNames(d: Directory, temp: string, spare: string) {
    && temp != spare && temp !in {PRIMARY, BACKUP} && spare !in {PRIMARY, BACKUP}
    && temp !in d && spare !in d
  }

  /** Both state files are on the disk for good. */
  ghost predicate Settled(d: Directory) {
    forall n | n in {PRIMARY, BACKUP} && n in d :: d[n].synced
  }

  ghost predicate Holds(d: Directory, name: string, bytes: Bytes) {
    name in d && d[name] == File(bytes, true)
  }

  ghost predicate SameFile(a: Directory, b: Directory, name: string) {
    (name in a <==> name in b) && (name in a ==> a[name] == b[name])
  }

  /** The state files after `k` phases: the backup is replaced first, by the valid old primary,
      then the primary, by the whole new file. */
  ghost predicate Reached(d: Directory, j: Job, k: nat, t: Directory)
    requires j.preserve ==> PRIMARY in d
  {
    && (if k > 6 then Holds(t, PRIMARY, j.bytes) else SameFile(d, t, PRIMARY))
    && (if j.preserve && k > (if j.platform.Posix? then 5 else 6)
        then Holds(t, BACKUP, d[PRIMARY].bytes) else SameFile(d, t, BACKUP))
  }

  ghost predicate JobReady(d: Directory, j: Job) {
    FreshNames(d, j.temp, j.spare) && Settled(d) && (j.preserve ==> PRIMARY in d)
  }

  /** The temporaries while they are needed. */
  ghost predicate Staged(d: Directory, j: Job, k: nat, t: Directory)
    requires j.preserve ==> PRIMARY in d
  {
    && (3 <= k <= 6 ==> Holds(t, j.temp, j.bytes))
    && (k == 2 ==> j.temp in t && t[j.temp].bytes == j.bytes)
    && (k == 4 && j.platform.Posix? && j.preserve ==> j.spare in t && t[j.spare].bytes == d[PRIMARY].bytes)
    && (k == 5 && j.platform.Posix? && j.preserve ==> Holds(t, j.spare, d[PRIMARY].bytes))
  }

  lemma PhaseKeeps(d: Directory, j: Job, k: nat, t: Directory)
    requires JobReady(d, j) && k < PHASES && Reached(d, j, k, t) && Staged(d, j, k, t)
    ensures var t' := Apply(t, Phase(j, k)); Reached(d, j, k + 1, t') && Staged(d, j, k + 1, t')
  {
  }

  lemma {:induction false} AfterReaches(d: Directory, j: Job, k: nat)
    requires JobReady(d, j) && k <= PHASES
    ensures Reached(d, j, k, After(d, j, k)) && Staged(d, j, k, After(d, j, k))
  {
    if k > 0 {
      AfterReaches(d, j, k - 1);
      PhaseKeeps(d, j, k - 1, After(d, j, k - 1));
    }
  }

  /** A phase under way shows the state files as before it or as after it. */
  lemma DuringReached(d: Directory, j: Job, k: nat, t: Directory, u: Directory)
    requires JobReady(d, j) && k < PHASES && Reached(d, j, k, t) && Staged(d, j, k, t)
    requires During(t, Phase(j, k), u)
    ensures Reached(d, j, k, u) || Reached(d, j, k + 1, u)
  {
    PhaseKeeps(d, j, k, t);
  }

  lemma CrashKeepsReached(d: Directory, j: Job, k: nat, t: Directory, c: Directory)
    requires JobReady(d, j) && Reached(d, j, k, t) && AfterCrash(t, c)
    ensures Reached(d, j, k, c)
  {
  }

  lemma {:induction false} ViewsReach(vs: Views, j: Job, k: nat, v: Directory)
    requires vs != [] && JobReady(Seen(vs), j) && k <= PHASES && v in ViewsAfter(vs, j, k)
    ensures v in vs || exists m: nat | m <= k :: Reached(Seen(vs), j, m, v)
  {
    AfterReaches(Seen(vs), j, k);
    if k > 0 && v in ViewsAfter(vs, j, k - 1) { ViewsReach(vs, j, k - 1, v); }
  }

  ghost predicate SettledViews(vs: Views) { vs != [] && forall v | v in vs :: Settled(v) }

  ghost predicate SameStateFiles(a: Directory, b: Directory) { SameFile(a, b, PRIMARY) && SameFile(a, b, BACKUP) }

  /** The state files of `v` are those of an older view, or as after a whole number of phases. */
  ghost predicate FromCall(vs: Views, j: Job, v: Directory)
    requires vs != [] && JobReady(Seen(vs), j)
  {
    (exists u | u in vs :: SameStateFiles(u, v)) || exists k: nat | k <= PHASES :: Reached(Seen(vs), j, k, v)
  }

  lemma ViewFromCall(vs: Views, j: Job, at: nat, t: Directory, v: Directory)
    requires SettledViews(vs) && JobReady(Seen(vs), j) && at < PHASES
    requires During(After(Seen(vs), j, at), Phase(j, at), t) && v in ViewsAfter(vs, j, at) + [t]
    ensures v in vs || exists k: nat | k <= PHASES :: Reached(Seen(vs), j, k, v)
  {
    if v in ViewsAfter(vs, j, at) {
      ViewsReach(vs, j, at, v);
    } else {
      AfterReaches(Seen(vs), j, at);
      DuringReached(Seen(vs), j, at, After(Seen(vs), j, at), t);
    }
  }

  lemma CrashFromCall(vs: Views, j: Job, v: Directory, d: Directory)
    requires SettledViews(vs) && JobReady(Seen(vs), j) && AfterCrash(v, d)
    requires v in vs || exists k: nat | k <= PHASES :: Reached(Seen(vs), j, k, v)
    ensures FromCall(vs, j, d)
  {
    if v in vs {
      assert SameStateFiles(v, d);
    } else {
      var k: nat :| k <= PHASES && Reached(Seen(vs), j, k, v);
      CrashKeepsReached(Seen(vs), j, k, v, d);
    }
  }

  lemma RemovalFromCall(vs: Views, j: Job, v: Directory)
    requires SettledViews(vs) && JobReady(Seen(vs), j)
    requires v in vs || exists k: nat | k <= PHASES :: Reached(Seen(vs), j, k, v)
    ensures FromCall(vs, j, v) && FromCall(vs, j, v - {j.temp})
  {
    if v in vs {
      assert SameStateFiles(v, v) && SameStateFiles(v, v - {j.temp});
    } else {
      var k: nat :| k <= PHASES && Reached(Seen(vs), j, k, v);
      assert Reached(Seen(vs), j, k, v - {j.temp});
    }
  }

  /** Whatever happens to one call, all it leaves for programs and crashes to find is from before it,
      or as if a whole number of its phases had been done. */
  lemma PerformReaches(vs: Views, j: Job, fate: Fate, vs': Views)
    requires SettledViews(vs) && JobReady(Seen(vs), j) && Performs(vs, j, fate, vs')
    ensures vs' != [] && forall v | v in vs' :: FromCall(vs, j, v)
  {
    match fate
    case Completes =>
      forall v | v in vs' ensures FromCall(vs, j, v) {
        ViewsReach(vs, j, PHASES, v);
        RemovalFromCall(vs, j, v);
      }
    case Fails(at) =>
      var t :| During(After(Seen(vs), j, at), Phase(j, at), t)
        && vs' == ViewsAfter(vs, j, at) + [t] + (if at >= 3 then [t - {j.temp}] else []);
      ViewFromCall(vs, j, at, t, t);
      RemovalFromCall(vs, j, t);
      forall v | v in ViewsAfter(vs, j, at) + [t] ensures FromCall(vs, j, v) {
        ViewFromCall(vs, j, at, t, v);
        RemovalFromCall(vs, j, v);
      }
    case Crashes(at) =>
      var t :| During(After(Seen(vs), j, at), Phase(j, at), t) && CrashLeaves(ViewsAfter(vs, j, at) + [t], vs');
      var v, d :| v in ViewsAfter(vs, j, at) + [t] && AfterCrash(v, d) && vs' == [d];
      ViewFromCall(vs, j, at, t, v);
      CrashFromCall(vs, j, v, d);
  }

  /** What programs see after a call that did not crash. */
  lemma EndReaches(vs: Views, j: Job, fate: Fate, vs': Views) returns (k: nat)
    requires SettledViews(vs) && JobReady(Seen(vs), j) && Performs(vs, j, fate, vs') && !fate.Crashes?
    ensures vs' != [] && k <= PHASES && Reached(Seen(vs), j, k, Seen(vs'))
    ensures if fate.Completes? then k == PHASES && |vs'| == 1 else fate.at <= k <= fate.at + 1
  {
    if fate.Completes? {
      AfterReaches(Seen(vs), j, PHASES);
      k := PHASES;
      assert Phase(j, PHASES - 1).SyncDirectory?;
    } else {
      var at := fate.at;
      var t :| During(After(Seen(vs), j, at), Phase(j, at), t)
        && vs' == ViewsAfter(vs, j, at) + [t] + (if at >= 3 then [t - {j.temp}] else []);
      AfterReaches(Seen(vs), j, at);
      DuringReached(Seen(vs), j, at, After(Seen(vs), j, at), t);
      k := if Reached(Seen(vs), j, at, t) then at else at + 1;
      assert Seen(vs') == if at >= 3 then t - {j.temp} else t;
    }
  }

  /** The primary is entirely the old or entirely the new file; the backup is untouched or the valid
      old primary; and the new primary is not there before the old one is safe in the backup. */
  ghost predicate PartWay(c: Codec, d: Directory, s: PersistedState, v: Directory) {
    && Settled(v)
    && (Content(v, PRIMARY) == Content(d, PRIMARY) || (Accepted(c, s) && Content(v, PRIMARY) == Some(c.encode(s))))
    && (Content(v, BACKUP) == Content(d, BACKUP)
        || (Content(v, BACKUP) == Content(d, PRIMARY) && ReadValid(c, Content(d, PRIMARY)).Some?))
    && (Content(v, PRIMARY) != Content(d, PRIMARY) && ReadValid(c, Content(d, PRIMARY)).Some? ==>
          Content(v, BACKUP) == Content(d, PRIMARY))
  }

  lemma ReachedPartWay(c: Codec, p: Platform, d: Directory, s: PersistedState, temp: string, spare: string, k: nat,
      v: Directory)
    requires FreshNames(d, temp, spare) && Settled(d) && Accepted(c, s)
    requires Reached(d, JobFor(c, p, d, s, temp, spare), k, v)
    ensures PartWay(c, d, s, v)
  {
  }

  /** However a write ends, by success, error or crash at any point: whatever programs see or any
      crash leaves has the state files of before the call or of a point part way through it. */
  lemma WriteIsAtomic(c: Codec, p: Platform, vs: Views, s: PersistedState, temp: string, spare: string, fate: Fate,
      vs': Views)
    requires SettledViews(vs) && FreshNames(Seen(vs), temp, spare) && WriteState(c, p, vs, s, temp, spare, fate, vs')
    ensures SettledViews(vs')
    ensures forall v | v in vs' :: PartWay(c, Seen(vs), s, v) || exists u | u in vs :: SameStateFiles(u, v)
  {
    if Accepted(c, s) {
      var j := JobFor(c, p, Seen(vs), s, temp, spare);
      PerformReaches(vs, j, fate, vs');
      forall v | v in vs'
        ensures Settled(v) && (PartWay(c, Seen(vs), s, v) || exists u | u in vs :: SameStateFiles(u, v))
      {
        if k: nat :| k <= PHASES && Reached(Seen(vs), j, k, v) { ReachedPartWay(c, p, Seen(vs), s, temp, spare, k, v); }
      }
    } else {
      forall v | v in vs' ensures SameStateFiles(v, v) { }
    }
  }

  /** A completed write is durable: the new state is all that programs see and any crash leaves. */
  lemma CompletedIsDurable(c: Codec, p: Platform, vs: Views, s: PersistedState, temp: string, spare: string, vs': Views)
    requires SettledViews(vs) && FreshNames(Seen(vs), temp, spare)
      && WriteState(c, p, vs, s, temp, spare, Completes, vs')
    ensures Accepted(c, s) && |vs'| == 1 && Content(Seen(vs'), PRIMARY) == Some(c.encode(s))
    ensures PartWay(c, Seen(vs), s, Seen(vs'))
    ensures forall left | CrashLeaves(vs', left) :: SameStateFiles(Seen(vs'), left[0])
  {
    var j := JobFor(c, p, Seen(vs), s, temp, spare);
    var k := EndReaches(vs, j, Completes, vs');
    ReachedPartWay(c, p, Seen(vs), s, temp, spare, k, Seen(vs'));
  }

  /** An error that is reported before the primary is replaced leaves the old file in sight; one
      reported by the directory sync comes too late for that. */
  lemma FailureLeaves(c: Codec, p: Platform, vs: Views, s: PersistedState, temp: string, spare: string, at: nat,
      vs': Views)
    requires SettledViews(vs) && FreshNames(Seen(vs), temp, spare) && Accepted(c, s)
    requires WriteState(c, p, vs, s, temp, spare, Fails(at), vs')
    ensures vs' != [] && PartWay(c, Seen(vs), s, Seen(vs'))
    ensures at < 6 ==> Content(Seen(vs'), PRIMARY) == Content(Seen(vs), PRIMARY)
    ensures at > 6 ==> Content(Seen(vs'), PRIMARY) == Some(c.encode(s))
  {
    var j := JobFor(c, p, Seen(vs), s, temp, spare);
    var k := EndReaches(vs, j, Fails(at), vs');
    ReachedPartWay(c, p, Seen(vs), s, temp, spare, k, Seen(vs'));
  }

  // ---- open ------------------------------------------------------------------------------------

  function CleanHost(h: Host): Host {
    if h.auth.PrivateKey? then h else h.(identityFile := None)
  }

  /** `clear_inactive_identity_files`. */
  function Clean(s: PersistedState): PersistedState {
    s.(hosts := seq(|s.hosts|, i requires 0 <= i < |s.hosts| => CleanHost(s.hosts[i])))
  }

  /** The state found on opening, or an error. */
  function FoundState(c: Codec, d: Directory): Result<PersistedState, Error> {
    if PRIMARY !in d then Ok(INITIAL.state)
    else
      var primary := ReadValid(c, Content(d, PRIMARY));
      if primary.Some? then Ok(primary.value) else
        var backup := ReadValid(c, Content(d, BACKUP));
        if backup.Some? then Ok(backup.value) else Err(State)
  }

  /** One complete opening, first writing a missing or recovered primary, then a cleaned one. */
  ghost predicate Opens(c: Codec, p: Platform, vs: Views, vs1: Views, vs': Views, names: seq<string>, fates: seq<Fate>)
    requires vs != [] && vs1 != []
  {
    && |names| == 4 && |fates| == 2
    && var found := FoundState(c, Seen(vs));
    if found.Err? then vs1 == vs && vs' == vs
    else
      var rewrite := ReadValid(c, Content(Seen(vs), PRIMARY)).None?;
      && (if rewrite then WriteState(c, p, vs, found.value, names[0], names[1], fates[0], vs1)
          else vs1 == vs && fates[0].Completes?)
      && (if fates[0].Completes? && Clean(found.value) != found.value
          then WriteState(c, p, vs1, Clean(found.value), names[2], names[3], fates[1], vs')
          else vs' == vs1)
  }

  lemma CleanValid(h: Host)
    requires ValidHost(h)
    ensures ValidHost(CleanHost(h))
  {
  }

  ghost predicate Cleaned(before: Hosts, after: Hosts) {
    |after| == |before| && forall i | 0 <= i < |before| :: after[i] == CleanHost(before[i])
  }

  lemma CleanedStaysValid(before: Hosts, after: Hosts)
    requires Cleaned(before, after) && AllValid(before)
    ensures AllValid(after)
  {
    forall h | h in after ensures ValidHost(h) {
      var i :| 0 <= i < |after| && after[i] == h;
      assert before[i] in before;
      CleanValid(before[i]);
    }
  }

  lemma CleanedStaysDeep(before: Hosts, after: Hosts)
    requires Cleaned(before, after) && DistinctHosts(before) && IdsOk(before) && DepthOne(before)
    ensures DistinctHosts(after) && IdsOk(after) && DepthOne(after)
  {
    forall h | h in after ensures IsId(h.id) {
      var i :| 0 <= i < |after| && after[i] == h;
      assert before[i] in before;
    }
    forall i | 0 <= i < |after| && after[i].proxyJump.Some? ensures exists j: nat :: JumpsTo(after, i, j) {
      var j: nat :| JumpsTo(before, i, j);
      assert JumpsTo(after, i, j);
    }
  }

  lemma CleanedKeepsIds(before: Hosts, after: Hosts)
    requires Cleaned(before, after)
    ensures forall id | HasHost(before, id) :: HasHost(after, id)
  {
    forall id | HasHost(before, id) ensures HasHost(after, id) {
      var h :| h in before && h.id == id;
      var i :| 0 <= i < |before| && before[i] == h;
      assert after[i] in after;
    }
  }

  /** Dropping inactive key files keeps a state sound. */
  lemma CleanKeepsSound(s: PersistedState)
    requires Sound(s)
    ensures Sound(Clean(s))
  {
    var hosts := Clean(s).hosts;
    CleanedStaysValid(s.hosts, hosts);
    CleanedStaysDeep(s.hosts, hosts);
    CleanedKeepsIds(s.hosts, hosts);
    RecordsFollowHosts(s.tunnels, s.commands, s.hosts, hosts);
  }

  // ---- Whole histories of the directory --------------------------------------------------------

  /** A state every run of the repository keeps: nothing rechecks its jumps when it is loaded. */
  ghost predicate Kept(s: PersistedState) { Sound(s) && WithinCounts(s) }

  datatype Event =
    | Save(state: PersistedState, temp: string, spare: string, fate: Fate)
    | Open(names: seq<string>, fates: seq<Fate>, between: Views)
    | Spoil(bytes: Bytes)
    | Crash

  /** One event: a save of a kept state, an opening, damage that makes the primary invalid, or a crash
      between two calls. */
  ghost predicate Happens(c: Codec, p: Platform, vs: Views, e: Event, vs': Views)
    requires vs != []
  {
    match e
    case Save(s, temp, spare, fate) =>
      Kept(s) && FreshNames(Seen(vs), temp, spare) && WriteState(c, p, vs, s, temp, spare, fate, vs')
    case Open(names, fates, vs1) =>
      && vs1 != [] && Opens(c, p, vs, vs1, vs', names, fates)
      && FreshNames(Seen(vs), names[0], names[1]) && FreshNames(Seen(vs1), names[2], names[3])
    case Spoil(bytes) =>
      PRIMARY in Seen(vs) && ReadValid(c, Some(bytes)).None? && vs' == vs + [Seen(vs)[PRIMARY := File(bytes, true)]]
    case Crash => CrashLeaves(vs, vs')
  }

  /** The primary holds a kept state or was damaged; the backup, once there, holds a kept state. */
  ghost predicate Healthy(c: Codec, d: Directory) {
    && Settled(d)
    && (ReadValid(c, Content(d, PRIMARY)).Some? ==> Kept(ReadValid(c, Content(d, PRIMARY)).value))
    && (BACKUP in d ==> ReadValid(c, Content(d, BACKUP)).Some? && Kept(ReadValid(c, Content(d, BACKUP)).value))
  }

  ghost predicate HealthyViews(c: Codec, vs: Views) { vs != [] && forall v | v in vs :: Healthy(c, v) }

  /** No crash can take the backup away. */
  ghost predicate BackupIsDurable(vs: Views) { forall v | v in vs :: BACKUP in v }

  lemma WrittenReadsBack(c: Codec, s: PersistedState)
    requires RoundTrips(c) && Accepted(c, s)
    ensures ReadValid(c, Some(c.encode(s))) == Some(s)
  {
  }

  lemma PartWayHealthy(c: Codec, d: Directory, s: PersistedState, v: Directory)
    requires RoundTrips(c) && Healthy(c, d) && Kept(s) && PartWay(c, d, s, v)
    ensures Healthy(c, v) && (BACKUP in d ==> BACKUP in v)
  {
    if Accepted(c, s) { WrittenReadsBack(c, s); }
    assert BACKUP in v <==> Content(v, BACKUP).Some?;
    assert BACKUP in d <==> Content(d, BACKUP).Some?;
  }

  lemma WriteKeepsHealthy(c: Codec, p: Platform, vs: Views, s: PersistedState, temp: string, spare: string, fate: Fate,
      vs': Views)
    requires RoundTrips(c) && HealthyViews(c, vs) && Kept(s) && FreshNames(Seen(vs), temp, spare)
    requires WriteState(c, p, vs, s, temp, spare, fate, vs')
    ensures HealthyViews(c, vs') && (BackupIsDurable(vs) ==> BackupIsDurable(vs'))
  {
    WriteIsAtomic(c, p, vs, s, temp, spare, fate, vs');
    assert Seen(vs) in vs;
    forall v | v in vs' ensures Healthy(c, v) && (BackupIsDurable(vs) ==> BACKUP in v) {
      if PartWay(c, Seen(vs), s, v) { PartWayHealthy(c, Seen(vs), s, v); }
    }
  }

  lemma FoundIsKept(c: Codec, d: Directory)
    requires Healthy(c, d)
    ensures FoundState(c, d).Ok? ==> Kept(FoundState(c, d).value)
    ensures FoundState(c, d).Err? <==> PRIMARY in d && ReadValid(c, Content(d, PRIMARY)).None? && BACKUP !in d
  {
    InitialInv();
  }

  lemma OpenKeepsHealthy(c: Codec, p: Platform, vs: Views, e: Event, vs': Views)
    requires RoundTrips(c) && HealthyViews(c, vs) && e.Open? && Happens(c, p, vs, e, vs')
    ensures HealthyViews(c, vs') && (BackupIsDurable(vs) ==> BackupIsDurable(vs'))
  {
    var Open(names, fates, vs1) := e;
    assert Seen(vs) in vs;
    FoundIsKept(c, Seen(vs));
    var found := FoundState(c, Seen(vs));
    if found.Ok? {
      if ReadValid(c, Content(Seen(vs), PRIMARY)).None? {
        WriteKeepsHealthy(c, p, vs, found.value, names[0], names[1], fates[0], vs1);
      }
      CleanKeepsSound(found.value);
      if fates[0].Completes? && Clean(found.value) != found.value {
        WriteKeepsHealthy(c, p, vs1, Clean(found.value), names[2], names[3], fates[1], vs');
      }
    }
  }

  lemma EventKeepsHealthy(c: Codec, p: Platform, vs: Views, e: Event, vs': Views)
    requires RoundTrips(c) && HealthyViews(c, vs) && Happens(c, p, vs, e, vs')
    ensures HealthyViews(c, vs') && (BackupIsDurable(vs) ==> BackupIsDurable(vs'))
  {
    match e
    case Save(s, temp, spare, fate) => WriteKeepsHealthy(c, p, vs, s, temp, spare, fate, vs');
    case Open(_, _, _) => OpenKeepsHealthy(c, p, vs, e, vs');
    case Spoil(bytes) => assert Seen(vs) in vs;
    case Crash =>
      var v, d :| v in vs && AfterCrash(v, d) && vs' == [d];
      assert AfterCrash(v, d);
      assert SameStateFiles(v, d);
  }

  ghost predicate IsHistory(c: Codec, p: Platform, hs: seq<Views>, es: seq<Event>) {
    && |hs| == |es| + 1 && (forall k | 0 <= k < |hs| :: hs[k] != [])
    && hs[0] == [Seen(hs[0])] && PRIMARY !in Seen(hs[0]) && BACKUP !in Seen(hs[0])
    && forall k | 0 <= k < |es| :: Happens(c, p, hs[k], es[k], hs[k + 1])
  }

  /** In every history of saves, openings, crashes and damage, whatever an opening finds, now or after
      a crash, is a state the repository keeps; a durable backup is never lost or replaced by an
      invalid file; and opening fails exactly when a damaged primary has no backup. */
  lemma {:induction false} EveryHistoryIsHealthy(c: Codec, p: Platform, hs: seq<Views>, es: seq<Event>, k: nat)
    requires RoundTrips(c) && IsHistory(c, p, hs, es) && k < |hs|
    ensures HealthyViews(c, hs[k])
    ensures forall i | 0 <= i <= k :: BackupIsDurable(hs[i]) ==> BackupIsDurable(hs[k])
    ensures forall v | v in hs[k] ::
      && (FoundState(c, v).Ok? ==> Kept(FoundState(c, v).value))
      && (FoundState(c, v).Err? <==> PRIMARY in v && ReadValid(c, Content(v, PRIMARY)).None? && BACKUP !in v)
  {
    if k > 0 {
      EveryHistoryIsHealthy(c, p, hs, es, k - 1);
      EventKeepsHealthy(c, p, hs[k - 1], es[k - 1], hs[k]);
    }
    forall v | v in hs[k]
      ensures FoundState(c, v).Ok? ==> Kept(FoundState(c, v).value)
      ensures FoundState(c, v).Err? <==> PRIMARY in v && ReadValid(c, Content(v, PRIMARY)).None? && BACKUP !in v
    {
      FoundIsKept(c, v);
    }
  }

  lemma FoundBySameFiles(c: Codec, u: Directory, v: Directory)
    requires SameStateFiles(u, v)
    ensures FoundState(c, u) == FoundState(c, v)
  {
  }

  lemma FoundPartWay(c: Codec, d: Directory, s: PersistedState, v: Directory)
    requires RoundTrips(c) && PartWay(c, d, s, v)
    ensures FoundState(c, v) == FoundState(c, d) || (Accepted(c, s) && FoundState(c, v) == Ok(s))
  {
    if Accepted(c, s) { WrittenReadsBack(c, s); }
    assert PRIMARY in v <==> Content(v, PRIMARY).Some?;
    assert PRIMARY in d <==> Content(d, PRIMARY).Some?;
  }

  /** Opening after an interrupted write finds the new state or one that could have been found before,
      also while a damaged primary is being recovered; after a completed write, and whatever crash
      follows, it finds the new state. */
  lemma OpenAfterInterruption(c: Codec, p: Platform, vs: Views, s: PersistedState, temp: string, spare: string,
      fate: Fate, vs': Views)
    requires RoundTrips(c) && SettledViews(vs) && FreshNames(Seen(vs), temp, spare)
    requires WriteState(c, p, vs, s, temp, spare, fate, vs')
    ensures forall v | v in vs' ::
      (Accepted(c, s) && FoundState(c, v) == Ok(s)) || exists u | u in vs :: FoundState(c, v) == FoundState(c, u)
    ensures fate.Completes? ==> forall v | v in vs' :: FoundState(c, v) == Ok(s)
  {
    WriteIsAtomic(c, p, vs, s, temp, spare, fate, vs');
    assert Seen(vs) in vs;
    forall v | v in vs'
      ensures (Accepted(c, s) && FoundState(c, v) == Ok(s))
        || exists u | u in vs :: FoundState(c, v) == FoundState(c, u)
    {
      if PartWay(c, Seen(vs), s, v) {
        FoundPartWay(c, Seen(vs), s, v);
      } else {
        var u :| u in vs && SameStateFiles(u, v);
        FoundBySameFiles(c, u, v);
      }
    }
    if fate.Completes? {
      CompletedIsDurable(c, p, vs, s, temp, spare, vs');
      WrittenReadsBack(c, s);
    }
  }

  /** While the primary is damaged, no write touches the backup. */
  lemma BackupOnlyWithPrimary(c: Codec, p: Platform, vs: Views, s: PersistedState, temp: string, spare: string,
      fate: Fate, vs': Views)
    requires SettledViews(vs) && FreshNames(Seen(vs), temp, spare) && WriteState(c, p, vs, s, temp, spare, fate, vs')
    requires ReadValid(c, Content(Seen(vs), PRIMARY)).None?
    ensures forall v | v in vs' :: exists u | u in vs :: Content(v, BACKUP) == Content(u, BACKUP)
  {
    WriteIsAtomic(c, p, vs, s, temp, spare, fate, vs');
    assert Seen(vs) in vs;
  }
}
