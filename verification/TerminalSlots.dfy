/** The registry of terminal sessions: `Starting` and `Running` slots, raced by spawners,
    closers, readers and waiters and kept apart by generation numbers. */
module TerminalSlots {
  import opened Prelude
  import opened Pruning

  const MAX_ACTIVE := 32
  const MAX_RETAINED := 256

  datatype TerminalState = Running | Offline | Closed | Failed

  datatype Snapshot = Snapshot(sessionId: string, generation: nat, revision: nat, hostId: string,
                               state: TerminalState, exitCode: Option<int>, error: Option<string>)

  datatype Record = Record(generation: nat, snapshot: Snapshot)

  datatype Slot =
    | StartingSlot(generation: nat, hostId: string, closeRequested: bool, hasCleanup: bool)
    | RunningSlot(generation: nat, hostId: string)

  datatype Registry = Registry(active: map<string, Slot>, snapshots: map<string, Record>)

  predicate IsStarting(r: Registry, id: string, g: nat) {
    id in r.active && r.active[id].StartingSlot? && r.active[id].generation == g
  }

  predicate IsRunning(r: Registry, id: string, g: nat) {
    id in r.active && r.active[id].RunningSlot? && r.active[id].generation == g
  }

  predicate IsCurrent(r: Registry, id: string, g: nat) {
    id in r.active && r.active[id].generation == g
  }

  // ---- Critical sections -----------------------------------------------------------------------

  /** `reserve_slot`; `None` when too many sessions are active. */
  function ReserveSlot(r: Registry, id: string, host: string, g: nat): Option<Registry> {
    if |r.active| >= MAX_ACTIVE then None
    else Some(r.(active := r.active[id := StartingSlot(g, host, false, false)]))
  }

  function ReserveNew(r: Registry, id: string, host: string, g: nat): Option<Registry> {
    if id in r.active || id in r.snapshots then None else ReserveSlot(r, id, host, g)
  }

  function ReserveReconnect(r: Registry, id: string, host: string, g: nat): Option<Registry> {
    if id !in r.snapshots || r.snapshots[id].snapshot.hostId != host || id in r.active then None
    else ReserveSlot(r, id, host, g)
  }

  function RegisterCleanup(r: Registry, id: string, g: nat): (Registry, bool) {
    if !IsStarting(r, id, g) then (r, false)
    else (r.(active := r.active[id := r.active[id].(hasCleanup := true)]), !r.active[id].closeRequested)
  }

  predicate TooManyRecords(snapshots: map<string, Record>) { |snapshots| > MAX_RETAINED }

  function AgeOf(r: Record): nat { r.generation }

  /** `prune_terminal_records`: sessions with a slot keep their record. */
  ghost function PruneRecords(snapshots: map<string, Record>, active: set<string>): map<string, Record> {
    Prune(snapshots, active, TooManyRecords, AgeOf)
  }

  ghost function CommitRunning(r: Registry, id: string, g: nat, host: string, s: Snapshot): (Registry, bool) {
    if !IsStarting(r, id, g) || r.active[id].closeRequested then (r, false)
    else
      var active := r.active[id := RunningSlot(g, host)];
      (Registry(active, PruneRecords(r.snapshots[id := Record(g, s)], active.Keys)), true)
  }

  /** Drops a slot, and its snapshot too when asked. */
  function Remove(r: Registry, id: string, withSnapshot: bool): Registry {
    Registry(r.active - {id}, if withSnapshot then r.snapshots - {id} else r.snapshots)
  }

  function Release(r: Registry, id: string, g: nat): Registry {
    if !IsStarting(r, id, g) then r else Remove(r, id, r.active[id].closeRequested)
  }

  /** The last critical section of an aborted spawn whose child was terminated. */
  function Abort(r: Registry, id: string, g: nat, removeSnapshot: bool): Registry {
    if !IsCurrent(r, id, g) then r
    else Remove(r, id, removeSnapshot || (r.active[id].StartingSlot? && r.active[id].closeRequested))
  }

  /** What closing a session asks first: which generation, and whether there is a child to end. */
  datatype Closing = Done | Missing | Ends(generation: nat, terminate: bool)

  function CloseBegin(r: Registry, id: string): (Registry, Closing) {
    if id !in r.active then
      if id in r.snapshots then (r.(snapshots := r.snapshots - {id}), Done) else (r, Missing)
    else
      var slot := r.active[id];
      match slot
      case StartingSlot(g, host, _, cleanup) =>
        (r.(active := r.active[id := StartingSlot(g, host, true, cleanup)]), Ends(g, cleanup))
      case RunningSlot(g, _) => (r, Ends(g, true))
  }

  function CloseEnd(r: Registry, id: string, g: nat): Registry {
    if IsCurrent(r, id, g) then Remove(r, id, true) else r
  }

  function Exited(s: Snapshot, code: Option<int>, signal: Option<string>): Snapshot {
    var state := if code == Some(0) then Closed else Offline;
    var revised := s.(state := state, exitCode := code, error := signal);
    if revised != s then revised.(revision := s.revision + 1) else s
  }

  /** `finalize_exit`, with the snapshot it emits. */
  function FinalizeExit(r: Registry, id: string, g: nat, code: Option<int>,
      signal: Option<string>): (Registry, Option<Snapshot>) {
    if !IsRunning(r, id, g) || id !in r.snapshots || r.snapshots[id].generation != g then (r, None)
    else
      var s := Exited(r.snapshots[id].snapshot, code, signal);
      (Registry(r.active - {id}, r.snapshots[id := Record(g, s)]), Some(s))
  }

  /** `record_terminal_error`, with the snapshot it emits. */
  function RecordError(r: Registry, id: string, g: nat, message: string): (Registry, Option<Snapshot>) {
    if !IsRunning(r, id, g) || id !in r.snapshots || r.snapshots[id].generation != g then (r, None)
    else
      var s := r.snapshots[id].snapshot;
      if s.state.Failed? && s.error == Some(message) then (r, None)
      else
        var failed := s.(state := Failed, error := Some(message), revision := s.revision + 1);
        (r.(snapshots := r.snapshots[id := Record(g, failed)]), Some(failed))
  }

  // ---- Interleavings -----------------------------------------------------------------------------

  /** What a spawning thread carries from its reservation to its commit. */
  datatype Spawn = Spawn(sessionId: string, hostId: string, revision: nat)

  /** `tickets` are generations taken before the lock and not used yet; `log` is every snapshot
      in the order it was recorded. */
  datatype World = World(registry: Registry, nextGeneration: nat, tickets: set<nat>,
                         spawns: map<nat, Spawn>, log: seq<Snapshot>, closed: set<nat>)

  datatype Step =
    | TakeGeneration
    | StartNew(id: string, host: string, g: nat)
    | Reconnect(id: string, host: string, g: nat)
    | Register(g: nat)
    | Commit(g: nat)
    | GiveUp(g: nat)
    | AbortSpawn(g: nat, removeSnapshot: bool)
    | BeginClose(id: string)
    | EndClose(id: string, g: nat)
    | Exit(g: nat, code: Option<int>, signal: Option<string>)
    | WaitError(g: nat, message: string)
    | StopAll

  function FirstSnapshot(spawn: Spawn, g: nat): Snapshot {
    Snapshot(spawn.sessionId, g, spawn.revision, spawn.hostId, Running, None, None)
  }

  function Reserved(w: World, after: Option<Registry>, g: nat, spawn: Spawn): World {
    var used := w.(tickets := w.tickets - {g});
    if after.None? then used else used.(registry := after.value, spawns := w.spawns[g := spawn])
  }

  function Logged(w: World, out: (Registry, Option<Snapshot>)): World {
    w.(registry := out.0, log := if out.1.Some? then w.log + [out.1.value] else w.log)
  }

  ghost function Next(w: World, step: Step): World {
    var r := w.registry;
    match step
    case TakeGeneration =>
      w.(nextGeneration := w.nextGeneration + 1, tickets := w.tickets + {w.nextGeneration + 1})
    case StartNew(id, host, g) =>
      if g in w.tickets then Reserved(w, ReserveNew(r, id, host, g), g, Spawn(id, host, 1)) else w
    case Reconnect(id, host, g) =>
      if g in w.tickets then
        var revision := if id in r.snapshots then r.snapshots[id].snapshot.revision + 1 else 1;
        Reserved(w, ReserveReconnect(r, id, host, g), g, Spawn(id, host, revision))
      else w
    case Register(g) => if g in w.spawns then w.(registry := RegisterCleanup(r, w.spawns[g].sessionId, g).0) else w
    case Commit(g) =>
      if g in w.spawns then
        var spawn := w.spawns[g];
        var s := FirstSnapshot(spawn, g);
        var out := CommitRunning(r, spawn.sessionId, g, spawn.hostId, s);
        Logged(w, (out.0, if out.1 then Some(s) else None))
      else w
    case GiveUp(g) => if g in w.spawns then w.(registry := Release(r, w.spawns[g].sessionId, g)) else w
    case AbortSpawn(g, remove) => if g in w.spawns then w.(registry := Abort(r, w.spawns[g].sessionId, g, remove))
      else w
    case BeginClose(id) =>
      var out := CloseBegin(r, id);
      w.(registry := out.0,
         closed := if id in r.active && r.active[id].StartingSlot? then w.closed + {r.active[id].generation}
           else w.closed)
    case EndClose(id, g) => w.(registry := CloseEnd(r, id, g))
    case Exit(g, code, signal) =>
      if g in w.spawns then Logged(w, FinalizeExit(r, w.spawns[g].sessionId, g, code, signal)) else w
    case WaitError(g, message) =>
      if g in w.spawns then Logged(w, RecordError(r, w.spawns[g].sessionId, g, message)) else w
    case StopAll => w.(registry := Registry(map[], map[]))
  }

  /** A new session gets an id no recorded snapshot has carried. */
  ghost predicate IdsNew(w: World, step: Step) {
    step.StartNew? ==> forall s | s in w.log :: s.sessionId != step.id
  }

  // ---- Invariants ---------------------------------------------------------------------------------

  /** Every generation was taken once and belongs to at most one spawn. */
  ghost predicate Generations(w: World) {
    && (forall g | g in w.tickets :: 1 <= g <= w.nextGeneration && g !in w.spawns)
    && (forall g | g in w.spawns :: 1 <= g <= w.nextGeneration)
    && (forall g | g in w.closed :: g in w.spawns)
  }

  /** A slot belongs to the spawn that reserved it. */
  ghost predicate Owned(r: Registry, spawns: map<nat, Spawn>) {
    forall id | id in r.active ::
      r.active[id].generation in spawns && spawns[r.active[id].generation].sessionId == id
  }

  /** A record belongs to its session and generation. */
  ghost predicate RecordsOwned(r: Registry, spawns: map<nat, Spawn>) {
    forall id | id in r.snapshots ::
      var record := r.snapshots[id];
      && record.generation in spawns && spawns[record.generation].sessionId == id
      && record.snapshot.sessionId == id && record.snapshot.generation == record.generation
  }

  /** Every running slot has a snapshot of its own generation, not yet an exited one. */
  ghost predicate RunningRecorded(r: Registry) {
    forall id | id in r.active && r.active[id].RunningSlot? ::
      && id in r.snapshots && r.snapshots[id].generation == r.active[id].generation
      && r.snapshots[id].snapshot.state in {Running, Failed}
  }

  ghost predicate Bounded(r: Registry) { |r.active| <= MAX_ACTIVE && |r.snapshots| <= MAX_RETAINED }

  /** A generation closed while starting is never running, and still marked while it starts. */
  ghost predicate ClosedStays(r: Registry, closed: set<nat>) {
    forall id | id in r.active && r.active[id].generation in closed ::
      r.active[id].StartingSlot? && r.active[id].closeRequested
  }

  /** The retained snapshot of a session is the last one recorded for it. */
  ghost predicate Latest(r: Registry, log: seq<Snapshot>) {
    forall id, k | id in r.snapshots && 0 <= k < |log| && log[k].sessionId == id ::
      log[k].revision <= r.snapshots[id].snapshot.revision
  }

  /** A starting slot will commit a revision beyond everything recorded for its session. */
  ghost predicate Advancing(r: Registry, spawns: map<nat, Spawn>, log: seq<Snapshot>) {
    forall id, k | id in r.active && r.active[id].StartingSlot? && 0 <= k < |log| && log[k].sessionId == id ::
      r.active[id].generation in spawns && log[k].revision < spawns[r.active[id].generation].revision
  }

  /** The revisions recorded for one session strictly increase. */
  ghost predicate RevisionsIncrease(log: seq<Snapshot>) {
    forall i, j | 0 <= i < j < |log| && log[i].sessionId == log[j].sessionId :: log[i].revision < log[j].revision
  }

  ghost predicate Inv(w: World) {
    && Generations(w)
    && Owned(w.registry, w.spawns) && RecordsOwned(w.registry, w.spawns)
    && RunningRecorded(w.registry) && Bounded(w.registry) && ClosedStays(w.registry, w.closed)
    && Latest(w.registry, w.log) && Advancing(w.registry, w.spawns, w.log)
    && RevisionsIncrease(w.log)
  }

  const INITIAL := World(Registry(map[], map[]), 0, {}, map[], [], {})

  // ---- Pruning --------------------------------------------------------------------------------------

  /** Pruning spares active sessions, and leaves at most the limit. */
  lemma PruneRecordsKeeps(snapshots: map<string, Record>, active: set<string>)
    requires |active| <= MAX_ACTIVE
    ensures var p := PruneRecords(snapshots, active);
      && |p| <= MAX_RETAINED
      && (forall id | id in p :: id in snapshots && p[id] == snapshots[id])
      && (forall id | id in active && id in snapshots :: id in p)
  {
    PruneKeeps(snapshots, active, TooManyRecords, AgeOf);
    var p := PruneRecords(snapshots, active);
    if p.Keys <= active { SubsetSize(p.Keys, active); }
  }

  // ---- Every step keeps the invariant ---------------------------------------------------------------

  /** `revision` is beyond everything recorded for the session. */
  ghost predicate Beyond(log: seq<Snapshot>, id: string, revision: nat) {
    forall k | 0 <= k < |log| && log[k].sessionId == id :: log[k].revision < revision
  }

  lemma SpawnKeeps(w: World, g: nat, spawn: Spawn)
    requires Inv(w) && g in w.tickets
    ensures Inv(w.(tickets := w.tickets - {g}, spawns := w.spawns[g := spawn]))
  {
    var spawns := w.spawns[g := spawn];
    forall id | id in w.registry.active
      ensures w.registry.active[id].generation in spawns && spawns[w.registry.active[id].generation].sessionId == id
    {
      assert w.registry.active[id].generation in w.spawns;
    }
  }

  lemma SlotAdvances(r: Registry, spawns: map<nat, Spawn>, log: seq<Snapshot>, id: string, slot: Slot)
    requires Advancing(r, spawns, log) && slot.generation in spawns && Beyond(log, id, spawns[slot.generation].revision)
    ensures Advancing(r.(active := r.active[id := slot]), spawns, log)
  {
  }

  lemma SlotOwned(r: Registry, spawns: map<nat, Spawn>, closed: set<nat>, id: string, slot: Slot)
    requires Owned(r, spawns) && slot.generation in spawns && spawns[slot.generation].sessionId == id
    requires ClosedStays(r, closed) && slot.generation !in closed && RunningRecorded(r) && slot.StartingSlot?
    ensures var r' := r.(active := r.active[id := slot]);
      Owned(r', spawns) && ClosedStays(r', closed) && RunningRecorded(r')
  {
  }

  lemma SlotKeeps(w: World, id: string, host: string, g: nat)
    requires Inv(w) && g in w.spawns && w.spawns[g].sessionId == id && g !in w.closed
    requires id !in w.registry.active && |w.registry.active| < MAX_ACTIVE && Beyond(w.log, id, w.spawns[g].revision)
    ensures Inv(w.(registry := w.registry.(active := w.registry.active[id := StartingSlot(g, host, false, false)])))
  {
    var slot := StartingSlot(g, host, false, false);
    Sizes(w.registry.active, id, slot);
    SlotAdvances(w.registry, w.spawns, w.log, id, slot);
    SlotOwned(w.registry, w.spawns, w.closed, id, slot);
  }

  lemma ReserveKeeps(w: World, id: string, g: nat, spawn: Spawn, after: Registry)
    requires Inv(w) && g in w.tickets && spawn.sessionId == id && id !in w.registry.active
    requires ReserveSlot(w.registry, id, spawn.hostId, g) == Some(after) && Beyond(w.log, id, spawn.revision)
    ensures Inv(Reserved(w, Some(after), g, spawn))
  {
    SpawnKeeps(w, g, spawn);
    SlotKeeps(w.(tickets := w.tickets - {g}, spawns := w.spawns[g := spawn]), id, spawn.hostId, g);
  }

  /** Removing a slot, with or without its snapshot, keeps the invariant; a running slot may
      leave its snapshot behind. */
  lemma RemoveKeeps(w: World, id: string, withSnapshot: bool)
    requires Inv(w)
    ensures Inv(w.(registry := Remove(w.registry, id, withSnapshot)))
  {
    Sizes(w.registry.active, id, StartingSlot(0, "", false, false));
    Sizes(w.registry.snapshots, id, Record(0, Snapshot("", 0, 0, "", Running, None, None)));
  }

  lemma MarkKeeps(w: World, id: string, slot: Slot, closed: set<nat>)
    requires Inv(w) && id in w.registry.active && w.registry.active[id].StartingSlot?
    requires slot.StartingSlot? && slot.generation == w.registry.active[id].generation
    requires w.registry.active[id].closeRequested ==> slot.closeRequested
    requires closed == w.closed || (slot.closeRequested && closed == w.closed + {slot.generation})
    ensures Inv(w.(registry := w.registry.(active := w.registry.active[id := slot]), closed := closed))
  {
    Sizes(w.registry.active, id, slot);
    var r' := w.registry.(active := w.registry.active[id := slot]);
    forall x | x in r'.active && r'.active[x].generation in closed
      ensures r'.active[x].StartingSlot? && r'.active[x].closeRequested
    {
      assert w.registry.active[x].generation == r'.active[x].generation;
    }
  }

  /** Recording the next revision of a session, as its latest snapshot. */
  lemma RecordKeeps(w: World, r': Registry, s: Snapshot, id: string)
    requires Inv(w) && s.sessionId == id
    requires Beyond(w.log, id, s.revision)
    requires id in r'.snapshots && r'.snapshots[id].snapshot == s
    requires forall x | x in r'.snapshots && x != id ::
      x in w.registry.snapshots && r'.snapshots[x] == w.registry.snapshots[x]
    requires forall x | x in r'.active && r'.active[x].StartingSlot? ::
      x != id && x in w.registry.active && r'.active[x] == w.registry.active[x]
    ensures Latest(r', w.log + [s]) && Advancing(r', w.spawns, w.log + [s]) && RevisionsIncrease(w.log + [s])
  {
  }

  /** The parts of the invariant that do not look at the log. */
  ghost predicate Tidy(r: Registry, spawns: map<nat, Spawn>, closed: set<nat>) {
    Owned(r, spawns) && RecordsOwned(r, spawns) && RunningRecorded(r) && Bounded(r) && ClosedStays(r, closed)
  }

  lemma LoggedKeeps(w: World, r': Registry, s: Snapshot, id: string)
    requires Inv(w) && Tidy(r', w.spawns, w.closed)
    requires Latest(r', w.log + [s]) && Advancing(r', w.spawns, w.log + [s]) && RevisionsIncrease(w.log + [s])
    ensures Inv(w.(registry := r', log := w.log + [s]))
  {
  }

  lemma CommitTidy(w: World, g: nat, r': Registry)
    requires Inv(w) && g in w.spawns
    requires IsStarting(w.registry, w.spawns[g].sessionId, g)
      && !w.registry.active[w.spawns[g].sessionId].closeRequested
    requires r' == CommitRunning(w.registry, w.spawns[g].sessionId, g, w.spawns[g].hostId,
      FirstSnapshot(w.spawns[g], g)).0
    ensures Tidy(r', w.spawns, w.closed)
    ensures w.spawns[g].sessionId in r'.snapshots
      && r'.snapshots[w.spawns[g].sessionId] == Record(g, FirstSnapshot(w.spawns[g], g))
    ensures forall x | x in r'.snapshots && x != w.spawns[g].sessionId ::
      x in w.registry.snapshots && r'.snapshots[x] == w.registry.snapshots[x]
    ensures r'.active == w.registry.active[w.spawns[g].sessionId := RunningSlot(g, w.spawns[g].hostId)]
  {
    var r := w.registry;
    var id := w.spawns[g].sessionId;
    var active := r.active[id := RunningSlot(g, w.spawns[g].hostId)];
    Sizes(r.active, id, RunningSlot(g, w.spawns[g].hostId));
    PruneRecordsKeeps(r.snapshots[id := Record(g, FirstSnapshot(w.spawns[g], g))], active.Keys);
  }

  lemma CommitKeeps(w: World, g: nat)
    requires Inv(w)
    ensures Inv(Next(w, Commit(g)))
  {
    var r := w.registry;
    if g in w.spawns {
      var id := w.spawns[g].sessionId;
      var s := FirstSnapshot(w.spawns[g], g);
      if IsStarting(r, id, g) && !r.active[id].closeRequested {
        var r' := CommitRunning(r, id, g, w.spawns[g].hostId, s).0;
        CommitTidy(w, g, r');
        RecordKeeps(w, r', s, id);
        LoggedKeeps(w, r', s, id);
      }
    }
  }

  lemma ExitTidy(w: World, id: string, g: nat, s: Snapshot)
    requires Inv(w) && g in w.spawns && w.spawns[g].sessionId == id && IsRunning(w.registry, id, g)
    requires s.sessionId == id && s.generation == g
    ensures Tidy(Registry(w.registry.active - {id}, w.registry.snapshots[id := Record(g, s)]), w.spawns, w.closed)
  {
    Sizes(w.registry.active, id, w.registry.active[id]);
    Sizes(w.registry.snapshots, id, Record(g, s));
  }

  /** An exit always changes the snapshot, so it always gets a revision of its own. */
  lemma ExitAdvances(s: Snapshot, code: Option<int>, signal: Option<string>)
    requires s.state in {Running, Failed}
    ensures Exited(s, code, signal).revision == s.revision + 1
    ensures Exited(s, code, signal).sessionId == s.sessionId && Exited(s, code, signal).generation == s.generation
  {
  }

  lemma ExitKeeps(w: World, g: nat, code: Option<int>, signal: Option<string>)
    requires Inv(w)
    ensures Inv(Next(w, Exit(g, code, signal)))
  {
    var r := w.registry;
    if g in w.spawns {
      var id := w.spawns[g].sessionId;
      if IsRunning(r, id, g) {
        var s := Exited(r.snapshots[id].snapshot, code, signal);
        var r' := Registry(r.active - {id}, r.snapshots[id := Record(g, s)]);
        ExitAdvances(r.snapshots[id].snapshot, code, signal);
        ExitTidy(w, id, g, s);
        RecordKeeps(w, r', s, id);
        LoggedKeeps(w, r', s, id);
      }
    }
  }

  lemma ErrorTidy(w: World, id: string, g: nat, s: Snapshot)
    requires Inv(w) && g in w.spawns && w.spawns[g].sessionId == id && IsRunning(w.registry, id, g)
    requires s.sessionId == id && s.generation == g && s.state.Failed?
    ensures Tidy(w.registry.(snapshots := w.registry.snapshots[id := Record(g, s)]), w.spawns, w.closed)
  {
    Sizes(w.registry.snapshots, id, Record(g, s));
  }

  lemma ErrorKeeps(w: World, g: nat, message: string)
    requires Inv(w)
    ensures Inv(Next(w, WaitError(g, message)))
  {
    var r := w.registry;
    if g in w.spawns {
      var id := w.spawns[g].sessionId;
      var out := RecordError(r, id, g, message);
      if out.1.Some? {
        ErrorTidy(w, id, g, out.1.value);
        RecordKeeps(w, out.0, out.1.value, id);
        LoggedKeeps(w, out.0, out.1.value, id);
      }
    }
  }

  lemma StartKeeps(w: World, id: string, host: string, g: nat)
    requires Inv(w) && IdsNew(w, StartNew(id, host, g))
    ensures Inv(Next(w, StartNew(id, host, g)))
  {
    var after := ReserveNew(w.registry, id, host, g);
    if g in w.tickets && after.Some? {
      forall k | 0 <= k < |w.log| ensures w.log[k].sessionId != id { assert w.log[k] in w.log; }
      ReserveKeeps(w, id, g, Spawn(id, host, 1), after.value);
    }
  }

  lemma ReconnectKeeps(w: World, id: string, host: string, g: nat)
    requires Inv(w)
    ensures Inv(Next(w, Reconnect(id, host, g)))
  {
    var after := ReserveReconnect(w.registry, id, host, g);
    if g in w.tickets && after.Some? {
      ReserveKeeps(w, id, g, Spawn(id, host, w.registry.snapshots[id].snapshot.revision + 1), after.value);
    }
  }

  lemma RegisterKeeps(w: World, g: nat)
    requires Inv(w)
    ensures Inv(Next(w, Register(g)))
  {
    if g in w.spawns {
      var id := w.spawns[g].sessionId;
      if IsStarting(w.registry, id, g) {
        MarkKeeps(w, id, w.registry.active[id].(hasCleanup := true), w.closed);
      }
    }
  }

  lemma BeginCloseKeeps(w: World, id: string)
    requires Inv(w)
    ensures Inv(Next(w, BeginClose(id)))
  {
    var r := w.registry;
    if id !in r.active {
      Sizes(r.snapshots, id, Record(0, Snapshot("", 0, 0, "", Running, None, None)));
    } else if r.active[id].StartingSlot? {
      var slot := r.active[id].(closeRequested := true);
      MarkKeeps(w, id, slot, w.closed + {slot.generation});
    }
  }

  lemma GiveUpKeeps(w: World, g: nat)
    requires Inv(w)
    ensures Inv(Next(w, GiveUp(g)))
  {
    if g in w.spawns {
      var id := w.spawns[g].sessionId;
      if IsStarting(w.registry, id, g) { RemoveKeeps(w, id, w.registry.active[id].closeRequested); }
    }
  }

  lemma AbortKeeps(w: World, g: nat, remove: bool)
    requires Inv(w)
    ensures Inv(Next(w, AbortSpawn(g, remove)))
  {
    if g in w.spawns {
      var id := w.spawns[g].sessionId;
      if IsCurrent(w.registry, id, g) {
        RemoveKeeps(w, id, remove || (w.registry.active[id].StartingSlot? && w.registry.active[id].closeRequested));
      }
    }
  }

  lemma NextKeeps(w: World, step: Step)
    requires Inv(w) && IdsNew(w, step)
    ensures Inv(Next(w, step))
  {
    match step
    case StartNew(id, host, g) => StartKeeps(w, id, host, g);
    case Reconnect(id, host, g) => ReconnectKeeps(w, id, host, g);
    case Register(g) => RegisterKeeps(w, g);
    case Commit(g) => CommitKeeps(w, g);
    case GiveUp(g) => GiveUpKeeps(w, g);
    case AbortSpawn(g, remove) => AbortKeeps(w, g, remove);
    case BeginClose(id) => BeginCloseKeeps(w, id);
    case EndClose(id, g) => if IsCurrent(w.registry, id, g) { RemoveKeeps(w, id, true); }
    case Exit(g, code, signal) => ExitKeeps(w, g, code, signal);
    case WaitError(g, message) => ErrorKeeps(w, g, message);
    case TakeGeneration =>
    case StopAll =>
  }

  // ---- Whole runs -----------------------------------------------------------------------------------

  ghost function Exec(w: World, steps: seq<Step>): World
    decreases |steps|
  {
    if steps == [] then w else Exec(Next(w, steps[0]), steps[1..])
  }

  ghost predicate RunIdsNew(w: World, steps: seq<Step>)
    decreases |steps|
  {
    steps != [] ==> IdsNew(w, steps[0]) && RunIdsNew(Next(w, steps[0]), steps[1..])
  }

  lemma {:induction false} ExecKeeps(w: World, steps: seq<Step>)
    requires Inv(w) && RunIdsNew(w, steps)
    ensures Inv(Exec(w, steps))
    decreases |steps|
  {
    if steps != [] {
      NextKeeps(w, steps[0]);
      ExecKeeps(Next(w, steps[0]), steps[1..]);
    }
  }

  /** In every run: no generation is in two slots, every running slot has a snapshot of its own
      generation, a generation closed while starting is not running, the revisions recorded for
      a session strictly increase, and both tables stay within their limits. */
  lemma EveryRun(steps: seq<Step>)
    requires RunIdsNew(INITIAL, steps)
    ensures var w := Exec(INITIAL, steps); var r := w.registry;
      && (forall a, b | a in r.active && b in r.active && r.active[a].generation == r.active[b].generation :: a == b)
      && RunningRecorded(r)
      && (forall id, g | g in w.closed :: !IsRunning(r, id, g))
      && RevisionsIncrease(w.log)
      && |r.active| <= MAX_ACTIVE && |r.snapshots| <= MAX_RETAINED
  {
    ExecKeeps(INITIAL, steps);
  }

  /** Once closed while starting, a generation never runs in any continuation. */
  lemma {:induction false} ClosedNeverRuns(w: World, steps: seq<Step>, g: nat, id: string)
    requires Inv(w) && RunIdsNew(w, steps) && g in w.closed
    ensures !IsRunning(Exec(w, steps).registry, id, g) && g in Exec(w, steps).closed
    decreases |steps|
  {
    if steps != [] {
      NextKeeps(w, steps[0]);
      ClosedNeverRuns(Next(w, steps[0]), steps[1..], g, id);
    }
  }

  /** A step that acts for generation `g`. */
  predicate ActsFor(step: Step, g: nat) {
    match step
    case Register(x) => x == g
    case Commit(x) => x == g
    case GiveUp(x) => x == g
    case AbortSpawn(x, _) => x == g
    case EndClose(_, x) => x == g
    case Exit(x, _, _) => x == g
    case WaitError(x, _) => x == g
    case _ => false
  }

  /** Whatever a stale generation still does, its exit, error, commit, release or abort,
      changes nothing. */
  lemma StaleDoesNothing(w: World, step: Step, g: nat)
    requires Inv(w) && ActsFor(step, g) && forall id | id in w.registry.active :: w.registry.active[id].generation != g
    ensures Next(w, step) == w
  {
    assert forall id :: !IsCurrent(w.registry, id, g);
  }

  /** Taking a generation never repeats one that any slot, spawn or record has carried. */
  lemma GenerationsAreFresh(w: World, id: string)
    requires Inv(w)
    ensures var g := Next(w, TakeGeneration).nextGeneration;
      && g !in w.tickets && g !in w.spawns
      && (id in w.registry.active ==> w.registry.active[id].generation < g)
      && (id in w.registry.snapshots ==> w.registry.snapshots[id].generation < g)
  {
  }

  /** A commit prunes no session that has a slot, and drops older records first. */
  lemma CommitPrunesOldestIdle(w: World, g: nat, gone: string, kept: string)
    requires Inv(w) && g in w.spawns
    requires gone in w.registry.snapshots && gone !in Next(w, Commit(g)).registry.snapshots
    requires kept in Next(w, Commit(g)).registry.snapshots && kept !in Next(w, Commit(g)).registry.active
    ensures gone !in Next(w, Commit(g)).registry.active
    ensures kept in w.registry.snapshots
      && w.registry.snapshots[gone].generation <= w.registry.snapshots[kept].generation
  {
    var r := w.registry;
    var id := w.spawns[g].sessionId;
    var s := FirstSnapshot(w.spawns[g], g);
    var active := r.active[id := RunningSlot(g, w.spawns[g].hostId)];
    var records := r.snapshots[id := Record(g, s)];
    Sizes(r.active, id, RunningSlot(g, w.spawns[g].hostId));
    PruneRecordsKeeps(records, active.Keys);
    PruneRemovesOldest(records, active.Keys, TooManyRecords, AgeOf, gone, kept);
  }

  /** Generations are unique but need not increase: a reconnect that took its generation before
      the lock may commit it over a record of a later one. Its revision is still the higher. */
  lemma ReconnectMayLowerGeneration(w: World, id: string, g: nat)
    requires Inv(w) && g in w.tickets && |w.registry.active| < MAX_ACTIVE
    requires id in w.registry.snapshots && id !in w.registry.active && g < w.registry.snapshots[id].generation
    ensures var before := w.registry.snapshots[id];
      var r := Next(Next(w, Reconnect(id, before.snapshot.hostId, g)), Commit(g)).registry;
      && IsRunning(r, id, g) && id in r.snapshots
      && r.snapshots[id].generation < before.generation
      && r.snapshots[id].snapshot.revision == before.snapshot.revision + 1
  {
    var w1 := Next(w, Reconnect(id, w.registry.snapshots[id].snapshot.hostId, g));
    var s := FirstSnapshot(w1.spawns[g], g);
    var active := w1.registry.active[id := RunningSlot(g, w1.spawns[g].hostId)];
    Sizes(w.registry.active, id, w1.registry.active[id]);
    Sizes(w1.registry.active, id, RunningSlot(g, w1.spawns[g].hostId));
    PruneRecordsKeeps(w1.registry.snapshots[id := Record(g, s)], active.Keys);
  }
}
