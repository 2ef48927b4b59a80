/** Retiring a host from the terminals: the barrier is shut, starts in flight are waited for, and every
    session of the host is closed one by one, while other threads start, close and exit sessions. */
module TerminalRetirement {
  import opened Prelude
  import opened Pruning
  import opened TerminalSlots
  import HO = HostOperations

  /** A thread that may start a session of a host; `spawn` is the generation it has reserved. */
  datatype Lease = Lease(host: string, spawn: Option<nat>)

  /** How far a retirement has come; `rest` are the sessions still to be closed. */
  datatype Place =
    | Waiting | SawIdle
    | Closes(rest: set<string>, failed: bool)
    | Ending(id: string, generation: nat, rest: set<string>, failed: bool)
    | Returned(ok: bool)

  /** `disturbed` says whether the host was restored since, and `exited` are the sessions whose exit
      was recorded while this retirement was ending them. */
  datatype Retirement = Retirement(host: string, place: Place, disturbed: bool, exited: set<string>)

  datatype Floor = Floor(slots: World, hosts: HO.Hosts, leases: map<nat, Lease>, tasks: map<nat, Retirement>)

  datatype Move =
    | BeginLease(lease: nat, host: string)
    | Reserve(lease: nat, step: Step)
    | Drive(lease: nat, step: Step)
    | EndLease(lease: nat)
    | Other(step: Step)
    | Retire(task: nat, host: string)
    | SeeIdle(task: nat)
    | GiveUp(task: nat)
    | List(task: nat)
    | CloseNext(task: nat, id: string)
    | EndNext(task: nat, ok: bool)
    | Return(task: nat)
    | Restore(task: nat, host: string)

  // ---- One host ----------------------------------------------------------------------------------------------

  predicate SlotOf(r: Registry, id: string, h: string) { id in r.active && r.active[id].hostId == h }

  predicate RecordOf(r: Registry, id: string, h: string) { id in r.snapshots && r.snapshots[id].snapshot.hostId == h }

  function SessionsOf(r: Registry, h: string): set<string> {
    (set id | id in r.active && r.active[id].hostId == h)
      + (set id | id in r.snapshots && r.snapshots[id].snapshot.hostId == h)
  }

  /** A starting slot whose child has not been registered. */
  predicate Bare(r: Registry, id: string) { id in r.active && r.active[id].StartingSlot? && !r.active[id].hasCleanup }

  // ---- The moves ---------------------------------------------------------------------------------------------

  function Placed(tasks: map<nat, Retirement>, t: nat, p: Place): map<nat, Retirement>
    requires t in tasks
  {
    tasks[t := tasks[t].(place := p)]
  }

  /** A start reserves under its lease, once. */
  predicate MayReserve(w: Floor, l: nat, step: Step) {
    l in w.leases && w.leases[l].spawn.None? && (step.StartNew? || step.Reconnect?) && step.host == w.leases[l].host
  }

  ghost function ReserveFloor(w: Floor, l: nat, step: Step): Floor
    requires MayReserve(w, l, step)
  {
    var slots := Next(w.slots, step);
    var spawn := if slots.registry != w.slots.registry then Some(step.g) else None;
    w.(slots := slots, leases := w.leases[l := w.leases[l].(spawn := spawn)])
  }

  /** A start drives only what it has reserved. */
  predicate MayDrive(w: Floor, l: nat, step: Step) {
    && l in w.leases && (step.Register? || step.Commit? || step.GiveUp? || step.AbortSpawn?)
    && w.leases[l].spawn == Some(step.g)
  }

  /** A start returns only once its child is registered with the slot, or the slot is gone. */
  predicate MayEnd(w: Floor, l: nat) {
    && l in w.leases
    && (w.leases[l].spawn.Some? ==>
          forall id | id in w.slots.registry.active
            && w.slots.registry.active[id].generation == w.leases[l].spawn.value ::
            !Bare(w.slots.registry, id))
  }

  /** What is not done by a start. */
  predicate IsOther(step: Step) {
    || step.TakeGeneration? || step.BeginClose? || step.EndClose? || step.Exit? || step.WaitError? || step.StopAll?
  }

  /** The session whose exit the step records. */
  function ExitsNow(w: World, step: Step): Option<string> {
    if step.Exit? && step.g in w.spawns
       && FinalizeExit(w.registry, w.spawns[step.g].sessionId, step.g, step.code, step.signal).1.Some?
    then Some(w.spawns[step.g].sessionId) else None
  }

  function WithExit(r: Retirement, id: Option<string>): Retirement {
    if id.Some? && r.place.Ending? && r.place.id == id.value then r.(exited := r.exited + {id.value}) else r
  }

  function WithExits(tasks: map<nat, Retirement>, id: Option<string>): map<nat, Retirement> {
    map t | t in tasks :: WithExit(tasks[t], id)
  }

  function Disturbed(tasks: map<nat, Retirement>, h: string): map<nat, Retirement> {
    map t | t in tasks :: if tasks[t].host == h then tasks[t].(disturbed := true) else tasks[t]
  }

  /** What is left to do for a session once it has been asked to close. */
  function AfterBegin(closing: Closing, id: string, rest: set<string>, failed: bool): Place {
    match closing
    case Done => Closes(rest - {id}, failed)
    case Missing => Closes(rest - {id}, true)
    case Ends(g, terminate) => if terminate then Ending(id, g, rest - {id}, failed) else Closes(rest - {id}, failed)
  }

  ghost function CloseFloor(w: Floor, t: nat, id: string): Floor
    requires t in w.tasks && w.tasks[t].place.Closes? && id in w.tasks[t].place.rest
  {
    var p := w.tasks[t].place;
    w.(slots := Next(w.slots, BeginClose(id)),
       tasks := Placed(w.tasks, t, AfterBegin(CloseBegin(w.slots.registry, id).1, id, p.rest, p.failed)))
  }

  ghost function EndFloor(w: Floor, t: nat, ok: bool): Floor
    requires t in w.tasks && w.tasks[t].place.Ending?
  {
    var p := w.tasks[t].place;
    w.(slots := if ok then Next(w.slots, EndClose(p.id, p.generation)) else w.slots,
       tasks := Placed(w.tasks, t, Closes(p.rest, p.failed || !ok)))
  }

  predicate At(w: Floor, t: nat, p: Place) { t in w.tasks && w.tasks[t].place == p }

  ghost function Go(w: Floor, m: Move): Floor {
    match m
    case BeginLease(l, h) =>
      var after := HO.BeginOp(w.hosts, h);
      if l in w.leases || after.None? then w else w.(hosts := after.value, leases := w.leases[l := Lease(h, None)])
    case Reserve(l, step) => if MayReserve(w, l, step) then ReserveFloor(w, l, step) else w
    case Drive(l, step) => if MayDrive(w, l, step) then w.(slots := Next(w.slots, step)) else w
    case EndLease(l) =>
      if MayEnd(w, l) then w.(hosts := HO.EndOp(w.hosts, w.leases[l].host), leases := w.leases - {l}) else w
    case Other(step) =>
      if IsOther(step) then w.(slots := Next(w.slots, step), tasks := WithExits(w.tasks, ExitsNow(w.slots, step)))
        else w
    case Retire(t, h) =>
      if t in w.tasks then w
      else w.(hosts := HO.RetireHost(w.hosts, h), tasks := w.tasks[t := Retirement(h, Waiting, false, {})])
    case SeeIdle(t) =>
      if At(w, t, Waiting) && HO.IsIdle(w.hosts, w.tasks[t].host) then w.(tasks := Placed(w.tasks, t, SawIdle)) else w
    case GiveUp(t) => if At(w, t, Waiting) then w.(tasks := Placed(w.tasks, t, Returned(false))) else w
    case List(t) =>
      if At(w, t, SawIdle)
      then w.(tasks := Placed(w.tasks, t, Closes(SessionsOf(w.slots.registry, w.tasks[t].host), false))) else w
    case CloseNext(t, id) =>
      if t in w.tasks && w.tasks[t].place.Closes? && id in w.tasks[t].place.rest then CloseFloor(w, t, id) else w
    case EndNext(t, ok) => if t in w.tasks && w.tasks[t].place.Ending? then EndFloor(w, t, ok) else w
    case Return(t) =>
      if t in w.tasks && w.tasks[t].place.Closes? && w.tasks[t].place.rest == {}
      then w.(tasks := Placed(w.tasks, t, Returned(!w.tasks[t].place.failed))) else w
    case Restore(t, h) =>
      if t in w.tasks && w.tasks[t].place.Returned? && w.tasks[t].host == h
      then w.(hosts := HO.RestoreHost(w.hosts, h), tasks := Disturbed(w.tasks, h)) else w
  }

  ghost function Exec(w: Floor, moves: seq<Move>): Floor
    decreases |moves|
  {
    if moves == [] then w else Exec(Go(w, moves[0]), moves[1..])
  }

  const EMPTY := Floor(INITIAL, map[], map[], map[])

  /** The step of the slots a move is made of, if there is one. */
  ghost function SlotStep(w: Floor, m: Move): Option<Step> {
    match m
    case Reserve(l, step) => if MayReserve(w, l, step) then Some(step) else None
    case Drive(l, step) => if MayDrive(w, l, step) then Some(step) else None
    case Other(step) => if IsOther(step) then Some(step) else None
    case CloseNext(t, id) =>
      if t in w.tasks && w.tasks[t].place.Closes? && id in w.tasks[t].place.rest then Some(BeginClose(id)) else None
    case EndNext(t, ok) =>
      if t in w.tasks && w.tasks[t].place.Ending? && ok
      then Some(EndClose(w.tasks[t].place.id, w.tasks[t].place.generation)) else None
    case _ => None
  }

  ghost predicate NewIds(w: Floor, m: Move) { SlotStep(w, m).Some? ==> IdsNew(w.slots, SlotStep(w, m).value) }

  ghost predicate RunNewIds(w: Floor, moves: seq<Move>)
    decreases |moves|
  {
    moves != [] ==> NewIds(w, moves[0]) && RunNewIds(Go(w, moves[0]), moves[1..])
  }

  lemma MoveIsStep(w: Floor, m: Move)
    ensures Go(w, m).slots == if SlotStep(w, m).Some? then Next(w.slots, SlotStep(w, m).value) else w.slots
  {
  }

  // ---- What holds in every run ---------------------------------------------------------------------------

  function LeasesOf(leases: map<nat, Lease>, h: string): set<nat> { set l | l in leases && leases[l].host == h }

  ghost predicate Counted(hosts: HO.Hosts, leases: map<nat, Lease>) {
    forall h :: HO.StateOf(hosts, h).active == |LeasesOf(leases, h)|
  }

  /** The start that has reserved a slot. */
  ghost predicate Leased(leases: map<nat, Lease>, g: nat, h: string) {
    exists l :: l in leases && leases[l].spawn == Some(g) && leases[l].host == h
  }

  ghost predicate Hosted(slots: World) {
    forall id | id in slots.registry.active ::
      var slot := slots.registry.active[id];
      slot.generation in slots.spawns && slots.spawns[slot.generation].hostId == slot.hostId
  }

  /** A slot is of the host it was reserved for; one without a child belongs to a start that is still
      under way, and a start reserves for its own host. */
  ghost predicate Starts(slots: World, leases: map<nat, Lease>) {
    && Hosted(slots)
    && (forall id | Bare(slots.registry, id) ::
         Leased(leases, slots.registry.active[id].generation, slots.registry.active[id].hostId))
    && (forall l | l in leases && leases[l].spawn.Some? ::
          leases[l].spawn.value in slots.spawns && slots.spawns[leases[l].spawn.value].hostId == leases[l].host)
  }

  /** Slot and record of a session are of one host. */
  ghost predicate OneHost(r: Registry) {
    forall id | id in r.active && id in r.snapshots :: r.active[id].hostId == r.snapshots[id].snapshot.hostId
  }

  /** A host that was not restored since is still retired, and idle once it was seen idle. */
  predicate Calm(w: Floor, t: nat)
    requires t in w.tasks
  {
    var r := w.tasks[t];
    !r.disturbed ==>
      && HO.IsRetired(w.hosts, r.host)
      && (!r.place.Waiting? && r.place != Returned(false) ==> HO.IsIdle(w.hosts, r.host))
  }

  predicate IsOver(s: TerminalState) { s.Closed? || s.Offline? }

  /** The sessions of the host that are not accounted for are among `open`. */
  ghost predicate Within(r: Registry, h: string, open: set<string>, exited: set<string>) {
    && (forall id | SlotOf(r, id, h) :: id in open)
    && (forall id | RecordOf(r, id, h) && id !in open :: id in exited && IsOver(r.snapshots[id].snapshot.state))
  }

  /** The session being ended keeps its generation, and loses its slot alone only by its exit. */
  ghost predicate EndingHolds(r: Registry, h: string, id: string, g: nat, exited: set<string>) {
    && (SlotOf(r, id, h) ==> r.active[id].generation == g)
    && (RecordOf(r, id, h) && id !in r.active ==> id in exited && IsOver(r.snapshots[id].snapshot.state))
  }

  ghost predicate Progress(r: Registry, task: Retirement) {
    !task.disturbed ==>
      match task.place
      case Closes(rest, failed) => !failed ==> Within(r, task.host, rest, task.exited)
      case Ending(id, g, rest, failed) =>
        !failed ==> Within(r, task.host, rest + {id}, task.exited) && EndingHolds(r, task.host, id, g, task.exited)
      case Returned(ok) => ok ==> Within(r, task.host, {}, task.exited)
      case _ => true
  }

  ghost predicate FloorInv(w: Floor) {
    && Inv(w.slots) && Counted(w.hosts, w.leases) && Starts(w.slots, w.leases) && OneHost(w.slots.registry)
    && TasksInv(w)
  }

  ghost predicate TasksInv(w: Floor) {
    forall t | t in w.tasks :: Calm(w, t) && Progress(w.slots.registry, w.tasks[t])
  }

  // ---- Single steps of the slots ---------------------------------------------------------------------------

  predicate Reserves(step: Step) { step.StartNew? || step.Reconnect? }

  predicate Drives(step: Step) { step.Register? || step.Commit? || step.GiveUp? || step.AbortSpawn? }

  /** What a step may do to a host nobody starts anything for. */
  ghost predicate Ebb(r: Registry, r': Registry, h: string, exit: Option<string>) {
    && (forall id | SlotOf(r', id, h) :: SlotOf(r, id, h) && r'.active[id].generation == r.active[id].generation)
    && (forall id | RecordOf(r', id, h) :: RecordOf(r, id, h))
    && (forall id | RecordOf(r', id, h) && id !in r'.active ::
          || (id !in r.active && r'.snapshots[id] == r.snapshots[id])
          || (exit == Some(id) && IsOver(r'.snapshots[id].snapshot.state)))
  }

  lemma PrunedRecords(snapshots: map<string, Record>, active: set<string>)
    ensures forall id | id in PruneRecords(snapshots, active) ::
      id in snapshots && PruneRecords(snapshots, active)[id] == snapshots[id]
  {
    PruneKeeps(snapshots, active, TooManyRecords, AgeOf);
  }

  lemma CommitEbbs(r: Registry, id: string, g: nat, host: string, s: Snapshot, h: string)
    requires host != h && s.hostId == host
    ensures Ebb(r, CommitRunning(r, id, g, host, s).0, h, None)
  {
    PrunedRecords(r.snapshots[id := Record(g, s)], r.active[id := RunningSlot(g, host)].Keys);
  }

  lemma CommitOneHost(r: Registry, id: string, g: nat, host: string, s: Snapshot)
    requires s.hostId == host && OneHost(r)
    ensures OneHost(CommitRunning(r, id, g, host, s).0)
  {
    PrunedRecords(r.snapshots[id := Record(g, s)], r.active[id := RunningSlot(g, host)].Keys);
  }

  lemma ReserveEbbs(w: World, step: Step, h: string)
    requires Reserves(step) && step.host != h
    ensures Ebb(w.registry, Next(w, step).registry, h, None)
  {
  }

  lemma DriveEbbs(w: World, step: Step, h: string)
    requires Drives(step) && step.g in w.spawns && w.spawns[step.g].hostId != h && Hosted(w) && OneHost(w.registry)
    ensures Ebb(w.registry, Next(w, step).registry, h, None)
  {
    var id := w.spawns[step.g].sessionId;
    if step.Commit? {
      CommitEbbs(w.registry, id, step.g, w.spawns[step.g].hostId, FirstSnapshot(w.spawns[step.g], step.g), h);
    }
    else if step.Register? { RegisterEbbs(w.registry, id, step.g, h); }
    else if step.GiveUp? { ReleaseEbbs(w.registry, id, step.g, h); }
    else { AbortEbbs(w.registry, id, step.g, step.removeSnapshot, h); }
  }

  lemma RegisterEbbs(r: Registry, id: string, g: nat, h: string)
    ensures Ebb(r, RegisterCleanup(r, id, g).0, h, None)
  {
  }

  lemma ReleaseEbbs(r: Registry, id: string, g: nat, h: string)
    requires OneHost(r) && (IsCurrent(r, id, g) ==> r.active[id].hostId != h)
    ensures Ebb(r, Release(r, id, g), h, None)
  {
  }

  lemma AbortEbbs(r: Registry, id: string, g: nat, remove: bool, h: string)
    requires OneHost(r) && (IsCurrent(r, id, g) ==> r.active[id].hostId != h)
    ensures Ebb(r, Abort(r, id, g, remove), h, None)
  {
  }

  lemma CloseEbbs(r: Registry, id: string, g: nat, h: string)
    ensures Ebb(r, CloseBegin(r, id).0, h, None) && Ebb(r, CloseEnd(r, id, g), h, None)
  {
  }

  lemma ExitEbbs(r: Registry, id: string, g: nat, code: Option<int>, signal: Option<string>, h: string)
    ensures var out := FinalizeExit(r, id, g, code, signal); Ebb(r, out.0, h, if out.1.Some? then Some(id) else None)
  {
  }

  lemma ErrorEbbs(r: Registry, id: string, g: nat, message: string, h: string)
    ensures Ebb(r, RecordError(r, id, g, message).0, h, None)
  {
  }

  lemma OtherEbbs(w: World, step: Step, h: string)
    requires IsOther(step)
    ensures Ebb(w.registry, Next(w, step).registry, h, ExitsNow(w, step))
  {
    match step
    case BeginClose(id) => CloseEbbs(w.registry, id, 0, h);
    case EndClose(id, g) => CloseEbbs(w.registry, id, g, h);
    case Exit(g, code, signal) => if g in w.spawns { ExitEbbs(w.registry, w.spawns[g].sessionId, g, code, signal, h); }
    case WaitError(g, message) => if g in w.spawns { ErrorEbbs(w.registry, w.spawns[g].sessionId, g, message, h); }
    case _ =>
  }

  lemma StepOneHost(w: World, step: Step)
    requires OneHost(w.registry)
    ensures OneHost(Next(w, step).registry)
  {
    if step.Commit? {
      if step.g in w.spawns {
        var id := w.spawns[step.g].sessionId;
        CommitOneHost(w.registry, id, step.g, w.spawns[step.g].hostId, FirstSnapshot(w.spawns[step.g], step.g));
      }
    } else if Reserves(step) { ReserveOneHost(w, step); }
    else if Drives(step) { DriveOneHost(w, step); }
    else { OtherOneHost(w, step); }
  }

  lemma ReserveOneHost(w: World, step: Step)
    requires OneHost(w.registry) && Reserves(step)
    ensures OneHost(Next(w, step).registry)
  {
  }

  lemma DriveOneHost(w: World, step: Step)
    requires OneHost(w.registry) && Drives(step) && !step.Commit?
    ensures OneHost(Next(w, step).registry)
  {
  }

  lemma OtherOneHost(w: World, step: Step)
    requires OneHost(w.registry) && IsOther(step)
    ensures OneHost(Next(w, step).registry)
  {
  }

  /** Slots of this step were there before, for the same start and host, and get no barer. */
  ghost predicate SlotsKept(w: World, w': World) {
    && w'.spawns == w.spawns
    && forall id | id in w'.registry.active ::
         && id in w.registry.active && w'.registry.active[id].generation == w.registry.active[id].generation
         && (w'.registry.active[id].hostId == w.registry.active[id].hostId
             || (w.registry.active[id].generation in w.spawns
                 && w'.registry.active[id].hostId == w.spawns[w.registry.active[id].generation].hostId))
         && (Bare(w'.registry, id) ==> Bare(w.registry, id))
  }

  lemma StepSlotsKept(w: World, step: Step)
    requires !Reserves(step)
    ensures SlotsKept(w, Next(w, step))
  {
    if Drives(step) { DriveSlotsKept(w, step); } else { OtherSlotsKept(w, step); }
  }

  lemma DriveSlotsKept(w: World, step: Step)
    requires Drives(step)
    ensures SlotsKept(w, Next(w, step))
  {
  }

  lemma OtherSlotsKept(w: World, step: Step)
    requires IsOther(step)
    ensures SlotsKept(w, Next(w, step))
  {
  }

  lemma KeptStarts(w: World, w': World, leases: map<nat, Lease>)
    requires Starts(w, leases) && SlotsKept(w, w')
    ensures Starts(w', leases)
  {
    forall id | Bare(w'.registry, id)
      ensures Leased(leases, w'.registry.active[id].generation, w'.registry.active[id].hostId)
    {
      assert Bare(w.registry, id);
    }
  }

  // ---- Every move keeps the slots in order -----------------------------------------------------------------

  lemma ReservedStarts(w: World, step: Step, leases: map<nat, Lease>, l: nat)
    requires Generations(w) && Starts(w, leases) && Reserves(step) && l in leases && leases[l].spawn.None?
      && step.host == leases[l].host
    ensures var w' := Next(w, step);
      Starts(w', leases[l := leases[l].(spawn := if w'.registry != w.registry then Some(step.g) else None)])
  {
    var w' := Next(w, step);
    if w'.registry != w.registry {
      ReservedSlot(w, step);
      ReservedOwn(w, w', step, leases, l);
    } else {
      NothingReserved(w, step);
      assert leases[l := leases[l].(spawn := None)] == leases;
    }
  }

  /** A reservation that goes through. */
  ghost predicate Adds(w: World, w': World, id: string, g: nat, h: string) {
    && g in w.tickets && w'.registry.snapshots == w.registry.snapshots
    && w'.registry.active == w.registry.active[id := StartingSlot(g, h, false, false)]
    && g in w'.spawns && w'.spawns[g].hostId == h && w'.spawns == w.spawns[g := w'.spawns[g]]
  }

  lemma ReservedSlot(w: World, step: Step)
    requires Reserves(step) && Next(w, step).registry != w.registry
    ensures Adds(w, Next(w, step), step.id, step.g, step.host)
  {
  }

  lemma NothingReserved(w: World, step: Step)
    requires Reserves(step) && Next(w, step).registry == w.registry
    ensures Next(w, step).spawns == w.spawns
  {
    var reserved := ReserveSlot(w.registry, step.id, step.host, step.g);
    assert step.g in w.tickets && reserved.Some? && step.id !in w.registry.active ==> step.id in reserved.value.active;
  }

  lemma ReservedOwn(w: World, w': World, step: Step, leases: map<nat, Lease>, l: nat)
    requires Generations(w) && Starts(w, leases) && Reserves(step) && l in leases && leases[l].spawn.None?
      && step.host == leases[l].host
    requires Adds(w, w', step.id, step.g, step.host)
    ensures Starts(w', leases[l := leases[l].(spawn := Some(step.g))])
  {
    var after := leases[l := leases[l].(spawn := Some(step.g))];
    assert l in after && after[l].spawn == Some(step.g) && after[l].host == step.host;
    forall id | Bare(w'.registry, id)
      ensures Leased(after, w'.registry.active[id].generation, w'.registry.active[id].hostId)
    {
      if id != step.id {
        assert Bare(w.registry, id);
        var k :| k in leases && leases[k].spawn == Some(w.registry.active[id].generation)
          && leases[k].host == w.registry.active[id].hostId;
        assert k in after && after[k] == leases[k];
      }
    }
  }

  lemma LeaseBegun(w: World, leases: map<nat, Lease>, l: nat, h: string)
    requires Starts(w, leases) && l !in leases
    ensures Starts(w, leases[l := Lease(h, None)])
  {
    var after := leases[l := Lease(h, None)];
    forall id | Bare(w.registry, id)
      ensures Leased(after, w.registry.active[id].generation, w.registry.active[id].hostId)
    {
      var k :| k in leases && leases[k].spawn == Some(w.registry.active[id].generation)
        && leases[k].host == w.registry.active[id].hostId;
      assert k in after && after[k] == leases[k];
    }
  }

  lemma LeaseEnded(w: Floor, l: nat)
    requires Starts(w.slots, w.leases) && MayEnd(w, l)
    ensures Starts(w.slots, w.leases - {l})
  {
    var after := w.leases - {l};
    var active := w.slots.registry.active;
    forall id | Bare(w.slots.registry, id) ensures Leased(after, active[id].generation, active[id].hostId) {
      var k :| k in w.leases && w.leases[k].spawn == Some(active[id].generation)
        && w.leases[k].host == active[id].hostId;
      assert k in after && after[k] == w.leases[k];
    }
  }

  lemma SlotsKeep(w: Floor, m: Move)
    requires FloorInv(w) && NewIds(w, m)
    ensures var w' := Go(w, m); Inv(w'.slots) && Starts(w'.slots, w'.leases) && OneHost(w'.slots.registry)
  {
    MoveIsStep(w, m);
    var s := SlotStep(w, m);
    if s.Some? {
      NextKeeps(w.slots, s.value);
      StepOneHost(w.slots, s.value);
      LeasesSame(w, m);
      if Reserves(s.value) { ReservedStarts(w.slots, s.value, w.leases, m.lease); }
      else { StepSlotsKept(w.slots, s.value); KeptStarts(w.slots, Next(w.slots, s.value), w.leases); }
    } else {
      LeasesOnly(w, m);
    }
  }

  lemma LeasesSame(w: Floor, m: Move)
    requires SlotStep(w, m).Some?
    ensures var step := SlotStep(w, m).value;
      if Reserves(step) then
        && m.Reserve? && MayReserve(w, m.lease, step)
        && Go(w, m).leases == w.leases[m.lease :=
             w.leases[m.lease].(spawn := if Next(w.slots, step).registry != w.slots.registry then Some(step.g)
             else None)]
      else Go(w, m).leases == w.leases
  {
  }

  lemma LeasesOnly(w: Floor, m: Move)
    requires Starts(w.slots, w.leases) && SlotStep(w, m).None?
    ensures Starts(w.slots, Go(w, m).leases)
  {
    if m.BeginLease? {
      if m.lease !in w.leases { LeaseBegun(w.slots, w.leases, m.lease, m.host); }
    } else if m.EndLease? {
      if MayEnd(w, m.lease) { LeaseEnded(w, m.lease); }
    }
  }

  // ---- Every move keeps the count ----------------------------------------------------------------------------

  lemma LeaseAdded(leases: map<nat, Lease>, l: nat, h: string, x: string)
    requires l !in leases
    ensures LeasesOf(leases[l := Lease(h, None)], x) == if x == h then LeasesOf(leases, x) + {l}
      else LeasesOf(leases, x)
    ensures l !in LeasesOf(leases, x)
  {
  }

  lemma LeaseTaken(leases: map<nat, Lease>, l: nat, x: string)
    requires l in leases
    ensures LeasesOf(leases - {l}, x) == if x == leases[l].host then LeasesOf(leases, x) - {l} else LeasesOf(leases, x)
    ensures x == leases[l].host ==> l in LeasesOf(leases, x)
  {
  }

  lemma CountedMore(hosts: HO.Hosts, leases: map<nat, Lease>, l: nat, h: string)
    requires Counted(hosts, leases) && l !in leases && HO.BeginOp(hosts, h).Some?
    ensures Counted(HO.BeginOp(hosts, h).value, leases[l := Lease(h, None)])
  {
    var after := leases[l := Lease(h, None)];
    forall x ensures HO.StateOf(HO.BeginOp(hosts, h).value, x).active == |LeasesOf(after, x)| {
      LeaseAdded(leases, l, h, x);
    }
  }

  lemma CountedLess(hosts: HO.Hosts, leases: map<nat, Lease>, l: nat)
    requires Counted(hosts, leases) && l in leases
    ensures Counted(HO.EndOp(hosts, leases[l].host), leases - {l})
  {
    var h := leases[l].host;
    LeaseTaken(leases, l, h);
    assert HO.StateOf(hosts, h).active > 0;
    forall x ensures HO.StateOf(HO.EndOp(hosts, h), x).active == |LeasesOf(leases - {l}, x)| {
      LeaseTaken(leases, l, x);
    }
  }

  lemma CountedRespawned(hosts: HO.Hosts, leases: map<nat, Lease>, l: nat, spawn: Option<nat>)
    requires Counted(hosts, leases) && l in leases
    ensures Counted(hosts, leases[l := leases[l].(spawn := spawn)])
  {
    forall x ensures LeasesOf(leases[l := leases[l].(spawn := spawn)], x) == LeasesOf(leases, x) { }
  }

  lemma CountedBarrier(hosts: HO.Hosts, leases: map<nat, Lease>, h: string)
    requires Counted(hosts, leases)
    ensures Counted(HO.RetireHost(hosts, h), leases) && Counted(HO.RestoreHost(hosts, h), leases)
  {
    forall x ensures HO.StateOf(HO.RetireHost(hosts, h), x).active == HO.StateOf(hosts, x).active
                  && HO.StateOf(HO.RestoreHost(hosts, h), x).active == HO.StateOf(hosts, x).active { }
  }

  lemma LeaseCounts(w: Floor, m: Move)
    requires FloorInv(w) && (m.BeginLease? || m.EndLease?)
    ensures Counted(Go(w, m).hosts, Go(w, m).leases)
  {
    if m.BeginLease? {
      if m.lease !in w.leases && HO.BeginOp(w.hosts, m.host).Some? { CountedMore(w.hosts, w.leases, m.lease, m.host); }
    } else if MayEnd(w, m.lease) {
      CountedLess(w.hosts, w.leases, m.lease);
    }
  }

  lemma ReserveCounts(w: Floor, l: nat, step: Step)
    requires FloorInv(w)
    ensures Counted(Go(w, Reserve(l, step)).hosts, Go(w, Reserve(l, step)).leases)
  {
    if MayReserve(w, l, step) {
      CountedRespawned(w.hosts, w.leases, l, if Next(w.slots, step).registry != w.slots.registry then Some(step.g)
        else None);
    }
  }

  lemma CountSame(w: Floor, m: Move)
    requires !m.BeginLease? && !m.EndLease? && !m.Reserve? && !m.Retire? && !m.Restore?
    ensures Go(w, m).hosts == w.hosts && Go(w, m).leases == w.leases
  {
  }

  lemma CountKeeps(w: Floor, m: Move)
    requires FloorInv(w)
    ensures Counted(Go(w, m).hosts, Go(w, m).leases)
  {
    if m.BeginLease? || m.EndLease? { LeaseCounts(w, m); }
    else if m.Reserve? { ReserveCounts(w, m.lease, m.step); }
    else if m.Retire? || m.Restore? { CountedBarrier(w.hosts, w.leases, m.host); }
    else { CountSame(w, m); }
  }

  // ---- Every move keeps what a retirement relies on -----------------------------------------------------------

  ghost function ExitOf(w: Floor, m: Move): Option<string> {
    if m.Other? && IsOther(m.step) then ExitsNow(w.slots, m.step) else None
  }

  lemma IdleHasNoLease(w: Floor, h: string)
    requires Counted(w.hosts, w.leases) && HO.IsIdle(w.hosts, h)
    ensures forall l | l in w.leases :: w.leases[l].host != h
  {
    forall l | l in w.leases ensures w.leases[l].host != h {
      assert l !in LeasesOf(w.leases, h);
    }
  }

  lemma EbbsStill(r: Registry, h: string)
    ensures Ebb(r, r, h, None)
  {
  }

  lemma StepEbbs(w: World, step: Step, h: string, exit: Option<string>)
    requires Hosted(w) && OneHost(w.registry)
    requires Reserves(step) ==> step.host != h
    requires Drives(step) ==> step.g in w.spawns && w.spawns[step.g].hostId != h
    requires exit == ExitsNow(w, step)
    ensures Ebb(w.registry, Next(w, step).registry, h, exit)
  {
    if Reserves(step) { ReserveEbbs(w, step, h); }
    else if Drives(step) { DriveEbbs(w, step, h); }
    else { OtherEbbs(w, step, h); }
  }

  lemma StepIsAway(w: Floor, m: Move, h: string)
    requires Starts(w.slots, w.leases) && SlotStep(w, m).Some? && forall l | l in w.leases :: w.leases[l].host != h
    ensures var step := SlotStep(w, m).value;
      && (Reserves(step) ==> step.host != h)
      && (Drives(step) ==> step.g in w.slots.spawns && w.slots.spawns[step.g].hostId != h)
      && ExitOf(w, m) == ExitsNow(w.slots, step)
  {
  }

  /** A host that is idle only loses sessions. */
  lemma MoveEbbs(w: Floor, m: Move, h: string)
    requires FloorInv(w) && HO.IsIdle(w.hosts, h)
    ensures Ebb(w.slots.registry, Go(w, m).slots.registry, h, ExitOf(w, m))
  {
    IdleHasNoLease(w, h);
    MoveIsStep(w, m);
    if SlotStep(w, m).Some? {
      StepIsAway(w, m, h);
      StepEbbs(w.slots, SlotStep(w, m).value, h, ExitOf(w, m));
    } else {
      EbbsStill(w.slots.registry, h);
    }
  }

  lemma WithinEbbs(r: Registry, r': Registry, h: string, open: set<string>, exited: set<string>, exit: Option<string>)
    requires Ebb(r, r', h, exit) && OneHost(r) && OneHost(r') && Within(r, h, open, exited)
    ensures Within(r', h, open, exited)
  {
  }

  lemma ProgressEbbs(r: Registry, r': Registry, task: Retirement, exit: Option<string>)
    requires Ebb(r, r', task.host, exit) && OneHost(r) && OneHost(r') && Progress(r, task)
    ensures Progress(r', WithExit(task, exit))
  {
    if !task.disturbed {
      match task.place
      case Closes(rest, failed) => if !failed { WithinEbbs(r, r', task.host, rest, task.exited, exit); }
      case Ending(id, g, rest, failed) => if !failed { WithinEbbs(r, r', task.host, rest + {id}, task.exited, exit); }
      case Returned(ok) => if ok { WithinEbbs(r, r', task.host, {}, task.exited, exit); }
      case _ =>
    }
  }

  predicate MovesTask(m: Move, t: nat) {
    (m.SeeIdle? || m.GiveUp? || m.List? || m.CloseNext? || m.EndNext? || m.Return?) && m.task == t
  }

  lemma TaskSame(w: Floor, m: Move, t: nat)
    requires t in w.tasks && !MovesTask(m, t)
    ensures t in Go(w, m).tasks
    ensures Go(w, m).tasks[t] == WithExit(w.tasks[t], ExitOf(w, m))
         || (m.Restore? && m.host == w.tasks[t].host && Go(w, m).tasks[t] == w.tasks[t].(disturbed := true))
  {
  }

  lemma HostsCalm(w: Floor, m: Move, h: string)
    requires HO.IsRetired(w.hosts, h) && !(m.Restore? && m.host == h)
    ensures HO.IsRetired(Go(w, m).hosts, h) && (HO.IsIdle(w.hosts, h) ==> HO.IsIdle(Go(w, m).hosts, h))
  {
    if !m.BeginLease? && !m.EndLease? && !m.Reserve? && !m.Retire? && !m.Restore? { CountSame(w, m); }
  }

  lemma OtherTaskKeeps(w: Floor, m: Move, t: nat)
    requires FloorInv(w) && NewIds(w, m) && t in w.tasks && !MovesTask(m, t)
    ensures t in Go(w, m).tasks && Calm(Go(w, m), t) && Progress(Go(w, m).slots.registry, Go(w, m).tasks[t])
  {
    var task := w.tasks[t];
    TaskSame(w, m, t);
    if Go(w, m).tasks[t].disturbed {
    } else if m.Restore? && m.host == task.host {
      RestoreDisturbs(w, m, t);
    } else {
      HostsCalm(w, m, task.host);
      if !task.place.Waiting? && task.place != Returned(false) {
        MoveEbbs(w, m, task.host);
        SlotsKeep(w, m);
        ProgressEbbs(w.slots.registry, Go(w, m).slots.registry, task, ExitOf(w, m));
      }
    }
  }

  lemma RestoreDisturbs(w: Floor, m: Move, t: nat)
    requires m.Restore? && t in w.tasks && m.host == w.tasks[t].host && t in Go(w, m).tasks
      && !Go(w, m).tasks[t].disturbed
    ensures Go(w, m) == w
  {
  }

  lemma NoBareSlots(w: Floor, h: string)
    requires FloorInv(w) && HO.IsIdle(w.hosts, h)
    ensures forall id | SlotOf(w.slots.registry, id, h) :: !Bare(w.slots.registry, id)
  {
    IdleHasNoLease(w, h);
  }

  /** Asking a session of the host to close. */
  lemma CloseProgress(r: Registry, h: string, id: string, rest: set<string>, exited: set<string>)
    requires Within(r, h, rest, exited) && OneHost(r) && forall x | SlotOf(r, x, h) :: !Bare(r, x)
    ensures var (r', closing) := CloseBegin(r, id);
      Progress(r', Retirement(h, AfterBegin(closing, id, rest, false), false, exited))
  {
    var (r', closing) := CloseBegin(r, id);
    CloseEbbs(r, id, 0, h);
    if !closing.Missing? {
      var ends := closing.Ends? && closing.terminate;
      var open := if ends then rest - {id} + {id} else rest - {id};
      forall x | SlotOf(r', x, h) ensures x in open { assert SlotOf(r, x, h); }
      forall x | RecordOf(r', x, h) && x !in open ensures x in exited && IsOver(r'.snapshots[x].snapshot.state) {
        assert RecordOf(r, x, h) && x != id;
      }
      assert Within(r', h, open, exited);
    }
  }

  /** Removing a session whose child was ended. */
  lemma EndProgress(r: Registry, h: string, id: string, g: nat, rest: set<string>, exited: set<string>)
    requires Within(r, h, rest + {id}, exited) && EndingHolds(r, h, id, g, exited) && OneHost(r)
    ensures Within(CloseEnd(r, id, g), h, rest, exited)
  {
    var r' := CloseEnd(r, id, g);
    CloseEbbs(r, id, g, h);
    forall x | SlotOf(r', x, h) ensures x in rest { assert SlotOf(r, x, h); }
    forall x | RecordOf(r', x, h) && x !in rest ensures x in exited && IsOver(r'.snapshots[x].snapshot.state) {
      assert RecordOf(r, x, h);
    }
  }

  lemma CloseKeeps(w: Floor, t: nat, id: string)
    requires FloorInv(w) && t in w.tasks && w.tasks[t].place.Closes? && id in w.tasks[t].place.rest
    ensures var w' := CloseFloor(w, t, id); Calm(w', t) && Progress(w'.slots.registry, w'.tasks[t])
  {
    var task := w.tasks[t];
    if !task.disturbed && !task.place.failed {
      NoBareSlots(w, task.host);
      CloseProgress(w.slots.registry, task.host, id, task.place.rest, task.exited);
      var next := AfterBegin(CloseBegin(w.slots.registry, id).1, id, task.place.rest, false);
      assert task.(place := next) == Retirement(task.host, next, false, task.exited);
    }
  }

  lemma EndKeeps(w: Floor, t: nat, ok: bool)
    requires FloorInv(w) && t in w.tasks && w.tasks[t].place.Ending?
    ensures var w' := EndFloor(w, t, ok); Calm(w', t) && Progress(w'.slots.registry, w'.tasks[t])
  {
    var task := w.tasks[t];
    if !task.disturbed && !task.place.failed && ok {
      EndProgress(w.slots.registry, task.host, task.place.id, task.place.generation, task.place.rest, task.exited);
    }
  }

  lemma ListKeeps(w: Floor, t: nat)
    requires FloorInv(w) && t in w.tasks
    ensures t in Go(w, List(t)).tasks && Calm(Go(w, List(t)), t)
      && Progress(Go(w, List(t)).slots.registry, Go(w, List(t)).tasks[t])
  {
    assert Calm(w, t) && Progress(w.slots.registry, w.tasks[t]);
    assert Within(w.slots.registry, w.tasks[t].host, SessionsOf(w.slots.registry, w.tasks[t].host), w.tasks[t].exited);
  }

  lemma WaitKeeps(w: Floor, m: Move, t: nat)
    requires FloorInv(w) && t in w.tasks && (m == SeeIdle(t) || m == Move.GiveUp(t))
    ensures t in Go(w, m).tasks && Calm(Go(w, m), t) && Progress(Go(w, m).slots.registry, Go(w, m).tasks[t])
  {
    assert Calm(w, t) && Progress(w.slots.registry, w.tasks[t]);
  }

  lemma ReturnKeeps(w: Floor, t: nat)
    requires FloorInv(w) && t in w.tasks
    ensures t in Go(w, Return(t)).tasks
    ensures Calm(Go(w, Return(t)), t) && Progress(Go(w, Return(t)).slots.registry, Go(w, Return(t)).tasks[t])
  {
    assert Calm(w, t) && Progress(w.slots.registry, w.tasks[t]);
  }

  lemma OwnTaskKeeps(w: Floor, m: Move, t: nat)
    requires FloorInv(w) && t in w.tasks && MovesTask(m, t)
    ensures t in Go(w, m).tasks && Calm(Go(w, m), t) && Progress(Go(w, m).slots.registry, Go(w, m).tasks[t])
  {
    if m.CloseNext? {
      if w.tasks[t].place.Closes? && m.id in w.tasks[t].place.rest { CloseKeeps(w, t, m.id); }
    } else if m.EndNext? {
      if w.tasks[t].place.Ending? { EndKeeps(w, t, m.ok); }
    } else if m.List? {
      ListKeeps(w, t);
    } else if m.Return? {
      ReturnKeeps(w, t);
    } else {
      WaitKeeps(w, m, t);
    }
  }

  lemma NewTasks(w: Floor, m: Move, t: nat)
    requires t in Go(w, m).tasks && t !in w.tasks
    ensures m.Retire? && Calm(Go(w, m), t) && Progress(Go(w, m).slots.registry, Go(w, m).tasks[t])
  {
  }

  lemma GoKeeps(w: Floor, m: Move)
    requires FloorInv(w) && NewIds(w, m)
    ensures FloorInv(Go(w, m))
  {
    SlotsKeep(w, m);
    CountKeeps(w, m);
    forall t | t in Go(w, m).tasks ensures Calm(Go(w, m), t) && Progress(Go(w, m).slots.registry, Go(w, m).tasks[t]) {
      if t !in w.tasks { NewTasks(w, m, t); }
      else if MovesTask(m, t) { OwnTaskKeeps(w, m, t); }
      else { OtherTaskKeeps(w, m, t); }
    }
  }

  lemma {:induction false} RunKeeps(w: Floor, moves: seq<Move>)
    requires FloorInv(w) && RunNewIds(w, moves)
    ensures FloorInv(Exec(w, moves))
    decreases |moves|
  {
    if moves != [] {
      GoKeeps(w, moves[0]);
      RunKeeps(Go(w, moves[0]), moves[1..]);
    }
  }

  // ---- What a retirement that goes through has achieved ------------------------------------------------------

  /** In every run, as long as nobody has restored the host since: a retirement that has gone through
      leaves no slot of the host, and no start under way for it; a record of the host is left only of a
      session that exited while this retirement was ending it. */
  lemma RetiredHostHasNoSlots(moves: seq<Move>, t: nat)
    requires RunNewIds(EMPTY, moves)
    ensures var w := Exec(EMPTY, moves);
      At(w, t, Returned(true)) && !w.tasks[t].disturbed ==>
        var (r, h) := (w.slots.registry, w.tasks[t].host);
        && (forall id | id in r.active :: r.active[id].hostId != h)
        && (forall id | id in r.snapshots && r.snapshots[id].snapshot.hostId == h ::
              id in w.tasks[t].exited && IsOver(r.snapshots[id].snapshot.state))
        && HO.IsRetired(w.hosts, h) && HO.IsIdle(w.hosts, h) && (forall l | l in w.leases :: w.leases[l].host != h)
  {
    var w := Exec(EMPTY, moves);
    RunKeeps(EMPTY, moves);
    if At(w, t, Returned(true)) && !w.tasks[t].disturbed {
      var (r, h) := (w.slots.registry, w.tasks[t].host);
      assert Calm(w, t) && Progress(r, w.tasks[t]);
      assert Within(r, h, {}, w.tasks[t].exited);
      IdleHasNoLease(w, h);
      forall id | id in r.active ensures r.active[id].hostId != h { assert !SlotOf(r, id, h); }
      forall id | id in r.snapshots && r.snapshots[id].snapshot.hostId == h
        ensures id in w.tasks[t].exited && IsOver(r.snapshots[id].snapshot.state) { assert RecordOf(r, id, h); }
    }
  }

  /** The host is retired, nothing is under way for it, and it has no slot. */
  ghost predicate Vacant(w: Floor, h: string) {
    HO.IsRetired(w.hosts, h) && HO.IsIdle(w.hosts, h) && forall id :: !SlotOf(w.slots.registry, id, h)
  }

  predicate RestoresHost(m: Move, h: string) { m.Restore? && m.host == h }

  /** From then on, whatever else happens, the host has no slot until it is restored, and its records
      only get fewer. */
  lemma {:induction false} NoSlotsUntilRestored(w: Floor, h: string, moves: seq<Move>)
    requires FloorInv(w) && Vacant(w, h) && RunNewIds(w, moves) && forall m | m in moves :: !RestoresHost(m, h)
    ensures Vacant(Exec(w, moves), h)
    ensures forall id | RecordOf(Exec(w, moves).slots.registry, id, h) :: RecordOf(w.slots.registry, id, h)
    decreases |moves|
  {
    if moves != [] {
      assert moves[0] in moves && forall m | m in moves[1..] :: m in moves;
      GoKeeps(w, moves[0]);
      HostsCalm(w, moves[0], h);
      MoveEbbs(w, moves[0], h);
      NoSlotsUntilRestored(Go(w, moves[0]), h, moves[1..]);
    }
  }
}
