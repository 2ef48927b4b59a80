/** What the terminal registry records: the snapshot each critical section makes and what becomes of the
    slot, and that nothing is recorded for a session behind its exit. */
module SessionSnapshots {
  import opened Prelude
  import opened Pruning
  import opened TerminalSlots

  /** The session runs with this generation, and the record kept for it is of the same one. */
  predicate Runs(r: Registry, id: string, g: nat) {
    && id in r.active && r.active[id].RunningSlot? && r.active[id].generation == g
    && id in r.snapshots && r.snapshots[id].generation == g
  }

  // ---- Reservations -----------------------------------------------------------------------------------------

  /** A slot is taken exactly if the id is unknown and fewer than 32 sessions are active. */
  lemma ReserveNewMeans(r: Registry, id: string, host: string, g: nat)
    ensures ReserveNew(r, id, host, g) ==
      if id !in r.active && id !in r.snapshots && |r.active| < 32
      then Some(Registry(r.active[id := StartingSlot(g, host, false, false)], r.snapshots)) else None
  {
  }

  /** A reconnect takes a slot exactly if the session has a record of that host and no slot. */
  lemma ReserveReconnectMeans(r: Registry, id: string, host: string, g: nat)
    ensures ReserveReconnect(r, id, host, g) ==
      if id !in r.active && id in r.snapshots && r.snapshots[id].snapshot.hostId == host && |r.active| < 32
      then Some(Registry(r.active[id := StartingSlot(g, host, false, false)], r.snapshots)) else None
  {
  }

  predicate Starts(r: Registry, id: string, g: nat) {
    id in r.active && r.active[id].StartingSlot? && r.active[id].generation == g
  }

  /** A start that finds its slot and no request to close goes on; the child is known from then on. */
  lemma RegisterMeans(r: Registry, id: string, g: nat)
    ensures var (after, goesOn) := RegisterCleanup(r, id, g);
      && (goesOn <==> Starts(r, id, g) && !r.active[id].closeRequested)
      && after == (if Starts(r, id, g)
                   then r.(active := r.active[id :=
                     StartingSlot(g, r.active[id].hostId, r.active[id].closeRequested, true)])
                   else r)
  {
  }

  /** A start becomes a running session, with its snapshot on record, exactly if it finds its slot and no
      request to close. No other record changes; of those without a slot the oldest may go. */
  lemma CommitMeans(r: Registry, id: string, g: nat, host: string, s: Snapshot)
    requires |r.active| <= 32
    ensures var (after, ok) := CommitRunning(r, id, g, host, s);
      && (ok <==> Starts(r, id, g) && !r.active[id].closeRequested)
      && (!ok ==> after == r)
      && (ok ==>
            && after.active == r.active[id := RunningSlot(g, host)]
            && id in after.snapshots && after.snapshots[id] == Record(g, s) && |after.snapshots| <= 256
            && (forall x | x in after.snapshots && x != id :: x in r.snapshots && after.snapshots[x] == r.snapshots[x])
            && (forall x | x in r.snapshots && x in r.active && x != id :: x in after.snapshots)
            && (|after.snapshots| < 256 ==> after.snapshots == r.snapshots[id := Record(g, s)]))
  {
    if Starts(r, id, g) && !r.active[id].closeRequested {
      var active := r.active[id := RunningSlot(g, host)];
      assert active.Keys == r.active.Keys && |active| == |active.Keys| == |r.active.Keys| == |r.active|;
      PruneRecordsKeeps(r.snapshots[id := Record(g, s)], active.Keys);
      PrunesToLimit(r.snapshots[id := Record(g, s)], active.Keys);
    }
  }

  /** Records go only as long as there are more than 256. */
  lemma {:induction false} PrunesToLimit(snapshots: map<string, Record>, active: set<string>)
    ensures var p := PruneRecords(snapshots, active); p == snapshots || |p| >= 256
    decreases |snapshots|
  {
    if |snapshots| > 256 && exists k :: IsOldest(snapshots, active, AgeOf, k) {
      var k :| IsOldest(snapshots, active, AgeOf, k)
        && PruneRecords(snapshots, active) == PruneRecords(snapshots - {k}, active);
      Smaller(snapshots, k);
      PrunesToLimit(snapshots - {k}, active);
    }
  }

  /** A start that gives up frees its slot; the record goes with it if the session was to be closed. */
  lemma ReleaseMeans(r: Registry, id: string, g: nat)
    ensures Release(r, id, g) ==
      if Starts(r, id, g)
      then Registry(r.active - {id}, if r.active[id].closeRequested then r.snapshots - {id} else r.snapshots) else r
  {
  }

  /** An aborted start frees the slot of its own generation; the record goes if asked for, or if the
      session was to be closed. */
  lemma AbortMeans(r: Registry, id: string, g: nat, remove: bool)
    ensures Abort(r, id, g, remove) ==
      if id in r.active && r.active[id].generation == g
      then Registry(r.active - {id},
                    if remove || (r.active[id].StartingSlot? && r.active[id].closeRequested) then r.snapshots - {id}
                      else r.snapshots)
      else r
  {
  }

  // ---- Closing ----------------------------------------------------------------------------------------------

  /** Closing a session without a slot removes its record; one that starts is marked; of one that runs
      nothing changes yet. In the last two cases the child is to be ended, if there is one. */
  lemma BeginCloseMeans(r: Registry, id: string)
    ensures var (after, closing) := CloseBegin(r, id);
      if id !in r.active then
        after == Registry(r.active, r.snapshots - {id}) && closing == (if id in r.snapshots then Done else Missing)
      else
        var slot := r.active[id];
        && after == (if slot.StartingSlot?
                     then r.(active := r.active[id :=
                       StartingSlot(slot.generation, slot.hostId, true, slot.hasCleanup)]) else r)
        && closing == Ends(slot.generation, slot.RunningSlot? || slot.hasCleanup)
  {
    assert id !in r.snapshots ==> r.snapshots - {id} == r.snapshots;
  }

  /** The end of a close removes slot and record, unless the slot is of another generation by now. */
  lemma EndCloseMeans(r: Registry, id: string, g: nat)
    ensures CloseEnd(r, id, g) ==
      if id in r.active && r.active[id].generation == g then Registry(r.active - {id}, r.snapshots - {id}) else r
  {
  }

  // ---- Exits and errors -------------------------------------------------------------------------------------

  /** What an exit makes of the snapshot: closed if the code is 0, offline otherwise. */
  predicate IsExit(was: Snapshot, code: Option<int>, signal: Option<string>, now: Snapshot) {
    && now.state == (if code == Some(0) then Closed else Offline)
    && now.exitCode == code && now.error == signal
    && now.sessionId == was.sessionId && now.hostId == was.hostId && now.generation == was.generation
    && now.revision == was.revision + (if now == was.(revision := now.revision) then 0 else 1)
  }

  /** The exit of a running session is recorded and emitted, and its slot is free; of any other generation
      nothing is recorded. */
  lemma ExitMeans(r: Registry, id: string, g: nat, code: Option<int>, signal: Option<string>)
    ensures var (after, emitted) := FinalizeExit(r, id, g, code, signal);
      && (emitted.Some? <==> Runs(r, id, g))
      && (emitted.None? ==> after == r)
      && (emitted.Some? ==>
            && IsExit(r.snapshots[id].snapshot, code, signal, emitted.value)
            && after.active == r.active - {id} && after.snapshots == r.snapshots[id := Record(g, emitted.value)])
  {
  }

  /** An error of a running session is recorded once for each message; the session keeps its slot. */
  lemma ErrorMeans(r: Registry, id: string, g: nat, message: string)
    ensures var (after, emitted) := RecordError(r, id, g, message);
      && (emitted.Some? <==>
            Runs(r, id, g) && !(r.snapshots[id].snapshot.state == Failed
              && r.snapshots[id].snapshot.error == Some(message)))
      && (emitted.None? ==> after == r)
      && (emitted.Some? ==>
            var was := r.snapshots[id].snapshot;
            && emitted.value == Snapshot(was.sessionId, was.generation, was.revision + 1, was.hostId, Failed,
                 was.exitCode, Some(message))
            && after.active == r.active && after.snapshots == r.snapshots[id := Record(g, emitted.value)])
  {
  }

  // ---- Whole runs -------------------------------------------------------------------------------------------

  predicate HasSlot(r: Registry, g: nat) { exists id :: id in r.active && r.active[id].generation == g }

  lemma StartRecords(w: World, g: nat)
    requires g in w.spawns
    ensures var w' := Next(w, Commit(g)); var spawn := w.spawns[g];
      if Starts(w.registry, spawn.sessionId, g) && !w.registry.active[spawn.sessionId].closeRequested
      then w'.log == w.log + [Snapshot(spawn.sessionId, g, spawn.revision, spawn.hostId, Running, None, None)]
           && IsRunning(w'.registry, spawn.sessionId, g)
      else w' == w
  {
  }

  /** The exit of the generation was recorded as the next snapshot: with the next revision, closed if the
      code is 0 and offline otherwise, of the session it was started for; and its slot is gone. */
  ghost predicate ExitRecorded(w: World, w': World, id: string, g: nat, code: Option<int>, signal: Option<string>) {
    && g in w.spawns && w.spawns[g].sessionId == id && id in w.registry.snapshots
    && exists end :: w'.log == w.log + [end] && IsExit(w.registry.snapshots[id].snapshot, code, signal, end)
                     && end.revision == w.registry.snapshots[id].snapshot.revision + 1
                     && end.sessionId == id && end.generation == g
                     && w'.registry.snapshots == w.registry.snapshots[id := Record(g, end)]
                     && !HasSlot(w'.registry, g)
  }

  lemma ExitStep(w: World, id: string, g: nat, code: Option<int>, signal: Option<string>)
    requires Inv(w) && IsRunning(w.registry, id, g)
    ensures ExitRecorded(w, Next(w, Exit(g, code, signal)), id, g, code, signal)
  {
    var was := w.registry.snapshots[id].snapshot;
    ExitMeans(w.registry, id, g, code, signal);
    var end := FinalizeExit(w.registry, id, g, code, signal).1.value;
    assert end.revision == was.revision + 1 by {
      assert was.state in {TerminalState.Running, Failed};
    }
    var w' := Next(w, Exit(g, code, signal));
    assert w' == w.(registry := w'.registry, log := w.log + [end]);
    forall x | x in w'.registry.active ensures w'.registry.active[x].generation != g { assert x in w.registry.active; }
  }

  /** In every run, the exit of a generation that runs is recorded as the next snapshot. */
  lemma ExitRecords(steps: seq<Step>, id: string, g: nat, code: Option<int>, signal: Option<string>)
    requires RunIdsNew(INITIAL, steps) && IsRunning(Exec(INITIAL, steps).registry, id, g)
    ensures ExitRecorded(Exec(INITIAL, steps), Next(Exec(INITIAL, steps), Exit(g, code, signal)), id, g, code, signal)
  {
    ExecKeeps(INITIAL, steps);
    ExitStep(Exec(INITIAL, steps), id, g, code, signal);
  }

  predicate SaysNothingOf(log: seq<Snapshot>, from: nat, g: nat) {
    forall k | from <= k < |log| :: log[k].generation != g
  }

  /** A step records nothing of a generation that was used and has no slot, and gives it none. */
  lemma SilentStep(w: World, step: Step, g: nat)
    requires Inv(w) && IdsNew(w, step) && g in w.spawns && !HasSlot(w.registry, g)
    ensures var w' := Next(w, step);
      g in w'.spawns && !HasSlot(w'.registry, g) && w.log <= w'.log && SaysNothingOf(w'.log, |w.log|, g)
  {
    if ActsFor(step, g) {
      StaleDoesNothing(w, step, g);
    } else {
      match step
      case Commit(x) => if x in w.spawns { StartRecords(w, x); SilentCommit(w, x, g); }
      case Exit(x, code, signal) => if x in w.spawns { SilentExit(w, x, code, signal, g); }
      case WaitError(x, message) => if x in w.spawns { SilentError(w, x, message, g); }
      case _ => SilentOther(w, step, g);
    }
  }

  lemma SilentCommit(w: World, x: nat, g: nat)
    requires Inv(w) && x in w.spawns && x != g && !HasSlot(w.registry, g)
    ensures !HasSlot(Next(w, Commit(x)).registry, g)
  {
    var id := w.spawns[x].sessionId;
    CommitMeans(w.registry, id, x, w.spawns[x].hostId, FirstSnapshot(w.spawns[x], x));
    forall y | y in Next(w, Commit(x)).registry.active ensures Next(w, Commit(x)).registry.active[y].generation != g {
      if y != id { assert y in w.registry.active; }
    }
  }

  lemma SilentExit(w: World, x: nat, code: Option<int>, signal: Option<string>, g: nat)
    requires Inv(w) && x in w.spawns && x != g && !HasSlot(w.registry, g)
    ensures var w' := Next(w, Exit(x, code, signal));
      !HasSlot(w'.registry, g) && w.log <= w'.log && SaysNothingOf(w'.log, |w.log|, g) && w'.spawns == w.spawns
  {
    ExitMeans(w.registry, w.spawns[x].sessionId, x, code, signal);
  }

  lemma SilentError(w: World, x: nat, message: string, g: nat)
    requires Inv(w) && x in w.spawns && x != g && !HasSlot(w.registry, g)
    ensures var w' := Next(w, WaitError(x, message));
      !HasSlot(w'.registry, g) && w.log <= w'.log && SaysNothingOf(w'.log, |w.log|, g) && w'.spawns == w.spawns
  {
    ErrorMeans(w.registry, w.spawns[x].sessionId, x, message);
  }

  /** The generation was used, has no slot after the step, and the log is the one before. */
  predicate Silent(w: World, w': World, g: nat) { g in w'.spawns && !HasSlot(w'.registry, g) && w'.log == w.log }

  lemma SilentReservation(w: World, after: Option<Registry>, id: string, host: string, x: nat, spawn: Spawn, g: nat)
    requires Inv(w) && x in w.tickets && g in w.spawns && !HasSlot(w.registry, g)
    requires after.Some? ==>
      after.value == Registry(w.registry.active[id := StartingSlot(x, host, false, false)], w.registry.snapshots)
    ensures Silent(w, Reserved(w, after, x, spawn), g)
  {
    assert x !in w.spawns;
  }

  /** Without a new generation in any slot, none comes about. */
  predicate NoNewSlots(r: Registry, r': Registry) {
    forall id | id in r'.active :: id in r.active && r'.active[id].generation == r.active[id].generation
  }

  lemma NoNewSlotsKept(r: Registry, r': Registry, g: nat)
    requires NoNewSlots(r, r') && !HasSlot(r, g)
    ensures !HasSlot(r', g)
  {
  }

  lemma SilentStart(w: World, step: Step)
    requires step.Register? || step.BeginClose?
    ensures NoNewSlots(w.registry, Next(w, step).registry)
    ensures Next(w, step).spawns == w.spawns && Next(w, step).log == w.log
  {
  }

  lemma SilentEnd(w: World, step: Step)
    requires step.GiveUp? || step.AbortSpawn? || step.EndClose? || step.StopAll? || step.TakeGeneration?
    ensures NoNewSlots(w.registry, Next(w, step).registry)
    ensures Next(w, step).spawns == w.spawns && Next(w, step).log == w.log
  {
  }

  lemma SilentOther(w: World, step: Step, g: nat)
    requires Inv(w) && g in w.spawns && !HasSlot(w.registry, g) && !step.Commit? && !step.Exit? && !step.WaitError?
    ensures Silent(w, Next(w, step), g)
  {
    match step
    case StartNew(id, host, x) => SilentNew(w, id, host, x, g);
    case Reconnect(id, host, x) => SilentReconnect(w, id, host, x, g);
    case _ =>
      if step.Register? || step.BeginClose? { SilentStart(w, step); } else { SilentEnd(w, step); }
      NoNewSlotsKept(w.registry, Next(w, step).registry, g);
  }

  lemma SilentNew(w: World, id: string, host: string, x: nat, g: nat)
    requires Inv(w) && g in w.spawns && !HasSlot(w.registry, g)
    ensures Silent(w, Next(w, StartNew(id, host, x)), g)
  {
    ReserveNewMeans(w.registry, id, host, x);
    if x in w.tickets {
      SilentReservation(w, ReserveNew(w.registry, id, host, x), id, host, x, Spawn(id, host, 1), g);
    }
  }

  lemma SilentReconnect(w: World, id: string, host: string, x: nat, g: nat)
    requires Inv(w) && g in w.spawns && !HasSlot(w.registry, g)
    ensures Silent(w, Next(w, Reconnect(id, host, x)), g)
  {
    ReserveReconnectMeans(w.registry, id, host, x);
    if x in w.tickets {
      var r := w.registry;
      var revision := if id in r.snapshots then r.snapshots[id].snapshot.revision + 1 else 1;
      SilentReservation(w, ReserveReconnect(r, id, host, x), id, host, x, Spawn(id, host, revision), g);
    }
  }

  lemma {:induction false} SilentRun(w: World, steps: seq<Step>, g: nat)
    requires Inv(w) && RunIdsNew(w, steps) && g in w.spawns && !HasSlot(w.registry, g)
    ensures w.log <= Exec(w, steps).log && SaysNothingOf(Exec(w, steps).log, |w.log|, g)
    decreases |steps|
  {
    if steps != [] {
      NextKeeps(w, steps[0]);
      SilentStep(w, steps[0], g);
      SilentRun(Next(w, steps[0]), steps[1..], g);
      SilentTwice(w.log, Next(w, steps[0]).log, Exec(w, steps).log, g);
    }
  }

  lemma SilentTwice(a: seq<Snapshot>, b: seq<Snapshot>, c: seq<Snapshot>, g: nat)
    requires a <= b <= c && SaysNothingOf(b, |a|, g) && SaysNothingOf(c, |b|, g)
    ensures a <= c && SaysNothingOf(c, |a|, g)
  {
    forall k | |a| <= k < |c| ensures c[k].generation != g {
      if k < |b| { assert b[k] == c[k]; }
    }
  }

  /** In every run, the snapshot of its exit is the last one ever recorded of a generation. */
  lemma ExitIsTheLastWord(steps: seq<Step>, id: string, g: nat, code: Option<int>, signal: Option<string>,
      more: seq<Step>)
    requires RunIdsNew(INITIAL, steps) && IsRunning(Exec(INITIAL, steps).registry, id, g)
    requires RunIdsNew(Next(Exec(INITIAL, steps), Exit(g, code, signal)), more)
    ensures var w := Exec(INITIAL, steps); var w' := Next(w, Exit(g, code, signal));
      ExitRecorded(w, w', id, g, code, signal) && w'.log <= Exec(w', more).log
        && SaysNothingOf(Exec(w', more).log, |w'.log|, g)
  {
    ExecKeeps(INITIAL, steps);
    var w := Exec(INITIAL, steps);
    ExitStep(w, id, g, code, signal);
    NextKeeps(w, Exit(g, code, signal));
    SpawnsStay(w, g, code, signal);
    SilentRun(Next(w, Exit(g, code, signal)), more, g);
  }

  lemma SpawnsStay(w: World, g: nat, code: Option<int>, signal: Option<string>)
    ensures Next(w, Exit(g, code, signal)).spawns == w.spawns
  {
  }
}
