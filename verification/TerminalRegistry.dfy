/** The registry of terminal sessions as the object that is changed under its lock; each method
    is one critical section of `TerminalSlots`. */
module TerminalRegistries {
  import opened Prelude
  import opened Pruning
  import opened TerminalSlots

  class TerminalRegistry {
    var active: map<string, Slot>
    var snapshots: map<string, Record>
    var nextGeneration: nat

    constructor ()
      ensures Value() == Registry(map[], map[]) && nextGeneration == 0
    {
      active, snapshots, nextGeneration := map[], map[], 0;
    }

    ghost function Value(): Registry
      reads this
    {
      Registry(active, snapshots)
    }

    /** Taken before the lock. */
    method TakeGeneration() returns (g: nat)
      modifies this`nextGeneration
      ensures g == nextGeneration == old(nextGeneration) + 1
    {
      nextGeneration := nextGeneration + 1;
      g := nextGeneration;
    }

    method ReserveSlot(id: string, host: string, g: nat) returns (ok: bool)
      modifies this`active
      ensures var after := TerminalSlots.ReserveSlot(old(Value()), id, host, g);
        ok == after.Some? && Value() == if ok then after.value else old(Value())
    {
      if |active| >= MAX_ACTIVE {
        return false;
      }
      active := active[id := StartingSlot(g, host, false, false)];
      return true;
    }

    method ReserveNew(id: string, host: string, g: nat) returns (ok: bool)
      modifies this`active
      ensures var after := TerminalSlots.ReserveNew(old(Value()), id, host, g);
        ok == after.Some? && Value() == if ok then after.value else old(Value())
    {
      if id in active || id in snapshots {
        return false;
      }
      ok := ReserveSlot(id, host, g);
    }

    /** The snapshot the session had is returned with the reservation. */
    method ReserveReconnect(id: string, host: string, g: nat) returns (previous: Option<Snapshot>)
      modifies this`active
      ensures var after := TerminalSlots.ReserveReconnect(old(Value()), id, host, g);
        && previous == (if after.Some? then Some(old(snapshots)[id].snapshot) else None)
        && Value() == if after.Some? then after.value else old(Value())
    {
      if id !in snapshots || snapshots[id].snapshot.hostId != host || id in active {
        return None;
      }
      var found := snapshots[id].snapshot;
      var ok := ReserveSlot(id, host, g);
      previous := if ok then Some(found) else None;
    }

    method RegisterSpawnCleanup(id: string, g: nat) returns (open: bool)
      modifies this`active
      ensures (Value(), open) == RegisterCleanup(old(Value()), id, g)
    {
      if !(id in active && active[id].StartingSlot? && active[id].generation == g) {
        return false;
      }
      active := active[id := active[id].(hasCleanup := true)];
      return !active[id].closeRequested;
    }

    method CommitRunning(id: string, g: nat, host: string, s: Snapshot) returns (ok: bool)
      requires DistinctAges(snapshots, AgeOf) && forall x | x in snapshots && x != id :: snapshots[x].generation != g
      modifies this`active, this`snapshots
      ensures (Value(), ok) == TerminalSlots.CommitRunning(old(Value()), id, g, host, s)
    {
      if !(id in active && active[id].StartingSlot? && active[id].generation == g && !active[id].closeRequested) {
        return false;
      }
      active := active[id := RunningSlot(g, host)];
      snapshots := snapshots[id := Record(g, s)];
      snapshots := PruneTable(snapshots, active.Keys, TooManyRecords, AgeOf);
      return true;
    }

    method ReleaseReservation(id: string, g: nat)
      modifies this`active, this`snapshots
      ensures Value() == Release(old(Value()), id, g)
    {
      if !(id in active && active[id].StartingSlot? && active[id].generation == g) {
        return;
      }
      var closeRequested := active[id].closeRequested;
      active := active - {id};
      if closeRequested {
        snapshots := snapshots - {id};
      }
    }

    method FinishAbort(id: string, g: nat, removeSnapshot: bool)
      modifies this`active, this`snapshots
      ensures Value() == Abort(old(Value()), id, g, removeSnapshot)
    {
      if !(id in active && active[id].generation == g) {
        return;
      }
      var closeRequested := active[id].StartingSlot? && active[id].closeRequested;
      active := active - {id};
      if removeSnapshot || closeRequested {
        snapshots := snapshots - {id};
      }
    }

    method BeginClose(id: string) returns (closing: Closing)
      modifies this`active, this`snapshots
      ensures (Value(), closing) == CloseBegin(old(Value()), id)
    {
      if id !in active {
        if id in snapshots {
          snapshots := snapshots - {id};
          return Done;
        }
        return Missing;
      }
      match active[id]
      case StartingSlot(g, host, _, hasCleanup) =>
        active := active[id := StartingSlot(g, host, true, hasCleanup)];
        return Ends(g, hasCleanup);
      case RunningSlot(g, _) =>
        return Ends(g, true);
    }

    method EndClose(id: string, g: nat)
      modifies this`active, this`snapshots
      ensures Value() == CloseEnd(old(Value()), id, g)
    {
      if id in active && active[id].generation == g {
        active := active - {id};
        snapshots := snapshots - {id};
      }
    }

    method FinalizeExit(id: string, g: nat, code: Option<int>, signal: Option<string>)
        returns (emitted: Option<Snapshot>)
      modifies this`active, this`snapshots
      ensures (Value(), emitted) == TerminalSlots.FinalizeExit(old(Value()), id, g, code, signal)
    {
      var current := id in active && active[id].RunningSlot? && active[id].generation == g
                     && id in snapshots && snapshots[id].generation == g;
      if !current {
        return None;
      }
      active := active - {id};
      var s := snapshots[id].snapshot;
      var state := if code == Some(0) then Closed else Offline;
      var changed := s.state != state || s.exitCode != code || s.error != signal;
      s := s.(state := state, exitCode := code, error := signal);
      if changed {
        s := s.(revision := s.revision + 1);
      }
      snapshots := snapshots[id := Record(g, s)];
      return Some(s);
    }

    method RecordTerminalError(id: string, g: nat, message: string) returns (emitted: Option<Snapshot>)
      modifies this`snapshots
      ensures (Value(), emitted) == RecordError(old(Value()), id, g, message)
    {
      if !(id in active && active[id].RunningSlot? && active[id].generation == g) {
        return None;
      }
      if id !in snapshots || snapshots[id].generation != g {
        return None;
      }
      var s := snapshots[id].snapshot;
      if s.state.Failed? && s.error == Some(message) {
        return None;
      }
      s := s.(state := Failed, error := Some(message), revision := s.revision + 1);
      snapshots := snapshots[id := Record(g, s)];
      return Some(s);
    }

    method StopAll()
      modifies this`active, this`snapshots
      ensures Value() == Registry(map[], map[])
    {
      active, snapshots := map[], map[];
    }
  }

  /** In every reachable registry the records carry different generations. */
  lemma RecordsDistinct(w: World)
    requires Inv(w)
    ensures DistinctAges(w.registry.snapshots, AgeOf)
    ensures forall g, id | g in w.spawns && id in w.registry.snapshots && id != w.spawns[g].sessionId ::
              w.registry.snapshots[id].generation != g
  {
  }
}
