/** A retirement that goes through and leaves the record of a session behind. */
module TerminalRetirementRuns {
  import opened Prelude
  import opened TerminalSlots
  import opened TerminalRetirement
  import HO = HostOperations
  import Paths

  ghost predicate Does(w: Floor, m: Move, w': Floor) { NewIds(w, m) && w' == Go(w, m) }

  ghost predicate Reaches(moves: seq<Move>, w: Floor) { Paths.Leads(Does, EMPTY, moves, w) }

  lemma {:induction false} LeadsRuns(w: Floor, moves: seq<Move>, w': Floor)
    requires Paths.Leads(Does, w, moves, w')
    ensures RunNewIds(w, moves) && TerminalRetirement.Exec(w, moves) == w'
    decreases |moves|
  {
    var w1 := Paths.Unfolded(Does, w, moves, w');
    if moves != [] { LeadsRuns(w1, moves[1..], w'); }
  }

  lemma ReachesMore(moves: seq<Move>, w: Floor, m: Move, w': Floor)
    requires Reaches(moves, w) && Does(w, m, w')
    ensures Reaches(moves + [m], w')
  {
    Paths.OneStep(Does, w, m, w');
    Paths.Joined(Does, EMPTY, moves, w, [m], w');
  }

  // ---- A session of the host -----------------------------------------------------------------------------

  /** The one session there is, running or exited, and what a retirement has come to. */
  ghost predicate OneSession(w: Floor, h: string, id: string, running: bool, task: Option<Retirement>) {
    && w.slots.registry.active == (if running then map[id := RunningSlot(1, h)] else map[])
    && w.slots.registry.snapshots.Keys == {id} && RecordOf(w.slots.registry, id, h)
         && w.slots.registry.snapshots[id].generation == 1
    && 1 in w.slots.spawns && w.slots.spawns[1].sessionId == id
    && w.leases == map[] && HO.IsIdle(w.hosts, h) && w.tasks == (if task.Some? then map[0 := task.value] else map[])
  }

  lemma LeaseTaken(h: string) returns (w: Floor)
    ensures Reaches([] + [Other(TakeGeneration)] + [BeginLease(0, h)], w)
    ensures w.slots == INITIAL.(nextGeneration := 1, tickets := {1})
    ensures w.leases == map[0 := Lease(h, None)] && w.hosts == map[h := HO.HostState(1, false)] && w.tasks == map[]
  {
    Paths.NoStep(Does, EMPTY);
    var w1 := Go(EMPTY, Other(TakeGeneration));
    ReachesMore([], EMPTY, Other(TakeGeneration), w1);
    w := Go(w1, BeginLease(0, h));
    ReachesMore([] + [Other(TakeGeneration)], w1, BeginLease(0, h), w);
  }

  lemma OneReserved(w: Floor, h: string, id: string) returns (w': Floor)
    requires w.slots == INITIAL.(nextGeneration := 1, tickets := {1}) && w.leases == map[0 := Lease(h, None)]
    ensures Does(w, Reserve(0, StartNew(id, h, 1)), w') && w'.hosts == w.hosts && w'.tasks == w.tasks
    ensures w'.leases == map[0 := Lease(h, Some(1))] && w'.slots.spawns == map[1 := Spawn(id, h, 1)]
    ensures w'.slots.registry == Registry(map[id := StartingSlot(1, h, false, false)], map[])
  {
    w' := Go(w, Reserve(0, StartNew(id, h, 1)));
    assert id in w'.slots.registry.active;
  }

  lemma Committed(w: Floor, h: string, id: string) returns (w': Floor)
    requires w.leases == map[0 := Lease(h, Some(1))] && w.slots.spawns == map[1 := Spawn(id, h, 1)]
    requires w.slots.registry == Registry(map[id := StartingSlot(1, h, false, false)], map[])
    ensures Does(w, Drive(0, Commit(1)), w') && w'.hosts == w.hosts && w'.tasks == w.tasks && w'.leases == w.leases
    ensures w'.slots.spawns == w.slots.spawns && w'.slots.registry.active == map[id := RunningSlot(1, h)]
    ensures w'.slots.registry.snapshots == map[id := Record(1, FirstSnapshot(Spawn(id, h, 1), 1))]
  {
    var s := FirstSnapshot(Spawn(id, h, 1), 1);
    var active := map[id := RunningSlot(1, h)];
    var records := map[id := Record(1, s)];
    assert |active.Keys| == 1;
    PruneRecordsKeeps(records, active.Keys);
    PrunedRecords(records, active.Keys);
    assert PruneRecords(records, active.Keys) == records;
    assert w.slots.registry.active[id := RunningSlot(1, h)] == active
      && w.slots.registry.snapshots[id := Record(1, s)] == records;
    w' := Go(w, Drive(0, Commit(1)));
  }

  lemma Started(h: string, id: string) returns (moves: seq<Move>, w: Floor)
    ensures Reaches(moves, w) && OneSession(w, h, id, true, None)
  {
    var w0 := LeaseTaken(h);
    var s := [] + [Other(TakeGeneration)] + [BeginLease(0, h)];
    var w1 := OneReserved(w0, h, id);
    ReachesMore(s, w0, Reserve(0, StartNew(id, h, 1)), w1);
    var w2 := Committed(w1, h, id);
    ReachesMore(s + [Reserve(0, StartNew(id, h, 1))], w1, Drive(0, Commit(1)), w2);
    w := LeaseGone(w2, h, id);
    ReachesMore(s + [Reserve(0, StartNew(id, h, 1))] + [Drive(0, Commit(1))], w2, EndLease(0), w);
    moves := s + [Reserve(0, StartNew(id, h, 1))] + [Drive(0, Commit(1))] + [EndLease(0)];
  }

  lemma LeaseGone(w: Floor, h: string, id: string) returns (w': Floor)
    requires w.leases == map[0 := Lease(h, Some(1))] && w.hosts == map[h := HO.HostState(1, false)] && w.tasks == map[]
    requires w.slots.registry.active == map[id := RunningSlot(1, h)] && w.slots.spawns == map[1 := Spawn(id, h, 1)]
    requires w.slots.registry.snapshots == map[id := Record(1, FirstSnapshot(Spawn(id, h, 1), 1))]
    ensures Does(w, EndLease(0), w') && OneSession(w', h, id, true, None)
  {
    w' := Go(w, EndLease(0));
    assert w.leases - {0} == map[];
  }

  // ---- Its host retired ------------------------------------------------------------------------------------

  lemma Retired(w: Floor, h: string, id: string) returns (w': Floor)
    requires OneSession(w, h, id, true, None)
    ensures Does(w, Retire(0, h), w') && OneSession(w', h, id, true, Some(Retirement(h, Waiting, false, {})))
  {
    w' := Go(w, Retire(0, h));
  }

  lemma SeesIdle(w: Floor, h: string, id: string) returns (w': Floor)
    requires OneSession(w, h, id, true, Some(Retirement(h, Waiting, false, {})))
    ensures Does(w, SeeIdle(0), w') && OneSession(w', h, id, true, Some(Retirement(h, SawIdle, false, {})))
  {
    w' := Go(w, SeeIdle(0));
  }

  lemma Lists(w: Floor, h: string, id: string) returns (w': Floor)
    requires OneSession(w, h, id, true, Some(Retirement(h, SawIdle, false, {})))
    ensures Does(w, List(0), w') && OneSession(w', h, id, true, Some(Retirement(h, Closes({id}, false), false, {})))
  {
    assert SessionsOf(w.slots.registry, h) == {id};
    w' := Go(w, List(0));
  }

  lemma AsksToClose(w: Floor, h: string, id: string) returns (w': Floor)
    requires OneSession(w, h, id, true, Some(Retirement(h, Closes({id}, false), false, {})))
    ensures Does(w, CloseNext(0, id), w') && OneSession(w', h, id, true,
      Some(Retirement(h, Ending(id, 1, {}, false), false, {})))
  {
    assert {id} - {id} == {};
    w' := Go(w, CloseNext(0, id));
  }

  lemma ExitsMeanwhile(w: Floor, h: string, id: string) returns (w': Floor)
    requires OneSession(w, h, id, true, Some(Retirement(h, Ending(id, 1, {}, false), false, {})))
    ensures Does(w, Other(Exit(1, Some(0), None)), w')
    ensures OneSession(w', h, id, false, Some(Retirement(h, Ending(id, 1, {}, false), false, {id})))
  {
    w' := Go(w, Other(Exit(1, Some(0), None)));
    assert w.slots.registry.active - {id} == map[];
    assert ExitsNow(w.slots, Exit(1, Some(0), None)) == Some(id);
    assert WithExit(w.tasks[0], Some(id)) == Retirement(h, Ending(id, 1, {}, false), false, {id}) by {
      assert {} + {id} == {id};
    }
    assert w'.tasks == map[0 := WithExit(w.tasks[0], Some(id))];
  }

  lemma EndsNothing(w: Floor, h: string, id: string) returns (w': Floor)
    requires OneSession(w, h, id, false, Some(Retirement(h, Ending(id, 1, {}, false), false, {id})))
    ensures Does(w, EndNext(0, true), w') && OneSession(w', h, id, false,
      Some(Retirement(h, Closes({}, false), false, {id})))
  {
    w' := Go(w, EndNext(0, true));
  }

  lemma Returns(w: Floor, h: string, id: string) returns (w': Floor)
    requires OneSession(w, h, id, false, Some(Retirement(h, Closes({}, false), false, {id})))
    ensures Does(w, Return(0), w') && OneSession(w', h, id, false, Some(Retirement(h, Returned(true), false, {id})))
  {
    w' := Go(w, Return(0));
  }

  lemma AskedToClose(h: string, id: string) returns (moves: seq<Move>, w: Floor)
    ensures Reaches(moves, w) && OneSession(w, h, id, true, Some(Retirement(h, Ending(id, 1, {}, false), false, {})))
  {
    var s, w0 := Started(h, id);
    var w1 := Retired(w0, h, id);
    ReachesMore(s, w0, Retire(0, h), w1);
    var w2 := SeesIdle(w1, h, id);
    ReachesMore(s + [Retire(0, h)], w1, SeeIdle(0), w2);
    var w3 := Lists(w2, h, id);
    ReachesMore(s + [Retire(0, h)] + [SeeIdle(0)], w2, List(0), w3);
    w := AsksToClose(w3, h, id);
    ReachesMore(s + [Retire(0, h)] + [SeeIdle(0)] + [List(0)], w3, CloseNext(0, id), w);
    moves := s + [Retire(0, h)] + [SeeIdle(0)] + [List(0)] + [CloseNext(0, id)];
  }

  /** The exit of the only session is recorded while a retirement of its host is ending it: the
      retirement goes through, undisturbed, and the record of the session stays. */
  lemma RecordStays(h: string, id: string) returns (moves: seq<Move>)
    ensures RunNewIds(EMPTY, moves)
    ensures var w := TerminalRetirement.Exec(EMPTY, moves);
      At(w, 0, Returned(true)) && w.tasks[0].host == h && !w.tasks[0].disturbed && RecordOf(w.slots.registry, id, h)
  {
    var s, w0 := AskedToClose(h, id);
    var w1 := ExitsMeanwhile(w0, h, id);
    ReachesMore(s, w0, Other(Exit(1, Some(0), None)), w1);
    var w2 := EndsNothing(w1, h, id);
    ReachesMore(s + [Other(Exit(1, Some(0), None))], w1, EndNext(0, true), w2);
    var w3 := Returns(w2, h, id);
    ReachesMore(s + [Other(Exit(1, Some(0), None))] + [EndNext(0, true)], w2, Return(0), w3);
    moves := s + [Other(Exit(1, Some(0), None))] + [EndNext(0, true)] + [Return(0)];
    LeadsRuns(EMPTY, moves, w3);
  }
}
