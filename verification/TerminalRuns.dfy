/** Two overlapping reconnects of one session: a run that records a lower generation over a higher. */
module TerminalRuns {
  import opened Prelude
  import Paths
  import opened TerminalSlots

  ghost predicate Does(w: World, s: Step, w': World) { IdsNew(w, s) && w' == Next(w, s) }

  /** The steps lead from the empty registry to `w`. */
  ghost predicate Reaches(steps: seq<Step>, w: World) { Paths.Leads(Does, INITIAL, steps, w) }

  lemma {:induction false} LeadsRuns(w: World, steps: seq<Step>, w': World)
    requires Paths.Leads(Does, w, steps, w')
    ensures RunIdsNew(w, steps) && Exec(w, steps) == w'
    decreases |steps|
  {
    var w1 := Paths.Unfolded(Does, w, steps, w');
    if steps != [] { LeadsRuns(w1, steps[1..], w'); }
  }

  lemma ReachesRuns(steps: seq<Step>, w: World)
    requires Reaches(steps, w)
    ensures RunIdsNew(INITIAL, steps) && Exec(INITIAL, steps) == w && Inv(w)
  {
    LeadsRuns(INITIAL, steps, w);
    ExecKeeps(INITIAL, steps);
  }

  lemma ReachesMore(steps: seq<Step>, w: World, s: Step)
    requires Reaches(steps, w) && IdsNew(w, s)
    ensures Reaches(steps + [s], Next(w, s))
  {
    Paths.OneStep(Does, w, s, Next(w, s));
    Paths.Joined(Does, INITIAL, steps, w, [s], Next(w, s));
  }

  /** One session, recorded with its generation and revision, and the generations taken so far. */
  ghost predicate One(w: World, id: string, host: string, g: nat, revision: nat, running: bool, tickets: set<nat>,
      last: nat) {
    && w.registry.active == (if running then map[id := RunningSlot(g, host)] else map[])
    && id in w.registry.snapshots && w.registry.snapshots[id].generation == g
    && w.registry.snapshots[id].snapshot.revision == revision && w.registry.snapshots[id].snapshot.hostId == host
    && (running ==> w.registry.snapshots[id].snapshot.state.Running?)
    && w.tickets == tickets && w.nextGeneration == last
    && g in w.spawns && w.spawns[g].sessionId == id && w.spawns[g].hostId == host
  }

  /** A starting slot that nobody has asked to close is committed. */
  lemma Commits(w: World, g: nat, id: string, host: string)
    requires Inv(w) && g in w.spawns && w.spawns[g].sessionId == id && w.spawns[g].hostId == host
    requires w.registry.active == map[id := StartingSlot(g, host, false, false)]
    ensures One(Next(w, Commit(g)), id, host, g, w.spawns[g].revision, true, w.tickets, w.nextGeneration)
  {
    var r' := CommitRunning(w.registry, id, g, host, FirstSnapshot(w.spawns[g], g)).0;
    CommitTidy(w, g, r');
    assert r'.active == map[id := RunningSlot(g, host)];
  }

  lemma Starts(id: string, host: string) returns (steps: seq<Step>, w: World)
    ensures Reaches(steps, w) && One(w, id, host, 1, 1, true, {}, 1)
  {
    Paths.NoStep(Does, INITIAL);
    var w1 := Next(INITIAL, TakeGeneration);
    ReachesMore([], INITIAL, TakeGeneration);
    var w2 := Next(w1, StartNew(id, host, 1));
    ReachesMore([] + [TakeGeneration], w1, StartNew(id, host, 1));
    steps := [] + [TakeGeneration] + [StartNew(id, host, 1)];
    ReachesRuns(steps, w2);
    Commits(w2, 1, id, host);
    ReachesMore(steps, w2, Commit(1));
    steps, w := steps + [Commit(1)], Next(w2, Commit(1));
  }

  lemma Exits(steps: seq<Step>, w: World, id: string, host: string, g: nat, revision: nat, tickets: set<nat>,
      last: nat) returns (w': World)
    requires Reaches(steps, w) && One(w, id, host, g, revision, true, tickets, last)
    ensures Reaches(steps + [Exit(g, Some(0), None)], w') && One(w', id, host, g, revision + 1, false, tickets, last)
  {
    w' := Next(w, Exit(g, Some(0), None));
    ReachesMore(steps, w, Exit(g, Some(0), None));
    assert w.registry.active - {id} == map[];
  }

  lemma Takes(steps: seq<Step>, w: World, id: string, host: string, g: nat, revision: nat, tickets: set<nat>,
      last: nat) returns (w': World)
    requires Reaches(steps, w) && One(w, id, host, g, revision, false, tickets, last)
    ensures Reaches(steps + [TakeGeneration], w')
      && One(w', id, host, g, revision, false, tickets + {last + 1}, last + 1)
  {
    w' := Next(w, TakeGeneration);
    ReachesMore(steps, w, TakeGeneration);
  }

  lemma Reconnects(steps: seq<Step>, w: World, id: string, host: string, g: nat, revision: nat, tickets: set<nat>,
      last: nat, next: nat)
    returns (w': World)
    requires Reaches(steps, w) && One(w, id, host, g, revision, false, tickets, last) && next in tickets
    ensures Reaches(steps + [Reconnect(id, host, next)] + [Commit(next)], w')
    ensures One(w', id, host, next, revision + 1, true, tickets - {next}, last)
  {
    var w1 := Next(w, Reconnect(id, host, next));
    ReachesMore(steps, w, Reconnect(id, host, next));
    ReachesRuns(steps + [Reconnect(id, host, next)], w1);
    Commits(w1, next, id, host);
    ReachesMore(steps + [Reconnect(id, host, next)], w1, Commit(next));
    w' := Next(w1, Commit(next));
  }

  /** Two reconnects take generations 2 and 3, the one with 3 goes first, and once it has exited the
      one with 2 commits: the generation of the session goes down, its revision goes up. */
  lemma OverlappingReconnects(id: string, host: string) returns (before: seq<Step>)
    ensures var after := before + [Reconnect(id, host, 2)] + [Commit(2)];
      var (r, r') := (Exec(INITIAL, before).registry, Exec(INITIAL, after).registry);
      && RunIdsNew(INITIAL, before) && RunIdsNew(INITIAL, after)
      && id in r.snapshots && r.snapshots[id].generation == 3
      && IsRunning(r', id, 2) && id in r'.snapshots && r'.snapshots[id].generation == 2
      && r'.snapshots[id].snapshot.revision == r.snapshots[id].snapshot.revision + 1
  {
    var s1, w1 := Starts(id, host);
    var w2 := Exits(s1, w1, id, host, 1, 1, {}, 1);
    var s2 := s1 + [Exit(1, Some(0), None)];
    var w3 := Takes(s2, w2, id, host, 1, 2, {}, 1);
    var w4 := Takes(s2 + [TakeGeneration], w3, id, host, 1, 2, {} + {2}, 2);
    var s4 := s2 + [TakeGeneration] + [TakeGeneration];
    var w5 := Reconnects(s4, w4, id, host, 1, 2, {} + {2} + {3}, 3, 3);
    var s5 := s4 + [Reconnect(id, host, 3)] + [Commit(3)];
    var w6 := Exits(s5, w5, id, host, 3, 3, {} + {2} + {3} - {3}, 3);
    before := s5 + [Exit(3, Some(0), None)];
    var w7 := Reconnects(before, w6, id, host, 3, 4, {} + {2} + {3} - {3}, 3, 2);
    ReachesRuns(before, w6);
    ReachesRuns(before + [Reconnect(id, host, 2)] + [Commit(2)], w7);
  }
}
