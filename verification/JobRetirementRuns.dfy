/** Two retirements of one host at once: runs in which one of them goes through although the other
    has restored the host. */
module JobRetirementRuns {
  import opened Prelude
  import opened CommandJobs
  import opened JobRetirement
  import HO = HostOperations
  import Paths

  ghost predicate Does(w: World, s: Step, w': World) { IdsNew(w, s) && w' == Next(w, s) }

  ghost predicate Reaches(max: nat, steps: seq<Step>, w: World) { Paths.Leads(Does, Initial(max), steps, w) }

  lemma {:induction false} LeadsRuns(w: World, steps: seq<Step>, w': World)
    requires Paths.Leads(Does, w, steps, w')
    ensures RunIdsNew(w, steps) && Exec(w, steps) == w'
    decreases |steps|
  {
    var w1 := Paths.Unfolded(Does, w, steps, w');
    if steps != [] { LeadsRuns(w1, steps[1..], w'); }
  }

  lemma ReachesMore(max: nat, steps: seq<Step>, w: World, s: Step, w': World)
    requires Reaches(max, steps, w) && Does(w, s, w')
    ensures Reaches(max, steps + [s], w')
  {
    Paths.OneStep(Does, w, s, w');
    Paths.Joined(Does, Initial(max), steps, w, [s], w');
  }

  // ---- The first retirement has looked, the second one gives up and restores the host ------------------

  /** Two retirements of the host, with what the barrier says of it. */
  function Two(max: nat, h: string, first: Stage, second: Stage, hosts: HO.Hosts, more: seq<Act>): World {
    Initial(max).(hosts := hosts, tasks := map[0 := Retirement(h, first), 1 := Retirement(h, second)],
                  acts := [Retires(0, h), Retires(1, h)] + more)
  }

  function RetiredHosts(h: string): HO.Hosts { map[h := HO.HostState(0, true)] }

  lemma BothRetire(max: nat, h: string)
    ensures Reaches(max, [] + [Retire(0, h)] + [Retire(1, h)], Two(max, h, Closing, Closing, RetiredHosts(h), []))
  {
    var w0 := Initial(max);
    Paths.NoStep(Does, w0);
    var w1 := w0.(hosts := RetiredHosts(h), tasks := map[0 := Retirement(h, Closing)], acts := [Retires(0, h)]);
    assert RetireWorld(w0, 0, h) == w1;
    ReachesMore(max, [], w0, Retire(0, h), w1);
    var w2 := Two(max, h, Closing, Closing, RetiredHosts(h), []);
    assert RetireWorld(w1, 1, h) == w2;
    ReachesMore(max, [] + [Retire(0, h)], w1, Retire(1, h), w2);
  }

  lemma SecondGivesUp(max: nat, h: string)
    ensures Does(Two(max, h, Closing, Closing, RetiredHosts(h), []), GiveUp(1),
      Two(max, h, Closing, GaveUp, RetiredHosts(h), []))
  {
  }

  lemma FirstSeesIdle(max: nat, h: string)
    ensures Does(Two(max, h, Closing, GaveUp, RetiredHosts(h), []), LookIdle(0),
      Two(max, h, SawIdle, GaveUp, RetiredHosts(h), []))
  {
  }

  lemma FirstLooks(max: nat, h: string)
    ensures Does(Two(max, h, SawIdle, GaveUp, RetiredHosts(h), []), LookFinished(0),
                 Two(max, h, SawFinished, GaveUp, RetiredHosts(h), [Looks(0, h)]))
  {
    var w := Two(max, h, SawIdle, GaveUp, RetiredHosts(h), []);
    assert LookFinishedWorld(w, 0) == Two(max, h, SawFinished, GaveUp, RetiredHosts(h), [Looks(0, h)]);
  }

  function LookedAndRestored(max: nat, h: string): World {
    Two(max, h, SawFinished, GaveUp, map[], [Looks(0, h), Restores(1, h)])
  }

  lemma SecondRestores(max: nat, h: string)
    ensures Does(Two(max, h, SawFinished, GaveUp, RetiredHosts(h), [Looks(0, h)]), Restore(1, h),
      LookedAndRestored(max, h))
  {
    var w := Two(max, h, SawFinished, GaveUp, RetiredHosts(h), [Looks(0, h)]);
    assert HO.RestoreHost(RetiredHosts(h), h) == map[];
    assert RestoreWorld(w, 1, h) == LookedAndRestored(max, h);
  }

  function Overlap(h: string): seq<Step> {
    [] + [Retire(0, h)] + [Retire(1, h)] + [GiveUp(1)] + [LookIdle(0)] + [LookFinished(0)] + [Restore(1, h)]
  }

  lemma Overlaps(max: nat, h: string)
    ensures Reaches(max, Overlap(h), LookedAndRestored(max, h))
  {
    BothRetire(max, h);
    var s := [] + [Retire(0, h)] + [Retire(1, h)];
    SecondGivesUp(max, h);
    ReachesMore(max, s, Two(max, h, Closing, Closing, RetiredHosts(h), []), GiveUp(1),
      Two(max, h, Closing, GaveUp, RetiredHosts(h), []));
    FirstSeesIdle(max, h);
    ReachesMore(max, s + [GiveUp(1)], Two(max, h, Closing, GaveUp, RetiredHosts(h), []), LookIdle(0),
                Two(max, h, SawIdle, GaveUp, RetiredHosts(h), []));
    LooksAndRestores(max, h, s + [GiveUp(1)] + [LookIdle(0)]);
  }

  lemma LooksAndRestores(max: nat, h: string, s: seq<Step>)
    requires Reaches(max, s, Two(max, h, SawIdle, GaveUp, RetiredHosts(h), []))
    ensures Reaches(max, s + [LookFinished(0)] + [Restore(1, h)], LookedAndRestored(max, h))
  {
    FirstLooks(max, h);
    var w := Two(max, h, SawFinished, GaveUp, RetiredHosts(h), [Looks(0, h)]);
    ReachesMore(max, s, Two(max, h, SawIdle, GaveUp, RetiredHosts(h), []), LookFinished(0), w);
    SecondRestores(max, h);
    ReachesMore(max, s + [LookFinished(0)], w, Restore(1, h), LookedAndRestored(max, h));
  }

  // ---- A job behind it -------------------------------------------------------------------------------------

  function NewJob(id: string, h: string): Job { Job(id, h, Queued, 1, 0, None, false) }

  /** One job registered in a world without jobs. */
  lemma OneRegistered(w: World, id: string, h: string) returns (w': World)
    requires w.entries == map[] && w.executors == map[] && w.log == [] && w.watch == {} && w.sends == {}
    requires !HO.IsRetired(w.hosts, h)
    ensures Paths.Leads(Does, w, [BeginOperation(h)] + [Register(id, h)], w')
    ensures w' == w.(hosts := w'.hosts, entries := map[id := Entry(NewJob(id, h), w.nextSequence)],
                     log := [NewJob(id, h)], executors := map[id := Fresh], nextSequence := w.nextSequence + 1,
                     acts := w.acts + [Registers(id, h)])
  {
    var w1 := Next(w, BeginOperation(h));
    assert w1 == w.(hosts := w1.hosts) && !HO.IsIdle(w1.hosts, h);
    Paths.OneStep(Does, w, BeginOperation(h), w1);
    PruneShrinks(map[]);
    assert PruneJobs(map[]) == map[];
    assert Pending(map[]) == {};
    w' := RegisterWorld(w1, id, h);
    Paths.OneStep(Does, w1, Register(id, h), w');
    Paths.Joined(Does, w, [BeginOperation(h)], w1, [Register(id, h)], w');
  }

  lemma PurgesNothing(max: nat, h: string) returns (w: World)
    ensures Reaches(max, Overlap(h) + [Purge(0)], w)
    ensures w == LookedAndRestored(max, h).(tasks := map[0 := Retirement(h, Purged), 1 := Retirement(h, GaveUp)])
  {
    Overlaps(max, h);
    w := PurgeWorld(LookedAndRestored(max, h), 0);
    assert WithoutHost(map[], h) == map[] && UnfinishedOf(map[], h) == {};
    ReachesMore(max, Overlap(h), LookedAndRestored(max, h), Purge(0), w);
  }

  /** The first retirement goes through, and right after it a job of the host is registered. */
  lemma RegistersBehindPurge(max: nat, h: string, id: string)
    ensures var steps := Overlap(h) + [Purge(0)] + ([BeginOperation(h)] + [Register(id, h)]);
      var w := Exec(Initial(max), steps);
      RunIdsNew(Initial(max), steps) && Stands(w, 0, Purged) && w.entries == map[id := Entry(NewJob(id, h), 0)]
  {
    var w := PurgesNothing(max, h);
    var w' := OneRegistered(w, id, h);
    var a := Overlap(h) + [Purge(0)];
    var b := [BeginOperation(h)] + [Register(id, h)];
    Paths.Joined(Does, Initial(max), a, w, b, w');
    LeadsRuns(Initial(max), a + b, w');
  }

  // ---- A running job purged --------------------------------------------------------------------------------

  /** One job, its executor, and what was recorded of it. */
  ghost predicate OneJob(w: World, id: string, h: string, entries: Entries, e: Executor, log: seq<Job>,
      lost: set<string>) {
    && w.entries == entries && w.executors == map[id := e] && w.log == log && w.lost == lost
    && w.watch == {} && w.sends == {} && Stands(w, 0, if lost == {} then SawFinished else Purged)
         && w.tasks[0].host == h
  }

  function Ran(id: string, h: string): Job { NewJob(id, h).(state := Running, revision := 2) }

  lemma LooksFirst(w: World, id: string, h: string, es: Entries) returns (w': World)
    requires OneJob(w, id, h, es, Fresh, [NewJob(id, h)], {})
    ensures Does(w, LookFirst(id), w') && OneJob(w', id, h, es, Waiting, [NewJob(id, h)], {}) && w'.permits == w.permits
  {
    w' := Next(w, LookFirst(id));
  }

  lemma TakesPermit(w: World, id: string, h: string, es: Entries) returns (w': World)
    requires OneJob(w, id, h, es, Waiting, [NewJob(id, h)], {}) && w.permits > 0
    ensures Does(w, TakePermit(id), w') && OneJob(w', id, h, es, Holding, [NewJob(id, h)], {})
  {
    w' := Next(w, TakePermit(id));
  }

  lemma Starts(w: World, id: string, h: string, sequence: nat) returns (w': World)
    requires OneJob(w, id, h, map[id := Entry(NewJob(id, h), sequence)], Holding, [NewJob(id, h)], {})
    ensures Does(w, Transition(id), w')
    ensures OneJob(w', id, h, map[id := Entry(Ran(id, h), sequence)], Launching, [NewJob(id, h), Ran(id, h)], {})
  {
    assert CommandJobs.Put(w.entries, Ran(id, h)) == map[id := Entry(Ran(id, h), sequence)];
    assert StartRunning(w.entries, id) == (map[id := Entry(Ran(id, h), sequence)], Some(Ran(id, h)));
    w' := Next(w, Transition(id));
  }

  lemma Launches(w: World, id: string, h: string, es: Entries, log: seq<Job>) returns (w': World)
    requires OneJob(w, id, h, es, Launching, log, {})
    ensures Does(w, Launch(id, true), w') && OneJob(w', id, h, es, Looping(false), log, {}) && id in w'.spawned
  {
    w' := LaunchWorld(w, id, true);
  }

  lemma PurgesRunning(w: World, id: string, h: string, sequence: nat, log: seq<Job>) returns (w': World)
    requires OneJob(w, id, h, map[id := Entry(Ran(id, h), sequence)], Looping(false), log, {}) && id in w.spawned
    ensures Does(w, Purge(0), w') && OneJob(w', id, h, map[], Looping(false), log, {id}) && id in w'.spawned
  {
    assert UnfinishedOf(w.entries, h) == {id} && WithoutHost(w.entries, h) == map[];
    w' := PurgeWorld(w, 0);
  }

  /** The steps of an executor whose job is gone: it takes that for a cancellation. */
  lemma Stops(w: World, id: string, h: string, log: seq<Job>) returns (w': World)
    requires OneJob(w, id, h, map[], Looping(false), log, {id}) && id in w.spawned
    ensures Paths.Leads(Does, w, [SeeCancel(id)] + [LeaveLoop(id)] + [Decide(id, ToCancelled)] + [Finish(id)], w')
    ensures OneJob(w', id, h, map[], Done, log, {id}) && id in w'.spawned
  {
    var w1 := SeesGone(w, id, h, log);
    Paths.OneStep(Does, w, SeeCancel(id), w1);
    var w2 := Leaves(w1, id, h, log);
    Paths.OneStep(Does, w1, LeaveLoop(id), w2);
    Paths.Joined(Does, w, [SeeCancel(id)], w1, [LeaveLoop(id)], w2);
    var w3 := DecidesCancelled(w2, id, h, log);
    Paths.OneStep(Does, w2, Decide(id, ToCancelled), w3);
    Paths.Joined(Does, w, [SeeCancel(id)] + [LeaveLoop(id)], w2, [Decide(id, ToCancelled)], w3);
    w' := EndsUnseen(w3, id, h, log);
    Paths.OneStep(Does, w3, Finish(id), w');
    Paths.Joined(Does, w, [SeeCancel(id)] + [LeaveLoop(id)] + [Decide(id, ToCancelled)], w3, [Finish(id)], w');
  }

  lemma SeesGone(w: World, id: string, h: string, log: seq<Job>) returns (w': World)
    requires OneJob(w, id, h, map[], Looping(false), log, {id}) && id in w.spawned
    ensures Does(w, SeeCancel(id), w') && OneJob(w', id, h, map[], Looping(true), log, {id}) && id in w'.spawned
  {
    w' := Next(w, SeeCancel(id));
  }

  lemma Leaves(w: World, id: string, h: string, log: seq<Job>) returns (w': World)
    requires OneJob(w, id, h, map[], Looping(true), log, {id}) && id in w.spawned
    ensures Does(w, LeaveLoop(id), w') && OneJob(w', id, h, map[], Deciding(true), log, {id}) && id in w'.spawned
  {
    w' := Next(w, LeaveLoop(id));
  }

  lemma DecidesCancelled(w: World, id: string, h: string, log: seq<Job>) returns (w': World)
    requires OneJob(w, id, h, map[], Deciding(true), log, {id}) && id in w.spawned
    ensures Does(w, Decide(id, ToCancelled), w') && OneJob(w', id, h, map[], Finishing(ToCancelled), log, {id})
      && id in w'.spawned
  {
    w' := Next(w, Decide(id, ToCancelled));
  }

  lemma EndsUnseen(w: World, id: string, h: string, log: seq<Job>) returns (w': World)
    requires OneJob(w, id, h, map[], Finishing(ToCancelled), log, {id}) && id in w.spawned
    ensures Does(w, Finish(id), w') && OneJob(w', id, h, map[], Done, log, {id}) && id in w'.spawned
  {
    EndsUnrecorded(w, id);
    w' := SetExecutor(w, id, Done);
  }

  function JobRuns(id: string): seq<Step> { [LookFirst(id)] + [TakePermit(id)] + [Transition(id)] + [Launch(id, true)] }

  /** A registered job is launched. */
  lemma RunsJob(w: World, id: string, h: string, sequence: nat) returns (w': World)
    requires OneJob(w, id, h, map[id := Entry(NewJob(id, h), sequence)], Fresh, [NewJob(id, h)], {}) && w.permits > 0
    ensures Paths.Leads(Does, w, JobRuns(id), w') && id in w'.spawned
    ensures OneJob(w', id, h, map[id := Entry(Ran(id, h), sequence)], Looping(false), [NewJob(id, h), Ran(id, h)], {})
  {
    var es := map[id := Entry(NewJob(id, h), sequence)];
    var w1 := LooksFirst(w, id, h, es);
    Paths.OneStep(Does, w, LookFirst(id), w1);
    var w2 := TakesPermit(w1, id, h, es);
    Paths.OneStep(Does, w1, TakePermit(id), w2);
    Paths.Joined(Does, w, [LookFirst(id)], w1, [TakePermit(id)], w2);
    var w3 := Starts(w2, id, h, sequence);
    Paths.OneStep(Does, w2, Transition(id), w3);
    Paths.Joined(Does, w, [LookFirst(id)] + [TakePermit(id)], w2, [Transition(id)], w3);
    w' := Launches(w3, id, h, map[id := Entry(Ran(id, h), sequence)], [NewJob(id, h), Ran(id, h)]);
    Paths.OneStep(Does, w3, Launch(id, true), w');
    Paths.Joined(Does, w, [LookFirst(id)] + [TakePermit(id)] + [Transition(id)], w3, [Launch(id, true)], w');
  }

  lemma RegistersBeforePurge(max: nat, h: string, id: string) returns (steps: seq<Step>, w: World)
    ensures Reaches(max, steps, w) && w.permits == max
    ensures OneJob(w, id, h, map[id := Entry(NewJob(id, h), 0)], Fresh, [NewJob(id, h)], {})
  {
    Overlaps(max, h);
    var b := [BeginOperation(h)] + [Register(id, h)];
    w := OneRegistered(LookedAndRestored(max, h), id, h);
    Paths.Joined(Does, Initial(max), Overlap(h), LookedAndRestored(max, h), b, w);
    steps := Overlap(h) + b;
  }

  /** A job is registered and launched behind the restore of the second retirement, and then purged by
      the first one: its process was launched, it is not kept, its executor is done, and the last
      snapshot ever made of it says that it is running. */
  lemma PurgesRunningJob(max: nat, h: string, id: string) returns (steps: seq<Step>)
    requires max > 0
    ensures RunIdsNew(Initial(max), steps)
    ensures var w := Exec(Initial(max), steps);
      && Stands(w, 0, Purged) && id in w.lost && id in w.spawned && id !in w.entries && At(w, id, Done)
      && w.log == [NewJob(id, h), Ran(id, h)]
  {
    var s1, w1 := RegistersBeforePurge(max, h, id);
    var w2 := RunsJob(w1, id, h, 0);
    Paths.Joined(Does, Initial(max), s1, w1, JobRuns(id), w2);
    var w3 := PurgesRunning(w2, id, h, 0, w2.log);
    ReachesMore(max, s1 + JobRuns(id), w2, Purge(0), w3);
    var w4 := Stops(w3, id, h, w2.log);
    var ends := [SeeCancel(id)] + [LeaveLoop(id)] + [Decide(id, ToCancelled)] + [Finish(id)];
    Paths.Joined(Does, Initial(max), s1 + JobRuns(id) + [Purge(0)], w3, ends, w4);
    steps := s1 + JobRuns(id) + [Purge(0)] + ends;
    LeadsRuns(Initial(max), steps, w4);
  }
}
