/** Retiring a host from the command jobs: every deletion of a host runs its own retirement, and
    what one of them relies on another one may undo. */
module JobRetirement {
  import opened Prelude
  import opened CommandJobs
  import HO = HostOperations
  import Paths

  // ---- What has happened to a host ----------------------------------------------------------------------

  predicate RetiresAt(acts: seq<Act>, i: int, h: string) { 0 <= i < |acts| && acts[i].Retires? && acts[i].host == h }

  predicate RestoresAt(acts: seq<Act>, i: int, h: string) { 0 <= i < |acts| && acts[i].Restores? && acts[i].host == h }

  predicate ActAt(acts: seq<Act>, i: int, a: Act) { 0 <= i < |acts| && acts[i] == a }

  /** The last thing any task did to the barrier was retiring the host. */
  ghost predicate LastRetired(acts: seq<Act>, h: string) {
    exists i :: RetiresAt(acts, i, h) && forall j | i < j :: !RestoresAt(acts, j, h)
  }

  /** Another task has restored the host since `t` retired it. */
  ghost predicate RestoredByOther(acts: seq<Act>, t: nat, h: string) {
    exists r, j :: ActAt(acts, r, Retires(t, h)) && r < j && RestoresAt(acts, j, h) && acts[j].task != t
  }

  /** The same, and nobody has retired it again. */
  ghost predicate OpenAgain(acts: seq<Act>, t: nat, h: string) {
    exists r, j :: ActAt(acts, r, Retires(t, h)) && r < j && RestoresAt(acts, j, h) && acts[j].task != t
      && forall k | j < k :: !RetiresAt(acts, k, h)
  }

  /** The job was registered since `t` looked, behind a restore by another task. */
  ghost predicate CameLate(acts: seq<Act>, t: nat, h: string, id: string) {
    exists r, j, l, i :: ActAt(acts, r, Retires(t, h)) && r < j < i && RestoresAt(acts, j, h) && acts[j].task != t
      && ActAt(acts, l, Looks(t, h)) && l < i && ActAt(acts, i, Registers(id, h))
  }

  /** The job was registered since `t` looked. */
  ghost predicate RegisteredSinceLook(acts: seq<Act>, t: nat, h: string, id: string) {
    exists l, i :: ActAt(acts, l, Looks(t, h)) && l < i && ActAt(acts, i, Registers(id, h))
  }

  // ---- What holds in every run ---------------------------------------------------------------------------

  ghost predicate Barrier(hosts: HO.Hosts, acts: seq<Act>) {
    forall h :: HO.IsRetired(hosts, h) <==> LastRetired(acts, h)
  }

  predicate Waiting(stage: Stage) { stage.Closing? || stage.SawIdle? || stage.SawFinished? }

  /** Every retirement has retired its host, once, and restores it only after it has returned. */
  ghost predicate Known(tasks: map<nat, Retirement>, acts: seq<Act>) {
    && (forall t | t in tasks :: Retires(t, tasks[t].host) in acts)
    && (forall i | 0 <= i < |acts| && (acts[i].Retires? || acts[i].Restores?) ::
          acts[i].task in tasks && tasks[acts[i].task].host == acts[i].host)
    && (forall i | 0 <= i < |acts| && acts[i].Restores? :: !Waiting(tasks[acts[i].task].stage))
  }

  predicate HasSeen(stage: Stage) { stage.SawIdle? || stage.SawFinished? }

  /** What a retirement has seen stays so, unless another one restores the host. */
  ghost predicate Seen(w: World) {
    forall t | t in w.tasks && HasSeen(w.tasks[t].stage) ::
      HO.IsIdle(w.hosts, w.tasks[t].host) || RestoredByOther(w.acts, t, w.tasks[t].host)
  }

  ghost predicate Late(w: World) {
    forall t | t in w.tasks && w.tasks[t].stage.SawFinished? ::
      && Looks(t, w.tasks[t].host) in w.acts
      && forall id | id in UnfinishedOf(w.entries, w.tasks[t].host) :: CameLate(w.acts, t, w.tasks[t].host, id)
  }

  ghost predicate History(w: World) { Barrier(w.hosts, w.acts) && Known(w.tasks, w.acts) && Seen(w) && Late(w) }

  // ---- One act more --------------------------------------------------------------------------------------

  lemma LastRetiredMore(acts: seq<Act>, a: Act, h: string)
    ensures LastRetired(acts + [a], h) <==>
      if a.Retires? && a.host == h then true else if a.Restores? && a.host == h then false else LastRetired(acts, h)
  {
    var more := acts + [a];
    var n := |acts|;
    assert more[n] == a;
    assert forall i | 0 <= i < n :: more[i] == acts[i];
    if a.Retires? && a.host == h { assert RetiresAt(more, n, h); }
    if a.Restores? && a.host == h { assert RestoresAt(more, n, h); }
    if LastRetired(acts, h) && !RestoresAt(more, n, h) {
      var i :| RetiresAt(acts, i, h) && forall j | i < j :: !RestoresAt(acts, j, h);
      assert RetiresAt(more, i, h) && forall j | i < j < n :: RestoresAt(more, j, h) == RestoresAt(acts, j, h);
    }
    if LastRetired(more, h) && !RetiresAt(more, n, h) {
      var i :| RetiresAt(more, i, h) && forall j | i < j :: !RestoresAt(more, j, h);
      assert RetiresAt(acts, i, h) && forall j | i < j < n :: RestoresAt(more, j, h) == RestoresAt(acts, j, h);
    }
  }

  lemma ActMore(acts: seq<Act>, a: Act, i: int, x: Act)
    ensures ActAt(acts, i, x) ==> ActAt(acts + [a], i, x)
    ensures x in acts ==> x in acts + [a]
  {
  }

  lemma RestoredMore(acts: seq<Act>, a: Act, t: nat, h: string)
    ensures RestoredByOther(acts, t, h) ==> RestoredByOther(acts + [a], t, h)
    ensures Retires(t, h) in acts && a.Restores? && a.host == h && a.task != t ==> RestoredByOther(acts + [a], t, h)
  {
    var more := acts + [a];
    assert more[|acts|] == a;
    if RestoredByOther(acts, t, h) {
      var r, j :| ActAt(acts, r, Retires(t, h)) && r < j && RestoresAt(acts, j, h) && acts[j].task != t;
      assert ActAt(more, r, Retires(t, h)) && RestoresAt(more, j, h) && more[j] == acts[j];
    }
    if Retires(t, h) in acts && a.Restores? && a.host == h && a.task != t {
      var r :| 0 <= r < |acts| && acts[r] == Retires(t, h);
      assert ActAt(more, r, Retires(t, h)) && RestoresAt(more, |acts|, h);
    }
  }

  lemma CameLateMore(acts: seq<Act>, a: Act, t: nat, h: string, id: string)
    ensures CameLate(acts, t, h, id) ==> CameLate(acts + [a], t, h, id)
    ensures a == Registers(id, h) && RestoredByOther(acts, t, h) && Looks(t, h) in acts ==>
      CameLate(acts + [a], t, h, id)
  {
    var more := acts + [a];
    assert more[|acts|] == a;
    if CameLate(acts, t, h, id) {
      var r, j, l, i :| ActAt(acts, r, Retires(t, h)) && r < j < i && RestoresAt(acts, j, h) && acts[j].task != t
        && ActAt(acts, l, Looks(t, h)) && l < i && ActAt(acts, i, Registers(id, h));
      assert ActAt(more, r, Retires(t, h)) && RestoresAt(more, j, h) && more[j] == acts[j]
          && ActAt(more, l, Looks(t, h)) && ActAt(more, i, Registers(id, h));
    }
    if a == Registers(id, h) && RestoredByOther(acts, t, h) && Looks(t, h) in acts {
      var r, j :| ActAt(acts, r, Retires(t, h)) && r < j && RestoresAt(acts, j, h) && acts[j].task != t;
      var l :| 0 <= l < |acts| && acts[l] == Looks(t, h);
      assert ActAt(more, r, Retires(t, h)) && RestoresAt(more, j, h) && more[j] == acts[j]
          && ActAt(more, l, Looks(t, h)) && ActAt(more, |acts|, Registers(id, h));
    }
  }

  // ---- Every step keeps it -------------------------------------------------------------------------------

  /** No unfinished job was added. */
  lemma NoneAdded(w: World, step: Step, h: string)
    requires !step.Register? && IdsNew(w, step)
    ensures UnfinishedOf(Next(w, step).entries, h) <= UnfinishedOf(w.entries, h)
  {
    var w' := Next(w, step);
    if step.Handoff? {
      StepAdds(w, step);
      if job :| Adding(w, w', job) && job.id == step.id && IsTerminal(job.state) { AddedUnfinished(w, w', job, h); }
    } else if !step.Purge? {
      StepKeeping(w, step);
      if job :| Records(w, w', job) { RecordedUnfinished(w, w', job, h); }
    }
  }

  lemma AddedUnfinished(w: World, w': World, job: Job, h: string)
    requires Adding(w, w', job)
    ensures UnfinishedOf(w'.entries, h) <= UnfinishedOf(w.entries, h)
      + (if job.hostId == h && !IsTerminal(job.state) then {job.id} else {})
  {
    forall id | id in UnfinishedOf(w'.entries, h) && id != job.id ensures id in UnfinishedOf(w.entries, h) {
      assert id in w'.entries - {job.id} && (w'.entries - {job.id})[id] == w'.entries[id];
    }
  }

  lemma RecordedUnfinished(w: World, w': World, job: Job, h: string)
    requires Records(w, w', job)
    ensures UnfinishedOf(w'.entries, h) <= UnfinishedOf(w.entries, h)
  {
  }

  lemma RestoredGrows(acts: seq<Act>, a: Act)
    ensures forall t, h | RestoredByOther(acts, t, h) :: RestoredByOther(acts + [a], t, h)
  {
    forall t, h | RestoredByOther(acts, t, h) ensures RestoredByOther(acts + [a], t, h) { RestoredMore(acts, a, t, h); }
  }

  lemma CameLateGrows(acts: seq<Act>, a: Act)
    ensures forall t, h, id | CameLate(acts, t, h, id) :: CameLate(acts + [a], t, h, id)
  {
    forall t, h, id | CameLate(acts, t, h, id) ensures CameLate(acts + [a], t, h, id) {
      CameLateMore(acts, a, t, h, id);
    }
  }

  /** What an act does to the barrier. */
  ghost predicate BarrierAfter(hosts: HO.Hosts, hosts': HO.Hosts, a: Act) {
    forall h :: HO.IsRetired(hosts', h) <==>
      if a.Retires? && a.host == h then true else if a.Restores? && a.host == h then false else HO.IsRetired(hosts, h)
  }

  lemma BarrierMore(hosts: HO.Hosts, hosts': HO.Hosts, acts: seq<Act>, a: Act)
    requires Barrier(hosts, acts) && BarrierAfter(hosts, hosts', a)
    ensures Barrier(hosts', acts + [a])
  {
    forall h ensures HO.IsRetired(hosts', h) <==> LastRetired(acts + [a], h) { LastRetiredMore(acts, a, h); }
  }

  /** A host that is open although a retirement of it has not returned was restored by another one. */
  lemma OpenMeansRestored(hosts: HO.Hosts, tasks: map<nat, Retirement>, acts: seq<Act>, t: nat)
    requires Barrier(hosts, acts) && Known(tasks, acts) && t in tasks && Waiting(tasks[t].stage)
    requires !HO.IsRetired(hosts, tasks[t].host)
    ensures OpenAgain(acts, t, tasks[t].host) && RestoredByOther(acts, t, tasks[t].host)
  {
    var h := tasks[t].host;
    var r :| 0 <= r < |acts| && acts[r] == Retires(t, h);
    assert RetiresAt(acts, r, h) && !LastRetired(acts, h);
    var j := LastRestore(acts, r, h);
    assert ActAt(acts, r, Retires(t, h)) && acts[j].task != t;
  }

  lemma {:induction false} LastRestore(acts: seq<Act>, r: int, h: string) returns (j: int)
    requires RetiresAt(acts, r, h) && !LastRetired(acts, h)
    ensures r < j && RestoresAt(acts, j, h) && forall k | j < k :: !RetiresAt(acts, k, h)
    decreases |acts| - r
  {
    j :| r < j && RestoresAt(acts, j, h);
    if k :| j < k && RetiresAt(acts, k, h) { j := LastRestore(acts, k, h); }
  }

  /** An act that is none of the barrier's. */
  lemma NotedKnown(tasks: map<nat, Retirement>, acts: seq<Act>, a: Act)
    requires Known(tasks, acts) && (a.Looks? || a.Registers?)
    ensures Known(tasks, acts + [a])
  {
  }

  lemma SeenNoted(w: World, a: Act)
    requires Seen(w)
    ensures Seen(w.(acts := w.acts + [a]))
  {
    RestoredGrows(w.acts, a);
  }

  lemma LateNoted(w: World, a: Act)
    requires Late(w)
    ensures Late(w.(acts := w.acts + [a]))
  {
    CameLateGrows(w.acts, a);
  }

  /** The jobs change, and no unfinished one is added. */
  lemma JobsKeep(w: World, w': World)
    requires History(w) && w'.hosts == w.hosts && w'.tasks == w.tasks && w'.acts == w.acts
    requires forall h :: UnfinishedOf(w'.entries, h) <= UnfinishedOf(w.entries, h)
    ensures History(w')
  {
  }

  lemma OperationKeeps(w: World, hosts: HO.Hosts)
    requires History(w) && forall h :: HO.IsRetired(hosts, h) == HO.IsRetired(w.hosts, h)
    requires forall h :: HO.IsIdle(w.hosts, h) && HO.IsRetired(w.hosts, h) ==> HO.IsIdle(hosts, h)
    ensures History(w.(hosts := hosts))
  {
    forall t | t in w.tasks && HasSeen(w.tasks[t].stage)
      ensures HO.IsIdle(hosts, w.tasks[t].host) || RestoredByOther(w.acts, t, w.tasks[t].host)
    {
      if !HO.IsRetired(w.hosts, w.tasks[t].host) { OpenMeansRestored(w.hosts, w.tasks, w.acts, t); }
    }
  }

  lemma RetireKnown(tasks: map<nat, Retirement>, acts: seq<Act>, t: nat, h: string)
    requires Known(tasks, acts) && t !in tasks
    ensures Known(tasks[t := Retirement(h, Closing)], acts + [Retires(t, h)])
  {
    var more := acts + [Retires(t, h)];
    assert more[|acts|] == Retires(t, h);
    forall u | u in tasks ensures Retires(u, tasks[u].host) in more {
      ActMore(acts, Retires(t, h), 0, Retires(u, tasks[u].host));
    }
  }

  lemma RetireKeeps(w: World, t: nat, h: string)
    requires History(w)
    ensures History(RetireWorld(w, t, h))
  {
    if t !in w.tasks {
      var w' := RetireWorld(w, t, h);
      RetireKnown(w.tasks, w.acts, t, h);
      BarrierMore(w.hosts, w'.hosts, w.acts, Retires(t, h));
      RestoredGrows(w.acts, Retires(t, h));
      CameLateGrows(w.acts, Retires(t, h));
    }
  }

  lemma StageKnown(tasks: map<nat, Retirement>, acts: seq<Act>, t: nat, stage: Stage)
    requires Known(tasks, acts) && t in tasks && Waiting(tasks[t].stage)
    ensures Known(tasks[t := tasks[t].(stage := stage)], acts)
  {
    forall i | 0 <= i < |acts| && acts[i].Restores? ensures acts[i].task != t { }
  }

  /** A retirement sees its host idle, gives up, or has purged it. */
  lemma StageKeeps(w: World, t: nat, stage: Stage)
    requires History(w) && t in w.tasks && Waiting(w.tasks[t].stage) && !stage.SawFinished?
    requires stage.SawIdle? ==> HO.IsIdle(w.hosts, w.tasks[t].host)
    ensures History(SetStage(w, t, stage))
  {
    StageKnown(w.tasks, w.acts, t, stage);
  }

  lemma LookFinishedKeeps(w: World, t: nat)
    requires History(w)
    ensures History(LookFinishedWorld(w, t))
  {
    if Stands(w, t, SawIdle) && HostFinished(w.entries, w.tasks[t].host) {
      var h := w.tasks[t].host;
      var a := Looks(t, h);
      StageKnown(w.tasks, w.acts, t, SawFinished);
      var v := SetStage(w, t, SawFinished);
      NotedKnown(v.tasks, w.acts, a);
      BarrierMore(w.hosts, w.hosts, w.acts, a);
      SeenNoted(v, a);
      CameLateGrows(w.acts, a);
      assert UnfinishedOf(w.entries, h) == {};
    }
  }

  lemma PurgeKeepsHistory(w: World, t: nat)
    requires History(w)
    ensures History(PurgeWorld(w, t))
  {
    if Stands(w, t, SawFinished) {
      StageKeeps(w, t, Purged);
      forall h ensures UnfinishedOf(WithoutHost(w.entries, w.tasks[t].host), h) <= UnfinishedOf(w.entries, h) { }
      JobsKeep(SetStage(w, t, Purged), PurgeWorld(w, t));
    }
  }

  lemma RestoreKeeps(w: World, t: nat, h: string)
    requires History(w)
    ensures History(RestoreWorld(w, t, h))
  {
    var w' := RestoreWorld(w, t, h);
    if w' != w {
      var a := Restores(t, h);
      BarrierMore(w.hosts, w'.hosts, w.acts, a);
      SeenNoted(w, a);
      LateNoted(w, a);
    }
  }

  lemma RegisterEffect(w: World, id: string, h: string)
    ensures var w' := RegisterWorld(w, id, h);
      w'.hosts == w.hosts && w'.tasks == w.tasks && (w'.acts == w.acts || w'.acts == w.acts + [Registers(id, h)])
    ensures RegisterWorld(w, id, h).log == w.log <==> RegisterWorld(w, id, h).acts == w.acts
  {
    var out := RegisterJob(w.entries, id, h, w.nextSequence);
    assert |w.acts + [Registers(id, h)]| == |w.acts| + 1;
    if out.1.Some? { assert |w.log + [out.1.value]| == |w.log| + 1; }
  }

  lemma RegisterKeeps(w: World, id: string, h: string)
    requires History(w) && IdsNew(w, Register(id, h))
    ensures History(RegisterWorld(w, id, h))
  {
    var w' := RegisterWorld(w, id, h);
    RegisterEffect(w, id, h);
    RegisterAdds(w, id, h);
    if Quiet(w, w') {
      JobsKeep(w, w');
    } else {
      var job :| Adding(w, w', job) && job.id == id && job.hostId == h;
      RegisteredKeeps(w, w', job);
    }
  }

  lemma RegisteredKeeps(w: World, w': World, job: Job)
    requires History(w) && Adding(w, w', job) && !HO.IsIdle(w.hosts, job.hostId)
    requires w'.hosts == w.hosts && w'.tasks == w.tasks && w'.acts == w.acts + [Registers(job.id, job.hostId)]
    ensures History(w')
  {
    var a := Registers(job.id, job.hostId);
    NotedKnown(w.tasks, w.acts, a);
    BarrierMore(w.hosts, w.hosts, w.acts, a);
    RestoredGrows(w.acts, a);
    RegisterLate(w, w', job, a);
  }

  lemma RegisterLate(w: World, w': World, job: Job, a: Act)
    requires History(w) && Adding(w, w', job) && a == Registers(job.id, job.hostId) && !HO.IsIdle(w.hosts, job.hostId)
    requires w'.tasks == w.tasks && w'.acts == w.acts + [a]
    ensures Late(w')
  {
    CameLateGrows(w.acts, a);
    forall t | t in w.tasks && w.tasks[t].stage.SawFinished?
      ensures Looks(t, w.tasks[t].host) in w'.acts
      ensures forall id | id in UnfinishedOf(w'.entries, w.tasks[t].host) :: CameLate(w'.acts, t, w.tasks[t].host, id)
    {
      var h := w.tasks[t].host;
      AddedUnfinished(w, w', job, h);
      CameLateMore(w.acts, a, t, h, job.id);
    }
  }

  lemma JobStepKeeps(w: World, step: Step)
    requires History(w) && IdsNew(w, step) && !OnHosts(step) && !step.Register? && !step.Purge?
    ensures History(Next(w, step))
  {
    forall h ensures UnfinishedOf(Next(w, step).entries, h) <= UnfinishedOf(w.entries, h) { NoneAdded(w, step, h); }
    JobStepHosts(w, step);
    JobsKeep(w, Next(w, step));
  }

  ghost predicate SameHistory(w: World, w': World) { w'.hosts == w.hosts && w'.tasks == w.tasks && w'.acts == w.acts }

  lemma WaitingHosts(w: World, step: Step)
    requires Waits(step)
    ensures SameHistory(w, Next(w, step))
  {
  }

  lemma WorkingHosts(w: World, step: Step)
    requires Works(step)
    ensures SameHistory(w, Next(w, step))
  {
  }

  lemma JobStepHosts(w: World, step: Step)
    requires !OnHosts(step) && !step.Register? && !step.Purge?
    ensures SameHistory(w, Next(w, step))
  {
    if Waits(step) { WaitingHosts(w, step); } else if Works(step) { WorkingHosts(w, step); }
  }

  lemma LeaseKeeps(w: World, step: Step)
    requires History(w) && (step.BeginOperation? || step.EndOperation?)
    ensures History(Next(w, step))
  {
    OperationKeeps(w, Next(w, step).hosts);
  }

  lemma WaitKeeps(w: World, step: Step)
    requires History(w) && (step.LookIdle? || step.GiveUp?)
    ensures History(Next(w, step))
  {
    var t := step.task;
    if step.LookIdle? {
      if Stands(w, t, Closing) && HO.IsIdle(w.hosts, w.tasks[t].host) { StageKeeps(w, t, SawIdle); }
    } else if Stands(w, t, Closing) || Stands(w, t, SawIdle) {
      StageKeeps(w, t, GaveUp);
    }
  }

  lemma HostStepKeeps(w: World, step: Step)
    requires History(w) && OnHosts(step)
    ensures History(Next(w, step))
  {
    match step
    case BeginOperation(_) => LeaseKeeps(w, step);
    case EndOperation(_) => LeaseKeeps(w, step);
    case Retire(t, h) => RetireKeeps(w, t, h);
    case LookIdle(_) => WaitKeeps(w, step);
    case LookFinished(t) => LookFinishedKeeps(w, t);
    case GiveUp(_) => WaitKeeps(w, step);
    case Restore(t, h) => RestoreKeeps(w, t, h);
  }

  lemma NextKeepsHistory(w: World, step: Step)
    requires History(w) && IdsNew(w, step)
    ensures History(Next(w, step))
  {
    if OnHosts(step) { HostStepKeeps(w, step); }
    else if step.Register? { RegisterKeeps(w, step.id, step.host); }
    else if step.Purge? { PurgeKeepsHistory(w, step.task); }
    else { JobStepKeeps(w, step); }
  }

  lemma {:induction false} ExecKeepsHistory(w: World, steps: seq<Step>)
    requires History(w) && RunIdsNew(w, steps)
    ensures History(Exec(w, steps))
    decreases |steps|
  {
    if steps != [] {
      NextKeepsHistory(w, steps[0]);
      ExecKeepsHistory(Next(w, steps[0]), steps[1..]);
    }
  }

  lemma RunHistory(max: nat, steps: seq<Step>)
    requires RunIdsNew(Initial(max), steps)
    ensures History(Exec(Initial(max), steps))
  {
    ExecKeepsHistory(Initial(max), steps);
  }

  // ---- A host without work -------------------------------------------------------------------------------

  predicate NoJobs(es: Entries, h: string) { forall x | x in es :: es[x].job.hostId != h }

  /** The host is retired, nothing is under way for it, and no job of it is kept. */
  predicate NoWork(w: World, h: string) { HO.IsRetired(w.hosts, h) && HO.IsIdle(w.hosts, h) && NoJobs(w.entries, h) }

  predicate RestoresHost(step: Step, h: string) { step.Restore? && step.host == h }

  lemma IdleStays(w: World, h: string, step: Step)
    requires HO.IsRetired(w.hosts, h) && HO.IsIdle(w.hosts, h) && !RestoresHost(step, h)
    ensures var hosts := Next(w, step).hosts; HO.IsRetired(hosts, h) && HO.IsIdle(hosts, h)
  {
    if OnHosts(step) { OnlyBarrier(w, step); }
    else if step.Register? { RegisterEffect(w, step.id, step.host); }
    else if !step.Purge? { JobStepHosts(w, step); }
  }

  lemma AddedForOther(w: World, w': World, job: Job, h: string)
    requires Adding(w, w', job) && job.hostId != h && NoJobs(w.entries, h)
    ensures NoJobs(w'.entries, h)
  {
    forall x | x in w'.entries && x != job.id ensures w'.entries[x].job.hostId != h {
      assert x in w'.entries - {job.id} && (w'.entries - {job.id})[x] == w'.entries[x];
    }
  }

  lemma NoJobsStep(w: World, h: string, step: Step)
    requires NoJobs(w.entries, h) && HO.IsIdle(w.hosts, h) && IdsNew(w, step)
    ensures NoJobs(Next(w, step).entries, h)
  {
    var w' := Next(w, step);
    if Adds(step) {
      StepAdds(w, step);
      if job :| Adding(w, w', job) && job.hostId == step.host && !Quiet(w, w') { AddedForOther(w, w', job, h); }
    } else if !step.Purge? {
      StepKeeping(w, step);
      if job :| Records(w, w', job) { KeptForOther(w, w', job, h); }
    }
  }

  lemma KeptForOther(w: World, w': World, job: Job, h: string)
    requires Records(w, w', job) && NoJobs(w.entries, h)
    ensures NoJobs(w'.entries, h)
  {
  }

  /** From then on, whatever else happens, there is no job of the host until it is restored. */
  lemma {:induction false} NoJobsUntilRestored(w: World, h: string, steps: seq<Step>)
    requires NoWork(w, h) && RunIdsNew(w, steps) && forall s | s in steps :: !RestoresHost(s, h)
    ensures NoWork(Exec(w, steps), h)
    decreases |steps|
  {
    if steps != [] {
      assert steps[0] in steps && forall s | s in steps[1..] :: s in steps;
      IdleStays(w, h, steps[0]);
      NoJobsStep(w, h, steps[0]);
      NoJobsUntilRestored(Next(w, steps[0]), h, steps[1..]);
    }
  }

  // ---- What a retirement that goes through has achieved ------------------------------------------------------

  /** A job of the host can come about without any further restore. */
  ghost predicate CanAdd(w: World, h: string) {
    exists more ::
      RunIdsNew(w, more) && (forall s | s in more :: !RestoresHost(s, h)) && !NoJobs(Exec(w, more).entries, h)
  }

  lemma OneHandoff(w: World, id: string, h: string)
    requires !HO.IsIdle(w.hosts, h) && IdsNew(w, Handoff(id, h, 0))
    ensures !NoJobs(Next(w, Handoff(id, h, 0)).entries, h)
  {
    assert id in Next(w, Handoff(id, h, 0)).entries;
  }

  lemma AddableNow(w: World, id: string, h: string)
    requires !HO.IsIdle(w.hosts, h) && IdsNew(w, Handoff(id, h, 0))
    ensures CanAdd(w, h)
  {
    var more := [Handoff(id, h, 0)];
    OneHandoff(w, id, h);
    assert more[1..] == [] && Exec(Next(w, more[0]), []) == Next(w, more[0]);
    assert RunIdsNew(Next(w, more[0]), more[1..]);
    assert RunIdsNew(w, more) && Exec(w, more) == Next(w, more[0]);
  }

  lemma OneMore(w: World, step: Step, h: string)
    requires IdsNew(w, step) && !RestoresHost(step, h) && CanAdd(Next(w, step), h)
    ensures CanAdd(w, h)
  {
    var more :| RunIdsNew(Next(w, step), more) && (forall s | s in more :: !RestoresHost(s, h))
      && !NoJobs(Exec(Next(w, step), more).entries, h);
    var all := [step] + more;
    assert all[0] == step && all[1..] == more;
    assert RunIdsNew(w, all) && Exec(w, all) == Exec(Next(w, step), more);
  }

  /** A host can get a job exactly if it is not retired, or something is under way for it. */
  lemma CanAddExactly(w: World, id: string, h: string)
    requires NoJobs(w.entries, h) && IdsNew(w, Handoff(id, h, 0))
    ensures CanAdd(w, h) <==> !HO.IsRetired(w.hosts, h) || !HO.IsIdle(w.hosts, h)
  {
    if !HO.IsIdle(w.hosts, h) {
      AddableNow(w, id, h);
    } else if !HO.IsRetired(w.hosts, h) {
      var w' := Next(w, BeginOperation(h));
      assert w' == w.(hosts := w'.hosts) && !HO.IsIdle(w'.hosts, h);
      AddableNow(w', id, h);
      OneMore(w, BeginOperation(h), h);
    } else if more :|
      RunIdsNew(w, more) && (forall s | s in more :: !RestoresHost(s, h)) && !NoJobs(Exec(w, more).entries, h) {
      NoJobsUntilRestored(w, h, more);
    }
  }

  lemma OpenExactly(w: World, t: nat)
    requires History(w) && t in w.tasks && Waiting(w.tasks[t].stage)
    ensures !HO.IsRetired(w.hosts, w.tasks[t].host) <==> OpenAgain(w.acts, t, w.tasks[t].host)
  {
    var h := w.tasks[t].host;
    if !HO.IsRetired(w.hosts, h) { OpenMeansRestored(w.hosts, w.tasks, w.acts, t); }
    if OpenAgain(w.acts, t, h) {
      var r, j :| ActAt(w.acts, r, Retires(t, h)) && r < j && RestoresAt(w.acts, j, h) && w.acts[j].task != t
        && forall k | j < k :: !RetiresAt(w.acts, k, h);
      forall i | RetiresAt(w.acts, i, h) ensures i < j { }
    }
  }

  /** In every run, right after a retirement has purged its host: there is no job of the host. One can
      come about again without a further restore exactly if another task has restored the host since
      it was retired and nobody has retired it again, or something is under way for it, which takes
      such a restore, too. */
  lemma AfterPurge(max: nat, steps: seq<Step>, t: nat, id: string)
    requires RunIdsNew(Initial(max), steps) && Stands(Exec(Initial(max), steps), t, SawFinished)
    requires IdsNew(Next(Exec(Initial(max), steps), Purge(t)), Handoff(id, Exec(Initial(max), steps).tasks[t].host, 0))
    ensures var w := Exec(Initial(max), steps); var h := w.tasks[t].host; var w' := Next(w, Purge(t));
      && NoJobs(w'.entries, h)
      && (CanAdd(w', h) <==> OpenAgain(w.acts, t, h) || !HO.IsIdle(w.hosts, h))
      && (CanAdd(w', h) ==> RestoredByOther(w.acts, t, h))
  {
    var w := Exec(Initial(max), steps);
    RunHistory(max, steps);
    OpenExactly(w, t);
    CanAddExactly(Next(w, Purge(t)), id, w.tasks[t].host);
  }

  lemma SinceLook(acts: seq<Act>, t: nat, h: string, id: string)
    requires CameLate(acts, t, h, id)
    ensures RegisteredSinceLook(acts, t, h, id) && RestoredByOther(acts, t, h)
  {
  }

  /** In every run, the jobs that a retirement purges unfinished are exactly the unfinished ones that
      were registered since it looked; each of them came behind a restore by another task. */
  lemma PurgesUnfinished(max: nat, steps: seq<Step>, t: nat, id: string)
    requires RunIdsNew(Initial(max), steps) && Stands(Exec(Initial(max), steps), t, SawFinished)
    ensures var w := Exec(Initial(max), steps); var h := w.tasks[t].host;
      && (id in Next(w, Purge(t)).lost <==>
            id in w.lost || (id in w.entries && w.entries[id].job.hostId == h && !IsTerminal(w.entries[id].job.state)
                             && RegisteredSinceLook(w.acts, t, h, id)))
      && (id in UnfinishedOf(w.entries, h) ==> CameLate(w.acts, t, h, id))
  {
    var w := Exec(Initial(max), steps);
    RunHistory(max, steps);
    if id in UnfinishedOf(w.entries, w.tasks[t].host) { SinceLook(w.acts, t, w.tasks[t].host, id); }
  }

  /** As long as no other task has restored the host, a retirement that goes through loses no job and
      leaves a host without work, for which nothing can be registered or begun. */
  lemma RetiredHostHasNoJobs(max: nat, steps: seq<Step>, t: nat, id: string, output: nat)
    requires RunIdsNew(Initial(max), steps) && Stands(Exec(Initial(max), steps), t, SawFinished)
    requires !RestoredByOther(Exec(Initial(max), steps).acts, t, Exec(Initial(max), steps).tasks[t].host)
    ensures var w := Exec(Initial(max), steps); var h := w.tasks[t].host; var w' := Next(w, Purge(t));
      && NoWork(w', h) && w'.lost == w.lost
      && Next(w', Register(id, h)) == w' && Next(w', Handoff(id, h, output)) == w' && Next(w', BeginOperation(h)) == w'
  {
    var w := Exec(Initial(max), steps);
    var h := w.tasks[t].host;
    RunHistory(max, steps);
    if !HO.IsRetired(w.hosts, h) { OpenMeansRestored(w.hosts, w.tasks, w.acts, t); }
    forall x | x in UnfinishedOf(w.entries, h) ensures false { SinceLook(w.acts, t, h, x); }
    assert UnfinishedOf(w.entries, h) == {};
    assert w.lost + {} == w.lost;
    NoWorkRefuses(Next(w, Purge(t)), h, id, output);
  }

  lemma NoWorkRefuses(w: World, h: string, id: string, output: nat)
    requires NoWork(w, h)
    ensures Next(w, Register(id, h)) == w && Next(w, Handoff(id, h, output)) == w && Next(w, BeginOperation(h)) == w
  {
  }

  // ---- And it stays so ----------------------------------------------------------------------------------------

  /** The host was restored, by whomever, since `t` retired it. */
  ghost predicate RestoredSince(acts: seq<Act>, t: nat, h: string) {
    exists r, j :: ActAt(acts, r, Retires(t, h)) && r < j && RestoresAt(acts, j, h)
  }

  lemma RestoredSinceMore(acts: seq<Act>, a: Act, t: nat, h: string)
    ensures RestoredSince(acts, t, h) ==> RestoredSince(acts + [a], t, h)
    ensures Retires(t, h) in acts && a.Restores? && a.host == h ==> RestoredSince(acts + [a], t, h)
    ensures RestoredSince(acts + [a], t, h) ==> RestoredSince(acts, t, h) || (a.Restores? && a.host == h)
  {
    var more := acts + [a];
    assert more[|acts|] == a;
    if RestoredSince(acts, t, h) {
      var r, j :| ActAt(acts, r, Retires(t, h)) && r < j && RestoresAt(acts, j, h);
      assert ActAt(more, r, Retires(t, h)) && RestoresAt(more, j, h);
    }
    if Retires(t, h) in acts && a.Restores? && a.host == h {
      var r :| 0 <= r < |acts| && acts[r] == Retires(t, h);
      assert ActAt(more, r, Retires(t, h)) && RestoresAt(more, |acts|, h);
    }
    if RestoredSince(more, t, h) && !(a.Restores? && a.host == h) {
      var r, j :| ActAt(more, r, Retires(t, h)) && r < j && RestoresAt(more, j, h);
      assert ActAt(acts, r, Retires(t, h)) && RestoresAt(acts, j, h);
    }
  }

  /** A retirement that went through has left no work, unless its host was restored since. */
  ghost predicate Emptied(w: World) {
    forall t | t in w.tasks && w.tasks[t].stage.Purged? && !RestoredSince(w.acts, t, w.tasks[t].host) ::
      NoWork(w, w.tasks[t].host)
  }

  lemma PurgeEmpties(w: World, t: nat)
    requires History(w) && Stands(w, t, SawFinished) && !RestoredSince(w.acts, t, w.tasks[t].host)
    ensures NoWork(PurgeWorld(w, t), w.tasks[t].host)
  {
    var h := w.tasks[t].host;
    if RestoredByOther(w.acts, t, h) { OtherIsSince(w.acts, t, h); }
    if !HO.IsRetired(w.hosts, h) { OpenMeansRestored(w.hosts, w.tasks, w.acts, t); }
  }

  lemma OtherIsSince(acts: seq<Act>, t: nat, h: string)
    requires RestoredByOther(acts, t, h)
    ensures RestoredSince(acts, t, h)
  {
  }

  lemma ActsGrow(w: World, step: Step)
    ensures var w' := Next(w, step);
      || w'.acts == w.acts
      || exists a :: w'.acts == w.acts + [a] && (a.Restores? ==> step == Restore(a.task, a.host))
  {
    if step.Register? { RegisterEffect(w, step.id, step.host); }
    else if !OnHosts(step) && !step.Purge? { JobStepHosts(w, step); }
  }

  lemma NoNewPurged(w: World, step: Step, t: nat)
    requires !step.Purge? || step.task != t
    requires t in Next(w, step).tasks && Next(w, step).tasks[t].stage.Purged?
    ensures t in w.tasks && w.tasks[t] == Next(w, step).tasks[t]
  {
    if step.Register? { RegisterEffect(w, step.id, step.host); }
    else if !OnHosts(step) && !step.Purge? { JobStepHosts(w, step); }
  }

  lemma StepEmptied(w: World, step: Step)
    requires History(w) && Emptied(w) && IdsNew(w, step)
    ensures Emptied(Next(w, step))
  {
    var w' := Next(w, step);
    ActsGrow(w, step);
    forall t | t in w'.tasks && w'.tasks[t].stage.Purged? && !RestoredSince(w'.acts, t, w'.tasks[t].host)
      ensures NoWork(w', w'.tasks[t].host)
    {
      StaysEmptied(w, step, t);
    }
  }

  lemma StaysEmptied(w: World, step: Step, t: nat)
    requires History(w) && Emptied(w) && IdsNew(w, step)
    requires var w' := Next(w, step);
      t in w'.tasks && w'.tasks[t].stage.Purged? && !RestoredSince(w'.acts, t, w'.tasks[t].host)
    ensures NoWork(Next(w, step), Next(w, step).tasks[t].host)
  {
    var w' := Next(w, step);
    var h := w'.tasks[t].host;
    ActsGrow(w, step);
    if step.Purge? && step.task == t && Stands(w, t, SawFinished) {
      PurgeEmpties(w, t);
    } else {
      if !(step.Purge? && step.task == t) { NoNewPurged(w, step, t); }
      if w'.acts != w.acts {
        var a :| w'.acts == w.acts + [a] && (a.Restores? ==> step == Restore(a.task, a.host));
        RestoredSinceMore(w.acts, a, t, h);
        NotRestored(w, step, t, a);
      } else if RestoresHost(step, h) {
        assert w' == w;
      } else {
        IdleStays(w, h, step);
        NoJobsStep(w, h, step);
      }
    }
  }

  lemma RestoreAct(w: World, step: Step, h: string, a: Act)
    ensures RestoresHost(step, h) && Next(w, step).acts == w.acts + [a] ==> a == Restores(step.task, h)
  {
    assert (w.acts + [a])[|w.acts|] == a;
    if RestoresHost(step, h) { assert (w.acts + [Restores(step.task, h)])[|w.acts|] == Restores(step.task, h); }
  }

  lemma NotRestored(w: World, step: Step, t: nat, a: Act)
    requires History(w) && Emptied(w) && IdsNew(w, step) && t in w.tasks && w.tasks[t].stage.Purged?
    requires Next(w, step).acts == w.acts + [a] && !RestoredSince(w.acts + [a], t, w.tasks[t].host)
    ensures NoWork(Next(w, step), w.tasks[t].host)
  {
    var h := w.tasks[t].host;
    RestoredSinceMore(w.acts, a, t, h);
    RestoreAct(w, step, h, a);
    IdleStays(w, h, step);
    NoJobsStep(w, h, step);
  }

  lemma {:induction false} ExecEmptied(w: World, steps: seq<Step>)
    requires History(w) && Emptied(w) && RunIdsNew(w, steps)
    ensures Emptied(Exec(w, steps))
    decreases |steps|
  {
    if steps != [] {
      NextKeepsHistory(w, steps[0]);
      StepEmptied(w, steps[0]);
      ExecEmptied(Next(w, steps[0]), steps[1..]);
    }
  }

  /** In every run, and however long ago a retirement went through: its host is without work, or was
      restored since. */
  lemma StaysWithoutWork(max: nat, steps: seq<Step>, t: nat)
    requires RunIdsNew(Initial(max), steps) && Stands(Exec(Initial(max), steps), t, Purged)
    requires !RestoredSince(Exec(Initial(max), steps).acts, t, Exec(Initial(max), steps).tasks[t].host)
    ensures NoWork(Exec(Initial(max), steps), Exec(Initial(max), steps).tasks[t].host)
  {
    ExecEmptied(Initial(max), steps);
  }
}
