/** Background command jobs: their state machine, the executors that drive them, cancellation,
    pruning, and the retirement of a host. */
module CommandJobs {
  import opened Prelude
  import opened Pruning
  import HO = HostOperations

  const MAX_PENDING := 128
  const MAX_RETAINED := 512
  const MAX_RETAINED_OUTPUT := 16 * 1024 * 1024

  datatype JobState = Queued | Running | Cancelling | Completed | Failed | Cancelled

  predicate IsTerminal(s: JobState) { s in {Completed, Failed, Cancelled} }

  function Rank(s: JobState): nat {
    match s
    case Queued => 0
    case Running => 1
    case Cancelling => 2
    case _ => 3
  }

  /** `output` is the number of bytes of both captured streams and the error. */
  datatype Job = Job(id: string, hostId: string, state: JobState, revision: nat, output: nat,
                     exitCode: Option<int>, finished: bool)

  datatype Entry = Entry(job: Job, sequence: nat)

  type Entries = map<string, Entry>

  // ---- Critical sections of the registry -----------------------------------------------------------

  function SequenceOf(e: Entry): nat { e.sequence }

  function OutputOf(e: Entry): nat { e.job.output }

  function Pending(es: Entries): set<string> { set id | id in es && !IsTerminal(es[id].job.state) }

  ghost predicate OverLimits(es: Entries) {
    |es| >= MAX_RETAINED || Total(es, es.Keys - Pending(es), OutputOf) > MAX_RETAINED_OUTPUT
  }

  /** `prune_terminal_jobs`: only finished jobs go, oldest first. */
  ghost function PruneJobs(es: Entries): Entries { Prune(es, Pending(es), OverLimits, SequenceOf) }

  function Put(es: Entries, job: Job): Entries
    requires job.id in es
  {
    es[job.id := es[job.id].(job := job)]
  }

  predicate InState(es: Entries, id: string, states: set<JobState>) { id in es && es[id].job.state in states }

  /** `start_process` up to the insertion: the queue may be full, the pruning stays. */
  ghost function RegisterJob(es: Entries, id: string, host: string, sequence: nat): (Entries, Option<Job>) {
    var pruned := PruneJobs(es);
    if |Pending(pruned)| >= MAX_PENDING then (pruned, None) else
      var job := Job(id, host, Queued, 1, 0, None, false);
      (pruned[id := Entry(job, sequence)], Some(job))
  }

  ghost function RecordHandoff(es: Entries, id: string, host: string, sequence: nat,
      output: nat): (Entries, Option<Job>) {
    var job := Job(id, host, Completed, 1, output, Some(0), true);
    (PruneJobs(es)[id := Entry(job, sequence)], Some(job))
  }

  function CancelJob(es: Entries, id: string): (Entries, Option<Job>) {
    if !InState(es, id, {Queued, Running}) then (es, None) else
      var was := es[id].job;
      var job := if was.state.Queued? then was.(state := Cancelled, finished := true, revision := was.revision + 1)
                 else was.(state := Cancelling, revision := was.revision + 1);
      (Put(es, job.(id := id)), Some(job.(id := id)))
  }

  /** `transition_running`. */
  function StartRunning(es: Entries, id: string): (Entries, Option<Job>) {
    if !InState(es, id, {Queued}) then (es, None) else
      var job := es[id].job.(id := id, state := Running, revision := es[id].job.revision + 1);
      (Put(es, job), Some(job))
  }

  /** `total` is the output kept after the chunk, `None` when the chunk changed nothing. */
  function AppendOutput(es: Entries, id: string, total: Option<nat>): (Entries, Option<Job>) {
    if !InState(es, id, {Running, Cancelling}) || total.None? then (es, None) else
      var job := es[id].job.(id := id, output := total.value, revision := es[id].job.revision + 1);
      (Put(es, job), Some(job))
  }

  /** `finish_cancelled` looks only for something to change. */
  ghost function FinishCancelled(es: Entries, id: string): (Entries, Option<Job>) {
    if id !in es || (es[id].job.state.Cancelled? && es[id].job.finished) then (es, None) else
      var job := es[id].job.(id := id, state := Cancelled, finished := true, revision := es[id].job.revision + 1);
      (PruneJobs(Put(es, job)), Some(job))
  }

  function Ended(j: Job, state: JobState, exit: Option<int>, error: nat): Job {
    j.(state := state, exitCode := exit, finished := true, output := j.output + error, revision := j.revision + 1)
  }

  /** `finish_job`. */
  ghost function FinishJob(es: Entries, id: string, state: JobState, exit: Option<int>,
      error: nat): (Entries, Option<Job>) {
    if !InState(es, id, {Running, Cancelling}) then (es, None) else
      var job := Ended(es[id].job.(id := id), state, exit, error);
      (PruneJobs(Put(es, job)), Some(job))
  }

  /** Nothing in `finish_cancelled` itself protects a finished job. */
  lemma FinishCancelledAloneOverwrites(es: Entries, id: string)
    requires id in es && es[id].job.state.Completed?
    ensures FinishCancelled(es, id).1.Some? && FinishCancelled(es, id).1.value.state.Cancelled?
  {
  }

  // ---- Executors and callers as interleaved steps ---------------------------------------------------

  datatype Plan = ToCancelled | ToFailed(exit: Option<int>, error: nat) | ToCompleted(exit: Option<int>)

  /** Where `execute_job` stands; `seen` says whether its loop took notice of the cancellation. */
  datatype Executor =
    | Fresh | Waiting | Holding | Launching
    | Looping(seen: bool) | Deciding(seen: bool) | Finishing(plan: Plan) | Done

  /** How far a retirement has come: it gives up when it has waited too long. */
  datatype Stage = Closing | SawIdle | SawFinished | Purged | GaveUp

  /** One call of `retire_host`. */
  datatype Retirement = Retirement(host: string, stage: Stage)

  /** What happened to a host, as far as its retirements are concerned. */
  datatype Act =
    | Retires(task: nat, host: string)
    | Restores(task: nat, host: string)
    | Looks(task: nat, host: string)
    | Registers(id: string, host: string)

  /** `watch` are the jobs whose cancel channel says true, `sends` those whose canceller has left
      the lock and not sent yet; `log` is every job snapshot in the order it was made. `tasks` are
      all retirements there ever were, also of one host, and `lost` the jobs they purged unfinished. */
  datatype World = World(entries: Entries, nextSequence: nat, executors: map<string, Executor>,
                         watch: set<string>, sends: set<string>, permits: nat, log: seq<Job>,
                         spawned: set<string>, withdrawn: set<string>,
                         hosts: HO.Hosts, tasks: map<nat, Retirement>, acts: seq<Act>, lost: set<string>)

  datatype Step =
    | BeginOperation(host: string)
    | EndOperation(host: string)
    | Register(id: string, host: string)
    | Handoff(id: string, host: string, output: nat)
    | Cancel(id: string)
    | SendCancel(id: string)
    | LookFirst(id: string)
    | SeeCancelWaiting(id: string)
    | TakePermit(id: string)
    | Transition(id: string)
    | Launch(id: string, ok: bool)
    | Output(id: string, total: Option<nat>)
    | SeeCancel(id: string)
    | LeaveLoop(id: string)
    | Decide(id: string, plan: Plan)
    | Finish(id: string)
    | Retire(task: nat, host: string)
    | LookIdle(task: nat)
    | LookFinished(task: nat)
    | Purge(task: nat)
    | GiveUp(task: nat)
    | Restore(task: nat, host: string)

  predicate At(w: World, id: string, e: Executor) { id in w.executors && w.executors[id] == e }

  function SetExecutor(w: World, id: string, e: Executor): World { w.(executors := w.executors[id := e]) }

  function Logged(w: World, out: (Entries, Option<Job>)): World {
    w.(entries := out.0, log := if out.1.Some? then w.log + [out.1.value] else w.log)
  }

  /** The cancel channel reports a request, or its sender went away with the entry. */
  predicate CancelVisible(w: World, id: string) { id in w.watch || id !in w.entries }

  predicate CancelRequested(es: Entries, id: string) { InState(es, id, {Cancelling, Cancelled}) }

  predicate HostFinished(es: Entries, host: string) {
    forall id | id in es && es[id].job.hostId == host :: IsTerminal(es[id].job.state)
  }

  function WithoutHost(es: Entries, host: string): Entries { map id | id in es && es[id].job.hostId != host :: es[id] }

  /** The unfinished jobs of a host. */
  function UnfinishedOf(es: Entries, host: string): set<string> {
    set id | id in es && es[id].job.hostId == host && !IsTerminal(es[id].job.state)
  }

  predicate Stands(w: World, t: nat, stage: Stage) { t in w.tasks && w.tasks[t].stage == stage }

  function SetStage(w: World, t: nat, stage: Stage): World
    requires t in w.tasks
  {
    w.(tasks := w.tasks[t := w.tasks[t].(stage := stage)])
  }

  function Noted(w: World, act: Act): World { w.(acts := w.acts + [act]) }

  function RetireWorld(w: World, t: nat, h: string): World {
    if t in w.tasks then w
    else Noted(w.(hosts := HO.RetireHost(w.hosts, h), tasks := w.tasks[t := Retirement(h, Closing)]), Retires(t, h))
  }

  function LookFinishedWorld(w: World, t: nat): World {
    if Stands(w, t, SawIdle) && HostFinished(w.entries, w.tasks[t].host)
    then Noted(SetStage(w, t, SawFinished), Looks(t, w.tasks[t].host)) else w
  }

  /** What was seen before the lock is not looked at again: every job of the host goes. */
  function PurgeWorld(w: World, t: nat): World {
    if !Stands(w, t, SawFinished) then w else
      var h := w.tasks[t].host;
      SetStage(w, t, Purged).(entries := WithoutHost(w.entries, h), lost := w.lost + UnfinishedOf(w.entries, h))
  }

  /** A deletion restores its host only after its own retirement has returned. */
  function RestoreWorld(w: World, t: nat, h: string): World {
    if (Stands(w, t, Purged) || Stands(w, t, GaveUp)) && w.tasks[t].host == h
    then Noted(w.(hosts := HO.RestoreHost(w.hosts, h)), Restores(t, h)) else w
  }

  ghost function LaunchWorld(w: World, id: string, ok: bool): World {
    if !At(w, id, Launching) then w
    else if ok then SetExecutor(w, id, Looping(false)).(spawned := w.spawned + {id})
    else Logged(SetExecutor(w, id, Done), FinishJob(w.entries, id, Failed, None, 1)).(permits := w.permits + 1)
  }

  ghost function RegisterWorld(w: World, id: string, h: string): World {
    if HO.IsIdle(w.hosts, h) then w else
      var out := RegisterJob(w.entries, id, h, w.nextSequence);
      if out.1.None? then w.(entries := out.0)
      else Noted(SetExecutor(Logged(w, out), id, Fresh).(nextSequence := w.nextSequence + 1), Registers(id, h))
  }

  ghost function Next(w: World, step: Step): World {
    match step
    case BeginOperation(h) =>
      var after := HO.BeginOp(w.hosts, h);
      if after.None? then w else w.(hosts := after.value)
    case EndOperation(h) => w.(hosts := HO.EndOp(w.hosts, h))
    case Register(id, h) => RegisterWorld(w, id, h)
    case Handoff(id, h, output) =>
      if HO.IsIdle(w.hosts, h) then w
      else Logged(w, RecordHandoff(w.entries, id, h, w.nextSequence, output)).(nextSequence := w.nextSequence + 1)
    case Cancel(id) =>
      var out := CancelJob(w.entries, id);
      if out.1.None? then w
      else Logged(w, out).(sends := w.sends + {id},
                           withdrawn := if w.entries[id].job.state.Queued? then w.withdrawn + {id} else w.withdrawn)
    case SendCancel(id) => if id in w.sends then w.(sends := w.sends - {id}, watch := w.watch + {id}) else w
    case LookFirst(id) =>
      if !At(w, id, Fresh) then w
      else if id in w.watch then Logged(SetExecutor(w, id, Done), FinishCancelled(w.entries, id))
      else SetExecutor(w, id, Waiting)
    case SeeCancelWaiting(id) =>
      if At(w, id, Waiting) && CancelVisible(w, id)
      then Logged(SetExecutor(w, id, Done), FinishCancelled(w.entries, id)) else w
    case TakePermit(id) =>
      if At(w, id, Waiting) && w.permits > 0 then SetExecutor(w, id, Holding).(permits := w.permits - 1) else w
    case Transition(id) =>
      if !At(w, id, Holding) then w else
        var out := StartRunning(w.entries, id);
        if out.1.Some? then Logged(SetExecutor(w, id, Launching), out)
        else SetExecutor(w, id, Done).(permits := w.permits + 1)
    case Launch(id, ok) => LaunchWorld(w, id, ok)
    case Output(id, total) =>
      if id in w.executors && w.executors[id].Looping? then Logged(w, AppendOutput(w.entries, id, total)) else w
    case SeeCancel(id) =>
      if At(w, id, Looping(false)) && CancelVisible(w, id) then SetExecutor(w, id, Looping(true)) else w
    case LeaveLoop(id) =>
      if id in w.executors && w.executors[id].Looping?
      then SetExecutor(w, id, Deciding(w.executors[id].seen)).(permits := w.permits + 1) else w
    case Decide(id, plan) =>
      if id !in w.executors || !w.executors[id].Deciding? then w
      else
        var cancelled := w.executors[id].seen || CancelRequested(w.entries, id);
        if plan.ToFailed? || (plan.ToCancelled? == cancelled) then SetExecutor(w, id, Finishing(plan)) else w
    case Finish(id) =>
      if id !in w.executors || !w.executors[id].Finishing? then w
      else
        var done := SetExecutor(w, id, Done);
        (match w.executors[id].plan
         case ToCancelled => Logged(done, FinishCancelled(w.entries, id))
         case ToFailed(exit, error) => Logged(done, FinishJob(w.entries, id, Failed, exit, error))
         case ToCompleted(exit) => Logged(done, FinishJob(w.entries, id, Completed, exit, 0)))
    case Retire(t, h) => RetireWorld(w, t, h)
    case LookIdle(t) =>
      if Stands(w, t, Closing) && HO.IsIdle(w.hosts, w.tasks[t].host) then SetStage(w, t, SawIdle) else w
    case LookFinished(t) => LookFinishedWorld(w, t)
    case Purge(t) => PurgeWorld(w, t)
    case GiveUp(t) => if Stands(w, t, Closing) || Stands(w, t, SawIdle) then SetStage(w, t, GaveUp) else w
    case Restore(t, h) => RestoreWorld(w, t, h)
  }

  /** Job ids are new when they are drawn. */
  ghost predicate IdsNew(w: World, step: Step) {
    step.Register? || step.Handoff? ==>
      step.id !in w.entries && step.id !in w.executors && step.id !in w.watch && step.id !in w.sends
      && forall j | j in w.log :: j.id != step.id
  }

  // ---- Invariants -------------------------------------------------------------------------------------

  /** Snapshots of one job: revisions strictly increase, the rank never falls, and nothing
      follows a finished state. */
  ghost predicate Orderly(log: seq<Job>) {
    forall i, j | 0 <= i < j < |log| && log[i].id == log[j].id :: Follows(log[i], log[j])
  }

  predicate Follows(a: Job, b: Job) {
    a.revision < b.revision && Rank(a.state) <= Rank(b.state) && !IsTerminal(a.state)
  }

  /** An entry is the last snapshot of its job, or a later one. */
  ghost predicate Latest(es: Entries, log: seq<Job>) {
    forall id, k | id in es && 0 <= k < |log| && log[k].id == id ::
      && log[k].revision <= es[id].job.revision && Rank(log[k].state) <= Rank(es[id].job.state)
      && (log[k].revision == es[id].job.revision ==> log[k].state == es[id].job.state)
      && (IsTerminal(log[k].state) ==> log[k].revision == es[id].job.revision)
  }

  ghost predicate Named(es: Entries) {
    forall id | id in es :: es[id].job.id == id && (es[id].job.finished <==> IsTerminal(es[id].job.state))
  }

  /** The job states an executor can meet; a job may at any time be no longer kept. */
  predicate Fits(e: Executor, s: Option<JobState>) {
    s.None? ||
      match e
      case Fresh => s.value in {Queued, Cancelled}
      case Waiting => s.value in {Queued, Cancelled}
      case Holding => s.value in {Queued, Cancelled}
      case Launching => s.value in {Running, Cancelling}
      case Looping(seen) => s.value.Cancelling? || (s.value.Running? && !seen)
      case Deciding(seen) => s.value.Cancelling? || (s.value.Running? && !seen)
      case Finishing(plan) => s.value.Cancelling? || (s.value.Running? && !plan.ToCancelled?)
      case Done => IsTerminal(s.value)
  }

  function StateIn(es: Entries, id: string): Option<JobState> { if id in es then Some(es[id].job.state) else None }

  ghost predicate Driven(es: Entries, executors: map<string, Executor>) {
    && (forall id | id in executors :: Fits(executors[id], StateIn(es, id)))
    && (forall id | id in es && !IsTerminal(es[id].job.state) :: id in executors)
  }

  /** Once a cancellation was requested, the job is neither queued nor plainly running. */
  ghost predicate Heard(es: Entries, watch: set<string>, sends: set<string>) {
    forall id | (id in watch || id in sends) && id in es :: es[id].job.state !in {Queued, Running}
  }

  ghost predicate HasRun(log: seq<Job>, id: string) {
    exists k :: 0 <= k < |log| && log[k].id == id && log[k].state.Running?
  }

  predicate Past(e: Executor) { !e.Fresh? && !e.Waiting? && !e.Holding? && !e.Done? }

  ghost predicate RanFirst(w: World) {
    && (forall id | id in w.executors && Past(w.executors[id]) :: HasRun(w.log, id))
    && (forall id | id in w.spawned :: HasRun(w.log, id) && id in w.executors)
  }

  /** A job cancelled while queued is over: its executor never got to launch. */
  ghost predicate Withdrawn(w: World) {
    forall id | id in w.withdrawn ::
      && id in w.executors && !Past(w.executors[id]) && id !in w.spawned
      && (id in w.entries ==> w.entries[id].job.state.Cancelled?)
  }

  predicate HoldsPermit(e: Executor) { e.Holding? || e.Launching? || e.Looping? }

  function Holders(executors: map<string, Executor>): set<string> {
    set id | id in executors && HoldsPermit(executors[id])
  }

  ghost predicate HasEnd(log: seq<Job>, id: string) {
    exists k :: 0 <= k < |log| && log[k].id == id && IsTerminal(log[k].state)
  }

  /** A job that is kept is finished exactly if its end was recorded; one no longer kept has recorded
      its end, unless it was purged unfinished. */
  ghost predicate Accounted(w: World) {
    && (forall id | id in w.entries :: HasEnd(w.log, id) <==> IsTerminal(w.entries[id].job.state))
    && (forall id | id in w.executors && id !in w.entries :: HasEnd(w.log, id) <==> id !in w.lost)
    && (forall id | id in w.lost :: id in w.executors && id !in w.entries)
  }

  ghost predicate WithinLimits(es: Entries) { |es| <= MAX_RETAINED && |Pending(es)| <= MAX_PENDING }

  ghost predicate Inv(w: World, max: nat) {
    && Orderly(w.log) && Latest(w.entries, w.log) && Named(w.entries)
    && Driven(w.entries, w.executors) && Heard(w.entries, w.watch, w.sends)
    && RanFirst(w) && Withdrawn(w)
    && WithinLimits(w.entries) && w.permits + |Holders(w.executors)| == max
  }

  // ---- What kinds of change keep the invariant ----------------------------------------------------------

  /** `after` is `before` without some finished jobs. */
  ghost predicate Shrinks(before: Entries, after: Entries) {
    && (forall id | id in after :: id in before && after[id] == before[id])
    && (forall id | id in before && !IsTerminal(before[id].job.state) :: id in after)
  }

  lemma ShrinkSizes(before: Entries, after: Entries)
    requires Shrinks(before, after)
    ensures |after| <= |before| && Pending(after) == Pending(before)
  {
    SubsetSize(after.Keys, before.Keys);
  }

  lemma ShrinkFits(before: Entries, after: Entries, executors: map<string, Executor>)
    requires Shrinks(before, after) && Driven(before, executors)
    ensures Driven(after, executors)
  {
    forall id | id in executors ensures Fits(executors[id], StateIn(after, id)) {
      assert Fits(executors[id], StateIn(before, id));
    }
  }

  /** Dropping finished jobs keeps everything. */
  lemma ShrinkKeeps(w: World, max: nat, after: Entries)
    requires Inv(w, max) && Shrinks(w.entries, after)
    ensures Inv(w.(entries := after), max)
  {
    ShrinkSizes(w.entries, after);
    ShrinkFits(w.entries, after, w.executors);
  }

  lemma PruneShrinks(es: Entries)
    ensures Shrinks(es, PruneJobs(es)) && (|PruneJobs(es)| >= MAX_RETAINED ==> PruneJobs(es).Keys <= Pending(es))
  {
    PruneKeeps(es, Pending(es), OverLimits, SequenceOf);
  }

  function Bit(b: bool): nat { if b then 1 else 0 }

  lemma HoldersChange(executors: map<string, Executor>, id: string, e: Executor)
    requires id in executors
    ensures |Holders(executors[id := e])| + Bit(HoldsPermit(executors[id]))
      == |Holders(executors)| + Bit(HoldsPermit(e))
  {
    var before, after := Holders(executors), Holders(executors[id := e]);
    assert after == if HoldsPermit(e) then before + {id} else before - {id};
    assert id in before <==> HoldsPermit(executors[id]);
  }

  /** An executor moves on without touching its job. */
  lemma MoveKeeps(w: World, max: nat, id: string, e: Executor, permits: nat)
    requires Inv(w, max) && id in w.executors && Fits(e, StateIn(w.entries, id))
    requires Past(e) ==> Past(w.executors[id])
    requires permits + Bit(HoldsPermit(e)) == w.permits + Bit(HoldsPermit(w.executors[id]))
    ensures Inv(SetExecutor(w, id, e).(permits := permits), max)
  {
    HoldersChange(w.executors, id, e);
  }

  function Changed(w: World, job: Job, e: Executor): World
    requires job.id in w.entries
  {
    w.(entries := Put(w.entries, job), executors := w.executors[job.id := e], log := w.log + [job])
  }

  /** `job` is a next snapshot of an unfinished job. */
  predicate Advances(es: Entries, job: Job) {
    job.id in es &&
      var was := es[job.id].job;
      && !IsTerminal(was.state) && job.revision == was.revision + 1 && job.hostId == was.hostId
      && Rank(was.state) <= Rank(job.state) && (job.finished <==> IsTerminal(job.state))
  }

  lemma LogKeeps(es: Entries, log: seq<Job>, job: Job)
    requires Orderly(log) && Latest(es, log) && Named(es) && Advances(es, job)
    ensures Orderly(log + [job]) && Latest(Put(es, job), log + [job]) && Named(Put(es, job))
  {
    var all := log + [job];
    forall i | 0 <= i < |log| && log[i].id == job.id ensures Follows(log[i], job) {
      var was := es[job.id].job;
      assert log[i].revision <= was.revision && Rank(log[i].state) <= Rank(was.state);
    }
    forall i, j | 0 <= i < j < |all| && all[i].id == all[j].id ensures Follows(all[i], all[j]) {
      assert all[i] == log[i];
      if j < |log| { assert all[j] == log[j]; } else { assert all[j] == job; }
    }
  }

  lemma HasRunGrows(log: seq<Job>, job: Job)
    ensures forall id | HasRun(log, id) :: HasRun(log + [job], id)
    ensures job.state.Running? ==> HasRun(log + [job], job.id)
  {
    forall id | HasRun(log, id) ensures HasRun(log + [job], id) {
      var k :| 0 <= k < |log| && log[k].id == id && log[k].state.Running?;
      assert (log + [job])[k] == log[k];
    }
    assert (log + [job])[|log|] == job;
  }

  lemma PutSizes(es: Entries, job: Job)
    requires Advances(es, job) && WithinLimits(es)
    ensures WithinLimits(Put(es, job))
  {
    assert Put(es, job).Keys == es.Keys;
    SubsetSize(Pending(Put(es, job)), Pending(es));
  }

  lemma DrivenChange(w: World, job: Job, e: Executor)
    requires Driven(w.entries, w.executors) && Advances(w.entries, job) && Fits(e, Some(job.state))
    ensures Driven(Put(w.entries, job), w.executors[job.id := e])
  {
    var es, xs := Put(w.entries, job), w.executors[job.id := e];
    forall id | id in xs ensures Fits(xs[id], StateIn(es, id)) {
      if id != job.id { assert Fits(w.executors[id], StateIn(w.entries, id)); }
    }
  }

  /** A job and its executor move on together. */
  lemma ChangeKeeps(w: World, max: nat, job: Job, e: Executor, permits: nat)
    requires Inv(w, max) && Advances(w.entries, job) && job.id in w.executors && Fits(e, Some(job.state))
    requires job.id in w.watch || job.id in w.sends ==> job.state !in {Queued, Running}
    requires Past(e) ==> Past(w.executors[job.id]) || job.state.Running?
    requires permits + Bit(HoldsPermit(e)) == w.permits + Bit(HoldsPermit(w.executors[job.id]))
    ensures Inv(Changed(w, job, e).(permits := permits), max)
  {
    LogKeeps(w.entries, w.log, job);
    HasRunGrows(w.log, job);
    PutSizes(w.entries, job);
    DrivenChange(w, job, e);
    HoldersChange(w.executors, job.id, e);
  }

  /** The same, with the table pruned at once. */
  lemma FinishKeeps(w: World, max: nat, job: Job, e: Executor, permits: nat)
    requires Inv(w, max) && Advances(w.entries, job) && job.id in w.executors && Fits(e, Some(job.state))
    requires job.id in w.watch || job.id in w.sends ==> job.state !in {Queued, Running}
    requires Past(e) ==> Past(w.executors[job.id]) || job.state.Running?
    requires permits + Bit(HoldsPermit(e)) == w.permits + Bit(HoldsPermit(w.executors[job.id]))
    ensures Inv(Changed(w, job, e).(permits := permits, entries := PruneJobs(Put(w.entries, job))), max)
  {
    ChangeKeeps(w, max, job, e, permits);
    PruneShrinks(Put(w.entries, job));
    ShrinkKeeps(Changed(w, job, e).(permits := permits), max, PruneJobs(Put(w.entries, job)));
  }

  // ---- The steps ------------------------------------------------------------------------------------------

  lemma CancelEffect(w: World, id: string) returns (job: Job)
    requires Named(w.entries) && InState(w.entries, id, {Queued, Running}) && id in w.executors
    ensures job.id == id && Advances(w.entries, job)
    ensures job.state == if w.entries[id].job.state.Queued? then Cancelled else Cancelling
    ensures Next(w, Cancel(id)) == Changed(w, job, w.executors[id]).(sends := w.sends + {id},
              withdrawn := if w.entries[id].job.state.Queued? then w.withdrawn + {id} else w.withdrawn)
  {
    job := CancelJob(w.entries, id).1.value;
    assert w.executors[id := w.executors[id]] == w.executors;
  }

  lemma CancelKeeps(w: World, max: nat, id: string)
    requires Inv(w, max)
    ensures Inv(Next(w, Cancel(id)), max)
  {
    if InState(w.entries, id, {Queued, Running}) {
      var e := w.executors[id];
      assert Fits(e, StateIn(w.entries, id));
      var job := CancelEffect(w, id);
      var queued := w.entries[id].job.state.Queued?;
      if queued { QueuedNeverSpawned(w, max, id); }
      ChangeKeeps(w, max, job, e, w.permits);
      MarkKeeps(Changed(w, job, e), max, id, queued);
    }
  }

  lemma QueuedNeverSpawned(w: World, max: nat, id: string)
    requires Inv(w, max) && id in w.entries && w.entries[id].job.state.Queued?
    ensures id !in w.spawned && id in w.executors && !Past(w.executors[id])
  {
    forall k | 0 <= k < |w.log| && w.log[k].id == id ensures !w.log[k].state.Running? {
      assert Rank(w.log[k].state) <= Rank(w.entries[id].job.state);
    }
    assert Fits(w.executors[id], StateIn(w.entries, id));
  }

  lemma MarkKeeps(w: World, max: nat, id: string, queued: bool)
    requires Inv(w, max) && InState(w.entries, id, {Cancelling, Cancelled})
    requires queued ==>
      w.entries[id].job.state.Cancelled? && id in w.executors && !Past(w.executors[id]) && id !in w.spawned
    ensures Inv(w.(sends := w.sends + {id}, withdrawn := if queued then w.withdrawn + {id} else w.withdrawn), max)
  {
  }

  /** A job whose cancellation is visible before it ran is already cancelled, or gone. */
  lemma NothingToCancel(w: World, max: nat, id: string)
    requires Inv(w, max) && id in w.executors && (w.executors[id].Fresh? || w.executors[id].Waiting?)
      && CancelVisible(w, id)
    ensures FinishCancelled(w.entries, id) == (w.entries, None) && Fits(Done, StateIn(w.entries, id))
  {
    assert Fits(w.executors[id], StateIn(w.entries, id));
  }

  lemma LookFirstKeeps(w: World, max: nat, id: string)
    requires Inv(w, max)
    ensures Inv(Next(w, LookFirst(id)), max)
  {
    if At(w, id, Fresh) {
      assert Fits(w.executors[id], StateIn(w.entries, id));
      if id in w.watch {
        NothingToCancel(w, max, id);
        MoveKeeps(w, max, id, Done, w.permits);
      } else {
        MoveKeeps(w, max, id, Waiting, w.permits);
      }
    }
  }

  lemma SeeCancelWaitingKeeps(w: World, max: nat, id: string)
    requires Inv(w, max)
    ensures Inv(Next(w, SeeCancelWaiting(id)), max)
  {
    if At(w, id, Waiting) && CancelVisible(w, id) {
      NothingToCancel(w, max, id);
      MoveKeeps(w, max, id, Done, w.permits);
    }
  }

  lemma TransitionKeeps(w: World, max: nat, id: string)
    requires Inv(w, max)
    ensures Inv(Next(w, Transition(id)), max)
  {
    if At(w, id, Holding) {
      assert Fits(w.executors[id], StateIn(w.entries, id));
      var out := StartRunning(w.entries, id);
      if out.1.Some? { ChangeKeeps(w, max, out.1.value, Launching, w.permits); }
      else { MoveKeeps(w, max, id, Done, w.permits + 1); }
    }
  }

  lemma LaunchedKeeps(w: World, max: nat, id: string)
    requires Inv(w, max) && At(w, id, Launching)
    ensures Inv(LaunchWorld(w, id, true), max)
  {
    assert Fits(w.executors[id], StateIn(w.entries, id));
    MoveKeeps(w, max, id, Looping(false), w.permits);
    SpawnKeeps(SetExecutor(w, id, Looping(false)), max, id);
  }

  lemma LaunchFailedEffect(w: World, id: string) returns (job: Job)
    requires Named(w.entries) && At(w, id, Launching) && id in w.entries && Fits(Launching, StateIn(w.entries, id))
    ensures job.id == id && Advances(w.entries, job) && IsTerminal(job.state)
    ensures LaunchWorld(w, id, false) ==
      Changed(w, job, Done).(permits := w.permits + 1, entries := PruneJobs(Put(w.entries, job)))
  {
    job := FinishJob(w.entries, id, Failed, None, 1).1.value;
  }

  lemma LaunchFailedKeeps(w: World, max: nat, id: string)
    requires Inv(w, max) && At(w, id, Launching)
    ensures Inv(LaunchWorld(w, id, false), max)
  {
    assert Fits(w.executors[id], StateIn(w.entries, id));
    if id in w.entries {
      var job := LaunchFailedEffect(w, id);
      FinishKeeps(w, max, job, Done, w.permits + 1);
    } else {
      MoveKeeps(w, max, id, Done, w.permits + 1);
    }
  }

  lemma LaunchKeeps(w: World, max: nat, id: string, ok: bool)
    requires Inv(w, max)
    ensures Inv(Next(w, Launch(id, ok)), max)
  {
    if At(w, id, Launching) {
      if ok { LaunchedKeeps(w, max, id); } else { LaunchFailedKeeps(w, max, id); }
    }
  }

  lemma SpawnKeeps(w: World, max: nat, id: string)
    requires Inv(w, max) && id in w.executors && Past(w.executors[id])
    ensures Inv(w.(spawned := w.spawned + {id}), max)
  {
  }

  lemma OutputKeeps(w: World, max: nat, id: string, total: Option<nat>)
    requires Inv(w, max)
    ensures Inv(Next(w, Output(id, total)), max)
  {
    if id in w.executors && w.executors[id].Looping? {
      var out := AppendOutput(w.entries, id, total);
      if out.1.Some? {
        ChangeKeeps(w, max, out.1.value, w.executors[id], w.permits);
        assert w.executors[id := w.executors[id]] == w.executors;
      }
    }
  }

  lemma SeeCancelKeeps(w: World, max: nat, id: string)
    requires Inv(w, max)
    ensures Inv(Next(w, SeeCancel(id)), max)
  {
    if At(w, id, Looping(false)) && CancelVisible(w, id) {
      assert Fits(w.executors[id], StateIn(w.entries, id));
      MoveKeeps(w, max, id, Looping(true), w.permits);
    }
  }

  lemma PermitKeeps(w: World, max: nat, id: string, step: Step)
    requires Inv(w, max) && (step == LeaveLoop(id) || step == TakePermit(id))
    ensures Inv(Next(w, step), max)
  {
    if id in w.executors {
      var e := w.executors[id];
      assert Fits(e, StateIn(w.entries, id));
      if step.LeaveLoop? && e.Looping? { MoveKeeps(w, max, id, Deciding(e.seen), w.permits + 1); }
      if step.TakePermit? && e.Waiting? && w.permits > 0 { MoveKeeps(w, max, id, Holding, w.permits - 1); }
    }
  }

  lemma DecideKeeps(w: World, max: nat, id: string, plan: Plan)
    requires Inv(w, max)
    ensures Inv(Next(w, Decide(id, plan)), max)
  {
    if id in w.executors && w.executors[id].Deciding? {
      assert Fits(w.executors[id], StateIn(w.entries, id));
      if Next(w, Decide(id, plan)) != w { MoveKeeps(w, max, id, Finishing(plan), w.permits); }
    }
  }

  lemma FinishStepKeeps(w: World, max: nat, id: string)
    requires Inv(w, max)
    ensures Inv(Next(w, Finish(id)), max)
  {
    if id in w.executors && w.executors[id].Finishing? {
      assert Fits(w.executors[id], StateIn(w.entries, id));
      if id in w.entries {
        var job := FinishEffect(w, id);
        FinishKeeps(w, max, job, Done, w.permits);
      } else {
        EndsUnrecorded(w, id);
        MoveKeeps(w, max, id, Done, w.permits);
      }
    }
  }

  /** An executor whose job is gone ends without a snapshot. */
  lemma EndsUnrecorded(w: World, id: string)
    requires id in w.executors && id !in w.entries
    requires w.executors[id].Finishing?
    ensures Next(w, Finish(id)) == SetExecutor(w, id, Done)
  {
  }

  lemma FinishEffect(w: World, id: string) returns (job: Job)
    requires Named(w.entries) && id in w.executors && w.executors[id].Finishing? && id in w.entries
    requires Fits(w.executors[id], StateIn(w.entries, id))
    ensures job.id == id && Advances(w.entries, job) && IsTerminal(job.state)
    ensures Next(w, Finish(id)) == Changed(w, job, Done).(entries := PruneJobs(Put(w.entries, job)))
  {
    var out := match w.executors[id].plan
      case ToCancelled => FinishCancelled(w.entries, id)
      case ToFailed(exit, error) => FinishJob(w.entries, id, Failed, exit, error)
      case ToCompleted(exit) => FinishJob(w.entries, id, Completed, exit, 0);
    job := out.1.value;
  }

  /** A new entry. */
  lemma InsertKeeps(w: World, max: nat, job: Job, sequence: nat, xs: map<string, Executor>)
    requires Inv(w, max) && job.id !in w.entries && job.id !in w.watch && job.id !in w.sends && job.id !in w.executors
    requires (forall j | j in w.log :: j.id != job.id) && job.state in {Queued, Completed}
    requires job.finished <==> job.state.Completed?
    requires job.state.Queued? ==> |Pending(w.entries)| < MAX_PENDING
    requires xs == if job.state.Queued? then w.executors[job.id := Fresh] else w.executors
    requires |w.entries| < MAX_RETAINED
    ensures Inv(w.(entries := w.entries[job.id := Entry(job, sequence)], log := w.log + [job], executors := xs), max)
  {
    Sizes(w.entries, job.id, Entry(job, sequence));
    InsertPending(w.entries, job, sequence);
    InsertLogged(w.entries, w.log, job, sequence);
    InsertDriven(w.entries, w.executors, job, sequence, xs);
    InsertRan(w, job, sequence, xs);
  }

  lemma InsertDriven(es: Entries, executors: map<string, Executor>, job: Job, sequence: nat, xs: map<string, Executor>)
    requires Driven(es, executors) && job.id !in executors && job.state in {Queued, Completed}
    requires xs == if job.state.Queued? then executors[job.id := Fresh] else executors
    ensures Driven(es[job.id := Entry(job, sequence)], xs) && Holders(xs) == Holders(executors)
  {
    var es' := es[job.id := Entry(job, sequence)];
    forall id | id in xs ensures Fits(xs[id], StateIn(es', id)) {
      if id != job.id { assert Fits(executors[id], StateIn(es, id)); }
    }
  }

  lemma InsertRan(w: World, job: Job, sequence: nat, xs: map<string, Executor>)
    requires RanFirst(w) && Withdrawn(w) && job.id !in w.executors
    requires xs == w.executors[job.id := Fresh] || xs == w.executors
    ensures var w' := w.(entries := w.entries[job.id := Entry(job, sequence)], log := w.log + [job], executors := xs);
      RanFirst(w') && Withdrawn(w')
  {
    HasRunGrows(w.log, job);
  }

  lemma InsertPending(es: Entries, job: Job, sequence: nat)
    requires job.id !in es
    ensures |Pending(es[job.id := Entry(job, sequence)])| == |Pending(es)| + Bit(!IsTerminal(job.state))
  {
    var es' := es[job.id := Entry(job, sequence)];
    var grown := if IsTerminal(job.state) then Pending(es) else Pending(es) + {job.id};
    forall id ensures id in Pending(es') <==> id in grown {
      assert id != job.id ==> (id in es' <==> id in es) && (id in es ==> es'[id] == es[id]);
    }
    assert Pending(es') == grown;
  }

  lemma InsertLogged(es: Entries, log: seq<Job>, job: Job, sequence: nat)
    requires Orderly(log) && Latest(es, log) && Named(es) && (job.finished <==> IsTerminal(job.state))
    requires forall j | j in log :: j.id != job.id
    ensures var es' := es[job.id := Entry(job, sequence)];
      Orderly(log + [job]) && Latest(es', log + [job]) && Named(es')
  {
    var all := log + [job];
    forall k | 0 <= k < |log| ensures all[k] == log[k] && all[k].id != job.id { assert log[k] in log; }
  }

  lemma PrunedKeeps(w: World, max: nat)
    requires Inv(w, max)
    ensures Inv(w.(entries := PruneJobs(w.entries)), max) && |PruneJobs(w.entries)| < MAX_RETAINED
  {
    var pruned := PruneJobs(w.entries);
    PruneShrinks(w.entries);
    ShrinkKeeps(w, max, pruned);
    if pruned.Keys <= Pending(w.entries) { SubsetSize(pruned.Keys, Pending(w.entries)); }
  }

  lemma RegisterKeeps(w: World, max: nat, id: string, h: string)
    requires Inv(w, max) && IdsNew(w, Register(id, h))
    ensures Inv(Next(w, Register(id, h)), max)
  {
    if !HO.IsIdle(w.hosts, h) {
      PrunedKeeps(w, max);
      PruneShrinks(w.entries);
      var out := RegisterJob(w.entries, id, h, w.nextSequence);
      if out.1.Some? {
        InsertKeeps(w.(entries := PruneJobs(w.entries)), max, out.1.value, w.nextSequence, w.executors[id := Fresh]);
      }
    }
  }

  lemma HandoffKeeps(w: World, max: nat, id: string, h: string, output: nat)
    requires Inv(w, max) && IdsNew(w, Handoff(id, h, output))
    ensures Inv(Next(w, Handoff(id, h, output)), max)
  {
    if !HO.IsIdle(w.hosts, h) {
      PrunedKeeps(w, max);
      PruneShrinks(w.entries);
      var job := RecordHandoff(w.entries, id, h, w.nextSequence, output).1.value;
      InsertKeeps(w.(entries := PruneJobs(w.entries)), max, job, w.nextSequence, w.executors);
    }
  }

  lemma DropSizes(before: Entries, after: Entries)
    requires forall id | id in after :: id in before && after[id] == before[id]
    ensures |after| <= |before| && |Pending(after)| <= |Pending(before)|
  {
    SubsetSize(after.Keys, before.Keys);
    SubsetSize(Pending(after), Pending(before));
  }

  lemma PurgeDriven(es: Entries, executors: map<string, Executor>, h: string)
    requires Driven(es, executors)
    ensures Driven(WithoutHost(es, h), executors)
  {
    var after := WithoutHost(es, h);
    forall id | id in executors ensures Fits(executors[id], StateIn(after, id)) {
      assert Fits(executors[id], StateIn(es, id));
    }
  }

  lemma PurgeKeeps(w: World, max: nat, t: nat)
    requires Inv(w, max)
    ensures Inv(Next(w, Purge(t)), max)
  {
    if Stands(w, t, SawFinished) {
      var h := w.tasks[t].host;
      DropSizes(w.entries, WithoutHost(w.entries, h));
      PurgeDriven(w.entries, w.executors, h);
    }
  }

  predicate OnHosts(step: Step) {
    || step.BeginOperation? || step.EndOperation? || step.Retire? || step.LookIdle? || step.LookFinished?
         || step.GiveUp?
    || step.Restore?
  }

  lemma OnlyBarrier(w: World, step: Step)
    requires OnHosts(step)
    ensures var w' := Next(w, step); w' == w.(hosts := w'.hosts, tasks := w'.tasks, acts := w'.acts)
  {
  }

  lemma BarrierWorldKeeps(w: World, max: nat, hosts: HO.Hosts, tasks: map<nat, Retirement>, acts: seq<Act>)
    requires Inv(w, max)
    ensures Inv(w.(hosts := hosts, tasks := tasks, acts := acts), max)
  {
  }

  lemma HostStepKeeps(w: World, max: nat, step: Step)
    requires Inv(w, max) && OnHosts(step)
    ensures Inv(Next(w, step), max)
  {
    OnlyBarrier(w, step);
    BarrierWorldKeeps(w, max, Next(w, step).hosts, Next(w, step).tasks, Next(w, step).acts);
  }

  lemma NextKeeps(w: World, max: nat, step: Step)
    requires Inv(w, max) && IdsNew(w, step)
    ensures Inv(Next(w, step), max)
  {
    match step
    case Register(id, h) => RegisterKeeps(w, max, id, h);
    case Handoff(id, h, output) => HandoffKeeps(w, max, id, h, output);
    case Cancel(id) => CancelKeeps(w, max, id);
    case SendCancel(id) => SendKeeps(w, max, id);
    case LookFirst(id) => LookFirstKeeps(w, max, id);
    case SeeCancelWaiting(id) => SeeCancelWaitingKeeps(w, max, id);
    case TakePermit(id) => PermitKeeps(w, max, id, step);
    case Transition(id) => TransitionKeeps(w, max, id);
    case Launch(id, ok) => LaunchKeeps(w, max, id, ok);
    case Output(id, total) => OutputKeeps(w, max, id, total);
    case SeeCancel(id) => SeeCancelKeeps(w, max, id);
    case LeaveLoop(id) => PermitKeeps(w, max, id, step);
    case Decide(id, plan) => DecideKeeps(w, max, id, plan);
    case Finish(id) => FinishStepKeeps(w, max, id);
    case Purge(t) => PurgeKeeps(w, max, t);
    case _ => HostStepKeeps(w, max, step);
  }

  lemma SendKeeps(w: World, max: nat, id: string)
    requires Inv(w, max)
    ensures Inv(Next(w, SendCancel(id)), max)
  {
  }

  // ---- No job disappears without an end, unless it is purged ------------------------------------------------

  lemma HasEndGrows(log: seq<Job>, job: Job)
    ensures forall id :: HasEnd(log + [job], id) <==> HasEnd(log, id) || (job.id == id && IsTerminal(job.state))
  {
    var all := log + [job];
    assert all[|log|] == job;
    forall id | HasEnd(log, id) ensures HasEnd(all, id) {
      var k :| 0 <= k < |log| && log[k].id == id && IsTerminal(log[k].state);
      assert all[k] == log[k];
    }
  }

  /** No snapshot was made, and at most finished jobs were dropped. */
  ghost predicate Quiet(w: World, w': World) {
    Shrinks(w.entries, w'.entries) && w'.executors.Keys == w.executors.Keys && w'.log == w.log && w'.lost == w.lost
  }

  predicate Revision(before: Job, after: Job) {
    after.hostId == before.hostId && (IsTerminal(before.state) ==> IsTerminal(after.state))
  }

  /** A kept job got a next snapshot, and then at most finished jobs were dropped. */
  ghost predicate Records(w: World, w': World, job: Job) {
    && job.id in w.entries && Revision(w.entries[job.id].job, job) && Shrinks(Put(w.entries, job), w'.entries)
    && w'.executors.Keys == w.executors.Keys && w'.log == w.log + [job] && w'.lost == w.lost
  }

  /** Finished jobs may have been dropped, and then a job was added. */
  ghost predicate Adding(w: World, w': World, job: Job) {
    && job.id !in w.executors && (forall j | j in w.log :: j.id != job.id)
    && job.id in w'.entries && w'.entries[job.id].job == job && Shrinks(w.entries, w'.entries - {job.id})
    && w.executors.Keys <= w'.executors.Keys <= w.executors.Keys + {job.id}
    && w'.log == w.log + [job] && w'.lost == w.lost
  }

  /** What a step that adds no job does to the record of jobs. */
  ghost predicate Keeping(w: World, w': World) {
    Quiet(w, w') || exists job :: Records(w, w', job)
  }

  lemma QuietAccounted(w: World, w': World)
    requires Accounted(w) && Quiet(w, w')
    ensures Accounted(w')
  {
  }

  lemma RecordsAccounted(w: World, w': World, job: Job)
    requires Accounted(w) && Records(w, w', job)
    ensures Accounted(w')
  {
    HasEndGrows(w.log, job);
    var es := Put(w.entries, job);
    forall id | id in es ensures HasEnd(w'.log, id) <==> IsTerminal(es[id].job.state) { }
  }

  lemma AddingAccounted(w: World, w': World, job: Job)
    requires Accounted(w) && Adding(w, w', job)
    ensures Accounted(w')
  {
    HasEndGrows(w.log, job);
    assert !HasEnd(w.log, job.id);
    forall id | id in w'.entries && id != job.id ensures HasEnd(w'.log, id) <==> IsTerminal(w'.entries[id].job.state) {
      assert id in w'.entries - {job.id} && (w'.entries - {job.id})[id] == w'.entries[id];
    }
  }

  lemma KeepingAccounted(w: World, w': World)
    requires Accounted(w) && Keeping(w, w')
    ensures Accounted(w')
  {
    if Quiet(w, w') { QuietAccounted(w, w'); }
    else {
      var job :| Records(w, w', job);
      RecordsAccounted(w, w', job);
    }
  }

  lemma PurgeAccounted(w: World, t: nat)
    requires Accounted(w) && Driven(w.entries, w.executors)
    ensures Accounted(PurgeWorld(w, t))
  {
  }

  /** A critical section on a kept job that makes at most one snapshot, and then drops finished jobs. */
  ghost predicate Section(es: Entries, out: (Entries, Option<Job>)) {
    if out.1.None? then Shrinks(es, out.0)
    else
      && out.1.value.id in es && Revision(es[out.1.value.id].job, out.1.value)
      && Shrinks(Put(es, out.1.value), out.0)
  }

  /** The critical section of an executor that moves on, or of a caller. */
  lemma SectionKeeping(w: World, v: World, out: (Entries, Option<Job>), permits: nat)
    requires Section(w.entries, out)
    requires v.entries == w.entries && v.log == w.log && v.lost == w.lost && v.executors.Keys == w.executors.Keys
    ensures Keeping(w, Logged(v, out).(permits := permits))
  {
    if out.1.Some? { assert Records(w, Logged(v, out).(permits := permits), out.1.value); }
  }

  lemma ShrinksSelf(es: Entries)
    ensures Shrinks(es, es)
  {
  }

  lemma ReviseSections(es: Entries, id: string, total: Option<nat>)
    ensures Section(es, CancelJob(es, id)) && Section(es, StartRunning(es, id))
      && Section(es, AppendOutput(es, id, total))
  {
  }

  lemma FinishSections(es: Entries, id: string, state: JobState, exit: Option<int>, error: nat)
    requires IsTerminal(state)
    ensures Section(es, FinishCancelled(es, id)) && Section(es, FinishJob(es, id, state, exit, error))
  {
    if id in es {
      PruneShrinks(Put(es, es[id].job.(id := id, state := Cancelled, finished := true,
        revision := es[id].job.revision + 1)));
      PruneShrinks(Put(es, Ended(es[id].job.(id := id), state, exit, error)));
    }
  }

  lemma SetKeys(w: World, id: string, e: Executor)
    requires id in w.executors
    ensures SetExecutor(w, id, e).executors.Keys == w.executors.Keys
  {
  }

  predicate Waits(step: Step) { step.LookFirst? || step.SeeCancelWaiting? || step.TakePermit? || step.Transition? }

  predicate Works(step: Step) {
    step.Launch? || step.Output? || step.SeeCancel? || step.LeaveLoop? || step.Decide? || step.Finish?
  }

  lemma LookKeeping(w: World, step: Step)
    requires step.LookFirst? || step.SeeCancelWaiting?
    ensures Keeping(w, Next(w, step))
  {
    var id := step.id;
    if id in w.executors {
      FinishSections(w.entries, id, Failed, None, 0);
      SectionKeeping(w, SetExecutor(w, id, Done), FinishCancelled(w.entries, id), w.permits);
    }
  }

  lemma TransitionKeeping(w: World, id: string)
    ensures Keeping(w, Next(w, Transition(id)))
  {
    if id in w.executors {
      ReviseSections(w.entries, id, None);
      SectionKeeping(w, SetExecutor(w, id, Launching), StartRunning(w.entries, id), w.permits);
    }
  }

  lemma WaitingKeeping(w: World, step: Step)
    requires Waits(step)
    ensures Keeping(w, Next(w, step))
  {
    if step.Transition? { TransitionKeeping(w, step.id); }
    else if !step.TakePermit? { LookKeeping(w, step); }
  }

  lemma LaunchFailedKeeping(w: World, id: string)
    requires At(w, id, Launching)
    ensures Keeping(w, LaunchWorld(w, id, false))
  {
    FinishSections(w.entries, id, Failed, None, 1);
    SectionKeeping(w, SetExecutor(w, id, Done), FinishJob(w.entries, id, Failed, None, 1), w.permits + 1);
  }

  lemma LaunchedKeeping(w: World, id: string)
    requires At(w, id, Launching)
    ensures Quiet(w, LaunchWorld(w, id, true))
  {
  }

  lemma LaunchKeeping(w: World, id: string, ok: bool)
    ensures Keeping(w, LaunchWorld(w, id, ok))
  {
    if At(w, id, Launching) {
      if ok { LaunchedKeeping(w, id); } else { LaunchFailedKeeping(w, id); }
    } else {
      ShrinksSelf(w.entries);
    }
  }

  lemma FinishKeeping(w: World, id: string)
    ensures Keeping(w, Next(w, Finish(id)))
  {
    if id in w.executors && w.executors[id].Finishing? {
      var done := SetExecutor(w, id, Done);
      match w.executors[id].plan
      case ToCancelled =>
        FinishSections(w.entries, id, Failed, None, 0);
        SectionKeeping(w, done, FinishCancelled(w.entries, id), w.permits);
      case ToFailed(exit, error) =>
        FinishSections(w.entries, id, Failed, exit, error);
        SectionKeeping(w, done, FinishJob(w.entries, id, Failed, exit, error), w.permits);
      case ToCompleted(exit) =>
        FinishSections(w.entries, id, Completed, exit, 0);
        SectionKeeping(w, done, FinishJob(w.entries, id, Completed, exit, 0), w.permits);
    }
  }

  lemma WorkingKeeping(w: World, step: Step)
    requires Works(step)
    ensures Keeping(w, Next(w, step))
  {
    if step.Launch? { LaunchKeeping(w, step.id, step.ok); }
    else if step.Finish? { FinishKeeping(w, step.id); }
    else if step.Output? {
      ReviseSections(w.entries, step.id, step.total);
      SectionKeeping(w, w, AppendOutput(w.entries, step.id, step.total), w.permits);
    }
  }

  lemma CancelKeeping(w: World, id: string)
    ensures Keeping(w, Next(w, Cancel(id)))
  {
    ReviseSections(w.entries, id, None);
    var out := CancelJob(w.entries, id);
    if out.1.Some? { assert Records(w, Next(w, Cancel(id)), out.1.value); }
  }

  lemma InsertShrinks(es: Entries, pruned: Entries, id: string, e: Entry)
    requires Shrinks(es, pruned) && id !in es
    ensures Shrinks(es, pruned[id := e] - {id})
  {
    assert pruned[id := e] - {id} == pruned;
  }

  /** A registration or a hand-off adds one job of its host, or none. */
  ghost predicate AddsFor(w: World, w': World, id: string, h: string, queued: bool) {
    || Quiet(w, w')
    || (!HO.IsIdle(w.hosts, h)
        && exists job :: Adding(w, w', job) && job.id == id && job.hostId == h && (job.state.Queued? <==> queued)
             && (!queued ==> IsTerminal(job.state)))
  }

  lemma RegisterAdds(w: World, id: string, h: string)
    requires IdsNew(w, Register(id, h))
    ensures AddsFor(w, RegisterWorld(w, id, h), id, h, true)
  {
    PruneShrinks(w.entries);
    var out := RegisterJob(w.entries, id, h, w.nextSequence);
    if !HO.IsIdle(w.hosts, h) && out.1.Some? {
      InsertShrinks(w.entries, PruneJobs(w.entries), id, Entry(out.1.value, w.nextSequence));
      assert Adding(w, RegisterWorld(w, id, h), out.1.value);
    }
  }

  lemma HandoffAdds(w: World, id: string, h: string, output: nat)
    requires IdsNew(w, Handoff(id, h, output))
    ensures AddsFor(w, Next(w, Handoff(id, h, output)), id, h, false)
  {
    PruneShrinks(w.entries);
    var out := RecordHandoff(w.entries, id, h, w.nextSequence, output);
    if !HO.IsIdle(w.hosts, h) {
      InsertShrinks(w.entries, PruneJobs(w.entries), id, Entry(out.1.value, w.nextSequence));
      assert Adding(w, Next(w, Handoff(id, h, output)), out.1.value);
    }
  }

  predicate Adds(step: Step) { step.Register? || step.Handoff? }

  lemma StepAdds(w: World, step: Step)
    requires Adds(step) && IdsNew(w, step)
    ensures AddsFor(w, Next(w, step), step.id, step.host, step.Register?)
  {
    if step.Register? { RegisterAdds(w, step.id, step.host); } else { HandoffAdds(w, step.id, step.host, step.output); }
  }

  lemma StepKeeping(w: World, step: Step)
    requires !Adds(step) && !step.Purge?
    ensures Keeping(w, Next(w, step))
  {
    if Waits(step) { WaitingKeeping(w, step); }
    else if Works(step) { WorkingKeeping(w, step); }
    else if step.Cancel? { CancelKeeping(w, step.id); }
    else if OnHosts(step) { OnlyBarrier(w, step); }
  }

  lemma StepAccounted(w: World, step: Step)
    requires Accounted(w) && Driven(w.entries, w.executors) && IdsNew(w, step)
    ensures Accounted(Next(w, step))
  {
    var w' := Next(w, step);
    if step.Purge? {
      PurgeAccounted(w, step.task);
    } else if Adds(step) {
      StepAdds(w, step);
      if Quiet(w, w') { QuietAccounted(w, w'); }
      else if job :| Adding(w, w', job) { AddingAccounted(w, w', job); }
    } else {
      StepKeeping(w, step);
      KeepingAccounted(w, w');
    }
  }

  // ---- Whole runs --------------------------------------------------------------------------------------------

  function Initial(max: nat): World {
    World(map[], 0, map[], {}, {}, max, [], {}, {}, map[], map[], [], {})
  }

  ghost function Exec(w: World, steps: seq<Step>): World
    decreases |steps|
  {
    if steps == [] then w else Exec(Next(w, steps[0]), steps[1..])
  }

  ghost predicate RunIdsNew(w: World, steps: seq<Step>)
    decreases |steps|
  {
    steps != [] ==> IdsNew(w, steps[0]) && RunIdsNew(Next(w, steps[0]), steps[1..])
  }

  lemma {:induction false} ExecKeeps(w: World, max: nat, steps: seq<Step>)
    requires Inv(w, max) && Accounted(w) && RunIdsNew(w, steps)
    ensures Inv(Exec(w, steps), max) && Accounted(Exec(w, steps))
    decreases |steps|
  {
    if steps != [] {
      NextKeeps(w, max, steps[0]);
      StepAccounted(w, steps[0]);
      ExecKeeps(Next(w, steps[0]), max, steps[1..]);
    }
  }

  lemma InitialInv(max: nat)
    ensures Inv(Initial(max), max) && Accounted(Initial(max))
  {
    assert Holders(map[]) == {};
    assert Pending(map[]) == {};
  }

  /** In every run: the snapshots of each job are orderly; a process was launched only for a job
      that had gone from queued to running; a job cancelled while queued is never launched; at
      most `max` executors hold a permit; and both limits hold. */
  lemma EveryRun(max: nat, steps: seq<Step>)
    requires RunIdsNew(Initial(max), steps)
    ensures var w := Exec(Initial(max), steps);
      && Orderly(w.log)
      && (forall id | id in w.spawned :: HasRun(w.log, id) && id !in w.withdrawn)
      && |Holders(w.executors)| <= max
      && WithinLimits(w.entries)
  {
    InitialInv(max);
    ExecKeeps(Initial(max), max, steps);
  }

  /** An executor that is done has left its job finished, and its end recorded, unless a retirement
      purged the job unfinished; such a job never gets an end. */
  lemma DoneMeansFinished(max: nat, steps: seq<Step>, id: string)
    requires RunIdsNew(Initial(max), steps)
    ensures var w := Exec(Initial(max), steps);
      && (At(w, id, Done) && id in w.entries ==> IsTerminal(w.entries[id].job.state) && w.entries[id].job.finished)
      && (At(w, id, Done) ==> (HasEnd(w.log, id) <==> id !in w.lost))
      && (id in w.lost ==> id !in w.entries && !HasEnd(w.log, id))
  {
    InitialInv(max);
    ExecKeeps(Initial(max), max, steps);
    var w := Exec(Initial(max), steps);
    if At(w, id, Done) && id in w.entries {
      assert Fits(w.executors[id], StateIn(w.entries, id));
    }
  }

  /** In reachable states `finish_cancelled` never overwrites a finished job: an executor about
      to call it meets a job being cancelled, or one already cancelled or gone. */
  lemma FinishCancelledMeetsNoOther(w: World, max: nat, id: string)
    requires Inv(w, max) && id in w.executors && id in w.entries
    requires w.executors[id] == Finishing(ToCancelled)
          || ((w.executors[id].Fresh? || w.executors[id].Waiting?) && id in w.watch)
    ensures w.entries[id].job.state in {Cancelling, Cancelled}
  {
    assert Fits(w.executors[id], StateIn(w.entries, id));
  }
}
