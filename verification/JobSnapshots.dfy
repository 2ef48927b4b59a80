/** What the command jobs record: the snapshot each critical section makes, and the end an executor gives
    its job in any run. */
module JobSnapshots {
  import opened Prelude
  import opened Pruning
  import opened CommandJobs

  /** `after` is `es` with `job` in the place of the old one; finished jobs may have gone. */
  ghost predicate Records(es: Entries, id: string, job: Job, after: Entries)
    requires id in es
  {
    && (id in after ==> after[id] == Entry(job, es[id].sequence))
    && (forall x | x in after && x != id :: x in es && after[x] == es[x])
    && (forall x | x in es && x != id && !IsTerminal(es[x].job.state) :: x in after)
    && (!IsTerminal(job.state) ==> id in after)
  }

  lemma PrunedRecords(es: Entries, id: string, job: Job, after: Entries)
    requires id in es && Records(es, id, job, after)
    ensures Records(es, id, job, PruneJobs(after))
  {
    PruneShrinks(after);
  }

  // ---- The critical sections ---------------------------------------------------------------------------------

  function FinishedJob(id: string, was: Job, state: JobState, exit: Option<int>, error: nat): Job {
    Job(id, was.hostId, state, was.revision + 1, was.output + error, exit, true)
  }

  lemma FinishSection(es: Entries, id: string, state: JobState, exit: Option<int>, error: nat)
    ensures FinishJob(es, id, state, exit, error) ==
      if id in es && (es[id].job.state == Running || es[id].job.state == Cancelling) then
        var job := FinishedJob(id, es[id].job, state, exit, error);
        (PruneJobs(es[id := Entry(job, es[id].sequence)]), Some(job))
      else (es, None)
  {
  }

  lemma PlacedRecords(es: Entries, id: string, job: Job)
    requires id in es
    ensures Records(es, id, job, es[id := Entry(job, es[id].sequence)])
  {
  }

  /** Finishing is for jobs that run or are being cancelled: the snapshot has exactly the state and the exit
      code given, the next revision, the error behind the output, and the old id and host. */
  lemma FinishRecords(es: Entries, id: string, state: JobState, exit: Option<int>, error: nat)
    ensures var (after, made) := FinishJob(es, id, state, exit, error);
      && (made.Some? <==> id in es && (es[id].job.state == Running || es[id].job.state == Cancelling))
      && (made.None? ==> after == es)
      && (made.Some? && IsTerminal(state) ==>
            var was := es[id].job;
            && made.value == Job(id, was.hostId, state, was.revision + 1, was.output + error, exit, true)
            && Records(es, id, made.value, after))
  {
    FinishSection(es, id, state, exit, error);
    if id in es {
      var job := FinishedJob(id, es[id].job, state, exit, error);
      PlacedRecords(es, id, job);
      PrunedRecords(es, id, job, es[id := Entry(job, es[id].sequence)]);
    }
  }

  /** Whatever was not cancelled is: its output and exit code stay. */
  lemma FinishCancelledRecords(es: Entries, id: string)
    ensures var (after, made) := FinishCancelled(es, id);
      && (made.Some? <==> id in es && !(es[id].job.state == Cancelled && es[id].job.finished))
      && (made.None? ==> after == es)
      && (made.Some? ==>
            var was := es[id].job;
            && made.value == Job(id, was.hostId, Cancelled, was.revision + 1, was.output, was.exitCode, true)
            && Records(es, id, made.value, after))
  {
    if id in es {
      var was := es[id].job;
      var job := Job(id, was.hostId, Cancelled, was.revision + 1, was.output, was.exitCode, true);
      PrunedRecords(es, id, job, es[id := Entry(job, es[id].sequence)]);
    }
  }

  /** A queued job is cancelled at once, a running one starts being cancelled, and no other changes. */
  lemma CancelRecords(es: Entries, id: string)
    ensures var (after, made) := CancelJob(es, id);
      && (made.Some? <==> id in es && (es[id].job.state == Queued || es[id].job.state == Running))
      && (made.None? ==> after == es)
      && (made.Some? ==>
            var (was, queued) := (es[id].job, es[id].job.state == Queued);
            && made.value == Job(id, was.hostId, if queued then Cancelled else Cancelling, was.revision + 1, was.output,
                                 was.exitCode, queued || was.finished)
            && after == es[id := Entry(made.value, es[id].sequence)])
  {
  }

  /** Only a queued job starts to run. */
  lemma StartRecords(es: Entries, id: string)
    ensures var (after, made) := StartRunning(es, id);
      && (made.Some? <==> id in es && es[id].job.state == Queued)
      && (made.None? ==> after == es)
      && (made.Some? ==>
            var was := es[id].job;
            && made.value == Job(id, was.hostId, Running, was.revision + 1, was.output, was.exitCode, was.finished)
            && after == es[id := Entry(made.value, es[id].sequence)])
  {
  }

  /** Output counts while the job runs or is being cancelled, and if it changed anything. */
  lemma OutputRecords(es: Entries, id: string, total: Option<nat>)
    ensures var (after, made) := AppendOutput(es, id, total);
      && (made.Some? <==> total.Some? && id in es && (es[id].job.state == Running || es[id].job.state == Cancelling))
      && (made.None? ==> after == es)
      && (made.Some? ==>
            var was := es[id].job;
            && made.value == Job(id, was.hostId, was.state, was.revision + 1, total.value, was.exitCode, was.finished)
            && after == es[id := Entry(made.value, es[id].sequence)])
  {
  }

  /** Unfinished jobs are always kept; of the finished ones as many go, oldest first, as it takes to have
      fewer than 512 jobs and at most 16 MiB of finished output, or until none is left. */
  lemma PruneMeans(es: Entries, gone: string, kept: string)
    ensures var after := PruneJobs(es); var finished := after.Keys - Pending(after);
      && Shrinks(es, after)
      && ((|after| < 512 && Total(after, finished, OutputOf) <= 16777216) || finished == {})
      && (gone in es && gone !in after && kept in after && IsTerminal(after[kept].job.state) ==>
            IsTerminal(es[gone].job.state) && es[gone].sequence <= es[kept].sequence)
  {
    PruneShrinks(es);
    PruneKeeps(es, Pending(es), OverLimits, SequenceOf);
    ShrinkSizes(es, PruneJobs(es));
    if gone in es && gone !in PruneJobs(es) && kept in PruneJobs(es) && IsTerminal(PruneJobs(es)[kept].job.state) {
      PruneRemovesOldest(es, Pending(es), OverLimits, SequenceOf, gone, kept);
    }
  }

  /** With the youngest job that went, the table would still be over one of the limits. */
  lemma PrunesNoMore(es: Entries, last: string)
    requires DistinctAges(es, SequenceOf) && last in es && last !in PruneJobs(es)
    requires forall id | id in es && id !in PruneJobs(es) :: es[id].sequence <= es[last].sequence
    ensures var more := PruneJobs(es)[last := es[last]];
      |more| >= 512 || Total(more, more.Keys - Pending(more), OutputOf) > 16777216
  {
    PruneGoesNoFurther(es, Pending(es), OverLimits, SequenceOf, last);
  }

  /** A job is queued exactly if fewer than 128 are unfinished, behind the pruned table. */
  lemma RegisterRecords(es: Entries, id: string, host: string, sequence: nat)
    ensures var (after, made) := RegisterJob(es, id, host, sequence);
      if |Pending(es)| < 128
      then made == Some(Job(id, host, Queued, 1, 0, None, false))
        && after == PruneJobs(es)[id := Entry(made.value, sequence)]
      else made == None && after == PruneJobs(es)
  {
    PruneShrinks(es);
    ShrinkSizes(es, PruneJobs(es));
  }

  /** A handoff to a terminal is recorded as a command that went well. */
  lemma HandoffRecords(es: Entries, id: string, host: string, sequence: nat, output: nat)
    ensures RecordHandoff(es, id, host, sequence, output) ==
      (PruneJobs(es)[id := Entry(Job(id, host, Completed, 1, output, Some(0), true), sequence)],
       Some(Job(id, host, Completed, 1, output, Some(0), true)))
  {
  }

  // ---- The end of a job ------------------------------------------------------------------------------------------

  /** The end an executor has decided on. */
  predicate IsEnd(plan: Plan, was: Job, end: Job) {
    && end.id == was.id && end.hostId == was.hostId && end.revision == was.revision + 1 && end.finished
    && match plan
       case ToCompleted(exit) => end.state == Completed && end.exitCode == exit && end.output == was.output
       case ToFailed(exit, error) => end.state == Failed && end.exitCode == exit && end.output == was.output + error
       case ToCancelled => end.state == Cancelled && end.exitCode == was.exitCode && end.output == was.output
  }

  /** The step has recorded `end` as the last snapshot of the job. */
  ghost predicate Ends(w: World, w': World, id: string, end: Job) {
    id in w.entries && w'.log == w.log + [end] && Records(w.entries, id, end, w'.entries)
  }

  /** The end as decided is recorded, if the job is still kept. */
  ghost predicate EndsAs(w: World, w': World, id: string, plan: Plan) {
    if id in w.entries then exists end :: IsEnd(plan, w.entries[id].job, end) && Ends(w, w', id, end)
    else w'.log == w.log && w'.entries == w.entries
  }

  ghost function EndOf(es: Entries, id: string, plan: Plan): (Entries, Option<Job>) {
    match plan
    case ToCancelled => FinishCancelled(es, id)
    case ToFailed(exit, error) => FinishJob(es, id, Failed, exit, error)
    case ToCompleted(exit) => FinishJob(es, id, Completed, exit, 0)
  }

  lemma FinishUnfolds(w: World, id: string)
    requires id in w.executors && w.executors[id].Finishing?
    ensures Next(w, Finish(id)) == Logged(SetExecutor(w, id, Done), EndOf(w.entries, id, w.executors[id].plan))
  {
  }

  lemma EndIsRecorded(es: Entries, id: string, plan: Plan)
    requires id in es ==>
      es[id].job.id == id && (es[id].job.state == Cancelling || (es[id].job.state == Running && !plan.ToCancelled?))
    ensures var (after, made) := EndOf(es, id, plan);
      if id in es then made.Some? && IsEnd(plan, es[id].job, made.value) && Records(es, id, made.value, after)
      else made == None && after == es
  {
    match plan
    case ToCancelled => FinishCancelledRecords(es, id);
    case ToFailed(exit, error) => FinishRecords(es, id, Failed, exit, error);
    case ToCompleted(exit) => FinishRecords(es, id, Completed, exit, 0);
  }

  lemma ExecutorFits(max: nat, steps: seq<Step>, id: string)
    requires RunIdsNew(Initial(max), steps) && id in Exec(Initial(max), steps).executors
    ensures var w := Exec(Initial(max), steps);
      Fits(w.executors[id], StateIn(w.entries, id)) && (id in w.entries ==> w.entries[id].job.id == id)
  {
    InitialInv(max);
    ExecKeeps(Initial(max), max, steps);
  }

  /** In every run, an executor that finishes leaves as the last snapshot of its job exactly the end it has
      decided on, with the exit code of the process; of a job that is no longer kept it records nothing. */
  lemma FinishesAsDecided(max: nat, steps: seq<Step>, id: string)
    requires RunIdsNew(Initial(max), steps)
    requires id in Exec(Initial(max), steps).executors && Exec(Initial(max), steps).executors[id].Finishing?
    ensures var w := Exec(Initial(max), steps); var w' := Next(w, Finish(id));
      At(w', id, Done) && EndsAs(w, w', id, w.executors[id].plan)
  {
    var w := Exec(Initial(max), steps);
    ExecutorFits(max, steps, id);
    FinishUnfolds(w, id);
    EndIsRecorded(w.entries, id, w.executors[id].plan);
  }

  lemma LaunchUnfolds(w: World, id: string)
    requires At(w, id, Launching)
    ensures Next(w, Launch(id, false))
      == Logged(SetExecutor(w, id, Done), FinishJob(w.entries, id, Failed, None, 1)).(permits := w.permits + 1)
  {
  }

  /** In every run, a launch that fails leaves the job failed, without an exit code, and its executor done. */
  lemma FailedLaunchEnds(max: nat, steps: seq<Step>, id: string)
    requires RunIdsNew(Initial(max), steps) && At(Exec(Initial(max), steps), id, Launching)
    ensures var w := Exec(Initial(max), steps); var w' := Next(w, Launch(id, false));
      && At(w', id, Done) && w'.spawned == w.spawned && w'.permits == w.permits + 1
      && EndsAs(w, w', id, ToFailed(None, 1))
  {
    var w := Exec(Initial(max), steps);
    ExecutorFits(max, steps, id);
    LaunchUnfolds(w, id);
    EndIsRecorded(w.entries, id, ToFailed(None, 1));
  }

  /** What an executor can decide on: it may fail at any time; otherwise the job ends as cancelled if the
      executor has seen a cancellation or the job is being cancelled, and as completed if neither. */
  lemma DecisionFits(w: World, id: string, plan: Plan)
    requires id in w.executors && w.executors[id].Deciding?
    ensures var cancelled := w.executors[id].seen
        || (id in w.entries && (w.entries[id].job.state == Cancelling || w.entries[id].job.state == Cancelled));
      Next(w, Decide(id, plan)) ==
        if plan.ToFailed? || (plan.ToCancelled? && cancelled) || (plan.ToCompleted? && !cancelled)
        then w.(executors := w.executors[id := Finishing(plan)]) else w
  {
  }

  // ---- What the executor decides on ----------------------------------------------------------------------------

  /** What is known when the loop over process and pipes has ended: what waiting for the process gave, and
      what went wrong in ending it and in reading its output. Messages are known by their length. */
  datatype Ending = Ending(status: Option<Result<Option<int>, nat>>, cancelFailure: Option<nat>, pipeError: Option<nat>,
                           message: nat)

  /** The exit code, if the process ended with one. */
  function CodeOf(e: Ending): Option<int> {
    if e.status.Some? && e.status.value.Ok? then e.status.value.value else None
  }

  /** The end of `execute_job`. */
  function Decided(cancelled: bool, e: Ending): Plan {
    if cancelled then
      if e.cancelFailure.Some? then ToFailed(CodeOf(e), e.cancelFailure.value) else ToCancelled
    else if e.pipeError.Some? then ToFailed(CodeOf(e), e.pipeError.value)
    else match e.status
      case Some(Ok(code)) => if code == Some(0) then ToCompleted(code) else ToFailed(code, e.message)
      case Some(Err(error)) => ToFailed(None, error)
      case None => ToFailed(None, e.message)
  }

  predicate IsCancelled(w: World, id: string)
    requires id in w.executors && w.executors[id].Deciding?
  {
    || w.executors[id].seen
    || (id in w.entries && (w.entries[id].job.state == Cancelling || w.entries[id].job.state == Cancelled))
  }

  lemma DecidedIsAdmitted(w: World, id: string, e: Ending)
    requires id in w.executors && w.executors[id].Deciding?
    ensures Next(w, Decide(id, Decided(IsCancelled(w, id), e)))
      == w.(executors := w.executors[id := Finishing(Decided(IsCancelled(w, id), e))])
  {
    DecisionFits(w, id, Decided(IsCancelled(w, id), e));
  }

  lemma DecidedMeans(cancelled: bool, e: Ending)
    ensures var plan := Decided(cancelled, e);
      && (plan.ToCompleted? <==> !cancelled && e.pipeError.None? && CodeOf(e) == Some(0))
      && (plan.ToCancelled? <==> cancelled && e.cancelFailure.None?)
      && (plan.ToCompleted? ==> plan.exit == Some(0)) && (plan.ToFailed? ==> plan.exit == CodeOf(e))
  {
  }

  /** In every run, when the loop over the process has ended and nothing comes in between: the last snapshot
      of a job that is kept says completed, with exit code 0, if and only if no cancellation was seen or
      asked for, its output could be read and the process exited with 0; cancelled if and only if it was
      and the process could be ended; and failed, with the exit code if there is one, in all other cases. */
  lemma EndsByItsProcess(max: nat, steps: seq<Step>, id: string, e: Ending)
    requires RunIdsNew(Initial(max), steps)
    requires id in Exec(Initial(max), steps).executors && Exec(Initial(max), steps).executors[id].Deciding?
    ensures var w := Exec(Initial(max), steps); var plan := Decided(IsCancelled(w, id), e);
      var decided := Next(w, Decide(id, plan)); var w' := Next(decided, Finish(id));
      && At(w', id, Done) && EndsAs(decided, w', id, plan) && decided.entries == w.entries && decided.log == w.log
      && (plan.ToCompleted? <==> !IsCancelled(w, id) && e.pipeError.None? && CodeOf(e) == Some(0))
      && (plan.ToCancelled? <==> IsCancelled(w, id) && e.cancelFailure.None?)
      && (!plan.ToCancelled? ==> plan.exit == CodeOf(e))
  {
    var w := Exec(Initial(max), steps);
    var plan := Decided(IsCancelled(w, id), e);
    DecidedMeans(IsCancelled(w, id), e);
    DecidedIsAdmitted(w, id, e);
    RunMore(max, steps, Decide(id, plan));
    FinishesAsDecided(max, steps + [Decide(id, plan)], id);
  }

  lemma {:induction false} ExecMore(w: World, steps: seq<Step>, step: Step)
    ensures Exec(w, steps + [step]) == Next(Exec(w, steps), step)
    ensures RunIdsNew(w, steps) && IdsNew(Exec(w, steps), step) ==> RunIdsNew(w, steps + [step])
    decreases |steps|
  {
    if steps == [] {
      assert [step][1..] == [] && [] + [step] == [step];
      assert Exec(Next(w, step), []) == Next(w, step);
      assert RunIdsNew(Next(w, step), []);
    } else {
      assert (steps + [step])[1..] == steps[1..] + [step];
      ExecMore(Next(w, steps[0]), steps[1..], step);
    }
  }

  lemma RunMore(max: nat, steps: seq<Step>, step: Step)
    requires RunIdsNew(Initial(max), steps) && step.Decide?
    ensures RunIdsNew(Initial(max), steps + [step])
    ensures Exec(Initial(max), steps + [step]) == Next(Exec(Initial(max), steps), step)
  {
    ExecMore(Initial(max), steps, step);
  }
}
