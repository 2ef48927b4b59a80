/** The command job table as the object that is changed under its lock; each method is one
    critical section of `CommandJobs`. */
module CommandJobRegistries {
  import opened Prelude
  import opened Pruning
  import opened CommandJobs

  class CommandJobRegistry {
    var entries: Entries
    var nextSequence: nat

    constructor ()
      ensures Valid() && entries == map[] && nextSequence == 0
    {
      entries, nextSequence := map[], 0;
    }

    /** Every entry carries its own, already drawn, sequence number. */
    ghost predicate Valid()
      reads this
    {
      DistinctAges(entries, SequenceOf) && forall id | id in entries :: entries[id].sequence < nextSequence
    }

    method PruneTerminalJobs()
      requires Valid()
      modifies this`entries
      ensures Valid() && entries == PruneJobs(old(entries))
    {
      ghost var pinned := Pending(entries);
      ghost var before := entries;
      while true
        invariant Valid() && Pending(entries) == pinned
        invariant Prune(entries, pinned, OverLimits, SequenceOf) == PruneJobs(before)
        decreases |entries|
      {
        var pending := Pending(entries);
        var output := SumTable(entries, pending, OutputOf);
        if |entries| < MAX_RETAINED && output <= MAX_RETAINED_OUTPUT {
          break;
        }
        var oldest := OldestUnpinned(entries, pending, SequenceOf);
        if oldest.None? {
          break;
        }
        PruneOne(entries, pinned, OverLimits, SequenceOf, oldest.value);
        SamePending(entries, oldest.value);
        entries := entries - {oldest.value};
      }
    }

    /** Registers a queued job, unless too many are unfinished. */
    method StartProcess(id: string, host: string) returns (job: Option<Job>)
      requires Valid() && id !in entries
      modifies this
      ensures Valid() && (entries, job) == RegisterJob(old(entries), id, host, old(nextSequence))
      ensures nextSequence == old(nextSequence) + (if job.Some? then 1 else 0)
    {
      PruneShrinks(entries);
      PruneTerminalJobs();
      if |Pending(entries)| >= MAX_PENDING {
        return None;
      }
      var made := Job(id, host, Queued, 1, 0, None, false);
      entries := entries[id := Entry(made, nextSequence)];
      nextSequence := nextSequence + 1;
      return Some(made);
    }

    method RecordPtyHandoff(id: string, host: string, output: nat) returns (job: Option<Job>)
      requires Valid() && id !in entries
      modifies this
      ensures Valid() && (entries, job) == RecordHandoff(old(entries), id, host, old(nextSequence), output)
      ensures nextSequence == old(nextSequence) + 1
    {
      PruneShrinks(entries);
      PruneTerminalJobs();
      var made := Job(id, host, Completed, 1, output, Some(0), true);
      entries := entries[id := Entry(made, nextSequence)];
      nextSequence := nextSequence + 1;
      return Some(made);
    }

    method Store(job: Job)
      requires Valid() && job.id in entries
      modifies this`entries
      ensures Valid() && entries == CommandJobs.Put(old(entries), job)
    {
      entries := entries[job.id := entries[job.id].(job := job)];
    }

    method Cancel(id: string) returns (job: Option<Job>)
      requires Valid()
      modifies this`entries
      ensures Valid() && (entries, job) == CancelJob(old(entries), id)
    {
      if id !in entries || IsTerminal(entries[id].job.state) || entries[id].job.state.Cancelling? {
        return None;
      }
      var changed := entries[id].job.(id := id);
      if changed.state.Queued? {
        changed := changed.(state := Cancelled, finished := true);
      } else {
        changed := changed.(state := Cancelling);
      }
      changed := changed.(revision := changed.revision + 1);
      Store(changed);
      return Some(changed);
    }

    method TransitionRunning(id: string) returns (job: Option<Job>)
      requires Valid()
      modifies this`entries
      ensures Valid() && (entries, job) == StartRunning(old(entries), id)
    {
      if id !in entries || !entries[id].job.state.Queued? {
        return None;
      }
      var changed := entries[id].job.(id := id, state := Running);
      changed := changed.(revision := changed.revision + 1);
      Store(changed);
      return Some(changed);
    }

    method AppendJobOutput(id: string, total: Option<nat>) returns (job: Option<Job>)
      requires Valid()
      modifies this`entries
      ensures Valid() && (entries, job) == AppendOutput(old(entries), id, total)
    {
      if id !in entries || !(entries[id].job.state.Running? || entries[id].job.state.Cancelling?) || total.None? {
        return None;
      }
      var changed := entries[id].job.(id := id, output := total.value);
      changed := changed.(revision := changed.revision + 1);
      Store(changed);
      return Some(changed);
    }

    method FinishCancelled(id: string) returns (job: Option<Job>)
      requires Valid()
      modifies this`entries
      ensures Valid() && (entries, job) == CommandJobs.FinishCancelled(old(entries), id)
    {
      if id !in entries {
        return None;
      }
      var changed := entries[id].job.(id := id);
      if changed.state.Cancelled? && changed.finished {
        return None;
      }
      changed := changed.(state := Cancelled, finished := true, revision := changed.revision + 1);
      Store(changed);
      PruneTerminalJobs();
      return Some(changed);
    }

    method FinishJob(id: string, state: JobState, exit: Option<int>, error: nat) returns (job: Option<Job>)
      requires Valid()
      modifies this`entries
      ensures Valid() && (entries, job) == CommandJobs.FinishJob(old(entries), id, state, exit, error)
    {
      if id !in entries || !(entries[id].job.state.Running? || entries[id].job.state.Cancelling?) {
        return None;
      }
      var changed := Ended(entries[id].job.(id := id), state, exit, error);
      Store(changed);
      PruneTerminalJobs();
      return Some(changed);
    }

    /** The last critical section of `retire_host`. */
    method PurgeHost(host: string)
      requires Valid()
      modifies this`entries
      ensures Valid() && entries == WithoutHost(old(entries), host)
    {
      entries := map id | id in entries && entries[id].job.hostId != host :: entries[id];
    }
  }

  lemma SamePending(es: Entries, id: string)
    requires id !in Pending(es)
    ensures Pending(es - {id}) == Pending(es)
  {
  }
}
