/** Idempotent requests: claiming a key, admitting its work as a task, and resolving everybody
    who waits for the result. */
module RequestAdmission {
  import opened Prelude
  import opened Pruning

  const MAX_RECORDS := 1024
  const MAX_TASKS := 128
  const RETENTION := 30 * 60

  /** A watch channel is known by its number. */
  datatype Record = Record(digest: string, started: nat, channel: nat)

  type Records = map<string, Record>
  type Results = map<nat, Option<string>>

  datatype Claim =
    | Existing(channel: nat)
    | New(channel: nat)
    | Conflict
    | Full
    | Malformed

  predicate IsUnresolved(results: Results, channel: nat) { channel in results && results[channel].None? }

  /** A record is kept for thirty minutes, and in any case until it is resolved. */
  predicate IsKept(r: Record, results: Results, now: nat) {
    now < r.started + RETENTION || IsUnresolved(results, r.channel)
  }

  function Retained(records: Records, results: Results, now: nat): (kept: Records)
    ensures |kept| <= |records|
  {
    var kept := map k | k in records && IsKept(records[k], results, now) :: records[k];
    SubsetSize(kept.Keys, records.Keys);
    kept
  }

  /** `Requests::claim`; `fresh` is the number of the channel a new record gets. */
  function ClaimKey(records: Records, results: Results, now: nat, key: string, isUuid: bool, digest: string,
      channel: nat): (Records, Claim) {
    if !isUuid then (records, Malformed) else
      var kept := Retained(records, results, now);
      if key in kept then (kept, if kept[key].digest != digest then Conflict else Existing(kept[key].channel))
      else if |kept| >= MAX_RECORDS then (kept, Full)
      else (kept[key := Record(digest, now, channel)], New(channel))
  }

  class Requests {
    var records: Records

    constructor ()
      ensures records == map[]
    {
      records := map[];
    }

    method Claim(results: Results, now: nat, key: string, isUuid: bool, digest: string, channel: nat)
        returns (claim: Claim)
      modifies this
      ensures (records, claim) == ClaimKey(old(records), results, now, key, isUuid, digest, channel)
    {
      if !isUuid {
        return Malformed;
      }
      records := map k | k in records && IsKept(records[k], results, now) :: records[k];
      if key in records {
        if records[key].digest != digest {
          return Conflict;
        }
        return Existing(records[key].channel);
      }
      if |records| >= MAX_RECORDS {
        return Full;
      }
      records := records[key := Record(digest, now, channel)];
      return New(channel);
    }
  }

  /** Exactly what a well-formed claim answers: a key in use with other arguments conflicts, with
      the same arguments joins, and a free key starts a record while there is room. */
  lemma ClaimAnswers(records: Records, results: Results, now: nat, key: string, digest: string, channel: nat)
    ensures var (after, claim) := ClaimKey(records, results, now, key, true, digest, channel);
      var used := key in records && IsKept(records[key], results, now);
      && (claim.Conflict? <==> used && records[key].digest != digest)
      && (claim.Existing? <==> used && records[key].digest == digest)
      && (used ==> key in after && after[key] == records[key])
      && (claim.New? ==> !used && after[key] == Record(digest, now, channel))
      && (forall k | k in records && IsUnresolved(results, records[k].channel) :: k in after && after[k] == records[k])
  {
  }

  // ---- Claims, tasks and shutdown as interleaved steps ---------------------------------------------

  /** `Working` may also be a task that was aborted and has not noticed. */
  datatype Phase = Working | Answered | Ended

  /** A task is named by the channel it answers. `claimers` are the new channels whose handler has
      not spawned yet, `tasks` the registered tasks, `phases` all tasks there ever were, and
      `started` lists the channels whose work was started. */
  datatype World = World(records: Records, results: Results, now: nat, nextChannel: nat, claimers: set<nat>,
                         closed: bool, tasks: set<nat>, phases: map<nat, Phase>, started: seq<nat>)

  datatype Step =
    | ClaimStep(key: string, isUuid: bool, digest: string)
    | Spawn(channel: nat)
    | Answer(channel: nat, outcome: string)
    | Unregister(channel: nat)
    | Close
    | CancelAll
    | Stop(channel: nat)
    | Tick(seconds: nat)

  const REJECTED := "admission_closed"
  const STOPPING := "service_stopping"

  function ResolveAll(results: Results, tasks: set<nat>): Results {
    map c | c in results :: if c in tasks then Some(STOPPING) else results[c]
  }

  function Resolved(w: World, c: nat, outcome: string): World { w.(results := w.results[c := Some(outcome)]) }

  function WithNewRecord(w: World, key: string, digest: string): World {
    w.(records := w.records[key := Record(digest, w.now, w.nextChannel)], results := w.results[w.nextChannel := None],
       claimers := w.claimers + {w.nextChannel}, nextChannel := w.nextChannel + 1)
  }

  function ClaimWorld(w: World, key: string, isUuid: bool, digest: string): World {
    var (after, claim) := ClaimKey(w.records, w.results, w.now, key, isUuid, digest, w.nextChannel);
    if claim.New? then WithNewRecord(w.(records := Retained(w.records, w.results, w.now)), key, digest)
    else w.(records := after)
  }

  /** `Admission::spawn`. */
  function SpawnWorld(w: World, c: nat): World {
    if c !in w.claimers then w
    else if w.closed || |w.tasks| >= MAX_TASKS then Resolved(w.(claimers := w.claimers - {c}), c, REJECTED)
    else w.(claimers := w.claimers - {c}, tasks := w.tasks + {c}, phases := w.phases[c := Working],
      started := w.started + [c])
  }

  function Next(w: World, step: Step): World {
    match step
    case ClaimStep(key, isUuid, digest) => ClaimWorld(w, key, isUuid, digest)
    case Spawn(c) => SpawnWorld(w, c)
    case Answer(c, outcome) =>
      if c in w.phases && w.phases[c].Working? then Resolved(w, c, outcome).(phases := w.phases[c := Answered]) else w
    case Unregister(c) =>
      if c in w.phases && w.phases[c].Answered? then w.(tasks := w.tasks - {c}, phases := w.phases[c := Ended]) else w
    case Close => w.(closed := true)
    case CancelAll => w.(closed := true, results := ResolveAll(w.results, w.tasks), tasks := {})
    case Stop(c) => if c in w.phases && c !in w.tasks then w.(phases := w.phases[c := Ended]) else w
    case Tick(n) => w.(now := w.now + n)
  }

  ghost predicate Channels(w: World) {
    && (forall c | c in w.results :: c < w.nextChannel)
    && (forall c | c in w.claimers :: c in w.results)
    && (forall k | k in w.records :: w.records[k].channel in w.results)
  }

  /** No two records share a channel. */
  ghost predicate OwnChannels(records: Records) {
    forall a, b | a in records && b in records && records[a].channel == records[b].channel :: a == b
  }

  ghost predicate TasksKnown(w: World) {
    && |w.tasks| <= MAX_TASKS
    && (forall c | c in w.tasks :: c in w.phases && !w.phases[c].Ended?)
    && (forall c | c in w.phases :: c in w.results && (w.phases[c].Answered? ==> w.results[c].Some?))
  }

  /** Every unresolved record has somebody to resolve it: its claimer, or a registered task. */
  ghost predicate NobodyWaitsInVain(w: World) {
    forall k | k in w.records && IsUnresolved(w.results, w.records[k].channel) ::
      w.records[k].channel in w.claimers || w.records[k].channel in w.tasks
  }

  /** Each channel starts work at most once. */
  ghost predicate StartedOnce(w: World) {
    && (forall c | c in w.started :: c in w.results && c !in w.claimers)
    && (forall i, j | 0 <= i < j < |w.started| :: w.started[i] != w.started[j])
  }

  ghost predicate Inv(w: World) {
    && Channels(w) && OwnChannels(w.records) && TasksKnown(w) && NobodyWaitsInVain(w) && StartedOnce(w)
    && |w.records| <= MAX_RECORDS
  }

  const INITIAL := World(map[], map[], 0, 0, {}, false, {}, map[], [])

  lemma ClaimKeeps(w: World, key: string, isUuid: bool, digest: string)
    requires Inv(w)
    ensures Inv(ClaimWorld(w, key, isUuid, digest))
  {
    var kept := Retained(w.records, w.results, w.now);
    assert Inv(w.(records := kept));
    if isUuid && key !in kept && |kept| < MAX_RECORDS { NewRecordKeeps(w.(records := kept), key, digest); }
  }

  lemma NewRecordOwns(records: Records, key: string, r: Record)
    requires OwnChannels(records) && key !in records && forall k | k in records :: records[k].channel < r.channel
    ensures OwnChannels(records[key := r])
  {
  }

  lemma NewRecordWaits(w: World, key: string, digest: string)
    requires Channels(w) && NobodyWaitsInVain(w) && key !in w.records
    ensures Channels(WithNewRecord(w, key, digest)) && NobodyWaitsInVain(WithNewRecord(w, key, digest))
  {
    var w' := WithNewRecord(w, key, digest);
    forall k | k in w'.records && IsUnresolved(w'.results, w'.records[k].channel)
      ensures w'.records[k].channel in w'.claimers || w'.records[k].channel in w'.tasks
    {
      if k != key { assert w'.records[k] == w.records[k]; }
    }
  }

  lemma NewRecordStarts(w: World, key: string, digest: string)
    requires Channels(w) && TasksKnown(w) && StartedOnce(w)
    ensures TasksKnown(WithNewRecord(w, key, digest)) && StartedOnce(WithNewRecord(w, key, digest))
  {
  }

  lemma NewRecordKeeps(w: World, key: string, digest: string)
    requires Inv(w) && key !in w.records && |w.records| < MAX_RECORDS
    ensures Inv(WithNewRecord(w, key, digest))
  {
    Sizes(w.records, key, Record(digest, w.now, w.nextChannel));
    NewRecordOwns(w.records, key, Record(digest, w.now, w.nextChannel));
    NewRecordWaits(w, key, digest);
    NewRecordStarts(w, key, digest);
  }

  lemma SpawnKeeps(w: World, c: nat)
    requires Inv(w)
    ensures Inv(SpawnWorld(w, c))
  {
    if c in w.claimers {
      if w.closed || |w.tasks| >= MAX_TASKS { RejectKeeps(w, c); } else { AdmitKeeps(w, c); }
    }
  }

  lemma RejectKeeps(w: World, c: nat)
    requires Inv(w) && c in w.claimers
    ensures Inv(Resolved(w.(claimers := w.claimers - {c}), c, REJECTED))
  {
  }

  lemma AdmitKeeps(w: World, c: nat)
    requires Inv(w) && c in w.claimers && |w.tasks| < MAX_TASKS
    ensures Inv(w.(claimers := w.claimers - {c}, tasks := w.tasks + {c}, phases := w.phases[c := Working],
      started := w.started + [c]))
  {
    assert c !in w.started;
    assert |w.tasks + {c}| <= |w.tasks| + 1;
    StartedMore(w, c);
  }

  lemma StartedMore(w: World, c: nat)
    requires StartedOnce(w) && c in w.claimers && c in w.results
    ensures StartedOnce(w.(claimers := w.claimers - {c}, started := w.started + [c]))
  {
    assert c !in w.started;
  }

  lemma UnregisterKeeps(w: World, c: nat)
    requires Inv(w)
    ensures Inv(Next(w, Unregister(c)))
  {
    SubsetSize(w.tasks - {c}, w.tasks);
  }

  lemma CancelAllKeeps(w: World)
    requires Inv(w)
    ensures Inv(Next(w, CancelAll))
  {
  }

  lemma NextKeeps(w: World, step: Step)
    requires Inv(w)
    ensures Inv(Next(w, step))
  {
    match step
    case ClaimStep(key, isUuid, digest) => ClaimKeeps(w, key, isUuid, digest);
    case Spawn(c) => SpawnKeeps(w, c);
    case Unregister(c) => UnregisterKeeps(w, c);
    case CancelAll => CancelAllKeeps(w);
    case _ =>
  }

  function Exec(w: World, steps: seq<Step>): World
    decreases |steps|
  {
    if steps == [] then w else Exec(Next(w, steps[0]), steps[1..])
  }

  lemma {:induction false} ExecKeeps(w: World, steps: seq<Step>)
    requires Inv(w)
    ensures Inv(Exec(w, steps))
    decreases |steps|
  {
    if steps != [] {
      NextKeeps(w, steps[0]);
      ExecKeeps(Next(w, steps[0]), steps[1..]);
    }
  }

  /** In every run: work starts at most once per record, and every unresolved record has a
      claimer about to spawn or a registered task, so that rejection, completion, panic and
      shutdown all reach its waiters. */
  lemma EveryRun(steps: seq<Step>)
    ensures var w := Exec(INITIAL, steps);
      && (forall i, j | 0 <= i < j < |w.started| :: w.started[i] != w.started[j])
      && NobodyWaitsInVain(w) && OwnChannels(w.records)
      && |w.records| <= MAX_RECORDS && |w.tasks| <= MAX_TASKS
  {
    ExecKeeps(INITIAL, steps);
  }

  lemma ResultsStay(w: World, step: Step, c: nat)
    requires Inv(w) && c in w.results && w.results[c].Some?
    ensures c in Next(w, step).results && Next(w, step).results[c].Some?
  {
  }

  lemma RecordsStay(w: World, step: Step, key: string)
    requires key in w.records && IsUnresolved(w.results, w.records[key].channel)
    ensures key in Next(w, step).records && Next(w, step).records[key] == w.records[key]
  {
  }

  /** A resolved channel stays resolved, and an unresolved record is kept whatever its age. */
  lemma StepKeepsRecords(w: World, step: Step, key: string, c: nat)
    requires Inv(w)
    ensures c in w.results && w.results[c].Some? ==> c in Next(w, step).results && Next(w, step).results[c].Some?
    ensures key in w.records && IsUnresolved(w.results, w.records[key].channel) ==>
              key in Next(w, step).records && Next(w, step).records[key] == w.records[key]
  {
    if c in w.results && w.results[c].Some? { ResultsStay(w, step, c); }
    if key in w.records && IsUnresolved(w.results, w.records[key].channel) { RecordsStay(w, step, key); }
  }

  lemma ClosedStep(w: World, step: Step)
    requires w.closed
    ensures Next(w, step).started == w.started && Next(w, step).closed
  {
  }

  /** Nothing starts after admission was closed. */
  lemma {:induction false} NothingStartsAfterClose(w: World, steps: seq<Step>)
    requires w.closed
    ensures Exec(w, steps).started == w.started && Exec(w, steps).closed
    decreases |steps|
  {
    if steps != [] {
      ClosedStep(w, steps[0]);
      NothingStartsAfterClose(Next(w, steps[0]), steps[1..]);
    }
  }

  /** After the shutdown has drained the tasks, only requests still between their claim and their
      spawn wait, and their spawn will be rejected and resolve them. */
  lemma ShutdownResolves(w: World, key: string)
    requires Inv(w)
    ensures var w' := Next(w, CancelAll);
      key in w'.records && IsUnresolved(w'.results, w'.records[key].channel) ==>
        var c := w'.records[key].channel;
        c in w'.claimers && Next(w', Spawn(c)).results[c] == Some(REJECTED)
  {
    CancelAllKeeps(w);
  }

  // ---- Outcomes that are replaced ---------------------------------------------------------------------

  /** Nobody has answered for a claimer or for a registered task that still works, and a task that
      works although it is not registered was drained. */
  ghost predicate Outcomes(w: World) {
    && (forall c | c in w.claimers :: c !in w.phases && IsUnresolved(w.results, c))
    && (forall c | c in w.phases && w.phases[c].Working? ::
         c in w.results && w.results[c] == if c in w.tasks then None else Some(STOPPING))
  }

  lemma ClaimOutcomes(w: World, key: string, isUuid: bool, digest: string)
    requires Inv(w) && Outcomes(w)
    ensures Outcomes(ClaimWorld(w, key, isUuid, digest))
  {
  }

  lemma SpawnOutcomes(w: World, c: nat)
    requires Inv(w) && Outcomes(w)
    ensures Outcomes(SpawnWorld(w, c))
  {
  }

  lemma OutcomesKeep(w: World, step: Step)
    requires Inv(w) && Outcomes(w)
    ensures Outcomes(Next(w, step))
  {
    match step
    case ClaimStep(key, isUuid, digest) => ClaimOutcomes(w, key, isUuid, digest);
    case Spawn(c) => SpawnOutcomes(w, c);
    case _ =>
  }

  lemma {:induction false} OutcomesStay(w: World, steps: seq<Step>)
    requires Inv(w) && Outcomes(w)
    ensures Inv(Exec(w, steps)) && Outcomes(Exec(w, steps))
    decreases |steps|
  {
    if steps != [] {
      NextKeeps(w, steps[0]);
      OutcomesKeep(w, steps[0]);
      OutcomesStay(Next(w, steps[0]), steps[1..]);
    }
  }

  predicate IsResolved(w: World, c: nat) { c in w.results && w.results[c].Some? }

  /** The drain meets a task that has answered and is about to unregister. */
  predicate DrainsAnswered(w: World, step: Step, c: nat) {
    step.CancelAll? && c in w.tasks && c in w.phases && w.phases[c].Answered? && IsResolved(w, c)
      && w.results[c] != Some(STOPPING)
  }

  /** A drained task answers before it notices that it was aborted. */
  predicate AnswersDrained(w: World, step: Step, c: nat) {
    step.Answer? && step.channel == c && c !in w.tasks && c in w.phases && w.phases[c].Working?
      && step.outcome != STOPPING
  }

  /** The outcome sent on channel `c` is replaced by another one. */
  predicate Replaces(w: World, step: Step, c: nat) {
    IsResolved(w, c) && IsResolved(Next(w, step), c) && Next(w, step).results[c] != w.results[c]
  }

  lemma ReplacesExactly(w: World, step: Step, c: nat)
    requires Inv(w) && Outcomes(w)
    ensures Replaces(w, step, c) <==> DrainsAnswered(w, step, c) || AnswersDrained(w, step, c)
    ensures DrainsAnswered(w, step, c) ==> Next(w, step).results[c] == Some(STOPPING)
    ensures AnswersDrained(w, step, c) ==>
      w.results[c] == Some(STOPPING) && Next(w, step).results[c] == Some(step.outcome)
  {
  }

  /** Nobody is left who could still answer on the channel. */
  predicate IsSettled(w: World, c: nat) {
    IsResolved(w, c) && c !in w.claimers && (c in w.phases ==> c !in w.tasks && !w.phases[c].Working?)
  }

  lemma SettledStep(w: World, step: Step, c: nat)
    requires Inv(w) && IsSettled(w, c)
    ensures IsSettled(Next(w, step), c) && Next(w, step).results[c] == w.results[c]
  {
  }

  lemma {:induction false} SettledStays(w: World, steps: seq<Step>, c: nat)
    requires Inv(w) && IsSettled(w, c)
    ensures c in Exec(w, steps).results && Exec(w, steps).results[c] == w.results[c]
    decreases |steps|
  {
    if steps != [] {
      NextKeeps(w, steps[0]);
      SettledStep(w, steps[0], c);
      SettledStays(Next(w, steps[0]), steps[1..], c);
    }
  }

  lemma ReplacedIsSettled(w: World, step: Step, c: nat)
    requires Inv(w) && Outcomes(w) && (DrainsAnswered(w, step, c) || AnswersDrained(w, step, c))
    ensures IsSettled(Next(w, step), c)
  {
  }

  /** In every run, an outcome already sent on a channel is replaced exactly when the shutdown drains
      a task that has answered but not unregistered, or a drained task answers before it stops; and
      after that the outcome never changes again. */
  lemma OutcomeReplaced(steps: seq<Step>, step: Step, more: seq<Step>, c: nat)
    ensures var w := Exec(INITIAL, steps); var w' := Next(w, step);
      && (Replaces(w, step, c) <==> DrainsAnswered(w, step, c) || AnswersDrained(w, step, c))
      && (Replaces(w, step, c) ==> c in Exec(w', more).results && Exec(w', more).results[c] == w'.results[c])
  {
    OutcomesStay(INITIAL, steps);
    var w := Exec(INITIAL, steps);
    ReplacesExactly(w, step, c);
    if Replaces(w, step, c) {
      NextKeeps(w, step);
      ReplacedIsSettled(w, step, c);
      SettledStays(Next(w, step), more, c);
    }
  }

  lemma FirstSpawned(key: string, digest: string) returns (steps: seq<Step>, w: World)
    ensures w == Exec(INITIAL, steps) && w.tasks == {0} && w.phases == map[0 := Working] && w.results == map[0 := None]
  {
    steps := [ClaimStep(key, true, digest), Spawn(0)];
    var w1 := Next(INITIAL, steps[0]);
    assert Retained(map[], map[], 0) == map[];
    assert w1 == WithNewRecord(INITIAL, key, digest);
    w := Next(w1, steps[1]);
    assert steps[1..] == [Spawn(0)] && [Spawn(0)][1..] == [];
    assert Exec(w, []) == w;
  }

  /** Both do happen, with one and the same request: it depends on whether the answer or the shutdown
      comes first. */
  lemma BothReplacementsHappen(key: string, digest: string, outcome: string) returns (steps: seq<Step>)
    requires outcome != STOPPING
    ensures var w := Exec(INITIAL, steps);
      && Replaces(Next(w, Answer(0, outcome)), CancelAll, 0)
      && Replaces(Next(w, CancelAll), Answer(0, outcome), 0)
  {
    var w;
    steps, w := FirstSpawned(key, digest);
  }

  // ---- The admission table as an object --------------------------------------------------------------

  class Admission {
    var closed: bool
    var tasks: set<nat>

    constructor ()
      ensures !closed && tasks == {}
    {
      closed, tasks := false, {};
    }

    /** The answer, if any, is what the channel is resolved with at once. */
    method Spawn(ghost w: World, c: nat) returns (answer: Option<string>)
      requires c in w.claimers && w.closed == closed && w.tasks == tasks
      modifies this`tasks
      ensures var w' := SpawnWorld(w, c); w'.tasks == tasks && (answer.None? <==> w'.started == w.started + [c])
      ensures answer.Some? ==> SpawnWorld(w, c).results[c] == answer
    {
      if closed || |tasks| >= MAX_TASKS {
        assert |w.started + [c]| == |w.started| + 1;
        return Some(REJECTED);
      }
      tasks := tasks + {c};
      return None;
    }

    method Close()
      modifies this`closed
      ensures closed
    {
      closed := true;
    }

    /** Drains the table; every channel in `drained` is resolved with the shutdown answer. */
    method CancelAll(ghost w: World) returns (drained: set<nat>)
      requires w.tasks == tasks
      modifies this
      ensures closed && tasks == {} && drained == old(tasks)
      ensures Next(w, Step.CancelAll).results == ResolveAll(w.results, drained)
    {
      closed, drained := true, tasks;
      tasks := {};
    }
  }
}
