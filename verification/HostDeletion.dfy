/** Deleting hosts: every deletion is a task that retires the runtime work of its host, marks it,
    cleans up, deletes it, and rolls everything back when a step fails. Any number of tasks, also
    of one host, interleave with each other and with other requests. */
module HostDeletion {
  import opened Prelude
  import opened Profiles
  import opened ProxyJump
  import opened HostRecords
  import opened Repository
  import RS = RepositorySteps
  import RR = RepositoryRuns
  import HO = HostOperations
  import HR = HostRequests

  /** The three places that take work for a host, in the order in which they are shut. */
  datatype Gate = Transfers | Terminals | Jobs

  function Rank(g: Gate): nat {
    match g
    case Transfers => 0
    case Terminals => 1
    case Jobs => 2
  }

  /** How far a deletion has come: `Closing` waits behind a gate it has shut, `Closed` has waited,
      `Reopening` is about to open a gate again. */
  datatype Place =
    | Started | Checked | Closing(gate: Gate) | Closed(gate: Gate) | Marked | CleanedUp
    | Reopening(gate: Gate) | Exited(ok: bool)

  datatype Task = Task(host: string, place: Place)

  type Tasks = map<nat, Task>

  /** What a task did to the things it shares with others. */
  datatype Effect =
    | Checks(host: string, task: nat)
    | Shuts(gate: Gate, host: string, task: nat)
    | Opens(gate: Gate, host: string, task: nat)
    | Erases(host: string, task: nat)

  type Log = seq<Effect>

  /** The repository, the three gates, and every deletion there ever was with its effects. */
  datatype World = World(repo: RS.Repo, transfers: set<string>, terminals: HO.Hosts, jobs: HO.Hosts,
                         tasks: Tasks, log: Log)

  predicate IsShut(w: World, g: Gate, h: string) {
    match g
    case Transfers => h in w.transfers
    case Terminals => HO.IsRetired(w.terminals, h)
    case Jobs => HO.IsRetired(w.jobs, h)
  }

  function ShutGate(w: World, g: Gate, h: string): World {
    match g
    case Transfers => w.(transfers := w.transfers + {h})
    case Terminals => w.(terminals := HO.RetireHost(w.terminals, h))
    case Jobs => w.(jobs := HO.RetireHost(w.jobs, h))
  }

  function OpenGate(w: World, g: Gate, h: string): World {
    match g
    case Transfers => w.(transfers := w.transfers - {h})
    case Terminals => w.(terminals := HO.RestoreHost(w.terminals, h))
    case Jobs => w.(jobs := HO.RestoreHost(w.jobs, h))
  }

  // ---- One deletion -----------------------------------------------------------------------------------

  function Moved(tasks: Tasks, t: nat, p: Place): Tasks
    requires t in tasks
  {
    tasks[t := tasks[t].(place := p)]
  }

  function Move(w: World, t: nat, p: Place): World
    requires t in w.tasks
  {
    w.(tasks := Moved(w.tasks, t, p))
  }

  function Note(w: World, e: Effect): World { w.(log := w.log + [e]) }

  function Shut(w: World, t: nat, g: Gate): World
    requires t in w.tasks
  {
    Note(ShutGate(Move(w, t, Closing(g)), g, w.tasks[t].host), Shuts(g, w.tasks[t].host, t))
  }

  function Open(w: World, t: nat, g: Gate): World
    requires t in w.tasks
  {
    var next := match g case Jobs => Reopening(Terminals) case Terminals => Reopening(Transfers)
      case Transfers => Exited(false);
    Note(OpenGate(Move(w, t, next), g, w.tasks[t].host), Opens(g, w.tasks[t].host, t))
  }

  /** `ensure_host_deletable`. */
  predicate Deletable(r: RS.Repo, id: string) { id !in r.deleting && CheckDeletable(r.state, id).None? }

  function Check(w: World, t: nat): World
    requires t in w.tasks
  {
    if Deletable(w.repo, w.tasks[t].host) then Note(Move(w, t, Checked), Checks(w.tasks[t].host, t))
    else Move(w, t, Exited(false))
  }

  function TryMark(w: World, t: nat): World
    requires t in w.tasks
  {
    var out := RS.MarkHost(w.repo, w.tasks[t].host);
    Move(w.(repo := out.0), t, if out.1.None? then Marked else Reopening(Jobs))
  }

  function AbortMark(w: World, t: nat): World
    requires t in w.tasks
  {
    Move(w.(repo := RS.UnmarkHost(w.repo, w.tasks[t].host)), t, Reopening(Jobs))
  }

  function Finish(w: World, t: nat, disk: Option<Error>): World
    requires t in w.tasks
  {
    var out := RS.EraseHost(w.repo, w.tasks[t].host, disk);
    if out.1.None? then Note(Move(w.(repo := out.0), t, Exited(true)), Erases(w.tasks[t].host, t))
    else Move(w.(repo := out.0), t, Reopening(Jobs))
  }

  /** The places whose next action is on a gate. */
  predicate AtGate(p: Place) { p.Checked? || p.Closing? || p.Reopening? || (p.Closed? && !p.gate.Jobs?) }

  function GateAct(w: World, t: nat, ok: bool): World
    requires t in w.tasks && AtGate(w.tasks[t].place)
  {
    match w.tasks[t].place
    case Checked => Shut(w, t, Transfers)
    case Closing(g) => Move(w, t, if ok then Closed(g) else Reopening(g))
    case Closed(g) => Shut(w, t, if g.Transfers? then Terminals else Jobs)
    case Reopening(g) => Open(w, t, g)
  }

  /** The next action of `delete_host`; `ok` is the outcome of what it waits for. */
  function Act(w: World, t: nat, ok: bool, disk: Option<Error>): World
    requires t in w.tasks
  {
    var p := w.tasks[t].place;
    if AtGate(p) then GateAct(w, t, ok) else
      match p
      case Started => Check(w, t)
      case Closed(_) => TryMark(w, t)
      case Marked => if ok then Move(w, t, CleanedUp) else AbortMark(w, t)
      case CleanedUp => Finish(w, t, disk)
      case _ => w
  }

  // ---- Interleavings -----------------------------------------------------------------------------------

  /** Another request comes with the repository it leaves. */
  datatype Step =
    | Begin(task: nat, host: string)
    | Advance(task: nat, ok: bool, disk: Option<Error>)
    | Request(step: RS.Step, after: RS.Repo)
    | TerminalWork(begins: bool, host: string)
    | JobWork(begins: bool, host: string)

  function Work(hosts: HO.Hosts, begins: bool, host: string): HO.Hosts {
    if !begins then HO.EndOp(hosts, host)
    else if HO.BeginOp(hosts, host).Some? then HO.BeginOp(hosts, host).value else hosts
  }

  function Next(w: World, step: Step): World {
    match step
    case Begin(t, h) => if t in w.tasks then w else w.(tasks := w.tasks[t := Task(h, Started)])
    case Advance(t, ok, disk) => if t in w.tasks then Act(w, t, ok, disk) else w
    case Request(_, after) => w.(repo := after)
    case TerminalWork(begins, host) => w.(terminals := Work(w.terminals, begins, host))
    case JobWork(begins, host) => w.(jobs := Work(w.jobs, begins, host))
  }

  function Exec(w: World, steps: seq<Step>): World
    decreases |steps|
  {
    if steps == [] then w else Exec(Next(w, steps[0]), steps[1..])
  }

  ghost predicate Erased(log: Log, h: string) { exists i :: 0 <= i < |log| && log[i].Erases? && log[i].host == h }

  /** Drawn ids are new, also among the hosts that were deleted; deleting is left to the tasks. */
  ghost predicate Admissible(w: World, step: Step) {
    step.Request? ==>
      && step.after == RS.Next(w.repo, step.step).0
      && HR.IsRequest(step.step) && RS.StepIdsNew(w.repo.state, step.step)
      && forall h | HR.DrawsHost(step.step, h) :: !Erased(w.log, h)
  }

  ghost predicate RunAdmissible(w: World, steps: seq<Step>)
    decreases |steps|
  {
    steps != [] ==> Admissible(w, steps[0]) && RunAdmissible(Next(w, steps[0]), steps[1..])
  }

  // ---- What holds in every run --------------------------------------------------------------------------

  predicate Holds(p: Place) { p.Marked? || p.CleanedUp? }

  /** Task `t` is the one that has host `h` marked. */
  predicate HoldsMark(tasks: Tasks, t: nat, h: string) { t in tasks && tasks[t].host == h && Holds(tasks[t].place) }

  /** A host is marked exactly while a task holds its mark, and then only one does. */
  ghost predicate Marks(deleting: set<string>, tasks: Tasks) {
    && (forall h :: h in deleting <==> exists t :: HoldsMark(tasks, t, h))
    && (forall t, u, h | HoldsMark(tasks, t, h) && HoldsMark(tasks, u, h) :: t == u)
  }

  predicate ShutsAt(log: Log, i: int, g: Gate, h: string) {
    0 <= i < |log| && log[i].Shuts? && log[i].gate == g && log[i].host == h
  }

  predicate OpensAt(log: Log, i: int, g: Gate, h: string) {
    0 <= i < |log| && log[i].Opens? && log[i].gate == g && log[i].host == h
  }

  /** The last thing any task did to the gate was shutting it. */
  ghost predicate LastShut(log: Log, g: Gate, h: string) {
    exists i :: ShutsAt(log, i, g, h) && forall j | i < j < |log| :: !OpensAt(log, j, g, h)
  }

  ghost predicate Gates(w: World) { forall g, h :: IsShut(w, g, h) <==> LastShut(w.log, g, h) }

  predicate By(log: Log, i: int, t: nat) { 0 <= i < |log| && log[i].task == t }

  /** The last thing task `t` did to the gate was shutting it. */
  ghost predicate OwnShut(log: Log, g: Gate, t: nat) {
    exists i :: By(log, i, t) && log[i].Shuts? && log[i].gate == g
      && forall j | i < j && By(log, j, t) :: !(log[j].Opens? && log[j].gate == g)
  }

  /** The gates a task has shut and not opened again; a successful deletion leaves them shut. */
  predicate Owns(p: Place, g: Gate) {
    match p
    case Started => false
    case Checked => false
    case Closing(x) => Rank(g) <= Rank(x)
    case Closed(x) => Rank(g) <= Rank(x)
    case Reopening(x) => Rank(g) <= Rank(x)
    case Exited(ok) => ok
    case _ => true
  }

  ghost predicate Own(tasks: Tasks, log: Log) {
    forall t, g | t in tasks :: Owns(tasks[t].place, g) <==> OwnShut(log, g, t)
  }

  /** Effects are those of the tasks, each on its own host. */
  ghost predicate Named(tasks: Tasks, log: Log) {
    forall i | 0 <= i < |log| :: log[i].task in tasks && tasks[log[i].task].host == log[i].host
  }

  ghost predicate ErasedBehind(log: Log, i: int, h: string) {
    exists j :: 0 <= j < |log| && i < j && log[j].Erases? && log[j].host == h
  }

  /** An erased host is gone for good, and a host that was checked is gone only if erased since. */
  ghost predicate Present(hosts: Hosts, log: Log) {
    && (forall h | Erased(log, h) :: !HasHost(hosts, h))
    && (forall i | 0 <= i < |log| && log[i].Checks? && !HasHost(hosts, log[i].host) ::
         ErasedBehind(log, i, log[i].host))
  }

  ghost predicate HasChecked(log: Log, t: nat) { exists i :: By(log, i, t) && log[i].Checks? }

  ghost predicate HasErased(log: Log, t: nat) { exists i :: By(log, i, t) && log[i].Erases? }

  /** Only an admitted task goes on, and a task has erased its host exactly when it exited well. */
  ghost predicate Ends(tasks: Tasks, log: Log) {
    forall t | t in tasks ::
      && (tasks[t].place in {Started, Exited(false)} || HasChecked(log, t))
      && (tasks[t].place == Exited(true) <==> HasErased(log, t))
  }

  ghost predicate Tidy(w: World) {
    && Marks(w.repo.deleting, w.tasks) && Gates(w)
    && Own(w.tasks, w.log) && Named(w.tasks, w.log) && Present(w.repo.state.hosts, w.log) && Ends(w.tasks, w.log)
  }

  ghost predicate Inv(w: World) { RR.RepoInv(w.repo) && Tidy(w) }

  // ---- One effect more ----------------------------------------------------------------------------------

  lemma LastShutMore(log: Log, e: Effect, g: Gate, h: string)
    ensures LastShut(log + [e], g, h) <==>
      if e == Shuts(g, h, e.task) then true else if e == Opens(g, h, e.task) then false else LastShut(log, g, h)
  {
    var more := log + [e];
    var n := |log|;
    if e == Shuts(g, h, e.task) { assert ShutsAt(more, n, g, h); }
    if e == Opens(g, h, e.task) { assert OpensAt(more, n, g, h); }
    if LastShut(log, g, h) && !OpensAt(more, n, g, h) {
      var i :| ShutsAt(log, i, g, h) && forall j | i < j < |log| :: !OpensAt(log, j, g, h);
      assert ShutsAt(more, i, g, h) && forall j | i < j < n :: OpensAt(more, j, g, h) == OpensAt(log, j, g, h);
    }
    if LastShut(more, g, h) && !ShutsAt(more, n, g, h) {
      var i :| ShutsAt(more, i, g, h) && forall j | i < j < |more| :: !OpensAt(more, j, g, h);
      assert ShutsAt(log, i, g, h) && forall j | i < j < n :: OpensAt(more, j, g, h) == OpensAt(log, j, g, h);
    }
  }

  lemma OwnShutMore(log: Log, e: Effect, g: Gate, t: nat)
    ensures OwnShut(log + [e], g, t) <==>
      if e == Shuts(g, e.host, t) then true else if e == Opens(g, e.host, t) then false else OwnShut(log, g, t)
  {
    var more := log + [e];
    var n := |log|;
    assert By(more, n, t) <==> e.task == t;
    if OwnShut(log, g, t) && e != Opens(g, e.host, t) {
      var i :| By(log, i, t) && log[i].Shuts? && log[i].gate == g
        && forall j | i < j && By(log, j, t) :: !(log[j].Opens? && log[j].gate == g);
      assert By(more, i, t) && forall j | j < n :: By(more, j, t) == By(log, j, t);
    }
    if OwnShut(more, g, t) && e != Shuts(g, e.host, t) {
      var i :| By(more, i, t) && more[i].Shuts? && more[i].gate == g
        && forall j | i < j && By(more, j, t) :: !(more[j].Opens? && more[j].gate == g);
      assert By(log, i, t) && forall j | j < n :: By(more, j, t) == By(log, j, t);
    }
  }

  lemma ErasedMore(log: Log, e: Effect, h: string)
    ensures Erased(log + [e], h) <==> Erased(log, h) || (e.Erases? && e.host == h)
  {
    var more := log + [e];
    assert more[|log|] == e;
    if Erased(log, h) {
      var i :| 0 <= i < |log| && log[i].Erases? && log[i].host == h;
      assert more[i] == log[i];
    }
  }

  lemma HasMore(log: Log, e: Effect, t: nat)
    ensures HasChecked(log + [e], t) <==> HasChecked(log, t) || (e.Checks? && e.task == t)
    ensures HasErased(log + [e], t) <==> HasErased(log, t) || (e.Erases? && e.task == t)
  {
    var more := log + [e];
    assert By(more, |log|, t) <==> e.task == t;
    assert forall i | i < |log| :: By(more, i, t) == By(log, i, t);
    if HasChecked(log, t) {
      var i :| By(log, i, t) && log[i].Checks?;
      assert By(more, i, t) && more[i].Checks?;
    }
    if HasErased(log, t) {
      var i :| By(log, i, t) && log[i].Erases?;
      assert By(more, i, t) && more[i].Erases?;
    }
  }

  // ---- The parts of the invariant under one change ------------------------------------------------------

  lemma MarksMove(deleting: set<string>, tasks: Tasks, t: nat, p: Place, after: set<string>)
    requires Marks(deleting, tasks) && t in tasks
    requires after == if Holds(p) then deleting + {tasks[t].host}
      else if Holds(tasks[t].place) then deleting - {tasks[t].host} else deleting
    requires Holds(p) && !Holds(tasks[t].place) ==> tasks[t].host !in deleting
    ensures Marks(after, Moved(tasks, t, p))
  {
    var moved := Moved(tasks, t, p);
    var host := tasks[t].host;
    forall u, h ensures HoldsMark(moved, u, h) <==> if u == t then h == host && Holds(p) else HoldsMark(tasks, u, h) { }
    assert HoldsMark(tasks, t, host) <==> Holds(tasks[t].place);
    forall u: nat, v: nat, h | HoldsMark(moved, u, h) && HoldsMark(moved, v, h) ensures u == v {
      assert u != t ==> HoldsMark(tasks, u, h);
      assert v != t ==> HoldsMark(tasks, v, h);
    }
    forall u, h | HoldsMark(moved, u, h) ensures h in after {
      assert u != t ==> HoldsMark(tasks, u, h);
    }
    forall h | h in after ensures exists u :: HoldsMark(moved, u, h) {
      if Holds(p) && h == host {
        assert HoldsMark(moved, t, h);
      } else {
        var u :| HoldsMark(tasks, u, h);
        assert HoldsMark(moved, u, h);
      }
    }
  }

  lemma OwnMove(tasks: Tasks, log: Log, t: nat, p: Place)
    requires Own(tasks, log) && t in tasks && forall g :: Owns(p, g) <==> Owns(tasks[t].place, g)
    ensures Own(Moved(tasks, t, p), log)
  {
  }

  lemma OwnNote(tasks: Tasks, log: Log, t: nat, p: Place, e: Effect)
    requires Own(tasks, log) && t in tasks && e.task == t
    requires forall g :: Owns(p, g) <==>
      if e == Shuts(g, e.host, t) then true else if e == Opens(g, e.host, t) then false else Owns(tasks[t].place, g)
    ensures Own(Moved(tasks, t, p), log + [e])
  {
    forall u, g | u in tasks ensures OwnShut(log + [e], g, u) <==> Owns(Moved(tasks, t, p)[u].place, g) {
      OwnShutMore(log, e, g, u);
    }
  }

  lemma NamedMove(tasks: Tasks, log: Log, t: nat, p: Place, more: Log)
    requires Named(tasks, log) && t in tasks && (more == log
      || exists e: Effect :: more == log + [e] && e.task == t && e.host == tasks[t].host)
    ensures Named(Moved(tasks, t, p), more)
  {
  }

  lemma EndsMove(tasks: Tasks, log: Log, t: nat, p: Place)
    requires Ends(tasks, log) && t in tasks && p != Exited(true) && tasks[t].place != Exited(true)
    requires p in {Started, Exited(false)} || tasks[t].place !in {Started, Exited(false)}
    ensures Ends(Moved(tasks, t, p), log)
  {
  }

  lemma EndsNote(tasks: Tasks, log: Log, t: nat, p: Place, e: Effect)
    requires Ends(tasks, log) && t in tasks && e.task == t && tasks[t].place != Exited(true)
    requires p in {Started, Exited(false)} || e.Checks? || tasks[t].place !in {Started, Exited(false)}
    requires p == Exited(true) <==> e.Erases?
    ensures Ends(Moved(tasks, t, p), log + [e])
  {
    forall u | u in tasks
      ensures HasChecked(log, u) ==> HasChecked(log + [e], u)
      ensures HasErased(log + [e], u) <==> HasErased(log, u) || (e.Erases? && u == t)
      ensures e.Checks? && u == t ==> HasChecked(log + [e], u)
    {
      HasMore(log, e, u);
    }
  }

  lemma ErasedBehindMore(log: Log, e: Effect, i: int, h: string)
    requires 0 <= i
    ensures ErasedBehind(log, i, h) ==> ErasedBehind(log + [e], i, h)
    ensures i < |log| && e.Erases? && e.host == h ==> ErasedBehind(log + [e], i, h)
  {
    var more := log + [e];
    assert more[|log|] == e;
    if ErasedBehind(log, i, h) {
      var j :| 0 <= j < |log| && i < j && log[j].Erases? && log[j].host == h;
      assert more[j] == log[j];
    }
  }

  /** A check of a present host, or an effect on the gates. */
  lemma PresentNote(hosts: Hosts, log: Log, e: Effect)
    requires Present(hosts, log) && !e.Erases? && (e.Checks? ==> HasHost(hosts, e.host))
    ensures Present(hosts, log + [e])
  {
    var more := log + [e];
    forall h | Erased(more, h) ensures !HasHost(hosts, h) { ErasedMore(log, e, h); }
    forall i | 0 <= i < |more| && more[i].Checks? && !HasHost(hosts, more[i].host)
      ensures ErasedBehind(more, i, more[i].host)
    {
      if i < |log| { assert more[i] == log[i]; ErasedBehindMore(log, e, i, log[i].host); }
    }
  }

  /** Erasing a host removes that host and no other. */
  lemma PresentErase(hosts: Hosts, log: Log, after: Hosts, e: Effect)
    requires Present(hosts, log) && e.Erases? && forall h :: HasHost(after, h) <==> HasHost(hosts, h) && h != e.host
    ensures Present(after, log + [e])
  {
    var more := log + [e];
    forall h | Erased(more, h) ensures !HasHost(after, h) { ErasedMore(log, e, h); }
    forall i | 0 <= i < |more| && more[i].Checks? && !HasHost(after, more[i].host)
      ensures ErasedBehind(more, i, more[i].host)
    {
      assert i < |log| && more[i] == log[i];
      ErasedBehindMore(log, e, i, log[i].host);
    }
  }

  lemma PresentGrows(hosts: Hosts, log: Log, after: Hosts, step: RS.Step)
    requires Present(hosts, log) && HR.GrowsBy(hosts, after, step)
      && forall h | HR.DrawsHost(step, h) :: !Erased(log, h)
    ensures Present(after, log)
  {
  }

  // ---- Every action keeps the invariant -----------------------------------------------------------------

  /** The task moves on, with or without an effect on the marks. */
  predicate MayMove(w: World, t: nat, p: Place, repo: RS.Repo) {
    t in w.tasks &&
      var (host, place) := (w.tasks[t].host, w.tasks[t].place);
      && repo.state == w.repo.state
      && (forall g :: Owns(p, g) <==> Owns(place, g)) && p != Exited(true) && place != Exited(true)
      && (p in {Started, Exited(false)} || place !in {Started, Exited(false)})
      && (Holds(p) && !Holds(place) ==> host !in w.repo.deleting)
      && repo.deleting == if Holds(p) then w.repo.deleting + {host} else if Holds(place) then w.repo.deleting - {host}
                          else w.repo.deleting
  }

  /** What one effect makes of the gates. */
  ghost predicate Effects(w: World, w': World, e: Effect) {
    && w'.log == w.log + [e]
    && forall x, y :: IsShut(w', x, y) <==>
         if e == Shuts(x, y, e.task) then true else if e == Opens(x, y, e.task) then false else IsShut(w, x, y)
  }

  predicate OwnsBehind(before: Place, after: Place, e: Effect) {
    forall g :: Owns(after, g) <==>
      if e == Shuts(g, e.host, e.task) then true else if e == Opens(g, e.host, e.task) then false else Owns(before, g)
  }

  /** The task moves on with one effect that is not on the repository. */
  ghost predicate MayNote(w: World, w': World, t: nat, p: Place, e: Effect) {
    t in w.tasks &&
      var (host, place) := (w.tasks[t].host, w.tasks[t].place);
      && e.task == t && e.host == host && !e.Erases?
      && !Holds(p) && !Holds(place) && p != Exited(true) && place != Exited(true)
      && w'.repo == w.repo && w'.tasks == Moved(w.tasks, t, p)
      && (p in {Started, Exited(false)} || e.Checks? || place !in {Started, Exited(false)})
      && (e.Checks? ==> HasHost(w.repo.state.hosts, host))
      && OwnsBehind(place, p, e) && Effects(w, w', e)
  }

  /** The task has deleted its host. */
  ghost predicate MayErase(w: World, t: nat, repo: RS.Repo) {
    && t in w.tasks && w.tasks[t].place == CleanedUp
    && repo.deleting == w.repo.deleting - {w.tasks[t].host}
    && forall h :: HasHost(repo.state.hosts, h) <==> HasHost(w.repo.state.hosts, h) && h != w.tasks[t].host
  }

  function Erase(w: World, t: nat, repo: RS.Repo): World
    requires t in w.tasks
  {
    Note(Move(w.(repo := repo), t, Exited(true)), Erases(w.tasks[t].host, t))
  }

  /** The shapes an action can take. */
  ghost predicate Acts(w: World, t: nat, w': World) {
    || w' == w
    || (exists p, repo :: MayMove(w, t, p, repo) && w' == Move(w.(repo := repo), t, p))
    || (exists p, e :: MayNote(w, w', t, p, e))
    || (exists repo :: MayErase(w, t, repo) && w' == Erase(w, t, repo))
  }

  lemma GatesNote(w: World, w': World, e: Effect)
    requires Gates(w) && Effects(w, w', e)
    ensures Gates(w')
  {
    forall x, y ensures IsShut(w', x, y) <==> LastShut(w'.log, x, y) { LastShutMore(w.log, e, x, y); }
  }

  lemma MoveKeeps(w: World, t: nat, p: Place, repo: RS.Repo)
    requires Tidy(w) && MayMove(w, t, p, repo)
    ensures Tidy(Move(w.(repo := repo), t, p))
  {
    MarksMove(w.repo.deleting, w.tasks, t, p, repo.deleting);
    OwnMove(w.tasks, w.log, t, p);
    NamedMove(w.tasks, w.log, t, p, w.log);
    EndsMove(w.tasks, w.log, t, p);
    var w' := Move(w.(repo := repo), t, p);
    assert forall x, y :: IsShut(w', x, y) == IsShut(w, x, y);
  }

  lemma NoteKeeps(w: World, w': World, t: nat, p: Place, e: Effect)
    requires Tidy(w) && MayNote(w, w', t, p, e)
    ensures Tidy(w')
  {
    MarksMove(w.repo.deleting, w.tasks, t, p, w.repo.deleting);
    OwnNote(w.tasks, w.log, t, p, e);
    NamedMove(w.tasks, w.log, t, p, w.log + [e]);
    PresentNote(w.repo.state.hosts, w.log, e);
    EndsNote(w.tasks, w.log, t, p, e);
    GatesNote(w, w', e);
  }

  lemma EraseKeeps(w: World, t: nat, repo: RS.Repo)
    requires Tidy(w) && MayErase(w, t, repo)
    ensures Tidy(Erase(w, t, repo))
  {
    var e := Erases(w.tasks[t].host, t);
    var w' := Erase(w, t, repo);
    MarksMove(w.repo.deleting, w.tasks, t, Exited(true), repo.deleting);
    OwnNote(w.tasks, w.log, t, Exited(true), e);
    NamedMove(w.tasks, w.log, t, Exited(true), w.log + [e]);
    PresentErase(w.repo.state.hosts, w.log, repo.state.hosts, e);
    EndsNote(w.tasks, w.log, t, Exited(true), e);
    assert forall x, y :: IsShut(w', x, y) == IsShut(w, x, y);
    GatesNote(w, w', e);
  }

  lemma ActsKeeps(w: World, t: nat, w': World)
    requires Tidy(w) && Acts(w, t, w')
    ensures Tidy(w')
  {
    if w' != w {
      if p, repo :| MayMove(w, t, p, repo) && w' == Move(w.(repo := repo), t, p) {
        MoveKeeps(w, t, p, repo);
      } else if p, e :| MayNote(w, w', t, p, e) {
        NoteKeeps(w, w', t, p, e);
      } else {
        var repo :| MayErase(w, t, repo) && w' == Erase(w, t, repo);
        EraseKeeps(w, t, repo);
      }
    }
  }

  // ---- The shape of each action -------------------------------------------------------------------------

  lemma ShutActs(w: World, t: nat, g: Gate)
    requires t in w.tasks && w.tasks[t].place
      == (match g case Transfers => Checked case Terminals => Closed(Transfers) case Jobs => Closed(Terminals))
    ensures Acts(w, t, Shut(w, t, g))
  {
    assert MayNote(w, Shut(w, t, g), t, Closing(g), Shuts(g, w.tasks[t].host, t));
  }

  lemma OpenActs(w: World, t: nat, g: Gate)
    requires t in w.tasks && w.tasks[t].place == Reopening(g)
    ensures Acts(w, t, Open(w, t, g))
  {
    var next := match g case Jobs => Reopening(Terminals) case Terminals => Reopening(Transfers)
      case Transfers => Exited(false);
    assert MayNote(w, Open(w, t, g), t, next, Opens(g, w.tasks[t].host, t));
  }

  lemma CheckedHasHost(s: PersistedState, id: string)
    requires CheckDeletable(s, id).None?
    ensures HasHost(s.hosts, id)
  {
    var k := IndexOfId(s.hosts, id).value;
    assert s.hosts[k] in s.hosts;
  }

  lemma MoveActs(w: World, t: nat, p: Place, repo: RS.Repo)
    requires MayMove(w, t, p, repo)
    ensures Acts(w, t, Move(w.(repo := repo), t, p))
  {
  }

  lemma CheckActs(w: World, t: nat)
    requires t in w.tasks && w.tasks[t].place == Started
    ensures Acts(w, t, Check(w, t))
  {
    var h := w.tasks[t].host;
    if Deletable(w.repo, h) {
      var w' := Note(Move(w, t, Checked), Checks(h, t));
      CheckedHasHost(w.repo.state, h);
      assert forall x, y :: IsShut(w', x, y) == IsShut(w, x, y);
      assert MayNote(w, w', t, Checked, Checks(h, t));
    } else {
      MoveActs(w, t, Exited(false), w.repo);
    }
  }

  lemma BeginFacts(r: RS.Repo, id: string)
    requires RR.RepoInv(r)
    ensures var (r', failed) := RS.MarkHost(r, id);
      && RR.RepoInv(r') && r'.state == r.state && (failed.None? <==> Deletable(r, id))
      && r'.deleting == if failed.None? then r.deleting + {id} else r.deleting
  {
    RR.NextKeeps(r, RS.BeginDeletion(id));
  }

  lemma AbortFacts(r: RS.Repo, id: string)
    requires RR.RepoInv(r)
    ensures var r' := RS.UnmarkHost(r, id);
      RR.RepoInv(r') && r'.state == r.state && r'.deleting == r.deleting - {id}
  {
    RR.NextKeeps(r, RS.AbortDeletion(id));
  }

  lemma FinishFacts(r: RS.Repo, id: string, disk: Option<Error>)
    requires RR.RepoInv(r) && id in r.deleting
    ensures var (r', failed) := RS.EraseHost(r, id, disk);
      && RR.RepoInv(r') && r'.deleting == r.deleting - {id}
      && r'.state == (if failed.None? then WithoutHost(r.state, id) else r.state)
  {
    RR.NextKeeps(r, RS.FinishDeletion(id, disk));
    RR.FinishDeletionSteps(r, id, disk);
  }

  lemma WithoutHostHas(s: PersistedState, id: string)
    ensures forall h :: HasHost(WithoutHost(s, id).hosts, h) <==> HasHost(s.hosts, h) && h != id
  {
    forall h | HasHost(s.hosts, h) && h != id ensures HasHost(WithoutHost(s, id).hosts, h) {
      var x :| x in s.hosts && x.id == h;
      assert x in WithoutHost(s, id).hosts;
    }
  }

  lemma MarkActs(w: World, t: nat, repo: RS.Repo)
    requires t in w.tasks && w.tasks[t].place == Closed(Jobs) && repo.state == w.repo.state
    ensures repo.deleting == w.repo.deleting ==> Acts(w, t, Move(w.(repo := repo), t, Reopening(Jobs)))
    ensures repo.deleting == w.repo.deleting + {w.tasks[t].host} && w.tasks[t].host !in w.repo.deleting ==>
              Acts(w, t, Move(w.(repo := repo), t, Marked))
  {
    if repo.deleting == w.repo.deleting { MoveActs(w, t, Reopening(Jobs), repo); }
    else if repo.deleting == w.repo.deleting + {w.tasks[t].host} && w.tasks[t].host !in w.repo.deleting {
      MoveActs(w, t, Marked, repo);
    }
  }

  lemma UnmarkActs(w: World, t: nat, repo: RS.Repo)
    requires t in w.tasks && Holds(w.tasks[t].place) && repo.state == w.repo.state
    requires repo.deleting == w.repo.deleting - {w.tasks[t].host}
    ensures Acts(w, t, Move(w.(repo := repo), t, Reopening(Jobs)))
  {
    MoveActs(w, t, Reopening(Jobs), repo);
  }

  lemma StayMarkedActs(w: World, t: nat)
    requires t in w.tasks && w.tasks[t].place == Marked && w.tasks[t].host in w.repo.deleting
    ensures Acts(w, t, Move(w, t, CleanedUp))
  {
    assert w.repo.deleting + {w.tasks[t].host} == w.repo.deleting;
    MoveActs(w, t, CleanedUp, w.repo);
  }

  lemma TryMarkActs(w: World, t: nat)
    requires RR.RepoInv(w.repo) && t in w.tasks && w.tasks[t].place == Closed(Jobs)
    ensures Acts(w, t, TryMark(w, t))
  {
    BeginFacts(w.repo, w.tasks[t].host);
    MarkActs(w, t, RS.MarkHost(w.repo, w.tasks[t].host).0);
  }

  lemma AbortMarkActs(w: World, t: nat)
    requires RR.RepoInv(w.repo) && t in w.tasks && w.tasks[t].place == Marked
    ensures Acts(w, t, AbortMark(w, t))
  {
    AbortFacts(w.repo, w.tasks[t].host);
    UnmarkActs(w, t, RS.UnmarkHost(w.repo, w.tasks[t].host));
  }

  lemma FinishActs(w: World, t: nat, disk: Option<Error>)
    requires RR.RepoInv(w.repo) && t in w.tasks && w.tasks[t].place == CleanedUp && w.tasks[t].host in w.repo.deleting
    ensures Acts(w, t, Finish(w, t, disk))
  {
    var h := w.tasks[t].host;
    FinishFacts(w.repo, h, disk);
    var out := RS.EraseHost(w.repo, h, disk);
    if out.1.None? {
      WithoutHostHas(w.repo.state, h);
      assert MayErase(w, t, out.0) && Finish(w, t, disk) == Erase(w, t, out.0);
    } else {
      UnmarkActs(w, t, out.0);
    }
  }

  lemma GateActs(w: World, t: nat, ok: bool)
    requires t in w.tasks && AtGate(w.tasks[t].place)
    ensures Acts(w, t, GateAct(w, t, ok)) && GateAct(w, t, ok).repo == w.repo
  {
    match w.tasks[t].place
    case Checked => ShutActs(w, t, Transfers);
    case Closing(g) => MoveActs(w, t, if ok then Closed(g) else Reopening(g), w.repo);
    case Closed(g) => ShutActs(w, t, if g.Transfers? then Terminals else Jobs);
    case Reopening(g) => OpenActs(w, t, g);
  }

  lemma HolderIsMarked(w: World, t: nat)
    requires Tidy(w) && t in w.tasks && Holds(w.tasks[t].place)
    ensures w.tasks[t].host in w.repo.deleting
  {
    assert HoldsMark(w.tasks, t, w.tasks[t].host);
  }

  lemma TryMarkKeeps(w: World, t: nat)
    requires Inv(w) && t in w.tasks && w.tasks[t].place == Closed(Jobs)
    ensures Inv(TryMark(w, t))
  {
    BeginFacts(w.repo, w.tasks[t].host);
    TryMarkActs(w, t);
    ActsKeeps(w, t, TryMark(w, t));
  }

  lemma AbortMarkKeeps(w: World, t: nat)
    requires Inv(w) && t in w.tasks && w.tasks[t].place == Marked
    ensures Inv(AbortMark(w, t)) && Inv(Move(w, t, CleanedUp))
  {
    HolderIsMarked(w, t);
    AbortFacts(w.repo, w.tasks[t].host);
    AbortMarkActs(w, t);
    ActsKeeps(w, t, AbortMark(w, t));
    StayMarkedActs(w, t);
    ActsKeeps(w, t, Move(w, t, CleanedUp));
  }

  lemma FinishKeeps(w: World, t: nat, disk: Option<Error>)
    requires Inv(w) && t in w.tasks && w.tasks[t].place == CleanedUp
    ensures Inv(Finish(w, t, disk))
  {
    HolderIsMarked(w, t);
    FinishFacts(w.repo, w.tasks[t].host, disk);
    FinishActs(w, t, disk);
    ActsKeeps(w, t, Finish(w, t, disk));
  }

  lemma GateKeeps(w: World, t: nat, ok: bool)
    requires Inv(w) && t in w.tasks && AtGate(w.tasks[t].place)
    ensures Inv(GateAct(w, t, ok))
  {
    GateActs(w, t, ok);
    ActsKeeps(w, t, GateAct(w, t, ok));
  }

  lemma CheckKeeps(w: World, t: nat)
    requires Inv(w) && t in w.tasks && w.tasks[t].place == Started
    ensures Inv(Check(w, t))
  {
    CheckActs(w, t);
    ActsKeeps(w, t, Check(w, t));
  }

  lemma ActKeeps(w: World, t: nat, ok: bool, disk: Option<Error>)
    requires Inv(w) && t in w.tasks
    ensures Inv(Act(w, t, ok, disk))
  {
    var p := w.tasks[t].place;
    if AtGate(p) { GateKeeps(w, t, ok); }
    else if p.Started? { CheckKeeps(w, t); }
    else if p.Closed? { TryMarkKeeps(w, t); }
    else if p.Marked? { AbortMarkKeeps(w, t); }
    else if p.CleanedUp? { FinishKeeps(w, t, disk); }
  }

  // ---- The other steps ----------------------------------------------------------------------------------

  lemma RequestTidy(w: World, repo: RS.Repo, step: RS.Step)
    requires Tidy(w) && repo.deleting == w.repo.deleting
    requires HR.GrowsBy(w.repo.state.hosts, repo.state.hosts, step)
      && forall h | HR.DrawsHost(step, h) :: !Erased(w.log, h)
    ensures Tidy(w.(repo := repo))
  {
    var w' := w.(repo := repo);
    PresentGrows(w.repo.state.hosts, w.log, repo.state.hosts, step);
    assert forall x, y :: IsShut(w', x, y) == IsShut(w, x, y);
  }

  lemma RequestKeeps(w: World, s: RS.Step, after: RS.Repo)
    requires Inv(w) && Admissible(w, Request(s, after))
    ensures Inv(Next(w, Request(s, after)))
  {
    RR.NextKeeps(w.repo, s);
    HR.RequestKeepsHosts(w.repo, s);
    RequestTidy(w, after, s);
  }

  lemma WorkKeepsRetired(hosts: HO.Hosts, begins: bool, host: string)
    ensures forall id :: HO.IsRetired(Work(hosts, begins, host), id) == HO.IsRetired(hosts, id)
  {
  }

  lemma GatesSame(w: World, w': World)
    requires Inv(w) && w'.repo == w.repo && w'.tasks == w.tasks && w'.log == w.log
    requires forall x, y :: IsShut(w', x, y) == IsShut(w, x, y)
    ensures Inv(w')
  {
  }

  lemma NoEffectsYet(tasks: Tasks, log: Log, t: nat)
    requires Named(tasks, log) && t !in tasks
    ensures !HasChecked(log, t) && !HasErased(log, t) && forall g :: !OwnShut(log, g, t)
  {
  }

  lemma MarksBegin(deleting: set<string>, tasks: Tasks, t: nat, h: string)
    requires Marks(deleting, tasks) && t !in tasks
    ensures Marks(deleting, tasks[t := Task(h, Started)])
  {
    var more := tasks[t := Task(h, Started)];
    forall u, x ensures HoldsMark(more, u, x) == HoldsMark(tasks, u, x) { }
    forall x ensures x in deleting <==> exists u :: HoldsMark(more, u, x) {
      assert (exists u :: HoldsMark(more, u, x)) <==> exists u :: HoldsMark(tasks, u, x);
    }
    forall u: nat, v: nat, x | HoldsMark(more, u, x) && HoldsMark(more, v, x) ensures u == v {
      assert HoldsMark(tasks, u, x) && HoldsMark(tasks, v, x);
    }
  }

  lemma TasksBegin(tasks: Tasks, log: Log, t: nat, h: string)
    requires Own(tasks, log) && Named(tasks, log) && Ends(tasks, log) && t !in tasks
    ensures var more := tasks[t := Task(h, Started)]; Own(more, log) && Named(more, log) && Ends(more, log)
  {
    NoEffectsYet(tasks, log, t);
  }

  lemma BeginKeeps(w: World, t: nat, h: string)
    requires Inv(w) && t !in w.tasks
    ensures Inv(Next(w, Begin(t, h)))
  {
    var w' := w.(tasks := w.tasks[t := Task(h, Started)]);
    MarksBegin(w.repo.deleting, w.tasks, t, h);
    TasksBegin(w.tasks, w.log, t, h);
    assert forall x, y :: IsShut(w', x, y) == IsShut(w, x, y);
  }

  lemma WorkKeeps(w: World, step: Step)
    requires Inv(w) && (step.TerminalWork? || step.JobWork?)
    ensures Inv(Next(w, step))
  {
    WorkKeepsRetired(if step.TerminalWork? then w.terminals else w.jobs, step.begins, step.host);
    GatesSame(w, Next(w, step));
  }

  lemma NextKeeps(w: World, step: Step)
    requires Inv(w) && Admissible(w, step)
    ensures Inv(Next(w, step))
  {
    match step
    case Begin(t, h) => if t !in w.tasks { BeginKeeps(w, t, h); }
    case Advance(t, ok, disk) => if t in w.tasks { ActKeeps(w, t, ok, disk); }
    case Request(s, after) => RequestKeeps(w, s, after);
    case TerminalWork(_, _) => WorkKeeps(w, step);
    case JobWork(_, _) => WorkKeeps(w, step);
  }

  lemma {:induction false} ExecKeeps(w: World, steps: seq<Step>)
    requires Inv(w) && RunAdmissible(w, steps)
    ensures Inv(Exec(w, steps))
    decreases |steps|
  {
    if steps != [] {
      NextKeeps(w, steps[0]);
      ExecKeeps(Next(w, steps[0]), steps[1..]);
    }
  }

  /** A server that has just opened its repository. */
  function Fresh(repo: RS.Repo): World { World(repo, {}, map[], map[], map[], []) }

  lemma FreshInv(repo: RS.Repo)
    requires RR.RepoInv(repo) && repo.deleting == {}
    ensures Inv(Fresh(repo))
  {
    var w := Fresh(repo);
    assert forall t, h :: !HoldsMark(w.tasks, t, h);
    assert forall x, y :: !IsShut(w, x, y);
  }

  // ---- What every run guarantees --------------------------------------------------------------------------

  /** Some other task holds the mark of the host. */
  ghost predicate MarkedByOther(w: World, t: nat, h: string) { exists u :: u != t && HoldsMark(w.tasks, u, h) }

  /** Since task `t` checked the host, another task has deleted it. */
  ghost predicate ErasedByOther(log: Log, t: nat, h: string) {
    exists i, j :: By(log, i, t) && log[i].Checks? && i < j < |log| && log[j].Erases? && log[j].host == h
      && log[j].task != t
  }

  /** The last one to shut the gate, with nobody opening it since, was another task. */
  ghost predicate ShutByOther(log: Log, t: nat, g: Gate, h: string) {
    exists i :: ShutsAt(log, i, g, h) && log[i].task != t && forall j | i < j < |log| :: !OpensAt(log, j, g, h)
  }

  /** Another task has opened the gate since `t` shut it, and nobody has shut it again. */
  ghost predicate OpenedByOther(log: Log, t: nat, g: Gate, h: string) {
    exists i, j :: ShutsAt(log, i, g, h) && log[i].task == t && i < j && OpensAt(log, j, g, h) && log[j].task != t
      && forall k | j < k < |log| :: !ShutsAt(log, k, g, h)
  }

  /** As far as deletion `t` is concerned, nothing has been done to its host: it is marked exactly if
      another deletion holds the mark, present exactly if no other one has deleted it since the
      check, and shut out exactly where another one shut it last. */
  ghost predicate RolledBack(w: World, t: nat)
    requires t in w.tasks
  {
    var h := w.tasks[t].host;
    && (h in w.repo.deleting <==> MarkedByOther(w, t, h))
    && (HasChecked(w.log, t) ==> (HasHost(w.repo.state.hosts, h) <==> !ErasedByOther(w.log, t, h)))
    && (forall g :: IsShut(w, g, h) <==> ShutByOther(w.log, t, g, h))
  }

  /** The mark is held by `t` alone, and a gate of the host is open exactly if another deletion has
      opened it behind the back of `t` and nobody has shut it again. */
  ghost predicate HoldsAlone(w: World, t: nat)
    requires t in w.tasks
  {
    var h := w.tasks[t].host;
    && h in w.repo.deleting && !MarkedByOther(w, t, h)
    && (forall g :: !IsShut(w, g, h) <==> OpenedByOther(w.log, t, g, h))
  }

  /** What is not there is not mentioned either. */
  lemma GoneIsForgotten(s: PersistedState, id: string)
    requires Sound(s) && !HasHost(s.hosts, id)
    ensures RR.Forgotten(s, id)
  {
    forall h | h in s.hosts ensures h.id != id && h.proxyJump != Some(id) {
      if h.proxyJump.Some? {
        var i :| 0 <= i < |s.hosts| && s.hosts[i] == h;
        var j: nat :| JumpsTo(s.hosts, i, j);
        assert s.hosts[j] in s.hosts;
      }
    }
  }

  lemma SuccessIsGone(w: World, t: nat)
    requires Tidy(w) && t in w.tasks && w.tasks[t].place == Exited(true)
    ensures !HasHost(w.repo.state.hosts, w.tasks[t].host)
  {
    var i :| By(w.log, i, t) && w.log[i].Erases?;
    assert Erased(w.log, w.tasks[t].host);
  }

  /** A deletion that succeeded: from then on nothing mentions the host, and nobody can mark it. */
  lemma SuccessForgets(w: World, t: nat)
    requires Inv(w) && t in w.tasks && w.tasks[t].place == Exited(true)
    ensures RR.Forgotten(w.repo.state, w.tasks[t].host) && w.tasks[t].host !in w.repo.deleting
  {
    SuccessIsGone(w, t);
    GoneIsForgotten(w.repo.state, w.tasks[t].host);
  }

  lemma FailureMark(w: World, t: nat)
    requires Tidy(w) && t in w.tasks && !Holds(w.tasks[t].place)
    ensures w.tasks[t].host in w.repo.deleting <==> MarkedByOther(w, t, w.tasks[t].host)
  {
    var h := w.tasks[t].host;
    assert !HoldsMark(w.tasks, t, h);
    if h in w.repo.deleting {
      var u :| HoldsMark(w.tasks, u, h);
      assert u != t;
    }
  }

  lemma FailurePresence(w: World, t: nat)
    requires Tidy(w) && t in w.tasks && w.tasks[t].place != Exited(true) && HasChecked(w.log, t)
    ensures HasHost(w.repo.state.hosts, w.tasks[t].host) <==> !ErasedByOther(w.log, t, w.tasks[t].host)
  {
    var h := w.tasks[t].host;
    var i :| By(w.log, i, t) && w.log[i].Checks?;
    if !HasHost(w.repo.state.hosts, h) {
      assert ErasedBehind(w.log, i, h);
      var j :| 0 <= j < |w.log| && i < j && w.log[j].Erases? && w.log[j].host == h;
      assert By(w.log, j, w.log[j].task) && HasErased(w.log, w.log[j].task);
    }
    if ErasedByOther(w.log, t, h) { assert Erased(w.log, h); }
  }

  lemma LastIsOwn(tasks: Tasks, log: Log, i: int, t: nat, g: Gate)
    requires Named(tasks, log) && t in tasks && ShutsAt(log, i, g, tasks[t].host) && log[i].task == t
    requires forall j | i < j < |log| :: !OpensAt(log, j, g, tasks[t].host)
    ensures OwnShut(log, g, t)
  {
    assert By(log, i, t);
    forall j | i < j && By(log, j, t) ensures !(log[j].Opens? && log[j].gate == g) {
      assert !OpensAt(log, j, g, tasks[t].host);
    }
  }

  lemma FailureGates(w: World, t: nat, g: Gate)
    requires Tidy(w) && t in w.tasks && !Owns(w.tasks[t].place, g)
    ensures IsShut(w, g, w.tasks[t].host) <==> ShutByOther(w.log, t, g, w.tasks[t].host)
  {
    var h := w.tasks[t].host;
    if LastShut(w.log, g, h) {
      var i :| ShutsAt(w.log, i, g, h) && forall j | i < j < |w.log| :: !OpensAt(w.log, j, g, h);
      if w.log[i].task == t {
        LastIsOwn(w.tasks, w.log, i, t, g);
        assert false;
      }
    }
    if ShutByOther(w.log, t, g, h) {
      var i :| ShutsAt(w.log, i, g, h) && w.log[i].task != t && forall j | i < j < |w.log| :: !OpensAt(w.log, j, g, h);
      assert LastShut(w.log, g, h);
    }
  }

  /** A deletion that has failed is rolled back, at any later moment and whatever other deletions of
      the host are under way. */
  lemma FailureRollsBack(w: World, t: nat)
    requires Inv(w) && t in w.tasks && w.tasks[t].place == Exited(false)
    ensures RolledBack(w, t)
  {
    FailureMark(w, t);
    if HasChecked(w.log, t) { FailurePresence(w, t); }
    forall g ensures IsShut(w, g, w.tasks[t].host) <==> ShutByOther(w.log, t, g, w.tasks[t].host) {
      FailureGates(w, t, g);
    }
  }

  lemma OwnersGate(w: World, t: nat, g: Gate)
    requires Tidy(w) && t in w.tasks && Owns(w.tasks[t].place, g)
    ensures !IsShut(w, g, w.tasks[t].host) <==> OpenedByOther(w.log, t, g, w.tasks[t].host)
  {
    var h := w.tasks[t].host;
    var log := w.log;
    var i :| By(log, i, t) && log[i].Shuts? && log[i].gate == g
      && forall j | i < j && By(log, j, t) :: !(log[j].Opens? && log[j].gate == g);
    assert ShutsAt(log, i, g, h);
    if !LastShut(log, g, h) { UndoneByOther(log, i, t, g, h); }
    if b :| OpensAt(log, b, g, h) && forall k | b < k < |log| :: !ShutsAt(log, k, g, h) { OpenedLast(log, b, g, h); }
  }

  lemma OpenedLast(log: Log, b: int, g: Gate, h: string)
    requires OpensAt(log, b, g, h) && forall k | b < k < |log| :: !ShutsAt(log, k, g, h)
    ensures !LastShut(log, g, h)
  {
    forall i | ShutsAt(log, i, g, h) ensures i < b { }
  }

  /** If the gate is not shut last, there is a last opening behind any shutting. */
  lemma {:induction false} LastOpening(log: Log, i: int, g: Gate, h: string) returns (j: int)
    requires ShutsAt(log, i, g, h) && !LastShut(log, g, h)
    ensures i < j && OpensAt(log, j, g, h) && forall k | j < k < |log| :: !ShutsAt(log, k, g, h)
    decreases |log| - i
  {
    j :| i < j < |log| && OpensAt(log, j, g, h);
    if k :| j < k < |log| && ShutsAt(log, k, g, h) { j := LastOpening(log, k, g, h); }
  }

  lemma UndoneByOther(log: Log, i: int, t: nat, g: Gate, h: string)
    requires ShutsAt(log, i, g, h) && log[i].task == t && !LastShut(log, g, h)
    requires forall j | i < j && By(log, j, t) :: !(log[j].Opens? && log[j].gate == g)
    ensures OpenedByOther(log, t, g, h)
  {
    var j := LastOpening(log, i, g, h);
    assert log[j].task == t ==> By(log, j, t);
  }

  /** A deletion that has its host marked. */
  lemma HolderFindsShut(w: World, t: nat)
    requires Inv(w) && t in w.tasks && Holds(w.tasks[t].place)
    ensures HoldsAlone(w, t)
  {
    assert HoldsMark(w.tasks, t, w.tasks[t].host);
    forall g ensures !IsShut(w, g, w.tasks[t].host) <==> OpenedByOther(w.log, t, g, w.tasks[t].host) {
      OwnersGate(w, t, g);
    }
  }

  /** No other deletion of the host was ever begun. */
  predicate Alone(w: World, t: nat) {
    t in w.tasks && forall u | u in w.tasks && u != t :: w.tasks[u].host != w.tasks[t].host
  }

  /** The exits of a deletion that is the only one of its host: the host is gone and forgotten, or it
      is as if nothing had been done. */
  lemma AloneDeletedOrRestored(w: World, t: nat)
    requires Inv(w) && Alone(w, t) && w.tasks[t].place.Exited?
    ensures var h := w.tasks[t].host;
      && h !in w.repo.deleting
      && (if w.tasks[t].place.ok then RR.Forgotten(w.repo.state, h)
          else (forall g :: !IsShut(w, g, h)) && (HasChecked(w.log, t) ==> HasHost(w.repo.state.hosts, h)))
  {
    if w.tasks[t].place.ok { SuccessForgets(w, t); } else { FailureRollsBack(w, t); }
  }

  /** Every run of any number of deletions among other requests: at most one deletion of a host holds
      its mark; while it does, it holds it alone; one that succeeded has left no mention of the host;
      one that failed is rolled back. */
  lemma EveryRun(repo: RS.Repo, steps: seq<Step>, t: nat)
    requires RR.RepoInv(repo) && repo.deleting == {} && RunAdmissible(Fresh(repo), steps)
    ensures var w := Exec(Fresh(repo), steps);
      && Marks(w.repo.deleting, w.tasks)
      && (t in w.tasks && Holds(w.tasks[t].place) ==> HoldsAlone(w, t))
      && (t in w.tasks && w.tasks[t].place == Exited(true) ==>
            RR.Forgotten(w.repo.state, w.tasks[t].host) && w.tasks[t].host !in w.repo.deleting)
      && (t in w.tasks && w.tasks[t].place == Exited(false) ==> RolledBack(w, t))
  {
    FreshInv(repo);
    ExecKeeps(Fresh(repo), steps);
    RunEnds(Exec(Fresh(repo), steps), t);
  }

  lemma RunEnds(w: World, t: nat)
    requires Inv(w)
    ensures t in w.tasks && Holds(w.tasks[t].place) ==> HoldsAlone(w, t)
    ensures t in w.tasks && w.tasks[t].place == Exited(true) ==>
      RR.Forgotten(w.repo.state, w.tasks[t].host) && w.tasks[t].host !in w.repo.deleting
    ensures t in w.tasks && w.tasks[t].place == Exited(false) ==> RolledBack(w, t)
  {
    if t in w.tasks {
      if Holds(w.tasks[t].place) { HolderFindsShut(w, t); }
      if w.tasks[t].place == Exited(true) { SuccessForgets(w, t); }
      if w.tasks[t].place == Exited(false) { FailureRollsBack(w, t); }
    }
  }

  lemma FinishSucceeds(r: RS.Repo, id: string, disk: Option<Error>)
    requires RR.RepoInv(r) && id in r.deleting && CheckDeletable(r.state, id).None?
    ensures RS.EraseHost(r, id, disk).1 == disk
  {
    RR.FinishDeletionSteps(r, id, disk);
    RR.SmallerPersists(r.state, id, disk);
  }

  lemma EraseFailsOnlyOnDisk(r: RS.Repo, id: string, disk: Option<Error>)
    requires RR.RepoInv(r) && id in r.deleting && RR.AliasesAreNotIds(r.state.hosts)
    ensures RS.EraseHost(r, id, disk).1 == disk
  {
    RR.PlainAliasesNeverShadow(r.state.hosts, id);
    RR.DeletableUnlessShadowed(r.state, id);
    FinishSucceeds(r, id, disk);
  }

  /** The last step of a deletion that holds the mark can be refused only by the disk, as long as no
      alias is spelled like an id. */
  lemma LastStepFailsOnlyOnDisk(w: World, t: nat, disk: Option<Error>)
    requires Inv(w) && t in w.tasks && w.tasks[t].place == CleanedUp && RR.AliasesAreNotIds(w.repo.state.hosts)
    ensures Finish(w, t, disk).tasks[t].place == if disk.None? then Exited(true) else Reopening(Jobs)
  {
    HolderIsMarked(w, t);
    EraseFailsOnlyOnDisk(w.repo, w.tasks[t].host, disk);
  }

  // ---- The code ----------------------------------------------------------------------------------------

  /** Nothing is different for the other hosts. */
  ghost predicate OthersSame(w: World, w': World, id: string) {
    forall g, h | h != id :: IsShut(w', g, h) == IsShut(w, g, h)
  }

  class DeletionTask {
    var repo: RS.Repo
    var transfers: set<string>
    var terminals: HO.Hosts
    var jobs: HO.Hosts

    constructor (repo: RS.Repo, transfers: set<string>, terminals: HO.Hosts, jobs: HO.Hosts)
      ensures Value() == World(repo, transfers, terminals, jobs, map[], [])
    {
      this.repo, this.transfers, this.terminals, this.jobs := repo, transfers, terminals, jobs;
    }

    ghost function Value(): World
      reads this
    {
      World(repo, transfers, terminals, jobs, map[], [])
    }

    /** The gates a deletion comes to shut, given how the waits behind the first two end. */
    static predicate Reached(g: Gate, transfersStop: bool, terminalsStop: bool) {
      match g
      case Transfers => true
      case Terminals => transfersStop
      case Jobs => transfersStop && terminalsStop
    }

    /** `delete_host` with nothing in between; the flags are the outcomes of the waits. */
    method DeleteHost(id: string, transfersStop: bool, terminalsStop: bool, jobsStop: bool, tunnelsStop: bool,
                      telemetryStops: bool, disk: Option<Error>) returns (deleted: bool)
      requires RR.RepoInv(repo)
      modifies this
      ensures RR.RepoInv(repo) && OthersSame(old(Value()), Value(), id)
      ensures deleted <==> Deletable(old(repo), id) && transfersStop && terminalsStop && jobsStop && tunnelsStop
                           && telemetryStops && disk.None?
      ensures deleted ==>
        RR.Forgotten(repo.state, id) && repo.deleting == old(repo.deleting) && forall g :: IsShut(Value(), g, id)
      ensures !deleted ==> repo.state == old(repo.state) && repo.deleting == old(repo.deleting)
      ensures !Deletable(old(repo), id) ==> Value() == old(Value())
      ensures !deleted && Deletable(old(repo), id) ==>
        forall g :: IsShut(Value(), g, id) <==> !Reached(g, transfersStop, terminalsStop) && old(IsShut(Value(), g, id))
    {
      var refused := id in repo.deleting || CheckDeletable(repo.state, id).Some?;
      if refused {
        return false;
      }
      var retired := RetireRuntime(id, transfersStop, terminalsStop, jobsStop);
      if !retired {
        return false;
      }
      ghost var before := Value();
      deleted := Remove(id, tunnelsStop && telemetryStops, disk);
      assert forall g, h :: IsShut(Value(), g, h) == IsShut(before, g, h);
      if !deleted {
        Reopen(id);
      }
    }

    /** The first half: shutting the three places, each followed by a wait. */
    method RetireRuntime(id: string, transfersStop: bool, terminalsStop: bool, jobsStop: bool) returns (retired: bool)
      modifies this`transfers, this`terminals, this`jobs
      ensures OthersSame(old(Value()), Value(), id)
      ensures retired <==> transfersStop && terminalsStop && jobsStop
      ensures retired ==> forall g :: IsShut(Value(), g, id)
      ensures !retired ==>
        forall g :: IsShut(Value(), g, id) <==> !Reached(g, transfersStop, terminalsStop) && old(IsShut(Value(), g, id))
    {
      transfers := transfers + {id};
      if !transfersStop {
        transfers := transfers - {id};
        return false;
      }
      terminals := HO.RetireHost(terminals, id);
      if !terminalsStop {
        terminals := HO.RestoreHost(terminals, id);
        transfers := transfers - {id};
        return false;
      }
      jobs := HO.RetireHost(jobs, id);
      if !jobsStop {
        Reopen(id);
        return false;
      }
      return true;
    }

    /** The second half: marking, cleaning up, deleting. */
    method Remove(id: string, cleaned: bool, disk: Option<Error>) returns (deleted: bool)
      requires RR.RepoInv(repo) && Deletable(repo, id)
      modifies this`repo
      ensures RR.RepoInv(repo) && repo.deleting == old(repo.deleting)
      ensures deleted <==> cleaned && disk.None?
      ensures if deleted then RR.Forgotten(repo.state, id) else repo.state == old(repo.state)
    {
      BeginFacts(repo, id);
      var (marked, notMarked) := RS.MarkHost(repo, id);
      repo := marked;
      // With nothing in between, the host is still deletable and the mark cannot be refused.
      assert notMarked.None?;
      if !cleaned {
        AbortFacts(repo, id);
        repo := RS.UnmarkHost(repo, id);
        return false;
      }
      FinishFacts(repo, id, disk);
      FinishSucceeds(repo, id, disk);
      WithoutHostHas(repo.state, id);
      var (finished, failed) := RS.EraseHost(repo, id, disk);
      repo := finished;
      deleted := failed.None?;
      if deleted {
        GoneIsForgotten(repo.state, id);
      }
    }

    /** `restore_host` everywhere, in the order of every rollback. */
    method Reopen(id: string)
      modifies this`transfers, this`terminals, this`jobs
      ensures OthersSame(old(Value()), Value(), id) && forall g :: !IsShut(Value(), g, id)
    {
      jobs := HO.RestoreHost(jobs, id);
      terminals := HO.RestoreHost(terminals, id);
      transfers := transfers - {id};
    }
  }
}
