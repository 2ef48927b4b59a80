/** Deleting hosts on top of the tables it works on: the gates of the terminals and of the command jobs
    are the barriers of those tables, and a deletion waits behind each of them for the retirement it
    has started there. */
module DeletionTables {
  import opened Prelude
  import HD = HostDeletion
  import TR = TerminalRetirement
  import TS = TerminalSlots
  import CJ = CommandJobs
  import JR = JobRetirement
  import HO = HostOperations
  import RS = RepositorySteps
  import RR = RepositoryRuns
  import Profiles

  /** The deletions, the terminals and the command jobs of one server. */
  datatype Server = Server(deletions: HD.World, terminals: TR.Floor, jobs: CJ.World)

  /** Shutting and opening a gate is left to the deletions. */
  datatype Step =
    | Deletion(act: HD.Step)
    | Terminal(move: TR.Move)
    | Job(action: CJ.Step)

  /** What a deletion waits for is the end of its retirement. */
  predicate Answered(w: Server, t: nat, ok: bool) {
    t in w.deletions.tasks &&
      match w.deletions.tasks[t].place
      case Closing(Terminals) => TR.At(w.terminals, t, TR.Returned(ok))
      case Closing(Jobs) => CJ.Stands(w.jobs, t, if ok then CJ.Purged else CJ.GaveUp)
      case _ => true
  }

  ghost function TerminalsAfter(w: TR.Floor, t: nat, task: HD.Task): TR.Floor {
    if task.place == HD.Closed(HD.Transfers) then TR.Go(w, TR.Retire(t, task.host))
    else if task.place == HD.Reopening(HD.Terminals) then TR.Go(w, TR.Restore(t, task.host))
    else w
  }

  ghost function JobsAfter(w: CJ.World, t: nat, task: HD.Task): CJ.World {
    if task.place == HD.Closed(HD.Terminals) then CJ.Next(w, CJ.Retire(t, task.host))
    else if task.place == HD.Reopening(HD.Jobs) then CJ.Next(w, CJ.Restore(t, task.host))
    else w
  }

  ghost function Advanced(w: Server, t: nat, ok: bool, disk: Option<Profiles.Error>): Server {
    if !Answered(w, t, ok) then w else
      var task := w.deletions.tasks[t];
      Server(HD.Act(w.deletions, t, ok, disk), TerminalsAfter(w.terminals, t, task), JobsAfter(w.jobs, t, task))
  }

  ghost function Next(w: Server, step: Step): Server {
    match step
    case Deletion(s) =>
      if s.TerminalWork? || s.JobWork? then w
      else if s.Advance? then Advanced(w, s.task, s.ok, s.disk)
      else w.(deletions := HD.Next(w.deletions, s))
    case Terminal(m) =>
      if m.Retire? || m.Restore? then w else
        var after := TR.Go(w.terminals, m);
        w.(terminals := after, deletions := w.deletions.(terminals := after.hosts))
    case Job(s) =>
      if s.Retire? || s.Restore? then w else
        var after := CJ.Next(w.jobs, s);
        w.(jobs := after, deletions := w.deletions.(jobs := after.hosts))
  }

  ghost function Exec(w: Server, steps: seq<Step>): Server
    decreases |steps|
  {
    if steps == [] then w else Exec(Next(w, steps[0]), steps[1..])
  }

  /** Ids are new when they are drawn. */
  ghost predicate NewIds(w: Server, step: Step) {
    match step
    case Deletion(s) => HD.Admissible(w.deletions, s)
    case Terminal(m) => TR.NewIds(w.terminals, m)
    case Job(s) => CJ.IdsNew(w.jobs, s)
  }

  ghost predicate RunNewIds(w: Server, steps: seq<Step>)
    decreases |steps|
  {
    steps != [] ==> NewIds(w, steps[0]) && RunNewIds(Next(w, steps[0]), steps[1..])
  }

  function Fresh(repo: RS.Repo, max: nat): Server { Server(HD.Fresh(repo), TR.EMPTY, CJ.Initial(max)) }

  // ---- The deletions and the tables agree ------------------------------------------------------------------

  /** The gate was opened since `t` shut it. */
  ghost predicate OpenedSince(log: HD.Log, g: HD.Gate, t: nat, h: string) {
    exists i, j :: HD.ShutsAt(log, i, g, h) && log[i].task == t && i < j && HD.OpensAt(log, j, g, h)
  }

  /** Another deletion has opened the gate since `t` shut it. */
  ghost predicate OpenedBehind(log: HD.Log, g: HD.Gate, t: nat, h: string) {
    exists i, j :: HD.ShutsAt(log, i, g, h) && log[i].task == t && i < j && HD.OpensAt(log, j, g, h) && log[j].task != t
  }

  /** Places in front of a gate, and places that are reached only after waiting behind it in vain or not. */
  predicate InFront(p: HD.Place, g: HD.Gate) {
    match p
    case Started => true
    case Checked => true
    case Closing(x) => HD.Rank(x) < HD.Rank(g)
    case Closed(x) => HD.Rank(x) < HD.Rank(g)
    case _ => false
  }

  predicate Behind(p: HD.Place, g: HD.Gate) {
    match p
    case Closing(x) => HD.Rank(g) < HD.Rank(x)
    case Closed(x) => HD.Rank(g) <= HD.Rank(x)
    case Marked => true
    case CleanedUp => true
    case Exited(ok) => ok
    case _ => false
  }

  predicate Leaves(p: HD.Place, g: HD.Gate) { p.Reopening? && HD.Rank(g) <= HD.Rank(p.gate) }

  /** The places behind opening a gate again. */
  predicate Left(p: HD.Place, g: HD.Gate) { (p.Reopening? && HD.Rank(p.gate) < HD.Rank(g)) || p == HD.Exited(false) }

  /** A deletion opens a gate only on its way out. */
  ghost predicate OpensAgree(tasks: HD.Tasks, log: HD.Log) {
    forall e | e in log && e.Opens? :: e.task in tasks && Left(tasks[e.task].place, e.gate)
  }

  /** The place of a deletion says how far its retirement of the terminals has come. */
  predicate AtTerminals(p: HD.Place, retirements: map<nat, TR.Retirement>, t: nat) {
    && (InFront(p, HD.Terminals) ==> t !in retirements)
    && (p == HD.Closing(HD.Terminals) || Leaves(p, HD.Terminals) || Behind(p, HD.Terminals) ==> t in retirements)
    && (Leaves(p, HD.Terminals) ==> retirements[t].place.Returned?)
    && (Behind(p, HD.Terminals) ==> retirements[t].place == TR.Returned(true))
  }

  predicate AtJobs(p: HD.Place, retirements: map<nat, CJ.Retirement>, t: nat) {
    && (InFront(p, HD.Jobs) ==> t !in retirements)
    && (p == HD.Closing(HD.Jobs) || Leaves(p, HD.Jobs) || Behind(p, HD.Jobs) ==> t in retirements)
    && (Leaves(p, HD.Jobs) ==> retirements[t].stage.Purged? || retirements[t].stage.GaveUp?)
    && (Behind(p, HD.Jobs) ==> retirements[t].stage.Purged?)
  }

  /** Every retirement of the terminals is that of a deletion, and restored since only if the gate was opened. */
  ghost predicate TerminalsAgree(tasks: HD.Tasks, log: HD.Log, retirements: map<nat, TR.Retirement>) {
    && (forall t | t in tasks :: AtTerminals(tasks[t].place, retirements, t))
    && (forall t | t in retirements ::
          && t in tasks && tasks[t].host == retirements[t].host
          && HD.Shuts(HD.Terminals, tasks[t].host, t) in log
          && (retirements[t].disturbed ==> OpenedSince(log, HD.Terminals, t, tasks[t].host)))
  }

  ghost predicate JobsAgree(tasks: HD.Tasks, log: HD.Log, retirements: map<nat, CJ.Retirement>, acts: seq<CJ.Act>) {
    && (forall t | t in tasks :: AtJobs(tasks[t].place, retirements, t))
    && (forall t | t in retirements ::
          t in tasks && tasks[t].host == retirements[t].host && HD.Shuts(HD.Jobs, tasks[t].host, t) in log)
    && (forall t, h | CJ.Retires(t, h) in acts :: HD.Shuts(HD.Jobs, h, t) in log)
    && (forall t, h | JR.RestoredSince(acts, t, h) :: OpenedSince(log, HD.Jobs, t, h))
  }

  ghost predicate Agrees(w: Server) {
    && w.deletions.terminals == w.terminals.hosts && w.deletions.jobs == w.jobs.hosts
    && OpensAgree(w.deletions.tasks, w.deletions.log)
    && TerminalsAgree(w.deletions.tasks, w.deletions.log, w.terminals.tasks)
    && JobsAgree(w.deletions.tasks, w.deletions.log, w.jobs.tasks, w.jobs.acts)
  }

  // ---- One effect more -----------------------------------------------------------------------------------------

  lemma OpenedMore(log: HD.Log, e: HD.Effect, g: HD.Gate, t: nat, h: string)
    ensures OpenedSince(log, g, t, h) ==> OpenedSince(log + [e], g, t, h)
    ensures HD.Shuts(g, h, t) in log && e == HD.Opens(g, h, e.task) ==> OpenedSince(log + [e], g, t, h)
  {
    var more := log + [e];
    assert more[|log|] == e;
    if OpenedSince(log, g, t, h) {
      var i, j :| HD.ShutsAt(log, i, g, h) && log[i].task == t && i < j && HD.OpensAt(log, j, g, h);
      assert HD.ShutsAt(more, i, g, h) && more[i].task == t && HD.OpensAt(more, j, g, h);
    }
    if HD.Shuts(g, h, t) in log && e == HD.Opens(g, h, e.task) {
      var i :| 0 <= i < |log| && log[i] == HD.Shuts(g, h, t);
      assert HD.ShutsAt(more, i, g, h) && more[i].task == t && HD.OpensAt(more, |log|, g, h);
    }
  }

  ghost predicate Grows(log: HD.Log, more: HD.Log) { more == log || exists e :: more == log + [e] }

  lemma OpenedGrows(log: HD.Log, more: HD.Log)
    requires Grows(log, more)
    ensures forall g, t, h | OpenedSince(log, g, t, h) :: OpenedSince(more, g, t, h)
    ensures forall e | e in log :: e in more
  {
    if more != log {
      var e :| more == log + [e];
      forall g, t, h | OpenedSince(log, g, t, h) ensures OpenedSince(more, g, t, h) { OpenedMore(log, e, g, t, h); }
    }
  }

  // ---- The tables under one step of a deletion ----------------------------------------------------------------

  /** A deletion moves on, and no gate of the terminals is shut or opened. */
  lemma TerminalsMove(tasks: HD.Tasks, log: HD.Log, more: HD.Log, retirements: map<nat, TR.Retirement>, t: nat,
      p: HD.Place)
    requires TerminalsAgree(tasks, log, retirements) && t in tasks && Grows(log, more)
    requires AtTerminals(p, retirements, t)
    ensures TerminalsAgree(HD.Moved(tasks, t, p), more, retirements)
  {
    OpenedGrows(log, more);
  }

  lemma TerminalsShut(tasks: HD.Tasks, log: HD.Log, retirements: map<nat, TR.Retirement>, t: nat)
    requires TerminalsAgree(tasks, log, retirements) && t in tasks && tasks[t].place == HD.Closed(HD.Transfers)
    ensures var h := tasks[t].host;
      TerminalsAgree(HD.Moved(tasks, t, HD.Closing(HD.Terminals)), log + [HD.Shuts(HD.Terminals, h, t)],
                     retirements[t := TR.Retirement(h, TR.Waiting, false, {})])
  {
    var e := HD.Shuts(HD.Terminals, tasks[t].host, t);
    OpenedGrows(log, log + [e]);
    assert (log + [e])[|log|] == e;
  }

  lemma TerminalsOpen(tasks: HD.Tasks, log: HD.Log, retirements: map<nat, TR.Retirement>, t: nat)
    requires TerminalsAgree(tasks, log, retirements) && t in tasks && tasks[t].place == HD.Reopening(HD.Terminals)
    ensures var h := tasks[t].host;
      TerminalsAgree(HD.Moved(tasks, t, HD.Reopening(HD.Transfers)), log + [HD.Opens(HD.Terminals, h, t)],
        TR.Disturbed(retirements, h))
  {
    var h := tasks[t].host;
    var e := HD.Opens(HD.Terminals, h, t);
    OpenedGrows(log, log + [e]);
    forall u | u in retirements && retirements[u].host == h ensures OpenedSince(log + [e], HD.Terminals, u, h) {
      OpenedMore(log, e, HD.Terminals, u, h);
    }
  }

  lemma JobsMove(tasks: HD.Tasks, log: HD.Log, more: HD.Log, retirements: map<nat, CJ.Retirement>, acts: seq<CJ.Act>,
                 t: nat, p: HD.Place)
    requires JobsAgree(tasks, log, retirements, acts) && t in tasks && Grows(log, more)
    requires AtJobs(p, retirements, t)
    ensures JobsAgree(HD.Moved(tasks, t, p), more, retirements, acts)
  {
    OpenedGrows(log, more);
  }

  lemma JobsShut(tasks: HD.Tasks, log: HD.Log, retirements: map<nat, CJ.Retirement>, acts: seq<CJ.Act>, t: nat)
    requires JobsAgree(tasks, log, retirements, acts) && t in tasks && tasks[t].place == HD.Closed(HD.Terminals)
    ensures var h := tasks[t].host;
      JobsAgree(HD.Moved(tasks, t, HD.Closing(HD.Jobs)), log + [HD.Shuts(HD.Jobs, h, t)],
                retirements[t := CJ.Retirement(h, CJ.Closing)], acts + [CJ.Retires(t, h)])
  {
    var e := HD.Shuts(HD.Jobs, tasks[t].host, t);
    var a := CJ.Retires(t, tasks[t].host);
    OpenedGrows(log, log + [e]);
    assert (log + [e])[|log|] == e;
    forall u, h | JR.RestoredSince(acts + [a], u, h) ensures OpenedSince(log + [e], HD.Jobs, u, h) {
      JR.RestoredSinceMore(acts, a, u, h);
    }
  }

  lemma JobsOpen(tasks: HD.Tasks, log: HD.Log, retirements: map<nat, CJ.Retirement>, acts: seq<CJ.Act>, t: nat)
    requires JobsAgree(tasks, log, retirements, acts) && t in tasks && tasks[t].place == HD.Reopening(HD.Jobs)
    ensures var h := tasks[t].host;
      JobsAgree(HD.Moved(tasks, t, HD.Reopening(HD.Terminals)), log + [HD.Opens(HD.Jobs, h, t)], retirements,
                acts + [CJ.Restores(t, h)])
  {
    var h := tasks[t].host;
    var e := HD.Opens(HD.Jobs, h, t);
    OpenedGrows(log, log + [e]);
    forall u, x | JR.RestoredSince(acts + [CJ.Restores(t, h)], u, x) ensures OpenedSince(log + [e], HD.Jobs, u, x) {
      JR.RestoredSinceMore(acts, CJ.Restores(t, h), u, x);
      OpenedMore(log, e, HD.Jobs, u, x);
      RetiresKnown(acts, CJ.Restores(t, h), u, x);
    }
  }

  lemma RetiresKnown(acts: seq<CJ.Act>, a: CJ.Act, t: nat, h: string)
    requires a.Restores?
    ensures JR.RestoredSince(acts + [a], t, h) ==> CJ.Retires(t, h) in acts
  {
    if JR.RestoredSince(acts + [a], t, h) {
      var r, j :| JR.ActAt(acts + [a], r, CJ.Retires(t, h)) && r < j && JR.RestoresAt(acts + [a], j, h);
      assert acts[r] == CJ.Retires(t, h);
    }
  }

  // ---- Every step keeps the agreement ---------------------------------------------------------------------------

  /** The places an action can lead to. */
  predicate MayFollow(p: HD.Place, ok: bool, next: HD.Place) {
    match p
    case Started => next == HD.Checked || next == HD.Exited(false)
    case Checked => next == HD.Closing(HD.Transfers)
    case Closing(g) => next == if ok then HD.Closed(g) else HD.Reopening(g)
    case Closed(Transfers) => next == HD.Closing(HD.Terminals)
    case Closed(Terminals) => next == HD.Closing(HD.Jobs)
    case Closed(Jobs) => next == HD.Marked || next == HD.Reopening(HD.Jobs)
    case Marked => next == HD.CleanedUp || next == HD.Reopening(HD.Jobs)
    case CleanedUp => next == HD.Exited(true) || next == HD.Reopening(HD.Jobs)
    case Reopening(Jobs) => next == HD.Reopening(HD.Terminals)
    case Reopening(Terminals) => next == HD.Reopening(HD.Transfers)
    case Reopening(Transfers) => next == HD.Exited(false)
    case Exited(_) => next == p
  }

  function HostsAfter(hosts: HO.Hosts, p: HD.Place, g: HD.Gate, h: string): HO.Hosts {
    if (g.Terminals? && p == HD.Closed(HD.Transfers)) || (g.Jobs? && p == HD.Closed(HD.Terminals))
      then HO.RetireHost(hosts, h)
    else if p == HD.Reopening(g) then HO.RestoreHost(hosts, h)
    else hosts
  }

  ghost predicate LogAfter(log: HD.Log, p: HD.Place, t: nat, h: string, more: HD.Log) {
    match p
    case Closed(Transfers) => more == log + [HD.Shuts(HD.Terminals, h, t)]
    case Closed(Terminals) => more == log + [HD.Shuts(HD.Jobs, h, t)]
    case Reopening(g) => more == log + [HD.Opens(g, h, t)]
    case _ => more == log || exists e: HD.Effect :: more == log + [e] && !e.Opens?
  }

  /** What one action does, as far as the tables are concerned. */
  ghost predicate Goes(w: HD.World, t: nat, ok: bool, w': HD.World)
    requires t in w.tasks
  {
    var (p, h) := (w.tasks[t].place, w.tasks[t].host);
    && (exists next :: MayFollow(p, ok, next) && w'.tasks == HD.Moved(w.tasks, t, next))
    && LogAfter(w.log, p, t, h, w'.log)
    && w'.terminals == HostsAfter(w.terminals, p, HD.Terminals, h)
    && w'.jobs == HostsAfter(w.jobs, p, HD.Jobs, h)
  }

  lemma GateGoes(w: HD.World, t: nat, ok: bool)
    requires t in w.tasks && HD.AtGate(w.tasks[t].place)
    ensures Goes(w, t, ok, HD.GateAct(w, t, ok))
  {
    var w' := HD.GateAct(w, t, ok);
    assert t in w'.tasks && MayFollow(w.tasks[t].place, ok, w'.tasks[t].place);
    assert w'.tasks == HD.Moved(w.tasks, t, w'.tasks[t].place);
  }

  lemma GoesTo(w: HD.World, t: nat, ok: bool, w': HD.World, next: HD.Place)
    requires t in w.tasks && MayFollow(w.tasks[t].place, ok, next) && w'.tasks == HD.Moved(w.tasks, t, next)
    requires !HD.AtGate(w.tasks[t].place) && (w'.log == w.log
      || exists e: HD.Effect :: w'.log == w.log + [e] && !e.Opens?)
    requires w'.terminals == w.terminals && w'.jobs == w.jobs
    ensures Goes(w, t, ok, w')
  {
  }

  lemma OtherGoes(w: HD.World, t: nat, ok: bool, disk: Option<Profiles.Error>)
    requires t in w.tasks && !HD.AtGate(w.tasks[t].place)
    ensures Goes(w, t, ok, HD.Act(w, t, ok, disk))
  {
    var w' := HD.Act(w, t, ok, disk);
    if w.tasks[t].place.Exited? { assert HD.Moved(w.tasks, t, w.tasks[t].place) == w.tasks; }
    GoesTo(w, t, ok, w', w'.tasks[t].place);
  }

  lemma ActGoes(w: HD.World, t: nat, ok: bool, disk: Option<Profiles.Error>)
    requires t in w.tasks
    ensures Goes(w, t, ok, HD.Act(w, t, ok, disk))
  {
    if HD.AtGate(w.tasks[t].place) { GateGoes(w, t, ok); } else { OtherGoes(w, t, ok, disk); }
  }

  lemma TerminalsFollow(p: HD.Place, ok: bool, next: HD.Place, retirements: map<nat, TR.Retirement>, t: nat)
    requires AtTerminals(p, retirements, t) && MayFollow(p, ok, next) && p != HD.Closed(HD.Transfers)
    requires p == HD.Closing(HD.Terminals) ==> retirements[t].place == TR.Returned(ok)
    ensures AtTerminals(next, retirements, t)
  {
  }

  lemma TerminalsRetire(f: TR.Floor, t: nat, task: HD.Task)
    requires task.place == HD.Closed(HD.Transfers) && t !in f.tasks
    ensures var f' := TerminalsAfter(f, t, task);
      && f'.hosts == HO.RetireHost(f.hosts, task.host)
      && f'.tasks == f.tasks[t := TR.Retirement(task.host, TR.Waiting, false, {})]
  {
  }

  lemma TerminalsRestore(f: TR.Floor, t: nat, task: HD.Task)
    requires task.place == HD.Reopening(HD.Terminals) && t in f.tasks && f.tasks[t].place.Returned?
      && f.tasks[t].host == task.host
    ensures var f' := TerminalsAfter(f, t, task);
      f'.hosts == HO.RestoreHost(f.hosts, task.host) && f'.tasks == TR.Disturbed(f.tasks, task.host)
  {
  }

  lemma TerminalsAdvance(w: HD.World, t: nat, ok: bool, w': HD.World, f: TR.Floor)
    requires t in w.tasks && Goes(w, t, ok, w')
    requires w.terminals == f.hosts && TerminalsAgree(w.tasks, w.log, f.tasks)
    requires w.tasks[t].place == HD.Closing(HD.Terminals) ==> TR.At(f, t, TR.Returned(ok))
    ensures var f' := TerminalsAfter(f, t, w.tasks[t]);
      w'.terminals == f'.hosts && TerminalsAgree(w'.tasks, w'.log, f'.tasks)
  {
    var p := w.tasks[t].place;
    var next :| MayFollow(p, ok, next) && w'.tasks == HD.Moved(w.tasks, t, next);
    assert AtTerminals(p, f.tasks, t);
    if p == HD.Closed(HD.Transfers) {
      TerminalsRetire(f, t, w.tasks[t]);
      TerminalsShut(w.tasks, w.log, f.tasks, t);
    } else if p == HD.Reopening(HD.Terminals) {
      TerminalsRestore(f, t, w.tasks[t]);
      TerminalsOpen(w.tasks, w.log, f.tasks, t);
    } else {
      TerminalsFollow(p, ok, next, f.tasks, t);
      LogGrows(w.log, p, t, w.tasks[t].host, w'.log);
      TerminalsMove(w.tasks, w.log, w'.log, f.tasks, t, next);
    }
  }

  lemma LogGrows(log: HD.Log, p: HD.Place, t: nat, h: string, more: HD.Log)
    requires LogAfter(log, p, t, h, more)
    ensures Grows(log, more)
  {
  }

  lemma JobsFollow(p: HD.Place, ok: bool, next: HD.Place, retirements: map<nat, CJ.Retirement>, t: nat)
    requires AtJobs(p, retirements, t) && MayFollow(p, ok, next) && p != HD.Closed(HD.Terminals)
    requires p == HD.Closing(HD.Jobs) ==> retirements[t].stage == if ok then CJ.Purged else CJ.GaveUp
    ensures AtJobs(next, retirements, t)
  {
  }

  lemma JobsRetire(j: CJ.World, t: nat, task: HD.Task)
    requires task.place == HD.Closed(HD.Terminals) && t !in j.tasks
    ensures var j' := JobsAfter(j, t, task);
      && j'.hosts == HO.RetireHost(j.hosts, task.host) && j'.acts == j.acts + [CJ.Retires(t, task.host)]
      && j'.tasks == j.tasks[t := CJ.Retirement(task.host, CJ.Closing)]
  {
  }

  lemma JobsRestore(j: CJ.World, t: nat, task: HD.Task)
    requires task.place == HD.Reopening(HD.Jobs) && t in j.tasks && j.tasks[t].host == task.host
    requires j.tasks[t].stage.Purged? || j.tasks[t].stage.GaveUp?
    ensures var j' := JobsAfter(j, t, task);
      j'.hosts == HO.RestoreHost(j.hosts, task.host) && j'.tasks == j.tasks
        && j'.acts == j.acts + [CJ.Restores(t, task.host)]
  {
  }

  lemma JobsAdvance(w: HD.World, t: nat, ok: bool, w': HD.World, j: CJ.World)
    requires t in w.tasks && Goes(w, t, ok, w')
    requires w.jobs == j.hosts && JobsAgree(w.tasks, w.log, j.tasks, j.acts)
    requires w.tasks[t].place == HD.Closing(HD.Jobs) ==> CJ.Stands(j, t, if ok then CJ.Purged else CJ.GaveUp)
    ensures var j' := JobsAfter(j, t, w.tasks[t]); w'.jobs == j'.hosts && JobsAgree(w'.tasks, w'.log, j'.tasks, j'.acts)
  {
    var p := w.tasks[t].place;
    var next :| MayFollow(p, ok, next) && w'.tasks == HD.Moved(w.tasks, t, next);
    assert AtJobs(p, j.tasks, t);
    if p == HD.Closed(HD.Terminals) {
      JobsRetire(j, t, w.tasks[t]);
      JobsShut(w.tasks, w.log, j.tasks, j.acts, t);
    } else if p == HD.Reopening(HD.Jobs) {
      JobsRestore(j, t, w.tasks[t]);
      JobsOpen(w.tasks, w.log, j.tasks, j.acts, t);
    } else {
      JobsFollow(p, ok, next, j.tasks, t);
      LogGrows(w.log, p, t, w.tasks[t].host, w'.log);
      JobsMove(w.tasks, w.log, w'.log, j.tasks, j.acts, t, next);
    }
  }

  lemma LeftFollows(p: HD.Place, ok: bool, next: HD.Place)
    requires MayFollow(p, ok, next)
    ensures forall g :: Left(p, g) ==> Left(next, g)
    ensures p.Reopening? ==> Left(next, p.gate)
  {
  }

  lemma OpensAdvance(w: HD.World, t: nat, ok: bool, w': HD.World)
    requires t in w.tasks && Goes(w, t, ok, w') && OpensAgree(w.tasks, w.log)
    ensures OpensAgree(w'.tasks, w'.log)
  {
    var p := w.tasks[t].place;
    var next :| MayFollow(p, ok, next) && w'.tasks == HD.Moved(w.tasks, t, next);
    LeftFollows(p, ok, next);
    forall e | e in w'.log && e.Opens? ensures e in w.log
      || (p.Reopening? && e == HD.Opens(p.gate, w.tasks[t].host, t)) {
      NewOpens(w.log, p, t, w.tasks[t].host, w'.log, e);
    }
  }

  lemma NewOpens(log: HD.Log, p: HD.Place, t: nat, h: string, more: HD.Log, e: HD.Effect)
    requires LogAfter(log, p, t, h, more) && e in more && e.Opens?
    ensures e in log || (p.Reopening? && e == HD.Opens(p.gate, h, t))
  {
  }

  lemma AdvanceAgrees(w: Server, t: nat, ok: bool, disk: Option<Profiles.Error>)
    requires Agrees(w)
    ensures Agrees(Advanced(w, t, ok, disk))
  {
    if Answered(w, t, ok) {
      ActGoes(w.deletions, t, ok, disk);
      var after := HD.Act(w.deletions, t, ok, disk);
      OpensAdvance(w.deletions, t, ok, after);
      TerminalsAdvance(w.deletions, t, ok, after, w.terminals);
      JobsAdvance(w.deletions, t, ok, after, w.jobs);
    }
  }

  lemma BeginAgrees(w: Server, t: nat, h: string)
    requires Agrees(w)
    ensures Agrees(w.(deletions := HD.Next(w.deletions, HD.Begin(t, h))))
  {
  }

  /** A move that is not a deletion's leaves the retirements to their deletions. */
  ghost predicate SameRetirements(before: map<nat, TR.Retirement>, after: map<nat, TR.Retirement>) {
    && before.Keys == after.Keys
    && forall t | t in before :: after[t].host == before[t].host && after[t].disturbed == before[t].disturbed
         && (before[t].place.Returned? ==> after[t].place == before[t].place)
  }

  lemma MoveRetirements(w: TR.Floor, m: TR.Move)
    requires !m.Retire? && !m.Restore?
    ensures SameRetirements(w.tasks, TR.Go(w, m).tasks)
  {
  }

  lemma TerminalAgrees(w: Server, m: TR.Move)
    requires Agrees(w) && !m.Retire? && !m.Restore?
    ensures Agrees(Next(w, Terminal(m)))
  {
    MoveRetirements(w.terminals, m);
  }

  ghost predicate SameStages(before: map<nat, CJ.Retirement>, after: map<nat, CJ.Retirement>) {
    && before.Keys == after.Keys
    && forall t | t in before :: after[t].host == before[t].host
         && (before[t].stage.Purged? || before[t].stage.GaveUp? ==> after[t].stage == before[t].stage)
  }

  ghost predicate SameActs(acts: seq<CJ.Act>, more: seq<CJ.Act>) {
    more == acts || exists a: CJ.Act :: more == acts + [a] && !a.Retires? && !a.Restores?
  }

  lemma OneAct(acts: seq<CJ.Act>, more: seq<CJ.Act>, a: CJ.Act)
    requires more == acts || more == acts + [a]
    ensures !a.Retires? && !a.Restores? ==> SameActs(acts, more)
  {
  }

  lemma JobRetirements(w: CJ.World, s: CJ.Step)
    requires !s.Retire? && !s.Restore?
    ensures SameStages(w.tasks, CJ.Next(w, s).tasks) && SameActs(w.acts, CJ.Next(w, s).acts)
  {
    if CJ.OnHosts(s) { BarrierRetirements(w, s); }
    else if s.Register? {
      JR.RegisterEffect(w, s.id, s.host);
      OneAct(w.acts, CJ.Next(w, s).acts, CJ.Registers(s.id, s.host));
    }
    else if !s.Purge? { JR.JobStepHosts(w, s); }
  }

  lemma BarrierRetirements(w: CJ.World, s: CJ.Step)
    requires CJ.OnHosts(s) && !s.Retire? && !s.Restore?
    ensures SameStages(w.tasks, CJ.Next(w, s).tasks) && SameActs(w.acts, CJ.Next(w, s).acts)
  {
    if s.LookFinished? && s.task in w.tasks {
      OneAct(w.acts, CJ.Next(w, s).acts, CJ.Looks(s.task, w.tasks[s.task].host));
    }
  }

  lemma ActsSame(acts: seq<CJ.Act>, more: seq<CJ.Act>)
    requires SameActs(acts, more)
    ensures forall t, h | CJ.Retires(t, h) in more :: CJ.Retires(t, h) in acts
    ensures forall t, h | JR.RestoredSince(more, t, h) :: JR.RestoredSince(acts, t, h)
  {
    if more != acts {
      var a :| more == acts + [a] && !a.Retires? && !a.Restores?;
      forall t, h | JR.RestoredSince(more, t, h) ensures JR.RestoredSince(acts, t, h) {
        JR.RestoredSinceMore(acts, a, t, h);
      }
    }
  }

  lemma JobAgrees(w: Server, s: CJ.Step)
    requires Agrees(w) && !s.Retire? && !s.Restore?
    ensures Agrees(Next(w, Job(s)))
  {
    JobRetirements(w.jobs, s);
    ActsSame(w.jobs.acts, CJ.Next(w.jobs, s).acts);
  }

  lemma NextAgrees(w: Server, step: Step)
    requires Agrees(w)
    ensures Agrees(Next(w, step))
  {
    match step
    case Deletion(s) =>
      if s.Advance? { AdvanceAgrees(w, s.task, s.ok, s.disk); }
      else if s.Begin? { BeginAgrees(w, s.task, s.host); }
    case Terminal(m) => if !m.Retire? && !m.Restore? { TerminalAgrees(w, m); }
    case Job(s) => if !s.Retire? && !s.Restore? { JobAgrees(w, s); }
  }

  lemma {:induction false} ExecAgrees(w: Server, steps: seq<Step>)
    requires Agrees(w)
    ensures Agrees(Exec(w, steps))
    decreases |steps|
  {
    if steps != [] {
      NextAgrees(w, steps[0]);
      ExecAgrees(Next(w, steps[0]), steps[1..]);
    }
  }

  // ---- A run of the server is a run of each part -----------------------------------------------------------------

  /** A lease is taken or given back as far as the deletions are concerned, or nothing happens. */
  ghost predicate DeletionStep(w: HD.World, w': HD.World) {
    w' == w || exists s :: HD.Admissible(w, s) && w' == HD.Next(w, s)
  }

  lemma OneDeletionStep(w: HD.World, s: HD.Step, w': HD.World)
    requires HD.Admissible(w, s) && w' == HD.Next(w, s)
    ensures DeletionStep(w, w')
  {
  }

  lemma TerminalIsWork(w: Server, m: TR.Move)
    requires Agrees(w) && !m.Retire? && !m.Restore?
    ensures DeletionStep(w.deletions, Next(w, Terminal(m)).deletions)
  {
    var after := Next(w, Terminal(m)).deletions;
    if m.BeginLease? && after != w.deletions { OneDeletionStep(w.deletions, HD.TerminalWork(true, m.host), after); }
    else if m.EndLease? && after != w.deletions {
      OneDeletionStep(w.deletions, HD.TerminalWork(false, w.terminals.leases[m.lease].host), after);
    }
    else { MoveHosts(w.terminals, m); }
  }

  lemma MoveHosts(w: TR.Floor, m: TR.Move)
    requires !m.Retire? && !m.Restore?
    ensures TR.Go(w, m).hosts == w.hosts || m.BeginLease? || m.EndLease?
  {
  }

  lemma JobIsWork(w: Server, s: CJ.Step)
    requires Agrees(w) && !s.Retire? && !s.Restore?
    ensures DeletionStep(w.deletions, Next(w, Job(s)).deletions)
  {
    var after := Next(w, Job(s)).deletions;
    if s.BeginOperation? { OneDeletionStep(w.deletions, HD.JobWork(true, s.host), after); }
    else if s.EndOperation? { OneDeletionStep(w.deletions, HD.JobWork(false, s.host), after); }
    else { JobHosts(w.jobs, s); }
  }

  lemma JobHosts(w: CJ.World, s: CJ.Step)
    requires !s.Retire? && !s.Restore? && !s.BeginOperation? && !s.EndOperation?
    ensures CJ.Next(w, s).hosts == w.hosts
  {
    if s.Register? { JR.RegisterEffect(w, s.id, s.host); }
    else if !CJ.OnHosts(s) && !s.Purge? { JR.JobStepHosts(w, s); }
  }

  lemma NextDeletion(w: Server, step: Step)
    requires Agrees(w) && NewIds(w, step)
    ensures DeletionStep(w.deletions, Next(w, step).deletions)
  {
    match step
    case Deletion(s) =>
      if s.Advance? { AdvanceIsStep(w, s.task, s.ok, s.disk); }
      else if !s.TerminalWork? && !s.JobWork? { OneDeletionStep(w.deletions, s, HD.Next(w.deletions, s)); }
    case Terminal(m) => if !m.Retire? && !m.Restore? { TerminalIsWork(w, m); }
    case Job(s) => if !s.Retire? && !s.Restore? { JobIsWork(w, s); }
  }

  lemma AdvanceIsStep(w: Server, t: nat, ok: bool, disk: Option<Profiles.Error>)
    ensures DeletionStep(w.deletions, Advanced(w, t, ok, disk).deletions)
  {
    if Answered(w, t, ok) {
      OneDeletionStep(w.deletions, HD.Advance(t, ok, disk), HD.Act(w.deletions, t, ok, disk));
    }
  }

  ghost predicate TerminalMove(w: TR.Floor, w': TR.Floor) {
    w' == w || exists m :: TR.NewIds(w, m) && w' == TR.Go(w, m)
  }

  lemma OneTerminalMove(w: TR.Floor, m: TR.Move, w': TR.Floor)
    requires TR.NewIds(w, m) && w' == TR.Go(w, m)
    ensures TerminalMove(w, w')
  {
  }

  lemma NextTerminal(w: Server, step: Step)
    requires NewIds(w, step)
    ensures TerminalMove(w.terminals, Next(w, step).terminals)
  {
    if step.Terminal? {
      if !step.move.Retire? && !step.move.Restore? {
        OneTerminalMove(w.terminals, step.move, TR.Go(w.terminals, step.move));
      }
    } else if step.Deletion? && step.act.Advance? {
      AdvanceIsMove(w, step.act.task, step.act.ok, step.act.disk);
    }
  }

  lemma AdvanceIsMove(w: Server, t: nat, ok: bool, disk: Option<Profiles.Error>)
    ensures TerminalMove(w.terminals, Advanced(w, t, ok, disk).terminals)
  {
    if Answered(w, t, ok) {
      var task := w.deletions.tasks[t];
      var after := TerminalsAfter(w.terminals, t, task);
      if task.place == HD.Closed(HD.Transfers) { OneTerminalMove(w.terminals, TR.Retire(t, task.host), after); }
      else if task.place == HD.Reopening(HD.Terminals) {
        OneTerminalMove(w.terminals, TR.Restore(t, task.host), after);
      }
    }
  }

  ghost predicate JobStep(w: CJ.World, w': CJ.World) { w' == w || exists s :: CJ.IdsNew(w, s) && w' == CJ.Next(w, s) }

  lemma OneJobStep(w: CJ.World, s: CJ.Step, w': CJ.World)
    requires CJ.IdsNew(w, s) && w' == CJ.Next(w, s)
    ensures JobStep(w, w')
  {
  }

  lemma NextJob(w: Server, step: Step)
    requires NewIds(w, step)
    ensures JobStep(w.jobs, Next(w, step).jobs)
  {
    if step.Job? {
      if !step.action.Retire? && !step.action.Restore? {
        OneJobStep(w.jobs, step.action, CJ.Next(w.jobs, step.action));
      }
    } else if step.Deletion? && step.act.Advance? {
      AdvanceIsJobStep(w, step.act.task, step.act.ok, step.act.disk);
    }
  }

  lemma AdvanceIsJobStep(w: Server, t: nat, ok: bool, disk: Option<Profiles.Error>)
    ensures JobStep(w.jobs, Advanced(w, t, ok, disk).jobs)
  {
    if Answered(w, t, ok) {
      var task := w.deletions.tasks[t];
      var after := JobsAfter(w.jobs, t, task);
      if task.place == HD.Closed(HD.Terminals) { OneJobStep(w.jobs, CJ.Retire(t, task.host), after); }
      else if task.place == HD.Reopening(HD.Jobs) { OneJobStep(w.jobs, CJ.Restore(t, task.host), after); }
    }
  }

  ghost predicate DeletionRun(w: HD.World, w': HD.World) {
    exists steps :: HD.RunAdmissible(w, steps) && HD.Exec(w, steps) == w'
  }

  ghost predicate TerminalRun(w: TR.Floor, w': TR.Floor) {
    exists moves :: TR.RunNewIds(w, moves) && TR.Exec(w, moves) == w'
  }

  ghost predicate JobRun(w: CJ.World, w': CJ.World) {
    exists steps :: CJ.RunIdsNew(w, steps) && CJ.Exec(w, steps) == w'
  }

  lemma DeletionRunMore(w: HD.World, w1: HD.World, w2: HD.World)
    requires DeletionStep(w, w1) && DeletionRun(w1, w2)
    ensures DeletionRun(w, w2)
  {
    if w1 != w {
      var s :| HD.Admissible(w, s) && w1 == HD.Next(w, s);
      var steps :| HD.RunAdmissible(w1, steps) && HD.Exec(w1, steps) == w2;
      var all := [s] + steps;
      assert all[0] == s && all[1..] == steps;
      assert HD.RunAdmissible(w, all) && HD.Exec(w, all) == w2;
    }
  }

  lemma TerminalRunMore(w: TR.Floor, w1: TR.Floor, w2: TR.Floor)
    requires TerminalMove(w, w1) && TerminalRun(w1, w2)
    ensures TerminalRun(w, w2)
  {
    if w1 != w {
      var m :| TR.NewIds(w, m) && w1 == TR.Go(w, m);
      var moves :| TR.RunNewIds(w1, moves) && TR.Exec(w1, moves) == w2;
      var all := [m] + moves;
      assert all[0] == m && all[1..] == moves;
      assert TR.RunNewIds(w, all) && TR.Exec(w, all) == w2;
    }
  }

  lemma JobRunMore(w: CJ.World, w1: CJ.World, w2: CJ.World)
    requires JobStep(w, w1) && JobRun(w1, w2)
    ensures JobRun(w, w2)
  {
    if w1 != w {
      var s :| CJ.IdsNew(w, s) && w1 == CJ.Next(w, s);
      var steps :| CJ.RunIdsNew(w1, steps) && CJ.Exec(w1, steps) == w2;
      var all := [s] + steps;
      assert all[0] == s && all[1..] == steps;
      assert CJ.RunIdsNew(w, all) && CJ.Exec(w, all) == w2;
    }
  }

  /** Every run of the server is, part by part, a run of the deletions, of the terminals and of the
      command jobs: what holds in every run of one of them holds in every run of the server. */
  lemma {:induction false} RunsOfParts(w: Server, steps: seq<Step>)
    requires Agrees(w) && RunNewIds(w, steps)
    ensures var w' := Exec(w, steps);
      DeletionRun(w.deletions, w'.deletions) && TerminalRun(w.terminals, w'.terminals) && JobRun(w.jobs, w'.jobs)
    decreases |steps|
  {
    if steps == [] {
      assert HD.RunAdmissible(w.deletions, []) && TR.RunNewIds(w.terminals, []) && CJ.RunIdsNew(w.jobs, []);
      assert HD.Exec(w.deletions, []) == w.deletions && TR.Exec(w.terminals, []) == w.terminals
        && CJ.Exec(w.jobs, []) == w.jobs;
    } else {
      var w1 := Next(w, steps[0]);
      var w' := Exec(w, steps);
      NextAgrees(w, steps[0]);
      RunsOfParts(w1, steps[1..]);
      NextDeletion(w, steps[0]);
      DeletionRunMore(w.deletions, w1.deletions, w'.deletions);
      NextTerminal(w, steps[0]);
      TerminalRunMore(w.terminals, w1.terminals, w'.terminals);
      NextJob(w, steps[0]);
      JobRunMore(w.jobs, w1.jobs, w'.jobs);
    }
  }

  lemma FreshAgrees(repo: RS.Repo, max: nat)
    ensures Agrees(Fresh(repo, max))
  {
    assert forall t, h :: !JR.RestoredSince([], t, h);
  }

  // ---- What a deletion has achieved ------------------------------------------------------------------------------

  /** The deletion holds the mark of its host, or has deleted it. */
  predicate HasRetired(w: HD.World, t: nat) {
    t in w.tasks && (HD.Holds(w.tasks[t].place) || w.tasks[t].place == HD.Exited(true))
  }

  /** No slot of the host, no start under way for it, and records only of sessions that exited while
      they were being ended. */
  ghost predicate TerminalsVacant(w: TR.Floor, t: nat, h: string) {
    && HO.IsRetired(w.hosts, h) && HO.IsIdle(w.hosts, h)
    && (forall l | l in w.leases :: w.leases[l].host != h)
    && (forall id | id in w.slots.registry.active :: w.slots.registry.active[id].hostId != h)
    && (forall id | TR.RecordOf(w.slots.registry, id, h) ::
          t in w.tasks && id in w.tasks[t].exited && TR.IsOver(w.slots.registry.snapshots[id].snapshot.state))
  }

  lemma VacantTerminals(w: TR.Floor, t: nat)
    requires TerminalRun(TR.EMPTY, w) && TR.At(w, t, TR.Returned(true)) && !w.tasks[t].disturbed
    ensures TerminalsVacant(w, t, w.tasks[t].host)
  {
    var moves :| TR.RunNewIds(TR.EMPTY, moves) && TR.Exec(TR.EMPTY, moves) == w;
    TR.RetiredHostHasNoSlots(moves, t);
  }

  lemma JobsWithoutWork(max: nat, w: CJ.World, t: nat)
    requires JobRun(CJ.Initial(max), w) && CJ.Stands(w, t, CJ.Purged) && !JR.RestoredSince(w.acts, t, w.tasks[t].host)
    ensures JR.NoWork(w, w.tasks[t].host)
  {
    var steps :| CJ.RunIdsNew(CJ.Initial(max), steps) && CJ.Exec(CJ.Initial(max), steps) == w;
    JR.StaysWithoutWork(max, steps, t);
  }

  lemma OpenedByOther(tasks: HD.Tasks, log: HD.Log, g: HD.Gate, t: nat, h: string)
    requires OpensAgree(tasks, log) && t in tasks && !Left(tasks[t].place, g) && OpenedSince(log, g, t, h)
    ensures OpenedBehind(log, g, t, h)
  {
    var i, j :| HD.ShutsAt(log, i, g, h) && log[i].task == t && i < j && HD.OpensAt(log, j, g, h);
    assert log[j] in log;
  }

  lemma AgreedTerminals(w: Server, t: nat)
    requires Agrees(w) && TerminalRun(TR.EMPTY, w.terminals) && HasRetired(w.deletions, t)
    ensures var (h, log) := (w.deletions.tasks[t].host, w.deletions.log);
      HD.Shuts(HD.Terminals, h, t) in log && (OpenedBehind(log, HD.Terminals, t, h)
        || TerminalsVacant(w.terminals, t, h))
  {
    var (h, log) := (w.deletions.tasks[t].host, w.deletions.log);
    assert AtTerminals(w.deletions.tasks[t].place, w.terminals.tasks, t);
    if OpenedSince(log, HD.Terminals, t, h) { OpenedByOther(w.deletions.tasks, log, HD.Terminals, t, h); }
    else { VacantTerminals(w.terminals, t); }
  }

  lemma AgreedJobs(max: nat, w: Server, t: nat)
    requires Agrees(w) && JobRun(CJ.Initial(max), w.jobs) && HasRetired(w.deletions, t)
    ensures var (h, log) := (w.deletions.tasks[t].host, w.deletions.log);
      HD.Shuts(HD.Jobs, h, t) in log && (OpenedBehind(log, HD.Jobs, t, h) || JR.NoWork(w.jobs, h))
  {
    var (h, log) := (w.deletions.tasks[t].host, w.deletions.log);
    assert AtJobs(w.deletions.tasks[t].place, w.jobs.tasks, t);
    if OpenedSince(log, HD.Jobs, t, h) { OpenedByOther(w.deletions.tasks, log, HD.Jobs, t, h); }
    else { JobsWithoutWork(max, w.jobs, t); }
  }

  /** In every run of the server, as soon as a deletion has marked its host and ever after it has
      deleted it: unless another deletion has opened the gate since, no terminal of the host is
      running or can be started, and no command job of it is kept or can be started. */
  lemma DeletionEmptiesTables(repo: RS.Repo, max: nat, steps: seq<Step>, t: nat)
    requires RunNewIds(Fresh(repo, max), steps) && HasRetired(Exec(Fresh(repo, max), steps).deletions, t)
    ensures var w := Exec(Fresh(repo, max), steps); var (h, log) := (w.deletions.tasks[t].host, w.deletions.log);
      && HD.Shuts(HD.Terminals, h, t) in log && HD.Shuts(HD.Jobs, h, t) in log
      && (OpenedBehind(log, HD.Terminals, t, h) || TerminalsVacant(w.terminals, t, h))
      && (OpenedBehind(log, HD.Jobs, t, h) || JR.NoWork(w.jobs, h))
  {
    FreshAgrees(repo, max);
    ExecAgrees(Fresh(repo, max), steps);
    RunsOfParts(Fresh(repo, max), steps);
    AgreedTerminals(Exec(Fresh(repo, max), steps), t);
    AgreedJobs(max, Exec(Fresh(repo, max), steps), t);
  }
}
