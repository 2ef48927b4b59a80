/** How a deletion ends: every one does, whatever goes on beside it, and one that nothing hinders deletes
    its host exactly if that can be deleted when it starts. */
module DeletionOutcomes {
  import opened Prelude
  import opened Profiles
  import opened ProxyJump
  import opened Repository
  import opened HostDeletion
  import RS = RepositorySteps
  import RR = RepositoryRuns
  import RO = RepositoryOutcomes
  import HO = HostOperations

  // ---- Every deletion ends ----------------------------------------------------------------------------------

  /** How many actions a deletion has left at most. */
  function Left(p: Place): nat {
    match p
    case Exited(_) => 0
    case Reopening(g) => 1 + Rank(g)
    case CleanedUp => 4
    case Marked => 5
    case Closed(g) => 10 - 2 * Rank(g)
    case Closing(g) => 11 - 2 * Rank(g)
    case Checked => 12
    case Started => 13
  }

  lemma GateMoves(w: World, t: nat, ok: bool) returns (p: Place)
    requires t in w.tasks && AtGate(w.tasks[t].place)
    ensures GateAct(w, t, ok).tasks == Moved(w.tasks, t, p) && Left(p) < Left(w.tasks[t].place)
  {
    p := GateAct(w, t, ok).tasks[t].place;
  }

  lemma CheckMoves(w: World, t: nat)
    requires t in w.tasks
    ensures Check(w, t).tasks
      == Moved(w.tasks, t, if Deletable(w.repo, w.tasks[t].host) then Checked else Exited(false))
  {
  }

  lemma MarkMoves(w: World, t: nat)
    requires t in w.tasks
    ensures TryMark(w, t).tasks
      == Moved(w.tasks, t, if RS.MarkHost(w.repo, w.tasks[t].host).1.None? then Marked else Reopening(Jobs))
    ensures AbortMark(w, t).tasks == Moved(w.tasks, t, Reopening(Jobs))
  {
  }

  lemma FinishMoves(w: World, t: nat, disk: Option<Error>)
    requires t in w.tasks
    ensures Finish(w, t, disk).tasks
      == Moved(w.tasks, t,
               if RS.EraseHost(w.repo, w.tasks[t].host, disk).1.None? then Exited(true) else Reopening(Jobs))
  {
  }

  /** The action that is due at the place. */
  lemma ActIs(w: World, t: nat, ok: bool, disk: Option<Error>)
    requires t in w.tasks
    ensures var p := w.tasks[t].place;
      Act(w, t, ok, disk) ==
        if AtGate(p) then GateAct(w, t, ok) else if p.Started? then Check(w, t) else if p.Closed? then TryMark(w, t)
        else if p.Marked? then (if ok then Move(w, t, CleanedUp) else AbortMark(w, t))
        else if p.CleanedUp? then Finish(w, t, disk) else w
  {
  }

  /** An action moves the task closer to its end, and no other task. */
  lemma ActMoves(w: World, t: nat, ok: bool, disk: Option<Error>) returns (p: Place)
    requires t in w.tasks
    ensures Act(w, t, ok, disk).tasks == Moved(w.tasks, t, p)
    ensures var was := w.tasks[t].place; if was.Exited? then p == was else Left(p) < Left(was)
  {
    var was := w.tasks[t].place;
    ActIs(w, t, ok, disk);
    if AtGate(was) { p := GateMoves(w, t, ok); }
    else if was.Started? {
      CheckMoves(w, t);
      p := if Deletable(w.repo, w.tasks[t].host) then Checked else Exited(false);
    } else if was.Closed? {
      MarkMoves(w, t);
      p := if RS.MarkHost(w.repo, w.tasks[t].host).1.None? then Marked else Reopening(Jobs);
    } else if was.Marked? {
      MarkMoves(w, t);
      p := if ok then CleanedUp else Reopening(Jobs);
    } else if was.CleanedUp? {
      FinishMoves(w, t, disk);
      p := if RS.EraseHost(w.repo, w.tasks[t].host, disk).1.None? then Exited(true) else Reopening(Jobs);
    } else {
      p := was;
      assert Moved(w.tasks, t, was) == w.tasks;
    }
  }

  /** How often the run lets the deletion act. */
  function Actions(steps: seq<Step>, t: nat): nat {
    if steps == [] then 0
    else (if steps[0].Advance? && steps[0].task == t then 1 else 0) + Actions(steps[1..], t)
  }

  lemma StepCloser(w: World, step: Step, t: nat)
    requires t in w.tasks
    ensures var w' := Next(w, step); var acts := step.Advance? && step.task == t;
      && t in w'.tasks
      && (if acts && !w.tasks[t].place.Exited? then Left(w'.tasks[t].place) < Left(w.tasks[t].place)
          else w'.tasks[t].place == w.tasks[t].place)
  {
    if step.Advance? && step.task in w.tasks { var p := ActMoves(w, step.task, step.ok, step.disk); }
  }

  lemma {:induction false} RunCloser(w: World, steps: seq<Step>, t: nat)
    requires t in w.tasks
    ensures var w' := Exec(w, steps);
      && t in w'.tasks
      && (w'.tasks[t].place.Exited? || Left(w'.tasks[t].place) + Actions(steps, t) <= Left(w.tasks[t].place))
      && (w.tasks[t].place.Exited? ==> w'.tasks[t].place == w.tasks[t].place)
    decreases |steps|
  {
    if steps != [] {
      StepCloser(w, steps[0], t);
      RunCloser(Next(w, steps[0]), steps[1..], t);
    }
  }

  /** Whatever other deletions and requests do in between, and however its own waits end, a deletion is
      over after thirteen actions of its own. */
  lemma EveryDeletionEnds(w: World, steps: seq<Step>, t: nat)
    requires t in w.tasks && Actions(steps, t) >= 13
    ensures t in Exec(w, steps).tasks && Exec(w, steps).tasks[t].place.Exited?
  {
    RunCloser(w, steps, t);
  }

  // ---- A deletion that nothing hinders ----------------------------------------------------------------------

  /** The deletion acts, its waits end well and the disk takes what is written. */
  function Smooth(t: nat, n: nat): (r: seq<Step>)
    ensures |r| == n && forall k | 0 <= k < n :: r[k] == Advance(t, true, None)
  {
    seq(n, _ => Advance(t, true, None))
  }

  lemma SmoothStep(w: World, t: nat, n: nat)
    requires n > 0
    ensures Exec(w, Smooth(t, n)) == Exec(Next(w, Advance(t, true, None)), Smooth(t, n - 1))
  {
    assert Smooth(t, n)[1..] == Smooth(t, n - 1);
  }

  /** The task stands at this place and its host is still the same. */
  predicate StandsAt(w: World, t: nat, host: string, p: Place) { t in w.tasks && w.tasks[t] == Task(host, p) }

  /** The places from the check to the last gate, and how many actions lie before the last. */
  predicate OnTheWay(p: Place) { p.Checked? || p.Closing? || p.Closed? }

  lemma WayGoesOn(w: World, t: nat, host: string, p: Place)
    requires StandsAt(w, t, host, p) && OnTheWay(p) && p != Closed(Jobs)
    ensures var w' := Next(w, Advance(t, true, None));
      w'.repo == w.repo && t in w'.tasks && var q := w'.tasks[t].place;
      StandsAt(w', t, host, q) && OnTheWay(q) && Left(q) + 1 == Left(p)
  {
  }

  lemma {:induction false} ReachesLastGate(w: World, t: nat, host: string, p: Place, n: nat)
    requires StandsAt(w, t, host, p) && OnTheWay(p) && Left(p) == 6 + n
    ensures var w' := Exec(w, Smooth(t, n)); StandsAt(w', t, host, Closed(Jobs)) && w'.repo == w.repo
    decreases n
  {
    if n > 0 {
      WayGoesOn(w, t, host, p);
      SmoothStep(w, t, n);
      var w' := Next(w, Advance(t, true, None));
      ReachesLastGate(w', t, host, w'.tasks[t].place, n - 1);
    }
  }

  lemma MarkIs(w: World, t: nat)
    requires t in w.tasks && w.tasks[t].place == Closed(Jobs)
    ensures Next(w, Advance(t, true, None)) == TryMark(w, t)
    ensures TryMark(w, t).repo == RS.MarkHost(w.repo, w.tasks[t].host).0
  {
  }

  lemma MarksOne(w: World, t: nat, host: string)
    requires StandsAt(w, t, host, Closed(Jobs)) && RR.RepoInv(w.repo) && Deletable(w.repo, host)
    ensures var w' := Next(w, Advance(t, true, None));
      && StandsAt(w', t, host, Marked) && RR.RepoInv(w'.repo)
      && w'.repo.state == w.repo.state && w'.repo.deleting == w.repo.deleting + {host}
  {
    MarkIs(w, t);
    MarkMoves(w, t);
    BeginFacts(w.repo, host);
  }

  lemma CleansUp(w: World, t: nat, host: string)
    requires StandsAt(w, t, host, Marked)
    ensures var w' := Next(w, Advance(t, true, None)); StandsAt(w', t, host, CleanedUp) && w'.repo == w.repo
  {
  }

  lemma FinishIs(w: World, t: nat)
    requires t in w.tasks && w.tasks[t].place == CleanedUp
    ensures Next(w, Advance(t, true, None)) == Finish(w, t, None)
    ensures Finish(w, t, None).repo == RS.EraseHost(w.repo, w.tasks[t].host, None).0
  {
  }

  lemma ErasesOne(w: World, t: nat, host: string)
    requires StandsAt(w, t, host, CleanedUp) && RR.RepoInv(w.repo)
    requires host in w.repo.deleting && CheckDeletable(w.repo.state, host).None?
    ensures var w' := Next(w, Advance(t, true, None));
      && StandsAt(w', t, host, Exited(true)) && w'.repo.deleting == w.repo.deleting - {host}
      && w'.repo.state == WithoutHost(w.repo.state, host)
  {
    FinishIs(w, t);
    FinishMoves(w, t, None);
    FinishSucceeds(w.repo, host, None);
    FinishFacts(w.repo, host, None);
  }

  lemma ThreeSteps(w: World, t: nat)
    ensures var a := Next(w, Advance(t, true, None)); var b := Next(a, Advance(t, true, None));
      Exec(w, Smooth(t, 3)) == Next(b, Advance(t, true, None))
  {
    var a := Next(w, Advance(t, true, None));
    SmoothStep(w, t, 3);
    SmoothStep(a, t, 2);
    SmoothStep(Next(a, Advance(t, true, None)), t, 1);
    assert Smooth(t, 0) == [];
  }

  lemma LastThree(w: World, t: nat, host: string)
    requires StandsAt(w, t, host, Closed(Jobs)) && RR.RepoInv(w.repo) && Deletable(w.repo, host)
    ensures var w' := Exec(w, Smooth(t, 3));
      && StandsAt(w', t, host, Exited(true)) && w'.repo.deleting == w.repo.deleting
      && w'.repo.state == WithoutHost(w.repo.state, host)
  {
    var a := Next(w, Advance(t, true, None));
    var b := Next(a, Advance(t, true, None));
    MarksOne(w, t, host);
    CleansUp(a, t, host);
    ErasesOne(b, t, host);
    ThreeSteps(w, t);
    assert w.repo.deleting + {host} - {host} == w.repo.deleting;
  }

  lemma {:induction false} SmoothBoth(w: World, t: nat, m: nat, n: nat)
    ensures Exec(w, Smooth(t, m + n)) == Exec(Exec(w, Smooth(t, m)), Smooth(t, n))
    decreases m
  {
    if m > 0 {
      SmoothStep(w, t, m);
      SmoothStep(w, t, m + n);
      SmoothBoth(Next(w, Advance(t, true, None)), t, m - 1, n);
    }
  }

  /** The host exists, is not being deleted, and no other host jumps through it. */
  ghost predicate CanGo(r: RS.Repo, host: string) { host !in r.deleting && RO.CanDelete(r.state.hosts, host) }

  /** A deletion that starts and is hindered by nothing: if its host can be deleted, ten actions delete it,
      with its tunnels and presets and nothing else; if not, the first one ends it and changes nothing. */
  lemma UnhinderedDeletes(w: World, t: nat, host: string)
    requires RR.RepoInv(w.repo) && StandsAt(w, t, host, Started)
    ensures CanGo(w.repo, host) ==> var w' := Exec(w, Smooth(t, 10));
      && StandsAt(w', t, host, Exited(true)) && w'.repo.deleting == w.repo.deleting
      && RO.HostRemoved(w.repo.state, host, w'.repo.state)
    ensures !CanGo(w.repo, host) ==>
      Next(w, Advance(t, true, None)) == w.(tasks := w.tasks[t := Task(host, Exited(false))])
  {
    RO.DeletableMeans(w.repo.state, host);
    assert CanGo(w.repo, host) <==> Deletable(w.repo, host);
    if CanGo(w.repo, host) {
      var a := Next(w, Advance(t, true, None));
      ReachesLastGate(a, t, host, Checked, 6);
      var b := Exec(a, Smooth(t, 6));
      LastThree(b, t, host);
      SmoothStep(w, t, 10);
      SmoothBoth(a, t, 6, 3);
      RO.WithoutHostRemoves(w.repo.state, host);
    }
  }
}
