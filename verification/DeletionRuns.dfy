/** Two deletions of one host: runs in which the second one undoes what the first one relies on. */
module DeletionRuns {
  import opened Prelude
  import opened Repository
  import opened HostDeletion
  import opened HostRecords
  import Paths
  import RS = RepositorySteps
  import RR = RepositoryRuns

  ghost predicate Does(w: World, s: Step, w': World) { !s.Request? && w' == Next(w, s) }

  /** The steps, none of them a request, lead from one world to the other. */
  ghost predicate Leads(w: World, steps: seq<Step>, w': World) { Paths.Leads(Does, w, steps, w') }

  lemma Joined(w: World, a: seq<Step>, w1: World, b: seq<Step>, w2: World)
    requires Leads(w, a, w1) && Leads(w1, b, w2)
    ensures Leads(w, a + b, w2)
  {
    Paths.Joined(Does, w, a, w1, b, w2);
  }

  lemma {:induction false} LeadsRuns(w: World, steps: seq<Step>, w': World)
    requires Leads(w, steps, w')
    ensures RunAdmissible(w, steps) && Exec(w, steps) == w'
    decreases |steps|
  {
    var w1 := Paths.Unfolded(Does, w, steps, w');
    if steps != [] { LeadsRuns(w1, steps[1..], w'); }
  }

  lemma OneStep(w: World, s: Step)
    requires !s.Request?
    ensures Leads(w, [s], Next(w, s))
  {
    Paths.OneStep(Does, w, s, Next(w, s));
  }

  /** The next action of task `t`, what it waits for going well. */
  lemma OneAct(w: World, t: nat) returns (steps: seq<Step>)
    requires t in w.tasks
    ensures Leads(w, steps, Act(w, t, true, None))
  {
    steps := [Advance(t, true, None)];
    OneStep(w, steps[0]);
  }

  /** All gates of the host are shut, or all are open. */
  predicate AllShut(w: World, h: string, shut: bool) { forall g :: IsShut(w, g, h) == shut }

  /** Before a gate is shut. */
  predicate Before(p: Place, g: Gate) {
    match g
    case Transfers => p == Checked
    case Terminals => p == Closed(Transfers)
    case Jobs => p == Closed(Terminals)
  }

  /** Shutting one gate and waiting behind it. */
  lemma OneTaken(w: World, t: nat, g: Gate) returns (steps: seq<Step>, w': World)
    requires t in w.tasks && Before(w.tasks[t].place, g)
    ensures Leads(w, steps, w') && w'.repo == w.repo && w'.tasks == Moved(w.tasks, t, Closed(g))
    ensures forall x :: IsShut(w', x, w.tasks[t].host) <==> x == g || IsShut(w, x, w.tasks[t].host)
  {
    var w1 := Shut(w, t, g);
    var a := OneAct(w, t);
    assert Act(w, t, true, None) == w1;
    var b := OneAct(w1, t);
    w' := Move(w1, t, Closed(g));
    assert Act(w1, t, true, None) == w';
    Joined(w, a, w1, b, w');
    steps := a + b;
  }

  /** From before a gate to behind the last one: all gates from there on are shut. */
  lemma {:induction false} RestTaken(w: World, t: nat, g: Gate) returns (steps: seq<Step>, w': World)
    requires t in w.tasks && Before(w.tasks[t].place, g)
    ensures Leads(w, steps, w') && w'.repo == w.repo && w'.tasks == Moved(w.tasks, t, Closed(Jobs))
    ensures forall x :: IsShut(w', x, w.tasks[t].host) <==> Rank(x) >= Rank(g) || IsShut(w, x, w.tasks[t].host)
    decreases 3 - Rank(g)
  {
    steps, w' := OneTaken(w, t, g);
    if !g.Jobs? {
      var rest, w'' := RestTaken(w', t, if g.Transfers? then Terminals else Jobs);
      Joined(w, steps, w', rest, w'');
      steps, w' := steps + rest, w'';
    }
  }

  lemma ChecksHost(w: World, t: nat) returns (steps: seq<Step>, w': World)
    requires t in w.tasks && w.tasks[t].place == Started && Deletable(w.repo, w.tasks[t].host)
    ensures Leads(w, steps, w') && w'.repo == w.repo && w'.tasks == Moved(w.tasks, t, Checked)
  {
    steps := OneAct(w, t);
    w' := Check(w, t);
    assert Act(w, t, true, None) == w';
  }

  /** A deletion that starts on a deletable host shuts all gates and stands before the mark. */
  lemma TakesGates(w: World, t: nat) returns (steps: seq<Step>, w': World)
    requires t in w.tasks && w.tasks[t].place == Started && Deletable(w.repo, w.tasks[t].host)
    ensures Leads(w, steps, w') && w'.repo == w.repo && w'.tasks == Moved(w.tasks, t, Closed(Jobs))
  {
    var a, w1 := ChecksHost(w, t);
    var b, w2 := RestTaken(w1, t, Transfers);
    Joined(w, a, w1, b, w2);
    steps, w' := a + b, w2;
  }

  /** A rollback opens the gates one by one. */
  lemma {:induction false} RestGiven(w: World, t: nat, g: Gate) returns (steps: seq<Step>, w': World)
    requires t in w.tasks && w.tasks[t].place == Reopening(g)
    ensures Leads(w, steps, w') && w'.repo == w.repo && w'.tasks == Moved(w.tasks, t, Exited(false))
    ensures forall x :: IsShut(w', x, w.tasks[t].host) <==> Rank(x) > Rank(g) && IsShut(w, x, w.tasks[t].host)
    decreases Rank(g)
  {
    steps := OneAct(w, t);
    w' := Open(w, t, g);
    assert Act(w, t, true, None) == w';
    if !g.Transfers? {
      var rest, w'' := RestGiven(w', t, if g.Jobs? then Terminals else Transfers);
      Joined(w, steps, w', rest, w'');
      steps, w' := steps + rest, w'';
    }
  }

  lemma TriesMark(w: World, t: nat) returns (steps: seq<Step>, w': World)
    requires RR.RepoInv(w.repo) && t in w.tasks && w.tasks[t].place == Closed(Jobs)
    ensures Leads(w, steps, w')
    ensures var h := w.tasks[t].host; var marks := Deletable(w.repo, h);
      && RR.RepoInv(w'.repo) && w'.repo.state == w.repo.state
      && w'.repo.deleting == (if marks then w.repo.deleting + {h} else w.repo.deleting)
      && w'.tasks == Moved(w.tasks, t, if marks then Marked else Reopening(Jobs))
  {
    steps := OneAct(w, t);
    BeginFacts(w.repo, w.tasks[t].host);
    w' := TryMark(w, t);
    assert Act(w, t, true, None) == w';
  }

  /** A deletion that finds its host marked or gone gives up and opens all gates. */
  lemma ComesTooLate(w: World, t: nat) returns (steps: seq<Step>, w': World)
    requires RR.RepoInv(w.repo) && t in w.tasks && w.tasks[t].place == Closed(Jobs)
      && !Deletable(w.repo, w.tasks[t].host)
    ensures Leads(w, steps, w') && w'.repo.state == w.repo.state && w'.repo.deleting == w.repo.deleting
    ensures w'.tasks == Moved(w.tasks, t, Exited(false)) && AllShut(w', w.tasks[t].host, false)
  {
    var a, w1 := TriesMark(w, t);
    var b, w2 := RestGiven(w1, t, Jobs);
    Joined(w, a, w1, b, w2);
    steps, w' := a + b, w2;
  }

  lemma EraseDeletes(r: RS.Repo, id: string) returns (r': RS.Repo)
    requires RR.RepoInv(r) && id in r.deleting && CheckDeletable(r.state, id).None?
    ensures RS.EraseHost(r, id, None) == (r', None) && RR.RepoInv(r') && !HasHost(r'.state.hosts, id)
  {
    FinishFacts(r, id, None);
    FinishSucceeds(r, id, None);
    WithoutHostHas(r.state, id);
    r' := RS.EraseHost(r, id, None).0;
  }

  lemma Finishes(w: World, t: nat, repo: RS.Repo) returns (steps: seq<Step>, w': World)
    requires t in w.tasks && w.tasks[t].place == CleanedUp
      && RS.EraseHost(w.repo, w.tasks[t].host, None) == (repo, None)
    ensures Leads(w, steps, w') && w'.repo == repo && w'.tasks == Moved(w.tasks, t, Exited(true))
  {
    steps := OneAct(w, t);
    w' := Erase(w, t, repo);
    assert Act(w, t, true, None) == Finish(w, t, None) == w';
  }

  /** A marked host that is still deletable is deleted. */
  lemma Deletes(w: World, t: nat) returns (steps: seq<Step>, w': World)
    requires RR.RepoInv(w.repo) && t in w.tasks && w.tasks[t].place == Marked
    requires w.tasks[t].host in w.repo.deleting && CheckDeletable(w.repo.state, w.tasks[t].host).None?
    ensures Leads(w, steps, w') && w'.tasks == Moved(w.tasks, t, Exited(true))
    ensures RR.RepoInv(w'.repo) && !HasHost(w'.repo.state.hosts, w.tasks[t].host)
  {
    var a := OneAct(w, t);
    var w1 := Move(w, t, CleanedUp);
    assert Act(w, t, true, None) == w1;
    var repo := EraseDeletes(w.repo, w.tasks[t].host);
    var b, w2 := Finishes(w1, t, repo);
    Joined(w, a, w1, b, w2);
    steps, w' := a + b, w2;
  }

  /** Two deletions of one host come up to the mark together, and the first takes it. */
  lemma FirstMarks(repo: RS.Repo, h: string) returns (steps: seq<Step>, w: World)
    requires RR.RepoInv(repo) && repo.deleting == {} && Deletable(repo, h)
    ensures Leads(Fresh(repo), steps, w)
    ensures RR.RepoInv(w.repo) && h in w.repo.deleting && CheckDeletable(w.repo.state, h).None?
    ensures w.tasks == map[0 := Task(h, Marked), 1 := Task(h, Closed(Jobs))]
  {
    var a, w1 := BothBegin(repo, h);
    var b, w2 := TakesGates(w1, 0);
    Joined(Fresh(repo), a, w1, b, w2);
    var c, w3 := TakesGates(w2, 1);
    Joined(Fresh(repo), a + b, w2, c, w3);
    var d, w4 := TriesMark(w3, 0);
    Joined(Fresh(repo), a + b + c, w3, d, w4);
    steps, w := a + b + c + d, w4;
  }

  lemma BothBegin(repo: RS.Repo, h: string) returns (steps: seq<Step>, w: World)
    ensures Leads(Fresh(repo), steps, w) && w.repo == repo
    ensures w.tasks == map[0 := Task(h, Started), 1 := Task(h, Started)]
  {
    var w1 := Next(Fresh(repo), Begin(0, h));
    OneStep(Fresh(repo), Begin(0, h));
    OneStep(w1, Begin(1, h));
    w := Next(w1, Begin(1, h));
    Joined(Fresh(repo), [Begin(0, h)], w1, [Begin(1, h)], w);
    steps := [Begin(0, h)] + [Begin(1, h)];
  }

  /** The second of two deletions finds the host marked, fails, and opens all gates of the host under
      the first one. */
  lemma SecondReopensUnderFirst(repo: RS.Repo, h: string) returns (steps: seq<Step>, w: World)
    requires RR.RepoInv(repo) && repo.deleting == {} && Deletable(repo, h)
    ensures RunAdmissible(Fresh(repo), steps) && w == Exec(Fresh(repo), steps)
    ensures w.tasks == map[0 := Task(h, Marked), 1 := Task(h, Exited(false))]
    ensures h in w.repo.deleting && AllShut(w, h, false)
  {
    var a, w1 := FirstMarks(repo, h);
    var b, w2 := ComesTooLate(w1, 1);
    Joined(Fresh(repo), a, w1, b, w2);
    steps, w := a + b, w2;
    LeadsRuns(Fresh(repo), steps, w);
  }

  lemma GoneIsNotDeletable(r: RS.Repo, h: string)
    requires !HasHost(r.state.hosts, h)
    ensures !Deletable(r, h)
  {
    if Deletable(r, h) { CheckedHasHost(r.state, h); }
  }

  /** Two deletions of one host come up to the mark together, and the first goes through. */
  lemma FirstDeletes(repo: RS.Repo, h: string) returns (steps: seq<Step>, w: World)
    requires RR.RepoInv(repo) && repo.deleting == {} && Deletable(repo, h)
    ensures Leads(Fresh(repo), steps, w) && RR.RepoInv(w.repo) && !HasHost(w.repo.state.hosts, h)
    ensures w.tasks == map[0 := Task(h, Exited(true)), 1 := Task(h, Closed(Jobs))]
  {
    var w0 := Fresh(repo);
    var a, w1 := FirstMarks(repo, h);
    assert w1.tasks[0] == Task(h, Marked);
    var b, w2 := Deletes(w1, 0);
    Joined(w0, a, w1, b, w2);
    steps, w := a + b, w2;
  }

  /** The second of two deletions fails after the first has succeeded, and opens all gates of a host
      that is gone. */
  lemma SecondFailsWithHostGone(repo: RS.Repo, h: string) returns (steps: seq<Step>, w: World)
    requires RR.RepoInv(repo) && repo.deleting == {} && Deletable(repo, h)
    ensures RunAdmissible(Fresh(repo), steps) && w == Exec(Fresh(repo), steps)
    ensures w.tasks == map[0 := Task(h, Exited(true)), 1 := Task(h, Exited(false))]
    ensures !HasHost(w.repo.state.hosts, h) && AllShut(w, h, false)
  {
    var a, w1 := FirstDeletes(repo, h);
    GoneIsNotDeletable(w1.repo, h);
    var b, w2 := ComesTooLate(w1, 1);
    Joined(Fresh(repo), a, w1, b, w2);
    steps, w := a + b, w2;
    LeadsRuns(Fresh(repo), steps, w);
  }
}
