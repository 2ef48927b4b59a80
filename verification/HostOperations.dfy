/** The barrier between starting work for a host and deleting it: leases are counted, a retired
    host takes no new ones, and the deleter waits until none is left. */
module HostOperations {
  import opened Prelude

  datatype HostState = HostState(active: nat, retired: bool)

  type Hosts = map<string, HostState>

  function StateOf(hosts: Hosts, id: string): HostState {
    if id in hosts then hosts[id] else HostState(0, false)
  }

  predicate IsRetired(hosts: Hosts, id: string) { StateOf(hosts, id).retired }

  predicate IsIdle(hosts: Hosts, id: string) { StateOf(hosts, id).active == 0 }

  /** An entry that says nothing is dropped. */
  function Store(hosts: Hosts, id: string, s: HostState): Hosts {
    if s == HostState(0, false) then hosts - {id} else hosts[id := s]
  }

  /** `None` while the host is retired. */
  function BeginOp(hosts: Hosts, id: string): Option<Hosts> {
    var s := StateOf(hosts, id);
    if s.retired then None else Some(hosts[id := s.(active := s.active + 1)])
  }

  function EndOp(hosts: Hosts, id: string): Hosts {
    if id !in hosts then hosts else
      var s := hosts[id];
      Store(hosts, id, s.(active := if s.active == 0 then 0 else s.active - 1))
  }

  function RetireHost(hosts: Hosts, id: string): Hosts { hosts[id := StateOf(hosts, id).(retired := true)] }

  function RestoreHost(hosts: Hosts, id: string): Hosts {
    if id !in hosts then hosts else Store(hosts, id, hosts[id].(retired := false))
  }

  /** The count of a host is the number of its outstanding leases, and there is an entry only
      while the count is positive or the host is retired. */
  ghost predicate Counts(hosts: Hosts, leases: multiset<string>) {
    && (forall id :: StateOf(hosts, id).active == leases[id])
    && (forall id | id in hosts :: hosts[id].active > 0 || hosts[id].retired)
  }

  lemma BeginCounts(hosts: Hosts, leases: multiset<string>, id: string)
    requires Counts(hosts, leases) && !IsRetired(hosts, id)
    ensures Counts(BeginOp(hosts, id).value, leases + multiset{id})
  {
  }

  lemma EndCounts(hosts: Hosts, leases: multiset<string>, id: string)
    requires Counts(hosts, leases) && id in leases
    ensures id in hosts && hosts[id].active > 0 && Counts(EndOp(hosts, id), leases - multiset{id})
  {
    assert StateOf(hosts, id).active > 0;
    var after := EndOp(hosts, id);
    forall x ensures StateOf(after, x).active == (leases - multiset{id})[x] {
      assert StateOf(hosts, x).active == leases[x];
    }
  }

  lemma RetiredCounts(hosts: Hosts, leases: multiset<string>, id: string)
    requires Counts(hosts, leases)
    ensures Counts(RetireHost(hosts, id), leases) && Counts(RestoreHost(hosts, id), leases)
  {
    forall x ensures StateOf(RetireHost(hosts, id), x).active == leases[x]
      && StateOf(RestoreHost(hosts, id), x).active == leases[x] {
      assert StateOf(hosts, x).active == leases[x];
    }
  }

  /** What each operation makes of the count and the mark of any host: beginning is granted unless the host
      is retired, and none touches another host. */
  lemma OperationsMean(hosts: Hosts, id: string, x: string)
    ensures var was := StateOf(hosts, x);
      && (BeginOp(hosts, id).Some? <==> !StateOf(hosts, id).retired)
      && (BeginOp(hosts, id).Some? ==>
            StateOf(BeginOp(hosts, id).value, x) == if x == id then HostState(was.active + 1, false) else was)
      && StateOf(EndOp(hosts, id), x) ==
           (if x == id && was.active > 0 then HostState(was.active - 1, was.retired) else was)
      && StateOf(RetireHost(hosts, id), x) == (if x == id then HostState(was.active, true) else was)
      && StateOf(RestoreHost(hosts, id), x) == (if x == id then HostState(was.active, false) else was)
  {
  }

  class HostOperationBarrier {
    var hosts: Hosts
    ghost var leases: multiset<string>

    constructor ()
      ensures Valid() && hosts == map[] && leases == multiset{}
    {
      hosts, leases := map[], multiset{};
    }

    ghost predicate Valid()
      reads this
    {
      Counts(hosts, leases)
    }

    method Begin(id: string) returns (ok: bool)
      requires Valid()
      modifies this
      ensures Valid()
      ensures ok == !IsRetired(old(hosts), id)
      ensures leases == old(leases) + (if ok then multiset{id} else multiset{})
      ensures hosts == if ok then BeginOp(old(hosts), id).value else old(hosts)
    {
      var state := if id in hosts then hosts[id] else HostState(0, false);
      if state.retired {
        return false;
      }
      BeginCounts(hosts, leases, id);
      hosts := hosts[id := state.(active := state.active + 1)];
      leases := leases + multiset{id};
      return true;
    }

    /** Dropping a lease. */
    method End(id: string)
      requires Valid() && id in leases
      modifies this
      ensures Valid() && leases == old(leases) - multiset{id} && hosts == EndOp(old(hosts), id)
    {
      EndCounts(hosts, leases, id);
      var state := hosts[id].(active := hosts[id].active - 1);
      hosts := hosts[id := state];
      if state.active == 0 && !state.retired {
        hosts := hosts - {id};
        assert hosts == old(hosts) - {id};
      }
      leases := leases - multiset{id};
    }

    method Retire(id: string)
      requires Valid()
      modifies this`hosts
      ensures Valid() && hosts == RetireHost(old(hosts), id)
    {
      RetiredCounts(hosts, leases, id);
      var state := if id in hosts then hosts[id] else HostState(0, false);
      hosts := hosts[id := state.(retired := true)];
    }

    method Restore(id: string)
      requires Valid()
      modifies this`hosts
      ensures Valid() && hosts == RestoreHost(old(hosts), id) && !IsRetired(hosts, id)
    {
      RetiredCounts(hosts, leases, id);
      if id in hosts {
        var state := hosts[id].(retired := false);
        hosts := hosts[id := state];
        if state.active == 0 {
          hosts := hosts - {id};
          assert hosts == old(hosts) - {id};
        }
      }
    }

    /** One look of `wait_idle` at the table. */
    method LooksIdle(id: string) returns (idle: bool)
      ensures idle == IsIdle(hosts, id)
    {
      idle := !(id in hosts) || hosts[id].active == 0;
    }
  }

  // ---- Waiting for idleness ----------------------------------------------------------------------

  /** `wait_idle` for one host: register for the next notification, look, and sleep if busy. */
  datatype Waiter = Outside | Registered | Asleep | Finished

  /** `notified` is the waiter's wakeup; `pendingNotifications` are drops and restores that have
      left the lock but not yet notified. */
  datatype World = World(hosts: Hosts, leases: multiset<string>, waiter: Waiter, notified: bool,
    pendingNotifications: nat)

  datatype Step =
    | Begin(id: string)
    | Drop(id: string)
    | Retire(id: string)
    | Restore(id: string)
    | Notify
    | Register
    | Look
    | WakeUp

  function Next(w: World, host: string, step: Step): World {
    match step
    case Begin(id) =>
      var after := BeginOp(w.hosts, id);
      if after.None? then w else w.(hosts := after.value, leases := w.leases + multiset{id})
    case Drop(id) =>
      if id !in w.leases then w
      else w.(hosts := EndOp(w.hosts, id), leases := w.leases - multiset{id},
        pendingNotifications := w.pendingNotifications + 1)
    case Retire(id) => w.(hosts := RetireHost(w.hosts, id))
    case Restore(id) => w.(hosts := RestoreHost(w.hosts, id), pendingNotifications := w.pendingNotifications + 1)
    case Notify =>
      if w.pendingNotifications == 0 then w
      else w.(pendingNotifications := w.pendingNotifications - 1,
              notified := w.notified || w.waiter.Registered? || w.waiter.Asleep?)
    case Register => if w.waiter.Outside? then w.(waiter := Registered, notified := false) else w
    case Look =>
      if w.waiter.Registered? then w.(waiter := if IsIdle(w.hosts, host) then Finished else Asleep) else w
    case WakeUp => if w.waiter.Asleep? && w.notified then w.(waiter := Outside) else w
  }

  function Exec(w: World, host: string, steps: seq<Step>): World
    decreases |steps|
  {
    if steps == [] then w else Exec(Next(w, host, steps[0]), host, steps[1..])
  }

  /** A sleeping waiter has a lease to wait for, a notification on its way, or its wakeup. */
  ghost predicate Inv(w: World, host: string) {
    && Counts(w.hosts, w.leases)
    && (w.waiter.Asleep? ==> w.notified || w.pendingNotifications > 0 || !IsIdle(w.hosts, host))
  }

  const INITIAL := World(map[], multiset{}, Outside, false, 0)

  lemma NextKeeps(w: World, host: string, step: Step)
    requires Inv(w, host)
    ensures Inv(Next(w, host, step), host)
  {
    match step
    case Begin(id) => if !IsRetired(w.hosts, id) { BeginCounts(w.hosts, w.leases, id); }
    case Drop(id) => if id in w.leases { EndCounts(w.hosts, w.leases, id); }
    case Retire(id) => RetiredCounts(w.hosts, w.leases, id);
    case Restore(id) => RetiredCounts(w.hosts, w.leases, id);
    case _ =>
  }

  lemma {:induction false} ExecKeeps(w: World, host: string, steps: seq<Step>)
    requires Inv(w, host)
    ensures Inv(Exec(w, host, steps), host)
    decreases |steps|
  {
    if steps != [] {
      NextKeeps(w, host, steps[0]);
      ExecKeeps(Next(w, host, steps[0]), host, steps[1..]);
    }
  }

  /** In every run the count of a host is the number of its outstanding leases, no entry says
      nothing, and the final wakeup is never lost: once the host is idle and all notifications
      are out, the waiter is not left asleep without its wakeup. */
  lemma NoLostWakeup(host: string, steps: seq<Step>)
    ensures var w := Exec(INITIAL, host, steps);
      && Counts(w.hosts, w.leases)
      && (w.waiter.Asleep? && IsIdle(w.hosts, host) && w.pendingNotifications == 0 ==> w.notified)
  {
    ExecKeeps(INITIAL, host, steps);
  }

  /** Steps that do not restore the host. */
  predicate KeepsRetired(steps: seq<Step>, host: string) { forall s | s in steps :: s != Restore(host) }

  lemma WorkKeepsIdle(hosts: Hosts, id: string, host: string)
    requires StateOf(hosts, host) == HostState(0, true)
    ensures BeginOp(hosts, id).Some? ==> StateOf(BeginOp(hosts, id).value, host) == HostState(0, true)
    ensures StateOf(EndOp(hosts, id), host) == HostState(0, true)
    ensures StateOf(RetireHost(hosts, id), host) == HostState(0, true)
    ensures id != host ==> StateOf(RestoreHost(hosts, id), host) == HostState(0, true)
  {
    OperationsMean(hosts, id, host);
  }

  lemma StepKeepsIdle(w: World, host: string, step: Step)
    requires IsRetired(w.hosts, host) && IsIdle(w.hosts, host) && step != Restore(host)
    ensures var hosts := Next(w, host, step).hosts; IsRetired(hosts, host) && IsIdle(hosts, host)
  {
    match step
    case Begin(id) => WorkKeepsIdle(w.hosts, id, host);
    case Drop(id) => WorkKeepsIdle(w.hosts, id, host);
    case Retire(id) => WorkKeepsIdle(w.hosts, id, host);
    case Restore(id) => WorkKeepsIdle(w.hosts, id, host);
    case _ => assert Next(w, host, step).hosts == w.hosts;
  }

  /** A retired host that was seen idle stays idle and retired until it is restored. */
  lemma {:induction false} IdleUntilRestored(w: World, host: string, steps: seq<Step>)
    requires Inv(w, host) && IsRetired(w.hosts, host) && IsIdle(w.hosts, host) && KeepsRetired(steps, host)
    ensures var w' := Exec(w, host, steps); IsRetired(w'.hosts, host) && IsIdle(w'.hosts, host) && w'.leases[host] == 0
    decreases |steps|
  {
    if steps != [] {
      assert steps[0] in steps && forall s | s in steps[1..] :: s in steps;
      NextKeeps(w, host, steps[0]);
      StepKeepsIdle(w, host, steps[0]);
      IdleUntilRestored(Next(w, host, steps[0]), host, steps[1..]);
    }
  }

  /** The waiter finishes only in a state where the host is idle. */
  lemma FinishesIdle(w: World, host: string, step: Step)
    requires !w.waiter.Finished? && Next(w, host, step).waiter.Finished?
    ensures IsIdle(Next(w, host, step).hosts, host)
  {
  }

  function Notifications(n: nat): seq<Step> { if n == 0 then [] else [Notify] + Notifications(n - 1) }

  lemma {:induction false} AllNotified(w: World, host: string, n: nat)
    requires n == w.pendingNotifications
    ensures var w' := Exec(w, host, Notifications(n));
      w' == w.(pendingNotifications := 0,
               notified := w.notified || (n > 0 && (w.waiter.Registered? || w.waiter.Asleep?)))
    decreases n
  {
    if n > 0 {
      assert Notifications(n)[1..] == Notifications(n - 1);
      AllNotified(Next(w, host, Notify), host, n - 1);
    }
  }

  lemma {:induction false} ExecBoth(w: World, host: string, a: seq<Step>, b: seq<Step>)
    ensures Exec(w, host, a + b) == Exec(Exec(w, host, a), host, b)
    decreases |a|
  {
    if a == [] {
      assert a + b == b;
    } else {
      assert (a + b)[1..] == a[1..] + b;
      ExecBoth(Next(w, host, a[0]), host, a[1..], b);
    }
  }

  lemma LooksAgain(w: World, host: string)
    requires IsIdle(w.hosts, host) && (w.waiter.Asleep? ==> w.notified)
    ensures Exec(w, host, [WakeUp, Register, Look]).waiter == Finished
  {
    var a := Next(w, host, WakeUp);
    var b := Next(a, host, Register);
    assert [WakeUp, Register, Look][1..] == [Register, Look] && [Register, Look][1..] == [Look];
    assert [Look][1..] == [];
    assert Exec(Next(b, host, Look), host, []) == Next(b, host, Look);
    assert Exec(b, host, [Look]) == Next(b, host, Look);
  }

  /** In every run: as soon as no lease on the host is left, the notifications on their way and three turns
      of the waiter are enough for the wait to end. */
  lemma WaitEnds(host: string, steps: seq<Step>)
    requires Exec(INITIAL, host, steps).leases[host] == 0
    ensures var w := Exec(INITIAL, host, steps);
      Exec(w, host, Notifications(w.pendingNotifications) + [WakeUp, Register, Look]).waiter == Finished
  {
    ExecKeeps(INITIAL, host, steps);
    var w := Exec(INITIAL, host, steps);
    assert StateOf(w.hosts, host).active == w.leases[host];
    AllNotified(w, host, w.pendingNotifications);
    LooksAgain(Exec(w, host, Notifications(w.pendingNotifications)), host);
    ExecBoth(w, host, Notifications(w.pendingNotifications), [WakeUp, Register, Look]);
  }
}
