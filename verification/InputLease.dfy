/** Who may type into a terminal: leases are handed out to browser attachments, and only the
    latest one writes. */
module InputLease {
  import opened Prelude
  import opened Pruning

  const MAX_LEASES := 64
  const MAX_CHUNK := 64 * 1024

  datatype Written = Written(lease: nat, bytes: seq<Byte>)

  /** `written` is everything that reached the PTY, with the lease it came under. */
  datatype Input = Input(active: Option<nat>, issued: set<nat>, next: nat, written: seq<Written>)

  /** Attaching issues a lease and activates it; a write to the PTY may fail after `failed` bytes. */
  datatype Step =
    | Attach
    | Resume(previous: nat)
    | Write(lease: nat, bytes: seq<Byte>, failed: Option<nat>)
    | Release(lease: nat)

  predicate Owns(s: Input, lease: nat) { s.active == Some(lease) && lease in s.issued }

  function Issue(s: Input): (Input, Option<nat>) {
    if |s.issued| >= MAX_LEASES then (s, None)
    else
      var lease := NextUnissued(s.issued, s.next + 1);
      (s.(issued := s.issued + {lease}, next := lease), Some(lease))
  }

  /** The first number from `from` on that is not issued. */
  function NextUnissued(issued: set<nat>, from: nat): (n: nat)
    ensures n >= from && n !in issued && forall k | from <= k < n :: k in issued
    decreases issued
  {
    if from in issued then NextUnissued(issued - {from}, from + 1) else from
  }

  function ActivateLease(s: Input, lease: nat): (Input, bool) {
    if lease !in s.issued then (s, false)
    else (s.(active := Some(lease), issued := set l | l in s.issued && l >= lease), true)
  }

  /** Issue and activate under one lock. */
  function AttachLease(s: Input): (Input, Option<nat>) {
    var (issued, lease) := Issue(s);
    if lease.None? then (issued, None) else (ActivateLease(issued, lease.value).0, lease)
  }

  /** Only the holder of the latest lease may renew it. */
  function ResumeFrom(s: Input, previous: nat): (Input, Option<nat>) {
    if previous == 0 || s.next != previous then (s, None) else AttachLease(s)
  }

  /** What of the bytes reaches the PTY: all of them, or as many as went before the failure. */
  function Sent(bytes: seq<Byte>, failed: Option<nat>): (sent: seq<Byte>)
    ensures sent <= bytes && (failed.None? ==> sent == bytes)
  {
    if failed.Some? && failed.value < |bytes| then bytes[..failed.value] else bytes
  }

  function WriteInput(s: Input, lease: nat, bytes: seq<Byte>, failed: Option<nat>): (Input, bool) {
    if |bytes| > MAX_CHUNK || !Owns(s, lease) then (s, false)
    else (s.(written := s.written + [Written(lease, Sent(bytes, failed))]), failed.None?)
  }

  function ReleaseLease(s: Input, lease: nat): Input {
    s.(issued := s.issued - {lease}, active := if s.active == Some(lease) then None else s.active)
  }

  function Next(s: Input, step: Step): Input {
    match step
    case Attach => AttachLease(s).0
    case Resume(previous) => ResumeFrom(s, previous).0
    case Write(lease, bytes, failed) => WriteInput(s, lease, bytes, failed).0
    case Release(lease) => ReleaseLease(s, lease)
  }

  function Exec(s: Input, steps: seq<Step>): Input
    decreases |steps|
  {
    if steps == [] then s else Exec(Next(s, steps[0]), steps[1..])
  }

  class TerminalInputState {
    var activeLease: Option<nat>
    var issuedLeases: set<nat>
    var nextLease: nat
    var written: seq<Written>

    constructor ()
      ensures Value() == Input(None, {}, 0, [])
    {
      activeLease, issuedLeases, nextLease, written := None, {}, 0, [];
    }

    function Value(): Input
      reads this
    {
      Input(activeLease, issuedLeases, nextLease, written)
    }

    method IssueLease() returns (lease: Option<nat>)
      modifies this`issuedLeases, this`nextLease
      ensures (Value(), lease) == Issue(old(Value()))
    {
      if |issuedLeases| >= MAX_LEASES {
        return None;
      }
      ghost var from := nextLease + 1;
      ghost var passed := {};
      nextLease := nextLease + 1;
      while nextLease in issuedLeases
        invariant from <= nextLease && issuedLeases == old(issuedLeases)
        invariant forall k | from <= k < nextLease :: k in issuedLeases
        invariant passed <= issuedLeases && forall k | k in passed :: k < nextLease
        decreases |issuedLeases| - |passed|
      {
        SmallerThanAll(passed, issuedLeases, nextLease);
        passed := passed + {nextLease};
        nextLease := nextLease + 1;
      }
      issuedLeases := issuedLeases + {nextLease};
      return Some(nextLease);
    }

    method Activate(lease: nat) returns (ok: bool)
      modifies this`activeLease, this`issuedLeases
      ensures (Value(), ok) == ActivateLease(old(Value()), lease)
    {
      if lease !in issuedLeases {
        return false;
      }
      activeLease := Some(lease);
      issuedLeases := set l | l in issuedLeases && l >= lease;
      return true;
    }

    method Attach() returns (lease: Option<nat>)
      modifies this`activeLease, this`issuedLeases, this`nextLease
      ensures (Value(), lease) == AttachLease(old(Value()))
    {
      lease := IssueLease();
      if lease.Some? {
        var ok := Activate(lease.value);
      }
    }

    method ResumeLease(previous: nat) returns (lease: Option<nat>)
      modifies this`activeLease, this`issuedLeases, this`nextLease
      ensures (Value(), lease) == ResumeFrom(old(Value()), previous)
    {
      if previous == 0 || nextLease != previous {
        return None;
      }
      lease := Attach();
    }

    /** `write_all` goes on until everything is written or a write fails. */
    method Write(lease: nat, bytes: seq<Byte>, failed: Option<nat>) returns (ok: bool)
      modifies this`written
      ensures (Value(), ok) == WriteInput(old(Value()), lease, bytes, failed)
    {
      if |bytes| > MAX_CHUNK || activeLease != Some(lease) || lease !in issuedLeases {
        return false;
      }
      written := written + [Written(lease, Sent(bytes, failed))];
      return failed.None?;
    }

    method Release(lease: nat)
      modifies this`activeLease, this`issuedLeases
      ensures Value() == ReleaseLease(old(Value()), lease)
    {
      issuedLeases := issuedLeases - {lease};
      if activeLease == Some(lease) {
        activeLease := None;
      }
    }
  }

  lemma SmallerThanAll(passed: set<nat>, issued: set<nat>, next: nat)
    requires passed <= issued && next in issued && next !in passed
    ensures |passed + {next}| == |passed| + 1 && |passed + {next}| <= |issued|
  {
    SubsetSize(passed + {next}, issued);
  }

  // ---- Authority only moves forward --------------------------------------------------------------

  /** Only the active lease is issued, and everything written came under a lease no later than
      the latest, in order. */
  ghost predicate Inv(s: Input) {
    && s.issued == (if s.active.Some? then {s.active.value} else {})
    && (s.active.Some? ==> s.active.value == s.next)
    && (forall k | 0 <= k < |s.written| :: s.written[k].lease <= s.next)
    && (forall i, j | 0 <= i < j < |s.written| :: s.written[i].lease <= s.written[j].lease)
  }

  const INITIAL := Input(None, {}, 0, [])

  /** The limit on issued leases is never in the way: attaching always succeeds, with the next
      number, and leaves exactly that lease issued. */
  lemma AttachSucceeds(s: Input)
    requires Inv(s)
    ensures AttachLease(s) == (s.(active := Some(s.next + 1), issued := {s.next + 1}, next := s.next + 1),
      Some(s.next + 1))
  {
    assert |s.issued| <= 1;
    assert NextUnissued(s.issued, s.next + 1) == s.next + 1;
    var issued := s.issued + {s.next + 1};
    assert (set l | l in issued && l >= s.next + 1) == {s.next + 1};
  }

  lemma NextKeeps(s: Input, step: Step)
    requires Inv(s)
    ensures Inv(Next(s, step)) && s.next <= Next(s, step).next
  {
    AttachSucceeds(s);
  }

  lemma {:induction false} ExecKeeps(s: Input, steps: seq<Step>)
    requires Inv(s)
    ensures Inv(Exec(s, steps)) && s.next <= Exec(s, steps).next
    decreases |steps|
  {
    if steps != [] {
      NextKeeps(s, steps[0]);
      ExecKeeps(Next(s, steps[0]), steps[1..]);
    }
  }

  /** A lease that was superseded or released never owns the input again, whatever happens. */
  lemma {:induction false} LostForGood(s: Input, steps: seq<Step>, lease: nat)
    requires Inv(s) && lease <= s.next && !Owns(s, lease)
    ensures !Owns(Exec(s, steps), lease)
    decreases |steps|
  {
    if steps != [] {
      NextKeeps(s, steps[0]);
      AttachSucceeds(s);
      LostForGood(Next(s, steps[0]), steps[1..], lease);
    }
  }

  /** A connection can be resumed exactly by the holder of the last lease ever issued: it may
      have been dropped, but nobody else attached since. */
  lemma ResumeIffLatest(s: Input, previous: nat)
    requires Inv(s)
    ensures ResumeFrom(s, previous).1.Some? <==> previous == s.next && s.next > 0
    ensures ResumeFrom(s, previous).1.Some? ==> Owns(ResumeFrom(s, previous).0, s.next + 1)
  {
    AttachSucceeds(s);
  }

  /** In every run input from an older attachment never follows input from a newer one. */
  lemma InputInLeaseOrder(steps: seq<Step>, i: nat, j: nat)
    requires i < j < |Exec(INITIAL, steps).written|
    ensures Exec(INITIAL, steps).written[i].lease <= Exec(INITIAL, steps).written[j].lease
  {
    ExecKeeps(INITIAL, steps);
  }

  // ---- Who holds the input, told from the steps alone ----------------------------------------------

  /** The number of the last lease, and whether it is still held. */
  datatype Holding = Holding(last: nat, held: bool)

  /** Attaching, and resuming by the last holder, takes the next number; releasing the last lease ends it. */
  function Follows(x: Holding, step: Step): Holding {
    match step
    case Attach => Holding(x.last + 1, true)
    case Resume(previous) => if previous == x.last && previous > 0 then Holding(x.last + 1, true) else x
    case Write(_, _, _) => x
    case Release(lease) => if lease == x.last then Holding(x.last, false) else x
  }

  function HoldingAfter(x: Holding, steps: seq<Step>): Holding
    decreases |steps|
  {
    if steps == [] then x else HoldingAfter(Follows(x, steps[0]), steps[1..])
  }

  predicate Reflects(s: Input, x: Holding) {
    s.next == x.last && s.active == (if x.held then Some(x.last) else None) && (x.held ==> x.last > 0)
  }

  lemma StepReflects(s: Input, x: Holding, step: Step)
    requires Inv(s) && Reflects(s, x)
    ensures Reflects(Next(s, step), Follows(x, step))
  {
    AttachSucceeds(s);
  }

  lemma {:induction false} RunReflects(s: Input, x: Holding, steps: seq<Step>)
    requires Inv(s) && Reflects(s, x)
    ensures Inv(Exec(s, steps)) && Reflects(Exec(s, steps), HoldingAfter(x, steps))
    decreases |steps|
  {
    if steps != [] {
      NextKeeps(s, steps[0]);
      StepReflects(s, x, steps[0]);
      RunReflects(Next(s, steps[0]), Follows(x, steps[0]), steps[1..]);
    }
  }

  /** In every run, a write of at most 64 KiB by the holder of the last lease, while that is not released,
      reaches the PTY: all of it, or what went before the failure. No other write reaches it. */
  lemma HolderWrites(steps: seq<Step>, lease: nat, bytes: seq<Byte>, failed: Option<nat>)
    ensures var s := Exec(INITIAL, steps); var x := HoldingAfter(Holding(0, false), steps);
      var (after, ok) := WriteInput(s, lease, bytes, failed);
      var admitted := x.held && lease == x.last && |bytes| <= 65536;
      var reached := if failed.Some? && failed.value < |bytes| then bytes[..failed.value] else bytes;
      && (ok <==> admitted && failed.None?)
      && after == s.(written := if admitted then s.written + [Written(lease, reached)] else s.written)
  {
    RunReflects(INITIAL, Holding(0, false), steps);
  }

  /** In every run, attaching is granted the next lease; resuming is, to the holder of the last one, and to
      nobody else. */
  lemma LeasesInTurn(steps: seq<Step>, previous: nat)
    ensures var s := Exec(INITIAL, steps); var x := HoldingAfter(Holding(0, false), steps);
      && AttachLease(s).1 == Some(x.last + 1) && Owns(AttachLease(s).0, x.last + 1)
      && ResumeFrom(s, previous).1 == (if previous == x.last && previous > 0 then Some(x.last + 1) else None)
  {
    RunReflects(INITIAL, Holding(0, false), steps);
    AttachSucceeds(Exec(INITIAL, steps));
  }
}
