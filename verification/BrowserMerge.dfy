/** How the browser merges the snapshots of jobs and terminals, and what it shows in the end,
    whatever order and repetition they arrive in. */
module BrowserMerge {
  import opened Prelude
  import CJ = CommandJobs
  import TS = TerminalSlots

  const MAX_TASKS := 512
  const MAX_OUTPUT := 16 * 1024 * 1024
  const RANK_STEP := 10_000_000

  // ---- Merging by a key and an order --------------------------------------------------------------------

  type Order = (nat, nat)

  predicate Less(a: Order, b: Order) { a.0 < b.0 || (a.0 == b.0 && a.1 < b.1) }

  /** How items of one kind are told apart and compared; `ties` lets an equal item replace. */
  datatype Kind<!T> = Kind(key: T -> string, order: T -> Order, ties: bool)

  predicate IsNewer<T>(k: Kind<T>, previous: T, incoming: T) {
    Less(k.order(previous), k.order(incoming)) || (k.ties && k.order(previous) == k.order(incoming))
  }

  predicate DistinctKeys<T>(k: Kind<T>, items: seq<T>) {
    forall i, j | 0 <= i < j < |items| :: k.key(items[i]) != k.key(items[j])
  }

  predicate HasKey<T>(k: Kind<T>, x: T, item: T) { k.key(item) == k.key(x) }

  /** Replaces the item with the same key if the new one is newer; an unknown key is appended. */
  function Upsert<T>(k: Kind<T>, items: seq<T>, x: T): (r: seq<T>) {
    var at := FindFirst(items, (item: T) => HasKey(k, x, item));
    if at.None? then items + [x]
    else if IsNewer(k, items[at.value], x) then items[at.value := x]
    else items
  }

  function UpsertAll<T>(k: Kind<T>, items: seq<T>, xs: seq<T>): (r: seq<T>)
    decreases |xs|
  {
    if xs == [] then items else UpsertAll(k, Upsert(k, items, xs[0]), xs[1..])
  }

  method MergeListing<T>(k: Kind<T>, current: seq<T>, listing: seq<T>) returns (merged: seq<T>)
    ensures merged == UpsertAll(k, current, listing)
  {
    merged := current;
    var i := 0;
    while i < |listing|
      invariant i <= |listing| && UpsertAll(k, merged, listing[i..]) == UpsertAll(k, current, listing)
    {
      assert listing[i..][1..] == listing[i + 1..];
      merged := Upsert(k, merged, listing[i]);
      i := i + 1;
    }
  }

  /** Some item stands for `x`: it has its key and is not older. */
  ghost predicate Shown<T(!new)>(k: Kind<T>, items: seq<T>, x: T) {
    exists i: nat | i < |items| :: ShownAt(k, items, x, i)
  }

  predicate ShownAt<T>(k: Kind<T>, items: seq<T>, x: T, i: nat) {
    i < |items| && HasKey(k, x, items[i]) && !Less(k.order(items[i]), k.order(x))
  }

  /** `items` holds for every delivered key one of the delivered items, and none newer was
      delivered. */
  ghost predicate Newest<T(!new)>(k: Kind<T>, delivered: seq<T>, items: seq<T>) {
    && DistinctKeys(k, items)
    && (forall i | 0 <= i < |items| :: items[i] in delivered)
    && (forall x {:trigger Shown(k, items, x)} | x in delivered :: Shown(k, items, x))
  }

  /** Whatever stood for an item is replaced only by something newer. */
  lemma UpsertKeepsShown<T(!new)>(k: Kind<T>, items: seq<T>, x: T, y: T)
    requires Shown(k, items, y)
    ensures Shown(k, Upsert(k, items, x), y)
  {
    var i: nat :| i < |items| && ShownAt(k, items, y, i);
    var at := FindFirst(items, (item: T) => HasKey(k, x, item));
    assert ShownAt(k, Upsert(k, items, x), y, i);
  }

  lemma UpsertShows<T(!new)>(k: Kind<T>, items: seq<T>, x: T)
    ensures Shown(k, Upsert(k, items, x), x)
  {
    var at := FindFirst(items, (item: T) => HasKey(k, x, item));
    assert ShownAt(k, Upsert(k, items, x), x, if at.None? then |items| else at.value);
  }

  lemma UpsertItems<T(!new)>(k: Kind<T>, delivered: seq<T>, items: seq<T>, x: T)
    requires DistinctKeys(k, items) && forall i | 0 <= i < |items| :: items[i] in delivered
    ensures var r := Upsert(k, items, x); DistinctKeys(k, r) && forall i | 0 <= i < |r| :: r[i] in delivered + [x]
  {
    var at := FindFirst(items, (item: T) => HasKey(k, x, item));
    assert (delivered + [x])[|delivered|] == x;
    forall y | y in delivered ensures y in delivered + [x] { }
  }

  lemma UpsertNewest<T(!new)>(k: Kind<T>, delivered: seq<T>, items: seq<T>, x: T)
    requires Newest(k, delivered, items)
    ensures Newest(k, delivered + [x], Upsert(k, items, x))
  {
    UpsertItems(k, delivered, items, x);
    forall y | y in delivered + [x] ensures Shown(k, Upsert(k, items, x), y) {
      if y in delivered {
        assert Shown(k, items, y);
        UpsertKeepsShown(k, items, x, y);
      } else {
        UpsertShows(k, items, x);
      }
    }
  }

  lemma FirstOff<T>(delivered: seq<T>, xs: seq<T>)
    requires xs != []
    ensures (delivered + [xs[0]]) + xs[1..] == delivered + xs
  {
  }

  lemma {:induction false} UpsertAllNewest<T(!new)>(k: Kind<T>, delivered: seq<T>, items: seq<T>, xs: seq<T>,
      all: seq<T>)
    requires Newest(k, delivered, items) && all == delivered + xs
    ensures Newest(k, all, UpsertAll(k, items, xs))
    decreases |xs|
  {
    if xs == [] {
      assert all == delivered;
    } else {
      UpsertNewest(k, delivered, items, xs[0]);
      FirstOff(delivered, xs);
      UpsertAllNewest(k, delivered + [xs[0]], Upsert(k, items, xs[0]), xs[1..], all);
    }
  }

  /** No two different snapshots compare equal under one key. */
  ghost predicate Consistent<T(!new)>(k: Kind<T>, xs: seq<T>) {
    forall a, b | a in xs && b in xs && k.key(a) == k.key(b) && k.order(a) == k.order(b) :: a == b
  }

  /** The newest items are determined by what was delivered, not by when or how often. */
  lemma NewestUnique<T(!new)>(k: Kind<T>, xs: seq<T>, ys: seq<T>, a: seq<T>, b: seq<T>, x: T)
    requires Newest(k, xs, a) && Newest(k, ys, b) && Consistent(k, xs) && (forall y :: y in xs <==> y in ys)
    requires x in a
    ensures x in b
  {
    assert Shown(k, b, x);
    var i: nat :| i < |b| && ShownAt(k, b, x, i);
    assert Shown(k, a, b[i]);
    var j: nat :| j < |a| && ShownAt(k, a, b[i], j);
    OneItem(k, a, x, j);
    assert k.order(b[i]) == k.order(x);
  }

  lemma OneItem<T>(k: Kind<T>, items: seq<T>, x: T, j: nat)
    requires DistinctKeys(k, items) && x in items && j < |items| && k.key(items[j]) == k.key(x)
    ensures items[j] == x
  {
    var i :| 0 <= i < |items| && items[i] == x;
  }

  /** What is shown is not older than anything delivered under its key. */
  lemma GreatestShown<T(!new)>(k: Kind<T>, delivered: seq<T>, items: seq<T>, x: T)
    requires Newest(k, delivered, items) && x in items
    ensures forall y | y in delivered && k.key(y) == k.key(x) :: !Less(k.order(x), k.order(y))
  {
    forall y | y in delivered && k.key(y) == k.key(x) ensures !Less(k.order(x), k.order(y)) {
      assert Shown(k, items, y);
      var j: nat :| j < |items| && ShownAt(k, items, y, j);
      OneItem(k, items, x, j);
    }
  }

  // ---- Retention -------------------------------------------------------------------------------------------

  function Splice<T>(items: seq<T>, i: nat): seq<T>
    requires i < |items|
  {
    items[..i] + items[i + 1..]
  }

  /** Drops finished items from the front while `over` holds. */
  function Retain<T>(items: seq<T>, over: seq<T> -> bool, finished: T -> bool): (r: seq<T>)
    ensures !over(items) ==> r == items
    ensures over(r) ==> forall x | x in r :: !finished(x)
    ensures forall x | x in r :: x in items
    ensures forall x | x in items && !finished(x) :: x in r
    decreases |items|
  {
    var at := FindFirst(items, finished);
    if !over(items) || at.None? then items else Retain(Splice(items, at.value), over, finished)
  }

  method RetainLoop<T>(items: seq<T>, over: seq<T> -> bool, finished: T -> bool) returns (retained: seq<T>)
    ensures retained == Retain(items, over, finished)
  {
    retained := items;
    while over(retained)
      invariant Retain(retained, over, finished) == Retain(items, over, finished)
      decreases |retained|
    {
      var at := FindFirst(retained, finished);
      if at.None? {
        return;
      }
      retained := Splice(retained, at.value);
    }
  }

  predicate TooMany<T>(items: seq<T>) { |items| > MAX_TASKS }

  // ---- Many deliveries -------------------------------------------------------------------------------------

  function MergeAll<T>(k: Kind<T>, retain: seq<T> -> seq<T>, current: seq<T>, deliveries: seq<seq<T>>): seq<T>
    decreases |deliveries|
  {
    if deliveries == [] then current
    else MergeAll(k, retain, retain(UpsertAll(k, current, deliveries[0])), deliveries[1..])
  }

  /** No delivery pushes the list over a retention limit. */
  predicate StaysWithin<T>(k: Kind<T>, fits: seq<T> -> bool, current: seq<T>, deliveries: seq<seq<T>>)
    decreases |deliveries|
  {
    deliveries != [] ==>
      && fits(UpsertAll(k, current, deliveries[0]))
      && StaysWithin(k, fits, UpsertAll(k, current, deliveries[0]), deliveries[1..])
  }

  lemma FirstDeliveryOff<T>(delivered: seq<T>, deliveries: seq<seq<T>>)
    requires deliveries != []
    ensures (delivered + deliveries[0]) + Flatten(deliveries[1..]) == delivered + Flatten(deliveries)
  {
  }

  lemma {:induction false} DeliveriesNewest<T(!new)>(k: Kind<T>, retain: seq<T> -> seq<T>, fits: seq<T> -> bool,
                                                    delivered: seq<T>, current: seq<T>, deliveries: seq<seq<T>>,
                                                    all: seq<T>)
    requires Newest(k, delivered, current) && StaysWithin(k, fits, current, deliveries)
    requires forall items | fits(items) :: retain(items) == items
    requires all == delivered + Flatten(deliveries)
    ensures Newest(k, all, MergeAll(k, retain, current, deliveries))
    decreases |deliveries|
  {
    if deliveries == [] {
      assert all == delivered;
    } else {
      UpsertAllNewest(k, delivered, current, deliveries[0], delivered + deliveries[0]);
      FirstDeliveryOff(delivered, deliveries);
      DeliveriesNewest(k, retain, fits, delivered + deliveries[0], UpsertAll(k, current, deliveries[0]),
        deliveries[1..], all);
    }
  }

  /** Two histories of deliveries of the same items, in any order and with any repetition, end in
      the same items, each not older than anything delivered under its key. */
  lemma DeliveriesConverge<T(!new)>(k: Kind<T>, retain: seq<T> -> seq<T>, fits: seq<T> -> bool,
                                    one: seq<seq<T>>, two: seq<seq<T>>, x: T)
    requires Consistent(k, Flatten(one)) && (forall y :: y in Flatten(one) <==> y in Flatten(two))
    requires StaysWithin(k, fits, [], one) && StaysWithin(k, fits, [], two)
    requires forall items | fits(items) :: retain(items) == items
    ensures x in MergeAll(k, retain, [], one) <==> x in MergeAll(k, retain, [], two)
    ensures x in MergeAll(k, retain, [], one) ==>
      forall y | y in Flatten(one) && k.key(y) == k.key(x) :: !Less(k.order(x), k.order(y))
  {
    assert [] + Flatten(one) == Flatten(one) && [] + Flatten(two) == Flatten(two);
    DeliveriesNewest(k, retain, fits, [], [], one, Flatten(one));
    DeliveriesNewest(k, retain, fits, [], [], two, Flatten(two));
    var a, b := MergeAll(k, retain, [], one), MergeAll(k, retain, [], two);
    if x in a {
      NewestUnique(k, Flatten(one), Flatten(two), a, b, x);
      GreatestShown(k, Flatten(one), a, x);
    }
    if x in b { NewestUnique(k, Flatten(two), Flatten(one), b, a, x); }
  }

  // ---- Command jobs ------------------------------------------------------------------------------------------

  function JobKey(j: CJ.Job): string { j.id }

  /** `commandProgress`. */
  function Progress(j: CJ.Job): nat { CJ.Rank(j.state) * RANK_STEP + j.output }

  function JobOrder(j: CJ.Job): Order { (j.revision, Progress(j)) }

  const JOBS: Kind<CJ.Job> := Kind(JobKey, JobOrder, true)

  predicate JobFinished(j: CJ.Job) { CJ.IsTerminal(j.state) }

  function OutputTotal(items: seq<CJ.Job>): nat {
    if items == [] then 0 else items[0].output + OutputTotal(items[1..])
  }

  predicate TooMuchOutput(items: seq<CJ.Job>) { OutputTotal(items) > MAX_OUTPUT }

  function RetainJobs(items: seq<CJ.Job>): seq<CJ.Job> {
    Retain(Retain(items, TooMany, JobFinished), TooMuchOutput, JobFinished)
  }

  /** `mergeCommandSnapshots`; a single event is a listing of one. */
  function MergeJobs(current: seq<CJ.Job>, incoming: seq<CJ.Job>): seq<CJ.Job> {
    RetainJobs(UpsertAll(JOBS, current, incoming))
  }

  method MergeCommandSnapshots(current: seq<CJ.Job>, incoming: seq<CJ.Job>) returns (jobs: seq<CJ.Job>)
    ensures jobs == MergeJobs(current, incoming)
  {
    jobs := MergeListing(JOBS, current, incoming);
    jobs := RetainLoop(jobs, TooMany, JobFinished);
    jobs := RetainLoop(jobs, TooMuchOutput, JobFinished);
  }

  /** `replaceCommandJob`: an older snapshot leaves the list as it is. */
  function ReplaceJob(items: seq<CJ.Job>, replacement: CJ.Job): seq<CJ.Job> {
    var at := FindFirst(items, (item: CJ.Job) => HasKey(JOBS, replacement, item));
    if at.Some? && !IsNewer(JOBS, items[at.value], replacement) then items
      else RetainJobs(Upsert(JOBS, items, replacement))
  }

  method ReplaceCommandJob(items: seq<CJ.Job>, replacement: CJ.Job) returns (jobs: seq<CJ.Job>)
    ensures jobs == ReplaceJob(items, replacement)
  {
    var at := FindFirst(items, (item: CJ.Job) => HasKey(JOBS, replacement, item));
    if at.Some? && !IsNewer(JOBS, items[at.value], replacement) {
      return items;
    }
    jobs := if at.Some? then items[at.value := replacement] else items + [replacement];
    jobs := RetainLoop(jobs, TooMany, JobFinished);
    jobs := RetainLoop(jobs, TooMuchOutput, JobFinished);
  }

  /** On a list within its limits, an event is a listing of one snapshot. */
  lemma EventIsListing(items: seq<CJ.Job>, replacement: CJ.Job)
    requires WithinLimits(items)
    ensures ReplaceJob(items, replacement) == MergeJobs(items, [replacement])
  {
    assert UpsertAll(JOBS, items, [replacement])
      == UpsertAll(JOBS, Upsert(JOBS, items, replacement), [replacement][1..]);
  }

  function MergeAllJobs(current: seq<CJ.Job>, deliveries: seq<seq<CJ.Job>>): seq<CJ.Job> {
    MergeAll(JOBS, RetainJobs, current, deliveries)
  }

  predicate WithinLimits(items: seq<CJ.Job>) { !TooMany(items) && !TooMuchOutput(items) }

  lemma SameRevisionSameIndex(log: seq<CJ.Job>, i: nat, j: nat)
    requires CJ.Orderly(log) && i < |log| && j < |log| && log[i].id == log[j].id && log[i].revision == log[j].revision
    ensures i == j
  {
  }

  /** Snapshots taken from an orderly log never disagree about a revision. */
  lemma ServerJobsConsistent(log: seq<CJ.Job>, xs: seq<CJ.Job>)
    requires CJ.Orderly(log) && forall x | x in xs :: x in log
    ensures Consistent(JOBS, xs)
  {
    forall a, b | a in xs && b in xs && JobKey(a) == JobKey(b) && JobOrder(a) == JobOrder(b) ensures a == b {
      var i :| 0 <= i < |log| && log[i] == a;
      var j :| 0 <= j < |log| && log[j] == b;
      SameRevisionSameIndex(log, i, j);
    }
  }

  /** Any two histories of deliveries of the same server snapshots, in any order and with any
      repetition, leave the same jobs, each with the greatest revision delivered. */
  lemma JobsConverge(log: seq<CJ.Job>, one: seq<seq<CJ.Job>>, two: seq<seq<CJ.Job>>, x: CJ.Job)
    requires CJ.Orderly(log) && forall y | y in Flatten(one) :: y in log
    requires forall y :: y in Flatten(one) <==> y in Flatten(two)
    requires StaysWithin(JOBS, WithinLimits, [], one) && StaysWithin(JOBS, WithinLimits, [], two)
    ensures x in MergeAllJobs([], one) <==> x in MergeAllJobs([], two)
    ensures x in MergeAllJobs([], one) ==> forall y | y in Flatten(one) && y.id == x.id :: y.revision <= x.revision
  {
    ServerJobsConsistent(log, Flatten(one));
    DeliveriesConverge(JOBS, RetainJobs, WithinLimits, one, two, x);
    if x in MergeAllJobs([], one) {
      forall y | y in Flatten(one) && y.id == x.id ensures y.revision <= x.revision {
        assert JOBS.key(y) == JOBS.key(x) && !Less(JOBS.order(x), JOBS.order(y));
      }
    }
  }

  ghost predicate IsLastMade(log: seq<CJ.Job>, k: nat) {
    k < |log| && forall i | 0 <= i < |log| && log[i].id == log[k].id :: i <= k
  }

  lemma LastIsShown(log: seq<CJ.Job>, delivered: seq<CJ.Job>, k: nat, items: seq<CJ.Job>)
    requires Newest(JOBS, delivered, items) && CJ.Orderly(log) && IsLastMade(log, k)
    requires log[k] in delivered && forall y | y in delivered :: y in log
    ensures log[k] in items && forall x | x in items && x.id == log[k].id :: x == log[k]
  {
    assert Shown(JOBS, items, log[k]);
    var i: nat :| i < |items| && ShownAt(JOBS, items, log[k], i);
    assert items[i] in log;
    var j :| 0 <= j < |log| && log[j] == items[i];
    assert j == k;
    forall x | x in items && x.id == log[k].id ensures x == log[k] { OneItem(JOBS, items, x, i); }
  }

  /** However the snapshots of a run are sent, in any order and with any repetition: once the last one
      made of a job has arrived, it is what the browser shows of that job. */
  lemma LastMadeShown(max: nat, steps: seq<CJ.Step>, deliveries: seq<seq<CJ.Job>>, k: nat)
    requires CJ.RunIdsNew(CJ.Initial(max), steps) && StaysWithin(JOBS, WithinLimits, [], deliveries)
    requires var log := CJ.Exec(CJ.Initial(max), steps).log;
      IsLastMade(log, k) && log[k] in Flatten(deliveries) && forall y | y in Flatten(deliveries) :: y in log
    ensures var last := CJ.Exec(CJ.Initial(max), steps).log[k]; var shown := MergeAllJobs([], deliveries);
      last in shown && forall x | x in shown && x.id == last.id :: x == last
  {
    CJ.EveryRun(max, steps);
    assert [] + Flatten(deliveries) == Flatten(deliveries);
    DeliveriesNewest(JOBS, RetainJobs, WithinLimits, [], [], deliveries, Flatten(deliveries));
    LastIsShown(CJ.Exec(CJ.Initial(max), steps).log, Flatten(deliveries), k, MergeAllJobs([], deliveries));
  }

  // ---- Transfers ---------------------------------------------------------------------------------------------

  /** `updatedAt` is the parsed time; `finished` says whether the state is a final one. */
  datatype Transfer = Transfer(id: string, revision: nat, updatedAt: nat, finished: bool)

  function TransferKey(t: Transfer): string { t.id }

  function TransferOrder(t: Transfer): Order { (t.revision, t.updatedAt) }

  const TRANSFERS: Kind<Transfer> := Kind(TransferKey, TransferOrder, true)

  predicate TransferFinished(t: Transfer) { t.finished }

  function RetainTransfers(items: seq<Transfer>): seq<Transfer> { Retain(items, TooMany, TransferFinished) }

  predicate FewTransfers(items: seq<Transfer>) { !TooMany(items) }

  method MergeTransferSnapshots(current: seq<Transfer>, incoming: seq<Transfer>) returns (jobs: seq<Transfer>)
    ensures jobs == RetainTransfers(UpsertAll(TRANSFERS, current, incoming))
  {
    jobs := MergeListing(TRANSFERS, current, incoming);
    jobs := RetainLoop(jobs, TooMany, TransferFinished);
  }

  /** Deliveries of the same transfers, of which no two share id, revision and time, converge. */
  lemma TransfersConverge(one: seq<seq<Transfer>>, two: seq<seq<Transfer>>, x: Transfer)
    requires Consistent(TRANSFERS, Flatten(one)) && (forall y :: y in Flatten(one) <==> y in Flatten(two))
    requires StaysWithin(TRANSFERS, FewTransfers, [], one) && StaysWithin(TRANSFERS, FewTransfers, [], two)
    ensures x in MergeAll(TRANSFERS, RetainTransfers, [], one) <==> x in MergeAll(TRANSFERS, RetainTransfers, [], two)
    ensures x in MergeAll(TRANSFERS, RetainTransfers, [], one) ==>
      forall y | y in Flatten(one) && y.id == x.id :: y.revision <= x.revision
  {
    DeliveriesConverge(TRANSFERS, RetainTransfers, FewTransfers, one, two, x);
    if x in MergeAll(TRANSFERS, RetainTransfers, [], one) {
      forall y | y in Flatten(one) && y.id == x.id ensures y.revision <= x.revision {
        assert TRANSFERS.key(y) == TRANSFERS.key(x) && !Less(TRANSFERS.order(x), TRANSFERS.order(y));
      }
    }
  }

  // ---- Terminals -----------------------------------------------------------------------------------------------

  function TerminalKey(s: TS.Snapshot): string { s.sessionId }

  function TerminalOrder(s: TS.Snapshot): Order { (s.generation, s.revision) }

  const TERMINALS: Kind<TS.Snapshot> := Kind(TerminalKey, TerminalOrder, false)

  method MergeTerminalListing(current: seq<TS.Snapshot>, listing: seq<TS.Snapshot>) returns (merged: seq<TS.Snapshot>)
    ensures merged == UpsertAll(TERMINALS, current, listing)
  {
    merged := MergeListing(TERMINALS, current, listing);
  }

  /** `mergeTerminalEvent` for an event that carries a snapshot. */
  method MergeTerminalEvent(current: seq<TS.Snapshot>, snapshot: TS.Snapshot) returns (merged: seq<TS.Snapshot>)
    ensures merged == UpsertAll(TERMINALS, current, [snapshot])
  {
    assert UpsertAll(TERMINALS, current, [snapshot])
      == UpsertAll(TERMINALS, Upsert(TERMINALS, current, snapshot), [snapshot][1..]);
    var index := FindFirst(current, (item: TS.Snapshot) => HasKey(TERMINALS, snapshot, item));
    if index.None? {
      return current + [snapshot];
    }
    if !IsNewer(TERMINALS, current[index.value], snapshot) {
      return current;
    }
    return current[index.value := snapshot];
  }

  lemma ServerTerminalsConsistent(log: seq<TS.Snapshot>, xs: seq<TS.Snapshot>)
    requires TS.RevisionsIncrease(log) && forall x | x in xs :: x in log
    ensures Consistent(TERMINALS, xs)
  {
    forall a, b | a in xs && b in xs && TerminalKey(a) == TerminalKey(b) && TerminalOrder(a) == TerminalOrder(b)
      ensures a == b {
      var i :| 0 <= i < |log| && log[i] == a;
      var j :| 0 <= j < |log| && log[j] == b;
      assert i == j;
    }
  }

  /** Listings and events of terminals, in any order and with any repetition, leave for each
      session the lexicographically greatest generation and revision delivered. */
  lemma TerminalsConverge(log: seq<TS.Snapshot>, one: seq<TS.Snapshot>, two: seq<TS.Snapshot>, x: TS.Snapshot)
    requires TS.RevisionsIncrease(log) && forall y | y in one :: y in log
    requires forall y :: y in one <==> y in two
    ensures x in UpsertAll(TERMINALS, [], one) <==> x in UpsertAll(TERMINALS, [], two)
    ensures x in UpsertAll(TERMINALS, [], one) ==>
      forall y | y in one && y.sessionId == x.sessionId :: !Less(TerminalOrder(x), TerminalOrder(y))
  {
    assert [] + one == one && [] + two == two;
    UpsertAllNewest(TERMINALS, [], [], one, one);
    UpsertAllNewest(TERMINALS, [], [], two, two);
    ServerTerminalsConsistent(log, one);
    ServerTerminalsConsistent(log, two);
    var a, b := UpsertAll(TERMINALS, [], one), UpsertAll(TERMINALS, [], two);
    if x in a {
      NewestUnique(TERMINALS, one, two, a, b, x);
      GreatestShown(TERMINALS, one, a, x);
    }
    if x in b { NewestUnique(TERMINALS, two, one, b, a, x); }
  }

  ghost predicate IsLastRecorded(log: seq<TS.Snapshot>, k: nat) {
    k < |log| && forall i | 0 <= i < |log| && log[i].sessionId == log[k].sessionId :: i <= k
  }

  ghost predicate GenerationsReach(log: seq<TS.Snapshot>, k: nat) {
    k < |log| && forall i | 0 <= i < |log| && log[i].sessionId == log[k].sessionId ::
      log[i].generation <= log[k].generation
  }

  lemma ShownReaches(log: seq<TS.Snapshot>, delivered: seq<TS.Snapshot>, k: nat, items: seq<TS.Snapshot>)
    requires Newest(TERMINALS, delivered, items) && k < |log| && log[k] in items
      && forall y | y in log :: y in delivered
    ensures GenerationsReach(log, k)
  {
    GreatestShown(TERMINALS, delivered, items, log[k]);
    forall i | 0 <= i < |log| && log[i].sessionId == log[k].sessionId ensures log[i].generation <= log[k].generation {
      assert log[i] in delivered && TERMINALS.key(log[i]) == TERMINALS.key(log[k]);
      assert !Less(TerminalOrder(log[k]), TerminalOrder(log[i]));
    }
  }

  lemma ReachingIsShown(log: seq<TS.Snapshot>, delivered: seq<TS.Snapshot>, k: nat, items: seq<TS.Snapshot>)
    requires Newest(TERMINALS, delivered, items) && TS.RevisionsIncrease(log) && IsLastRecorded(log, k)
      && GenerationsReach(log, k)
    requires log[k] in delivered && forall y | y in delivered :: y in log
    ensures log[k] in items
  {
    assert Shown(TERMINALS, items, log[k]);
    var i: nat :| i < |items| && ShownAt(TERMINALS, items, log[k], i);
    assert items[i] in log;
    var j :| 0 <= j < |log| && log[j] == items[i];
    assert j == k;
  }

  /** However the snapshots of a run are sent, in any order and with any repetition: what is shown for a
      session is the one the server recorded last, exactly when no earlier one has a higher generation. */
  lemma LastRecordedShown(steps: seq<TS.Step>, delivered: seq<TS.Snapshot>, k: nat)
    requires TS.RunIdsNew(TS.INITIAL, steps)
    requires var log := TS.Exec(TS.INITIAL, steps).log;
      IsLastRecorded(log, k) && forall y :: y in delivered <==> y in log
    ensures var log := TS.Exec(TS.INITIAL, steps).log;
      log[k] in UpsertAll(TERMINALS, [], delivered) <==> GenerationsReach(log, k)
  {
    var log := TS.Exec(TS.INITIAL, steps).log;
    var items := UpsertAll(TERMINALS, [], delivered);
    TS.EveryRun(steps);
    assert [] + delivered == delivered;
    UpsertAllNewest(TERMINALS, [], [], delivered, delivered);
    if log[k] in items { ShownReaches(log, delivered, k, items); }
    if GenerationsReach(log, k) { ReachingIsShown(log, delivered, k, items); }
  }

  // ---- Which arrivals replace what is shown ------------------------------------------------------------------

  /** The shown item with the key of the new one is `items[i]`; it alone may be replaced. */
  lemma KeyIsAt<T>(k: Kind<T>, items: seq<T>, x: T, i: nat)
    requires DistinctKeys(k, items) && i < |items| && k.key(items[i]) == k.key(x)
    ensures Upsert(k, items, x) == if IsNewer(k, items[i], x) then items[i := x] else items
  {
    var at := FindFirst(items, (item: T) => HasKey(k, x, item));
    assert HasKey(k, x, items[i]);
    assert at.Some? && HasKey(k, x, items[at.value]);
  }

  lemma KeyIsNew<T(!new)>(k: Kind<T>, items: seq<T>, x: T)
    requires forall i | 0 <= i < |items| :: k.key(items[i]) != k.key(x)
    ensures Upsert(k, items, x) == items + [x]
  {
    var at := FindFirst(items, (item: T) => HasKey(k, x, item));
    assert at.Some? ==> HasKey(k, x, items[at.value]);
  }

  /** How far a job is: each state on its way counts for ten million bytes of output. */
  function FarAs(j: CJ.Job): nat {
    j.output + if j.state.Queued? then 0 else if j.state.Running? then 10_000_000
               else if j.state.Cancelling? then 20_000_000 else 30_000_000
  }

  /** An arriving job replaces the one shown if and only if its revision is higher, or the same and it is at
      least as far. */
  lemma JobReplaces(items: seq<CJ.Job>, x: CJ.Job, i: nat)
    requires DistinctKeys(JOBS, items) && i < |items| && items[i].id == x.id
    ensures Upsert(JOBS, items, x) ==
      if x.revision > items[i].revision || (x.revision == items[i].revision && FarAs(x) >= FarAs(items[i]))
      then items[i := x] else items
  {
    KeyIsAt(JOBS, items, x, i);
  }

  /** An arriving transfer does if and only if its revision is higher, or the same and it is not older. */
  lemma TransferReplaces(items: seq<Transfer>, x: Transfer, i: nat)
    requires DistinctKeys(TRANSFERS, items) && i < |items| && items[i].id == x.id
    ensures Upsert(TRANSFERS, items, x) ==
      if x.revision > items[i].revision || (x.revision == items[i].revision && x.updatedAt >= items[i].updatedAt)
      then items[i := x] else items
  {
    KeyIsAt(TRANSFERS, items, x, i);
  }

  /** An arriving terminal does if and only if its generation is higher, or the same and its revision is. */
  lemma TerminalReplaces(items: seq<TS.Snapshot>, x: TS.Snapshot, i: nat)
    requires DistinctKeys(TERMINALS, items) && i < |items| && items[i].sessionId == x.sessionId
    ensures Upsert(TERMINALS, items, x) ==
      if x.generation > items[i].generation
         || (x.generation == items[i].generation && x.revision > items[i].revision)
      then items[i := x] else items
  {
    KeyIsAt(TERMINALS, items, x, i);
  }
}
