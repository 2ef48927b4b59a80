/** What the browser forgets of the jobs and transfers it shows: the first finished ones in the list, and
    no more of them than its limits demand. */
module BrowserRetention {
  import opened Prelude
  import opened BrowserMerge
  import CJ = CommandJobs

  /** The list without its first `n` finished items. */
  function WithoutFirst<T>(items: seq<T>, finished: T -> bool, n: nat): (r: seq<T>)
    ensures |r| <= |items|
  {
    if n == 0 || items == [] then items
    else if finished(items[0]) then WithoutFirst(items[1..], finished, n - 1)
    else [items[0]] + WithoutFirst(items[1..], finished, n)
  }

  ghost predicate NoneFinished<T>(items: seq<T>, finished: T -> bool) { forall x | x in items :: !finished(x) }

  lemma {:induction false} NoneToDrop<T>(items: seq<T>, finished: T -> bool, n: nat)
    requires NoneFinished(items, finished)
    ensures WithoutFirst(items, finished, n) == items
  {
    if n > 0 && items != [] {
      assert finished(items[0]) == false && forall x | x in items[1..] :: x in items;
      NoneToDrop(items[1..], finished, n);
      assert [items[0]] + items[1..] == items;
    }
  }

  /** Taking out the first finished item is the first step of taking out more. */
  lemma {:induction false} SpliceThenMore<T>(items: seq<T>, finished: T -> bool, at: nat, n: nat)
    requires IsFirst(items, finished, at)
    ensures WithoutFirst(Splice(items, at), finished, n) == WithoutFirst(items, finished, n + 1)
  {
    if at == 0 {
      assert Splice(items, 0) == items[1..];
    } else {
      assert !finished(items[0]);
      assert IsFirst(items[1..], finished, at - 1);
      SpliceThenMore(items[1..], finished, at - 1, n);
      assert Splice(items, at) == [items[0]] + Splice(items[1..], at - 1);
      SpliceFront(items, finished, at, n);
    }
  }

  lemma SpliceFront<T>(items: seq<T>, finished: T -> bool, at: nat, n: nat)
    requires 0 < at < |items| && !finished(items[0])
    requires Splice(items, at) == [items[0]] + Splice(items[1..], at - 1)
    ensures WithoutFirst(Splice(items, at), finished, n) == [items[0]] + WithoutFirst(Splice(items[1..], at - 1),
      finished, n)
  {
    var s := Splice(items, at);
    assert s[0] == items[0] && s[1..] == Splice(items[1..], at - 1);
  }

  /** `r` is `items` without its first `n` finished ones; every list with fewer taken out was over the
      limit, and so is `r` only if nothing finished is left. */
  ghost predicate DropsAsFew<T(!new)>(items: seq<T>, over: seq<T> -> bool, finished: T -> bool, n: nat, r: seq<T>) {
    && r == WithoutFirst(items, finished, n)
    && (forall m: nat | m < n :: over(WithoutFirst(items, finished, m)))
    && (over(r) ==> NoneFinished(r, finished))
  }

  lemma {:induction false} RetainDropsFirst<T(!new)>(items: seq<T>, over: seq<T> -> bool, finished: T -> bool)
      returns (n: nat)
    ensures DropsAsFew(items, over, finished, n, Retain(items, over, finished))
    decreases |items|
  {
    var at := FindFirst(items, finished);
    n := 0;
    if over(items) && at.Some? {
      var rest := Splice(items, at.value);
      var k := RetainDropsFirst(rest, over, finished);
      SpliceThenMore(items, finished, at.value, k);
      forall m: nat | m < k + 1 ensures over(WithoutFirst(items, finished, m)) {
        if m > 0 { SpliceThenMore(items, finished, at.value, m - 1); }
      }
      n := k + 1;
    } else if at.None? {
      assert NoneFinished(items, finished);
    }
  }

  lemma {:induction false} DropTwice<T>(items: seq<T>, finished: T -> bool, m: nat, n: nat)
    ensures WithoutFirst(WithoutFirst(items, finished, m), finished, n) == WithoutFirst(items, finished, m + n)
    decreases |items|
  {
    if m > 0 && items != [] {
      if finished(items[0]) {
        DropTwice(items[1..], finished, m - 1, n);
      } else {
        DropTwice(items[1..], finished, m, n);
        var first := WithoutFirst(items, finished, m);
        assert first[0] == items[0] && first[1..] == WithoutFirst(items[1..], finished, m);
      }
    }
  }

  lemma {:induction false} KeptAreThere<T>(items: seq<T>, finished: T -> bool, n: nat)
    ensures forall x | x in WithoutFirst(items, finished, n) :: x in items
  {
    if n > 0 && items != [] {
      KeptAreThere(items[1..], finished, if finished(items[0]) then n - 1 else n);
    }
  }

  /** Dropping for one limit and then for another is dropping for either. */
  lemma DropsForEither<T(!new)>(items: seq<T>, one: seq<T> -> bool, two: seq<T> -> bool, either: seq<T> -> bool,
      finished: T -> bool, a: nat, few: seq<T>, b: nat, r: seq<T>)
    requires DropsAsFew(items, one, finished, a, few) && DropsAsFew(few, two, finished, b, r)
    requires (forall x :: either(x) <==> one(x) || two(x)) && (one(r) ==> one(few))
    ensures DropsAsFew(items, either, finished, a + b, r)
  {
    DropTwice(items, finished, a, b);
    KeptAreThere(few, finished, b);
    forall m: nat | m < a + b ensures either(WithoutFirst(items, finished, m)) {
      if m >= a {
        DropTwice(items, finished, a, m - a);
        assert two(WithoutFirst(few, finished, m - a));
      } else {
        assert one(WithoutFirst(items, finished, m));
      }
    }
  }

  // ---- Jobs and transfers -----------------------------------------------------------------------------------

  predicate Ended(j: CJ.Job) { j.state.Completed? || j.state.Failed? || j.state.Cancelled? }

  /** More than 512 jobs, or more than 16 MiB of output. */
  predicate TooLarge(items: seq<CJ.Job>) { |items| > 512 || OutputTotal(items) > 16777216 }

  lemma {:induction false} SameDrops<T>(items: seq<T>, one: T -> bool, two: T -> bool, n: nat)
    requires forall x | x in items :: one(x) == two(x)
    ensures WithoutFirst(items, one, n) == WithoutFirst(items, two, n)
  {
    if n > 0 && items != [] {
      assert items[0] in items && forall x | x in items[1..] :: x in items;
      SameDrops(items[1..], one, two, if one(items[0]) then n - 1 else n);
    }
  }

  lemma SameDropsAsFew<T(!new)>(items: seq<T>, over: seq<T> -> bool, one: T -> bool, two: T -> bool, n: nat, r: seq<T>)
    requires DropsAsFew(items, over, one, n, r) && forall x :: one(x) == two(x)
    ensures DropsAsFew(items, over, two, n, r)
  {
    SameDrops(items, one, two, n);
    forall m: nat | m < n ensures over(WithoutFirst(items, two, m)) { SameDrops(items, one, two, m); }
  }

  lemma TooLargeIsEither(items: seq<CJ.Job>)
    ensures TooLarge(items) <==> TooMany(items) || TooMuchOutput(items)
  {
  }

  lemma EndedIsFinished(j: CJ.Job)
    ensures JobFinished(j) == Ended(j)
  {
  }

  lemma ForgetsForEither(items: seq<CJ.Job>, a: nat, few: seq<CJ.Job>, b: nat, r: seq<CJ.Job>)
    requires DropsAsFew(items, TooMany, JobFinished, a, few) && DropsAsFew(few, TooMuchOutput, JobFinished, b, r)
    ensures DropsAsFew(items, TooLarge, JobFinished, a + b, r)
  {
    forall x ensures TooLarge(x) <==> TooMany(x) || TooMuchOutput(x) { TooLargeIsEither(x); }
    assert |r| <= |few|;
    DropsForEither(items, TooMany, TooMuchOutput, TooLarge, JobFinished, a, few, b, r);
  }

  /** The browser forgets the first ended jobs in its list, as few as it takes for at most 512 jobs and
      16 MiB of output to be left, and nothing else. */
  lemma JobsForgotten(items: seq<CJ.Job>) returns (n: nat)
    ensures DropsAsFew(items, TooLarge, Ended, n, RetainJobs(items))
  {
    var few := Retain(items, TooMany, JobFinished);
    var a := RetainDropsFirst(items, TooMany, JobFinished);
    var b := RetainDropsFirst(few, TooMuchOutput, JobFinished);
    n := a + b;
    ForgetsForEither(items, a, few, b, RetainJobs(items));
    forall j ensures JobFinished(j) == Ended(j) { EndedIsFinished(j); }
    SameDropsAsFew(items, TooLarge, JobFinished, Ended, n, RetainJobs(items));
  }

  predicate TooLong(items: seq<Transfer>) { |items| > 512 }

  predicate Over(t: Transfer) { t.finished }

  /** Of transfers, the first finished ones are forgotten, as few as it takes for at most 512 to be left. */
  lemma TransfersForgotten(items: seq<Transfer>) returns (n: nat)
    ensures DropsAsFew(items, TooLong, Over, n, RetainTransfers(items))
  {
    n := RetainDropsFirst(items, TooMany, TransferFinished);
    SameDropsAsFew(items, TooMany, TransferFinished, Over, n, RetainTransfers(items));
    forall m: nat | m < n ensures TooLong(WithoutFirst(items, Over, m)) {
      assert TooMany(WithoutFirst(items, Over, m));
    }
  }
}
