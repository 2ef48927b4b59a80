/** What a log keeps that drops its oldest entries: the longest recent stretch within its limits. */
module Retention {
  import opened Prelude

  datatype Limits = Limits(entries: Option<nat>, weight: nat)

  function Weight<T>(h: seq<T>, size: T -> nat): (n: nat) {
    if h == [] then 0 else size(h[0]) + Weight(h[1..], size)
  }

  predicate Fits<T>(h: seq<T>, size: T -> nat, l: Limits) {
    (l.entries.Some? ==> |h| <= l.entries.value) && Weight(h, size) <= l.weight
  }

  /** How many of the oldest entries are gone: as few as the limits allow. */
  function FirstKept<T>(h: seq<T>, size: T -> nat, l: Limits): (k: nat)
    ensures k <= |h| && Fits(h[k..], size, l) && forall j | 0 <= j < k :: !Fits(h[j..], size, l)
  {
    if Fits(h, size, l) then
      assert h[0..] == h;
      0
    else
      var k := FirstKept(h[1..], size, l) + 1;
      assert h[0..] == h;
      assert h[1..][k - 1..] == h[k..];
      assert forall j | 0 <= j < k :: !Fits(h[j..], size, l) by {
        forall j | 1 <= j < k ensures !Fits(h[j..], size, l) { assert h[1..][j - 1..] == h[j..]; }
      }
      k
  }

  lemma {:induction false} WeightAppend<T>(a: seq<T>, b: seq<T>, size: T -> nat)
    ensures Weight(a + b, size) == Weight(a, size) + Weight(b, size)
  {
    if a == [] {
      assert a + b == b;
    } else {
      assert (a + b)[1..] == a[1..] + b;
      WeightAppend(a[1..], b, size);
    }
  }

  lemma WeightOne<T>(x: T, size: T -> nat)
    ensures Weight([x], size) == size(x)
  {
    assert Weight([x], size) == size(x) + Weight([x][1..], size);
  }

  /** None of the stretches that start before `first` fits. */
  ghost predicate Overfull<T>(h: seq<T>, size: T -> nat, l: Limits, first: nat) {
    first <= |h| && forall j | 0 <= j < first :: !Fits(h[j..], size, l)
  }

  /** What did not fit before does not fit with one entry more. */
  lemma OverfullAppend<T>(h: seq<T>, size: T -> nat, l: Limits, first: nat, x: T)
    requires Overfull(h, size, l, first)
    ensures Overfull(h + [x], size, l, first)
  {
    forall j | 0 <= j < first ensures !Fits((h + [x])[j..], size, l) {
      assert (h + [x])[j..] == h[j..] + [x];
      WeightAppend(h[j..], [x], size);
    }
  }

  lemma FirstKeptUnique<T>(h: seq<T>, size: T -> nat, l: Limits, k: nat)
    requires Overfull(h, size, l, k) && Fits(h[k..], size, l)
    ensures k == FirstKept(h, size, l)
  {
  }

  /** The log keeps nothing exactly when nothing was added or the last entry alone is too heavy. */
  lemma KeepsNothing<T>(h: seq<T>, size: T -> nat, l: Limits)
    requires l.entries.Some? ==> l.entries.value > 0
    ensures FirstKept(h, size, l) == |h| <==> h == [] || size(h[|h| - 1]) > l.weight
  {
    if h != [] {
      assert h[|h| - 1..] == [h[|h| - 1]];
      WeightOne(h[|h| - 1], size);
      assert h[|h|..] == [];
    }
  }

  /** `entries` mirrors the history from `first` on, `total` their weight. */
  ghost predicate Mirrors<T, E>(h: seq<T>, size: T -> nat, first: nat, entries: seq<E>, total: nat) {
    first <= |h| && |entries| == |h| - first && total == Weight(h[first..], size)
  }

  lemma MirrorsAppend<T, E>(h: seq<T>, size: T -> nat, first: nat, entries: seq<E>, total: nat, x: T, e: E)
    requires Mirrors(h, size, first, entries, total)
    ensures Mirrors(h + [x], size, first, entries + [e], total + size(x))
  {
    assert (h + [x])[first..] == h[first..] + [x];
    WeightAppend(h[first..], [x], size);
    WeightOne(x, size);
  }

  /** While a limit is exceeded there is an oldest entry, and dropping it keeps the mirror. */
  lemma MirrorsPop<T, E>(h: seq<T>, size: T -> nat, l: Limits, first: nat, entries: seq<E>, total: nat)
    requires Mirrors(h, size, first, entries, total)
    requires (l.entries.Some? && |entries| > l.entries.value) || total > l.weight
    ensures !Fits(h[first..], size, l) && entries != []
    ensures Overfull(h, size, l, first) ==> Overfull(h, size, l, first + 1)
    ensures size(h[first]) <= total && Mirrors(h, size, first + 1, entries[1..], total - size(h[first]))
  {
    assert h[first..] != [];
    assert h[first..][0] == h[first] && h[first..][1..] == h[first + 1..];
  }
}
