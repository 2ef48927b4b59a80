/** Small types shared by every model. */
module Prelude {
  datatype Option<+T> = None | Some(value: T)

  datatype Result<+T, +E> = Ok(value: T) | Err(error: E)

  /** One octet of a byte stream. */
  type Byte = n: nat | n < 256

  function Flatten<T>(parts: seq<seq<T>>): (r: seq<T>) {
    if parts == [] then [] else parts[0] + Flatten(parts[1..])
  }

  lemma {:induction false} FlattenAppend<T>(a: seq<seq<T>>, b: seq<seq<T>>)
    ensures Flatten(a + b) == Flatten(a) + Flatten(b)
  {
    if a == [] {
      assert a + b == b;
    } else {
      FlattenAppend(a[1..], b);
      assert (a + b)[0] == a[0] && (a + b)[1..] == a[1..] + b;
    }
  }

  lemma FlattenSnoc<T>(a: seq<seq<T>>, x: seq<T>)
    ensures Flatten(a + [x]) == Flatten(a) + x
  {
    FlattenAppend(a, [x]);
    assert Flatten([x]) == x + Flatten<T>([]);
  }

  /** Feeds the first `n` elements of `xs` to `step`, one after the other, until one fails. */
  function Run<S, X, E>(start: S, xs: seq<X>, step: (S, X) -> Result<S, E>, n: nat): (r: Result<S, E>)
    requires n <= |xs|
  {
    if n == 0 then Ok(start) else
      var before := Run(start, xs, step, n - 1);
      if before.Err? then before else step(before.value, xs[n - 1])
  }

  /** What every successful step keeps, a whole successful run keeps. A step is known only by
      `does`, the relation between the state before, the element and the state after. */
  lemma {:induction false} RunKeeps<S(!new), X(!new), E>(
    start: S, xs: seq<X>, step: (S, X) -> Result<S, E>, n: nat,
    does: (S, X, S) -> bool, keeps: (S, nat) -> bool)
    requires n <= |xs| && keeps(start, 0)
    requires forall s: S, x: X | step(s, x).Ok? :: does(s, x, step(s, x).value)
    requires forall s: S, s': S, k: nat | k < n && keeps(s, k) && does(s, xs[k], s') :: keeps(s', k + 1)
    ensures var r := Run(start, xs, step, n); r.Ok? ==> keeps(r.value, n)
  {
    if n > 0 { RunKeeps(start, xs, step, n - 1, does, keeps); }
  }

  /** A failed run stays failed. */
  lemma {:induction false} RunFails<S, X, E>(start: S, xs: seq<X>, step: (S, X) -> Result<S, E>, m: nat, n: nat)
    requires m <= n <= |xs| && Run(start, xs, step, m).Err?
    ensures Run(start, xs, step, n) == Run(start, xs, step, m)
    decreases n
  {
    if m < n { RunFails(start, xs, step, m, n - 1); }
  }

  predicate IsFirst<T>(xs: seq<T>, p: T -> bool, i: nat) {
    i < |xs| && p(xs[i]) && forall k | 0 <= k < i :: !p(xs[k])
  }

  lemma {:induction false} FirstExists<T>(xs: seq<T>, p: T -> bool, k: nat)
    requires k < |xs| && p(xs[k])
    ensures exists i: nat | i < |xs| :: IsFirst(xs, p, i)
  {
    if !IsFirst(xs, p, k) {
      var l :| 0 <= l < k && p(xs[l]);
      FirstExists(xs, p, l);
    }
  }

  /** `Iterator::position`: the index of the first element that satisfies `p`. */
  function FindFirst<T>(xs: seq<T>, p: T -> bool): (r: Option<nat>)
    ensures r.Some? ==> IsFirst(xs, p, r.value)
    ensures r.None? ==> forall k | 0 <= k < |xs| :: !p(xs[k])
  {
    if exists i: nat | i < |xs| :: IsFirst(xs, p, i) then
      var i: nat :| i < |xs| && IsFirst(xs, p, i);
      Some(i)
    else
      assert forall k | 0 <= k < |xs| :: !p(xs[k]) by {
        forall k | 0 <= k < |xs| ensures !p(xs[k]) {
          if p(xs[k]) { FirstExists(xs, p, k); }
        }
      }
      None
  }

  /** Replaces the element at `i`, or appends when `i` is the length. */
  function Put<T>(xs: seq<T>, i: nat, x: T): (r: seq<T>)
    requires i <= |xs|
    ensures i < |r| && r[i] == x
  {
    if i < |xs| then xs[i := x] else xs + [x]
  }

  /** The first complaint of `check` about the first `n` elements. */
  function FirstError<X, E>(xs: seq<X>, check: X -> Option<E>, n: nat): (r: Option<E>)
    requires n <= |xs|
  {
    if n == 0 then None else
      var before := FirstError(xs, check, n - 1);
      if before.Some? then before else check(xs[n - 1])
  }

  lemma {:induction false} FirstErrorIsConjunction<X(!new), E>(xs: seq<X>, check: X -> Option<E>, n: nat, e: E)
    requires n <= |xs| && forall x | x in xs :: check(x) == None || check(x) == Some(e)
    ensures FirstError(xs, check, n) == if forall x | x in xs[..n] :: check(x).None? then None else Some(e)
  {
    if n > 0 {
      FirstErrorIsConjunction(xs, check, n - 1, e);
      assert xs[n - 1] in xs;
      assert xs[..n] == xs[..n - 1] + [xs[n - 1]];
    }
  }
}
