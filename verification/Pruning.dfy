/** Tables that drop their oldest entries while they are over a limit, sparing the pinned ones. */
module Pruning {
  import opened Prelude

  /** The oldest entry that may go. */
  predicate IsOldest<K, V>(m: map<K, V>, pinned: set<K>, age: V -> nat, k: K) {
    && k in m && k !in pinned
    && forall x | x in m && x !in pinned :: age(m[k]) <= age(m[x])
  }

  ghost function Prune<K(!new), V(!new)>(m: map<K, V>, pinned: set<K>, over: map<K, V> -> bool,
      age: V -> nat): map<K, V>
    decreases |m|
  {
    if over(m) && exists k :: IsOldest(m, pinned, age, k) then
      var k :| IsOldest(m, pinned, age, k);
      Smaller(m, k);
      Prune(m - {k}, pinned, over, age)
    else m
  }

  lemma Smaller<K, V>(m: map<K, V>, k: K)
    ensures |m - {k}| == if k in m then |m| - 1 else |m|
  {
    assert (m - {k}).Keys == m.Keys - {k};
  }

  lemma Sizes<K, V>(m: map<K, V>, k: K, v: V)
    ensures |m[k := v]| == if k in m then |m| else |m| + 1
    ensures |m - {k}| == if k in m then |m| - 1 else |m|
  {
    assert m[k := v].Keys == m.Keys + {k};
    Smaller(m, k);
  }

  lemma {:induction false} OldestExists<K, V>(m: map<K, V>, pinned: set<K>, age: V -> nat, ks: set<K>) returns (k: K)
    requires ks != {} && forall x | x in ks :: x in m && x !in pinned
    ensures k in ks && forall x | x in ks :: age(m[k]) <= age(m[x])
    decreases ks
  {
    var first :| first in ks;
    var rest := ks - {first};
    k := first;
    if rest != {} {
      var other := OldestExists(m, pinned, age, rest);
      if age(m[other]) < age(m[first]) { k := other; }
    }
    forall x | x in ks ensures age(m[k]) <= age(m[x]) {
      assert x == first || x in rest;
    }
  }

  /** Pruning only removes, spares what is pinned, and stops only when the table is no longer
      over its limit or holds nothing else. */
  lemma {:induction false} PruneKeeps<K(!new), V(!new)>(m: map<K, V>, pinned: set<K>, over: map<K, V> -> bool,
      age: V -> nat)
    ensures var p := Prune(m, pinned, over, age);
      && |p| <= |m|
      && (forall k | k in p :: k in m && p[k] == m[k])
      && (forall k | k in pinned && k in m :: k in p)
      && (over(p) ==> p.Keys <= pinned)
    decreases |m|
  {
    var idle := m.Keys - pinned;
    if over(m) && idle != {} {
      var oldest := OldestExists(m, pinned, age, idle);
      assert IsOldest(m, pinned, age, oldest);
      var k :| IsOldest(m, pinned, age, k) && Prune(m, pinned, over, age) == Prune(m - {k}, pinned, over, age);
      assert IsOldest(m, pinned, age, k);
      Smaller(m, k);
      PruneKeeps(m - {k}, pinned, over, age);
    }
  }

  /** What pruning removed was no younger than any unpinned entry it kept. */
  lemma {:induction false} PruneRemovesOldest<K(!new), V(!new)>(m: map<K, V>, pinned: set<K>, over: map<K, V> -> bool,
      age: V -> nat, gone: K, kept: K)
    requires gone in m && gone !in Prune(m, pinned, over, age)
    requires kept in Prune(m, pinned, over, age) && kept !in pinned
    ensures over(m) && kept in m && age(m[gone]) <= age(m[kept])
    decreases |m|
  {
    PruneKeeps(m, pinned, over, age);
    var k :| IsOldest(m, pinned, age, k) && Prune(m, pinned, over, age) == Prune(m - {k}, pinned, over, age);
    assert IsOldest(m, pinned, age, k);
    Smaller(m, k);
    if k != gone {
      PruneRemovesOldest(m - {k}, pinned, over, age, gone, kept);
    }
  }

  ghost predicate DistinctAges<K, V>(m: map<K, V>, age: V -> nat) {
    forall a, b | a in m && b in m && age(m[a]) == age(m[b]) :: a == b
  }

  /** Pruning may start with any oldest entry: there is only one. */
  lemma PruneOne<K(!new), V(!new)>(m: map<K, V>, pinned: set<K>, over: map<K, V> -> bool, age: V -> nat, k: K)
    requires DistinctAges(m, age) && over(m) && IsOldest(m, pinned, age, k)
    ensures Prune(m, pinned, over, age) == Prune(m - {k}, pinned, over, age)
    ensures |m - {k}| < |m| && DistinctAges(m - {k}, age)
  {
    var x :| IsOldest(m, pinned, age, x) && Prune(m, pinned, over, age) == Prune(m - {x}, pinned, over, age);
    assert IsOldest(m, pinned, age, x);
    assert x == k;
    Smaller(m, k);
  }

  /** Pruning goes no further than it must: with the youngest entry it removed, the table is still over
      its limit. */
  lemma {:induction false} PruneGoesNoFurther<K(!new), V(!new)>(m: map<K, V>, pinned: set<K>, over: map<K, V> -> bool,
      age: V -> nat, last: K)
    requires DistinctAges(m, age) && last in m && last !in Prune(m, pinned, over, age)
    requires forall k | k in m && k !in Prune(m, pinned, over, age) :: age(m[k]) <= age(m[last])
    ensures over(Prune(m, pinned, over, age)[last := m[last]])
    decreases |m|
  {
    var p := Prune(m, pinned, over, age);
    var k :| IsOldest(m, pinned, age, k) && p == Prune(m - {k}, pinned, over, age);
    assert IsOldest(m, pinned, age, k);
    Smaller(m, k);
    PruneKeeps(m - {k}, pinned, over, age);
    if k == last {
      forall x | x in m - {k} ensures x in p { PruneKeeps(m, pinned, over, age); }
      assert p == m - {k};
      assert p[last := m[last]] == m;
    } else {
      PruneGoesNoFurther(m - {k}, pinned, over, age, last);
    }
  }

  method OldestUnpinned<K(==), V>(m: map<K, V>, pinned: set<K>, age: V -> nat) returns (oldest: Option<K>)
    ensures oldest.Some? ==> IsOldest(m, pinned, age, oldest.value)
    ensures oldest.None? ==> m.Keys <= pinned
  {
    oldest := None;
    var rest := m.Keys;
    while rest != {}
      invariant rest <= m.Keys
      invariant oldest.Some? ==> oldest.value in m && oldest.value !in pinned
      invariant forall x | x in m && x !in rest && x !in pinned :: oldest.Some? && age(m[oldest.value]) <= age(m[x])
      decreases rest
    {
      var x :| x in rest;
      rest := rest - {x};
      if x !in pinned && (oldest.None? || age(m[x]) < age(m[oldest.value])) {
        oldest := Some(x);
      }
    }
  }

  /** The loop every pruned table runs. */
  method PruneTable<K(==,!new), V(!new)>(table: map<K, V>, pinned: set<K>, over: map<K, V> -> bool, age: V -> nat)
      returns (m: map<K, V>)
    requires DistinctAges(table, age)
    ensures m == Prune(table, pinned, over, age)
  {
    m := table;
    while over(m)
      invariant DistinctAges(m, age) && Prune(m, pinned, over, age) == Prune(table, pinned, over, age)
      decreases |m|
    {
      var oldest := OldestUnpinned(m, pinned, age);
      if oldest.None? {
        return;
      }
      PruneOne(m, pinned, over, age, oldest.value);
      m := m - {oldest.value};
    }
  }

  lemma {:induction false} SubsetSize<T>(a: set<T>, b: set<T>)
    requires a <= b
    ensures |a| <= |b|
    decreases a
  {
    if a != {} {
      var x :| x in a;
      SubsetSize(a - {x}, b - {x});
    }
  }

  // ---- Sums over a table ---------------------------------------------------------------------------

  ghost function Total<K(!new), V>(m: map<K, V>, ks: set<K>, weight: V -> nat): (n: nat)
    requires ks <= m.Keys
  {
    if ks == {} then 0 else
      var k :| k in ks;
      weight(m[k]) + Total(m, ks - {k}, weight)
  }

  /** The sum does not depend on the order in which the keys are visited. */
  lemma {:induction false} TotalRemove<K(!new), V>(m: map<K, V>, ks: set<K>, weight: V -> nat, k: K)
    requires ks <= m.Keys && k in ks
    ensures Total(m, ks, weight) == weight(m[k]) + Total(m, ks - {k}, weight)
    decreases ks
  {
    var first :| first in ks && Total(m, ks, weight) == weight(m[first]) + Total(m, ks - {first}, weight);
    if first != k {
      TotalRemove(m, ks - {first}, weight, k);
      TotalRemove(m, ks - {k}, weight, first);
      assert ks - {first} - {k} == ks - {k} - {first};
    }
  }

  method SumTable<K(==,!new), V>(m: map<K, V>, skip: set<K>, weight: V -> nat) returns (total: nat)
    ensures total == Total(m, m.Keys - skip, weight)
  {
    total := 0;
    var rest := m.Keys - skip;
    ghost var done: set<K> := {};
    while rest != {}
      invariant rest + done == m.Keys - skip && rest * done == {}
      invariant total == Total(m, done, weight)
      decreases rest
    {
      var k :| k in rest;
      TotalRemove(m, done + {k}, weight, k);
      assert done + {k} - {k} == done;
      total := total + weight(m[k]);
      rest := rest - {k};
      done := done + {k};
    }
    assert done == m.Keys - skip;
  }
}
