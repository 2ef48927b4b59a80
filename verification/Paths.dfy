/** Steps that lead from one state to another, known only by the relation each step keeps to. */
module Paths {

  ghost predicate StepAt<S(!new), T(!new)>(does: (S, T, S) -> bool, states: seq<S>, steps: seq<T>, i: nat) {
    i + 1 < |states| && i < |steps| && does(states[i], steps[i], states[i + 1])
  }

  ghost predicate Path<S(!new), T(!new)>(does: (S, T, S) -> bool, states: seq<S>, s: S, steps: seq<T>, s': S) {
    && |states| == |steps| + 1 && states[0] == s && states[|steps|] == s'
    && forall i: nat | i < |steps| :: StepAt(does, states, steps, i)
  }

  ghost predicate Leads<S(!new), T(!new)>(does: (S, T, S) -> bool, s: S, steps: seq<T>, s': S) {
    exists states :: Path(does, states, s, steps, s')
  }

  lemma NoStep<S(!new), T(!new)>(does: (S, T, S) -> bool, s: S)
    ensures Leads(does, s, [], s)
  {
    assert Path(does, [s], s, [], s);
  }

  lemma OneStep<S(!new), T(!new)>(does: (S, T, S) -> bool, s: S, step: T, s': S)
    requires does(s, step, s')
    ensures Leads(does, s, [step], s')
  {
    assert StepAt(does, [s, s'], [step], 0);
    assert Path(does, [s, s'], s, [step], s');
  }

  lemma Joined<S(!new), T(!new)>(does: (S, T, S) -> bool, s: S, a: seq<T>, s1: S, b: seq<T>, s2: S)
    requires Leads(does, s, a, s1) && Leads(does, s1, b, s2)
    ensures Leads(does, s, a + b, s2)
  {
    var us :| Path(does, us, s, a, s1);
    var vs :| Path(does, vs, s1, b, s2);
    var states := us + vs[1..];
    forall i: nat | i < |a + b| ensures StepAt(does, states, a + b, i) {
      assert if i < |a| then StepAt(does, us, a, i) else StepAt(does, vs, b, i - |a|);
    }
    assert Path(does, states, s, a + b, s2);
  }

  /** The first step of a path, and what is left of it. */
  lemma Unfolded<S(!new), T(!new)>(does: (S, T, S) -> bool, s: S, steps: seq<T>, s': S) returns (s1: S)
    requires Leads(does, s, steps, s')
    ensures if steps == [] then s' == s else does(s, steps[0], s1) && Leads(does, s1, steps[1..], s')
  {
    var states :| Path(does, states, s, steps, s');
    s1 := s';
    if steps != [] {
      s1 := states[1];
      assert StepAt(does, states, steps, 0);
      forall i: nat | i < |steps[1..]| ensures StepAt(does, states[1..], steps[1..], i) {
        assert StepAt(does, states, steps, i + 1);
      }
      assert Path(does, states[1..], s1, steps[1..], s');
    }
  }
}
