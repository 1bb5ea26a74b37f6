/**
 Runs of a state machine whose step function says which steps are enabled: it
 returns the next state, or None.
 */
module Runs {
  import opened Wrappers

  ghost function After<S, T>(next: (S, T) -> Option<S>, s: S, steps: seq<T>): Option<S>
    decreases |steps|
  {
    if steps == [] then Some(s)
    else match next(s, steps[0])
      case None => None
      case Some(t) => After(next, t, steps[1..])
  }

  // Some run leads from s to t.
  ghost predicate Reaches<S, T(!new)>(next: (S, T) -> Option<S>, s: S, t: S) {
    exists steps: seq<T> :: After(next, s, steps) == Some(t)
  }

  lemma ReachesSelf<S, T(!new)>(next: (S, T) -> Option<S>, s: S)
    ensures Reaches(next, s, s)
  {
    assert After(next, s, []) == Some(s);
  }

  lemma ReachesMore<S, T(!new)>(next: (S, T) -> Option<S>, s: S, t: S, step: T)
    requires Reaches(next, s, t) && next(t, step).Some?
    ensures Reaches(next, s, next(t, step).value)
  {
    var steps: seq<T> :| After(next, s, steps) == Some(t);
    AfterMore(next, s, steps, step);
  }

  lemma {:induction false} AfterMore<S, T>(next: (S, T) -> Option<S>, s: S, steps: seq<T>, step: T)
    requires After(next, s, steps).Some?
    ensures After(next, s, steps + [step]) == next(After(next, s, steps).value, step)
    decreases |steps|
  {
    if steps == [] {
      assert steps + [step] == [step] && [step][1..] == [];
    } else {
      AfterMore(next, next(s, steps[0]).value, steps[1..], step);
      assert (steps + [step])[1..] == steps[1..] + [step];
    }
  }

  // What every step keeps, every run keeps.
  lemma {:induction false} RunKeeps<S, T(!new)>(next: (S, T) -> Option<S>, inv: S -> bool, s: S, steps: seq<T>)
    requires inv(s) && After(next, s, steps).Some?
    requires forall x, step | inv(x) && next(x, step).Some? :: inv(next(x, step).value)
    ensures inv(After(next, s, steps).value)
    decreases |steps|
  {
    if steps != [] {
      RunKeeps(next, inv, next(s, steps[0]).value, steps[1..]);
    }
  }
}
