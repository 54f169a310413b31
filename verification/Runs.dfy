/** Runs of a labelled transition system.

    Every protocol of this project is a total function from a state and a label to an
    optional state; `None` says that the labelled step is not enabled there.  A run is a
    sequence of labels, so "for every interleaving" is "for every sequence of labels".
 */
module Runs {

  datatype Option<+T> = None | Some(value: T)

  /** The state reached by taking the steps `labels` in order, if each is enabled. */
  function Exec<S, L>(step: (S, L) -> Option<S>, s: S, labels: seq<L>): (r: Option<S>)
    decreases |labels|
  {
    if labels == [] then Some(s)
    else
      match step(s, labels[0])
      case None => None
      case Some(next) => Exec(step, next, labels[1..])
  }

  ghost predicate Preserved<S(!new), L(!new)>(step: (S, L) -> Option<S>, inv: S -> bool) {
    forall s: S, l: L | inv(s) && step(s, l).Some? :: inv(step(s, l).value)
  }

  /** What every step keeps, every run keeps. */
  lemma {:induction false} Invariant<S(!new), L(!new)>(
      step: (S, L) -> Option<S>, inv: S -> bool, s: S, labels: seq<L>)
    requires Preserved(step, inv) && inv(s)
    requires Exec(step, s, labels).Some?
    ensures inv(Exec(step, s, labels).value)
    decreases |labels|
  {
    if labels != [] {
      Invariant(step, inv, step(s, labels[0]).value, labels[1..]);
    }
  }

  /** Runs compose. */
  lemma {:induction false} ExecConcat<S, L>(step: (S, L) -> Option<S>, s: S, first: seq<L>, second: seq<L>)
    requires Exec(step, s, first).Some?
    ensures Exec(step, s, first + second) == Exec(step, Exec(step, s, first).value, second)
    decreases |first|
  {
    if first == [] {
      assert first + second == second;
    } else {
      assert (first + second)[1..] == first[1..] + second;
      ExecConcat(step, step(s, first[0]).value, first[1..], second);
    }
  }

  /** Some run leads from `s` to `t`. */
  ghost predicate Reaches<S, L(!new)>(step: (S, L) -> Option<S>, s: S, t: S) {
    exists run: seq<L> :: Exec(step, s, run) == Some(t)
  }

  lemma ReachesSelf<S, L(!new)>(step: (S, L) -> Option<S>, s: S)
    ensures Reaches(step, s, s)
  {
    assert Exec(step, s, []) == Some(s);
  }

  lemma ReachesThen<S, L(!new)>(step: (S, L) -> Option<S>, s: S, m: S, l: L, t: S)
    requires Reaches(step, s, m) && step(m, l) == Some(t)
    ensures Reaches(step, s, t)
  {
    var run: seq<L> :| Exec(step, s, run) == Some(m);
    ExecConcat(step, s, run, [l]);
    assert Exec(step, m, [l]) == Some(t) by {
      assert Exec(step, t, [l][1..]) == Some(t);
    }
  }
}
