/**
  Runs that go on until there is nothing left to do, whatever a scheduler picks:
  if every move uses up a measure, every schedule comes to its end.
*/
module Schedules {

  /** Order by the first number, and then by the second. */
  predicate Below(a: (nat, nat), b: (nat, nat)) {
    a.0 < b.0 || (a.0 == b.0 && a.1 < b.1)
  }

  /** Every move from a good state leads to a good state and down the measure. */
  ghost predicate Descends<S(!new)>(good: S -> bool, moves: (S, S) -> bool, measure: S -> (nat, nat)) {
    forall s, s' :: good(s) && moves(s, s') ==> good(s') && Below(measure(s'), measure(s))
  }

  /** An infinite behaviour in which some move is made at each moment until all is done. */
  ghost predicate Schedule<S(!new)>(behaviour: nat -> S, good: S -> bool, done: S -> bool, moves: (S, S) -> bool) {
    forall n: nat :: good(behaviour(n)) && !done(behaviour(n)) ==> moves(behaviour(n), behaviour(n + 1))
  }

  lemma {:induction false} EveryScheduleEnds<S(!new)>(
    behaviour: nat -> S, good: S -> bool, done: S -> bool, moves: (S, S) -> bool, measure: S -> (nat, nat), from: nat)
    returns (n: nat)
    requires Descends(good, moves, measure) && Schedule(behaviour, good, done, moves) && good(behaviour(from))
    ensures n >= from && done(behaviour(n))
    decreases measure(behaviour(from)).0, measure(behaviour(from)).1
  {
    n := from;
    if !done(behaviour(from)) {
      assert Below(measure(behaviour(from + 1)), measure(behaviour(from)));
      n := EveryScheduleEnds(behaviour, good, done, moves, measure, from + 1);
    }
  }
}
