/**
 * The argument about time behind the engine's shutdown: if in every step short of the goal a measure goes down, or
 * nothing relevant changes and it was not the turn of the one whose move counts, then fair turns reach the goal.
 */
module FairProgress {

  ghost predicate TurnComes<W(!new)>(turn: (W, nat) -> bool, w: W, n: nat) {
    exists m: nat :: n <= m && turn(w, m)
  }

  ghost predicate FairTurns<W(!new)>(turn: (W, nat) -> bool) {
    forall w, n: nat :: TurnComes(turn, w, n)
  }

  predicate Lower(a: (nat, nat), b: (nat, nat)) {
    a.0 < b.0 || (a.0 == b.0 && a.1 < b.1)
  }

  ghost predicate Advances<W>(goal: nat -> bool, under: nat -> bool, measure: nat -> (nat, nat), helper: nat -> W,
                              turn: (W, nat) -> bool, n: nat)
  {
    under(n) ==>
      || goal(n + 1)
      || (under(n + 1) && Lower(measure(n + 1), measure(n)))
      || (under(n + 1) && measure(n + 1) == measure(n) && helper(n + 1) == helper(n) && !turn(helper(n), n))
  }

  lemma {:induction false} NextDrop<W(!new)>(
    goal: nat -> bool, under: nat -> bool, measure: nat -> (nat, nat), helper: nat -> W, turn: (W, nat) -> bool,
    n: nat, m: nat) returns (k: nat)
    requires forall i: nat :: Advances(goal, under, measure, helper, turn, i)
    requires n <= m && under(n) && turn(helper(n), m)
    ensures n < k && (goal(k) || (under(k) && Lower(measure(k), measure(n))))
    decreases m - n
  {
    assert Advances(goal, under, measure, helper, turn, n);
    k := n + 1;
    if !goal(k) && !Lower(measure(k), measure(n)) {
      k := NextDrop(goal, under, measure, helper, turn, n + 1, m);
    }
  }

  lemma {:induction false} GoalIsReached<W(!new)>(
    goal: nat -> bool, under: nat -> bool, measure: nat -> (nat, nat), helper: nat -> W, turn: (W, nat) -> bool,
    n: nat) returns (end: nat)
    requires forall i: nat :: Advances(goal, under, measure, helper, turn, i)
    requires FairTurns(turn)
    requires under(n)
    ensures n < end && goal(end)
    decreases measure(n).0, measure(n).1
  {
    assert TurnComes(turn, helper(n), n);
    var m: nat :| n <= m && turn(helper(n), m);
    end := NextDrop(goal, under, measure, helper, turn, n, m);
    if !goal(end) {
      end := GoalIsReached(goal, under, measure, helper, turn, end);
    }
  }
}
