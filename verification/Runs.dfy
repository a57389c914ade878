/** Runs of a state machine whose step function leaves the state alone when the event is not enabled. */
module Runs {

  function Exec<S, E>(next: (S, E) -> S, s: S, events: seq<E>): S {
    if events == [] then s else Exec(next, next(s, events[0]), events[1..])
  }

  ghost predicate Preserves<S(!new), E(!new)>(next: (S, E) -> S, inv: S -> bool) {
    forall s, e :: inv(s) ==> inv(next(s, e))
  }

  /** What every step keeps holds after every run. */
  lemma {:induction false} InvariantHolds<S(!new), E(!new)>(next: (S, E) -> S, inv: S -> bool, s: S, events: seq<E>)
    requires inv(s) && Preserves(next, inv)
    ensures inv(Exec(next, s, events))
  {
    if events != [] {
      InvariantHolds(next, inv, next(s, events[0]), events[1..]);
    }
  }

  /** A run of two parts is the second part run from where the first ends. */
  lemma {:induction false} ExecConcat<S, E>(next: (S, E) -> S, s: S, first: seq<E>, second: seq<E>)
    ensures Exec(next, s, first + second) == Exec(next, Exec(next, s, first), second)
  {
    if first == [] {
      assert first + second == second;
    } else {
      assert (first + second)[1..] == first[1..] + second;
      ExecConcat(next, next(s, first[0]), first[1..], second);
    }
  }

  lemma ExecOneMore<S, E>(next: (S, E) -> S, s: S, events: seq<E>, e: E)
    ensures Exec(next, s, events + [e]) == next(Exec(next, s, events), e)
  {
    ExecConcat(next, s, events, [e]);
    var t := Exec(next, s, events);
    assert [e][1..] == [];
    assert Exec(next, t, [e]) == Exec(next, next(t, e), []);
  }

  lemma ExecFour<S, E>(next: (S, E) -> S, s: S, a: E, b: E, c: E, d: E)
    ensures Exec(next, s, [a, b, c, d]) == next(next(next(next(s, a), b), c), d)
  {
    assert [a, b, c, d] == [] + [a] + [b] + [c] + [d];
    ExecOneMore(next, s, [], a);
    ExecOneMore(next, s, [] + [a], b);
    ExecOneMore(next, s, [] + [a] + [b], c);
    ExecOneMore(next, s, [] + [a] + [b] + [c], d);
  }

  lemma ExecFive<S, E>(next: (S, E) -> S, s: S, a: E, b: E, c: E, d: E, e: E)
    ensures Exec(next, s, [a, b, c, d, e]) == next(next(next(next(next(s, a), b), c), d), e)
  {
    assert [a, b, c, d, e] == [a, b, c, d] + [e];
    ExecFour(next, s, a, b, c, d);
    ExecOneMore(next, s, [a, b, c, d], e);
  }
}
