/** Runs of a transition function, and induction over them. */
module Runs {
  function Run<S, E>(next: (S, E) -> S, start: S, events: seq<E>): S {
    if events == [] then start
    else next(Run(next, start, events[..|events| - 1]), events[|events| - 1])
  }

  /** Every event meets a condition on the state it happens in. */
  ghost predicate Admissible<S, E>(next: (S, E) -> S, start: S, events: seq<E>, admits: (S, E) -> bool) {
    forall i | 0 <= i < |events| :: admits(Run(next, start, events[..i]), events[i])
  }

  lemma RunAppend<S, E>(next: (S, E) -> S, start: S, events: seq<E>, event: E)
    ensures Run(next, start, events + [event]) == next(Run(next, start, events), event)
  {
    assert (events + [event])[..|events|] == events;
  }

  lemma {:induction false} RunConcat<S, E>(next: (S, E) -> S, start: S, first: seq<E>, second: seq<E>)
    ensures Run(next, start, first + second) == Run(next, Run(next, start, first), second)
  {
    if second == [] {
      assert first + second == first;
    } else {
      var front, last := second[..|second| - 1], second[|second| - 1];
      assert first + second == (first + front) + [last];
      RunConcat(next, start, first, front);
      RunAppend(next, start, first + front, last);
    }
  }

  lemma AdmissibleParts<S, E>(next: (S, E) -> S, start: S, events: seq<E>, admits: (S, E) -> bool, n: nat)
    requires Admissible(next, start, events, admits) && n <= |events|
    ensures Admissible(next, start, events[..n], admits)
    ensures Admissible(next, Run(next, start, events[..n]), events[n..], admits)
  {
    forall i | 0 <= i < n ensures admits(Run(next, start, events[..n][..i]), events[..n][i]) {
      assert events[..n][..i] == events[..i];
    }
    forall i | 0 <= i < |events| - n
      ensures admits(Run(next, Run(next, start, events[..n]), events[n..][..i]), events[n..][i])
    {
      assert events[..n + i] == events[..n] + events[n..][..i];
      RunConcat(next, start, events[..n], events[n..][..i]);
    }
  }

  /** What the start satisfies and every admissible step keeps holds after every admissible run. */
  lemma {:induction false} Invariance<S(!new), E(!new)>(
      next: (S, E) -> S, start: S, events: seq<E>, admits: (S, E) -> bool, holds: S -> bool)
    requires holds(start)
    requires forall s, e {:trigger next(s, e)} | holds(s) && admits(s, e) :: holds(next(s, e))
    requires Admissible(next, start, events, admits)
    ensures holds(Run(next, start, events))
  {
    if events != [] {
      AdmissibleParts(next, start, events, admits, |events| - 1);
      Invariance(next, start, events[..|events| - 1], admits, holds);
      assert admits(Run(next, start, events[..|events| - 1]), events[|events| - 1]);
    }
  }
}
