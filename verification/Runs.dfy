/** Runs of a transition system: sequences of events, each possible where it happens. */
module Runs {

  function After<S, E>(start: S, next: (S, E) -> S, events: seq<E>): S {
    if |events| == 0 then start else next(After(start, next, events[..|events| - 1]), events[|events| - 1])
  }

  ghost predicate IsRun<S, E>(start: S, enabled: (S, E) -> bool, next: (S, E) -> S, events: seq<E>) {
    forall i :: 0 <= i < |events| ==> enabled(After(start, next, events[..i]), events[i])
  }

  /** A prefix of a run is a run, and its next event is possible. */
  lemma Prefix<S, E>(start: S, enabled: (S, E) -> bool, next: (S, E) -> S, events: seq<E>, k: nat)
    requires IsRun(start, enabled, next, events) && k <= |events|
    ensures IsRun(start, enabled, next, events[..k])
    ensures k < |events| ==>
              && enabled(After(start, next, events[..k]), events[k])
              && After(start, next, events[..k + 1]) == next(After(start, next, events[..k]), events[k])
    ensures k == |events| ==> events[..k] == events
  {
    assert forall i :: 0 <= i < k ==> events[..k][..i] == events[..i];
    if k < |events| {
      assert events[..k + 1][..k] == events[..k];
    }
  }

  /** The last event of a run. */
  lemma Last<S, E>(start: S, enabled: (S, E) -> bool, next: (S, E) -> S, events: seq<E>)
    requires IsRun(start, enabled, next, events) && |events| > 0
    ensures var n := |events| - 1;
            && IsRun(start, enabled, next, events[..n]) && enabled(After(start, next, events[..n]), events[n])
            && After(start, next, events) == next(After(start, next, events[..n]), events[n])
  {
    hide After, IsRun;
    Prefix(start, enabled, next, events, |events| - 1);
    assert events[..|events| - 1 + 1] == events;
  }

  lemma Then<S, E>(start: S, next: (S, E) -> S, events: seq<E>, e: E)
    ensures After(start, next, events + [e]) == next(After(start, next, events), e)
  {
    assert (events + [e])[..|events|] == events;
  }

  /** A short sequence of events, step by step. */
  lemma Three<S, E>(start: S, next: (S, E) -> S, a: E, b: E, c: E)
    ensures After(start, next, [a]) == next(start, a)
    ensures After(start, next, [a, b]) == next(next(start, a), b)
    ensures After(start, next, [a, b, c]) == next(next(next(start, a), b), c)
  {
    assert [a] == [] + [a] && [a, b] == [a] + [b] && [a, b, c] == [a, b] + [c];
    Then(start, next, [], a);
    Then(start, next, [a], b);
    Then(start, next, [a, b], c);
  }

  lemma Empty<S, E>(start: S, enabled: (S, E) -> bool, next: (S, E) -> S)
    ensures IsRun(start, enabled, next, []) && After(start, next, []) == start
  {
  }

  /** A run from where another one ended. */
  lemma {:induction false} Append<S, E>(start: S, enabled: (S, E) -> bool, next: (S, E) -> S, a: seq<E>, b: seq<E>)
    requires IsRun(start, enabled, next, a) && IsRun(After(start, next, a), enabled, next, b)
    ensures IsRun(start, enabled, next, a + b) && After(start, next, a + b) == After(After(start, next, a), next, b)
  {
    if |b| == 0 {
      assert a + b == a;
    } else {
      var n := |b| - 1;
      Last(After(start, next, a), enabled, next, b);
      Append(start, enabled, next, a, b[..n]);
      Extend(start, enabled, next, a + b[..n], b[n]);
      assert a + b[..n] + [b[n]] == a + b;
    }
  }

  /** One more event. */
  lemma Extend<S, E>(start: S, enabled: (S, E) -> bool, next: (S, E) -> S, events: seq<E>, e: E)
    requires IsRun(start, enabled, next, events) && enabled(After(start, next, events), e)
    ensures IsRun(start, enabled, next, events + [e])
    ensures After(start, next, events + [e]) == next(After(start, next, events), e)
  {
    var longer := events + [e];
    Then(start, next, events, e);
    assert longer[..|events|] == events;
    forall i | 0 <= i < |longer| ensures enabled(After(start, next, longer[..i]), longer[i]) {
      assert i < |events| ==> longer[..i] == events[..i];
    }
  }
}
