/** Runs of a state machine, and when a property holds in all of their states. */
module Runs {

  function After<S, E>(next: (S, E) -> S, s: S, steps: seq<E>): S {
    if steps == [] then s else next(After(next, s, steps[..|steps| - 1]), steps[|steps| - 1])
  }

  lemma AfterOne<S, E>(next: (S, E) -> S, s: S, steps: seq<E>, step: E)
    ensures After(next, s, steps + [step]) == next(After(next, s, steps), step)
  {
    assert (steps + [step])[..|steps|] == steps;
  }

  ghost predicate Throughout<S, E>(next: (S, E) -> S, good: S -> bool, s: S, steps: seq<E>) {
    forall n :: 0 <= n <= |steps| ==> good(After(next, s, steps[..n]))
  }

  ghost predicate HarmlessAt<S, E>(next: (S, E) -> S, harmless: (S, E) -> bool, s: S, steps: seq<E>, n: nat)
    requires n < |steps|
  {
    harmless(After(next, s, steps[..n]), steps[n])
  }

  ghost predicate AllHarmless<S, E>(next: (S, E) -> S, harmless: (S, E) -> bool, s: S, steps: seq<E>) {
    forall n :: 0 <= n < |steps| ==> HarmlessAt(next, harmless, s, steps, n)
  }

  /** From sound states a step leads to a good state exactly when it is harmless, and good states reached from
      sound ones are sound. */
  ghost predicate Decides<S(!new), E(!new)>(next: (S, E) -> S, sound: S -> bool, good: S -> bool,
                                            harmless: (S, E) -> bool) {
    && (forall u :: sound(u) ==> good(u))
    && (forall u, e :: sound(u) ==> (good(next(u, e)) <==> harmless(u, e)))
    && (forall u, e :: sound(u) && good(next(u, e)) ==> sound(next(u, e)))
  }

  lemma InitOf<E>(steps: seq<E>, n: nat)
    requires n < |steps|
    ensures steps[..|steps| - 1][..n] == steps[..n]
    ensures n + 1 < |steps| ==> steps[..|steps| - 1][n] == steps[n]
  {
  }

  lemma ThroughoutLonger<S, E>(next: (S, E) -> S, good: S -> bool, s: S, steps: seq<E>)
    requires steps != []
    ensures Throughout(next, good, s, steps) <==>
              Throughout(next, good, s, steps[..|steps| - 1]) && good(After(next, s, steps))
  {
    var init := steps[..|steps| - 1];
    assert steps[..|steps|] == steps;
    forall n | 0 <= n < |steps| ensures steps[..n] == init[..n] {
      InitOf(steps, n);
    }
  }

  lemma HarmlessLonger<S, E>(next: (S, E) -> S, harmless: (S, E) -> bool, s: S, steps: seq<E>)
    requires steps != []
    ensures AllHarmless(next, harmless, s, steps) <==>
              AllHarmless(next, harmless, s, steps[..|steps| - 1]) &&
              harmless(After(next, s, steps[..|steps| - 1]), steps[|steps| - 1])
  {
    var init := steps[..|steps| - 1];
    forall n: nat | n < |init|
      ensures HarmlessAt(next, harmless, s, steps, n) <==> HarmlessAt(next, harmless, s, init, n)
    {
      InitOf(steps, n);
    }
    assert HarmlessAt(next, harmless, s, steps, |init|) <==> harmless(After(next, s, init), steps[|init|]);
    if AllHarmless(next, harmless, s, steps) {
      assert forall n: nat :: n < |init| ==> HarmlessAt(next, harmless, s, steps, n);
    }
  }

  /** Then a run from a sound state stays good throughout exactly when each of its steps is harmless. */
  lemma {:induction false} ThroughoutIff<S(!new), E(!new)>(next: (S, E) -> S, sound: S -> bool, good: S -> bool,
                                                           harmless: (S, E) -> bool, s: S, steps: seq<E>)
    requires sound(s) && Decides(next, sound, good, harmless)
    ensures Throughout(next, good, s, steps) <==> AllHarmless(next, harmless, s, steps)
    ensures Throughout(next, good, s, steps) ==> sound(After(next, s, steps))
  {
    if steps == [] {
      assert steps[..0] == [];
    } else {
      var init := steps[..|steps| - 1];
      ThroughoutIff(next, sound, good, harmless, s, init);
      ThroughoutLonger(next, good, s, steps);
      HarmlessLonger(next, harmless, s, steps);
    }
  }
}
