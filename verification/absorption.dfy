/**
 Why replaying a stretch of events is harmless, for any projection.

 A client is fed at least once: the outbox publisher rolls a batch back after a crash and
 publishes its rows again. When every event assigns constants to some cells of a projection
 (or raises a watermark), agreeing up to an event survives any other event: e . f . e == e . f.
 That one law makes whole stretches idempotent.
 */
module Absorption {
  import opened Domain

  function FoldWith<S>(step: (S, Event) -> S, s: S, es: seq<Event>): S
    decreases |es|
  {
    if es == [] then s else FoldWith(step, step(s, es[0]), es[1..])
  }

  /** e . f . e == e . f, in relational form, and e . e == e. */
  ghost predicate Lawful<S(!new)>(step: (S, Event) -> S) {
    && (forall x, y, f, e :: step(x, e) == step(y, e) ==> step(step(x, f), e) == step(step(y, f), e))
    && (forall x, e :: step(step(x, e), e) == step(x, e))
  }

  lemma {:induction false} FoldWithAppend<S>(step: (S, Event) -> S, s: S, a: seq<Event>, b: seq<Event>)
    ensures FoldWith(step, s, a + b) == FoldWith(step, FoldWith(step, s, a), b)
    decreases |a|
  {
    if a == [] {
      assert a + b == b;
    } else {
      assert (a + b)[1..] == a[1..] + b;
      FoldWithAppend(step, step(s, a[0]), a[1..], b);
    }
  }

  lemma {:induction false} FoldWithLast<S>(step: (S, Event) -> S, s: S, a: seq<Event>, e: Event)
    ensures FoldWith(step, s, a + [e]) == step(FoldWith(step, s, a), e)
  {
    FoldWithAppend(step, s, a, [e]);
  }

  /** The law carried across a stretch of events. */
  lemma {:induction false} LawAcross<S(!new)>(step: (S, Event) -> S, x: S, y: S, a: seq<Event>, e: Event)
    requires Lawful(step) && step(x, e) == step(y, e)
    ensures step(FoldWith(step, x, a), e) == step(FoldWith(step, y, a), e)
    decreases |a|
  {
    if a != [] {
      assert step(step(x, a[0]), e) == step(step(y, a[0]), e);
      LawAcross(step, step(x, a[0]), step(y, a[0]), a[1..], e);
    }
  }

  /** Publishing a stretch a second time changes nothing, from any state of the projection. */
  lemma {:induction false} Idempotent<S(!new)>(step: (S, Event) -> S, s: S, a: seq<Event>)
    requires Lawful(step)
    ensures FoldWith(step, FoldWith(step, s, a), a) == FoldWith(step, s, a)
    decreases |a|
  {
    if a != [] {
      var b, e := a[..|a| - 1], a[|a| - 1];
      assert a == b + [e];
      var w := FoldWith(step, s, b);
      FoldWithLast(step, s, b, e);
      FoldWithLast(step, step(w, e), b, e);
      Idempotent(step, s, b);
      assert step(step(w, e), e) == step(w, e);
      LawAcross(step, step(w, e), w, b, e);
    }
  }

  /** A published prefix is absorbed by publishing the stretch from its start again. */
  lemma {:induction false} Absorb<S(!new)>(step: (S, Event) -> S, s: S, a: seq<Event>, b: seq<Event>)
    requires Lawful(step)
    ensures FoldWith(step, FoldWith(step, s, a), a + b) == FoldWith(step, s, a + b)
  {
    FoldWithAppend(step, FoldWith(step, s, a), a, b);
    Idempotent(step, s, a);
    FoldWithAppend(step, s, a, b);
  }
}
