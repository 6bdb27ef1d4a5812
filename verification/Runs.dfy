/** Runs of a transition system, shared by the machines of the other modules. */
module Runs {
  import opened Wrappers

  /** The state a schedule leads to from `s`, or `None` if a step of it cannot be taken. */
  function Reach<S, E>(step: (S, E) -> Option<S>, s: S, events: seq<E>): Option<S>
  {
    if events == [] then Some(s)
    else
      match Reach(step, s, events[..|events| - 1])
      case None => None
      case Some(t) => step(t, events[|events| - 1])
  }

  lemma ReachNext<S, E>(step: (S, E) -> Option<S>, s: S, events: seq<E>, e: E)
    ensures Reach(step, s, events + [e]) ==
            match Reach(step, s, events)
            case None => None
            case Some(t) => step(t, e)
  {
    assert (events + [e])[..|events|] == events;
  }

  lemma {:induction false} ReachAppend<S, E>(step: (S, E) -> Option<S>, s: S, events: seq<E>, more: seq<E>)
    ensures Reach(step, s, events + more) ==
            match Reach(step, s, events)
            case None => None
            case Some(t) => Reach(step, t, more)
  {
    if more == [] {
      assert events + more == events;
    } else {
      assert (events + more)[..|events + more| - 1] == events + more[..|more| - 1];
      ReachAppend(step, s, events, more[..|more| - 1]);
    }
  }

  /** Every prefix of a schedule can be taken, and its next event follows. */
  lemma {:induction false} PrefixRuns<S, E>(step: (S, E) -> Option<S>, s: S, events: seq<E>, i: nat)
    requires i < |events| && Reach(step, s, events).Some?
    ensures Reach(step, s, events[..i]).Some?
    ensures Reach(step, s, events[..i + 1]) == step(Reach(step, s, events[..i]).value, events[i])
    ensures Reach(step, s, events[..i + 1]).Some?
  {
    var init := events[..|events| - 1];
    if i + 1 == |events| {
      assert events[..i + 1] == events;
    } else {
      PrefixRuns(step, s, init, i);
      assert init[..i] == events[..i] && init[..i + 1] == events[..i + 1];
    }
  }

  /** The state after some events, where every event can happen in every state. */
  function Fold<S, E>(apply: (S, E) -> S, s: S, events: seq<E>): S
  {
    if events == [] then s else apply(Fold(apply, s, events[..|events| - 1]), events[|events| - 1])
  }

  lemma FoldOne<S, E>(apply: (S, E) -> S, s: S, e: E)
    ensures Fold(apply, s, [e]) == apply(s, e)
  {
    assert Fold(apply, s, [e][..0]) == s;
  }

  lemma {:induction false} FoldAppend<S, E>(apply: (S, E) -> S, s: S, events: seq<E>, more: seq<E>)
    ensures Fold(apply, s, events + more) == Fold(apply, Fold(apply, s, events), more)
  {
    if more == [] {
      assert events + more == events;
    } else {
      assert (events + more)[..|events + more| - 1] == events + more[..|more| - 1];
      FoldAppend(apply, s, events, more[..|more| - 1]);
    }
  }
}
