/** Filtering and order-preserving selection, shared by the other modules. */
module Sequences {
  /** The elements that `keep` accepts, in order. */
  function Filter<T>(keep: T -> bool, xs: seq<T>): seq<T>
  {
    if xs == [] then []
    else
      var init, last := xs[..|xs| - 1], xs[|xs| - 1];
      if keep(last) then Filter(keep, init) + [last] else Filter(keep, init)
  }

  lemma {:induction false} FilterAppend<T>(keep: T -> bool, xs: seq<T>, ys: seq<T>)
    ensures Filter(keep, xs + ys) == Filter(keep, xs) + Filter(keep, ys)
  {
    if ys == [] {
      assert xs + ys == xs;
    } else {
      assert (xs + ys)[..|xs + ys| - 1] == xs + ys[..|ys| - 1];
      FilterAppend(keep, xs, ys[..|ys| - 1]);
    }
  }

  lemma FilterLast<T>(keep: T -> bool, xs: seq<T>, x: T)
    ensures Filter(keep, xs + [x]) == if keep(x) then Filter(keep, xs) + [x] else Filter(keep, xs)
  {
    assert (xs + [x])[..|xs|] == xs;
  }

  lemma {:induction false} FilterMembers<T>(keep: T -> bool, xs: seq<T>)
    ensures forall x :: x in Filter(keep, xs) <==> x in xs && keep(x)
  {
    if xs != [] {
      assert xs == xs[..|xs| - 1] + [xs[|xs| - 1]];
      FilterMembers(keep, xs[..|xs| - 1]);
    }
  }

  /** Filtering first by a weaker condition changes nothing. */
  lemma {:induction false} FilterTwice<T>(strong: T -> bool, weak: T -> bool, xs: seq<T>)
    requires forall x :: strong(x) ==> weak(x)
    ensures Filter(strong, Filter(weak, xs)) == Filter(strong, xs)
  {
    if xs != [] {
      var init, last := xs[..|xs| - 1], xs[|xs| - 1];
      FilterTwice(strong, weak, init);
      FilterLast(strong, Filter(weak, init), last);
    }
  }

  lemma {:induction false} FilterNone<T>(keep: T -> bool, xs: seq<T>)
    requires forall i :: 0 <= i < |xs| ==> !keep(xs[i])
    ensures Filter(keep, xs) == []
  {
    if xs != [] {
      FilterNone(keep, xs[..|xs| - 1]);
    }
  }

  lemma {:induction false} FilterAll<T>(keep: T -> bool, xs: seq<T>)
    requires forall i :: 0 <= i < |xs| ==> keep(xs[i])
    ensures Filter(keep, xs) == xs
  {
    if xs != [] {
      FilterAll(keep, xs[..|xs| - 1]);
    }
  }

  lemma FilterMiddle<T>(keep: T -> bool, before: seq<T>, kept: seq<T>, after: seq<T>)
    requires forall i :: 0 <= i < |before| ==> !keep(before[i])
    requires forall i :: 0 <= i < |kept| ==> keep(kept[i])
    requires forall i :: 0 <= i < |after| ==> !keep(after[i])
    ensures Filter(keep, before + kept + after) == kept
  {
    FilterAppend(keep, before + kept, after);
    FilterFront(keep, before, kept);
    FilterNone(keep, after);
    assert Filter(keep, before + kept + after) == kept + [];
  }

  lemma FilterFront<T>(keep: T -> bool, before: seq<T>, kept: seq<T>)
    requires forall i :: 0 <= i < |before| ==> !keep(before[i])
    requires forall i :: 0 <= i < |kept| ==> keep(kept[i])
    ensures Filter(keep, before + kept) == kept
  {
    FilterAppend(keep, before, kept);
    FilterNone(keep, before);
    FilterAll(keep, kept);
    assert Filter(keep, before + kept) == [] + kept;
  }

  /** Strictly increasing positions below `n`. */
  ghost predicate Ascending(at: seq<nat>, n: nat)
  {
    && (forall k :: 0 <= k < |at| ==> at[k] < n)
    && (forall k, l :: 0 <= k < l < |at| ==> at[k] < at[l])
  }

  /** `xs` is `ys` with some elements left out: `xs[k]` sits at `at[k]` in `ys`. */
  ghost predicate EmbedsAt<T>(xs: seq<T>, ys: seq<T>, at: seq<nat>)
  {
    && |at| == |xs|
    && Ascending(at, |ys|)
    && (forall k :: 0 <= k < |xs| ==> ys[at[k]] == xs[k])
  }

  ghost predicate Subsequence<T>(xs: seq<T>, ys: seq<T>)
  {
    exists at: seq<nat> :: EmbedsAt(xs, ys, at)
  }

  lemma EmbeddingGrows<T>(xs: seq<T>, ys: seq<T>, at: seq<nat>, next: T)
    requires EmbedsAt(xs, ys, at)
    ensures EmbedsAt(xs, ys + [next], at)
    ensures EmbedsAt(xs + [next], ys + [next], at + [|ys|])
  {
  }

  lemma SubsequenceGrows<T>(xs: seq<T>, ys: seq<T>, next: T)
    requires Subsequence(xs, ys)
    ensures Subsequence(xs, ys + [next])
    ensures Subsequence(xs + [next], ys + [next])
  {
    var at: seq<nat> :| EmbedsAt(xs, ys, at);
    EmbeddingGrows(xs, ys, at, next);
  }
}
