/** The in-memory sample history: capped on write, searched by time on read. */
module MemoryStore {
  import opened GoTime
  import opened Samples
  import opened Sequences
  import opened Wrappers

  function Capped(samples: seq<Sample>, maxSamples: int): seq<Sample>
  {
    if maxSamples > 0 && |samples| > maxSamples then samples[|samples| - maxSamples..] else samples
  }

  function InWindow(from: Time, to: Time): Sample -> bool
  {
    (sample: Sample) => from <= sample.timestamp <= to
  }

  /** The samples with `from <= timestamp <= to`, in order. */
  function Within(samples: seq<Sample>, from: Time, to: Time): seq<Sample>
  {
    Filter(InWindow(from, to), samples)
  }

  ghost predicate Sorted(samples: seq<Sample>)
  {
    forall i, j :: 0 <= i <= j < |samples| ==> samples[i].timestamp <= samples[j].timestamp
  }

  /** Exactly the stretch of `samples` that lies between the bounds, both included. */
  ghost predicate Answers(result: seq<Sample>, samples: seq<Sample>, from: Time, to: Time)
  {
    exists i, j ::
      && 0 <= i <= j <= |samples| && result == samples[i..j]
      && forall k :: 0 <= k < |samples| ==> (i <= k < j <==> from <= samples[k].timestamp <= to)
  }

  /** Go's `sort.Search` for the first sample not before `from`. */
  method Search(samples: seq<Sample>, from: Time) returns (start: nat)
    ensures start <= |samples|
    ensures Sorted(samples) ==> forall i :: 0 <= i < start ==> samples[i].timestamp < from
    ensures Sorted(samples) ==> forall i :: start <= i < |samples| ==> samples[i].timestamp >= from
  {
    var i, j := 0, |samples|;
    while i < j
      invariant 0 <= i <= j <= |samples|
      invariant Sorted(samples) ==> forall k :: 0 <= k < i ==> samples[k].timestamp < from
      invariant Sorted(samples) ==> forall k :: j <= k < |samples| ==> samples[k].timestamp >= from
    {
      var h := i + (j - i) / 2;
      if samples[h].timestamp < from {
        i := h + 1;
      } else {
        j := h;
      }
    }
    start := i;
  }

  lemma StretchIsAnswer(samples: seq<Sample>, from: Time, to: Time, i: nat, j: nat)
    requires i <= j <= |samples|
    requires forall k :: 0 <= k < i ==> samples[k].timestamp < from
    requires forall k :: i <= k < |samples| ==> samples[k].timestamp >= from
    requires forall k :: i <= k < j ==> samples[k].timestamp <= to
    requires forall k :: j <= k < |samples| ==> samples[k].timestamp > to
    ensures samples[i..j] == Within(samples, from, to)
    ensures Answers(samples[i..j], samples, from, to)
  {
    var before, kept, after := samples[..i], samples[i..j], samples[j..];
    assert samples == before + kept + after;
    FilterMiddle(InWindow(from, to), before, kept, after);
  }

  class Store {
    var samples: seq<Sample>
    const maxSamples: int

    constructor (maxSamples: int)
      ensures samples == [] && this.maxSamples == maxSamples
    {
      samples := [];
      this.maxSamples := maxSamples;
    }

    method SaveSample(sample: Sample)
      modifies this
      ensures samples == Capped(old(samples) + [sample], maxSamples)
    {
      samples := samples + [sample];
      if maxSamples > 0 && |samples| > maxSamples {
        var overflow := |samples| - maxSamples;
        samples := samples[overflow..];
      }
    }

    /** Binary search for the start and an early break at the end; on a history saved in time
        order this is the plain filter, for any bounds, reversed ones included. */
    method QueryRange(from: Time, to: Time) returns (result: seq<Sample>)
      ensures Sorted(samples) ==> result == Within(samples, from, to)
      ensures Sorted(samples) ==> Answers(result, samples, from, to)
    {
      var start := Search(samples, from);
      result := [];
      var i := start;
      while i < |samples| && samples[i].timestamp <= to
        invariant start <= i <= |samples|
        invariant result == samples[start..i]
        invariant forall k :: start <= k < i ==> samples[k].timestamp <= to
      {
        result := result + [samples[i]];
        i := i + 1;
      }
      if Sorted(samples) {
        assert forall k :: i <= k < |samples| ==> samples[k].timestamp > to;
        StretchIsAnswer(samples, from, to, start, i);
      }
    }

    method LatestSample() returns (latest: Option<Sample>)
      ensures samples == [] <==> latest == None
      ensures samples != [] ==> latest == Some(samples[|samples| - 1])
    {
      if |samples| == 0 {
        return None;
      }
      latest := Some(samples[|samples| - 1]);
    }
  }

  // ---------------------------------------------------------------------------------------
  // Over every run of saves
  // ---------------------------------------------------------------------------------------

  function History(saves: seq<Sample>, maxSamples: int): seq<Sample>
  {
    if saves == [] then []
    else Capped(History(saves[..|saves| - 1], maxSamples) + [saves[|saves| - 1]], maxSamples)
  }

  /** The store holds the last `min(saves, maxSamples)` samples, or all when uncapped. */
  lemma {:induction false} HistoryIsLastSaves(saves: seq<Sample>, maxSamples: int)
    ensures maxSamples <= 0 ==> History(saves, maxSamples) == saves
    ensures maxSamples > 0 ==>
              History(saves, maxSamples) == saves[if |saves| > maxSamples then |saves| - maxSamples else 0..]
  {
    if saves != [] {
      var init, last := saves[..|saves| - 1], saves[|saves| - 1];
      HistoryIsLastSaves(init, maxSamples);
      assert saves == init + [last];
    }
  }

  /** After any saves in time order, a query answers as a filter over what the cap has kept, and
      the latest sample is the last one saved. */
  method SaveThenQuery(saves: seq<Sample>, maxSamples: int, from: Time, to: Time)
    returns (found: seq<Sample>, latest: Option<Sample>)
    requires Sorted(saves)
    ensures found == Within(saves[if 0 < maxSamples < |saves| then |saves| - maxSamples else 0..], from, to)
    ensures Answers(found, saves[if 0 < maxSamples < |saves| then |saves| - maxSamples else 0..], from, to)
    ensures latest == if saves == [] then None else Some(saves[|saves| - 1])
  {
    var store := new Store(maxSamples);
    for i := 0 to |saves|
      invariant store.samples == History(saves[..i], maxSamples) && store.maxSamples == maxSamples
      invariant fresh(store)
    {
      assert saves[..i + 1][..i] == saves[..i];
      store.SaveSample(saves[i]);
    }
    assert saves[..|saves|] == saves;
    HistoryIsLastSaves(saves, maxSamples);
    found := store.QueryRange(from, to);
    latest := store.LatestSample();
  }
}
