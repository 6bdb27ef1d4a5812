/**
 The widget push throttle. `Notify` claims a slot under the lock, publishes without it, and
 takes the lock again to roll a failed claim back, so calls interleave at two atomic steps:
 claim and settle. Spacing and liveness are proved for every interleaving.
 */
module WidgetThrottle {
  import opened GoTime
  import opened Runs
  import opened Wrappers

  const MIN_WIDGET_INTERVAL: Duration := 10 * MINUTE

  /** The push cadence: the larger of the configured poll interval and the floor. */
  function Interval(pollInterval: Duration): (d: Duration)
    ensures d >= 600_000_000_000 && d >= pollInterval
    ensures d == 600_000_000_000 || d == pollInterval
  {
    if pollInterval < MIN_WIDGET_INTERVAL then MIN_WIDGET_INTERVAL else pollInterval
  }

  predicate Throttled(lastSent: Time, now: Time, pollInterval: Duration)
  {
    lastSent != ZERO_TIME && Sub(now, lastSent) < Interval(pollInterval)
  }

  // ---------------------------------------------------------------------------------------
  // The object
  // ---------------------------------------------------------------------------------------

  /** What a call keeps on its own stack between its two critical sections. */
  datatype Claim = Claim(at: Time, previous: Time)

  class WidgetNotifier {
    var lastSent: Time

    constructor ()
      ensures lastSent == ZERO_TIME
    {
      lastSent := ZERO_TIME;
    }

    /** The first critical section. */
    method TryClaim(now: Time, pollInterval: Duration) returns (claim: Option<Claim>)
      modifies this
      ensures claim.None? <==> Throttled(old(lastSent), now, pollInterval)
      ensures claim.None? ==> lastSent == old(lastSent)
      ensures claim.Some? ==> claim == Some(Claim(now, old(lastSent))) && lastSent == now
    {
      var interval := Interval(pollInterval);
      if lastSent != ZERO_TIME && Sub(now, lastSent) < interval {
        return None;
      }
      var previous := lastSent;
      lastSent := now;
      claim := Some(Claim(now, previous));
    }

    /** The second critical section, entered only after a failed publish. */
    method RollBack(claim: Claim)
      modifies this
      ensures lastSent == if old(lastSent) == claim.at then claim.previous else old(lastSent)
    {
      if lastSent == claim.at {
        lastSent := claim.previous;
      }
    }

    /** One call with nothing interleaved: it publishes exactly when not throttled, and a failed
        publish leaves the throttle as it was. */
    method Notify(now: Time, pollInterval: Duration, publishSucceeds: bool) returns (sent: bool, attempted: bool)
      modifies this
      ensures attempted <==> !Throttled(old(lastSent), now, pollInterval)
      ensures sent <==> attempted && publishSucceeds
      ensures lastSent == if sent then now else old(lastSent)
    {
      var claim := TryClaim(now, pollInterval);
      match claim {
        case None =>
          return false, false;
        case Some(c) =>
          if !publishSucceeds {
            RollBack(c);
          }
          return publishSucceeds, true;
      }
    }
  }

  // ---------------------------------------------------------------------------------------
  // Every interleaving
  // ---------------------------------------------------------------------------------------

  datatype Status = InFlight | Succeeded | Failed

  datatype Record = Record(claim: Claim, status: Status)

  /** The shared stamp, the last clock reading, and every claim made so far in order. */
  datatype State = State(lastSent: Time, clock: Time, records: seq<Record>)

  /** One atomic step of some call: the claim section, or the settling of an open claim. */
  datatype Event =
    | Begin(now: Time, pollInterval: Duration)
    | Settle(id: nat, ok: bool)

  const START := State(ZERO_TIME, ZERO_TIME, [])

  predicate Enabled(s: State, e: Event)
  {
    match e
    case Begin(now, _) => now > ZERO_TIME && now >= s.clock
    case Settle(id, _) => id < |s.records| && s.records[id].status == InFlight
  }

  function Apply(s: State, e: Event): State
    requires Enabled(s, e)
  {
    match e
    case Begin(now, pollInterval) =>
      if Throttled(s.lastSent, now, pollInterval) then s.(clock := now)
      else State(now, now, s.records + [Record(Claim(now, s.lastSent), InFlight)])
    case Settle(id, ok) =>
      var record := s.records[id];
      var records := s.records[id := record.(status := if ok then Succeeded else Failed)];
      if !ok && s.lastSent == record.claim.at then State(record.claim.previous, s.clock, records)
      else s.(records := records)
  }

  function Step(s: State, e: Event): Option<State>
  {
    if Enabled(s, e) then Some(Apply(s, e)) else None
  }

  function Run(events: seq<Event>): Option<State>
  {
    Reach(Step, START, events)
  }

  /** The object's critical sections are the steps of this machine. */
  method Perform(w: WidgetNotifier, ghost s: State, e: Event, claim: Claim) returns (made: Option<Claim>)
    requires w.lastSent == s.lastSent && Enabled(s, e)
    requires e.Settle? ==> claim == s.records[e.id].claim
    modifies w
    ensures w.lastSent == Apply(s, e).lastSent
    ensures e.Begin? && made.None? ==> Apply(s, e).records == s.records
    ensures e.Begin? && made.Some? ==> Apply(s, e).records == s.records + [Record(made.value, InFlight)]
  {
    made := None;
    match e {
      case Begin(now, pollInterval) => made := w.TryClaim(now, pollInterval);
      case Settle(_, ok) => if !ok { w.RollBack(claim); }
    }
  }

  predicate Live(s: State, i: int)
  {
    0 <= i < |s.records| && s.records[i].status != Failed
  }

  /** Each record's stamps are clock readings, the saved one not later than its own. */
  ghost predicate Sane(s: State)
  {
    && ZERO_TIME <= s.lastSent <= s.clock
    && forall i :: 0 <= i < |s.records| ==>
         && ZERO_TIME < s.records[i].claim.at <= s.clock
         && ZERO_TIME <= s.records[i].claim.previous
         && s.records[i].claim.previous <= s.records[i].claim.at
  }

  ghost predicate Spaced(s: State)
  {
    forall i, j :: i < j && Live(s, i) && Live(s, j) ==>
      s.records[j].claim.at - s.records[i].claim.at >= MIN_WIDGET_INTERVAL
  }

  /** No live claim is later than the stamp. */
  ghost predicate Covered(s: State)
  {
    forall i :: Live(s, i) ==> s.records[i].claim.at <= s.lastSent
  }

  /** Each open claim has saved a stamp not earlier than any live claim made before it. */
  ghost predicate Remembered(s: State)
  {
    forall i, j :: i < j && Live(s, i) && Live(s, j) && s.records[j].status == InFlight ==>
      s.records[i].claim.at <= s.records[j].claim.previous
  }

  ghost predicate Inv(s: State)
  {
    Sane(s) && Spaced(s) && Covered(s) && Remembered(s)
  }

  lemma ClaimKeepsInv(s: State, now: Time, pollInterval: Duration)
    requires Inv(s) && now > ZERO_TIME && now >= s.clock
    ensures Inv(Apply(s, Begin(now, pollInterval)))
  {
    var t := Apply(s, Begin(now, pollInterval));
    forall i, j | i < j && Live(t, i) && Live(t, j)
      ensures t.records[j].claim.at - t.records[i].claim.at >= MIN_WIDGET_INTERVAL
      ensures t.records[j].status == InFlight ==> t.records[i].claim.at <= t.records[j].claim.previous
    {
      assert Live(s, i);
      assert j < |s.records| ==> Live(s, j);
    }
    forall i | Live(t, i) ensures t.records[i].claim.at <= t.lastSent {
      assert i < |s.records| ==> Live(s, i);
    }
  }

  lemma SettleKeepsInv(s: State, id: nat, ok: bool)
    requires Inv(s) && Enabled(s, Settle(id, ok))
    ensures Inv(Apply(s, Settle(id, ok)))
  {
    var t := Apply(s, Settle(id, ok));
    forall i | Live(t, i)
      ensures Live(s, i) && t.records[i].claim == s.records[i].claim
      ensures t.records[i].claim.at <= t.lastSent
    {
      if t.lastSent != s.lastSent {
        assert i != id && Live(s, i) && Live(s, id);
      }
    }
    forall i, j | i < j && Live(t, i) && Live(t, j)
      ensures t.records[j].claim.at - t.records[i].claim.at >= MIN_WIDGET_INTERVAL
      ensures t.records[j].status == InFlight ==> t.records[i].claim.at <= t.records[j].claim.previous
    {
      assert Live(s, i) && Live(s, j);
    }
  }

  lemma {:induction false} ReachableInv(events: seq<Event>, s: State)
    requires Run(events) == Some(s)
    ensures Inv(s)
  {
    if events != [] {
      var before := Run(events[..|events| - 1]).value;
      ReachableInv(events[..|events| - 1], before);
      match events[|events| - 1]
      case Begin(now, pollInterval) => ClaimKeepsInv(before, now, pollInterval);
      case Settle(id, ok) => SettleKeepsInv(before, id, ok);
    }
  }

  /** Spacing under every interleaving, any settle order and any poll-interval changes. */
  lemma LiveClaimsAreSpaced(events: seq<Event>, s: State, i: int, j: int)
    requires Run(events) == Some(s) && i < j && Live(s, i) && Live(s, j)
    ensures s.records[j].claim.at - s.records[i].claim.at >= 600_000_000_000
    ensures s.records[j].claim.at <= s.lastSent
  {
    ReachableInv(events, s);
  }

  // ---------------------------------------------------------------------------------------
  // Never throttled without cause
  // ---------------------------------------------------------------------------------------

  /** No claim step so far ran with a shorter effective interval. */
  ghost predicate NoneShorter(events: seq<Event>, interval: Duration)
  {
    forall e :: e in events && e.Begin? ==> Interval(e.pollInterval) >= interval
  }

  /** A stamp is either that of a live claim or already one interval old. */
  ghost predicate StampJustified(s: State, interval: Duration)
  {
    && (s.lastSent == ZERO_TIME || s.clock - s.lastSent >= interval
        || exists i :: Live(s, i) && s.records[i].claim.at == s.lastSent)
    && (forall i :: 0 <= i < |s.records| ==>
          var claim := s.records[i].claim;
          claim.previous == ZERO_TIME || claim.at - claim.previous >= interval)
  }

  lemma StepKeepsStamp(s: State, e: Event, interval: Duration)
    requires Inv(s) && Enabled(s, e) && StampJustified(s, interval)
    requires e.Begin? ==> Interval(e.pollInterval) >= interval
    ensures StampJustified(Apply(s, e), interval)
  {
    var t := Apply(s, e);
    match e
    case Begin(now, pollInterval) =>
      if !Throttled(s.lastSent, now, pollInterval) {
        assert Live(t, |s.records|) && t.records[|s.records|].claim.at == t.lastSent;
      } else if i :| Live(s, i) && s.records[i].claim.at == s.lastSent {
        assert Live(t, i);
      }
    case Settle(id, ok) =>
      if t.lastSent == s.lastSent && s.lastSent != ZERO_TIME && s.clock - s.lastSent < interval {
        var i :| Live(s, i) && s.records[i].claim.at == s.lastSent;
        assert Live(t, i);
      }
  }

  lemma {:induction false} ReachableStamp(events: seq<Event>, s: State, interval: Duration)
    requires Run(events) == Some(s) && NoneShorter(events, interval)
    ensures StampJustified(s, interval)
  {
    if events != [] {
      var before := Run(events[..|events| - 1]).value;
      ReachableInv(events[..|events| - 1], before);
      ReachableStamp(events[..|events| - 1], before, interval);
      StepKeepsStamp(before, events[|events| - 1], interval);
    }
  }

  /** A claim that is in flight or succeeded lies within the last interval. */
  ghost predicate RecentLiveClaim(s: State, now: Time, pollInterval: Duration)
  {
    exists i :: Live(s, i) && now - s.records[i].claim.at < Interval(pollInterval)
  }

  /** While no earlier effective interval was shorter than the one now in force, a call is
      throttled exactly when some live claim lies within the last interval: failures never
      silence a later sample, whatever order they settled in. */
  lemma ThrottledIffRecentLiveClaim(events: seq<Event>, s: State, now: Time, pollInterval: Duration)
    requires Run(events) == Some(s) && NoneShorter(events, Interval(pollInterval))
    requires now > ZERO_TIME && now >= s.clock
    ensures Throttled(s.lastSent, now, pollInterval) <==> RecentLiveClaim(s, now, pollInterval)
  {
    ReachableInv(events, s);
    ReachableStamp(events, s, Interval(pollInterval));
    if i :| Live(s, i) && now - s.records[i].claim.at < Interval(pollInterval) {
      assert s.records[i].claim.at <= s.lastSent;
    }
  }

  /** Two claims a shorter interval apart that settle as failures in the order they were made. */
  function FailuresInOrder(shorter: Duration): seq<Event>
  {
    [Begin(1, shorter), Begin(1 + Interval(shorter), shorter), Settle(0, false), Settle(1, false)]
  }

  /** The first one's stamp comes back, and any longer interval then throttles on it although no
      claim is live. */
  lemma GrownIntervalThrottlesOnFailure(shorter: Duration, longer: Duration)
    requires Interval(shorter) < Interval(longer)
    ensures match Run(FailuresInOrder(shorter))
            case None => false
            case Some(s) =>
              && s.clock == 1 + Interval(shorter)
              && Throttled(s.lastSent, s.clock, longer)
              && !RecentLiveClaim(s, s.clock, longer)
  {
    var a, b := Begin(1, shorter), Begin(1 + Interval(shorter), shorter);
    var c, d := Settle(0, false), Settle(1, false);
    ReachNext(Step, START, [], a);
    ReachNext(Step, START, [a], b);
    ReachNext(Step, START, [a, b], c);
    ReachNext(Step, START, [a, b, c], d);
    assert [] + [a] == [a] && [a] + [b] == [a, b] && [a, b] + [c] == [a, b, c] && [a, b, c] + [d] == [a, b, c, d];
  }

  /** Every claim step ran with one of the given poll intervals. */
  ghost predicate UsesOnly(events: seq<Event>, past: set<Duration>)
  {
    forall e :: e in events && e.Begin? ==> e.pollInterval in past
  }

  /** After every schedule using the `past` poll intervals, a call at `pollInterval` is throttled
      only with cause, and always with cause. */
  ghost predicate ThrottleIsJust(past: set<Duration>, pollInterval: Duration)
  {
    forall events: seq<Event>, now: Time ::
      UsesOnly(events, past) && Run(events).Some? && now > ZERO_TIME && now >= Run(events).value.clock ==>
        (Throttled(Run(events).value.lastSent, now, pollInterval)
         <==> RecentLiveClaim(Run(events).value, now, pollInterval))
  }

  /** The exact condition: no effective interval of the past is shorter than the present one. */
  lemma ThrottleIsJustIff(past: set<Duration>, pollInterval: Duration)
    ensures ThrottleIsJust(past, pollInterval) <==> forall a :: a in past ==> Interval(a) >= Interval(pollInterval)
  {
    if a :| a in past && Interval(a) < Interval(pollInterval) {
      GrownIntervalThrottlesOnFailure(a, pollInterval);
      assert UsesOnly(FailuresInOrder(a), past);
      assert !ThrottleIsJust(past, pollInterval);
    } else {
      forall events: seq<Event>, now: Time
        | UsesOnly(events, past) && Run(events).Some? && now > ZERO_TIME && now >= Run(events).value.clock
        ensures Throttled(Run(events).value.lastSent, now, pollInterval)
                <==> RecentLiveClaim(Run(events).value, now, pollInterval)
      {
        ThrottledIffRecentLiveClaim(events, Run(events).value, now, pollInterval);
      }
    }
  }

  // ---------------------------------------------------------------------------------------
  // One call at a time
  // ---------------------------------------------------------------------------------------

  ghost predicate NoneInFlight(records: seq<Record>)
  {
    forall i :: 0 <= i < |records| ==> records[i].status != InFlight
  }

  /** Every call settles before the next one begins, as when a single sink makes them. */
  ghost predicate OneAtATime(events: seq<Event>)
  {
    events == [] ||
    var init := events[..|events| - 1];
    && OneAtATime(init)
    && (events[|events| - 1].Begin? && Run(init).Some? ==> NoneInFlight(Run(init).value.records))
  }

  /** The stamp is that of a claim that did not fail, or zero when there is none. */
  ghost predicate StampOf(records: seq<Record>, stamp: Time)
  {
    || (exists i :: 0 <= i < |records| && records[i].status != Failed && records[i].claim.at == stamp)
    || (stamp == ZERO_TIME && forall i :: 0 <= i < |records| ==> records[i].status == Failed)
  }

  /** Only the last claim can be in flight, and what it remembers is the stamp without it. */
  ghost predicate Orderly(s: State)
  {
    && StampOf(s.records, s.lastSent)
    && forall i :: 0 <= i < |s.records| && s.records[i].status == InFlight ==>
         && i == |s.records| - 1
         && s.lastSent == s.records[i].claim.at
         && StampOf(s.records[..i], s.records[i].claim.previous)
  }

  lemma BeginKeepsOrder(s: State, now: Time, pollInterval: Duration)
    requires Orderly(s) && NoneInFlight(s.records) && Enabled(s, Begin(now, pollInterval))
    ensures Orderly(Apply(s, Begin(now, pollInterval)))
  {
    var t := Apply(s, Begin(now, pollInterval));
    if !Throttled(s.lastSent, now, pollInterval) {
      assert t.records[..|s.records|] == s.records;
      assert t.records[|s.records|].claim.at == now;
    }
  }

  lemma SettleKeepsOrder(s: State, id: nat, ok: bool)
    requires Orderly(s) && Enabled(s, Settle(id, ok))
    ensures Orderly(Apply(s, Settle(id, ok)))
  {
    var t := Apply(s, Settle(id, ok));
    assert id == |s.records| - 1 && s.lastSent == s.records[id].claim.at;
    if ok {
      assert t.records[id].status == Succeeded && t.records[id].claim.at == t.lastSent;
    } else {
      var earlier, stamp := s.records[..id], s.records[id].claim.previous;
      if i :| 0 <= i < |earlier| && earlier[i].status != Failed && earlier[i].claim.at == stamp {
        assert t.records[i] == earlier[i];
      } else {
        assert forall i :: 0 <= i < id ==> t.records[i] == earlier[i];
      }
    }
  }

  lemma {:induction false} OneAtATimeIsOrderly(events: seq<Event>, s: State)
    requires Run(events) == Some(s) && OneAtATime(events)
    ensures Orderly(s)
  {
    if events != [] {
      var before := Run(events[..|events| - 1]).value;
      OneAtATimeIsOrderly(events[..|events| - 1], before);
      match events[|events| - 1]
      case Begin(now, pollInterval) => BeginKeepsOrder(before, now, pollInterval);
      case Settle(id, ok) => SettleKeepsOrder(before, id, ok);
    }
  }

  /** While calls do not overlap, a call is throttled exactly when a claim in flight or succeeded
      lies within the last interval, however the interval has changed: a stale stamp needs
      overlapping calls. */
  lemma OneAtATimeThrottleIsJust(events: seq<Event>, s: State, now: Time, pollInterval: Duration)
    requires Run(events) == Some(s) && OneAtATime(events)
    requires now > ZERO_TIME && now >= s.clock
    ensures Throttled(s.lastSent, now, pollInterval) <==> RecentLiveClaim(s, now, pollInterval)
  {
    ReachableInv(events, s);
    OneAtATimeIsOrderly(events, s);
    if i :| Live(s, i) && now - s.records[i].claim.at < Interval(pollInterval) {
      assert s.records[i].claim.at <= s.lastSent;
    }
    if Throttled(s.lastSent, now, pollInterval) {
      var i :| 0 <= i < |s.records| && s.records[i].status != Failed && s.records[i].claim.at == s.lastSent;
      assert Live(s, i);
    }
  }
}
