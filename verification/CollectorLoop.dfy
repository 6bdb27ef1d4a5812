/**
 The collector's reconfigurable loop. One loop goroutine and any number of `SetInterval`
 callers share the interval field and a wake channel with one slot; every shared access is an
 atomic step, time passes in between, and the facts below hold for every interleaving.
 */
module CollectorLoop {
  import opened GoTime
  import opened Runs
  import opened Sequences
  import opened Wrappers

  /** What ended the wait before a pass of the loop. */
  datatype Arrival = AtStart | ByTimer(d: Duration) | ByWake

  /** Where the loop goroutine stands. */
  datatype Counter =
    | AtTop(arrival: Arrival)             // about to read the interval that decides whether to tick
    | Ticking                             // gathering a sample and handing it to the sinks
    | BeforeWait                          // about to read the interval that it will wait on
    | Waiting(d: Duration, until: Time)   // blocked on what it read, with a timer if that is positive
    | Stopped                             // the context was cancelled during a wait

  /** A tick: when it began, the interval read before it, and what brought the loop there. */
  datatype Tick = Tick(at: Time, interval: Duration, arrival: Arrival)

  const WAKE_SLOTS := 1

  /** The shared fields, the loop's position, the callers caught between their store and their
      signal, and the ticks so far. */
  datatype State = State(
    now: Time,
    interval: Duration,
    wakes: nat,
    counter: Counter,
    unsignalled: nat,
    ticked: seq<Tick>)

  datatype Event =
    | Advance(to: Time)
    | Store(d: Duration)     // SetInterval writes the field under the lock
    | Signal                 // the same call's non-blocking send
    | ReadTop
    | FinishTick
    | ReadForWait
    | TimerFires
    | TakeWake
    | Cancel

  function Start(now: Time, interval: Duration): State
  {
    State(now, interval, 0, AtTop(AtStart), 0, [])
  }

  predicate Enabled(s: State, e: Event)
  {
    match e
    case Advance(to) => to >= s.now
    case Store(_) => true
    case Signal => s.unsignalled > 0
    case ReadTop => s.counter.AtTop?
    case FinishTick => s.counter == Ticking
    case ReadForWait => s.counter == BeforeWait
    case TimerFires => s.counter.Waiting? && s.counter.d > 0 && s.now >= s.counter.until
    case TakeWake => s.counter.Waiting? && s.wakes > 0
    case Cancel => s.counter.Waiting?
  }

  function Apply(s: State, e: Event): State
    requires Enabled(s, e)
  {
    match e
    case Advance(to) => s.(now := to)
    case Store(d) => s.(interval := d, unsignalled := s.unsignalled + 1)
    case Signal =>
      s.(wakes := if s.wakes < WAKE_SLOTS then s.wakes + 1 else s.wakes,
         unsignalled := s.unsignalled - 1)
    case ReadTop =>
      if s.interval > 0 then
        s.(counter := Ticking, ticked := s.ticked + [Tick(s.now, s.interval, s.counter.arrival)])
      else s.(counter := BeforeWait)
    case FinishTick => s.(counter := BeforeWait)
    case ReadForWait => s.(counter := Waiting(s.interval, s.now + s.interval))
    case TimerFires => s.(counter := AtTop(ByTimer(s.counter.d)))
    case TakeWake => s.(counter := AtTop(ByWake), wakes := s.wakes - 1)
    case Cancel => s.(counter := Stopped)
  }

  function Step(s: State, e: Event): Option<State>
  {
    if Enabled(s, e) then Some(Apply(s, e)) else None
  }

  function RunFrom(s: State, events: seq<Event>): Option<State>
  {
    Reach(Step, s, events)
  }

  // ---------------------------------------------------------------------------------------
  // The object
  // ---------------------------------------------------------------------------------------

  class Collector {
    var clock: Time
    var interval: Duration
    var wakes: nat
    var counter: Counter
    ghost var unsignalled: nat
    ghost var ticked: seq<Tick>

    ghost function Value(): State
      reads this
    {
      State(clock, interval, wakes, counter, unsignalled, ticked)
    }

    constructor (now: Time, interval: Duration)
      ensures Value() == Start(now, interval)
    {
      clock := now;
      this.interval, wakes, counter := interval, 0, AtTop(AtStart);
      unsignalled, ticked := 0, [];
    }

    method PassTime(to: Time)
      requires Enabled(Value(), Advance(to))
      modifies this
      ensures Value() == Apply(old(Value()), Advance(to))
      ensures clock == to && interval == old(interval) && wakes == old(wakes) && counter == old(counter)
    {
      clock := to;
    }

    /** `SetInterval` up to the release of the lock. */
    method StoreInterval(d: Duration)
      modifies this
      ensures Value() == Apply(old(Value()), Store(d))
      ensures clock == old(clock) && interval == d && wakes == old(wakes) && counter == old(counter)
    {
      interval := d;
      unsignalled := unsignalled + 1;
    }

    /** The rest of `SetInterval`: a send that gives up when the slot is taken. */
    method SignalLoop()
      requires Enabled(Value(), Signal)
      modifies this
      ensures Value() == Apply(old(Value()), Signal)
      ensures clock == old(clock) && interval == old(interval) && counter == old(counter)
      ensures wakes == if old(wakes) == 0 then 1 else old(wakes)
    {
      if wakes < WAKE_SLOTS {
        wakes := wakes + 1;
      }
      unsignalled := unsignalled - 1;
    }

    /** One full call with nothing interleaved. */
    method SetInterval(d: Duration)
      modifies this
      ensures Value() == Apply(Apply(old(Value()), Store(d)), Signal)
      ensures interval == d && wakes > 0
    {
      StoreInterval(d);
      SignalLoop();
    }

    /** The top of the loop: tick unless paused. */
    method ReadAtTop() returns (ticks: bool)
      requires counter.AtTop?
      modifies this
      ensures Value() == Apply(old(Value()), ReadTop)
      ensures ticks <==> old(interval) > 0
      ensures clock == old(clock) && interval == old(interval) && wakes == old(wakes)
      ensures counter == if ticks then Ticking else BeforeWait
    {
      ticks := interval > 0;
      if ticks {
        ticked := ticked + [Tick(clock, interval, counter.arrival)];
        counter := Ticking;
      } else {
        counter := BeforeWait;
      }
    }

    method EndTick()
      requires counter == Ticking
      modifies this
      ensures Value() == Apply(old(Value()), FinishTick)
      ensures clock == old(clock) && interval == old(interval) && wakes == old(wakes) && counter == BeforeWait
    {
      counter := BeforeWait;
    }

    method EnterWait() returns (d: Duration)
      requires counter == BeforeWait
      modifies this
      ensures Value() == Apply(old(Value()), ReadForWait)
      ensures d == old(interval)
      ensures clock == old(clock) && interval == old(interval) && wakes == old(wakes)
      ensures counter == Waiting(d, clock + d)
    {
      d := interval;
      counter := Waiting(d, clock + d);
    }

    /** Leaves the wait by whichever ready case the select took. */
    method LeaveWait(cause: Event)
      requires cause == TimerFires || cause == TakeWake || cause == Cancel
      requires Enabled(Value(), cause)
      modifies this
      ensures Value() == Apply(old(Value()), cause)
      ensures clock == old(clock) && interval == old(interval)
      ensures wakes == if cause == TakeWake then old(wakes) - 1 else old(wakes)
      ensures if cause == Cancel then counter == Stopped else counter.AtTop?
    {
      match cause {
        case TimerFires => counter := AtTop(ByTimer(counter.d));
        case TakeWake => counter, wakes := AtTop(ByWake), wakes - 1;
        case Cancel => counter := Stopped;
      }
    }
  }

  /** One step, by the method that takes it. */
  method Perform(c: Collector, e: Event)
    requires Enabled(c.Value(), e)
    modifies c
    ensures c.Value() == Apply(old(c.Value()), e)
  {
    match e {
      case Advance(to) => c.PassTime(to);
      case Store(d) => c.StoreInterval(d);
      case Signal => c.SignalLoop();
      case ReadTop => var _ := c.ReadAtTop();
      case FinishTick => c.EndTick();
      case ReadForWait => var _ := c.EnterWait();
      case TimerFires => c.LeaveWait(e);
      case TakeWake => c.LeaveWait(e);
      case Cancel => c.LeaveWait(e);
    }
  }

  /** The collector object takes every schedule. */
  method Drive(now: Time, interval: Duration, events: seq<Event>) returns (c: Collector)
    requires RunFrom(Start(now, interval), events).Some?
    ensures fresh(c) && Some(c.Value()) == RunFrom(Start(now, interval), events)
  {
    c := new Collector(now, interval);
    for i := 0 to |events|
      invariant fresh(c) && Some(c.Value()) == RunFrom(Start(now, interval), events[..i])
    {
      PrefixRuns(Step, Start(now, interval), events, i);
      Perform(c, events[i]);
    }
    assert events[..|events|] == events;
  }

  // ---------------------------------------------------------------------------------------
  // Safety over every run
  // ---------------------------------------------------------------------------------------

  /** A loop waiting on an outdated interval has a wake pending or coming. */
  ghost predicate NoLostWakeup(s: State)
  {
    s.counter.Waiting? && s.counter.d != s.interval ==> s.wakes > 0 || s.unsignalled > 0
  }

  /** How many events of a kind a schedule holds. */
  function Count(kind: Event -> bool, events: seq<Event>): nat
  {
    |Filter(kind, events)|
  }

  function Expiry(): Event -> bool
  {
    (e: Event) => e == TimerFires
  }

  function Taken(): Event -> bool
  {
    (e: Event) => e == TakeWake
  }

  function SetCall(): Event -> bool
  {
    (e: Event) => e.Store?
  }

  /** Ticks are paid for by the start, a timer expiry or a wake; wakes by calls. */
  ghost predicate Inv(s: State, events: seq<Event>)
  {
    && NoLostWakeup(s)
    && s.wakes <= WAKE_SLOTS
    && (forall t :: t in s.ticked ==> t.interval > 0)
    && |s.ticked| + (if s.counter.AtTop? then 1 else 0) <= 1 + Count(Expiry(), events) + Count(Taken(), events)
    && Count(Taken(), events) + s.wakes + s.unsignalled <= Count(SetCall(), events)
  }

  lemma {:induction false} RunKeepsInv(now: Time, interval: Duration, events: seq<Event>)
    ensures match RunFrom(Start(now, interval), events)
            case None => true
            case Some(s) => Inv(s, events)
  {
    if events != [] {
      RunKeepsInv(now, interval, events[..|events| - 1]);
    }
  }

  /** In every reachable state with no caller between its store and its signal, a waiting loop
      waits on the current interval or has a wake pending; at most one wake is ever pending. */
  lemma NoWakeupIsLost(now: Time, interval: Duration, events: seq<Event>, s: State)
    requires RunFrom(Start(now, interval), events) == Some(s)
    ensures s.counter.Waiting? && s.unsignalled == 0 ==> s.counter.d == s.interval || s.wakes == 1
    ensures s.wakes <= 1
    ensures s.counter.Waiting? && s.counter.d <= 0 && s.interval > 0 && s.unsignalled == 0 ==> Enabled(s, TakeWake)
  {
    RunKeepsInv(now, interval, events);
  }

  /** Over every run, ticks begun are at most one more than timer expiries and `SetInterval`
      calls together, and each one follows the reading of a positive interval. */
  lemma TicksArePaidFor(now: Time, interval: Duration, events: seq<Event>, s: State)
    requires RunFrom(Start(now, interval), events) == Some(s)
    ensures |s.ticked| <= 1 + Count(Expiry(), events) + Count(SetCall(), events)
    ensures forall t :: t in s.ticked ==> t.interval > 0
  {
    RunKeepsInv(now, interval, events);
  }

  // ---------------------------------------------------------------------------------------
  // Pace
  // ---------------------------------------------------------------------------------------

  /** At least `d` has passed, or will have at `at`, since the last tick began. */
  ghost predicate SinceLastTick(s: State, at: Time, d: Duration)
  {
    s.ticked != [] ==> at - s.ticked[|s.ticked| - 1].at >= d
  }

  ghost predicate Paced(s: State)
  {
    && SinceLastTick(s, s.now, 0)
    && (s.counter.Waiting? ==>
          SinceLastTick(s, s.counter.until, s.counter.d) && s.counter.until <= s.now + s.counter.d)
    && (s.counter.AtTop? && s.counter.arrival.ByTimer? ==> SinceLastTick(s, s.now, s.counter.arrival.d))
    && (forall k :: 0 < k < |s.ticked| && s.ticked[k].arrival.ByTimer? ==>
          s.ticked[k].at - s.ticked[k - 1].at >= s.ticked[k].arrival.d)
  }

  lemma StepKeepsPace(s: State, e: Event)
    requires Paced(s) && Enabled(s, e)
    ensures Paced(Apply(s, e))
  {
  }

  lemma {:induction false} RunKeepsPace(s: State, events: seq<Event>, t: State)
    requires Paced(s) && RunFrom(s, events) == Some(t)
    ensures Paced(t)
  {
    if events != [] {
      var middle := RunFrom(s, events[..|events| - 1]).value;
      RunKeepsPace(s, events[..|events| - 1], middle);
      StepKeepsPace(middle, events[|events| - 1]);
    }
  }

  /** Over every run, a tick that a timer brought about begins at least the time waited for after
      the tick before it; only a wake can make it come sooner. */
  lemma TimerTicksAreSpaced(now: Time, interval: Duration, events: seq<Event>, s: State, k: nat)
    requires RunFrom(Start(now, interval), events) == Some(s) && 0 < k < |s.ticked|
    ensures s.ticked[k].arrival.ByTimer? ==> s.ticked[k].at - s.ticked[k - 1].at >= s.ticked[k].arrival.d
  {
    RunKeepsPace(Start(now, interval), events, s);
  }

  /** Since state `s` no wake could reach the loop: it waits on `s`'s interval or not at all, and
      ticks on timers only, except for the pass that was under way. */
  ghost predicate Undisturbed(s: State, t: State)
  {
    && t.interval == s.interval && t.wakes == 0 && t.unsignalled == 0
    && s.ticked <= t.ticked
    && (t.counter.Waiting? ==> t.counter.d == s.interval)
    && (t.counter.AtTop? && (s.counter.AtTop? ==> t.ticked != s.ticked) ==>
          t.counter.arrival == ByTimer(s.interval))
    && (forall k :: |s.ticked| <= k < |t.ticked| && (s.counter.AtTop? ==> k > |s.ticked|) ==>
          t.ticked[k].arrival == ByTimer(s.interval))
  }

  lemma {:induction false} RunStaysUndisturbed(s: State, events: seq<Event>, t: State)
    requires RunFrom(s, events) == Some(t)
    requires s.wakes == 0 && s.unsignalled == 0 && forall e :: e in events ==> !e.Store?
    requires s.interval > 0
    requires s.counter.Waiting? ==> s.counter.d == s.interval
    ensures Undisturbed(s, t)
  {
    if events != [] {
      var init := events[..|events| - 1];
      assert events[|events| - 1] in events && forall e :: e in init ==> e in events;
      RunStaysUndisturbed(s, init, RunFrom(s, init).value);
    }
  }

  /** From any reachable state with no wake pending, while nobody calls `SetInterval`, ticks are at
      least the interval apart: all of them, except for the first one of a pass that had already
      begun. While the interval is not positive there are none. */
  lemma QuietTicksAreSpaced(now: Time, initial: Duration, before: seq<Event>, s: State, events: seq<Event>, t: State)
    requires RunFrom(Start(now, initial), before) == Some(s) && RunFrom(s, events) == Some(t)
    requires s.wakes == 0 && s.unsignalled == 0 && forall e :: e in events ==> !e.Store?
    ensures s.interval > 0 ==>
              forall k :: |s.ticked| <= k < |t.ticked| && k > 0 && (s.counter.AtTop? ==> k > |s.ticked|) ==>
                t.ticked[k].at - t.ticked[k - 1].at >= s.interval
    ensures s.interval <= 0 ==> t.ticked == s.ticked
  {
    NoWakeupIsLost(now, initial, before, s);
    RunKeepsPace(Start(now, initial), before, s);
    RunKeepsPace(s, events, t);
    if s.interval > 0 {
      RunStaysUndisturbed(s, events, t);
    } else {
      PausedLoopIsQuiet(s, events, t);
    }
  }

  lemma {:induction false} PausedLoopIsQuiet(s: State, events: seq<Event>, t: State)
    requires RunFrom(s, events) == Some(t) && s.interval <= 0
    requires forall e :: e in events ==> !e.Store?
    ensures t.interval == s.interval && t.ticked == s.ticked
  {
    if events != [] {
      var init := events[..|events| - 1];
      assert events[|events| - 1] in events && forall e :: e in init ==> e in events;
      PausedLoopIsQuiet(s, init, RunFrom(s, init).value);
    }
  }

  // ---------------------------------------------------------------------------------------
  // Progress
  // ---------------------------------------------------------------------------------------

  /** Steps of the loop goroutine, other than leaving for good. */
  predicate LoopStep(e: Event)
  {
    e == ReadTop || e == FinishTick || e == ReadForWait || e == TimerFires || e == TakeWake
  }

  /** How far the loop is from its next tick while the interval stays positive. */
  function Distance(c: Counter): nat
  {
    match c
    case AtTop(_) => 1
    case Waiting(_, _) => 2
    case BeforeWait => 3
    case Ticking => 4
    case Stopped => 5
  }

  function LoopSteps(events: seq<Event>): nat
  {
    if events == [] then 0
    else LoopSteps(events[..|events| - 1]) + if LoopStep(events[|events| - 1]) then 1 else 0
  }

  ghost predicate Quiet(events: seq<Event>)
  {
    forall e :: e in events ==> !e.Store? && !e.Cancel?
  }

  /** The loop is never stuck with a positive interval: as soon as the callers under way have
      signalled, it has a step of its own, now or when at most the interval has passed. */
  lemma LoopCanMove(start: Time, initial: Duration, events: seq<Event>, s: State)
    requires RunFrom(Start(start, initial), events) == Some(s)
    requires s.interval > 0 && s.unsignalled == 0 && s.counter != Stopped
    ensures exists to, e ::
              && s.now <= to <= s.now + s.interval
              && LoopStep(e) && Enabled(s, Advance(to)) && Enabled(Apply(s, Advance(to)), e)
  {
    NoWakeupIsLost(start, initial, events, s);
    RunKeepsPace(Start(start, initial), events, s);
    var (to, e) := match s.counter
      case AtTop(_) => (s.now, ReadTop)
      case Ticking => (s.now, FinishTick)
      case BeforeWait => (s.now, ReadForWait)
      case Waiting(d, until) =>
        if d != s.interval then (s.now, TakeWake)
        else (if until > s.now then until else s.now, TimerFires)
      case Stopped => (s.now, Cancel);
    assert LoopStep(e) && Enabled(s, Advance(to)) && Enabled(Apply(s, Advance(to)), e);
  }

  lemma {:induction false} StepsApproachTick(s: State, events: seq<Event>, t: State)
    requires RunFrom(s, events) == Some(t) && Quiet(events)
    requires s.interval > 0 && s.counter != Stopped
    ensures t.interval == s.interval && t.counter != Stopped && s.ticked <= t.ticked
    ensures t.ticked == s.ticked ==> Distance(t.counter) + LoopSteps(events) == Distance(s.counter)
  {
    if events != [] {
      var init := events[..|events| - 1];
      var middle := RunFrom(s, init).value;
      assert events[|events| - 1] in events && forall e :: e in init ==> e in events;
      StepsApproachTick(s, init, middle);
    }
  }

  /** From any state with a positive interval, if no further change or cancellation comes, the
      fourth step the loop takes has begun a tick at the latest. */
  lemma TickWithinFourSteps(s: State, events: seq<Event>, t: State)
    requires RunFrom(s, events) == Some(t) && Quiet(events)
    requires s.interval > 0 && s.counter != Stopped
    requires LoopSteps(events) >= 4
    ensures |t.ticked| > |s.ticked|
  {
    StepsApproachTick(s, events, t);
  }

  // ---------------------------------------------------------------------------------------
  // Cancellation
  // ---------------------------------------------------------------------------------------

  lemma {:induction false} StoppedForGood(s: State, events: seq<Event>, t: State)
    requires RunFrom(s, events) == Some(t) && s.counter == Stopped
    ensures t.counter == Stopped && t.ticked == s.ticked
    ensures forall i :: 0 <= i < |events| ==> !LoopStep(events[i])
  {
    if events != [] {
      StoppedForGood(s, events[..|events| - 1], RunFrom(s, events[..|events| - 1]).value);
    }
  }

  /** A wait that is cancelled ends the loop: no step of it follows, and no tick. */
  lemma CancelEndsLoop(s: State, before: seq<Event>, t: State, after: seq<Event>, u: State)
    requires RunFrom(s, before + [Cancel]) == Some(t) && RunFrom(s, before + [Cancel] + after) == Some(u)
    ensures u.counter == Stopped && u.ticked == t.ticked
    ensures forall i :: 0 <= i < |after| ==> !LoopStep(after[i])
  {
    ReachNext(Step, s, before, Cancel);
    ReachAppend(Step, s, before + [Cancel], after);
    StoppedForGood(t, after, u);
  }
}
