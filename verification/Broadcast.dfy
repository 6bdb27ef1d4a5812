/**
 Live streaming: subscribers with bounded queues, broadcasts that never block, and the
 unsubscribe-then-close teardown. The map of subscribers is guarded by a read-write lock, so a
 broadcast sweep excludes subscribing and unsubscribing but not draining or closing.
 */
module Broadcast {
  import opened Runs
  import opened Samples
  import opened Sequences
  import opened Wrappers

  const CAPACITY := 8

  type Id = nat

  // ---------------------------------------------------------------------------------------
  // Every interleaving
  // ---------------------------------------------------------------------------------------

  function Offered(queue: seq<Sample>, sample: Sample): seq<Sample>
  {
    if |queue| < CAPACITY then queue + [sample] else queue
  }

  /** One stream's channel with its bookkeeping: what its handler has received, what sweeps have
      offered it, how much of that was dropped, and how many broadcasts had begun when it joined and left. */
  datatype Stream = Stream(
    queue: seq<Sample>,
    closed: bool,
    received: seq<Sample>,
    offered: seq<Sample>,
    dropped: nat,
    joinedAt: nat,
    leftAt: Option<nat>)

  /** A broadcast in progress under the read lock. */
  datatype Sweep = Sweep(sample: Sample, pending: set<Id>)

  datatype State = State(
    streams: map<Id, Stream>,
    subscribers: set<Id>,
    sweeps: map<Id, Sweep>,
    broadcasts: seq<Sample>,
    panicked: bool)

  datatype Event =
    | Subscribe(id: Id)
    | Unsubscribe(id: Id)
    | Close(id: Id)
    | Receive(id: Id)
    | BeginSweep(sweep: Id, sample: Sample)
    | Offer(sweep: Id, id: Id)
    | EndSweep(sweep: Id)

  const EMPTY := State(map[], {}, map[], [], false)

  predicate Enabled(s: State, e: Event)
  {
    match e
    case Subscribe(id) => s.sweeps == map[] && id !in s.streams
    case Unsubscribe(id) => s.sweeps == map[] && id in s.subscribers && id in s.streams
    case Close(id) => id in s.streams && id !in s.subscribers && !s.streams[id].closed
    case Receive(id) => id in s.subscribers && id in s.streams && s.streams[id].queue != []
    case BeginSweep(sweep, _) => sweep !in s.sweeps
    case Offer(sweep, id) => sweep in s.sweeps && id in s.sweeps[sweep].pending && id in s.streams
    case EndSweep(sweep) => sweep in s.sweeps && s.sweeps[sweep].pending == {}
  }

  function Apply(s: State, e: Event): State
    requires Enabled(s, e)
  {
    match e
    case Subscribe(id) =>
      s.(streams := s.streams[id := Stream([], false, [], [], 0, |s.broadcasts|, None)],
         subscribers := s.subscribers + {id})
    case Unsubscribe(id) =>
      s.(subscribers := s.subscribers - {id},
         streams := s.streams[id := s.streams[id].(leftAt := Some(|s.broadcasts|))])
    case Close(id) => s.(streams := s.streams[id := s.streams[id].(closed := true)])
    case Receive(id) =>
      var c := s.streams[id];
      s.(streams := s.streams[id := c.(queue := c.queue[1..], received := c.received + [c.queue[0]])])
    case BeginSweep(sweep, sample) =>
      s.(sweeps := s.sweeps[sweep := Sweep(sample, s.subscribers)], broadcasts := s.broadcasts + [sample])
    case Offer(sweep, id) =>
      var w, c := s.sweeps[sweep], s.streams[id];
      var sweeps := s.sweeps[sweep := w.(pending := w.pending - {id})];
      if c.closed then s.(sweeps := sweeps, panicked := true)
      else
        var room := |c.queue| < CAPACITY;
        s.(sweeps := sweeps,
           streams := s.streams[id := c.(queue := Offered(c.queue, w.sample),
                                         offered := c.offered + [w.sample],
                                         dropped := if room then c.dropped else c.dropped + 1)])
    case EndSweep(sweep) => s.(sweeps := s.sweeps - {sweep})
  }

  function Step(s: State, e: Event): Option<State>
  {
    if Enabled(s, e) then Some(Apply(s, e)) else None
  }

  function RunFrom(s: State, events: seq<Event>): Option<State>
  {
    Reach(Step, s, events)
  }

  function Run(events: seq<Event>): Option<State>
  {
    RunFrom(EMPTY, events)
  }

  // ---------------------------------------------------------------------------------------
  // Safety and conservation
  // ---------------------------------------------------------------------------------------

  /** The accounts of one stream balance. */
  ghost predicate Balanced(c: Stream)
  {
    && |c.queue| <= CAPACITY
    && |c.offered| == |c.received| + |c.queue| + c.dropped
    && Subsequence(c.received + c.queue, c.offered)
    && (c.dropped == 0 ==> c.received + c.queue == c.offered)
  }

  /** Sweeps only ever offer to subscribers, whose channels are open. */
  ghost predicate Guarded(s: State)
  {
    && (forall w :: w in s.sweeps ==> s.sweeps[w].pending <= s.subscribers)
    && (forall id :: id in s.subscribers ==> id in s.streams && !s.streams[id].closed)
  }

  ghost predicate Safe(s: State)
  {
    !s.panicked && Guarded(s)
  }

  ghost predicate Inv(s: State)
  {
    && Safe(s)
    && (forall id :: id in s.streams ==> Balanced(s.streams[id]))
  }

  lemma OfferKeepsBalance(c: Stream, sample: Sample)
    requires Balanced(c)
    ensures Balanced(c.(queue := Offered(c.queue, sample),
                        offered := c.offered + [sample],
                        dropped := if |c.queue| < CAPACITY then c.dropped else c.dropped + 1))
  {
    SubsequenceGrows(c.received + c.queue, c.offered, sample);
    assert c.received + (c.queue + [sample]) == c.received + c.queue + [sample];
  }

  lemma StepIsSafe(s: State, e: Event)
    requires Safe(s) && Enabled(s, e)
    ensures Safe(Apply(s, e))
  {
  }

  lemma StepKeepsInv(s: State, e: Event)
    requires Inv(s) && Enabled(s, e)
    ensures Inv(Apply(s, e))
  {
    StepIsSafe(s, e);
    match e
    case Subscribe(id) =>
      assert EmbedsAt<Sample>([] + [], [], []);
      assert Balanced(Apply(s, e).streams[id]);
    case Unsubscribe(id) =>
      assert Balanced(s.streams[id]);
    case Close(id) =>
      assert Balanced(s.streams[id]);
    case Receive(id) =>
      var c := s.streams[id];
      assert c.received + [c.queue[0]] + c.queue[1..] == c.received + c.queue;
    case BeginSweep(_, _) =>
    case Offer(sweep, id) => OfferKeepsBalance(s.streams[id], s.sweeps[sweep].sample);
    case EndSweep(_) =>
  }

  lemma {:induction false} RunKeepsInv(events: seq<Event>)
    ensures Run(events).Some? ==> Inv(Run(events).value)
  {
    if events != [] && Run(events).Some? {
      RunKeepsInv(events[..|events| - 1]);
      StepKeepsInv(Run(events[..|events| - 1]).value, events[|events| - 1]);
    }
  }

  /** No run sends on a closed channel, with any number of broadcasts in progress at once. */
  lemma NeverSendsOnClosed(events: seq<Event>, s: State)
    requires Run(events) == Some(s)
    ensures !s.panicked
  {
    RunKeepsInv(events);
  }

  /** Every sample offered to a stream is received, queued or dropped; what is received or queued
      keeps its order; nothing is lost unless something was dropped. */
  lemma StreamsConserveSamples(events: seq<Event>, s: State, id: Id)
    requires Run(events) == Some(s) && id in s.streams
    ensures var c := s.streams[id];
            && |c.queue| <= 8
            && |c.offered| == |c.received| + |c.queue| + c.dropped
            && Subsequence(c.received + c.queue, c.offered)
            && (c.dropped == 0 ==> c.received + c.queue == c.offered)
  {
    RunKeepsInv(events);
  }

  /** A step drops a sample exactly when it offers one to a full queue. */
  lemma DropsOnlyWhenFull(events: seq<Event>, s: State, e: Event, id: Id)
    requires Run(events) == Some(s) && Enabled(s, e) && id in s.streams
    ensures Apply(s, e).streams[id].dropped > s.streams[id].dropped <==>
            e.Offer? && e.id == id && |s.streams[id].queue| == 8
  {
    RunKeepsInv(events);
  }

  // ---------------------------------------------------------------------------------------
  // With the collector as the only broadcaster
  // ---------------------------------------------------------------------------------------

  /** No sweep begins while another is in progress. */
  ghost predicate OneBroadcaster(events: seq<Event>)
  {
    events == [] ||
    var init := events[..|events| - 1];
    && OneBroadcaster(init)
    && (events[|events| - 1].BeginSweep? && Run(init).Some? ==> Run(init).value.sweeps == map[])
  }

  /** A sweep in progress has yet to reach the stream. */
  ghost predicate Awaiting(s: State, id: Id)
  {
    exists w :: w in s.sweeps && id in s.sweeps[w].pending
  }

  /** How many of the broadcasts begun have got as far as the stream. */
  ghost function Reached(s: State, id: Id): int
    requires id in s.streams
  {
    match s.streams[id].leftAt
    case Some(n) => n
    case None => if Awaiting(s, id) then |s.broadcasts| - 1 else |s.broadcasts|
  }

  ghost predicate UpToDate(s: State, id: Id)
    requires id in s.streams
  {
    var c := s.streams[id];
    && (id in s.subscribers <==> c.leftAt == None)
    && c.joinedAt <= Reached(s, id) <= |s.broadcasts|
    && c.offered == s.broadcasts[c.joinedAt..Reached(s, id)]
  }

  ghost predicate SingleInv(s: State)
  {
    && (forall w, v :: w in s.sweeps && v in s.sweeps ==> w == v)
    && (forall w :: w in s.sweeps ==> s.broadcasts != [] && s.broadcasts[|s.broadcasts| - 1] == s.sweeps[w].sample)
    && (forall id :: id in s.streams ==> UpToDate(s, id))
  }

  lemma BeginKeepsUpToDate(s: State, w: Id, sample: Sample, id: Id)
    requires Guarded(s) && id in s.streams && UpToDate(s, id) && s.sweeps == map[]
    ensures UpToDate(Apply(s, BeginSweep(w, sample)), id)
  {
    var t := Apply(s, BeginSweep(w, sample));
    assert !Awaiting(s, id);
    assert id in t.subscribers ==> id in t.sweeps[w].pending;
    assert id in t.subscribers ==> Awaiting(t, id);
    assert t.broadcasts[s.streams[id].joinedAt..Reached(s, id)] == s.streams[id].offered;
  }

  lemma OfferKeepsUpToDate(s: State, w: Id, other: Id, id: Id)
    requires Guarded(s) && SingleInv(s) && id in s.streams && Enabled(s, Offer(w, other))
    ensures UpToDate(Apply(s, Offer(w, other)), id)
  {
    var t := Apply(s, Offer(w, other));
    assert UpToDate(s, id);
    assert t.sweeps.Keys == s.sweeps.Keys;
    assert Awaiting(s, id) <==> id in s.sweeps[w].pending;
    assert Awaiting(t, id) <==> id in t.sweeps[w].pending;
    if id == other {
      var n := |s.broadcasts|;
      assert s.broadcasts[s.streams[id].joinedAt..n]
          == s.broadcasts[s.streams[id].joinedAt..n - 1] + [s.broadcasts[n - 1]];
    }
  }

  lemma StepKeepsUpToDate(s: State, e: Event, id: Id)
    requires Guarded(s) && SingleInv(s) && Enabled(s, e) && id in Apply(s, e).streams
    requires e.BeginSweep? ==> s.sweeps == map[]
    ensures UpToDate(Apply(s, e), id)
  {
    var t := Apply(s, e);
    if id in s.streams {
      assert UpToDate(s, id);
      match e
      case BeginSweep(w, sample) => BeginKeepsUpToDate(s, w, sample, id);
      case Offer(w, other) => OfferKeepsUpToDate(s, w, other, id);
      case EndSweep(w) =>
        assert t.sweeps == map[];
        assert !Awaiting(t, id) && !Awaiting(s, id);
      case _ =>
        assert Awaiting(t, id) <==> Awaiting(s, id);
    } else {
      assert !Awaiting(t, id);
    }
  }

  lemma {:induction false} SingleBroadcasterInv(events: seq<Event>)
    requires OneBroadcaster(events) && Run(events).Some?
    ensures SingleInv(Run(events).value)
  {
    if events != [] {
      var init, last := events[..|events| - 1], events[|events| - 1];
      SingleBroadcasterInv(init);
      RunKeepsInv(init);
      var s := Run(init).value;
      forall id | id in Run(events).value.streams ensures UpToDate(Run(events).value, id) {
        StepKeepsUpToDate(s, last, id);
      }
    }
  }

  /** With a single broadcaster, what a stream received or still holds is a subsequence of the
      broadcasts begun between its joining and its leaving, and all of them while nothing was
      dropped; only the broadcast still in progress may not have reached a stream that stays. */
  lemma StreamsFollowBroadcasts(events: seq<Event>, s: State, id: Id)
    requires OneBroadcaster(events) && Run(events) == Some(s) && id in s.streams
    ensures id in s.subscribers <==> s.streams[id].leftAt == None
    ensures s.streams[id].joinedAt <= Reached(s, id) <= |s.broadcasts|
    ensures id in s.subscribers ==> Reached(s, id) >= |s.broadcasts| - 1
    ensures id in s.subscribers && s.sweeps == map[] ==> Reached(s, id) == |s.broadcasts|
    ensures id !in s.subscribers ==> s.streams[id].leftAt == Some(Reached(s, id))
    ensures Subsequence(s.streams[id].received + s.streams[id].queue,
                        s.broadcasts[s.streams[id].joinedAt..Reached(s, id)])
    ensures s.streams[id].dropped == 0 ==>
              s.streams[id].received + s.streams[id].queue == s.broadcasts[s.streams[id].joinedAt..Reached(s, id)]
  {
    RunKeepsInv(events);
    SingleBroadcasterInv(events);
    assert UpToDate(s, id);
  }

  // ---------------------------------------------------------------------------------------
  // The objects
  // ---------------------------------------------------------------------------------------

  class Channel {
    ghost const id: Id
    var queue: seq<Sample>
    var closed: bool

    constructor (ghost id: Id)
      ensures this.id == id && queue == [] && !closed
    {
      this.id := id;
      queue, closed := [], false;
    }

    ghost predicate Holds(c: Stream)
      reads this
    {
      queue == c.queue && closed == c.closed
    }
  }

  /** A sweep begun in `start` has offered its sample to every subscriber that is not pending. */
  ghost predicate PartSwept(start: State, s: State, sweep: Id, sample: Sample)
  {
    && s.subscribers == start.subscribers
    && sweep in s.sweeps && s.sweeps[sweep].sample == sample
    && forall id :: id in s.subscribers ==>
         && id in start.streams && id in s.streams
         && s.streams[id].queue == if id in s.sweeps[sweep].pending then start.streams[id].queue
                                   else Offered(start.streams[id].queue, sample)
  }

  lemma OfferSweepsOne(start: State, s: State, sweep: Id, sample: Sample, id: Id)
    requires Safe(s) && PartSwept(start, s, sweep, sample) && Enabled(s, Offer(sweep, id))
    ensures PartSwept(start, Apply(s, Offer(sweep, id)), sweep, sample)
    ensures Apply(s, Offer(sweep, id)).sweeps[sweep].pending == s.sweeps[sweep].pending - {id}
  {
  }

  /** The server's side of the streams. The ghost fields hold all channels ever made and record
      where the run stands; each method is one step of the transition system. */
  class Server {
    var subscribers: set<Channel>
    ghost var channels: map<Id, Channel>
    ghost var state: State

    ghost predicate Valid()
      reads this, channels.Values
    {
      && Safe(state)
      && channels.Keys == state.streams.Keys
      && (forall id :: id in channels ==>
            channels[id].id == id && channels[id].Holds(state.streams[id]))
      && (forall ch :: ch in subscribers ==> ch.id in state.subscribers && Owns(ch))
      && (forall id :: id in state.subscribers ==> id in channels && channels[id] in subscribers)
    }

    ghost predicate Owns(ch: Channel)
      reads this
    {
      ch.id in channels && channels[ch.id] == ch
    }

    constructor ()
      ensures Valid() && channels == map[] && state == EMPTY
    {
      subscribers := {};
      channels, state := map[], EMPTY;
    }

    /** The entry of a stream handler, under the write lock. */
    method Subscribe(ghost id: Id) returns (ch: Channel)
      requires Valid() && Enabled(state, Event.Subscribe(id))
      modifies this
      ensures Valid() && state == Apply(old(state), Event.Subscribe(id))
      ensures fresh(ch) && channels == old(channels)[id := ch]
      ensures subscribers == old(subscribers) + {ch}
    {
      StepIsSafe(state, Event.Subscribe(id));
      ch := new Channel(id);
      subscribers := subscribers + {ch};
      state, channels := Apply(state, Event.Subscribe(id)), channels[id := ch];
    }

    /** The first half of the handler's deferred teardown, under the write lock. */
    method Unsubscribe(ch: Channel)
      requires Valid() && Owns(ch) && Enabled(state, Event.Unsubscribe(ch.id))
      modifies this`subscribers, this`state
      ensures Valid() && state == Apply(old(state), Event.Unsubscribe(ch.id))
      ensures subscribers == old(subscribers) - {ch}
    {
      StepIsSafe(state, Event.Unsubscribe(ch.id));
      subscribers := subscribers - {ch};
      state := Apply(state, Event.Unsubscribe(ch.id));
    }

    /** The second half, after the lock is released. */
    method Close(ch: Channel)
      requires Valid() && Owns(ch) && Enabled(state, Event.Close(ch.id))
      modifies this`state, ch
      ensures Valid() && state == Apply(old(state), Event.Close(ch.id))
      ensures ch.closed && ch.queue == old(ch.queue)
    {
      StepIsSafe(state, Event.Close(ch.id));
      ch.closed := true;
      state := Apply(state, Event.Close(ch.id));
    }

    /** The handler takes the oldest sample off its channel. */
    method Receive(ch: Channel) returns (sample: Sample)
      requires Valid() && Owns(ch) && Enabled(state, Event.Receive(ch.id))
      modifies this`state, ch
      ensures Valid() && state == Apply(old(state), Event.Receive(ch.id))
      ensures old(ch.queue) == [sample] + ch.queue && ch.closed == old(ch.closed)
    {
      StepIsSafe(state, Event.Receive(ch.id));
      sample := ch.queue[0];
      ch.queue := ch.queue[1..];
      state := Apply(state, Event.Receive(ch.id));
    }

    /** A broadcast takes the read lock; from here the subscribers it will visit are fixed. */
    method BeginSweep(sample: Sample, ghost sweep: Id) returns (todo: set<Channel>)
      requires Valid() && Enabled(state, Event.BeginSweep(sweep, sample))
      modifies this`state
      ensures Valid() && state == Apply(old(state), Event.BeginSweep(sweep, sample))
      ensures todo == subscribers
    {
      StepIsSafe(state, Event.BeginSweep(sweep, sample));
      todo := subscribers;
      state := Apply(state, Event.BeginSweep(sweep, sample));
    }

    /** One turn of the loop, a send that never blocks. On a closed channel it would panic, but a
        subscriber's channel is open. */
    method Offer(ch: Channel, sample: Sample, ghost sweep: Id)
      requires Valid() && Owns(ch) && Enabled(state, Event.Offer(sweep, ch.id))
      requires state.sweeps[sweep].sample == sample
      modifies this`state, ch
      ensures Valid() && state == Apply(old(state), Event.Offer(sweep, ch.id))
      ensures ch.queue == (if |old(ch.queue)| < 8 then old(ch.queue) + [sample] else old(ch.queue))
      ensures !ch.closed && old(!ch.closed)
    {
      StepIsSafe(state, Event.Offer(sweep, ch.id));
      assert !ch.closed;
      if |ch.queue| < CAPACITY {
        ch.queue := ch.queue + [sample];
      }
      state := Apply(state, Event.Offer(sweep, ch.id));
    }

    method EndSweep(ghost sweep: Id)
      requires Valid() && Enabled(state, Event.EndSweep(sweep))
      modifies this`state
      ensures Valid() && state == Apply(old(state), Event.EndSweep(sweep))
    {
      StepIsSafe(state, Event.EndSweep(sweep));
      state := Apply(state, Event.EndSweep(sweep));
    }

    /** The channels that a sweep has yet to visit. */
    ghost predicate LeftToVisit(rest: set<Channel>, sweep: Id)
      reads this
      requires sweep in state.sweeps
    {
      && rest <= subscribers
      && (forall ch :: ch in rest ==> ch.id in state.sweeps[sweep].pending)
      && (forall id :: id in state.sweeps[sweep].pending ==> id in channels && channels[id] in rest)
    }

    /** One turn of a broadcast's loop: some channel not yet visited. */
    method OfferNext(rest: set<Channel>, sample: Sample, ghost sweep: Id) returns (ch: Channel)
      requires Valid() && rest != {} && sweep in state.sweeps && state.sweeps[sweep].sample == sample
      requires LeftToVisit(rest, sweep)
      modifies this`state, rest
      ensures Valid() && ch in rest && Enabled(old(state), Event.Offer(sweep, ch.id))
      ensures state == Apply(old(state), Event.Offer(sweep, ch.id))
      ensures sweep in state.sweeps && LeftToVisit(rest - {ch}, sweep)
    {
      ch :| ch in rest;
      Offer(ch, sample, sweep);
    }

    /** The loop of a broadcast, over the subscribers in no particular order. */
    method OfferAll(todo: set<Channel>, sample: Sample, ghost sweep: Id) returns (ghost offers: seq<Event>)
      requires Valid() && todo == subscribers && sweep in state.sweeps
      requires state.sweeps[sweep] == Sweep(sample, state.subscribers)
      modifies this`state, subscribers
      ensures Valid() && RunFrom(old(state), offers) == Some(state)
      ensures PartSwept(old(state), state, sweep, sample) && state.sweeps[sweep].pending == {}
    {
      offers := [];
      var rest := todo;
      while rest != {}
        invariant Valid() && RunFrom(old(state), offers) == Some(state)
        invariant PartSwept(old(state), state, sweep, sample) && LeftToVisit(rest, sweep)
        decreases rest
      {
        ghost var before := state;
        var ch := OfferNext(rest, sample, sweep);
        ReachNext(Step, old(state), offers, Event.Offer(sweep, ch.id));
        OfferSweepsOne(old(state), before, sweep, sample, ch.id);
        offers := offers + [Event.Offer(sweep, ch.id)];
        rest := rest - {ch};
      }
    }

    /** A whole sweep with nothing else in between: a run of the transition system after which
        every queue that had room holds the sample. */
    method BroadcastSample(sample: Sample, ghost sweep: Id) returns (ghost offers: seq<Event>)
      requires Valid() && sweep !in state.sweeps
      modifies this`state, subscribers
      ensures Valid()
      ensures RunFrom(old(state), [Event.BeginSweep(sweep, sample)] + offers + [Event.EndSweep(sweep)]) == Some(state)
      ensures forall ch :: ch in subscribers ==>
                ch.queue == if |old(ch.queue)| < 8 then old(ch.queue) + [sample] else old(ch.queue)
    {
      var todo := BeginSweep(sample, sweep);
      offers := OfferAll(todo, sample, sweep);
      SweepIsRun(old(state), sample, sweep, offers);
      EndSweep(sweep);
    }
  }

  lemma SweepIsRun(s: State, sample: Sample, sweep: Id, offers: seq<Event>)
    requires Enabled(s, BeginSweep(sweep, sample))
    ensures var begun := Apply(s, BeginSweep(sweep, sample));
            RunFrom(s, [BeginSweep(sweep, sample)] + offers + [EndSweep(sweep)]) ==
            match RunFrom(begun, offers)
            case None => None
            case Some(t) => if Enabled(t, EndSweep(sweep)) then Some(Apply(t, EndSweep(sweep))) else None
  {
    ReachNext(Step, s, [], BeginSweep(sweep, sample));
    assert [] + [BeginSweep(sweep, sample)] == [BeginSweep(sweep, sample)];
    ReachAppend(Step, s, [BeginSweep(sweep, sample)], offers);
    ReachNext(Step, s, [BeginSweep(sweep, sample)] + offers, EndSweep(sweep));
  }

  /** Every sweep in progress carries the sample it began with. */
  ghost predicate Carries(carried: map<Id, Sample>, s: State)
  {
    forall w :: w in s.sweeps ==> w in carried && carried[w] == s.sweeps[w].sample
  }

  function CarriedAfter(carried: map<Id, Sample>, e: Event): map<Id, Sample>
  {
    if e.BeginSweep? then carried[e.sweep := e.sample] else carried
  }

  lemma StepCarries(carried: map<Id, Sample>, s: State, e: Event)
    requires Carries(carried, s) && Enabled(s, e)
    ensures Carries(CarriedAfter(carried, e), Apply(s, e))
  {
  }

  /** The objects take every run of the transition system, whatever the interleaving. */
  method Drive(events: seq<Event>) returns (server: Server, channels: map<Id, Channel>)
    requires Run(events).Some?
    ensures fresh(server) && server.Valid()
    ensures Some(server.state) == Run(events) && server.channels == channels
  {
    server := new Server();
    channels := map[];
    var carried: map<Id, Sample> := map[];
    for i := 0 to |events|
      invariant fresh(server) && server.Valid() && server.channels == channels
      invariant forall id :: id in channels ==> fresh(channels[id])
      invariant Some(server.state) == Run(events[..i])
      invariant Carries(carried, server.state)
    {
      PrefixRuns(Step, EMPTY, events, i);
      StepCarries(carried, server.state, events[i]);
      channels := Perform(server, channels, carried, events[i]);
      carried := CarriedAfter(carried, events[i]);
    }
    assert events[..|events|] == events;
  }

  /** One event, by the method that takes it; handlers and broadcasts keep their own channel and sample. */
  method Perform(server: Server, channels: map<Id, Channel>, carried: map<Id, Sample>, e: Event)
    returns (now: map<Id, Channel>)
    requires server.Valid() && server.channels == channels
    requires Carries(carried, server.state) && Enabled(server.state, e)
    modifies server, channels.Values
    ensures server.Valid() && server.channels == now
    ensures server.state == Apply(old(server.state), e)
    ensures forall id :: id in now ==> fresh(now[id]) || now[id] in channels.Values
  {
    now := channels;
    match e {
      case Subscribe(id) =>
        var ch := server.Subscribe(id);
        now := channels[id := ch];
      case Unsubscribe(id) =>
        server.Unsubscribe(channels[id]);
      case Close(id) =>
        server.Close(channels[id]);
      case Receive(id) =>
        var _ := server.Receive(channels[id]);
      case BeginSweep(w, sample) =>
        var _ := server.BeginSweep(sample, w);
      case Offer(w, id) =>
        server.Offer(channels[id], carried[w], w);
      case EndSweep(w) =>
        server.EndSweep(w);
    }
  }
}
