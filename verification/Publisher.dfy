/**
 Fan-out to every registered device. Dead tokens are removed from the live registry, which
 compacts its buffer in place, while the loop walks the copy that `All` returned; other calls
 may change the registry between any two sends.
 */
module Publisher {
  import opened Runs
  import opened Sequences
  import opened Wrappers
  import opened TokenStore
  import opened TokenStoreRuns

  /** What the relay client reports for one send. */
  datatype Outcome = Delivered | Gone | Failed

  datatype DeliveryError = Unregistered(device: string) | Undelivered(device: string)

  function DisplayLabel(r: Registration): (shown: string)
    ensures shown != "" && (r.deviceLabel != "" ==> shown == r.deviceLabel)
  {
    if r.deviceLabel != "" then r.deviceLabel else "Unnamed device"
  }

  /** The relay's behaviour: the outcome of the i-th send of a call, and whether the registry
      file can be written when it is pruned after that send. */
  datatype Relay = Relay(send: (nat, Registration) -> Outcome, canWrite: nat -> bool)

  /** The tokens reported gone when sending to `snapshot` in order, from its k-th device on. */
  function GoneFrom(relay: Relay, snapshot: seq<Registration>, k: nat): set<string>
  {
    set i | k <= i < |snapshot| && relay.send(i, snapshot[i]) == Gone :: snapshot[i].token
  }

  function GoneTokens(relay: Relay, snapshot: seq<Registration>): set<string>
  {
    GoneFrom(relay, snapshot, 0)
  }

  function NotIn(tokens: set<string>): Registration -> bool
  {
    (r: Registration) => r.token !in tokens
  }

  function WithoutAll(registrations: seq<Registration>, tokens: set<string>): seq<Registration>
  {
    Filter(NotIn(tokens), registrations)
  }

  lemma {:induction false} WithoutOneMore(registrations: seq<Registration>, tokens: set<string>, token: string)
    ensures Without(WithoutAll(registrations, tokens), token) == WithoutAll(registrations, tokens + {token})
  {
    if registrations != [] {
      var init, last := registrations[..|registrations| - 1], registrations[|registrations| - 1];
      WithoutOneMore(init, tokens, token);
      if last.token !in tokens {
        assert WithoutAll(registrations, tokens)[..|WithoutAll(init, tokens)|] == WithoutAll(init, tokens);
      }
    }
  }

  lemma {:induction false} WithoutNone(registrations: seq<Registration>)
    ensures WithoutAll(registrations, {}) == registrations
  {
    if registrations != [] {
      WithoutNone(registrations[..|registrations| - 1]);
    }
  }

  /** One error for every device that was not delivered to, in order, each naming its device. */
  function Report(relay: Relay, snapshot: seq<Registration>): (errs: seq<DeliveryError>)
    ensures errs == [] <==> forall i :: 0 <= i < |snapshot| ==> relay.send(i, snapshot[i]) == Delivered
  {
    if snapshot == [] then []
    else
      var init, last := snapshot[..|snapshot| - 1], snapshot[|snapshot| - 1];
      assert forall i :: 0 <= i < |init| ==> init[i] == snapshot[i];
      match relay.send(|init|, last)
      case Delivered => Report(relay, init)
      case Gone => Report(relay, init) + [Unregistered(DisplayLabel(last))]
      case Failed => Report(relay, init) + [Undelivered(DisplayLabel(last))]
  }

  ghost predicate Names(device: string, r: Registration)
  {
    device == if r.deviceLabel != "" then r.deviceLabel else "Unnamed device"
  }

  /** What is said of one device that was not delivered to: whether it is gone, and its name. */
  ghost predicate Tells(e: DeliveryError, outcome: Outcome, r: Registration)
  {
    (e.Unregistered? <==> outcome == Gone) && Names(e.device, r)
  }

  /** The k-th error is about the device at `at[k]`, and every device that was not delivered to has one. */
  ghost predicate ExplainsAt(errs: seq<DeliveryError>, relay: Relay, snapshot: seq<Registration>, at: seq<nat>)
  {
    && |at| == |errs| && Ascending(at, |snapshot|)
    && (forall i :: 0 <= i < |snapshot| ==> (i in at <==> relay.send(i, snapshot[i]) != Delivered))
    && (forall k :: 0 <= k < |at| ==> Tells(errs[k], relay.send(at[k], snapshot[at[k]]), snapshot[at[k]]))
  }

  ghost predicate Explains(errs: seq<DeliveryError>, relay: Relay, snapshot: seq<Registration>)
  {
    exists at: seq<nat> :: ExplainsAt(errs, relay, snapshot, at)
  }

  lemma ExplainOneMore(errs: seq<DeliveryError>, relay: Relay, snapshot: seq<Registration>, at: seq<nat>,
          r: Registration)
    requires ExplainsAt(errs, relay, snapshot, at)
    ensures relay.send(|snapshot|, r) == Delivered ==> ExplainsAt(errs, relay, snapshot + [r], at)
    ensures relay.send(|snapshot|, r) != Delivered ==>
              forall e :: Tells(e, relay.send(|snapshot|, r), r) ==>
                ExplainsAt(errs + [e], relay, snapshot + [r], at + [|snapshot|])
  {
  }

  /** The report is a list of one error for every device not delivered to, in the devices' order. */
  lemma {:induction false} ReportExplains(relay: Relay, snapshot: seq<Registration>) returns (at: seq<nat>)
    ensures ExplainsAt(Report(relay, snapshot), relay, snapshot, at)
  {
    at := [];
    if snapshot != [] {
      var init, last := snapshot[..|snapshot| - 1], snapshot[|snapshot| - 1];
      assert snapshot == init + [last];
      at := ReportExplains(relay, init);
      ExplainOneMore(Report(relay, init), relay, init, at, last);
      if relay.send(|init|, last) != Delivered {
        at := at + [|init|];
      }
    }
  }

  /** A restart ends the process and the fan-out with it. */
  ghost predicate NoneRestart(others: nat -> seq<Event>)
  {
    forall i: nat :: Restart !in others(i)
  }

  /** What happens to the registry during a fan-out: while the i-th send is under way the calls
      `others(i)` run, and then its token is removed if it was reported gone. */
  function Interleaved(relay: Relay, snapshot: seq<Registration>, others: nat -> seq<Event>): seq<Event>
  {
    if snapshot == [] then []
    else
      var init, last := snapshot[..|snapshot| - 1], snapshot[|snapshot| - 1];
      Interleaved(relay, init, others) + others(|init|)
      + if relay.send(|init|, last) == Gone then [Remove(last.token, relay.canWrite(|init|))] else []
  }

  /** One more device: the calls made during its send, then its removal if it is gone. */
  lemma InterleavedGrows(s: State, relay: Relay, before: seq<Registration>, r: Registration, others: nat -> seq<Event>)
    ensures var played := Replay(Replay(s, Interleaved(relay, before, others)), others(|before|));
            Replay(s, Interleaved(relay, before + [r], others)) ==
            if relay.send(|before|, r) == Gone then Apply(played, Remove(r.token, relay.canWrite(|before|))) else played
  {
    var earlier, calls := Interleaved(relay, before, others), others(|before|);
    assert (before + [r])[..|before|] == before;
    FoldAppend(Apply, s, earlier, calls);
    if relay.send(|before|, r) == Gone {
      var removal := Remove(r.token, relay.canWrite(|before|));
      FoldAppend(Apply, s, earlier + calls, [removal]);
      FoldOne(Apply, Replay(s, earlier + calls), removal);
    } else {
      assert earlier + calls + [] == earlier + calls;
    }
  }

  /** Calls made by other goroutines; each holds the registry's lock throughout. */
  method RunOthers(store: Store, calls: seq<Event>)
    requires store.Valid() && Restart !in calls
    modifies store, store.buffer
    ensures store.Valid() && (store.buffer == old(store.buffer) || fresh(store.buffer))
    ensures State(store.Contents(), store.file) == Replay(State(old(store.Contents()), old(store.file)), calls)
  {
    for i := 0 to |calls|
      invariant store.Valid() && (store.buffer == old(store.buffer) || fresh(store.buffer))
      invariant State(store.Contents(), store.file)
              == Replay(State(old(store.Contents()), old(store.file)), calls[..i])
    {
      assert calls[i] in calls && calls[..i + 1][..i] == calls[..i];
      match calls[i] {
        case Set(token, environment, deviceLabel, writeOk) =>
          var _ := store.Set(token, environment, deviceLabel, writeOk);
        case Remove(token, writeOk) =>
          var _ := store.Remove(token, writeOk);
      }
    }
    assert calls[..|calls|] == calls;
  }

  /** The loop shared by `Publish` and `PublishMetrics`: every device of the snapshot is tried
      once and in order, whatever is pruned or registered on the way. */
  method FanOut(store: Store, snapshot: array<Registration>, relay: Relay, others: nat -> seq<Event>)
    returns (attempts: seq<Registration>, errs: seq<DeliveryError>)
    requires store.Valid() && snapshot != store.buffer
    requires NoneRestart(others)
    modifies store, store.buffer
    ensures store.Valid()
    ensures attempts == old(snapshot[..])
    ensures errs == Report(relay, attempts) && Explains(errs, relay, attempts)
    ensures State(store.Contents(), store.file)
            == Replay(State(old(store.Contents()), old(store.file)), Interleaved(relay, attempts, others))
  {
    attempts, errs := [], [];
    ghost var start := State(store.Contents(), store.file);
    for i := 0 to snapshot.Length
      invariant store.Valid() && (store.buffer == old(store.buffer) || fresh(store.buffer))
      invariant snapshot[..] == old(snapshot[..])
      invariant attempts == old(snapshot[..])[..i]
      invariant errs == Report(relay, attempts)
      invariant State(store.Contents(), store.file) == Replay(start, Interleaved(relay, attempts, others))
    {
      var r := snapshot[i];
      ghost var before := attempts;
      attempts := attempts + [r];
      assert attempts[..i] == before;
      var outcome := relay.send(i, r);
      InterleavedGrows(start, relay, before, r, others);
      RunOthers(store, others(i));
      match outcome {
        case Delivered =>
        case Gone =>
          var _ := store.Remove(r.token, relay.canWrite(i));
          errs := errs + [Unregistered(DisplayLabel(r))];
        case Failed =>
          errs := errs + [Undelivered(DisplayLabel(r))];
      }
    }
    ghost var at := ReportExplains(relay, attempts);
  }

  lemma GoneFromGrows(relay: Relay, snapshot: seq<Registration>, k: nat, r: Registration)
    requires k <= |snapshot|
    ensures GoneFrom(relay, snapshot + [r], k) ==
            if relay.send(|snapshot|, r) == Gone then GoneFrom(relay, snapshot, k) + {r.token}
            else GoneFrom(relay, snapshot, k)
  {
    var all := snapshot + [r];
    assert all[|snapshot|] == r;
    assert forall i :: 0 <= i < |snapshot| ==> all[i] == snapshot[i];
    forall token | token in GoneFrom(relay, snapshot, k)
      ensures token in GoneFrom(relay, all, k)
    {
      var i :| k <= i < |snapshot| && relay.send(i, snapshot[i]) == Gone && snapshot[i].token == token;
      assert all[i].token == token && relay.send(i, all[i]) == Gone;
    }
    if relay.send(|snapshot|, r) == Gone {
      assert all[|snapshot|].token in GoneFrom(relay, all, k);
    }
  }

  datatype PublishError = NoDevices | SomeFailed(errs: seq<DeliveryError>)

  /** `Publish`, and `PublishMetrics` likewise: with no device registered it reports that; else
      it tries every device there was at the start and succeeds exactly when every send did. */
  method Publish(store: Store, relay: Relay, others: nat -> seq<Event>)
    returns (attempts: seq<Registration>, result: Result<(), PublishError>)
    requires store.Valid()
    requires NoneRestart(others)
    modifies store, store.buffer
    ensures store.Valid()
    ensures attempts == old(store.Contents())
    ensures State(store.Contents(), store.file)
            == Replay(State(old(store.Contents()), old(store.file)), Interleaved(relay, attempts, others))
    ensures attempts == [] <==> result == Err(NoDevices)
    ensures result.Err? && attempts != [] ==>
              result.error.SomeFailed? && Explains(result.error.errs, relay, attempts)
    ensures result.Ok? <==>
            attempts != [] && forall i :: 0 <= i < |attempts| ==> relay.send(i, attempts[i]) == Delivered
  {
    var registrations := store.All();
    if registrations.Length == 0 {
      return [], Err(NoDevices);
    }
    var errs;
    attempts, errs := FanOut(store, registrations, relay, others);
    result := if errs == [] then Ok(()) else Err(SomeFailed(errs));
  }

  lemma UndisturbedSend(s: State, relay: Relay, init: seq<Registration>, last: Registration,
          others: nat -> seq<Event>)
    requires others(|init|) == []
    ensures var before := Replay(s, Interleaved(relay, init, others)).registrations;
            Replay(s, Interleaved(relay, init + [last], others)).registrations
            == if relay.send(|init|, last) == Gone then Without(before, last.token) else before
    ensures var after := Replay(s, Interleaved(relay, init + [last], others));
            after.file == if relay.send(|init|, last) == Gone && relay.canWrite(|init|)
                          then Decoded(after.registrations, "", "")
                          else Replay(s, Interleaved(relay, init, others)).file
  {
    InterleavedGrows(s, relay, init, last, others);
  }

  /** With no other call in between, the registry afterwards is the old one minus exactly the
      tokens reported gone. */
  lemma {:induction false} UndisturbedPruning(s: State, relay: Relay, snapshot: seq<Registration>,
          others: nat -> seq<Event>)
    requires forall i :: 0 <= i < |snapshot| ==> others(i) == []
    ensures Replay(s, Interleaved(relay, snapshot, others)).registrations
            == WithoutAll(s.registrations, GoneTokens(relay, snapshot))
  {
    if snapshot == [] {
      WithoutNone(s.registrations);
      assert GoneTokens(relay, snapshot) == {};
    } else {
      var init, last := snapshot[..|snapshot| - 1], snapshot[|snapshot| - 1];
      assert snapshot == init + [last];
      UndisturbedPruning(s, relay, init, others);
      UndisturbedSend(s, relay, init, last, others);
      GoneFromGrows(relay, init, 0, last);
      WithoutOneMore(s.registrations, GoneTokens(relay, init), last.token);
    }
  }

  /** From the k-th on, no send's pruning reaches the file. */
  ghost predicate NoneWritten(relay: Relay, snapshot: seq<Registration>, k: nat)
  {
    forall i :: k <= i < |snapshot| && relay.send(i, snapshot[i]) == Gone ==> !relay.canWrite(i)
  }

  lemma NoneWrittenBefore(relay: Relay, init: seq<Registration>, last: Registration, k: nat)
    requires k <= |init| && NoneWritten(relay, init + [last], k)
    ensures NoneWritten(relay, init, k)
    ensures relay.send(|init|, last) == Gone ==> !relay.canWrite(|init|)
  {
    var all := init + [last];
    assert all[|init|] == last;
    assert forall i :: 0 <= i < |init| ==> all[i] == init[i];
  }

  lemma {:induction false} NothingWritten(s: State, relay: Relay, before: seq<Registration>,
          after: seq<Registration>, others: nat -> seq<Event>)
    requires forall i :: |before| <= i < |before| + |after| ==> others(i) == []
    requires NoneWritten(relay, before + after, |before|)
    ensures Replay(s, Interleaved(relay, before + after, others)).file
            == Replay(s, Interleaved(relay, before, others)).file
  {
    if after == [] {
      assert before + after == before;
    } else {
      var init, last := after[..|after| - 1], after[|after| - 1];
      assert before + after == before + init + [last];
      NoneWrittenBefore(relay, before + init, last, |before|);
      NothingWritten(s, relay, before, init, others);
      UndisturbedSend(s, relay, before + init, last, others);
    }
  }

  /** And the file holds the registry as it was after the last pruning that could be written. */
  lemma UndisturbedPruningWritten(s: State, relay: Relay, snapshot: seq<Registration>,
          others: nat -> seq<Event>, k: nat)
    requires forall i :: 0 <= i < |snapshot| ==> others(i) == []
    requires k <= |snapshot| && NoneWritten(relay, snapshot, k)
    requires k > 0 ==> relay.send(k - 1, snapshot[k - 1]) == Gone && relay.canWrite(k - 1)
    ensures Replay(s, Interleaved(relay, snapshot, others)).file ==
            if k == 0 then s.file
            else Decoded(WithoutAll(s.registrations, GoneTokens(relay, snapshot[..k])), "", "")
  {
    var before := snapshot[..k];
    assert snapshot == before + snapshot[k..];
    NothingWritten(s, relay, before, snapshot[k..], others);
    if k > 0 {
      assert before == before[..k - 1] + [snapshot[k - 1]];
      UndisturbedSend(s, relay, before[..k - 1], snapshot[k - 1], others);
      UndisturbedPruning(s, relay, before, others);
    }
  }

  /** A call that registers or removes the token. */
  predicate Touches(e: Event, token: string)
  {
    (e.Set? || e.Remove?) && e.token == token
  }

  ghost predicate Untouched(events: seq<Event>, token: string)
  {
    Restart !in events && forall e :: e in events ==> !Touches(e, token)
  }

  /** No call touches the token during sends `from` to `to - 1`. */
  ghost predicate UntouchedDuring(others: nat -> seq<Event>, token: string, from: nat, to: nat)
  {
    forall i :: from <= i < to ==> Untouched(others(i), token)
  }

  lemma {:induction false} UntouchedKeepsEntry(s: State, events: seq<Event>, token: string)
    requires Untouched(events, token)
    ensures EntryOf(Replay(s, events).registrations, token) == EntryOf(s.registrations, token)
  {
    if events != [] {
      var init, last := events[..|events| - 1], events[|events| - 1];
      assert last in events && forall e :: e in init ==> e in events;
      UntouchedKeepsEntry(s, init, token);
      var t := Replay(s, init);
      match last
      case Set(added, environment, deviceLabel, _) =>
        if added != "" {
          AddedSetsToken(t.registrations, added, environment, deviceLabel);
        }
      case Remove(removed, _) => WithoutDropsToken(t.registrations, removed);
    }
  }

  /** The registry when the calls made during send `k` are over, before any pruning after it. */
  function AfterCallsDuring(s: State, relay: Relay, snapshot: seq<Registration>, others: nat -> seq<Event>, k: nat)
    : State
    requires k < |snapshot|
  {
    Replay(Replay(s, Interleaved(relay, snapshot[..k], others)), others(k))
  }

  lemma LastSendPrunes(s: State, relay: Relay, init: seq<Registration>, last: Registration,
          others: nat -> seq<Event>, token: string)
    ensures EntryOf(Replay(s, Interleaved(relay, init + [last], others)).registrations, token)
            == if relay.send(|init|, last) == Gone && last.token == token then None
               else EntryOf(Replay(Replay(s, Interleaved(relay, init, others)), others(|init|)).registrations, token)
  {
    InterleavedGrows(s, relay, init, last, others);
    WithoutDropsToken(Replay(Replay(s, Interleaved(relay, init, others)), others(|init|)).registrations, last.token);
  }

  /** What becomes of a token that other calls may register and remove up to and during send `k`
      but leave alone afterwards: it is gone at the end if a send from the k-th on found it gone,
      and otherwise keeps the entry that those calls left. */
  lemma {:induction false} RacingPruning(s: State, relay: Relay, snapshot: seq<Registration>,
          others: nat -> seq<Event>, token: string, k: nat)
    requires k < |snapshot| && UntouchedDuring(others, token, k + 1, |snapshot|)
    ensures EntryOf(Replay(s, Interleaved(relay, snapshot, others)).registrations, token)
            == if token in GoneFrom(relay, snapshot, k) then None
               else EntryOf(AfterCallsDuring(s, relay, snapshot, others, k).registrations, token)
  {
    var init, last := snapshot[..|snapshot| - 1], snapshot[|snapshot| - 1];
    assert snapshot == init + [last];
    GoneFromGrows(relay, init, k, last);
    LastSendPrunes(s, relay, init, last, others, token);
    if k < |init| {
      RacingPruning(s, relay, init, others, token, k);
      assert snapshot[..k] == init[..k];
      UntouchedKeepsEntry(Replay(s, Interleaved(relay, init, others)), others(|init|), token);
    } else {
      assert GoneFrom(relay, init, k) == {};
    }
  }

  /** A device that no other call touches keeps its registration exactly when its token was not
      reported gone. */
  lemma UntouchedDevicesKept(s: State, relay: Relay, snapshot: seq<Registration>, others: nat -> seq<Event>,
          token: string)
    requires UntouchedDuring(others, token, 0, |snapshot|)
    ensures EntryOf(Replay(s, Interleaved(relay, snapshot, others)).registrations, token)
            == if token in GoneTokens(relay, snapshot) then None else EntryOf(s.registrations, token)
  {
    if snapshot != [] {
      RacingPruning(s, relay, snapshot, others, token, 0);
      UntouchedKeepsEntry(Replay(s, Interleaved(relay, snapshot[..0], others)), others(0), token);
    }
  }

  /** A device that registers while send `k` is under way, its last call, is still registered
      when the fan-out ends exactly when no send from the k-th on is answered that its token is
      gone. In particular one that registers again while the send to its old registration is
      failing as gone is removed all the same. */
  lemma RegistrationSurvivesIff(s: State, relay: Relay, snapshot: seq<Registration>, others: nat -> seq<Event>,
          k: nat, earlier: seq<Event>, registration: Event)
    requires k < |snapshot| && others(k) == earlier + [registration]
    requires registration.Set? && registration.token != ""
    requires UntouchedDuring(others, registration.token, k + 1, |snapshot|)
    ensures var final := Replay(s, Interleaved(relay, snapshot, others)).registrations;
            EntryOf(final, registration.token).Some? <==>
            forall i :: k <= i < |snapshot| && snapshot[i].token == registration.token ==>
              relay.send(i, snapshot[i]) != Gone
  {
    RacingPruning(s, relay, snapshot, others, registration.token, k);
    var before := Replay(s, Interleaved(relay, snapshot[..k], others));
    FoldAppend(Apply, before, earlier, [registration]);
    FoldOne(Apply, Replay(before, earlier), registration);
    AddedSetsToken(Replay(before, earlier).registrations, registration.token, registration.environment,
                   registration.deviceLabel);
  }

  /** The pruned registry lists the survivors in their old order: a device stays exactly when its
      token was not reported gone. */
  lemma {:induction false} PrunedExactlyTheGone(registrations: seq<Registration>, tokens: set<string>)
    returns (positions: seq<nat>)
    ensures forall r :: r in WithoutAll(registrations, tokens) <==> r in registrations && r.token !in tokens
    ensures EmbedsAt(WithoutAll(registrations, tokens), registrations, positions)
  {
    positions := [];
    if registrations != [] {
      var init, last := registrations[..|registrations| - 1], registrations[|registrations| - 1];
      assert registrations == init + [last];
      positions := PrunedExactlyTheGone(init, tokens);
      if last.token !in tokens {
        positions := positions + [|init|];
      }
    }
  }

  datatype TestError = NotRegistered | Rejected(device: string) | NotDelivered(device: string)

  /** A test reaches the one device it names and no other, and prunes only that device. */
  method SendTest(store: Store, token: string, send: Registration -> Outcome, canWrite: bool)
    returns (attempts: seq<Registration>, result: Result<(), TestError>)
    requires store.Valid()
    modifies store`count, store`file, store.buffer
    ensures store.Valid()
    ensures (forall r :: r in old(store.Contents()) ==> r.token != token) <==> result == Err(NotRegistered)
    ensures result == Err(NotRegistered) ==>
              attempts == [] && store.Contents() == old(store.Contents()) && store.file == old(store.file)
    ensures result != Err(NotRegistered) ==>
              && |attempts| == 1 && attempts[0].token == token
              && (exists i :: 0 <= i < |old(store.Contents())| && attempts[0] == old(store.Contents())[i]
                              && forall j :: 0 <= j < i ==> old(store.Contents())[j].token != token)
              && (match send(attempts[0])
                  case Delivered => result == Ok(())
                  case Gone => result.Err? && result.error.Rejected? && Names(result.error.device, attempts[0])
                  case Failed => result.Err? && result.error.NotDelivered? && Names(result.error.device, attempts[0]))
              && store.Contents() == (if send(attempts[0]) == Gone then Without(old(store.Contents()), token)
                                      else old(store.Contents()))
              && store.file == (if send(attempts[0]) == Gone && canWrite then Decoded(store.Contents(), "", "")
                                else old(store.file))
  {
    var found := store.Find(token);
    if found.None? {
      return [], Err(NotRegistered);
    }
    var r := found.value;
    attempts := [r];
    match send(r) {
      case Delivered =>
        result := Ok(());
      case Gone =>
        var _ := store.Remove(r.token, canWrite);
        result := Err(Rejected(DisplayLabel(r)));
      case Failed =>
        result := Err(NotDelivered(DisplayLabel(r)));
    }
  }
}
