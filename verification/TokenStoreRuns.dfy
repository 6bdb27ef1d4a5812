/**
 Whole runs of the device registry: registrations, removals and restarts, with writes that may
 fail. The list refines an insertion-ordered map, the file always reloads to what the last
 successful write held, and a restart rolls back exactly to that.
 */
module TokenStoreRuns {
  import opened Runs
  import opened Sequences
  import opened Wrappers
  import opened TokenStore

  datatype Event =
    | Set(token: string, environment: string, deviceLabel: string, writeOk: bool)
    | Remove(token: string, writeOk: bool)
    | Restart

  datatype State = State(registrations: seq<Registration>, file: File)

  function Written(registrations: seq<Registration>, file: File, writeOk: bool): State
  {
    State(registrations, if writeOk then Decoded(registrations, "", "") else file)
  }

  function Apply(s: State, e: Event): State
  {
    match e
    case Set(token, environment, deviceLabel, writeOk) =>
      if token == "" then s
      else Written(Added(s.registrations, token, environment, deviceLabel), s.file, writeOk)
    case Remove(token, writeOk) => Written(Without(s.registrations, token), s.file, writeOk)
    case Restart => State(Load(s.file), s.file)
  }

  function Replay(s: State, events: seq<Event>): State
  {
    Fold(Apply, s, events)
  }

  function Run(file: File, events: seq<Event>): State
  {
    Replay(State(Load(file), file), events)
  }

  /** The registry object, driven by a run from a file that opens. */
  method Drive(file: File, events: seq<Event>) returns (store: Store)
    requires file != Corrupt
    ensures fresh(store) && store.Valid() && State(store.Contents(), store.file) == Run(file, events)
  {
    store := new Store(file);
    for i := 0 to |events|
      invariant fresh(store) && fresh(store.buffer) && store.Valid()
      invariant State(store.Contents(), store.file) == Run(file, events[..i])
      invariant store.file != Corrupt
    {
      assert events[..i + 1][..i] == events[..i];
      match events[i] {
        case Set(token, environment, deviceLabel, writeOk) =>
          var _ := store.Set(token, environment, deviceLabel, writeOk);
        case Remove(token, writeOk) =>
          var _ := store.Remove(token, writeOk);
        case Restart =>
          var reopened := Open(store.file);
          store := reopened;
      }
    }
    assert events[..|events|] == events;
  }

  // ---------------------------------------------------------------------------------------
  // What every run keeps
  // ---------------------------------------------------------------------------------------

  /** Tokens unique and non-empty, environments one of the two. */
  ghost predicate WellFormed(registrations: seq<Registration>)
  {
    && (forall r :: r in registrations ==>
          r.token != "" && (r.environment == PRODUCTION || r.environment == DEVELOPMENT))
    && (forall i, j :: 0 <= i < j < |registrations| ==> registrations[i].token != registrations[j].token)
  }

  function Tokens(registrations: seq<Registration>): seq<string>
  {
    seq(|registrations|, (i: nat) requires i < |registrations| => registrations[i].token)
  }

  /** A file that opens and lists no token twice: a missing one, one in the older single-token
      shape, and every one this store wrote are such. */
  ghost predicate CleanFile(file: File)
  {
    file == Absent || (file.Decoded? && NoRepeats(file.registrations))
  }

  ghost predicate NoRepeats(registrations: seq<Registration>)
  {
    forall i, j :: 0 <= i < j < |registrations| && registrations[i].token == registrations[j].token ==>
      registrations[i].token == ""
  }

  lemma {:induction false} LoadableIsIdentity(registrations: seq<Registration>)
    requires WellFormed(registrations)
    ensures Loadable(registrations) == registrations
  {
    if registrations != [] {
      var init, last := registrations[..|registrations| - 1], registrations[|registrations| - 1];
      assert registrations == init + [last] && last in registrations;
      assert forall r :: r in init ==> r in registrations;
      LoadableIsIdentity(init);
    }
  }

  lemma {:induction false} WithoutKeepsWellFormed(registrations: seq<Registration>, token: string)
    requires WellFormed(registrations)
    ensures WellFormed(Without(registrations, token))
  {
    if registrations != [] {
      var init, last := registrations[..|registrations| - 1], registrations[|registrations| - 1];
      assert registrations == init + [last] && last in registrations;
      ExtendWellFormed(init, last);
      WithoutKeepsWellFormed(init, token);
      FilterMembers(OtherThan(token), init);
      forall i | 0 <= i < |Without(init, token)| ensures Without(init, token)[i].token != last.token {
        assert Without(init, token)[i] in init;
        TokenListed(init, Without(init, token)[i]);
      }
      ExtendWellFormed(Without(init, token), last);
    }
  }

  lemma TokenListed(registrations: seq<Registration>, r: Registration)
    requires r in registrations
    ensures r.token in Tokens(registrations)
  {
    var i :| 0 <= i < |registrations| && registrations[i] == r;
    assert Tokens(registrations)[i] == r.token;
  }

  lemma AddedKeepsWellFormed(registrations: seq<Registration>, token: string, environment: string,
          deviceLabel: string)
    requires WellFormed(registrations) && token != ""
    ensures WellFormed(Added(registrations, token, environment, deviceLabel))
  {
  }

  lemma {:induction false} LoadableTokens(registrations: seq<Registration>)
    ensures forall token ::
              token in Tokens(Loadable(registrations)) <==> token != "" && token in Tokens(registrations)
  {
    if registrations != [] {
      var init, last := registrations[..|registrations| - 1], registrations[|registrations| - 1];
      LoadableTokens(init);
      assert Tokens(registrations) == Tokens(init) + [last.token];
      if last.token != "" {
        assert Tokens(Loadable(registrations)) == Tokens(Loadable(init)) + [last.token];
      }
    }
  }

  lemma {:induction false} LoadableIsWellFormed(registrations: seq<Registration>)
    ensures WellFormed(Loadable(registrations)) <==> NoRepeats(registrations)
  {
    if registrations != [] {
      var init, last := registrations[..|registrations| - 1], registrations[|registrations| - 1];
      LoadableIsWellFormed(init);
      LoadableTokens(init);
      assert NoRepeats(registrations) <==> NoRepeats(init) && (last.token == "" || last.token !in Tokens(init)) by {
        assert forall i :: 0 <= i < |init| ==> registrations[i] == init[i] && Tokens(init)[i] == init[i].token;
        assert registrations[|init|] == last;
      }
      if last.token != "" {
        ExtendWellFormed(Loadable(init), Loadable(registrations)[|Loadable(init)|]);
      }
    }
  }

  /** The same device with a normalised environment. */
  ghost predicate SameDevice(was: Registration, now: Registration)
  {
    && now.token == was.token && now.deviceLabel == was.deviceLabel
    && now.environment == if was.environment == "development" then "development" else "production"
  }

  /** `kept[i]` is the device at `positions[i]` in `all`, in the same order, none with a token left out. */
  ghost predicate KeptAt(kept: seq<Registration>, all: seq<Registration>, positions: seq<nat>)
  {
    && |positions| == |kept|
    && Ascending(positions, |all|)
    && (forall i :: 0 <= i < |kept| ==> SameDevice(all[positions[i]], kept[i]))
    && (forall k :: 0 <= k < |all| && all[k].token != "" ==> k in positions)
  }

  lemma KeepOneMore(kept: seq<Registration>, all: seq<Registration>, positions: seq<nat>, last: Registration)
    requires KeptAt(kept, all, positions)
    ensures last.token == "" ==> KeptAt(kept, all + [last], positions)
    ensures forall now :: SameDevice(last, now) ==> KeptAt(kept + [now], all + [last], positions + [|all|])
  {
  }

  /** The loader keeps every device with a token, in order and with its label, and an environment
      is development exactly when the file says so. */
  lemma {:induction false} LoadKeepsDevices(registrations: seq<Registration>) returns (positions: seq<nat>)
    ensures KeptAt(Loadable(registrations), registrations, positions)
  {
    positions := [];
    if registrations != [] {
      var init, last := registrations[..|registrations| - 1], registrations[|registrations| - 1];
      positions := LoadKeepsDevices(init);
      assert registrations == init + [last];
      KeepOneMore(Loadable(init), init, positions, last);
      if last.token != "" {
        positions := positions + [|init|];
      }
    }
  }

  lemma ExtendWellFormed(init: seq<Registration>, last: Registration)
    requires last.token != "" && (last.environment == PRODUCTION || last.environment == DEVELOPMENT)
    ensures WellFormed(init + [last]) <==> WellFormed(init) && last.token !in Tokens(init)
  {
    var all := init + [last];
    assert forall i :: 0 <= i < |init| ==> all[i] == init[i] && Tokens(init)[i] == init[i].token;
    assert forall r :: r in init ==> r in all;
    assert all[|init|] == last;
  }

  /** Files the store can open load to a well-formed list exactly when they list no token twice:
      the loader drops empty tokens but does not deduplicate. */
  lemma LoadIsWellFormedIff(file: File)
    requires file != Corrupt
    ensures WellFormed(Load(file)) <==> CleanFile(file)
  {
    if file.Decoded? {
      LoadableIsWellFormed(file.registrations);
    }
  }

  /** The older file shape loads to its one device. */
  lemma OlderFileKeepsItsDevice(token: string, environment: string)
    requires token != ""
    ensures KeptAt(Load(Decoded([], token, environment)), [Registration(token, environment, "")], [0])
  {
  }

  lemma LoadOfWritten(registrations: seq<Registration>)
    requires WellFormed(registrations)
    ensures Load(Decoded(registrations, "", "")) == registrations
    ensures CleanFile(Decoded(registrations, "", ""))
  {
    LoadableIsIdentity(registrations);
  }

  /** Over every run, failed writes included, the list and the file stay well formed. */
  lemma {:induction false} RunIsWellFormed(file: File, events: seq<Event>)
    requires CleanFile(file)
    ensures WellFormed(Run(file, events).registrations) && CleanFile(Run(file, events).file)
  {
    if events == [] {
      LoadIsWellFormedIff(file);
    } else {
      var s := Run(file, events[..|events| - 1]);
      RunIsWellFormed(file, events[..|events| - 1]);
      match events[|events| - 1]
      case Set(token, environment, deviceLabel, _) =>
        if token != "" {
          AddedKeepsWellFormed(s.registrations, token, environment, deviceLabel);
        }
      case Remove(token, _) => WithoutKeepsWellFormed(s.registrations, token);
      case Restart => LoadIsWellFormedIff(s.file);
    }
  }

  predicate Writes(e: Event)
  {
    match e
    case Set(token, _, _, writeOk) => token != "" && writeOk
    case Remove(_, writeOk) => writeOk
    case Restart => false
  }

  /** After any successful write, even one preceded by failed ones, reloading the file gives
      the list in memory. */
  lemma SuccessfulWriteReloads(file: File, events: seq<Event>)
    requires CleanFile(file) && events != [] && Writes(events[|events| - 1])
    ensures Load(Run(file, events).file) == Run(file, events).registrations
  {
    RunIsWellFormed(file, events);
    LoadOfWritten(Run(file, events).registrations);
  }

  /** How many events of the run there were when the file was last written; none if it never was. */
  function LastWrite(events: seq<Event>): (n: nat)
    ensures n <= |events|
    ensures n > 0 ==> Writes(events[n - 1])
    ensures forall i :: n <= i < |events| ==> !Writes(events[i])
  {
    if events == [] then 0
    else if Writes(events[|events| - 1]) then |events|
    else LastWrite(events[..|events| - 1])
  }

  /** Whatever writes have failed, the file reloads to the list there was at the last successful one. */
  lemma {:induction false} FileHoldsLastWrite(file: File, events: seq<Event>)
    requires CleanFile(file)
    ensures Load(Run(file, events).file) == Run(file, events[..LastWrite(events)]).registrations
  {
    if events != [] {
      var init, last := events[..|events| - 1], events[|events| - 1];
      if Writes(last) {
        assert events[..LastWrite(events)] == events;
        SuccessfulWriteReloads(file, events);
      } else {
        FileHoldsLastWrite(file, init);
        assert events[..LastWrite(events)] == init[..LastWrite(init)];
      }
    }
  }

  /** A restart loses exactly the changes made since the last successful write. */
  lemma RestartRollsBack(file: File, events: seq<Event>)
    requires CleanFile(file)
    ensures Run(file, events + [Restart]).registrations == Run(file, events[..LastWrite(events)]).registrations
    ensures Run(file, events + [Restart]).file == Run(file, events).file
  {
    assert (events + [Restart])[..|events|] == events;
    FileHoldsLastWrite(file, events);
  }

  ghost predicate AllWritesSucceed(events: seq<Event>)
  {
    forall e :: e in events ==> (e.Set? || e.Remove? ==> e.writeOk)
  }

  /** While writes succeed, a restart at any moment changes nothing. */
  lemma {:induction false} RestartIsInvisible(file: File, events: seq<Event>)
    requires CleanFile(file) && AllWritesSucceed(events)
    ensures Load(Run(file, events).file) == Run(file, events).registrations
    ensures Apply(Run(file, events), Restart) == Run(file, events)
  {
    if events != [] {
      var init, last := events[..|events| - 1], events[|events| - 1];
      assert last in events && forall e :: e in init ==> e in events;
      RestartIsInvisible(file, init);
      if Writes(last) {
        SuccessfulWriteReloads(file, events);
      }
    }
  }

  /** The same call, whether or not its write succeeded. */
  predicate SameCall(e: Event, f: Event)
  {
    match e
    case Set(token, environment, deviceLabel, _) => f == Set(token, environment, deviceLabel, f.Set? && f.writeOk)
    case Remove(token, _) => f == Remove(token, f.Remove? && f.writeOk)
    case Restart => f == Restart
  }

  lemma SameCallSameList(s: State, t: State, e: Event, f: Event)
    requires s.registrations == t.registrations && e != Restart && SameCall(e, f)
    ensures Apply(s, e).registrations == Apply(t, f).registrations
  {
  }

  /** Until the process restarts, failed writes make no difference to the list. */
  lemma {:induction false} FailedWritesUnseen(file: File, events: seq<Event>, others: seq<Event>)
    requires |events| == |others| && Restart !in events
    requires forall i :: 0 <= i < |events| ==> SameCall(events[i], others[i])
    ensures Run(file, events).registrations == Run(file, others).registrations
  {
    if events != [] {
      var n := |events| - 1;
      assert events[n] in events;
      assert Restart !in events[..n];
      FailedWritesUnseen(file, events[..n], others[..n]);
      SameCallSameList(Run(file, events[..n]), Run(file, others[..n]), events[n], others[n]);
    }
  }

  // ---------------------------------------------------------------------------------------
  // The registry as an insertion-ordered map
  // ---------------------------------------------------------------------------------------

  datatype Entry = Entry(environment: string, deviceLabel: string)

  function EntryOf(registrations: seq<Registration>, token: string): Option<Entry>
  {
    var k := IndexOf(registrations, token);
    if k < |registrations| then Some(Entry(registrations[k].environment, registrations[k].deviceLabel)) else None
  }

  /** What the run's history says about one token. A restart takes back what was not written. */
  function Lookup(file: File, events: seq<Event>, token: string): Option<Entry>
    decreases |events|
  {
    if events == [] then EntryOf(Load(file), token)
    else
      var init := events[..|events| - 1];
      match events[|events| - 1]
      case Set(added, environment, deviceLabel, _) =>
        var before := Lookup(file, init, token);
        if added != token || added == "" then before
        else
          var known := if before.Some? then before.value.deviceLabel else "";
          Some(Entry(NormalizeEnvironment(environment), if deviceLabel != "" then deviceLabel else known))
      case Remove(removed, _) => if removed == token then None else Lookup(file, init, token)
      case Restart => Lookup(file, init[..LastWrite(init)], token)
  }

  function Not(token: string): string -> bool
  {
    (other: string) => other != token
  }

  /** The tokens in the order of their first registration since they were last removed. */
  function Order(file: File, events: seq<Event>): seq<string>
    decreases |events|
  {
    if events == [] then Tokens(Load(file))
    else
      var init := events[..|events| - 1];
      match events[|events| - 1]
      case Set(token, _, _, _) =>
        if token == "" || Lookup(file, init, token).Some? then Order(file, init) else Order(file, init) + [token]
      case Remove(token, _) => Filter(Not(token), Order(file, init))
      case Restart => Order(file, init[..LastWrite(init)])
  }

  lemma {:induction false} WithoutDropsToken(registrations: seq<Registration>, removed: string)
    ensures Tokens(Without(registrations, removed)) == Filter(Not(removed), Tokens(registrations))
    ensures forall token :: EntryOf(Without(registrations, removed), token)
                            == if token == removed then None else EntryOf(registrations, token)
  {
    if registrations == [] {
      assert Tokens([]) == [];
    } else {
      var init, last := registrations[..|registrations| - 1], registrations[|registrations| - 1];
      WithoutDropsToken(init, removed);
      assert Tokens(registrations)[..|registrations| - 1] == Tokens(init);
      assert Tokens(Without(init, removed) + [last]) == Tokens(Without(init, removed)) + [last.token];
      forall token ensures EntryOf(Without(registrations, removed), token)
                           == if token == removed then None else EntryOf(registrations, token)
      {
        assert registrations == init + [last];
        EntryOfLast(init, last, token);
        EntryOfLast(Without(init, removed), last, token);
      }
    }
  }

  lemma EntryOfLast(init: seq<Registration>, last: Registration, token: string)
    ensures EntryOf(init + [last], token) ==
            if EntryOf(init, token).Some? then EntryOf(init, token)
            else if last.token == token then Some(Entry(last.environment, last.deviceLabel))
            else None
  {
    var k := IndexOf(init, token);
    assert forall i :: 0 <= i < |init| ==> (init + [last])[i] == init[i];
    IndexIsFirst(init + [last], token, if k < |init| || last.token == token then k else |init| + 1);
  }

  lemma IndexIsFirst(registrations: seq<Registration>, token: string, k: nat)
    requires k <= |registrations|
    requires k < |registrations| ==> registrations[k].token == token
    requires forall i :: 0 <= i < k ==> registrations[i].token != token
    ensures IndexOf(registrations, token) == k
  {
  }

  lemma AddedSetsToken(registrations: seq<Registration>, added: string, environment: string, deviceLabel: string)
    requires added != ""
    ensures var before, after := EntryOf(registrations, added), Added(registrations, added, environment, deviceLabel);
            && Tokens(after) == Tokens(registrations) + (if before.Some? then [] else [added])
            && (forall token :: token != added ==> EntryOf(after, token) == EntryOf(registrations, token))
            && EntryOf(after, added) == Some(Entry(
                 NormalizeEnvironment(environment),
                 if deviceLabel != "" then deviceLabel else if before.Some? then before.value.deviceLabel else ""))
  {
    var after := Added(registrations, added, environment, deviceLabel);
    var k := IndexOf(registrations, added);
    assert forall i :: 0 <= i < |registrations| ==> after[i].token == registrations[i].token;
    IndexIsFirst(after, added, k);
    forall token | token != added ensures EntryOf(after, token) == EntryOf(registrations, token) {
      var l := IndexOf(registrations, token);
      IndexIsFirst(after, token, if l < |registrations| then l else |after|);
    }
  }

  /** Over every run, failed writes and restarts included, the registry refines the map: the same
      tokens in the same order, and for every token the entry its history gives. */
  lemma {:induction false} RegistryRefinesMap(file: File, events: seq<Event>)
    requires CleanFile(file)
    ensures Tokens(Run(file, events).registrations) == Order(file, events)
    ensures forall token :: EntryOf(Run(file, events).registrations, token) == Lookup(file, events, token)
    decreases |events|
  {
    if events != [] {
      var init, last := events[..|events| - 1], events[|events| - 1];
      var s := Run(file, init);
      match last
      case Set(token, environment, deviceLabel, _) =>
        RegistryRefinesMap(file, init);
        if token != "" {
          AddedSetsToken(s.registrations, token, environment, deviceLabel);
        }
      case Remove(token, _) =>
        RegistryRefinesMap(file, init);
        WithoutDropsToken(s.registrations, token);
      case Restart =>
        RegistryRefinesMap(file, init[..LastWrite(init)]);
        FileHoldsLastWrite(file, init);
    }
  }

  function LabelAfter(e: Event, token: string, earlier: string): string
  {
    if e.Set? && e.token == token && e.deviceLabel != "" then e.deviceLabel else earlier
  }

  /** The last non-empty label that `more` gives the token, or `earlier` when it gives none. */
  function LastLabel(more: seq<Event>, token: string, earlier: string): string
  {
    if more == [] then earlier
    else LabelAfter(more[|more| - 1], token, LastLabel(more[..|more| - 1], token, earlier))
  }

  lemma NoEntryWithoutToken(registrations: seq<Registration>)
    requires WellFormed(registrations)
    ensures EntryOf(registrations, "") == None
  {
    forall i | 0 <= i < |registrations| ensures registrations[i].token != "" {
      assert registrations[i] in registrations;
    }
  }

  ghost predicate HasLabel(s: State, token: string, known: string)
  {
    var entry := EntryOf(s.registrations, token);
    entry.Some? && entry.value.deviceLabel == known
  }

  lemma StepKeepsLabel(s: State, e: Event, token: string, known: string)
    requires WellFormed(s.registrations) && HasLabel(s, token, known)
    requires e != Restart && !(e.Remove? && e.token == token)
    ensures HasLabel(Apply(s, e), token, LabelAfter(e, token, known))
  {
    NoEntryWithoutToken(s.registrations);
    match e
    case Set(added, environment, deviceLabel, _) =>
      if added != "" {
        AddedSetsToken(s.registrations, added, environment, deviceLabel);
      }
    case Remove(removed, _) => WithoutDropsToken(s.registrations, removed);
  }

  lemma RunNext(file: File, events: seq<Event>, e: Event)
    ensures Run(file, events + [e]) == Apply(Run(file, events), e)
  {
    assert (events + [e])[..|events|] == events;
  }

  /** Until a known device is removed it stays registered, and a registration without a label
      keeps its label: it is always the last non-empty one given. Restarts play no part while
      writes succeed, and failed writes play none without a restart. */
  lemma {:induction false} KnownLabelSurvives(file: File, events: seq<Event>, more: seq<Event>, token: string,
          known: string)
    requires CleanFile(file)
    requires AllWritesSucceed(events + more) || Restart !in more
    requires HasLabel(Run(file, events), token, known)
    requires forall e :: e in more ==> !(e.Remove? && e.token == token)
    ensures HasLabel(Run(file, events + more), token, LastLabel(more, token, known))
  {
    if more == [] {
      assert events + more == events;
    } else {
      var init, last := more[..|more| - 1], more[|more| - 1];
      assert last in more && forall e :: e in init ==> e in more;
      assert events + more == events + init + [last];
      RunNext(file, events + init, last);
      assert AllWritesSucceed(events + more) ==> AllWritesSucceed(events + init);
      KnownLabelSurvives(file, events, init, token, known);
      RunIsWellFormed(file, events + init);
      if last == Restart {
        RestartIsInvisible(file, events + init);
      } else {
        StepKeepsLabel(Run(file, events + init), last, token, LastLabel(init, token, known));
      }
    }
  }
}
