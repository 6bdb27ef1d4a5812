/**
 Saves racing on the configuration file. A save reads the whole file, overlays its own keys and
 replaces the file, all without a lock, and the API's handlers run at the same time.
 */
module ConfigRaces {
  import opened Runs
  import opened Wrappers
  import opened AtomicWrites
  import opened Config

  type Keys = map<Key, JsonValue>

  /** The disk, the saves in the order they read the file, and for each of them the saves that its
      content is made up of. */
  datatype State = State(disk: Disk<Keys>, saves: seq<Save>, chains: seq<seq<Save>>)

  datatype Event =
    | Read(save: Save)   // read the file and overlay the keys
    | Store(id: nat)     // write the result to the temporary file
    | Rename(id: nat)    // rename that over the configuration file

  /** The saves that the file is made up of. */
  function ChainOf(chains: seq<seq<Save>>, holder: Option<nat>): seq<Save>
  {
    if holder.Some? && holder.value < |chains| then chains[holder.value] else []
  }

  function Step(codec: Codec, s: State, e: Event): Option<State>
  {
    match e
    case Read(save) =>
      Some(State(Prepare(s.disk, AfterSave(codec, s.disk.file, save)), s.saves + [save],
                 s.chains + [ChainOf(s.chains, s.disk.holder) + [save]]))
    case Store(id) => if CanStore(s.disk, id) then Some(s.(disk := StoreTemp(s.disk, id))) else None
    case Rename(id) => if CanRename(s.disk, id) then Some(s.(disk := RenameTemp(s.disk, id))) else None
  }

  function Steps(codec: Codec): (State, Event) -> Option<State>
  {
    (s: State, e: Event) => Step(codec, s, e)
  }

  /** A file holding these keys, with no save under way. */
  function Start(keys: Keys): State
  {
    State(Untouched(keys), [], [])
  }

  ghost predicate Kept(codec: Codec, s: State, keys: Keys)
  {
    && Inv(s.disk, keys)
    && |s.saves| == |s.chains| == |s.disk.calls|
    && (s.chains != [] ==> s.chains[0] == [s.saves[0]])
    && (forall i :: 0 <= i < |s.chains| ==> s.disk.calls[i].content == AfterSaves(codec, keys, s.chains[i]))
  }

  lemma FileIsChain(codec: Codec, s: State, keys: Keys)
    requires Kept(codec, s, keys)
    ensures s.disk.file == AfterSaves(codec, keys, ChainOf(s.chains, s.disk.holder))
  {
  }

  lemma ReadKeeps(codec: Codec, s: State, keys: Keys, save: Save)
    requires Kept(codec, s, keys)
    ensures Kept(codec, Step(codec, s, Read(save)).value, keys)
  {
    var chain := ChainOf(s.chains, s.disk.holder);
    FileIsChain(codec, s, keys);
    PrepareKeepsInv(s.disk, keys, AfterSave(codec, s.disk.file, save));
    assert (chain + [save])[..|chain|] == chain;
  }

  lemma StepKeeps(codec: Codec, s: State, keys: Keys, e: Event)
    requires Kept(codec, s, keys) && Step(codec, s, e).Some?
    ensures var t := Step(codec, s, e).value;
            Kept(codec, t, keys) && s.saves <= t.saves && s.chains <= t.chains
  {
    match e
    case Read(save) => ReadKeeps(codec, s, keys, save);
    case Store(id) => StoreKeepsInv(s.disk, keys, id);
    case Rename(id) => RenameKeepsInv(s.disk, keys, id);
  }

  lemma {:induction false} RunKeeps(codec: Codec, s: State, keys: Keys, events: seq<Event>, t: State)
    requires Kept(codec, s, keys) && Reach(Steps(codec), s, events) == Some(t)
    ensures Kept(codec, t, keys) && s.saves <= t.saves && s.chains <= t.chains
  {
    if events != [] {
      var before := Reach(Steps(codec), s, events[..|events| - 1]).value;
      RunKeeps(codec, s, keys, events[..|events| - 1], before);
      StepKeeps(codec, before, keys, events[|events| - 1]);
    }
  }

  lemma SettledChain(codec: Codec, s: State, keys: Keys)
    requires Kept(codec, s, keys) && Settled(s.disk) && s.saves != []
    ensures s.disk.lastStored.Some? && s.disk.lastStored.value < |s.chains|
    ensures s.disk.file == AfterSaves(codec, keys, s.chains[s.disk.lastStored.value])
  {
    SettledHoldsLastStored(s.disk, keys);
  }

  /** Whatever saves race, once all have returned the file holds what some of them one after the
      other would have made of it: the last one to write, the one whose result that one had read,
      and so on back to the start. All other saves are lost. */
  lemma SettledFileIsChain(codec: Codec, keys: Keys, events: seq<Event>, s: State)
    requires Reach(Steps(codec), Start(keys), events) == Some(s) && Settled(s.disk) && s.saves != []
    ensures s.disk.lastStored.Some? && s.disk.lastStored.value < |s.chains|
    ensures s.disk.file == AfterSaves(codec, keys, s.chains[s.disk.lastStored.value])
  {
    RunKeeps(codec, Start(keys), keys, events, s);
    SettledChain(codec, s, keys);
  }

  /** The keys hold what the save would write. */
  ghost predicate Has(codec: Codec, keys: Keys, save: Save)
  {
    match save
    case Poll(d) => Value(keys, PollInterval) == JString(codec.show(d))
    case RuleSets(rules, serviceRules) =>
      && Value(keys, RulesKey) == JRules(EncodeRules(codec, rules))
      && Value(keys, ServiceRulesKey) == JServiceRules(EncodeServiceRules(codec, serviceRules))
  }

  lemma OwnKeysOnly(codec: Codec, keys: Keys, p: Save, q: Save)
    requires p.Poll? != q.Poll?
    ensures Has(codec, AfterSave(codec, keys, p), p)
    ensures Has(codec, AfterSave(codec, keys, p), q) <==> Has(codec, keys, q)
  {
  }

  /** Of two saves the first has written, and the second is the last to have written if it has. */
  ghost predicate SecondIsLast(d: Disk<Keys>)
  {
    && |d.calls| == 2 && d.calls[0].stage != Prepared
    && (d.calls[1].stage != Prepared ==> d.lastStored == Some(1))
  }

  lemma StepKeepsSecondLast(codec: Codec, s: State, e: Event)
    requires SecondIsLast(s.disk) && !e.Read? && Step(codec, s, e).Some?
    ensures SecondIsLast(Step(codec, s, e).value.disk)
  {
  }

  lemma {:induction false} RunKeepsSecondLast(codec: Codec, s: State, keys: Keys, events: seq<Event>, t: State)
    requires Kept(codec, s, keys) && Reach(Steps(codec), s, events) == Some(t)
    requires SecondIsLast(s.disk) && |t.saves| == 2
    ensures SecondIsLast(t.disk)
  {
    if events != [] {
      var init := events[..|events| - 1];
      var before := Reach(Steps(codec), s, init).value;
      RunKeeps(codec, s, keys, init, before);
      RunKeepsSecondLast(codec, s, keys, init, before);
      StepKeepsSecondLast(codec, before, events[|events| - 1]);
    }
  }

  lemma ChainsOfTwo(codec: Codec, keys: Keys, p: Save, q: Save)
    ensures AfterSaves(codec, keys, [p]) == AfterSave(codec, keys, p)
    ensures AfterSaves(codec, keys, [p, q]) == AfterSave(codec, AfterSave(codec, keys, p), q)
  {
    assert [p][..0] == [] && [p, q][..1] == [p];
    assert AfterSaves(codec, keys, []) == keys;
  }

  /** The second save, read after the first had been renamed into place or before. */
  lemma SecondReads(codec: Codec, keys: Keys, s: State, q: Save)
    requires Kept(codec, s, keys) && |s.saves| == 1
    ensures var u := Step(codec, s, Read(q)).value;
            && Kept(codec, u, keys) && |u.saves| == 2
            && u.chains == [[s.saves[0]], if s.disk.calls[0].stage.Done? then [s.saves[0], q] else [q]]
            && (s.disk.calls[0].stage.Done? ==> SecondIsLast(u.disk))
  {
    ReadKeeps(codec, s, keys, q);
    assert [s.saves[0]] + [q] == [s.saves[0], q] && [] + [q] == [q];
  }

  /** What the file holds after two saves: both if the second read the first one's result, else
      only the one written last. */
  lemma TwoSaves(codec: Codec, keys: Keys, s: State, q: Save, after: seq<Event>, t: State)
    requires Kept(codec, s, keys) && |s.saves| == 1
    requires Reach(Steps(codec), Step(codec, s, Read(q)).value, after) == Some(t)
    requires |t.saves| == 2 && Settled(t.disk)
    ensures t.disk.lastStored == Some(0) || t.disk.lastStored == Some(1)
    ensures t.disk.file ==
            if s.disk.calls[0].stage.Done? then AfterSave(codec, AfterSave(codec, keys, s.saves[0]), q)
            else AfterSave(codec, keys, if t.disk.lastStored == Some(0) then s.saves[0] else q)
  {
    var p, u := s.saves[0], Step(codec, s, Read(q)).value;
    SecondReads(codec, keys, s, q);
    RunKeeps(codec, u, keys, after, t);
    SettledChain(codec, t, keys);
    assert t.chains[0] == u.chains[0] && t.chains[1] == u.chains[1];
    ChainsOfTwo(codec, keys, p, q);
    ChainsOfTwo(codec, keys, q, p);
    if s.disk.calls[0].stage.Done? {
      RunKeepsSecondLast(codec, u, keys, after, t);
    }
  }

  /** The only two saves of a run, of the interval and of the rules, the second one reading the file
      in state `s`. When both have returned, the file has both settings if and only if the first
      save had been renamed into place when the second one read, or the file already had the
      setting of the save that was overwritten. */
  lemma BothSurviveIff(codec: Codec, keys: Keys, before: seq<Event>, s: State, q: Save, after: seq<Event>, t: State)
    requires Reach(Steps(codec), Start(keys), before) == Some(s) && |s.saves| == 1
    requires Reach(Steps(codec), Start(keys), before + [Read(q)] + after) == Some(t)
    requires |t.saves| == 2 && Settled(t.disk) && s.saves[0].Poll? != q.Poll?
    ensures t.disk.lastStored == Some(0) || t.disk.lastStored == Some(1)
    ensures var p := s.saves[0];
            var lost := if t.disk.lastStored == Some(0) then q else p;
            Has(codec, t.disk.file, p) && Has(codec, t.disk.file, q) <==>
            s.disk.calls[0].stage.Done? || Has(codec, keys, lost)
  {
    RunKeeps(codec, Start(keys), keys, before, s);
    ReachNext(Steps(codec), Start(keys), before, Read(q));
    ReachAppend(Steps(codec), Start(keys), before + [Read(q)], after);
    TwoSaves(codec, keys, s, q, after, t);
    OwnKeysOnly(codec, keys, s.saves[0], q);
    OwnKeysOnly(codec, keys, q, s.saves[0]);
    OwnKeysOnly(codec, AfterSave(codec, keys, s.saves[0]), q, s.saves[0]);
  }
}
