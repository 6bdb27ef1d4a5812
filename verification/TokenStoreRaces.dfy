/**
 Calls racing on the device registry. Each changes the list and copies it under the lock, and
 writes the copy to the file without it, so the writes may happen in another order than the changes.
 */
module TokenStoreRaces {
  import opened Runs
  import opened Wrappers
  import opened AtomicWrites
  import opened TokenStore
  import Registry = TokenStoreRuns

  /** The list in memory, the disk, and the calls in the order they took the lock. */
  datatype State = State(registrations: seq<Registration>, disk: Disk<File>, made: seq<Registry.Event>)

  datatype Event =
    | Lock(call: Registry.Event)   // the locked section: change the list, copy it
    | Store(id: nat)               // write the copy to the temporary file
    | Rename(id: nat)              // rename that over the registry file

  /** A call that gets as far as the lock. */
  predicate Locks(call: Registry.Event)
  {
    call.Remove? || (call.Set? && call.token != "")
  }

  function Changed(registrations: seq<Registration>, call: Registry.Event): seq<Registration>
  {
    Registry.Apply(Registry.State(registrations, Absent), call).registrations
  }

  function Step(s: State, e: Event): Option<State>
  {
    match e
    case Lock(call) =>
      if !Locks(call) then None
      else
        var list := Changed(s.registrations, call);
        Some(State(list, Prepare(s.disk, Decoded(list, "", "")), s.made + [call]))
    case Store(id) => if CanStore(s.disk, id) then Some(s.(disk := StoreTemp(s.disk, id))) else None
    case Rename(id) => if CanRename(s.disk, id) then Some(s.(disk := RenameTemp(s.disk, id))) else None
  }

  /** A process that opened the given file. */
  function Start(file: File): State
  {
    State(Load(file), Untouched(file), [])
  }

  /** The list once the first `n` calls had the lock, as a run without races has it. */
  function ListAfter(file: File, made: seq<Registry.Event>, n: nat): seq<Registration>
    requires n <= |made|
  {
    Registry.Run(file, made[..n]).registrations
  }

  /** Every call copied the list as it was when that call had the lock. */
  ghost predicate Copies(file: File, made: seq<Registry.Event>, calls: seq<Call<File>>)
  {
    && |made| == |calls|
    && forall i :: 0 <= i < |made| ==> calls[i].content == Decoded(ListAfter(file, made, i + 1), "", "")
  }

  ghost predicate Kept(s: State, file: File)
  {
    && Inv(s.disk, file)
    && Copies(file, s.made, s.disk.calls)
    && s.registrations == ListAfter(file, s.made, |s.made|)
  }

  lemma ListsGrowWith(file: File, made: seq<Registry.Event>, call: Registry.Event)
    requires Locks(call)
    ensures forall n :: 0 <= n <= |made| ==> ListAfter(file, made + [call], n) == ListAfter(file, made, n)
    ensures ListAfter(file, made + [call], |made| + 1) == Changed(ListAfter(file, made, |made|), call)
  {
    var all := made + [call];
    assert forall n :: 0 <= n <= |made| ==> all[..n] == made[..n];
    assert all[..|all|] == all && all[..|made|] == made[..|made|] == made;
  }

  lemma CopiesGrow(file: File, made: seq<Registry.Event>, calls: seq<Call<File>>, call: Registry.Event)
    requires Copies(file, made, calls) && Locks(call)
    ensures var list := Changed(ListAfter(file, made, |made|), call);
            Copies(file, made + [call], calls + [Call(Decoded(list, "", ""), Prepared)])
  {
    ListsGrowWith(file, made, call);
  }

  lemma LockKeeps(s: State, file: File, call: Registry.Event)
    requires Kept(s, file) && Locks(call)
    ensures Kept(Step(s, Lock(call)).value, file)
  {
    CopiesGrow(file, s.made, s.disk.calls, call);
    ListsGrowWith(file, s.made, call);
    PrepareKeepsInv(s.disk, file, Decoded(Changed(s.registrations, call), "", ""));
  }

  /** Writing moves a call on, and changes neither its copy nor the list. */
  lemma WritesKeep(s: State, file: File, disk: Disk<File>)
    requires Kept(s, file) && Inv(disk, file) && |disk.calls| == |s.disk.calls|
    requires forall i :: 0 <= i < |disk.calls| ==> disk.calls[i].content == s.disk.calls[i].content
    ensures Kept(s.(disk := disk), file)
  {
  }

  lemma StepKeeps(s: State, file: File, e: Event)
    requires Kept(s, file) && Step(s, e).Some?
    ensures Kept(Step(s, e).value, file)
  {
    match e
    case Lock(call) =>
      LockKeeps(s, file, call);
    case Store(id) =>
      StoreKeepsInv(s.disk, file, id);
      WritesKeep(s, file, StoreTemp(s.disk, id));
    case Rename(id) =>
      RenameKeepsInv(s.disk, file, id);
      WritesKeep(s, file, RenameTemp(s.disk, id));
  }

  lemma {:induction false} RunKeeps(file: File, events: seq<Event>, s: State)
    requires Reach(Step, Start(file), events) == Some(s)
    ensures Kept(s, file)
  {
    if events == [] {
      assert Registry.Run(file, []).registrations == Load(file);
    } else {
      var before := Reach(Step, Start(file), events[..|events| - 1]).value;
      RunKeeps(file, events[..|events| - 1], before);
      StepKeeps(before, file, events[|events| - 1]);
    }
  }

  lemma ListReloads(file: File, made: seq<Registry.Event>, n: nat)
    requires Registry.CleanFile(file) && n <= |made|
    ensures Load(Decoded(ListAfter(file, made, n), "", "")) == ListAfter(file, made, n)
  {
    Registry.RunIsWellFormed(file, made[..n]);
    Registry.LoadOfWritten(ListAfter(file, made, n));
  }

  lemma SettledFile(s: State, file: File) returns (w: nat)
    requires Kept(s, file) && Settled(s.disk) && s.made != []
    ensures s.disk.lastStored == Some(w) && w < |s.made|
    ensures s.disk.file == Decoded(ListAfter(file, s.made, w + 1), "", "")
    ensures s.registrations == ListAfter(file, s.made, |s.made|)
  {
    SettledHoldsLastStored(s.disk, file);
    w := s.disk.lastStored.value;
  }

  lemma WholeList(file: File, made: seq<Registry.Event>)
    ensures ListAfter(file, made, |made|) == Registry.Run(file, made).registrations
  {
    assert made[..|made|] == made;
  }

  /** Once all racing calls have returned, the list is that of the calls in lock order, while the
      file holds the list as it was when the call that wrote last had the lock, and a restart goes
      back to that. So the file holds the list if and only if the calls that had the lock after
      that one leave the list as it was; in particular when there are none. */
  lemma FileHoldsListIff(file: File, events: seq<Event>, s: State)
    requires Reach(Step, Start(file), events) == Some(s) && Settled(s.disk) && s.made != []
    ensures s.disk.lastStored.Some? && s.disk.lastStored.value < |s.made|
    ensures var w := s.disk.lastStored.value;
            && s.registrations == Registry.Run(file, s.made).registrations
            && s.disk.file == Decoded(ListAfter(file, s.made, w + 1), "", "")
            && (Registry.CleanFile(file) ==> Load(s.disk.file) == ListAfter(file, s.made, w + 1))
            && (s.disk.file == Decoded(s.registrations, "", "") <==>
                ListAfter(file, s.made, w + 1) == ListAfter(file, s.made, |s.made|))
            && (w == |s.made| - 1 ==> s.disk.file == Decoded(s.registrations, "", ""))
  {
    RunKeeps(file, events, s);
    var w := SettledFile(s, file);
    WholeList(file, s.made);
    if Registry.CleanFile(file) {
      ListReloads(file, s.made, w + 1);
    }
  }

  /** Every call registers a device not known before. */
  ghost predicate AllNew(file: File, made: seq<Registry.Event>)
  {
    forall i :: 0 <= i < |made| ==> |ListAfter(file, made, i + 1)| > |ListAfter(file, made, i)|
  }

  lemma {:induction false} ListsGrow(file: File, made: seq<Registry.Event>, i: nat, j: nat)
    requires AllNew(file, made) && i < j <= |made|
    ensures |ListAfter(file, made, i)| < |ListAfter(file, made, j)|
  {
    if i + 1 < j {
      ListsGrow(file, made, i, j - 1);
    }
  }

  /** While every call registers a new device, the file holds the list if and only if the last call
      to have the lock was also the last to write. */
  lemma NewDevicesKeptIff(file: File, events: seq<Event>, s: State)
    requires Reach(Step, Start(file), events) == Some(s) && Settled(s.disk) && s.made != []
    requires AllNew(file, s.made)
    ensures s.disk.file == Decoded(s.registrations, "", "") <==> s.disk.lastStored == Some(|s.made| - 1)
  {
    FileHoldsListIff(file, events, s);
    var w := s.disk.lastStored.value;
    if w < |s.made| - 1 {
      ListsGrow(file, s.made, w + 1, |s.made|);
    }
  }

  /** Both calls had the lock, neither has written. */
  function BothLocked(file: File, a: Registry.Event, b: Registry.Event): State
  {
    var first := Changed(Load(file), a);
    var second := Changed(first, b);
    State(second, Disk(file, None, [Call(Decoded(first, "", ""), Prepared), Call(Decoded(second, "", ""), Prepared)],
                       None, None), [a, b])
  }

  lemma TwoLock(file: File, a: Registry.Event, b: Registry.Event)
    requires Locks(a) && Locks(b)
    ensures Reach(Step, Start(file), [Lock(a), Lock(b)]) == Some(BothLocked(file, a, b))
  {
    var s := Start(file);
    ReachNext(Step, s, [], Lock(a));
    ReachNext(Step, s, [Lock(a)], Lock(b));
    assert [] + [Lock(a)] == [Lock(a)] && [Lock(a)] + [Lock(b)] == [Lock(a), Lock(b)];
    var t := Step(s, Lock(a)).value;
    var u := Step(t, Lock(b)).value;
    assert t.made == [a] && u.made == [a, b];
    assert u.disk.calls == BothLocked(file, a, b).disk.calls;
    assert Reach(Step, s, []) == Some(s);
  }

  lemma FourSteps(s: State, a: Event, b: Event, c: Event, d: Event)
    ensures Reach(Step, s, [a, b, c, d]) ==
            match Step(s, a)
            case None => None
            case Some(t) =>
              (match Step(t, b)
               case None => None
               case Some(u) => match Step(u, c) case None => None case Some(v) => Step(v, d))
  {
    ReachNext(Step, s, [], a);
    ReachNext(Step, s, [a], b);
    ReachNext(Step, s, [a, b], c);
    ReachNext(Step, s, [a, b, c], d);
    assert [] + [a] == [a] && [a] + [b] == [a, b] && [a, b] + [c] == [a, b, c] && [a, b, c] + [d] == [a, b, c, d];
  }

  /** Two calls whose writes cross: both succeed, and the file lacks the second change. */
  lemma CrossedWritesLag(file: File, a: Registry.Event, b: Registry.Event)
    requires Locks(a) && Locks(b)
    ensures match Reach(Step, Start(file), [Lock(a), Lock(b)] + [Store(1), Rename(1), Store(0), Rename(0)])
            case None => false
            case Some(s) =>
              && s.registrations == Changed(Changed(Load(file), a), b)
              && s.disk.file == Decoded(Changed(Load(file), a), "", "")
              && |s.disk.calls| == 2
              && s.disk.calls[0].stage == Done(true) && s.disk.calls[1].stage == Done(true)
  {
    TwoLock(file, a, b);
    ReachAppend(Step, Start(file), [Lock(a), Lock(b)], [Store(1), Rename(1), Store(0), Rename(0)]);
    FourSteps(BothLocked(file, a, b), Store(1), Rename(1), Store(0), Rename(0));
  }

  /** Two calls whose writes overlap: the first one's rename puts the second one's list in place, and
      the second call fails although the file holds its list. */
  lemma OverlappingWriteFails(file: File, a: Registry.Event, b: Registry.Event)
    requires Locks(a) && Locks(b)
    ensures match Reach(Step, Start(file), [Lock(a), Lock(b)] + [Store(0), Store(1), Rename(0), Rename(1)])
            case None => false
            case Some(s) =>
              && s.registrations == Changed(Changed(Load(file), a), b)
              && s.disk.file == Decoded(s.registrations, "", "")
              && |s.disk.calls| == 2
              && s.disk.calls[0].stage == Done(true) && s.disk.calls[1].stage == Done(false)
  {
    TwoLock(file, a, b);
    ReachAppend(Step, Start(file), [Lock(a), Lock(b)], [Store(0), Store(1), Rename(0), Rename(1)]);
    FourSteps(BothLocked(file, a, b), Store(0), Store(1), Rename(0), Rename(1));
  }
}
