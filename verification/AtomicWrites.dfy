/**
 Replacing a file through a temporary one that all callers share: write the temporary file, then
 rename it into place. No lock spans the two, so calls interleave between them, and one call may
 rename what another has written.
 */
module AtomicWrites {
  import opened Wrappers

  datatype Stage = Prepared | Stored | Done(ok: bool)

  datatype Call<C> = Call(content: C, stage: Stage)

  /** The two files, the calls in the order they made up their contents, the call whose content the
      file holds (none while it is the first one), and the call that wrote the temporary file last. */
  datatype Disk<C> = Disk(
    file: C,
    temp: Option<C>,
    calls: seq<Call<C>>,
    holder: Option<nat>,
    lastStored: Option<nat>)

  function Untouched<C>(file: C): Disk<C>
  {
    Disk(file, None, [], None, None)
  }

  function Prepare<C>(d: Disk<C>, content: C): Disk<C>
  {
    d.(calls := d.calls + [Call(content, Prepared)])
  }

  predicate CanStore<C>(d: Disk<C>, id: nat)
  {
    id < |d.calls| && d.calls[id].stage == Prepared
  }

  function StoreTemp<C>(d: Disk<C>, id: nat): Disk<C>
    requires CanStore(d, id)
  {
    d.(temp := Some(d.calls[id].content), lastStored := Some(id),
       calls := d.calls[id := d.calls[id].(stage := Stored)])
  }

  predicate CanRename<C>(d: Disk<C>, id: nat)
  {
    id < |d.calls| && d.calls[id].stage == Stored
  }

  /** The rename fails when another call has already taken the temporary file away. */
  function RenameTemp<C>(d: Disk<C>, id: nat): Disk<C>
    requires CanRename(d, id)
  {
    match d.temp
    case None => d.(calls := d.calls[id := d.calls[id].(stage := Done(false))])
    case Some(content) =>
      d.(file := content, temp := None, holder := d.lastStored,
         calls := d.calls[id := d.calls[id].(stage := Done(true))])
  }

  ghost predicate Settled<C>(d: Disk<C>)
  {
    forall i :: 0 <= i < |d.calls| ==> d.calls[i].stage.Done?
  }

  /** The content that a call made up, or the first one. */
  ghost predicate Holds<C>(d: Disk<C>, source: Option<nat>, content: C, first: C)
  {
    match source
    case None => content == first
    case Some(i) => i < |d.calls| && content == d.calls[i].content && d.calls[i].stage != Prepared
  }

  /** What the temporary file holds is the last content stored, by a call still to rename it; once
      it is gone, the file holds that. */
  ghost predicate Inv<C>(d: Disk<C>, first: C)
  {
    && Holds(d, d.holder, d.file, first)
    && (forall i :: 0 <= i < |d.calls| && d.calls[i].stage != Prepared ==> d.lastStored.Some?)
    && (forall i :: 0 <= i < |d.calls| && d.calls[i].stage.Done? ==> d.holder.Some?)
    && (d.holder.Some? ==> exists i :: 0 <= i < |d.calls| && d.calls[i].stage.Done?)
    && (match d.temp
        case None => d.holder == d.lastStored
        case Some(content) =>
          d.lastStored.Some? && Holds(d, d.lastStored, content, first)
          && d.calls[d.lastStored.value].stage == Stored)
  }

  lemma PrepareKeepsInv<C>(d: Disk<C>, first: C, content: C)
    requires Inv(d, first)
    ensures Inv(Prepare(d, content), first)
  {
    if d.holder.Some? {
      var i :| 0 <= i < |d.calls| && d.calls[i].stage.Done?;
      assert Prepare(d, content).calls[i].stage.Done?;
    }
  }

  lemma StoreKeepsInv<C>(d: Disk<C>, first: C, id: nat)
    requires Inv(d, first) && CanStore(d, id)
    ensures Inv(StoreTemp(d, id), first)
  {
    if d.holder.Some? {
      var i :| 0 <= i < |d.calls| && d.calls[i].stage.Done?;
      assert StoreTemp(d, id).calls[i].stage.Done?;
    }
  }

  lemma RenameKeepsInv<C>(d: Disk<C>, first: C, id: nat)
    requires Inv(d, first) && CanRename(d, id)
    ensures Inv(RenameTemp(d, id), first)
  {
    assert RenameTemp(d, id).calls[id].stage.Done?;
  }

  /** Once every call has returned, the file holds the content of the one that wrote the temporary
      file last, whoever renamed it. */
  lemma SettledHoldsLastStored<C>(d: Disk<C>, first: C)
    requires Inv(d, first) && Settled(d) && d.calls != []
    ensures d.lastStored.Some? && d.lastStored.value < |d.calls|
    ensures d.file == d.calls[d.lastStored.value].content
  {
    assert d.calls[0].stage.Done?;
  }
}
