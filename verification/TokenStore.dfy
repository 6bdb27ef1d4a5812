/**
 The device registry: an ordered list of registrations in a growable buffer that `Remove`
 compacts over itself, written to a file after every change.
 */
module TokenStore {
  import opened Sequences
  import opened Wrappers

  const PRODUCTION := "production"
  const DEVELOPMENT := "development"

  function NormalizeEnvironment(environment: string): (normal: string)
    ensures normal == "production" || normal == "development"
    ensures normal == "development" <==> environment == "development"
  {
    if environment == DEVELOPMENT then DEVELOPMENT else PRODUCTION
  }

  datatype Registration = Registration(token: string, environment: string, deviceLabel: string)

  /** The registry file: the current shape and the older single-token shape decode into the same
      record; `Corrupt` stands for a file that exists but cannot be read or decoded. */
  datatype File =
    | Absent
    | Corrupt
    | Decoded(registrations: seq<Registration>, token: string, environment: string)

  // ---------------------------------------------------------------------------------------
  // The operations on values
  // ---------------------------------------------------------------------------------------

  /** The first position holding the token, or the length if there is none. */
  function IndexOf(registrations: seq<Registration>, token: string): (k: nat)
    ensures k <= |registrations|
    ensures k < |registrations| ==> registrations[k].token == token
    ensures forall i :: 0 <= i < k ==> registrations[i].token != token
  {
    if registrations == [] || registrations[0].token == token then 0
    else 1 + IndexOf(registrations[1..], token)
  }

  function Merge(known: Registration, environment: string, deviceLabel: string): Registration
  {
    Registration(known.token, environment, if deviceLabel != "" then deviceLabel else known.deviceLabel)
  }

  function Added(registrations: seq<Registration>, token: string, environment: string,
          deviceLabel: string): seq<Registration>
  {
    var k := IndexOf(registrations, token);
    var normal := NormalizeEnvironment(environment);
    if k < |registrations| then registrations[k := Merge(registrations[k], normal, deviceLabel)]
    else registrations + [Registration(token, normal, deviceLabel)]
  }

  function OtherThan(token: string): Registration -> bool
  {
    (r: Registration) => r.token != token
  }

  function Without(registrations: seq<Registration>, token: string): seq<Registration>
  {
    Filter(OtherThan(token), registrations)
  }

  lemma WithoutNext(registrations: seq<Registration>, i: nat, token: string)
    requires i < |registrations|
    ensures Without(registrations[..i + 1], token) ==
            if registrations[i].token != token then Without(registrations[..i], token) + [registrations[i]]
            else Without(registrations[..i], token)
  {
    assert registrations[..i + 1] == registrations[..i] + [registrations[i]];
    FilterLast(OtherThan(token), registrations[..i], registrations[i]);
  }

  function Loadable(registrations: seq<Registration>): seq<Registration>
  {
    if registrations == [] then []
    else
      var init, last := registrations[..|registrations| - 1], registrations[|registrations| - 1];
      if last.token == "" then Loadable(init)
      else Loadable(init) + [last.(environment := NormalizeEnvironment(last.environment))]
  }

  function Load(file: File): seq<Registration>
  {
    match file
    case Absent => []
    case Corrupt => []
    case Decoded(registrations, token, environment) =>
      if registrations != [] then Loadable(registrations)
      else if token != "" then [Registration(token, NormalizeEnvironment(environment), "")]
      else []
  }

  // ---------------------------------------------------------------------------------------
  // The object
  // ---------------------------------------------------------------------------------------

  class Store {
    var buffer: array<Registration>   // the backing array of the slice
    var count: nat                    // the length of the slice
    var file: File

    ghost predicate Valid()
      reads this
    {
      count <= buffer.Length
    }

    ghost function Contents(): seq<Registration>
      requires Valid()
      reads this, buffer
    {
      buffer[..count]
    }

    constructor (file: File)
      ensures Valid() && fresh(buffer) && this.file == file
      ensures Contents() == Load(file)
    {
      this.file := file;
      buffer := new Registration[0];
      count := 0;
      new;
      if file.Decoded? {
        if |file.registrations| > 0 {
          for i := 0 to |file.registrations|
            invariant Valid() && fresh(buffer) && this.file == file
            invariant Contents() == Loadable(file.registrations[..i])
          {
            var r := file.registrations[i];
            assert file.registrations[..i + 1][..i] == file.registrations[..i];
            if r.token != "" {
              Append(Registration(r.token, NormalizeEnvironment(r.environment), r.deviceLabel));
            }
          }
          assert file.registrations[..|file.registrations|] == file.registrations;
        } else if file.token != "" {
          Append(Registration(file.token, NormalizeEnvironment(file.environment), ""));
        }
      }
    }

    /** Go's `append`: in place while there is room, otherwise into a larger copy. */
    method Append(r: Registration)
      requires Valid()
      modifies this`buffer, this`count, buffer
      ensures Valid() && (buffer == old(buffer) || fresh(buffer))
      ensures Contents() == old(Contents()) + [r]
    {
      if count == buffer.Length {
        var larger := new Registration[2 * count + 1](i requires 0 <= i reads this, buffer =>
          if i < count && i < buffer.Length then buffer[i] else r);
        assert larger[..count] == buffer[..count];
        buffer := larger;
      }
      buffer[count] := r;
      count := count + 1;
    }

    /** A copy of the list that later changes to the registry cannot reach. */
    method All() returns (out: array<Registration>)
      requires Valid()
      ensures fresh(out) && out[..] == Contents()
    {
      out := new Registration[count](i requires 0 <= i < count && Valid() reads this, buffer => buffer[i]);
    }

    method Find(token: string) returns (found: Option<Registration>)
      requires Valid()
      ensures var k := IndexOf(Contents(), token);
              found == if k < |Contents()| then Some(Contents()[k]) else None
    {
      for i := 0 to count
        invariant forall j :: 0 <= j < i ==> buffer[j].token != token
      {
        if buffer[i].token == token {
          assert Contents()[i].token == token && forall j :: 0 <= j < i ==> Contents()[j].token != token;
          return Some(buffer[i]);
        }
      }
      found := None;
    }

    /** Adds a device or updates the one already known; `writeOk` is whether the file could be
        written. */
    method Set(token: string, environment: string, deviceLabel: string, writeOk: bool) returns (ok: bool)
      requires Valid()
      modifies this, buffer
      ensures Valid() && (buffer == old(buffer) || fresh(buffer))
      ensures token == "" ==> !ok && Contents() == old(Contents()) && file == old(file)
      ensures token != "" ==> Contents() == Added(old(Contents()), token, environment, deviceLabel)
      ensures token != "" ==> ok == writeOk && file == if writeOk then Decoded(Contents(), "", "") else old(file)
    {
      if token == "" {
        return false;
      }
      var normal := NormalizeEnvironment(environment);
      ghost var start := Contents();
      var i, replaced := 0, false;
      while i < count && !replaced
        invariant i <= count && Valid() && buffer == old(buffer) && count == old(count) && file == old(file)
        invariant forall j :: 0 <= j < i - (if replaced then 1 else 0) ==> start[j].token != token
        invariant !replaced ==> Contents() == start
        invariant replaced ==> 0 < i && start[i - 1].token == token
                               && Contents() == start[i - 1 := Merge(start[i - 1], normal, deviceLabel)]
      {
        if buffer[i].token == token {
          buffer[i] := buffer[i].(environment := normal);
          if deviceLabel != "" {
            buffer[i] := buffer[i].(deviceLabel := deviceLabel);
          }
          replaced := true;
        }
        i := i + 1;
      }
      assert replaced ==> IndexOf(start, token) == i - 1;
      if !replaced {
        Append(Registration(token, normal, deviceLabel));
      }
      ok := Persist(writeOk);
    }

    /** Drops a device by moving the kept registrations to the front of the same buffer. */
    method Remove(token: string, writeOk: bool) returns (ok: bool)
      requires Valid()
      modifies this`count, this`file, buffer
      ensures Valid()
      ensures Contents() == Without(old(Contents()), token)
      ensures ok == writeOk && file == if writeOk then Decoded(Contents(), "", "") else old(file)
    {
      ghost var start := Contents();
      ghost var front: seq<Registration> := [];
      var kept := 0;
      for i := 0 to count
        invariant kept == |front| <= i && count == old(count) && file == old(file)
        invariant front == Without(start[..i], token)
        invariant forall j :: 0 <= j < kept ==> buffer[j] == front[j]
        invariant forall j :: i <= j < count ==> buffer[j] == start[j]
      {
        var r := buffer[i];
        WithoutNext(start, i, token);
        if r.token != token {
          buffer[kept] := r;
          kept, front := kept + 1, front + [r];
        }
      }
      assert start[..|start|] == start;
      assert buffer[..kept] == front;
      count := kept;
      ok := Persist(writeOk);
    }

    /** Replaces the file by the current list, or leaves it when the write fails. */
    method Persist(writeOk: bool) returns (ok: bool)
      requires Valid()
      modifies this`file
      ensures ok == writeOk && file == if writeOk then Decoded(Contents(), "", "") else old(file)
    {
      if writeOk {
        file := Decoded(buffer[..count], "", "");
      }
      ok := writeOk;
    }
  }

  /** Opening the registry fails exactly on a file it cannot read or decode. */
  method Open(file: File) returns (store: Store?)
    ensures store == null <==> file == Corrupt
    ensures store != null ==> fresh(store) && fresh(store.buffer) && store.Valid()
                              && store.file == file && store.Contents() == Load(file)
  {
    if file == Corrupt {
      return null;
    }
    store := new Store(file);
  }
}
