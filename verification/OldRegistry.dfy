/** The sender registry of the superseded daemon (src.old.d/server.c: `add_device`, `rm_device`). */
module OldRegistry {
  const MAX_SENDERS: nat := 4
  const MAX_NAME_LENGTH: nat := 80

  /** A handler returns, its thread ends, or it waits for ever for a mutex it holds itself. */
  datatype Outcome = Returned(result: int) | ThreadExit | Blocked

  /** The lowest slot that is not taken, or `MAX_SENDERS`. */
  function LowestFree(r: map<nat, string>, i: nat): (slot: nat)
    requires i <= MAX_SENDERS
    ensures i <= slot <= MAX_SENDERS
    ensures slot < MAX_SENDERS ==> slot !in r
    ensures forall j: nat :: i <= j < slot ==> j in r
    decreases MAX_SENDERS - i
  {
    if i == MAX_SENDERS || i !in r then i else LowestFree(r, i + 1)
  }

  /** The lowest slot taken by `name`, or `MAX_SENDERS`. */
  function LowestNamed(r: map<nat, string>, name: string, i: nat): (slot: nat)
    requires i <= MAX_SENDERS
    ensures i <= slot <= MAX_SENDERS
    ensures slot < MAX_SENDERS ==> slot in r && r[slot] == name
    ensures forall j: nat :: i <= j < slot && j in r ==> r[j] != name
    decreases MAX_SENDERS - i
  {
    if i == MAX_SENDERS || (i in r && r[i] == name) then i else LowestNamed(r, name, i + 1)
  }

  /** The taken slots and their names. */
  function RegistryOf(flags: seq<int>, names: seq<string>): map<nat, string>
    requires |flags| == |names| == MAX_SENDERS
  {
    map i: nat | i < MAX_SENDERS && flags[i] != 0 :: names[i]
  }

  lemma Inserted(r: map<nat, string>, slot: nat, name: string)
    requires slot !in r
    ensures |r[slot := name]| == |r| + 1
  {
    assert r[slot := name].Keys == r.Keys + {slot};
  }

  lemma Removed(r: map<nat, string>, slot: nat)
    requires slot in r
    ensures |r - {slot}| == |r| - 1
  {
    assert (r - {slot}).Keys == r.Keys - {slot};
  }

  lemma SlotTaken(flags: seq<int>, names: seq<string>, slot: nat, name: string)
    requires |flags| == |names| == MAX_SENDERS && slot < MAX_SENDERS && flags[slot] == 0
    ensures
      var r, r' := RegistryOf(flags, names), RegistryOf(flags[slot := slot + 1], names[slot := name]);
      r' == r[slot := name] && |r'| == |r| + 1
  {
    Inserted(RegistryOf(flags, names), slot, name);
  }

  lemma SlotFreed(flags: seq<int>, names: seq<string>, slot: nat)
    requires |flags| == |names| == MAX_SENDERS && slot < MAX_SENDERS && flags[slot] != 0
    ensures
      var r, r' := RegistryOf(flags, names), RegistryOf(flags[slot := 0], names);
      r' == r - {slot} && |r'| == |r| - 1
  {
    Removed(RegistryOf(flags, names), slot);
  }

  /** One step of each search loop. */
  lemma NextSlot(flags: seq<int>, names: seq<string>, name: string, i: nat)
    requires |flags| == |names| == MAX_SENDERS && i < MAX_SENDERS
    ensures
      var r := RegistryOf(flags, names);
      && LowestFree(r, i) == (if flags[i] == 0 then i else LowestFree(r, i + 1))
      && LowestNamed(r, name, i) == if flags[i] != 0 && names[i] == name then i else LowestNamed(r, name, i + 1)
  {}

  class Server {
    var senderFlags: array<int>
    var senderNames: array<string>
    var holds: bool            // whether the main thread holds the sender mutex
    ghost var added: nat       // history: additions and removals that succeeded
    ghost var removed: nat

    ghost predicate Valid()
      reads this, senderFlags, senderNames
    {
      && senderFlags.Length == senderNames.Length == MAX_SENDERS
      && (forall i :: 0 <= i < MAX_SENDERS ==> senderFlags[i] == 0 || senderFlags[i] == i + 1)
      && |Registry()| == added - removed
    }

    /** The registry as a partial map from slots to device names. */
    ghost function Registry(): map<nat, string>
      reads this`senderFlags, this`senderNames, senderFlags, senderNames
      requires senderFlags.Length == senderNames.Length == MAX_SENDERS
    {
      RegistryOf(senderFlags[..], senderNames[..])
    }

    constructor ()
      ensures Valid() && fresh(senderFlags) && fresh(senderNames) && Registry() == map[] && !holds
    {
      senderFlags := new int[MAX_SENDERS](_ => 0);
      senderNames := new string[MAX_SENDERS](_ => "");
      holds, added, removed := false, 0, 0;
      new;
      assert Registry() == map[];
    }

    /** The search loop of `add_device`. */
    method FindFree() returns (slot: nat)
      requires Valid()
      ensures slot == LowestFree(Registry(), 0)
    {
      slot := 0;
      while slot < MAX_SENDERS && senderFlags[slot] != 0
        invariant slot <= MAX_SENDERS && LowestFree(Registry(), 0) == LowestFree(Registry(), slot)
      {
        NextSlot(senderFlags[..], senderNames[..], "", slot);
        slot := slot + 1;
      }
    }

    /** The search loop of `rm_device`. */
    method FindNamed(name: string) returns (slot: nat)
      requires Valid()
      ensures slot == LowestNamed(Registry(), name, 0)
    {
      slot := 0;
      while slot < MAX_SENDERS
        invariant slot <= MAX_SENDERS && LowestNamed(Registry(), name, 0) == LowestNamed(Registry(), name, slot)
      {
        NextSlot(senderFlags[..], senderNames[..], name, slot);
        if senderFlags[slot] != 0 {
          if senderNames[slot] == name { return; }
        }
        slot := slot + 1;
      }
    }

    /** The end of `add_device`: the name is written after the mutex has been given back. */
    method Register(slot: nat, name: string)
      requires Valid() && slot < MAX_SENDERS && slot !in Registry()
      modifies this`holds, this`added, senderFlags, senderNames
      ensures Valid() && Registry() == old(Registry())[slot := name] && !holds && added == old(added) + 1
    {
      SlotTaken(senderFlags[..], senderNames[..], slot, name);
      senderFlags[slot] := slot + 1;
      holds := false;
      senderNames[slot] := name;
      added := added + 1;
    }

    method Free(slot: nat)
      requires Valid() && slot in Registry()
      modifies this`removed, senderFlags
      ensures Valid() && Registry() == old(Registry()) - {slot} && removed == old(removed) + 1
    {
      SlotFreed(senderFlags[..], senderNames[..], slot);
      senderFlags[slot] := 0;
      removed := removed + 1;
    }

    /** `deviceOk` and `peerOk` are what the device and the network do. */
    method AddDevice(name: string, deviceOk: bool, peerOk: bool) returns (o: Outcome)
      requires Valid() && |name| < MAX_NAME_LENGTH
      modifies this`holds, this`added, senderFlags, senderNames
      ensures Valid()
      ensures
        var r := old(Registry());
        var slot := LowestFree(r, 0);
        if !deviceOk then o == ThreadExit && Registry() == r && holds == old(holds)
        else if !peerOk then o == Returned(-1) && Registry() == r && holds == old(holds)
        else if old(holds) then o == Blocked && Registry() == r && holds
        else if slot == 4 then o == Returned(-1) && Registry() == r && holds
        else o == Returned(0) && Registry() == r[slot := name] && !holds
      ensures added == old(added) + if o == Returned(0) then 1 else 0
    {
      if !deviceOk { return ThreadExit; }
      if !peerOk { return Returned(-1); }
      if holds { return Blocked; }
      holds := true;
      var slot := FindFree();
      if slot == MAX_SENDERS { return Returned(-1); }
      Register(slot, name);
      return Returned(0);
    }

    method RmDevice(name: string) returns (o: Outcome)
      requires Valid()
      modifies this`holds, this`removed, senderFlags
      ensures Valid()
      ensures
        var r := old(Registry());
        var slot := LowestNamed(r, name, 0);
        if old(holds) then o == Blocked && Registry() == r && holds && removed == old(removed)
        else if slot == MAX_SENDERS then o == Returned(0) && Registry() == r && !holds && removed == old(removed)
        else o == Returned(0) && Registry() == r - {slot} && !holds && removed == old(removed) + 1
    {
      if holds { return Blocked; }
      ghost var r := Registry();
      holds := true;
      assert Registry() == r;
      var slot := FindNamed(name);
      if slot < MAX_SENDERS {
        Free(slot);
      }
      holds := false;
      return Returned(0);
    }
  }

  /** Removing a name that was just added gives the registry back, unless a lower slot has the
      same name: then that one is freed. */
  lemma RemoveUndoesAdd(r: map<nat, string>, name: string)
    requires forall i :: i in r ==> i < MAX_SENDERS
    requires LowestFree(r, 0) < MAX_SENDERS
    ensures
      var slot := LowestFree(r, 0);
      var r' := r[slot := name];
      var freed := LowestNamed(r', name, 0);
      freed < MAX_SENDERS && (r' - {freed} == r <==> forall j: nat :: j < slot ==> r[j] != name)
  {}
}
