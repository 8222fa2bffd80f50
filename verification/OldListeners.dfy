/** The listener slots of the superseded daemon (src.old.d): the accept loop scans the flags
    without the mutex while listener threads clear theirs. A critical section that writes one
    flag is one step. */
module OldListeners {
  const MAX_LISTENERS: nat := 8

  /** Where the accept loop is. `busy` names, for each slot passed, the thread that had it. */
  datatype Acceptor =
    | Idle
    | Scan(i: nat, busy: seq<nat>)
    | Claim(i: nat)      // saw the flag of slot i clear
    | Create(i: nat)     // has set it
    | Refused(busy: seq<nat>)
    | Down

  datatype Thread = Thread(slot: nat, running: bool)   // running: has not cleared its flag yet

  datatype State = State(
    flags: seq<int>,
    handles: seq<nat>,         // per slot, the thread created last
    acceptor: Acceptor,
    threads: seq<Thread>,
    cancelled: set<nat>)

  datatype Action = Connect | Look | SetFlag | CreateThread | Refuse | EndThread(t: nat) | Shutdown

  function Init(): State {
    State(seq(MAX_LISTENERS, _ => 0), seq(MAX_LISTENERS, _ => 0), Idle, [], {})
  }

  predicate WellFormed(s: State) { |s.flags| == |s.handles| == MAX_LISTENERS }

  predicate Enabled(s: State, a: Action)
    requires WellFormed(s)
  {
    match a
    case Connect => s.acceptor.Idle?
    case Look => s.acceptor.Scan? && s.acceptor.i < MAX_LISTENERS
    case SetFlag => s.acceptor.Claim? && s.acceptor.i < MAX_LISTENERS
    case CreateThread => s.acceptor.Create? && s.acceptor.i < MAX_LISTENERS
    case Refuse => (s.acceptor.Scan? && s.acceptor.i == MAX_LISTENERS) || s.acceptor.Refused?
    case EndThread(t) => t < |s.threads| && s.threads[t].running && s.threads[t].slot < MAX_LISTENERS
    case Shutdown => s.acceptor.Idle?
  }

  function Do(s: State, a: Action): (s': State)
    requires WellFormed(s) && Enabled(s, a)
    ensures WellFormed(s')
  {
    match a
    case Connect => s.(acceptor := Scan(0, []))
    case Look =>
      var i := s.acceptor.i;
      if s.flags[i] == 0 then s.(acceptor := Claim(i))
      else s.(acceptor := Scan(i + 1, s.acceptor.busy + [s.handles[i]]))
    case SetFlag => s.(flags := s.flags[s.acceptor.i := 1], acceptor := Create(s.acceptor.i))
    case CreateThread =>
      var i := s.acceptor.i;
      s.(handles := s.handles[i := |s.threads|], threads := s.threads + [Thread(i, true)], acceptor := Idle)
    case Refuse => s.(acceptor := if s.acceptor.Scan? then Refused(s.acceptor.busy) else Idle)
    case EndThread(t) =>
      s.(flags := s.flags[s.threads[t].slot := 0], threads := s.threads[t := s.threads[t].(running := false)])
    case Shutdown =>
      s.(acceptor := Down, cancelled := set i | 0 <= i < MAX_LISTENERS && s.flags[i] != 0 :: s.handles[i])
  }

  predicate Runs(s: State, acts: seq<Action>)
    requires WellFormed(s)
    decreases |acts|
  {
    acts == [] || (Enabled(s, acts[0]) && Runs(Do(s, acts[0]), acts[1..]))
  }

  function After(s: State, acts: seq<Action>): (s': State)
    requires WellFormed(s) && Runs(s, acts)
    ensures WellFormed(s')
    decreases |acts|
  {
    if acts == [] then s else After(Do(s, acts[0]), acts[1..])
  }

  // ---------------------------------------------------------------- ownership

  predicate Owns(s: State, t: nat, i: nat) { t < |s.threads| && s.threads[t] == Thread(i, true) }

  ghost predicate Inv(s: State) {
    && WellFormed(s)
    && (forall i :: 0 <= i < MAX_LISTENERS ==> s.flags[i] == 0 || s.flags[i] == 1)
    && (forall t: nat :: t < |s.threads| ==> s.threads[t].slot < MAX_LISTENERS)
    && (forall t: nat :: t < |s.threads| && s.threads[t].running ==>
          s.flags[s.threads[t].slot] == 1 && s.handles[s.threads[t].slot] == t)
    && (forall i: nat :: i < MAX_LISTENERS && s.flags[i] == 1 && s.acceptor != Create(i) ==> Owns(s, s.handles[i], i))
    && match s.acceptor
       case Scan(i, busy) => i <= MAX_LISTENERS && |busy| == i
       case Claim(i) => i < MAX_LISTENERS && s.flags[i] == 0
       case Create(i) =>
         i < MAX_LISTENERS && s.flags[i] == 1 && forall t: nat :: !Owns(s, t, i)
       case Refused(busy) => |busy| == MAX_LISTENERS
       case _ => true
  }

  lemma CreateKeepsInv(s: State)
    requires Inv(s) && Enabled(s, CreateThread)
    ensures Inv(Do(s, CreateThread))
  {
    var i := s.acceptor.i;
    forall t: nat | t < |s.threads| && s.threads[t].running ensures s.threads[t].slot != i {
      assert s.threads[t].slot == i ==> Owns(s, t, i);
    }
  }

  lemma EndKeepsInv(s: State, t: nat)
    requires Inv(s) && Enabled(s, EndThread(t))
    ensures Inv(Do(s, EndThread(t)))
  {
    assert Owns(s, t, s.threads[t].slot);
    var s' := Do(s, EndThread(t));
    forall i: nat, u: nat | Owns(s', u, i) ensures Owns(s, u, i) {}
  }

  lemma InvStep(s: State, a: Action)
    requires Inv(s) && Enabled(s, a)
    ensures Inv(Do(s, a))
  {
    match a {
      case CreateThread => CreateKeepsInv(s);
      case EndThread(t) => EndKeepsInv(s, t);
      case _ =>
        assert Do(s, a).threads == s.threads;
        forall i: nat, u: nat | Owns(Do(s, a), u, i) ensures Owns(s, u, i) {}
    }
  }

  lemma {:induction false} InvRuns(s: State, acts: seq<Action>)
    requires Inv(s) && Runs(s, acts)
    ensures Inv(After(s, acts))
    decreases |acts|
  {
    if acts != [] {
      InvStep(s, acts[0]);
      InvRuns(Do(s, acts[0]), acts[1..]);
    }
  }

  /** In every interleaving, apart from the moment between setting a flag and creating its thread,
      a flag is set exactly when one running thread owns the slot; no slot ever has two owners. */
  lemma FlagMeansOneOwner(acts: seq<Action>, i: nat)
    requires Runs(Init(), acts) && i < MAX_LISTENERS
    ensures
      var s := After(Init(), acts);
      && (forall t: nat, u: nat :: Owns(s, t, i) && Owns(s, u, i) ==> t == u)
      && (s.acceptor != Create(i) ==> (s.flags[i] == 1 <==> exists t: nat :: Owns(s, t, i)))
      && (s.flags[i] == 0 || s.flags[i] == 1)
      && (s.acceptor == Claim(i) ==> forall t: nat :: !Owns(s, t, i))
  {
    InvRuns(Init(), acts);
  }

  /** After `n` of the steps, the scan came by the next slot that `busy` has not got yet, and the
      thread that `busy` names for it owned the slot. */
  ghost predicate MetOwner(acts: seq<Action>, busy: seq<nat>, j: nat, n: nat)
    requires j < |busy| && n < |acts|
  {
    && Runs(Init(), acts[..n]) && After(Init(), acts[..n]).acceptor == Scan(j, busy[..j])
    && Owns(After(Init(), acts[..n]), busy[j], j)
  }

  ghost predicate OwnerMet(acts: seq<Action>, busy: seq<nat>, j: nat)
    requires j < |busy|
  {
    exists n: nat :: n < |acts| && MetOwner(acts, busy, j, n)
  }

  ghost predicate MetOwners(acts: seq<Action>, busy: seq<nat>) {
    forall j: nat :: j < |busy| ==> OwnerMet(acts, busy, j)
  }

  lemma {:induction false} LastStep(s: State, acts: seq<Action>)
    requires WellFormed(s) && Runs(s, acts) && acts != []
    ensures
      var n := |acts| - 1;
      Runs(s, acts[..n]) && Enabled(After(s, acts[..n]), acts[n]) && After(s, acts) == Do(After(s, acts[..n]), acts[n])
    decreases |acts|
  {
    if |acts| > 1 {
      var n := |acts| - 1;
      LastStep(Do(s, acts[0]), acts[1..]);
      assert acts[1..][..n - 1] == acts[..n][1..];
    }
  }

  lemma StillMet(acts: seq<Action>, more: seq<Action>, busy: seq<nat>)
    requires MetOwners(acts, busy) && acts <= more
    ensures MetOwners(more, busy)
  {
    forall j: nat | j < |busy| ensures OwnerMet(more, busy, j) {
      assert OwnerMet(acts, busy, j);
      var n: nat :| n < |acts| && MetOwner(acts, busy, j, n);
      assert more[..n] == acts[..n];
      assert MetOwner(more, busy, j, n);
    }
  }

  lemma {:induction false} ScanMetOwners(acts: seq<Action>)
    requires Runs(Init(), acts)
    ensures
      var acc := After(Init(), acts).acceptor;
      acc.Scan? || acc.Refused? ==> MetOwners(acts, acc.busy)
    decreases |acts|
  {
    if acts != [] {
      var n := |acts| - 1;
      LastStep(Init(), acts);
      ScanMetOwners(acts[..n]);
      var s, s' := After(Init(), acts[..n]), After(Init(), acts);
      if s.acceptor.Scan? || s.acceptor.Refused? { StillMet(acts[..n], acts, s.acceptor.busy); }
      if acts[n] == Look && s'.acceptor.Scan? {
        InvRuns(Init(), acts[..n]);
        OneMoreMet(acts, s.acceptor.busy, s'.acceptor.busy);
      }
    }
  }

  lemma OneMoreMet(acts: seq<Action>, before: seq<nat>, busy: seq<nat>)
    requires acts != [] && busy != [] && before == busy[..|busy| - 1]
    requires MetOwners(acts, before) && MetOwner(acts, busy, |busy| - 1, |acts| - 1)
    ensures MetOwners(acts, busy)
  {
    forall j: nat | j < |busy| ensures OwnerMet(acts, busy, j) {
      if j < |before| {
        assert OwnerMet(acts, before, j);
        var n: nat :| n < |acts| && MetOwner(acts, before, j, n);
        assert before[..j] == busy[..j];
        assert MetOwner(acts, busy, j, n);
      }
    }
  }

  /** A connection is refused only if every slot was occupied when the scan came by: for each slot
      there was a moment at which the scan stood before it and the thread recorded owned it. */
  lemma RefusedOnlyWhenBusy(acts: seq<Action>)
    requires Runs(Init(), acts) && After(Init(), acts).acceptor.Refused?
    ensures
      var busy := After(Init(), acts).acceptor.busy;
      && |busy| == MAX_LISTENERS
      && forall j: nat :: j < MAX_LISTENERS ==> OwnerMet(acts, busy, j)
  {
    InvRuns(Init(), acts);
    ScanMetOwners(acts);
  }

  /** What the scan records about a slot it passes: the thread that owns it at that moment. */
  lemma PassedSlotIsOwned(acts: seq<Action>)
    requires Runs(Init(), acts) && Enabled(After(Init(), acts), Look)
    ensures
      var s := After(Init(), acts);
      var s' := Do(s, Look);
      if s'.acceptor.Scan? then Owns(s, s'.acceptor.busy[|s'.acceptor.busy| - 1], s.acceptor.i)
      else s'.acceptor == Claim(s.acceptor.i) && forall t: nat :: !Owns(s, t, s.acceptor.i)
  {
    InvRuns(Init(), acts);
  }

  /** Shutting down cancels the current owners, all of them and nobody else. */
  lemma ShutdownCancelsOwners(acts: seq<Action>, t: nat)
    requires Runs(Init(), acts) && Enabled(After(Init(), acts), Shutdown)
    ensures
      var s := After(Init(), acts);
      t in Do(s, Shutdown).cancelled <==> exists i: nat :: Owns(s, t, i)
  {
    InvRuns(Init(), acts);
    var s := After(Init(), acts);
    if t in Do(s, Shutdown).cancelled {
      var i: nat :| i < MAX_LISTENERS && s.flags[i] != 0 && s.handles[i] == t;
      assert Owns(s, t, i);
    }
  }

  /** A thread that ends gives its slot back and touches no other. */
  lemma EndGivesSlotBack(acts: seq<Action>, t: nat)
    requires Runs(Init(), acts) && Enabled(After(Init(), acts), EndThread(t))
    ensures
      var s := After(Init(), acts);
      var s' := Do(s, EndThread(t));
      var i := s.threads[t].slot;
      && s.flags[i] == 1 && s'.flags == s.flags[i := 0]
      && (forall u: nat :: !Owns(s', u, i))
      && forall j: nat, u: nat :: j != i ==> (Owns(s', u, j) <==> Owns(s, u, j))
  {
    InvRuns(Init(), acts);
    var s := After(Init(), acts);
    assert Owns(s, t, s.threads[t].slot);
  }

  // ---------------------------------------------------------------- the accept loop alone

  predicate OfAcceptor(acts: seq<Action>) {
    forall a :: a in acts ==> a == Connect || a == Look || a == SetFlag || a == CreateThread || a == Refuse
  }

  lemma Cons(s: State, a: Action, more: seq<Action>)
    requires WellFormed(s) && Enabled(s, a) && Runs(Do(s, a), more)
    ensures Runs(s, [a] + more) && After(s, [a] + more) == After(Do(s, a), more)
  {
    assert ([a] + more)[1..] == more;
  }

  /** The state after a connection: the lowest free slot is taken, or nothing has changed. */
  ghost predicate Connected(s: State, s': State) {
    && WellFormed(s)
    && ((forall i :: 0 <= i < MAX_LISTENERS ==> s.flags[i] != 0) ==> s' == s)
    && forall i: nat ::
         i < MAX_LISTENERS && s.flags[i] == 0 && (forall j :: 0 <= j < i ==> s.flags[j] != 0) ==>
           s' == s.(flags := s.flags[i := 1], handles := s.handles[i := |s.threads|],
                    threads := s.threads + [Thread(i, true)])
  }

  /** Slots below `i` have been passed. */
  lemma {:induction false} ScanOn(s: State, i: nat, busy: seq<nat>) returns (more: seq<Action>)
    requires WellFormed(s) && i <= MAX_LISTENERS && s.acceptor == Scan(i, busy)
    requires forall j :: 0 <= j < i ==> s.flags[j] != 0
    ensures OfAcceptor(more) && Runs(s, more) && Connected(s.(acceptor := Idle), After(s, more))
    decreases MAX_LISTENERS - i
  {
    if i == MAX_LISTENERS {
      var refused := Do(s, Refuse);
      Cons(refused, Refuse, []);
      Cons(s, Refuse, [Refuse] + []);
      more := [Refuse] + ([Refuse] + []);
    } else if s.flags[i] != 0 {
      more := ScanOn(Do(s, Look), i + 1, busy + [s.handles[i]]);
      Cons(s, Look, more);
      more := [Look] + more;
    } else {
      var claimed := Do(s, Look);
      var flagged := Do(claimed, SetFlag);
      Cons(flagged, CreateThread, []);
      Cons(claimed, SetFlag, [CreateThread] + []);
      Cons(s, Look, [SetFlag] + ([CreateThread] + []));
      more := [Look] + ([SetFlag] + ([CreateThread] + []));
    }
  }

  /** A connection that arrives in any reachable state, with no thread ending meanwhile, is given
      the lowest free slot; it is refused exactly if there is none, and then nothing changes. */
  lemma ConnectionIsServed(acts: seq<Action>) returns (more: seq<Action>)
    requires Runs(Init(), acts) && After(Init(), acts).acceptor == Idle
    ensures OfAcceptor(more) && Runs(After(Init(), acts), [Connect] + more)
    ensures
      var s := After(Init(), acts);
      var s' := After(s, [Connect] + more);
      && ((forall i :: 0 <= i < 8 ==> s.flags[i] != 0) ==> s' == s)
      && forall i: nat ::
           i < 8 && s.flags[i] == 0 && (forall j :: 0 <= j < i ==> s.flags[j] != 0) ==>
             s' == s.(flags := s.flags[i := 1], handles := s.handles[i := |s.threads|],
                      threads := s.threads + [Thread(i, true)])
  {
    var s := After(Init(), acts);
    more := ScanOn(Do(s, Connect), 0, []);
    Cons(s, Connect, more);
    assert Do(s, Connect).(acceptor := Idle) == s;
  }
}
