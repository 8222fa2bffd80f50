/** The sender of `Forwarding`, which has events and a stream, performs a thread of `Senders`,
    which has the mutex and the rest of the daemon. What is proved of all threads holds of it. */
module SenderRefinement {
  import Forwarding
  import Senders
  import SingleSender

  /** Where the thread is. Reading an event is no step of the thread. */
  function ThreadPc(pc: Forwarding.SenderPc): Senders.Pc {
    match pc
    case Poll => Senders.Pc.Poll
    case Visit(i, _) => Senders.Pc.Visit(i)
    case Holding(i, _, _) => Senders.Pc.Visit(i)
    case Check(failed) => Senders.Pc.Check(failed)
    case Stopped => Senders.Gone
  }

  /** Thread `t` of the daemon `d`, whose mutex is free, is the sender of the connection `s`. */
  ghost predicate Performs(d: Senders.State, t: nat, s: Forwarding.State) {
    && SingleSender.Idle(d) && d.k == |s.unread| && d.sending == s.sending
    && t < |d.threads| && d.threads[t] == Senders.Thread(ThreadPc(s.sender), |s.sent|)
  }

  // ---------------------------------------------------------------- runs of threads

  /** Thread steps lead from `d` to `d'`. */
  ghost predicate Leads(d: Senders.State, acts: seq<Senders.Action>, d': Senders.State) {
    Senders.Runs(d, acts) && Senders.After(d, acts) == d' && forall a :: a in acts ==> !a.MainStep?
  }

  lemma Single(d: Senders.State, a: Senders.Action)
    requires Senders.Enabled(d, a) && !a.MainStep?
    ensures Leads(d, [a], Senders.Do(d, a))
  {
    assert [a][1..] == [];
  }

  lemma {:induction false} Joined(
    d: Senders.State, acts: seq<Senders.Action>, d1: Senders.State, more: seq<Senders.Action>, d2: Senders.State)
    requires Leads(d, acts, d1) && Leads(d1, more, d2)
    ensures Leads(d, acts + more, d2)
    decreases |acts|
  {
    if acts == [] {
      assert acts + more == more;
    } else {
      assert (acts + more)[1..] == acts[1..] + more;
      Joined(Senders.Do(d, acts[0]), acts[1..], d1, more, d2);
    }
  }

  lemma {:induction false} FlagStaysClear(d: Senders.State, acts: seq<Senders.Action>, d': Senders.State)
    requires Leads(d, acts, d') && !d.sending
    ensures Senders.StaysClear(d, acts)
    decreases |acts|
  {
    if acts != [] { FlagStaysClear(Senders.Do(d, acts[0]), acts[1..], d'); }
  }

  lemma {:induction false} StaysReachable(k: nat, d: Senders.State, acts: seq<Senders.Action>)
    requires Senders.Reachable(k, d) && Senders.Runs(d, acts)
    ensures Senders.Reachable(k, Senders.After(d, acts))
    decreases |acts|
  {
    if acts != [] {
      var next := Senders.Extend(k, d, acts[0]);
      StaysReachable(k, next, acts[1..]);
    }
  }

  // ---------------------------------------------------------------- one step

  predicate KeepsFlag(s: Forwarding.State, a: Forwarding.Action) { a.SetFlag? ==> a.value == s.sending }

  /** A look at the flag: lock, read, unlock, and back to the poll if it is set. */
  lemma LookPerformed(d: Senders.State, t: nat, s: Forwarding.State)
    returns (acts: seq<Senders.Action>, d': Senders.State)
    requires Performs(d, t, s) && s.sender.Check?
    ensures Leads(d, acts, d') && Performs(d', t, Forwarding.Do(s, Forwarding.CheckFlag))
  {
    var go := Senders.Go(t);
    acts, d' := [], d;
    acts, d' := Then(d, acts, d', go);
    acts, d' := Then(d, acts, d', go);
    if !d'.threads[t].pc.Gone? {
      acts, d' := Then(d, acts, d', go);
      acts, d' := Then(d, acts, d', go);
    }
  }

  lemma Then(d: Senders.State, acts: seq<Senders.Action>, d1: Senders.State, a: Senders.Action)
    returns (acts': seq<Senders.Action>, d': Senders.State)
    requires Leads(d, acts, d1) && Senders.Enabled(d1, a) && !a.MainStep?
    ensures Leads(d, acts', d') && d' == Senders.Do(d1, a)
  {
    Single(d1, a);
    acts', d' := acts + [a], Senders.Do(d1, a);
    Joined(d, acts, d1, [a], d');
  }

  /** What the thread does for a step of the connection, if that is not a look at the flag. */
  function Mirrored(a: Forwarding.Action, t: nat): seq<Senders.Action> {
    match a
    case PollOk(_) => [Senders.Go(t)]
    case Send => [Senders.Go(t)]
    case EndRound => [Senders.Go(t)]
    case Pass => [Senders.Skip(t)]
    case PollFails => [Senders.Fail(t)]
    case ReadFails => [Senders.Fail(t)]
    case SendFails => [Senders.Fail(t)]
    case _ => []
  }

  lemma StepPerformed(d: Senders.State, t: nat, s: Forwarding.State, a: Forwarding.Action)
    returns (acts: seq<Senders.Action>, d': Senders.State)
    requires Performs(d, t, s) && Forwarding.Shape(d.k, s) && Forwarding.Enabled(s, a) && KeepsFlag(s, a)
    ensures Leads(d, acts, d') && Performs(d', t, Forwarding.Do(s, a))
  {
    acts := Mirrored(a, t);
    if a.CheckFlag? {
      acts, d' := LookPerformed(d, t, s);
    } else if acts == [] {
      d' := d;
    } else {
      Single(d, acts[0]);
      d' := Senders.Do(d, acts[0]);
    }
  }

  // ---------------------------------------------------------------- whole runs

  /** While the flag stays clear, the thread follows any run of the connection. */
  lemma {:induction false} ClearRunPerformed(d: Senders.State, t: nat, s: Forwarding.State, run: seq<Forwarding.Action>)
    returns (acts: seq<Senders.Action>, d': Senders.State)
    requires Performs(d, t, s) && Forwarding.Shape(d.k, s) && Forwarding.Runs(s, run)
    requires !s.sending && Forwarding.SetFlag(true) !in run
    ensures Leads(d, acts, d') && Performs(d', t, Forwarding.After(s, run))
    decreases |run|
  {
    acts, d' := [], d;
    if run != [] {
      Forwarding.ShapeStep(d.k, s, run[0]);
      var first, d1 := StepPerformed(d, t, s, run[0]);
      var more;
      more, d' := ClearRunPerformed(d1, t, Forwarding.Do(s, run[0]), run[1..]);
      Joined(d, first, d1, more, d');
      acts := first + more;
    }
  }

  /** While the flag is clear, the sender of a connection finishes at most the round it is in, or
      one more: the bound that `Senders.StopDrains` gives for every thread. */
  lemma ClearFlagStops(k: nat, s: Forwarding.State, run: seq<Forwarding.Action>)
    requires Forwarding.Shape(k, s) && Forwarding.Runs(s, run)
    requires !s.sending && Forwarding.SetFlag(true) !in run
    ensures
      var s' := Forwarding.After(s, run);
      |s'.sent| + Senders.Room(k, ThreadPc(s'.sender)) <= |s.sent| + Senders.Room(k, ThreadPc(s.sender)) <= |s.sent| + k
  {
    var d := Senders.Init(k).(threads := [Senders.Thread(ThreadPc(s.sender), |s.sent|)]);
    var acts, d' := ClearRunPerformed(d, 0, s, run);
    FlagStaysClear(d, acts, d');
    Senders.StopDrains(d, acts, 0);
  }

  /** START and STOP from outside make the daemon follow the flag. */
  lemma FlagFollowed(k: nat, d: Senders.State, t: nat, s: Forwarding.State, value: bool) returns (d': Senders.State)
    requires Senders.Reachable(k, d) && Performs(d, t, s) && value != s.sending
    ensures Senders.Reachable(k, d') && Performs(d', t, Forwarding.Do(s, Forwarding.SetFlag(value)))
  {
    if value { d' := SingleSender.StartFrom(k, d); } else { d' := SingleSender.StopFrom(k, d); }
  }

  /** A critical section of the only thread on its way into the loop. */
  lemma Locked(k: nat, d: Senders.State, next: Senders.Pc) returns (d': Senders.State)
    requires Senders.Reachable(k, d) && |d.threads| == 1 && d.owner == Senders.Nobody
    requires
      var pc := d.threads[0].pc;
      && (pc.Connect? || pc.Open? || pc.Top?)
      && next == if pc.Connect? then Senders.Open else if pc.Open? then Senders.Announce else Senders.Pc.Poll
    ensures Senders.Reachable(k, d') && d' == d.(threads := [d.threads[0].(pc := next)])
  {
    d' := Senders.Extend(k, d, Senders.Go(0));
    d' := Senders.Extend(k, d', Senders.Go(0));
  }

  /** The first sender of a daemon that is started, when it enters its loop. */
  lemma FirstSender(k: nat) returns (d: Senders.State)
    ensures Senders.Reachable(k, d) && Performs(d, 0, Forwarding.Init(k))
  {
    d := Senders.Init(k);
    assert Senders.Reachable(k, d) by { assert Senders.Runs(d, []) && Senders.After(d, []) == d; }
    d := SingleSender.StartFrom(k, d);
    d := Locked(k, d, Senders.Open);
    d := Locked(k, d, Senders.Announce);
    d := Senders.Extend(k, d, Senders.Go(0));
    d := Locked(k, d, Senders.Pc.Poll);
  }

  lemma {:induction false} RunPerformed(
    k: nat, d: Senders.State, t: nat, s: Forwarding.State, run: seq<Forwarding.Action>)
    returns (d': Senders.State)
    requires Senders.Reachable(k, d) && Performs(d, t, s) && d.k == k
    requires Forwarding.Shape(k, s) && Forwarding.Runs(s, run)
    ensures Senders.Reachable(k, d') && Performs(d', t, Forwarding.After(s, run))
    decreases |run|
  {
    d' := d;
    if run != [] {
      Forwarding.ShapeStep(k, s, run[0]);
      if KeepsFlag(s, run[0]) {
        var acts;
        acts, d' := StepPerformed(d, t, s, run[0]);
        StaysReachable(k, d, acts);
      } else {
        d' := FlagFollowed(k, d, t, s, run[0].value);
      }
      d' := RunPerformed(k, d', t, Forwarding.Do(s, run[0]), run[1..]);
    }
  }

  /** Every run of a connection, with any events, failures and changes of the flag, is a run of
      the daemon in which the first sender thread has come to the same place and sent as much. */
  lemma ConnectionIsSenderThread(k: nat, run: seq<Forwarding.Action>) returns (acts: seq<Senders.Action>)
    requires Forwarding.Runs(Forwarding.Init(k), run)
    ensures Senders.Runs(Senders.Init(k), acts)
    ensures Performs(Senders.After(Senders.Init(k), acts), 0, Forwarding.After(Forwarding.Init(k), run))
  {
    var d := FirstSender(k);
    d := RunPerformed(k, d, 0, Forwarding.Init(k), run);
    acts :| Senders.Runs(Senders.Init(k), acts) && Senders.After(Senders.Init(k), acts) == d;
  }
}
