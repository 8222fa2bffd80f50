/** That events do arrive: what the listener does with a packet, and that every event a device has
    produced can still be brought to its virtual device. */
module Delivery {
  import opened Sequences
  import opened Forwarding

  // ---------------------------------------------------------------- runs put together

  /** The steps `acts` lead from `s` to `s'`. */
  ghost predicate Leads(s: State, acts: seq<Action>, s': State) { Runs(s, acts) && After(s, acts) == s' }

  lemma {:induction false} Joined(s: State, acts: seq<Action>, s1: State, more: seq<Action>, s2: State)
    requires Leads(s, acts, s1) && Leads(s1, more, s2)
    ensures Leads(s, acts + more, s2)
    decreases |acts|
  {
    if acts == [] {
      assert acts + more == more;
    } else {
      assert (acts + more)[1..] == acts[1..] + more;
      Joined(Do(s, acts[0]), acts[1..], s1, more, s2);
    }
  }

  lemma OneStep(s: State, a: Action)
    requires Enabled(s, a)
    ensures Leads(s, [a], Do(s, a))
  {
    assert [a][1..] == [];
  }

  /** `s` moved on by `a` and then by `more`. */
  lemma Cons(s: State, a: Action, more: seq<Action>, s': State)
    requires Enabled(s, a) && Leads(Do(s, a), more, s')
    ensures Leads(s, [a] + more, s')
  {
    assert ([a] + more)[1..] == more;
  }

  // ---------------------------------------------------------------- the listener

  predicate OfListener(acts: seq<Action>) { forall a :: a in acts ==> a == Receive || a == Write }

  /** In every reachable state, a waiting listener takes the oldest packet from the stream and
      appends its event to the virtual device that it names, and nothing else changes. */
  lemma PacketIsWritten(k: nat, acts: seq<Action>)
    requires Runs(Init(k), acts)
    requires After(Init(k), acts).listener.Waiting? && After(Init(k), acts).channel != []
    ensures
      var s := After(Init(k), acts);
      var p := s.channel[0];
      && 0 <= p.devId < k == |s.written|
      && Enabled(s, Receive) && Enabled(Do(s, Receive), Write)
      && Do(Do(s, Receive), Write) ==
           s.(channel := s.channel[1..], written := s.written[p.devId := s.written[p.devId] + [p.event]])
  {
    ReachableInv(k, acts);
    var s := After(Init(k), acts);
    assert s.channel[0] in s.channel;
  }

  lemma OnlyFirst(p: Packet, rest: seq<Packet>, i: int)
    ensures Only([p] + rest, i) == (if p.devId == i then [p.event] else []) + Only(rest, i)
  {
    assert ([p] + rest)[1..] == rest;
  }

  /** Everything on its way to the listener can be written by steps of the listener alone. */
  lemma {:induction false} Drain(k: nat, s: State) returns (more: seq<Action>, s': State)
    requires Shape(k, s)
    ensures OfListener(more) && Leads(s, more, s') && Shape(k, s')
    ensures s' == s.(channel := [], listener := Waiting, written := s'.written)
    ensures forall i :: 0 <= i < k ==> s'.written[i] == s.written[i] + Only(AtListener(s) + s.channel, i)
    decreases |s.channel|, if s.listener.Writing? then 1 else 0
  {
    if s.listener.Waiting? && s.channel == [] {
      assert AtListener(s) + s.channel == [];
      return [], s;
    }
    var a := if s.listener.Writing? then Write else Receive;
    var next := Do(s, a);
    assert s.channel != [] ==> s.channel[0] in s.channel;
    ShapeStep(k, s, a);
    more, s' := Drain(k, next);
    Cons(s, a, more, s');
    more := [a] + more;
    forall i | 0 <= i < k ensures s'.written[i] == s.written[i] + Only(AtListener(s) + s.channel, i) {
      OneLess(k, s, a, i);
    }
  }

  lemma OneLess(k: nat, s: State, a: Action, i: nat)
    requires Shape(k, s) && Enabled(s, a) && (a == Write || a == Receive) && i < k
    ensures |Do(s, a).written| == k
    ensures
      var next := Do(s, a);
      next.written[i] + Only(AtListener(next) + next.channel, i) == s.written[i] + Only(AtListener(s) + s.channel, i)
  {
    if a == Write {
      var p := s.listener.packet;
      assert AtListener(s) == [p] && AtListener(Do(s, a)) + s.channel == s.channel;
      OnlyFirst(p, s.channel, i);
      WriteMoves(s.written[i], p, Only(s.channel, i), i);
    } else {
      assert AtListener(s) + s.channel == s.channel == [s.channel[0]] + s.channel[1..];
    }
  }

  lemma WriteMoves(done: seq<Event>, p: Packet, left: seq<Event>, i: nat)
    ensures
      (if p.devId == i then done + [p.event] else done) + left ==
      done + ((if p.devId == i then [p.event] else []) + left)
  {
    Regroup(done, [p.event], left);
  }

  /** Every reachable state has a continuation of listener steps only that empties the stream and
      the listener: each virtual device receives all events that the packets on their way name. */
  lemma StreamCanDrain(k: nat, acts: seq<Action>) returns (more: seq<Action>)
    requires Runs(Init(k), acts)
    ensures OfListener(more) && Runs(After(Init(k), acts), more)
    ensures
      var s := After(Init(k), acts);
      var s' := After(s, more);
      && s' == s.(channel := [], listener := Waiting, written := s'.written)
      && |s'.written| == |s.written| == k
      && forall i :: 0 <= i < k ==> s'.written[i] == s.written[i] + Only(AtListener(s) + s.channel, i)
  {
    ReachableInv(k, acts);
    var s';
    more, s' := Drain(k, After(Init(k), acts));
  }

  // ---------------------------------------------------------------- the sender

  /** Steps of the sender and the listener in which nothing fails. */
  predicate Smooth(acts: seq<Action>) {
    forall a :: a in acts ==>
      a.PollOk? || a.Pass? || a.Read? || a.Send? || a.EndRound? || a.CheckFlag? || a.Receive? || a.Write?
  }

  /** What is unread when the ready devices from `i` on have been read. */
  function LeftFrom(unread: seq<seq<Event>>, ready: seq<bool>, i: nat): seq<seq<Event>>
    requires |ready| == |unread|
  {
    seq(|unread|, j requires 0 <= j < |unread| =>
      if i <= j && ready[j] && unread[j] != [] then unread[j][1..] else unread[j])
  }

  /** The state `s'` has the same events in it as `s`, and the sender goes on. */
  ghost predicate GoesOn(k: nat, s: State, s': State) {
    Shape(k, s') && s'.sending && s'.produced == s.produced
  }

  /** One device: nothing to do, or read and send. */
  lemma VisitOne(k: nat, s: State) returns (acts: seq<Action>, s': State)
    requires Shape(k, s) && s.sending && s.sender.Visit? && s.sender.i < k
    ensures Smooth(acts) && Leads(s, acts, s') && GoesOn(k, s, s')
    ensures s'.sender == Visit(s.sender.i + 1, s.sender.ready)
    ensures LeftFrom(s'.unread, s.sender.ready, s.sender.i + 1) == LeftFrom(s.unread, s.sender.ready, s.sender.i)
  {
    var i, ready := s.sender.i, s.sender.ready;
    if ready[i] {
      assert Enabled(s, Read);
      var held := Do(s, Read);
      ShapeStep(k, s, Read);
      ShapeStep(k, held, Send);
      s' := Do(held, Send);
      OneStep(held, Send);
      Cons(s, Read, [Send], s');
      acts := [Read] + [Send];
    } else {
      ShapeStep(k, s, Pass);
      s' := Do(s, Pass);
      OneStep(s, Pass);
      acts := [Pass];
    }
  }

  /** The rest of a round, the look at the flag, and back to the poll. */
  lemma {:induction false} FinishRound(k: nat, s: State) returns (acts: seq<Action>, s': State)
    requires Shape(k, s) && s.sending && s.sender.Visit?
    ensures Smooth(acts) && Leads(s, acts, s') && GoesOn(k, s, s')
    ensures s'.sender == Poll && s'.unread == LeftFrom(s.unread, s.sender.ready, s.sender.i)
    decreases k - s.sender.i
  {
    if s.sender.i < k {
      var first, s1 := VisitOne(k, s);
      acts, s' := FinishRound(k, s1);
      Joined(s, first, s1, acts, s');
      acts := first + acts;
    } else {
      ShapeStep(k, s, EndRound);
      var s1 := Do(s, EndRound);
      acts, s' := BackToPoll(k, s1);
      Cons(s, EndRound, acts, s');
      acts := [EndRound] + acts;
      assert LeftFrom(s.unread, s.sender.ready, k) == s.unread;
    }
  }

  lemma BackToPoll(k: nat, s: State) returns (acts: seq<Action>, s': State)
    requires Shape(k, s) && s.sending && s.sender == Check(false)
    ensures Smooth(acts) && Leads(s, acts, s') && GoesOn(k, s, s')
    ensures s'.sender == Poll && s'.unread == s.unread
  {
    ShapeStep(k, s, CheckFlag);
    s' := Do(s, CheckFlag);
    OneStep(s, CheckFlag);
    acts := [CheckFlag];
  }

  /** From wherever the sender is, unless it has failed or stopped, it can come to its poll. */
  lemma ToPoll(k: nat, s: State) returns (acts: seq<Action>, s': State)
    requires Shape(k, s) && s.sending && s.sender != Stopped && s.sender != Check(true)
    ensures Smooth(acts) && Leads(s, acts, s') && GoesOn(k, s, s') && s'.sender == Poll
  {
    if s.sender == Poll {
      acts, s' := [], s;
    } else if s.sender.Check? {
      acts, s' := BackToPoll(k, s);
    } else if s.sender.Visit? {
      acts, s' := FinishRound(k, s);
    } else {
      ShapeStep(k, s, Send);
      acts, s' := FinishRound(k, Do(s, Send));
      Cons(s, Send, acts, s');
      acts := [Send] + acts;
    }
  }

  /** Round after round, at most `n` events a device, until nothing is left to read. */
  lemma {:induction false} ReadAll(k: nat, s: State, n: nat) returns (acts: seq<Action>, s': State)
    requires Shape(k, s) && s.sending && s.sender == Poll && forall i :: 0 <= i < k ==> |s.unread[i]| <= n
    ensures Smooth(acts) && Leads(s, acts, s') && GoesOn(k, s, s')
    ensures s'.sender == Poll && forall i :: 0 <= i < k ==> s'.unread[i] == []
    decreases n
  {
    if n == 0 { return [], s; }
    var ready := seq(k, i requires 0 <= i < k => s.unread[i] != []);
    ShapeStep(k, s, PollOk(ready));
    var polled := Do(s, PollOk(ready));
    var round, s1 := FinishRound(k, polled);
    Cons(s, PollOk(ready), round, s1);
    acts, s' := ReadAll(k, s1, n - 1);
    Joined(s, [PollOk(ready)] + round, s1, acts, s');
    acts := [PollOk(ready)] + round + acts;
  }

  function Longest(unread: seq<seq<Event>>): (n: nat)
    ensures forall i :: 0 <= i < |unread| ==> |unread[i]| <= n
  {
    if unread == [] then 0
    else
      var m := Longest(unread[1..]);
      assert forall i :: 0 < i < |unread| ==> unread[i] == unread[1..][i - 1];
      if |unread[0]| > m then |unread[0]| else m
  }

  // ---------------------------------------------------------------- everything arrives

  lemma AllTheWay(k: nat, s: State) returns (acts: seq<Action>, s': State)
    requires Shape(k, s) && s.sending && s.sender != Stopped && s.sender != Check(true)
    ensures Smooth(acts) && Leads(s, acts, s') && Shape(k, s') && s'.produced == s.produced
    ensures s'.sender == Poll && s'.channel == [] && s'.listener.Waiting?
    ensures forall i :: 0 <= i < k ==> s'.unread[i] == []
  {
    var first, s1 := ToPoll(k, s);
    var second, s2 := ReadAll(k, s1, Longest(s1.unread));
    var third;
    third, s' := Drain(k, s2);
    Joined(s, first, s1, second, s2);
    Joined(s, first + second, s2, third, s');
    acts := first + second + third;
  }

  /** In every reachable state with the flag set, unless the sender has failed, the sender and the
      listener can go on, with no failure and no change of the flag, until every virtual device
      shows everything that its device has produced. */
  lemma EverythingArrives(k: nat, acts: seq<Action>) returns (more: seq<Action>)
    requires Runs(Init(k), acts)
    requires
      var s := After(Init(k), acts);
      s.sending && s.sender != Stopped && s.sender != Check(true)
    ensures Smooth(more) && Runs(After(Init(k), acts), more)
    ensures
      var s := After(Init(k), acts);
      var s' := After(s, more);
      s'.produced == s.produced && s'.written == s.produced
  {
    ReachableInv(k, acts);
    var s := After(Init(k), acts);
    var s';
    more, s' := AllTheWay(k, s);
    Joined(Init(k), acts, s, more, s');
    forall i | 0 <= i < k ensures s'.written[i] == s'.produced[i] {
      Conservation(k, acts + more, i);
      assert InTransit(s') == [];
    }
  }

  /** So an event that a device produces now can be brought to its virtual device, after all that
      the device produced before. */
  lemma EventArrives(k: nat, acts: seq<Action>, dev: nat, event: Event) returns (more: seq<Action>)
    requires Runs(Init(k), acts) && dev < k
    requires
      var s := After(Init(k), acts);
      s.sending && s.sender != Stopped && s.sender != Check(true)
    ensures Smooth(more) && Runs(After(Init(k), acts), [Produce(dev, event)] + more)
    ensures
      var s := After(Init(k), acts);
      && |s.produced| == k
      && After(s, [Produce(dev, event)] + more).written == s.produced[dev := s.produced[dev] + [event]]
  {
    ReachableInv(k, acts);
    var s, a := After(Init(k), acts), Produce(dev, event);
    AfterSnoc(Init(k), acts, a);
    more := EverythingArrives(k, acts + [a]);
    Cons(s, a, more, After(Do(s, a), more));
  }
}
