/** One forwarding connection as interleaved steps: the devices produce events, a sender thread
    multiplexes them round by round over one stream (src/util.c, src/server.c), a listener thread
    writes them to virtual devices, and the main thread sets and clears the `sending` flag. */
module Forwarding {
  import opened Sequences

  datatype Event = Event(kind: int, code: int, value: int)

  datatype Packet = Packet(devId: int, event: Event)

  /** Where the sender thread is in its loop. A round polls once and then visits every device. */
  datatype SenderPc =
    | Poll
    | Visit(i: nat, ready: seq<bool>)
    | Holding(i: nat, ready: seq<bool>, event: Event)   // read, not yet sent
    | Check(failed: bool)
    | Stopped

  datatype ListenerPc = Waiting | Writing(packet: Packet)

  datatype State = State(
    sending: bool,
    sender: SenderPc,
    produced: seq<seq<Event>>,    // history: all events of each device
    unread: seq<seq<Event>>,      // what the sender has still to read from each device
    channel: seq<Packet>,         // the stream between the daemons
    sent: seq<Packet>,            // history: everything put on the stream
    rounds: seq<seq<bool>>,       // history: poll results of the rounds finished without failure
    broken: seq<int>,             // history: devices served in a round that failed
    lost: seq<Packet>,            // history: events read but not sent
    listener: ListenerPc,
    written: seq<seq<Event>>)     // what each virtual device received

  datatype Action =
    | Produce(dev: nat, event: Event)
    | PollOk(ready: seq<bool>) | PollFails
    | Pass                        // a device that was not ready
    | Read | ReadFails
    | Send | SendFails
    | EndRound
    | CheckFlag
    | SetFlag(value: bool)
    | Receive | Write

  /** The indices below `i` of the devices that were ready. */
  function ReadyBelow(ready: seq<bool>, i: nat): seq<int>
    requires i <= |ready|
  {
    if i == 0 then [] else ReadyBelow(ready, i - 1) + if ready[i - 1] then [i - 1] else []
  }

  function RoundIds(rounds: seq<seq<bool>>): seq<int> {
    if rounds == [] then []
    else RoundIds(rounds[..|rounds| - 1]) + ReadyBelow(rounds[|rounds| - 1], |rounds[|rounds| - 1]|)
  }

  function Ids(ps: seq<Packet>): seq<int> { seq(|ps|, j requires 0 <= j < |ps| => ps[j].devId) }

  /** The device ids sent so far in the current round. */
  function CurrentIds(pc: SenderPc): seq<int> {
    match pc
    case Visit(i, ready) => if i <= |ready| then ReadyBelow(ready, i) else []
    case Holding(i, ready, _) => if i <= |ready| then ReadyBelow(ready, i) else []
    case _ => []
  }

  /** The connection of `k` devices when the sender enters its loop. */
  function Init(k: nat): State {
    var none := seq(k, _ => []);
    State(true, Poll, none, none, [], [], [], [], [], Waiting, none)
  }

  predicate Enabled(s: State, a: Action) {
    var k := |s.unread|;
    match a
    case Produce(dev, _) => dev < |s.produced| && dev < k
    case PollOk(ready) =>
      s.sender == Poll && |ready| == k && forall i :: 0 <= i < k && ready[i] ==> s.unread[i] != []
    case PollFails => s.sender == Poll
    case Pass => s.sender.Visit? && s.sender.i < k && s.sender.i < |s.sender.ready| && !s.sender.ready[s.sender.i]
    case Read =>
      && s.sender.Visit? && s.sender.i < k && s.sender.i < |s.sender.ready| && s.sender.ready[s.sender.i]
      && s.unread[s.sender.i] != []
    case ReadFails =>
      s.sender.Visit? && s.sender.i < k && s.sender.i < |s.sender.ready| && s.sender.ready[s.sender.i]
    case Send => s.sender.Holding?
    case SendFails => s.sender.Holding?
    case EndRound => s.sender.Visit? && s.sender.i == k
    case CheckFlag => s.sender.Check?
    case SetFlag(_) => true
    case Receive => s.listener.Waiting? && s.channel != []
    case Write => s.listener.Writing? && 0 <= s.listener.packet.devId < |s.written|
  }

  function Do(s: State, a: Action): State
    requires Enabled(s, a)
  {
    match a
    case Produce(dev, event) =>
      s.(produced := s.produced[dev := s.produced[dev] + [event]], unread := s.unread[dev := s.unread[dev] + [event]])
    case PollOk(ready) => s.(sender := Visit(0, ready))
    case PollFails => s.(sender := Check(true))
    case Pass => s.(sender := Visit(s.sender.i + 1, s.sender.ready))
    case Read =>
      var i := s.sender.i;
      s.(sender := Holding(i, s.sender.ready, s.unread[i][0]), unread := s.unread[i := s.unread[i][1..]])
    case ReadFails => s.(sender := Check(true), broken := CurrentIds(s.sender))
    case Send =>
      var p := Packet(s.sender.i, s.sender.event);
      s.(sender := Visit(s.sender.i + 1, s.sender.ready), channel := s.channel + [p], sent := s.sent + [p])
    case SendFails =>
      s.(sender := Check(true), broken := CurrentIds(s.sender),
         lost := s.lost + [Packet(s.sender.i, s.sender.event)])
    case EndRound => s.(sender := Check(false), rounds := s.rounds + [s.sender.ready])
    case CheckFlag => s.(sender := if s.sender.failed || !s.sending then Stopped else Poll)
    case SetFlag(value) => s.(sending := value)
    case Receive => s.(listener := Writing(s.channel[0]), channel := s.channel[1..])
    case Write =>
      var p := s.listener.packet;
      s.(listener := Waiting, written := s.written[p.devId := s.written[p.devId] + [p.event]])
  }

  /** `acts` can be performed one after the other from `s`. */
  predicate Runs(s: State, acts: seq<Action>)
    decreases |acts|
  {
    acts == [] || (Enabled(s, acts[0]) && Runs(Do(s, acts[0]), acts[1..]))
  }

  function After(s: State, acts: seq<Action>): State
    requires Runs(s, acts)
    decreases |acts|
  {
    if acts == [] then s else After(Do(s, acts[0]), acts[1..])
  }

  // ---------------------------------------------------------------- conservation

  /** The events of device `i` in a stream of packets. */
  function Only(ps: seq<Packet>, i: int): seq<Event> {
    if ps == [] then []
    else (if ps[0].devId == i then [ps[0].event] else []) + Only(ps[1..], i)
  }

  function AtListener(s: State): seq<Packet> { if s.listener.Writing? then [s.listener.packet] else [] }

  function AtSender(s: State): seq<Packet> {
    if s.sender.Holding? then [Packet(s.sender.i, s.sender.event)] else []
  }

  /** All packets between the devices and the virtual devices, from the oldest to the newest. */
  function InTransit(s: State): seq<Packet> { AtListener(s) + s.channel + AtSender(s) + s.lost }

  /** Nothing of device `i` is lost, duplicated or reordered. */
  predicate Balanced(s: State, i: nat)
    requires i < |s.produced| == |s.unread| == |s.written|
  {
    s.written[i] + Only(InTransit(s), i) + s.unread[i] == s.produced[i]
  }

  ghost predicate Inv(k: nat, s: State) {
    && Shape(k, s)
    && (forall i: nat :: i < k ==> Balanced(s, i))
    && Fair(k, s)
  }

  ghost predicate Shape(k: nat, s: State) {
    && |s.produced| == |s.unread| == |s.written| == k
    && InvPc(k, s)
    && (forall p :: p in s.channel || p in AtListener(s) ==> 0 <= p.devId < k)
    && |s.lost| <= 1 && (s.lost != [] ==> s.sender == Check(true) || s.sender == Stopped)
  }

  /** The stream carries, round by round, the ready devices in index order. */
  ghost predicate Fair(k: nat, s: State) {
    && (forall ready :: ready in s.rounds ==> |ready| == k)
    && (s.broken != [] ==> s.sender == Check(true) || s.sender == Stopped)
    && Ids(s.sent) == RoundIds(s.rounds) + CurrentIds(s.sender) + s.broken
    && PartOfRound(k, s.broken)
  }

  ghost predicate PartOfRound(k: nat, ids: seq<int>) {
    exists ready: seq<bool>, i: nat :: |ready| == k && i <= k && ids == ReadyBelow(ready, i)
  }

  /** A device reported ready keeps an event to read until its turn has come. */
  ghost predicate InvPc(k: nat, s: State)
    requires |s.unread| == k
  {
    match s.sender
    case Visit(i, ready) =>
      |ready| == k && i <= k && forall j :: i <= j < k && ready[j] ==> s.unread[j] != []
    case Holding(i, ready, _) =>
      |ready| == k && i < k && ready[i] && forall j :: i < j < k && ready[j] ==> s.unread[j] != []
    case _ => true
  }

  lemma {:induction false} OnlyConcat(a: seq<Packet>, b: seq<Packet>, i: int)
    ensures Only(a + b, i) == Only(a, i) + Only(b, i)
  {
    if a == [] {
      assert a + b == b;
    } else {
      var first := if a[0].devId == i then [a[0].event] else [];
      assert (a + b)[0] == a[0] && (a + b)[1..] == a[1..] + b;
      OnlyConcat(a[1..], b, i);
      assert first + (Only(a[1..], i) + Only(b, i)) == (first + Only(a[1..], i)) + Only(b, i);
    }
  }

  lemma ShapeStep(k: nat, s: State, a: Action)
    requires Shape(k, s) && Enabled(s, a)
    ensures Shape(k, Do(s, a))
  {}

  /** Only reading puts a packet into transit and only writing takes one out. */
  ghost function TransitAfter(s: State, a: Action): seq<Packet>
    requires Enabled(s, a)
  {
    if a.Read? then InTransit(s) + [Packet(s.sender.i, s.unread[s.sender.i][0])]
    else if a.Write? then InTransit(s)[1..]
    else InTransit(s)
  }

  lemma TransitStep(k: nat, s: State, a: Action)
    requires Shape(k, s) && Enabled(s, a)
    ensures a.Write? ==> InTransit(s) == [s.listener.packet] + InTransit(Do(s, a))
    ensures InTransit(Do(s, a)) == TransitAfter(s, a)
  {
    if a.Receive? || a.Write? {
      ListenerTransit(s, a);
    } else if a.Send? || a.SendFails? || a.Read? {
      SenderTransit(k, s, a);
    }
  }

  lemma ListenerTransit(s: State, a: Action)
    requires Enabled(s, a) && (a.Receive? || a.Write?)
    ensures a.Write? ==> InTransit(s) == [s.listener.packet] + InTransit(Do(s, a))
    ensures InTransit(Do(s, a)) == TransitAfter(s, a)
  {
    if a.Receive? {
      RegroupFour([s.channel[0]], s.channel[1..], AtSender(s), s.lost);
      RegroupFour([], s.channel, AtSender(s), s.lost);
      assert [s.channel[0]] + s.channel[1..] == s.channel;
    } else {
      RegroupFour([s.listener.packet], s.channel, AtSender(s), s.lost);
      RegroupFour([], s.channel, AtSender(s), s.lost);
    }
  }

  lemma RegroupFour<T>(a: seq<T>, b: seq<T>, c: seq<T>, d: seq<T>)
    ensures a + b + c + d == a + (b + c + d) == (a + b) + (c + d)
  {}

  /** A packet at the sender may as well be new, on the stream or lost: it comes last. */
  lemma ComesLast(a: seq<Packet>, b: seq<Packet>, p: Packet)
    ensures (a + b + [] + []) + [p] == a + b + [p] + [] == a + (b + [p]) + [] + [] == a + b + [] + [p]
  {}

  lemma SenderTransit(k: nat, s: State, a: Action)
    requires Shape(k, s) && Enabled(s, a) && (a.Send? || a.SendFails? || a.Read?)
    ensures InTransit(Do(s, a)) == TransitAfter(s, a)
  {
    var i := s.sender.i;
    var p := Packet(i, if a.Read? then s.unread[i][0] else s.sender.event);
    assert s.lost == [];
    ComesLast(AtListener(s), s.channel, p);
  }

  lemma ReadBalanced(k: nat, s: State, i: nat)
    requires Shape(k, s) && Enabled(s, Read) && i < k && Balanced(s, i)
    ensures |Do(s, Read).unread| == k && Balanced(Do(s, Read), i)
  {
    var s' := Do(s, Read);
    var p := Packet(s.sender.i, s.unread[s.sender.i][0]);
    SenderTransit(k, s, Read);
    OnlySnoc(InTransit(s), p, i);
    if p.devId == i { MoveHead(s.written[i], Only(InTransit(s), i), s.unread[i]); }
  }

  lemma OnlySnoc(ps: seq<Packet>, p: Packet, i: int)
    ensures Only(ps + [p], i) == Only(ps, i) + if p.devId == i then [p.event] else []
  {
    OnlyConcat(ps, [p], i);
    assert [p][1..] == [];
  }

  lemma MoveHead<T>(a: seq<T>, b: seq<T>, c: seq<T>)
    requires c != []
    ensures a + b + c == a + (b + [c[0]]) + c[1..]
  {}

  lemma WriteBalanced(k: nat, s: State, i: nat)
    requires Shape(k, s) && Enabled(s, Write) && i < k && Balanced(s, i)
    ensures |Do(s, Write).written| == k && Balanced(Do(s, Write), i)
  {
    var s' := Do(s, Write);
    ListenerTransit(s, Write);
    var p := s.listener.packet;
    assert InTransit(s)[0] == p && InTransit(s)[1..] == InTransit(s');
    if p.devId == i { MoveIn(s.written[i], p.event, Only(InTransit(s'), i), s.unread[i]); }
  }

  lemma MoveIn<T>(a: seq<T>, x: T, b: seq<T>, c: seq<T>)
    ensures a + ([x] + b) + c == (a + [x]) + b + c
  {}

  lemma BalancedStep(k: nat, s: State, a: Action, i: nat)
    requires Enabled(s, a) && Shape(k, s) && Shape(k, Do(s, a)) && i < k && Balanced(s, i)
    ensures Balanced(Do(s, a), i)
  {
    if a.Read? {
      ReadBalanced(k, s, i);
    } else if a.Write? {
      WriteBalanced(k, s, i);
    } else {
      TransitStep(k, s, a);
      assert Do(s, a).written == s.written;
    }
  }

  lemma SendFair(k: nat, s: State)
    requires Shape(k, s) && Fair(k, s) && Enabled(s, Send)
    ensures Fair(k, Do(s, Send))
  {
    var s', i := Do(s, Send), s.sender.i;
    assert s'.broken == s.broken == [] && s'.rounds == s.rounds;
    assert Ids(s'.sent) == Ids(s.sent) + [i];
    assert CurrentIds(s'.sender) == CurrentIds(s.sender) + [i];
    Regroup(RoundIds(s.rounds), CurrentIds(s.sender), [i]);
  }

  lemma EndRoundFair(k: nat, s: State)
    requires Shape(k, s) && Fair(k, s) && Enabled(s, EndRound)
    ensures Fair(k, Do(s, EndRound))
  {
    var s' := Do(s, EndRound);
    assert s'.rounds[..|s.rounds|] == s.rounds;
    assert RoundIds(s'.rounds) == RoundIds(s.rounds) + CurrentIds(s.sender);
    forall ready | ready in s'.rounds ensures |ready| == k { assert ready in s.rounds || ready == s.sender.ready; }
    assert CurrentIds(s'.sender) == [] && s'.broken == s.broken == [];
  }

  lemma FailFair(k: nat, s: State, a: Action)
    requires Shape(k, s) && Fair(k, s) && Enabled(s, a) && (a.ReadFails? || a.SendFails?)
    ensures Fair(k, Do(s, a))
  {
    var s' := Do(s, a);
    assert s'.broken == ReadyBelow(s.sender.ready, s.sender.i) && CurrentIds(s'.sender) == [] && s.broken == [];
    assert PartOfRound(k, s'.broken);
    MoveEnd(RoundIds(s.rounds), s'.broken);
  }

  lemma MoveEnd<T>(a: seq<T>, b: seq<T>)
    ensures a + b + [] == a + [] + b
  {}

  lemma FairStep(k: nat, s: State, a: Action)
    requires Shape(k, s) && Fair(k, s) && Enabled(s, a)
    ensures Fair(k, Do(s, a))
  {
    if a.Send? {
      SendFair(k, s);
    } else if a.EndRound? {
      EndRoundFair(k, s);
    } else if a.ReadFails? || a.SendFails? {
      FailFair(k, s, a);
    } else {
      OtherStep(s, a);
      FairSame(k, s, Do(s, a));
    }
  }

  lemma OtherStep(s: State, a: Action)
    requires Enabled(s, a) && !a.Send? && !a.EndRound? && !a.ReadFails? && !a.SendFails?
    ensures
      var s' := Do(s, a);
      && s'.sent == s.sent && s'.rounds == s.rounds && s'.broken == s.broken
      && CurrentIds(s'.sender) == CurrentIds(s.sender)
      && (s.sender == Check(true) || s.sender == Stopped ==> s'.sender == Check(true) || s'.sender == Stopped)
  {
    if a.Pass? {
      var ready, i := s.sender.ready, s.sender.i;
      assert ReadyBelow(ready, i + 1) == ReadyBelow(ready, i) + [] == ReadyBelow(ready, i);
    } else if a.PollOk? {
      assert ReadyBelow(a.ready, 0) == [];
    }
  }

  lemma FairSame(k: nat, s: State, s': State)
    requires Fair(k, s) && s'.sent == s.sent && s'.rounds == s.rounds && s'.broken == s.broken
    requires CurrentIds(s'.sender) == CurrentIds(s.sender)
    requires s.sender == Check(true) || s.sender == Stopped ==> s'.sender == Check(true) || s'.sender == Stopped
    ensures Fair(k, s')
  {}

  lemma InvStep(k: nat, s: State, a: Action)
    requires Inv(k, s) && Enabled(s, a)
    ensures Inv(k, Do(s, a))
  {
    ShapeStep(k, s, a);
    forall i: nat | i < k ensures Balanced(Do(s, a), i) { BalancedStep(k, s, a, i); }
    FairStep(k, s, a);
  }

  lemma {:induction false} RunsKeepInv(k: nat, s: State, acts: seq<Action>)
    requires Inv(k, s) && Runs(s, acts)
    ensures Inv(k, After(s, acts))
    decreases |acts|
  {
    if acts != [] {
      InvStep(k, s, acts[0]);
      RunsKeepInv(k, Do(s, acts[0]), acts[1..]);
    }
  }

  lemma ReachableInv(k: nat, acts: seq<Action>)
    requires Runs(Init(k), acts)
    ensures Inv(k, After(Init(k), acts))
  {
    assert PartOfRound(k, []) by { assert ReadyBelow(seq(k, _ => false), 0) == []; }
    RunsKeepInv(k, Init(k), acts);
  }

  // ---------------------------------------------------------------- what every run guarantees

  /** In every interleaving, what reached virtual device `i`, what is on its way, and what is
      still unread are together, in order, what device `i` produced; so the virtual device
      always shows a prefix of the physical one. A failure loses at most the one event that had
      been read, and only when the sender has given up. */
  lemma Conservation(k: nat, acts: seq<Action>, i: nat)
    requires Runs(Init(k), acts) && i < k
    ensures
      var s := After(Init(k), acts);
      && |s.produced| == |s.unread| == |s.written| == k
      && s.written[i] + Only(InTransit(s), i) + s.unread[i] == s.produced[i]
      && s.written[i] <= s.produced[i]
      && |s.lost| <= 1 && (s.lost != [] ==> s.sender == Check(true) || s.sender == Stopped)
  {
    ReachableInv(k, acts);
    assert Balanced(After(Init(k), acts), i);
  }

  /** Once nothing is in flight and nothing failed, all that was read has been written. */
  lemma Drained(k: nat, acts: seq<Action>, i: nat)
    requires Runs(Init(k), acts) && i < k
    requires
      var s := After(Init(k), acts);
      s.channel == [] && s.listener.Waiting? && !s.sender.Holding? && s.lost == []
    ensures
      var s := After(Init(k), acts);
      |s.produced| == |s.unread| == |s.written| == k && s.written[i] + s.unread[i] == s.produced[i]
  {
    Conservation(k, acts, i);
    assert InTransit(After(Init(k), acts)) == [];
  }

  /** Every packet names one of the `k` virtual devices the listener created. */
  lemma DeviceIdsInRange(k: nat, acts: seq<Action>)
    requires Runs(Init(k), acts)
    ensures
      var s := After(Init(k), acts);
      && (forall p :: p in s.channel ==> 0 <= p.devId < k)
      && (s.listener.Writing? ==> Enabled(s, Write))
  {
    ReachableInv(k, acts);
  }

  /** The sender has stopped or has a next step that is not a failure. */
  predicate CanGoOn(k: nat, s: State) {
    match s.sender
    case Poll => Enabled(s, PollOk(seq(k, _ => false)))
    case Visit(i, _) => Enabled(s, Pass) || Enabled(s, Read) || Enabled(s, EndRound)
    case Holding(_, _, _) => Enabled(s, Send)
    case Check(_) => Enabled(s, CheckFlag)
    case Stopped => true
  }

  /** A device that poll reported ready has an event when its turn comes: until it stops, the
      sender always has a next step that is not a failure. */
  lemma SenderNeverStuck(k: nat, acts: seq<Action>)
    requires Runs(Init(k), acts)
    ensures CanGoOn(k, After(Init(k), acts))
  {
    ReachableInv(k, acts);
    ShapeGoesOn(k, After(Init(k), acts));
  }

  lemma ShapeGoesOn(k: nat, s: State)
    requires Shape(k, s)
    ensures CanGoOn(k, s)
  {
    if s.sender.Visit? && s.sender.i < k {
      assert if s.sender.ready[s.sender.i] then Enabled(s, Read) else Enabled(s, Pass);
    }
  }

  // ---------------------------------------------------------------- fairness

  function Count(ids: seq<int>, i: int): nat {
    if ids == [] then 0 else Count(ids[..|ids| - 1], i) + if ids[|ids| - 1] == i then 1 else 0
  }

  /** In how many rounds device `i` was ready. */
  function ReadyRounds(rounds: seq<seq<bool>>, i: nat): nat {
    if rounds == [] then 0
    else
      var last := rounds[|rounds| - 1];
      ReadyRounds(rounds[..|rounds| - 1], i) + if i < |last| && last[i] then 1 else 0
  }

  lemma {:induction false} CountConcat(a: seq<int>, b: seq<int>, i: int)
    ensures Count(a + b, i) == Count(a, i) + Count(b, i)
  {
    if b == [] {
      assert a + b == a;
    } else {
      assert (a + b)[..|a + b| - 1] == a + b[..|b| - 1];
      CountConcat(a, b[..|b| - 1], i);
    }
  }

  lemma {:induction false} RoundServesOnce(ready: seq<bool>, m: nat, i: nat)
    requires m <= |ready|
    ensures Count(ReadyBelow(ready, m), i) == if i < m && ready[i] then 1 else 0
  {
    if m > 0 {
      RoundServesOnce(ready, m - 1, i);
      CountConcat(ReadyBelow(ready, m - 1), if ready[m - 1] then [m - 1] else [], i);
      assert Count([m - 1], i) == if m - 1 == i then 1 else 0 by { assert [m - 1][..0] == []; }
    }
  }

  /** In index order, no device twice. */
  predicate Ascending(ids: seq<int>) { forall a, b :: 0 <= a < b < |ids| ==> ids[a] < ids[b] }

  lemma {:induction false} RoundIsOrdered(ready: seq<bool>, m: nat)
    requires m <= |ready|
    ensures forall i: int :: i in ReadyBelow(ready, m) <==> 0 <= i < m && ready[i]
    ensures Ascending(ReadyBelow(ready, m))
  {
    if m > 0 {
      RoundIsOrdered(ready, m - 1);
      var before, last := ReadyBelow(ready, m - 1), if ready[m - 1] then [m - 1] else [];
      forall i: int ensures i in ReadyBelow(ready, m) <==> 0 <= i < m && ready[i] {
        assert i in before + last <==> i in before || i in last;
      }
      forall a | 0 <= a < |before| ensures before[a] < m - 1 { assert before[a] in before; }
    }
  }

  /** Where the packets of round `r` lie on the stream. */
  lemma {:induction false} RoundBlock(rounds: seq<seq<bool>>, r: nat)
    requires r < |rounds|
    ensures
      var from, to := |RoundIds(rounds[..r])|, |RoundIds(rounds[..r + 1])|;
      from <= to <= |RoundIds(rounds)| && RoundIds(rounds)[from..to] == ReadyBelow(rounds[r], |rounds[r]|)
  {
    var n := |rounds| - 1;
    if r == n {
      assert rounds[..r + 1] == rounds;
    } else {
      RoundBlock(rounds[..n], r);
      assert rounds[..n][..r] == rounds[..r] && rounds[..n][..r + 1] == rounds[..r + 1];
    }
  }

  /** The packets of round `r`, which follow those of the rounds before it, name in index order the
      devices that were ready, each once. */
  ghost predicate RoundOnStream(k: nat, s: State, r: nat)
    requires r < |s.rounds|
  {
    var ids, ready := Ids(s.sent), s.rounds[r];
    var from, to := |RoundIds(s.rounds[..r])|, |RoundIds(s.rounds[..r + 1])|;
    && |ready| == k && from <= to <= |RoundIds(s.rounds)| && to <= |ids|
    && Ascending(ids[from..to]) && forall i: int :: i in ids[from..to] <==> 0 <= i < k && ready[i]
  }

  /** In every run the stream is the finished rounds one after the other and then the round under
      way or broken off. Each finished round has one packet for each device that was ready and for
      no other; in every round the packets come in index order. */
  lemma StreamIsRounds(k: nat, acts: seq<Action>)
    requires Runs(Init(k), acts)
    ensures
      var s := After(Init(k), acts);
      var done := |RoundIds(s.rounds)|;
      && done <= |s.sent| && Ascending(Ids(s.sent)[done..])
      && forall r: nat :: r < |s.rounds| ==> RoundOnStream(k, s, r)
  {
    ReachableInv(k, acts);
    var s := After(Init(k), acts);
    TailIsOrdered(k, s);
    var tail, done := CurrentIds(s.sender) + s.broken, |RoundIds(s.rounds)|;
    AppendSlices(RoundIds(s.rounds), tail, Ids(s.sent), 0, done);
    forall r: nat | r < |s.rounds| ensures RoundOnStream(k, s, r) {
      assert s.rounds[r] in s.rounds;
      RoundBlock(s.rounds, r);
      RoundIsOrdered(s.rounds[r], k);
      AppendSlices(RoundIds(s.rounds), tail, Ids(s.sent), |RoundIds(s.rounds[..r])|, |RoundIds(s.rounds[..r + 1])|);
    }
  }

  lemma AppendSlices(a: seq<int>, b: seq<int>, ab: seq<int>, from: nat, to: nat)
    requires from <= to <= |a| && ab == a + b
    ensures |a| <= |ab| && ab[from..to] == a[from..to] && ab[|a|..] == b
  {}

  lemma TailIsOrdered(k: nat, s: State)
    requires Shape(k, s) && Fair(k, s)
    ensures Ascending(CurrentIds(s.sender) + s.broken)
    ensures Ids(s.sent) == RoundIds(s.rounds) + (CurrentIds(s.sender) + s.broken)
  {
    var current := CurrentIds(s.sender);
    Regroup(RoundIds(s.rounds), current, s.broken);
    if s.broken == [] {
      CurrentIsOrdered(k, s);
      assert current + s.broken == current;
    } else {
      var ready: seq<bool>, m: nat :| |ready| == k && m <= k && s.broken == ReadyBelow(ready, m);
      RoundIsOrdered(ready, m);
      assert current + s.broken == s.broken;
    }
  }

  lemma CurrentIsOrdered(k: nat, s: State)
    requires Shape(k, s)
    ensures Ascending(CurrentIds(s.sender))
  {
    if s.sender.Visit? || s.sender.Holding? { RoundIsOrdered(s.sender.ready, s.sender.i); }
  }

  lemma {:induction false} CountRounds(k: nat, rounds: seq<seq<bool>>, i: nat)
    requires forall ready :: ready in rounds ==> |ready| == k
    ensures Count(RoundIds(rounds), i) == ReadyRounds(rounds, i) <= |rounds|
  {
    if rounds != [] {
      var n := |rounds| - 1;
      CountRounds(k, rounds[..n], i);
      CountConcat(RoundIds(rounds[..n]), ReadyBelow(rounds[n], |rounds[n]|), i);
      RoundServesOnce(rounds[n], |rounds[n]|, i);
    }
  }

  lemma {:induction false} AlwaysReady(rounds: seq<seq<bool>>, i: nat)
    requires forall ready :: ready in rounds ==> i < |ready| && ready[i]
    ensures ReadyRounds(rounds, i) == |rounds|
  {
    if rounds != [] { AlwaysReady(rounds[..|rounds| - 1], i); }
  }

  /** The device ids on the stream are, round by round, the ready devices in index order. So a
      device sends exactly as many packets as there were rounds in which it was ready, give or
      take the round under way or broken off; and none overtakes a device that is always ready
      by more than that one packet. */
  lemma Fairness(k: nat, acts: seq<Action>, i: nat, j: nat)
    requires Runs(Init(k), acts) && i < k && j < k
    ensures
      var s := After(Init(k), acts);
      && ReadyRounds(s.rounds, i) <= Count(Ids(s.sent), i) <= ReadyRounds(s.rounds, i) + 1
      && (s.broken == [] && !s.sender.Visit? && !s.sender.Holding? ==>
            Count(Ids(s.sent), i) == ReadyRounds(s.rounds, i))
      && ((forall ready :: ready in s.rounds ==> i < |ready| && ready[i]) ==>
            Count(Ids(s.sent), i) >= |s.rounds| && Count(Ids(s.sent), j) <= Count(Ids(s.sent), i) + 1)
  {
    ReachableInv(k, acts);
    var s := After(Init(k), acts);
    CountSent(k, s, i);
    CountSent(k, s, j);
    if forall ready :: ready in s.rounds ==> i < |ready| && ready[i] { AlwaysReady(s.rounds, i); }
  }

  lemma CountSent(k: nat, s: State, i: nat)
    requires Shape(k, s) && Fair(k, s) && i < k
    ensures ReadyRounds(s.rounds, i) <= Count(Ids(s.sent), i) <= ReadyRounds(s.rounds, i) + 1
    ensures ReadyRounds(s.rounds, i) <= |s.rounds|
    ensures s.broken == [] && !s.sender.Visit? && !s.sender.Holding? ==>
              Count(Ids(s.sent), i) == ReadyRounds(s.rounds, i)
  {
    var current := CurrentIds(s.sender);
    CountConcat(RoundIds(s.rounds) + current, s.broken, i);
    CountConcat(RoundIds(s.rounds), current, i);
    CountRounds(k, s.rounds, i);
    var ready: seq<bool>, m: nat :| |ready| == k && m <= k && s.broken == ReadyBelow(ready, m);
    RoundServesOnce(ready, m, i);
    if s.sender.Visit? || s.sender.Holding? { RoundServesOnce(s.sender.ready, s.sender.i, i); }
  }

  // ---------------------------------------------------------------- runs step by step

  lemma {:induction false} AfterSnoc(s: State, acts: seq<Action>, a: Action)
    requires Runs(s, acts) && Enabled(After(s, acts), a)
    ensures Runs(s, acts + [a]) && After(s, acts + [a]) == Do(After(s, acts), a)
    decreases |acts|
  {
    if acts == [] {
      assert [a][1..] == [];
    } else {
      assert (acts + [a])[1..] == acts[1..] + [a];
      AfterSnoc(Do(s, acts[0]), acts[1..], a);
    }
  }
}
