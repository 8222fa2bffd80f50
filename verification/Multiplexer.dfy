/** `send_input_event` of src/util.c: one round of the sender over its devices. */
module Multiplexer {
  import opened Forwarding

  /** The first ready device that cannot be read or sent, or the number of devices. */
  function FirstFailure(ready: seq<bool>, readOk: seq<bool>, sendOk: seq<bool>, i: nat): (m: nat)
    requires |ready| == |readOk| == |sendOk| && i <= |ready|
    ensures i <= m <= |ready|
    ensures m < |ready| ==> ready[m] && !(readOk[m] && sendOk[m])
    ensures forall j :: i <= j < m && ready[j] ==> readOk[j] && sendOk[j]
    decreases |ready| - i
  {
    if i == |ready| || (ready[i] && !(readOk[i] && sendOk[i])) then i
    else FirstFailure(ready, readOk, sendOk, i + 1)
  }

  /** The packets of a round up to device `m`: the oldest event of each ready device. */
  function Served(unread: seq<seq<Event>>, ready: seq<bool>, m: nat): seq<Packet>
    requires m <= |ready| <= |unread| && forall i :: 0 <= i < |ready| && ready[i] ==> unread[i] != []
  {
    if m == 0 then []
    else Served(unread, ready, m - 1) + if ready[m - 1] then [Packet(m - 1, unread[m - 1][0])] else []
  }

  /** What is unread when the ready devices below `n` have been read. */
  function Left(unread: seq<seq<Event>>, ready: seq<bool>, n: nat): seq<seq<Event>>
    requires n <= |ready| == |unread| && forall i :: 0 <= i < |ready| && ready[i] ==> unread[i] != []
  {
    seq(|unread|, i requires 0 <= i < |unread| => if ready[i] && i < n then unread[i][1..] else unread[i])
  }

  /** Reading the next device, if it is ready. */
  lemma LeftNext(unread: seq<seq<Event>>, ready: seq<bool>, n: nat)
    requires n < |ready| == |unread| && forall i :: 0 <= i < |ready| && ready[i] ==> unread[i] != []
    ensures
      var left := Left(unread, ready, n);
      && left[n] == unread[n]
      && Left(unread, ready, n + 1) == if ready[n] then left[n := left[n][1..]] else left
  {}

  lemma ServedNext(before: seq<Packet>, unread: seq<seq<Event>>, ready: seq<bool>, m: nat)
    requires m < |ready| == |unread| && forall i :: 0 <= i < |ready| && ready[i] ==> unread[i] != []
    ensures before + Served(unread, ready, m + 1) ==
      before + Served(unread, ready, m) + if ready[m] then [Packet(m, unread[m][0])] else []
  {}

  /** The sender's side of a connection. `state` follows, step by step, the state machine of
      the whole connection; `unread` and `stream` are what the C code works on. */
  class Sender {
    var unread: seq<seq<Event>>
    var stream: seq<Packet>
    ghost var state: State
    ghost var start: State
    ghost var acts: seq<Action>

    ghost predicate Valid()
      reads this
    {
      && Runs(start, acts) && state == After(start, acts)
      && unread == state.unread && stream == state.sent
      && Shape(|unread|, state)
    }

    constructor (k: nat)
      ensures Valid() && state == Init(k) && acts == []
    {
      unread := seq(k, _ => []);
      stream := [];
      start, state, acts := Init(k), Init(k), [];
    }

    /** The C statement just executed is the machine step `a`. */
    ghost method Step(a: Action)
      requires Runs(start, acts) && state == After(start, acts) && Shape(|state.unread|, state)
      requires Enabled(state, a)
      modifies this`state, this`acts
      ensures Runs(start, acts) && state == After(start, acts) && acts == old(acts) + [a]
      ensures state == Do(old(state), a) && Shape(|old(state).unread|, state)
    {
      AfterSnoc(start, acts, a);
      ShapeStep(|state.unread|, state, a);
      state, acts := Do(state, a), acts + [a];
    }

    /** A read from device `i` that succeeds. */
    method ReadEvent(i: nat, ghost ready: seq<bool>) returns (event: Event)
      requires Valid() && i < |unread| && state.sender == SenderPc.Visit(i, ready) && ready[i]
      modifies `unread, `state, `acts
      ensures Valid() && old(acts) <= acts && unread == old(unread)[i := old(unread)[i][1..]]
      ensures old(unread)[i] != [] && event == old(unread)[i][0]
      ensures state == old(state).(sender := Holding(i, ready, event), unread := unread)
    {
      event := unread[i][0];
      unread := unread[i := unread[i][1..]];
      Step(Read);
    }

    /** A write of the packet just filled with what was read from device `i`. */
    method SendPacket(i: nat, ghost ready: seq<bool>, packet: Packet, ok: bool)
      requires Valid() && i < |ready| && packet.devId == i
      requires state.sender == Holding(i, ready, packet.event)
      modifies `stream, `state, `acts
      ensures Valid() && old(acts) <= acts && state.rounds == old(state.rounds)
      ensures stream == old(stream) + if ok then [packet] else []
      ensures ok ==> state.sender == SenderPc.Visit(i + 1, ready) && state.lost == old(state.lost)
      ensures !ok ==>
        && state.sender == Check(true) && state.broken == ReadyBelow(ready, i)
        && state.lost == old(state.lost) + [packet]
    {
      if ok {
        stream := stream + [packet];
        Step(Send);
      } else {
        Step(SendFails);
      }
    }

    /** The loop body: the visit of device `i`, with the packet that all devices share. */
    method Visit(i: nat, ghost ready: seq<bool>, pollin: bool, readOk: bool, sendOk: bool, packet0: Packet)
      returns (ok: bool, packet: Packet)
      requires Valid() && i < |unread| && state.sender == SenderPc.Visit(i, ready) && ready[i] == pollin
      modifies `unread, `stream, `state, `acts
      ensures Valid() && old(acts) <= acts && ok == (pollin ==> readOk && sendOk)
      ensures pollin ==> old(unread[i]) != []
      ensures unread == if pollin && readOk then old(unread)[i := old(unread[i])[1..]] else old(unread)
      ensures stream == old(stream) + if pollin && readOk && sendOk then [Packet(i, old(unread[i])[0])] else []
      ensures state.rounds == old(state.rounds)
      ensures ok ==> state.sender == SenderPc.Visit(i + 1, ready) && state.lost == old(state.lost)
      ensures !ok ==>
        && state.sender == Check(true) && state.broken == ReadyBelow(ready, i)
        && state.lost == old(state.lost) + if readOk then [Packet(i, old(unread[i])[0])] else []
    {
      packet := packet0;
      if pollin {
        if !readOk {
          Step(ReadFails);
          return false, packet;
        }
        var event := ReadEvent(i, ready);
        packet := packet.(event := event);
        packet := packet.(devId := i);
        SendPacket(i, ready, packet, sendOk);
        return sendOk, packet;
      }
      Step(Pass);
      ok := true;
    }

    /** The loop over the devices after a poll. Returns the first device that fails, if any. */
    method VisitAll(k: nat, ready: seq<bool>, readOk: seq<bool>, sendOk: seq<bool>) returns (m: nat)
      requires Valid() && state.sender == SenderPc.Visit(0, ready)
      requires k == |unread| == |ready| == |readOk| == |sendOk|
      requires forall i :: 0 <= i < k && ready[i] ==> unread[i] != []
      modifies `unread, `stream, `state, `acts
      ensures Valid() && old(acts) <= acts && m == FirstFailure(ready, readOk, sendOk, 0)
      ensures stream == old(stream) + Served(old(unread), ready, m)
      ensures unread == Left(old(unread), ready, if m < k && readOk[m] then m + 1 else m)
      ensures state.rounds == old(state.rounds)
      ensures m == k ==> state.sender == SenderPc.Visit(k, ready) && state.lost == old(state.lost)
      ensures m < k ==>
        && state.sender == Check(true) && state.broken == ReadyBelow(ready, m)
        && state.lost == old(state.lost) + if readOk[m] then [Packet(m, old(unread[m])[0])] else []
    {
      var packet := Packet(0, Event(0, 0, 0));
      assert Left(unread, ready, 0) == unread;
      m := 0;
      while m < k
        invariant m <= k && Valid() && old(acts) <= acts
        invariant state.sender == SenderPc.Visit(m, ready)
        invariant state.rounds == old(state.rounds) && state.lost == old(state.lost)
        invariant FirstFailure(ready, readOk, sendOk, 0) == FirstFailure(ready, readOk, sendOk, m)
        invariant stream == old(stream) + Served(old(unread), ready, m)
        invariant unread == Left(old(unread), ready, m)
      {
        LeftNext(old(unread), ready, m);
        ServedNext(old(stream), old(unread), ready, m);
        var ok;
        ok, packet := Visit(m, ready, ready[m], readOk[m], sendOk[m], packet);
        if !ok { return; }
        m := m + 1;
      }
    }

    /** One uninterrupted round. The parameters are what the devices and the socket do: whether
        poll succeeds, which devices it reports, and at which devices read and send succeed. */
    method SendInputEvent(k: nat, pollOk: bool, ready: seq<bool>, readOk: seq<bool>, sendOk: seq<bool>)
      returns (r: int)
      requires Valid() && state.sender == Poll
      requires k == |unread| == |ready| == |readOk| == |sendOk|
      requires forall i :: 0 <= i < k && ready[i] ==> unread[i] != []
      modifies `unread, `stream, `state, `acts
      ensures Valid() && old(acts) <= acts
      ensures !pollOk ==> r == -1 && state == old(state).(sender := Check(true))
      ensures !pollOk ==> stream == old(stream) && unread == old(unread)
      ensures pollOk ==>
        var m := FirstFailure(ready, readOk, sendOk, 0);
        && stream == old(stream) + Served(old(unread), ready, m)
        && unread == Left(old(unread), ready, if m < k && readOk[m] then m + 1 else m)
        && if m == k then
             r == 0 && state.sender == Check(false) && state.rounds == old(state.rounds) + [ready]
           else
             && r == -1 && state.sender == Check(true) && state.broken == ReadyBelow(ready, m)
             && state.lost == old(state.lost) + if readOk[m] then [Packet(m, old(unread[m])[0])] else []
    {
      if !pollOk {
        Step(PollFails);
        return -1;
      }
      Step(PollOk(ready));
      var m := VisitAll(k, ready, readOk, sendOk);
      if m < k { return -1; }
      Step(EndRound);
      return 0;
    }
  }
}
