/** The held-keys detector of the superseded daemon: `send_input_event` of src.old.d/client.c and
    the sender loop of src.old.d/server.c around it. */
module OldChord {
  datatype Event = Event(code: int, value: int)

  /** What one turn of the loop meets: the poll, the read and the send. */
  datatype Input = PollFails | NotReady | ReadFails | Got(event: Event, sendOk: bool)

  /** The value of the last event of a key, 0 if there was none. */
  function Held(key: int, events: seq<Event>): int {
    if events == [] then 0
    else
      var last := events[|events| - 1];
      if last.code == key then last.value else Held(key, events[..|events| - 1])
  }

  predicate IsLastOf(key: int, events: seq<Event>, n: nat)
    requires n < |events|
  {
    events[n].code == key && forall j :: n < j < |events| ==> events[j].code != key
  }

  /** `Held` is the value of the last event of the key. */
  lemma {:induction false} HeldIsLast(key: int, events: seq<Event>)
    ensures forall n | 0 <= n < |events| && IsLastOf(key, events, n) :: Held(key, events) == events[n].value
    ensures (forall n :: 0 <= n < |events| ==> events[n].code != key) ==> Held(key, events) == 0
  {
    forall n | 0 <= n < |events| && IsLastOf(key, events, n) ensures Held(key, events) == events[n].value {
      HeldAt(key, events, n);
    }
    if forall n :: 0 <= n < |events| ==> events[n].code != key { NeverHeld(key, events); }
  }

  lemma {:induction false} HeldAt(key: int, events: seq<Event>, n: nat)
    requires n < |events| && IsLastOf(key, events, n)
    ensures Held(key, events) == events[n].value
  {
    if n < |events| - 1 { HeldAt(key, events[..|events| - 1], n); }
  }

  lemma {:induction false} NeverHeld(key: int, events: seq<Event>)
    requires forall n :: 0 <= n < |events| ==> events[n].code != key
    ensures Held(key, events) == 0
  {
    if events != [] { NeverHeld(key, events[..|events| - 1]); }
  }

  /** All keys of a non-empty bind are down. */
  predicate Chord(keys: seq<int>, events: seq<Event>) {
    |keys| > 0 && forall i :: 0 <= i < |keys| ==> Held(keys[i], events) != 0
  }

  function Events(inputs: seq<Input>): seq<Event> {
    if inputs == [] then []
    else
      var last := inputs[|inputs| - 1];
      Events(inputs[..|inputs| - 1]) + if last.Got? then [last.event] else []
  }

  class Sender {
    const keybind: array<int>
    const keybindBuf: array<int>
    var stream: seq<Event>
    ghost var seen: seq<Event>

    ghost predicate Valid()
      reads this, keybind, keybindBuf
    {
      && keybind != keybindBuf && keybind.Length == keybindBuf.Length
      && forall i :: 0 <= i < keybind.Length ==> keybindBuf[i] == Held(keybind[i], seen)
    }

    constructor (keys: seq<int>)
      ensures Valid() && fresh(keybind) && fresh(keybindBuf) && keybind[..] == keys
      ensures stream == [] && seen == []
    {
      var n := |keys|;
      keybind := new int[n](i requires 0 <= i < n => keys[i]);
      keybindBuf := new int[n](_ => 0);
      stream, seen := [], [];
    }

    method SendInputEvent(input: Input) returns (r: int)
      requires Valid()
      modifies this`stream, this`seen, keybindBuf
      ensures Valid()
      ensures seen == old(seen) + if input.Got? then [input.event] else []
      ensures
        if !input.Got? then r == -1 && stream == old(stream)
        else if Chord(keybind[..], seen) then r == 1 && stream == old(stream)
        else if !input.sendOk then r == -1 && stream == old(stream)
        else r == 0 && stream == old(stream) + [input.event]
      ensures r == 1 <==>
        input.Got? && keybind.Length > 0 && forall i :: 0 <= i < keybind.Length ==> Held(keybind[i], seen) != 0
    {
      if !input.Got? { return -1; }
      var ie := input.event;
      seen := seen + [ie];
      assert seen[..|seen| - 1] == old(seen);
      if keybind.Length > 0 {
        var bindsPressed := 0;
        var i := 0;
        while i < keybind.Length
          invariant 0 <= i <= keybind.Length
          invariant forall j :: 0 <= j < i ==> keybindBuf[j] == Held(keybind[j], seen)
          invariant forall j :: i <= j < keybind.Length ==> keybindBuf[j] == Held(keybind[j], old(seen))
          invariant bindsPressed <= i
          invariant bindsPressed == i <==> forall j :: 0 <= j < i ==> keybindBuf[j] != 0
          modifies keybindBuf
        {
          if keybind[i] == ie.code {
            keybindBuf[i] := ie.value;
          }
          if keybindBuf[i] != 0 {
            bindsPressed := bindsPressed + 1;
          }
          i := i + 1;
        }
        assert Chord(keybind[..], seen) <==> bindsPressed == keybind.Length;
        if bindsPressed == keybind.Length { return 1; }
      }
      if !input.sendOk { return -1; }
      stream := stream + [ie];
      return 0;
    }
  }

  /** A turn after which the loop goes on, unless a chord is held. */
  predicate GoesOn(input: Input, removed: bool) { input.Got? && input.sendOk && !removed }

  /** The sender thread after `used` turns. It has stopped at the first turn that did not go on or
      that completed a chord; all its events are on the stream, except one that completed a chord
      or could not be sent. */
  predicate Turned(keys: seq<int>, inputs: seq<Input>, removed: seq<bool>, used: nat,
                   stream: seq<Event>, unbound: bool, connected: bool)
    requires used <= |inputs| == |removed|
  {
    var events := Events(inputs[..used]);
    && (forall n | 0 < n < |events| :: !Chord(keys, events[..n]))
    && (forall n | 0 <= n < used - 1 :: GoesOn(inputs[n], removed[n]))
    && if used == 0 then connected && !unbound && stream == []
       else
         var last := inputs[used - 1];
         && (unbound <==> last.Got? && Chord(keys, events))
         && (connected <==> !unbound && GoesOn(last, removed[used - 1]))
         && (if last.Got? && (unbound || !last.sendOk) then events != [] && stream == events[..|events| - 1]
             else stream == events)
  }

  /** While the loop goes on, every event is on the stream and none has completed a chord. */
  lemma NextTurn(keys: seq<int>, inputs: seq<Input>, removed: seq<bool>, used: nat, stream: seq<Event>,
                 stream': seq<Event>, unbound: bool)
    requires used < |inputs| == |removed| && Turned(keys, inputs, removed, used, stream, false, true)
    requires
      var input, seen := inputs[used], Events(inputs[..used + 1]);
      && (unbound <==> input.Got? && Chord(keys, seen))
      && stream' == if input.Got? && !unbound && input.sendOk then stream + [input.event] else stream
    ensures Turned(keys, inputs, removed, used + 1, stream', unbound, !unbound && GoesOn(inputs[used], removed[used]))
  {
    var events, seen := Events(inputs[..used]), Events(inputs[..used + 1]);
    assert inputs[..used + 1][..used] == inputs[..used];
    assert seen == events + if inputs[used].Got? then [inputs[used].event] else [];
    forall n | 0 < n < |seen| ensures !Chord(keys, seen[..n]) {
      assert seen[..n] == events[..n];
      if n == |events| { assert events[..n] == events; }
    }
  }

  /** The sender thread. `removed[n]` tells whether the device has been taken out of the registry
      by the end of turn `n`; `used` turns take place. */
  method RunSender(keys: seq<int>, inputs: seq<Input>, removed: seq<bool>)
    returns (stream: seq<Event>, unbound: bool, connected: bool, used: nat)
    requires |removed| == |inputs|
    ensures used <= |inputs| && (connected ==> used == |inputs|)
    ensures Turned(keys, inputs, removed, used, stream, unbound, connected)
    ensures forall n :: 0 <= n < used - 1 ==> inputs[n].Got? && inputs[n].sendOk && !removed[n]
    ensures used > 0 ==>
      var last := inputs[used - 1];
      var held := keys != [] && forall i :: 0 <= i < |keys| ==> Held(keys[i], Events(inputs[..used])) != 0;
      && (unbound <==> last.Got? && held)
      && (connected <==> !unbound && last.Got? && last.sendOk && !removed[used - 1])
  {
    var sender := new Sender(keys);
    connected, unbound, used := true, false, 0;
    while connected && used < |inputs|
      invariant used <= |inputs| && sender.Valid() && sender.keybind[..] == keys
      invariant fresh(sender) && fresh(sender.keybind) && fresh(sender.keybindBuf)
      invariant sender.seen == Events(inputs[..used])
      invariant Turned(keys, inputs, removed, used, sender.stream, unbound, connected)
      decreases |inputs| - used
    {
      ghost var before := sender.stream;
      assert inputs[..used + 1][..used] == inputs[..used];
      var res := sender.SendInputEvent(inputs[used]);
      if res == 1 {
        connected := false;
        unbound := true;
      }
      if removed[used] {
        connected := false;
      }
      if res < 0 {
        connected := false;
      }
      NextTurn(keys, inputs, removed, used, before, sender.stream, unbound);
      used := used + 1;
    }
    stream := sender.stream;
  }
}
