/** `spawn_listener_thread` of src/server.c: demultiplexing one stream to virtual devices. */
module Listener {
  import opened Forwarding

  class Connection {
    var devices: array<seq<Event>>   // what has been written to each virtual device
    var flag: int                    // this listener's entry of `server->connections`

    constructor (numDevices: nat)
      ensures fresh(devices) && devices.Length == numDevices
      ensures forall i :: 0 <= i < numDevices ==> devices[i] == []
    {
      devices := new seq<Event>[numDevices](_ => []);
      flag := 0;
    }

    /** Serve the stream until the peer closes it after `packets`. */
    method Serve(packets: seq<Packet>)
      requires forall p :: p in packets ==> 0 <= p.devId < devices.Length
      modifies this`flag, devices
      ensures flag == 0
      ensures forall i :: 0 <= i < devices.Length ==> devices[i] == old(devices[i]) + Only(packets, i)
    {
      var n := 0;
      while n < |packets|
        invariant 0 <= n <= |packets|
        invariant forall i :: 0 <= i < devices.Length ==> devices[i] == old(devices[i]) + Only(packets[..n], i)
      {
        var packet := packets[n];
        forall i: int ensures Only(packets[..n + 1], i) ==
                              Only(packets[..n], i) + if packet.devId == i then [packet.event] else [] {
          OnlyConcat(packets[..n], [packet], i);
          assert packets[..n + 1] == packets[..n] + [packet] && [packet][1..] == [];
        }
        devices[packet.devId] := devices[packet.devId] + [packet.event];
        n := n + 1;
      }
      assert packets[..n] == packets;
      flag := 0;
    }
  }
}
