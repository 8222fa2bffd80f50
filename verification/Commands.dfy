/** The command handlers of src/server.c, as what the main thread does to the shared `sending`
    flag under the sender mutex. The mutex is not recursive: a thread that locks it twice waits
    for itself for ever. */
module Commands {
  import opened Options

  datatype Command = NONE | LIST | START | STOP | SWITCH | RELOAD | KILL

  // ---------------------------------------------------------------- handlers as programs

  /** One access of the main thread to shared state. `IfSending` is the last one of its handler. */
  datatype Instr =
    | Acquire
    | Release
    | Raise        // *server->sending = 1
    | Clear        // *server->sending = 0
    | Spawn        // create a sender thread
    | IfSending(yes: seq<Instr>, no: seq<Instr>)

  /** Returns with the mutex locked when a sender is already running. */
  const START_PROGRAM: seq<Instr> := [Acquire, IfSending([], [Raise, Release, Spawn])]
  const STOP_PROGRAM: seq<Instr> := [Acquire, Clear, Release]

  /** What a command makes the main thread do; RELOAD without a new configuration. */
  function Program(c: Command): seq<Instr> {
    match c
    case NONE => []
    case LIST => []
    case START => START_PROGRAM
    case STOP => STOP_PROGRAM
    case SWITCH => [Acquire, IfSending([Release] + STOP_PROGRAM, [Release] + START_PROGRAM)]
    case RELOAD => [Acquire, Release] + STOP_PROGRAM + START_PROGRAM
    case KILL => STOP_PROGRAM
  }

  /** The main thread's view: the flag, whether it holds the mutex, senders created so far. */
  datatype View = View(sending: bool, holds: bool, spawned: nat)

  function Size(p: seq<Instr>): nat {
    if p == [] then 0
    else 1 + Size(p[1..]) + match p[0] case IfSending(yes, no) => Size(yes) + Size(no) case _ => 0
  }

  /** Running a program when nobody else takes the mutex; `None` if the thread blocks itself. */
  function RunProgram(p: seq<Instr>, v: View): Option<View>
    decreases Size(p)
  {
    if p == [] then Some(v)
    else match p[0]
      case Acquire => if v.holds then None else RunProgram(p[1..], v.(holds := true))
      case Release => if v.holds then RunProgram(p[1..], v.(holds := false)) else None
      case Raise => RunProgram(p[1..], v.(sending := true))
      case Clear => RunProgram(p[1..], v.(sending := false))
      case Spawn => RunProgram(p[1..], v.(spawned := v.spawned + 1))
      case IfSending(yes, no) => RunProgram(if v.sending then yes else no, v)
  }

  // ---------------------------------------------------------------- the on/off automaton

  /** The flag after a command that is handled completely. */
  function Next(sending: bool, c: Command): bool {
    match c
    case START => true
    case RELOAD => true
    case STOP => false
    case KILL => false
    case SWITCH => !sending
    case _ => sending
  }

  function Fold(cs: seq<Command>): bool {
    if cs == [] then false else Next(Fold(cs[..|cs| - 1]), cs[|cs| - 1])
  }

  /** START never arrives while the flag is set. */
  predicate Disciplined(cs: seq<Command>) {
    cs == [] ||
    (Disciplined(cs[..|cs| - 1]) && !(cs[|cs| - 1] == START && Fold(cs[..|cs| - 1])))
  }

  lemma NextCommand(cs: seq<Command>, c: Command)
    ensures Fold(cs + [c]) == Next(Fold(cs), c)
    ensures Disciplined(cs + [c]) <==> Disciplined(cs) && !(c == START && Fold(cs))
  {
    assert (cs + [c])[..|cs|] == cs;
  }

  /** What each command makes of a free mutex. START on a set flag keeps the mutex; every other
      command gives it back, for SWITCH and RELOAD, which contain START, never reach that branch. */
  lemma HandlersFollowAutomaton(c: Command, v: View)
    requires !v.holds
    ensures RunProgram(Program(c), v).Some?
    ensures
      var w := RunProgram(Program(c), v).value;
      && (c == NONE || c == LIST ==> w == v)
      && (c == START ==> w == View(true, v.sending, if v.sending then v.spawned else v.spawned + 1))
      && (c == STOP || c == KILL ==> w == View(false, false, v.spawned))
      && (c == SWITCH ==> w == View(!v.sending, false, if v.sending then v.spawned else v.spawned + 1))
      && (c == RELOAD ==> w == View(true, false, v.spawned + 1))
  {
    if c == SWITCH { SwitchRuns(c, v); }
    else if c == RELOAD { ReloadRuns(c, v); }
    else if c == START { StartRuns(v); }
    else if c == STOP || c == KILL { StopRuns(v); }
    else { assert Program(c) == []; }
  }

  lemma SwitchRuns(c: Command, v: View)
    requires c == SWITCH && !v.holds
    ensures RunProgram(Program(c), v) ==
      Some(View(!v.sending, false, if v.sending then v.spawned else v.spawned + 1))
  {
    var p := Program(c);
    assert p[1..] == [p[1]];
    if v.sending {
      StopRuns(v);
      assert ([Release] + STOP_PROGRAM)[1..] == STOP_PROGRAM;
      assert RunProgram([Release] + STOP_PROGRAM, v.(holds := true)) == RunProgram(STOP_PROGRAM, v);
    } else {
      StartRuns(v);
      assert ([Release] + START_PROGRAM)[1..] == START_PROGRAM;
      assert RunProgram([Release] + START_PROGRAM, v.(holds := true)) == RunProgram(START_PROGRAM, v);
    }
  }

  lemma ReloadRuns(c: Command, v: View)
    requires c == RELOAD && !v.holds
    ensures RunProgram(Program(c), v) == Some(View(true, false, v.spawned + 1))
  {
    assert Program(c) == [Acquire, Release] + (STOP_PROGRAM + START_PROGRAM);
    RestartRuns(STOP_PROGRAM + START_PROGRAM, Program(c), v);
  }

  lemma RestartRuns(rest: seq<Instr>, p: seq<Instr>, v: View)
    requires !v.holds && rest == STOP_PROGRAM + START_PROGRAM && p == [Acquire, Release] + rest
    ensures RunProgram(p, v) == Some(View(true, false, v.spawned + 1))
  {
    LockUnlock(rest, v);
    StopThen(START_PROGRAM, v);
    StartRuns(v.(sending := false));
  }

  lemma LockUnlock(rest: seq<Instr>, v: View)
    requires !v.holds
    ensures RunProgram([Acquire, Release] + rest, v) == RunProgram(rest, v)
  {
    var p := [Acquire, Release] + rest;
    assert p[1..] == [Release] + rest && p[1..][1..] == rest;
    assert v.(holds := true).(holds := false) == v;
  }

  lemma StartRuns(v: View)
    requires !v.holds
    ensures RunProgram(START_PROGRAM, v) ==
      if v.sending then Some(v.(holds := true)) else Some(View(true, false, v.spawned + 1))
  {
    var p := START_PROGRAM;
    assert p[1..] == [p[1]];
    assert [Raise, Release, Spawn][1..] == [Release, Spawn] && [Release, Spawn][1..] == [Spawn] && [Spawn][1..] == [];
  }

  lemma StopThen(rest: seq<Instr>, v: View)
    requires !v.holds
    ensures RunProgram(STOP_PROGRAM + rest, v) == RunProgram(rest, v.(sending := false))
  {
    var p := STOP_PROGRAM + rest;
    assert p[1..] == [Clear] + ([Release] + rest);
    assert p[1..][1..] == [Release] + rest;
    assert p[1..][1..][1..] == rest;
    var held := v.(holds := true);
    assert RunProgram(p, v) == RunProgram(p[1..], held);
    assert RunProgram(p[1..], held) == RunProgram([Release] + rest, held.(sending := false));
    assert held.(sending := false).(holds := false) == v.(sending := false);
  }

  lemma StopRuns(v: View)
    requires !v.holds
    ensures RunProgram(STOP_PROGRAM, v) == Some(v.(sending := false))
  {
    StopThen([], v);
    assert STOP_PROGRAM + [] == STOP_PROGRAM;
  }

  lemma CountNext(cs: seq<Command>, m: nat)
    requires m < |cs|
    ensures multiset(cs[m..])[SWITCH] ==
            multiset(cs[..|cs| - 1][m..])[SWITCH] + if cs[|cs| - 1] == SWITCH then 1 else 0
  {
    assert cs[m..] == cs[..|cs| - 1][m..] + [cs[|cs| - 1]];
  }

  /** The flag after `cs`, counted: the last START, RELOAD, STOP or KILL, or the beginning, sets it
      on or off, and each SWITCH since then toggles it. */
  lemma {:induction false} FlagIsParity(cs: seq<Command>, m: nat)
    requires m <= |cs|
    requires m == 0 || cs[m - 1] == START || cs[m - 1] == RELOAD || cs[m - 1] == STOP || cs[m - 1] == KILL
    requires forall j :: m <= j < |cs| ==> cs[j] == SWITCH || cs[j] == NONE || cs[j] == LIST
    ensures
      var on := m > 0 && (cs[m - 1] == START || cs[m - 1] == RELOAD);
      Fold(cs) <==> on == (multiset(cs[m..])[SWITCH] % 2 == 0)
  {
    var n := |cs| - 1;
    if m < |cs| {
      FlagIsParity(cs[..n], m);
      CountNext(cs, m);
    } else {
      assert cs[m..] == [];
    }
  }

  // ---------------------------------------------------------------- the server

  const MAX_CONNECTIONS: nat := 8

  /** A handler returns, or its thread waits for ever for a mutex that it holds itself. */
  datatype Outcome = Returned(result: int) | Blocked

  /** What a connecting peer can ask for; `Broken` if accepting it or receiving from it fails. */
  datatype Request = InputStream | Order(command: Command) | Invalid | Broken

  function Orders(rs: seq<Request>): seq<Command> {
    if rs == [] then []
    else
      var last := rs[|rs| - 1];
      Orders(rs[..|rs| - 1]) + if last.Order? then [last.command] else []
  }

  function Streams(rs: seq<Request>): nat {
    if rs == [] then 0 else Streams(rs[..|rs| - 1]) + if rs[|rs| - 1].InputStream? then 1 else 0
  }

  lemma RequestStep(rs: seq<Request>, n: nat)
    requires n < |rs|
    ensures Orders(rs[..n + 1]) == Orders(rs[..n]) + if rs[n].Order? then [rs[n].command] else []
    ensures Streams(rs[..n + 1]) == Streams(rs[..n]) + if rs[n].InputStream? then 1 else 0
  {
    assert rs[..n + 1][..n] == rs[..n];
  }

  /** A command that needs the mutex blocks from the first START on a set flag on. */
  predicate Blocks(before: seq<Command>, request: Request) {
    request.Order? && request.command != NONE && request.command != LIST && !Disciplined(before)
  }

  /** How a request that comes after the commands `before` leaves the accept loop: KILL ends it
      unless it blocks, a failure makes it return -1. */
  ghost predicate Served(before: seq<Command>, request: Request, running: bool, blocked: bool, result: int) {
    && (blocked <==> Blocks(before, request))
    && (running <==> request != Order(KILL) || blocked)
    && result == if request == Broken then -1 else 0
  }

  /** The accept loop after `served` requests: the last of them left it so, those before it neither
      ended nor blocked it. */
  ghost predicate Stage(before: seq<Command>, requests: seq<Request>, served: nat,
                        running: bool, blocked: bool, result: int)
    requires served <= |requests|
  {
    && (forall n :: 0 <= n < served - 1 ==>
          requests[n] != Order(KILL) && requests[n] != Broken && !Blocks(before + Orders(requests[..n]), requests[n]))
    && if served == 0 then running && !blocked && result == 0
       else Served(before + Orders(requests[..served - 1]), requests[served - 1], running, blocked, result)
  }

  lemma NextStage(before: seq<Command>, requests: seq<Request>, served: nat,
                  running: bool, blocked: bool, result: int)
    requires served < |requests| && Stage(before, requests, served, true, false, 0)
    requires Served(before + Orders(requests[..served]), requests[served], running, blocked, result)
    ensures Stage(before, requests, served + 1, running, blocked, result)
  {}

  /** The main thread and the fields it works on. Other threads hold the mutex only for a while,
      so for the main thread locking fails only when it holds the mutex itself. */
  class Server {
    var sending: bool
    var holds: bool
    var spawned: nat
    var connections: array<int>
    var numConns: nat
    ghost var received: seq<Command>   // history: all commands, in order of arrival
    ghost var slots: seq<nat>          // history: the slot given to each accepted stream

    ghost function V(): View
      reads this
    {
      View(sending, holds, spawned)
    }

    /** The mutex is held between commands exactly after a START on a set flag; up to then the
        flag is what the automaton says. Listener slots are dealt out in a fixed order. */
    ghost predicate Valid()
      reads this, connections
    {
      && (holds <==> !Disciplined(received))
      && (!holds ==> sending == Fold(received))
      && connections.Length == MAX_CONNECTIONS && (forall i :: 0 <= i < connections.Length ==> connections[i] == 0)
      && numConns == |slots| <= 8
      && forall n :: 0 <= n < |slots| ==> slots[n] == if n < 2 then 0 else n - 1
    }

    constructor ()
      ensures Valid() && fresh(connections) && V() == View(false, false, 0) && received == [] && slots == []
    {
      sending, holds, spawned, numConns := false, false, 0, 0;
      connections := new int[MAX_CONNECTIONS](_ => 0);
      received, slots := [], [];
    }

    method Start() returns (o: Outcome)
      modifies `sending, `holds, `spawned
      ensures old(holds) ==> o == Blocked && V() == old(V())
      ensures !old(holds) ==> o == Returned(0)
      ensures !old(holds) ==> V() == View(true, old(sending), old(spawned) + if old(sending) then 0 else 1)
    {
      if holds { return Blocked; }
      holds := true;
      if sending { return Returned(0); }
      sending := true;
      holds := false;
      spawned := spawned + 1;
      return Returned(0);
    }

    method Stop() returns (o: Outcome)
      modifies `sending, `holds
      ensures old(holds) ==> o == Blocked && V() == old(V())
      ensures !old(holds) ==> o == Returned(0) && V() == View(false, false, old(spawned))
    {
      if holds { return Blocked; }
      holds := true;
      sending := false;
      holds := false;
      return Returned(0);
    }

    method SwitchState() returns (o: Outcome)
      modifies `sending, `holds, `spawned
      ensures old(holds) ==> o == Blocked && V() == old(V())
      ensures !old(holds) ==> o == Returned(0)
      ensures !old(holds) ==> V() == View(!old(sending), false, old(spawned) + if old(sending) then 0 else 1)
    {
      if holds { return Blocked; }
      holds := true;
      if sending {
        holds := false;
        o := Stop();
      } else {
        holds := false;
        o := Start();
      }
      return Returned(0);
    }

    method Reload() returns (o: Outcome)
      modifies `sending, `holds, `spawned
      ensures old(holds) ==> o == Blocked && V() == old(V())
      ensures !old(holds) ==> o == Returned(0) && V() == View(true, false, old(spawned) + 1)
    {
      if holds { return Blocked; }
      holds := true;
      holds := false;
      o := Stop();
      o := Start();
      return Returned(0);
    }

    method Kill() returns (o: Outcome)
      modifies `sending, `holds
      ensures old(holds) ==> o == Blocked && V() == old(V())
      ensures !old(holds) ==> o == Returned(1) && V() == View(false, false, old(spawned))
    {
      o := Stop();
      if o.Returned? { o := Returned(1); }
    }

    /** The dispatch through the command table. */
    method Dispatch(c: Command) returns (o: Outcome)
      requires Valid()
      modifies `sending, `holds, `spawned, `received
      ensures Valid() && received == old(received) + [c]
      ensures o == Blocked <==> old(holds) && c != NONE && c != LIST
      ensures o.Returned? ==> o.result == if c == KILL then 1 else 0
      ensures o.Blocked? || c == NONE || c == LIST ==> V() == old(V())
      ensures !old(holds) && c == START ==>
        V() == View(true, old(sending), old(spawned) + if old(sending) then 0 else 1)
      ensures !old(holds) && (c == STOP || c == KILL) ==> V() == View(false, false, old(spawned))
      ensures !old(holds) && c == SWITCH ==>
        V() == View(!old(sending), false, old(spawned) + if old(sending) then 0 else 1)
      ensures !old(holds) && c == RELOAD ==> V() == View(true, false, old(spawned) + 1)
    {
      NextCommand(received, c);
      received := received + [c];
      match c {
        case NONE => o := Returned(0);
        case LIST => o := Returned(0);
        case START => o := Start();
        case STOP => o := Stop();
        case SWITCH => o := SwitchState();
        case RELOAD => o := Reload();
        case KILL => o := Kill();
      }
    }

    /** Accepting an input stream. No entry of `connections` is ever set, so the scan ends at the
        last slot below `num_conns`. */
    method AcceptStream()
      requires Valid()
      modifies `numConns, `slots
      ensures Valid() && numConns == |slots|
      ensures old(numConns) == 8 ==> slots == old(slots)
      ensures old(numConns) < 8 ==> slots == old(slots) + [if old(numConns) < 2 then 0 else old(numConns) - 1]
    {
      if numConns >= MAX_CONNECTIONS { return; }
      var openSlot := 0;
      var i := 0;
      while i < numConns
        invariant 0 <= i <= numConns && openSlot == if i == 0 then 0 else i - 1
      {
        if connections[i] == 0 { openSlot := i; }
        i := i + 1;
      }
      slots := slots + [openSlot];
      numConns := numConns + 1;
    }

    /** A listener thread that ends clears its own entry. */
    method ListenerEnds(slot: nat)
      requires Valid() && slot < connections.Length
      modifies connections
      ensures Valid() && connections[..] == old(connections[..])
    {
      connections[slot] := 0;
    }

    /** The body of the accept loop: one peer. */
    method Serve(request: Request) returns (running: bool, blocked: bool, result: int)
      requires Valid()
      modifies this
      ensures Valid() && connections == old(connections) && old(slots) <= slots
      ensures received == old(received) + if request.Order? then [request.command] else []
      ensures numConns == old(numConns) + if request.InputStream? && old(numConns) < 8 then 1 else 0
      ensures Served(old(received), request, running, blocked, result)
    {
      running, blocked, result := true, false, 0;
      match request {
        case InputStream => AcceptStream();
        case Order(c) =>
          var o := Dispatch(c);
          if o.Blocked? {
            blocked := true;
          } else if o.result == 1 {
            running := false;
          }
        case Invalid =>
        case Broken => result := -1;
      }
    }

    /** The accept loop over the peers that connect; `served` of them are looked at. It returns 0
        after a KILL and -1 at a peer that fails; when a command blocks or the peers are used up,
        it has not returned. */
    method Run(requests: seq<Request>) returns (served: nat, running: bool, blocked: bool, result: int)
      requires Valid()
      modifies this, connections
      ensures Valid() && connections == old(connections) && old(slots) <= slots && served <= |requests|
      ensures received == old(received) + Orders(requests[..served])
      ensures
        var wanted := old(numConns) + Streams(requests[..served]);
        numConns == if wanted < 8 then wanted else 8
      ensures Stage(old(received), requests, served, running, blocked, result)
      ensures running && !blocked && result == 0 ==> served == |requests|
    {
      served, running, blocked, result := 0, true, false, 0;
      assert requests[..0] == [];
      while running && !blocked && result == 0 && served < |requests|
        invariant Valid() && connections == old(connections) && old(slots) <= slots && served <= |requests|
        invariant received == old(received) + Orders(requests[..served])
        invariant
          var wanted := old(numConns) + Streams(requests[..served]);
          numConns == if wanted < 8 then wanted else 8
        invariant Stage(old(received), requests, served, running, blocked, result)
        decreases |requests| - served
      {
        RequestStep(requests, served);
        running, blocked, result := Serve(requests[served]);
        NextStage(old(received), requests, served, running, blocked, result);
        served := served + 1;
      }
    }
  }
}
