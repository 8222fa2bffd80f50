/** The daemon of src/server.c as interleaved steps of its main thread, which runs the command
    handlers, and of any number of sender threads, which share the mutex and the flag with it. */
module Senders {
  import opened Options
  import opened Commands

  /** Where a sender thread is, from its creation to the end of its loop. */
  datatype Pc =
    | Connect | Connecting        // waiting for the mutex; holding it
    | Open | Opening
    | Announce                    // sends the description of its devices
    | Top | ReadCount             // loop head: waiting; holding, reads the number of devices
    | Poll
    | Visit(i: nat)               // in a round, before device i
    | Check(failed: bool) | Checking(failed: bool)
    | Gone

  datatype Thread = Thread(pc: Pc, sent: nat)

  datatype Owner = Nobody | Main | Sender(id: nat)

  datatype State = State(
    k: nat,                        // number of devices in the configuration
    sending: bool,
    owner: Owner,                  // of the sender mutex
    todo: seq<Instr>,              // the rest of the handler that the main thread is in
    running: bool,
    history: seq<Command>,         // all commands, in order of arrival
    threads: seq<Thread>,
    unchecked: set<nat>,           // live at the last Clear, and neither checked nor ended since
    stale: set<nat>)               // live at the last Clear, and not ended since

  datatype Action =
    | Arrive(c: Command)
    | MainStep
    | Go(t: nat)                   // the next step of thread t, when it does not fail
    | Skip(t: nat)                 // thread t passes a device that is not ready
    | Fail(t: nat)

  function Init(k: nat): State { State(k, false, Nobody, [], true, [], [], {}, {}) }

  predicate Waits(pc: Pc) { pc.Connect? || pc.Open? || pc.Top? || pc.Check? }

  predicate Holds(pc: Pc) { pc.Connecting? || pc.Opening? || pc.ReadCount? || pc.Checking? }

  predicate MainEnabled(s: State) {
    s.todo != [] &&
    match s.todo[0]
    case Acquire => s.owner == Nobody
    case Release => s.owner == Main
    case _ => true
  }

  predicate Enabled(s: State, a: Action) {
    match a
    case Arrive(_) => s.running && s.todo == []
    case MainStep => MainEnabled(s)
    case Go(t) =>
      && t < |s.threads| && !s.threads[t].pc.Gone?
      && (Waits(s.threads[t].pc) ==> s.owner == Nobody)
      && (Holds(s.threads[t].pc) ==> s.owner == Sender(t))
    case Skip(t) => t < |s.threads| && s.threads[t].pc.Visit? && s.threads[t].pc.i < s.k
    case Fail(t) =>
      && t < |s.threads|
      && match s.threads[t].pc
         case Connect => true                            // no socket
         case Connecting => s.owner == Sender(t)         // cannot connect
         case Opening => s.owner == Sender(t)            // a device cannot be opened
         case Announce => true
         case Poll => true
         case Visit(i) => i < s.k
         case _ => false
  }

  function LiveIds(s: State): set<nat> { set t: nat | t < |s.threads| && !s.threads[t].pc.Gone? }

  function DoMain(s: State): State
    requires MainEnabled(s)
  {
    var rest := s.(todo := s.todo[1..]);
    match s.todo[0]
    case Acquire => rest.(owner := Main)
    case Release => rest.(owner := Nobody)
    case Raise => rest.(sending := true)
    case Clear => rest.(sending := false, unchecked := LiveIds(s), stale := LiveIds(s))
    case Spawn => rest.(threads := s.threads + [Thread(Connect, 0)])
    case IfSending(yes, no) => s.(todo := if s.sending then yes else no)
  }

  /** Where thread `t` goes when nothing fails. */
  function NextPc(s: State, pc: Pc): Pc {
    match pc
    case Connect => Connecting
    case Connecting => Open
    case Open => Opening
    case Opening => Announce
    case Announce => Top
    case Top => ReadCount
    case ReadCount => Poll
    case Poll => Visit(0)
    case Visit(i) => if i < s.k then Visit(i + 1) else Check(false)
    case Check(failed) => Checking(failed)
    case Checking(failed) => if failed || !s.sending then Gone else Top
    case Gone => Gone
  }

  function SetThread(s: State, t: nat, th: Thread): State
    requires t < |s.threads|
  {
    s.(threads := s.threads[t := th],
       unchecked := if th.pc.Gone? || s.threads[t].pc.Checking? then s.unchecked - {t} else s.unchecked,
       stale := if th.pc.Gone? then s.stale - {t} else s.stale)
  }

  function Do(s: State, a: Action): State
    requires Enabled(s, a)
  {
    match a
    case Arrive(c) => s.(todo := Program(c), running := c != KILL, history := s.history + [c])
    case MainStep => DoMain(s)
    case Go(t) =>
      var th := s.threads[t];
      var sends := th.pc.Visit? && th.pc.i < s.k;
      SetThread(s, t, Thread(NextPc(s, th.pc), if sends then th.sent + 1 else th.sent))
        .(owner := if Waits(th.pc) then Sender(t) else if Holds(th.pc) then Nobody else s.owner)
    case Skip(t) => SetThread(s, t, s.threads[t].(pc := Visit(s.threads[t].pc.i + 1)))
    case Fail(t) =>
      var pc := s.threads[t].pc;
      SetThread(s, t, s.threads[t].(pc := if pc.Poll? || pc.Visit? then Check(true) else Gone))
        .(owner := if Holds(pc) then Nobody else s.owner)
  }

  predicate Runs(s: State, acts: seq<Action>)
    decreases |acts|
  {
    acts == [] || (Enabled(s, acts[0]) && Runs(Do(s, acts[0]), acts[1..]))
  }

  function After(s: State, acts: seq<Action>): State
    requires Runs(s, acts)
    decreases |acts|
  {
    if acts == [] then s else After(Do(s, acts[0]), acts[1..])
  }

  // ---------------------------------------------------------------- the mutex and the flag

  function MainView(s: State): View { View(s.sending, s.owner == Main, 0) }

  /** What the rest of the current handler leads to, senders created aside. */
  function Outlook(s: State): Option<(bool, bool)> {
    var r := RunProgram(s.todo, MainView(s));
    if r.None? then None else Some((r.value.sending, r.value.holds))
  }

  /** The main thread holds the mutex and does nothing more with it. */
  predicate Wedged(s: State) {
    s.owner == Main && (s.todo == [] || s.todo[0] == Acquire)
  }

  ghost predicate Locking(s: State) {
    && (forall t: nat :: t < |s.threads| ==> (Holds(s.threads[t].pc) <==> s.owner == Sender(t)))
    && (s.owner.Sender? ==> s.owner.id < |s.threads|)
    && (Disciplined(s.history) ==> Outlook(s) == Some((Fold(s.history), false)))
    && (!Disciplined(s.history) ==> Outlook(s) == Some((true, true)) || Wedged(s))
  }

  lemma LockingMain(s: State)
    requires Locking(s) && MainEnabled(s)
    ensures Locking(DoMain(s))
  {
    var s' := DoMain(s);
    if Disciplined(s.history) || !Wedged(s) {
      SpawnsDoNotMatter(s.todo[1..], MainView(s'), 1);
      assert Outlook(s') == Outlook(s);
    }
  }

  /** The number of senders created has no influence on the rest. */
  lemma {:induction false} SpawnsDoNotMatter(p: seq<Instr>, v: View, n: nat)
    ensures
      var a, b := RunProgram(p, v), RunProgram(p, v.(spawned := n));
      a.Some? == b.Some? && (a.Some? ==> a.value.sending == b.value.sending && a.value.holds == b.value.holds)
    decreases Size(p)
  {
    if p != [] {
      match p[0] {
        case Acquire => if !v.holds { SpawnsDoNotMatter(p[1..], v.(holds := true), n); }
        case Release => if v.holds { SpawnsDoNotMatter(p[1..], v.(holds := false), n); }
        case Raise => SpawnsDoNotMatter(p[1..], v.(sending := true), n);
        case Clear => SpawnsDoNotMatter(p[1..], v.(sending := false), n);
        case Spawn =>
          SpawnsDoNotMatter(p[1..], v.(spawned := v.spawned + 1), n);
          SpawnsDoNotMatter(p[1..], v.(spawned := n + 1), n);
        case IfSending(yes, no) => SpawnsDoNotMatter(if v.sending then yes else no, v, n);
      }
    }
  }

  lemma LockingArrive(s: State, c: Command)
    requires Locking(s) && Enabled(s, Arrive(c))
    ensures Locking(Do(s, Arrive(c)))
  {
    var s' := Do(s, Arrive(c));
    assert s'.history[..|s.history|] == s.history;
    if s.owner != Main { HandlersFollowAutomaton(c, MainView(s)); }
  }

  lemma LockingStep(s: State, a: Action)
    requires Locking(s) && Enabled(s, a)
    ensures Locking(Do(s, a))
  {
    match a {
      case Arrive(c) => LockingArrive(s, c);
      case MainStep => LockingMain(s);
      case _ =>
        var s' := Do(s, a);
        assert s'.todo == s.todo && MainView(s') == MainView(s);
    }
  }

  lemma {:induction false} LockingRuns(s: State, acts: seq<Action>)
    requires Locking(s) && Runs(s, acts)
    ensures Locking(After(s, acts))
    decreases |acts|
  {
    if acts != [] {
      LockingStep(s, acts[0]);
      LockingRuns(Do(s, acts[0]), acts[1..]);
    }
  }

  /** In every interleaving: between commands the main thread holds the mutex exactly if some
      START arrived while the flag was set, and up to such a START the flag is what the on/off
      automaton makes of the commands. At most one thread holds the mutex, the one it records. */
  lemma LockDiscipline(k: nat, acts: seq<Action>)
    requires Runs(Init(k), acts)
    ensures
      var s := After(Init(k), acts);
      && (s.todo == [] ==> (s.owner == Main <==> !Disciplined(s.history)))
      && (s.todo == [] && Disciplined(s.history) ==> s.sending == Fold(s.history))
      && (forall t: nat :: t < |s.threads| ==> (Holds(s.threads[t].pc) <==> s.owner == Sender(t)))
  {
    LockingRuns(Init(k), acts);
  }

  /** The flag between commands, as long as no START arrived on a set flag: the last START,
      RELOAD, STOP or KILL, or the beginning, sets it on or off, each SWITCH since then toggles it. */
  lemma FlagCountsSwitches(k: nat, acts: seq<Action>, m: nat)
    requires Runs(Init(k), acts)
    requires After(Init(k), acts).todo == [] && Disciplined(After(Init(k), acts).history)
    requires
      var cs := After(Init(k), acts).history;
      && m <= |cs| && (forall j :: m <= j < |cs| ==> cs[j] == SWITCH || cs[j] == NONE || cs[j] == LIST)
      && (m == 0 || cs[m - 1] == START || cs[m - 1] == RELOAD || cs[m - 1] == STOP || cs[m - 1] == KILL)
    ensures
      var s := After(Init(k), acts);
      var on := m > 0 && (s.history[m - 1] == START || s.history[m - 1] == RELOAD);
      s.sending <==> on == (multiset(s.history[m..])[SWITCH] % 2 == 0)
  {
    LockDiscipline(k, acts);
    FlagIsParity(After(Init(k), acts).history, m);
  }

  ghost predicate RunningUntilKill(s: State) {
    && (s.running <==> KILL !in s.history)
    && forall j :: 0 <= j < |s.history| - 1 ==> s.history[j] != KILL
  }

  lemma {:induction false} KillKept(s: State, acts: seq<Action>)
    requires RunningUntilKill(s) && Runs(s, acts)
    ensures RunningUntilKill(After(s, acts))
    decreases |acts|
  {
    if acts != [] {
      var next := Do(s, acts[0]);
      if acts[0].Arrive? { assert next.history == s.history + [acts[0].c]; }
      KillKept(next, acts[1..]);
    }
  }

  /** No command is taken after a KILL. */
  lemma KillIsLast(k: nat, acts: seq<Action>)
    requires Runs(Init(k), acts)
    ensures
      var s := After(Init(k), acts);
      && (forall j :: 0 <= j < |s.history| - 1 ==> s.history[j] != KILL)
      && (KILL in s.history ==> forall c :: !Enabled(s, Arrive(c)))
  {
    KillKept(Init(k), acts);
  }

  // ---------------------------------------------------------------- the flag is guarded

  predicate TouchesFlag(i: Instr) { i.Raise? || i.Clear? || i.IfSending? }

  /** A program that touches the flag only with the mutex, and gives back only what it holds. */
  predicate Protected(p: seq<Instr>, held: bool)
    decreases Size(p)
  {
    if p == [] then true
    else match p[0]
      case Acquire => Protected(p[1..], true)
      case Release => held && Protected(p[1..], false)
      case Spawn => Protected(p[1..], held)
      case IfSending(yes, no) => held && Protected(yes, true) && Protected(no, true)
      case _ => held && Protected(p[1..], held)
  }

  lemma {:induction false} ProtectedConcat(p: seq<Instr>, q: seq<Instr>, held: bool)
    requires Protected(p, held) && (forall h :: Protected(q, h)) && forall i :: i in p ==> !i.IfSending?
    ensures Protected(p + q, held)
    decreases |p|
  {
    if p == [] {
      assert p + q == q;
    } else {
      assert (p + q)[1..] == p[1..] + q;
      ProtectedConcat(p[1..], q, p[0] == Acquire || (p[0] != Release && held));
    }
  }

  lemma StopProtected()
    ensures forall h :: Protected(STOP_PROGRAM, h)
  {
    var p := STOP_PROGRAM;
    assert p[1..] == [Clear, Release] && [Clear, Release][1..] == [Release] && [Release][1..] == [];
    assert Protected([Release], true) && Protected([Clear, Release], true);
  }

  lemma StartProtected()
    ensures forall h :: Protected(START_PROGRAM, h)
  {
    var no := [Raise, Release, Spawn];
    assert no[1..] == [Release, Spawn] && [Release, Spawn][1..] == [Spawn] && [Spawn][1..] == [];
    assert Protected([Spawn], false) && Protected([Release, Spawn], true) && Protected(no, true);
    assert START_PROGRAM[1..] == [IfSending([], no)];
    assert Protected([IfSending([], no)], true);
  }

  lemma SwitchProtected(held: bool)
    ensures Protected(Program(SWITCH), held)
  {
    StopProtected();
    StartProtected();
    var yes, no := [Release] + STOP_PROGRAM, [Release] + START_PROGRAM;
    assert yes[1..] == STOP_PROGRAM && no[1..] == START_PROGRAM;
    assert Protected(yes, true) && Protected(no, true);
    assert Program(SWITCH)[1..] == [IfSending(yes, no)];
    assert Protected([IfSending(yes, no)], true);
  }

  lemma ReloadProtected(held: bool)
    ensures Protected(Program(RELOAD), held)
  {
    StopProtected();
    StartProtected();
    assert forall i :: i in STOP_PROGRAM ==> !i.IfSending?;
    forall h ensures Protected(STOP_PROGRAM + START_PROGRAM, h) { ProtectedConcat(STOP_PROGRAM, START_PROGRAM, h); }
    var first := [Acquire, Release];
    assert first[1..] == [Release] && [Release][1..] == [];
    assert Protected([Release], true) && Protected(first, held);
    ProtectedConcat(first, STOP_PROGRAM + START_PROGRAM, held);
    assert Program(RELOAD) == first + (STOP_PROGRAM + START_PROGRAM);
  }

  lemma ProgramsProtected(c: Command, held: bool)
    ensures Protected(Program(c), held)
  {
    match c {
      case START => StartProtected();
      case SWITCH => SwitchProtected(held);
      case RELOAD => ReloadProtected(held);
      case STOP => StopProtected();
      case KILL => StopProtected();
      case _ =>
    }
  }

  lemma {:induction false} ProtectedRuns(s: State, acts: seq<Action>)
    requires Protected(s.todo, s.owner == Main) && Runs(s, acts)
    ensures Protected(After(s, acts).todo, After(s, acts).owner == Main)
    decreases |acts|
  {
    if acts != [] {
      var next := Do(s, acts[0]);
      if acts[0].Arrive? { ProgramsProtected(acts[0].c, s.owner == Main); }
      assert Protected(next.todo, next.owner == Main);
      ProtectedRuns(next, acts[1..]);
    }
  }

  /** No race on the flag: in every reachable state, a thread whose next step reads or writes it
      holds the mutex, and there is only one such thread. */
  lemma FlagIsProtected(k: nat, acts: seq<Action>)
    requires Runs(Init(k), acts)
    ensures
      var s := After(Init(k), acts);
      && (s.todo != [] && TouchesFlag(s.todo[0]) ==> s.owner == Main)
      && (forall t: nat :: t < |s.threads| && s.threads[t].pc.Checking? ==> s.owner == Sender(t))
  {
    ProtectedRuns(Init(k), acts);
    LockDiscipline(k, acts);
    var s := After(Init(k), acts);
    forall t: nat | t < |s.threads| && s.threads[t].pc.Checking? ensures s.owner == Sender(t) {
      assert Holds(s.threads[t].pc);
    }
  }

  // ---------------------------------------------------------------- how much is still sent

  /** How many packets a thread can send before its next look at the flag. */
  function Room(k: nat, pc: Pc): nat {
    match pc
    case Visit(i) => if i < k then k - i else 0
    case Check(_) => 0
    case Checking(_) => 0
    case Gone => 0
    case _ => k
  }

  /** Every look at the flag fails or is impossible. */
  predicate Stopping(s: State) { !s.sending || Wedged(s) }

  lemma RoomStep(s: State, a: Action, t: nat)
    requires t < |s.threads| && Stopping(s) && Enabled(s, a)
    ensures
      var s' := Do(s, a);
      && t < |s'.threads| && s'.k == s.k
      && s'.threads[t].sent + Room(s.k, s'.threads[t].pc) <= s.threads[t].sent + Room(s.k, s.threads[t].pc)
  {}

  /** The flag is clear before each of the steps. */
  predicate StaysClear(s: State, acts: seq<Action>)
    requires Runs(s, acts)
    decreases |acts|
  {
    acts == [] || (!s.sending && StaysClear(Do(s, acts[0]), acts[1..]))
  }

  /** Whatever the interleaving: from any point at which the flag is clear until it is set again,
      every sender sends no more than is left of its current round, or of the one round it may
      still begin, and so never more than the number of devices. */
  lemma {:induction false} StopDrains(s: State, acts: seq<Action>, t: nat)
    requires t < |s.threads| && Runs(s, acts) && StaysClear(s, acts)
    ensures
      var s' := After(s, acts);
      && t < |s'.threads|
      && s'.threads[t].sent + Room(s.k, s'.threads[t].pc) <= s.threads[t].sent + Room(s.k, s.threads[t].pc)
      && s'.threads[t].sent <= s.threads[t].sent + s.k
    decreases |acts|
  {
    if acts != [] {
      RoomStep(s, acts[0], t);
      var next := Do(s, acts[0]);
      StopDrains(next, acts[1..], t);
    }
  }

  predicate Live(s: State, t: nat) { t < |s.threads| && !s.threads[t].pc.Gone? }

  /** Whether thread `t` looks at the flag during the steps. */
  predicate Checks(s: State, acts: seq<Action>, t: nat)
    requires Runs(s, acts)
    decreases |acts|
  {
    acts != [] &&
    ((acts[0] == Go(t) && s.threads[t].pc.Checking?) || Checks(Do(s, acts[0]), acts[1..], t))
  }

  /** A sender that does not fail outlives a period with the flag clear, such as that of a RELOAD,
      exactly when it does not look at the flag during it. */
  lemma {:induction false} SurvivesUnlessItChecks(s: State, acts: seq<Action>, t: nat)
    requires Live(s, t) && Runs(s, acts) && StaysClear(s, acts) && Fail(t) !in acts
    ensures Live(After(s, acts), t) <==> !Checks(s, acts, t)
    decreases |acts|
  {
    if acts != [] {
      var next := Do(s, acts[0]);
      if Live(next, t) { SurvivesUnlessItChecks(next, acts[1..], t); } else { GoneForEver(next, acts[1..], t); }
    }
  }

  lemma {:induction false} GoneForEver(s: State, acts: seq<Action>, t: nat)
    requires t < |s.threads| && s.threads[t].pc.Gone? && Runs(s, acts)
    ensures !Live(After(s, acts), t)
    decreases |acts|
  {
    if acts != [] { GoneForEver(Do(s, acts[0]), acts[1..], t); }
  }

  /** A sender whose round failed sends nothing more and does not come back to its loop, whatever
      the flag says. */
  lemma {:induction false} FailureIsFinal(s: State, acts: seq<Action>, t: nat)
    requires t < |s.threads| && Runs(s, acts)
    requires s.threads[t].pc == Check(true) || s.threads[t].pc == Checking(true) || s.threads[t].pc == Gone
    ensures t < |After(s, acts).threads|
    ensures
      var th := After(s, acts).threads[t];
      && th.sent == s.threads[t].sent
      && (th.pc == Check(true) || th.pc == Checking(true) || th.pc == Gone)
    decreases |acts|
  {
    if acts != [] { FailureIsFinal(Do(s, acts[0]), acts[1..], t); }
  }

  /** After a START on a set flag nothing recovers: the mutex stays with the main thread, no
      command that needs it ever takes a step, the flag stays set, no sender is created, and each
      sender stops forwarding within the round it is in. */
  lemma {:induction false} WedgedForEver(s: State, acts: seq<Action>, t: nat)
    requires Wedged(s) && t < |s.threads| && Runs(s, acts)
    ensures
      var s' := After(s, acts);
      && Wedged(s') && !MainEnabled(s')
      && s'.sending == s.sending && |s'.threads| == |s.threads|
      && s'.threads[t].sent + Room(s.k, s'.threads[t].pc) <= s.threads[t].sent + Room(s.k, s.threads[t].pc)
      && s'.threads[t].sent <= s.threads[t].sent + s.k
    decreases |acts|
  {
    if acts != [] {
      RoomStep(s, acts[0], t);
      WedgedForEver(Do(s, acts[0]), acts[1..], t);
    }
  }

  // ---------------------------------------------------------------- runs step by step

  ghost predicate Reachable(k: nat, s: State) {
    exists acts :: Runs(Init(k), acts) && After(Init(k), acts) == s
  }

  lemma {:induction false} AfterSnoc(s: State, acts: seq<Action>, a: Action)
    requires Runs(s, acts) && Enabled(After(s, acts), a)
    ensures Runs(s, acts + [a]) && After(s, acts + [a]) == Do(After(s, acts), a)
    decreases |acts|
  {
    if acts == [] {
      assert [a][1..] == [];
    } else {
      assert (acts + [a])[1..] == acts[1..] + [a];
      AfterSnoc(Do(s, acts[0]), acts[1..], a);
    }
  }

  lemma Extend(k: nat, s: State, a: Action) returns (s': State)
    requires Reachable(k, s) && Enabled(s, a)
    ensures Reachable(k, s') && s' == Do(s, a)
  {
    var acts :| Runs(Init(k), acts) && After(Init(k), acts) == s;
    AfterSnoc(Init(k), acts, a);
    s' := Do(s, a);
  }
}
