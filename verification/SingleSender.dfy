/** How many sender threads of src/server.c are alive at once, and whether a set flag means that
    there is one. */
module SingleSender {
  import opened Commands
  import opened Senders

  // ---------------------------------------------------------------- how handlers raise the flag

  /** How the handlers use the flag. `armed`: raised, and the sender not yet created; `clear`: the
      flag is known to be clear. */
  predicate Guarded(p: seq<Instr>, armed: bool, clear: bool)
    decreases Size(p)
  {
    if p == [] then !armed
    else match p[0]
      case Raise => !armed && clear && Guarded(p[1..], true, false)
      case Clear => !armed && Guarded(p[1..], false, true)
      case Spawn => armed && Guarded(p[1..], false, false)
      case IfSending(yes, no) => !armed && Guarded(yes, false, false) && Guarded(no, false, true)
      case _ => Guarded(p[1..], armed, clear)
  }

  lemma StartGuarded(clear: bool)
    ensures Guarded(START_PROGRAM, false, clear)
  {
    assert START_PROGRAM[1..] == [START_PROGRAM[1]] && [START_PROGRAM[1]][1..] == [];
    assert [Raise, Release, Spawn][1..] == [Release, Spawn] && [Release, Spawn][1..] == [Spawn] && [Spawn][1..] == [];
    assert Guarded([Release, Spawn], true, false) == Guarded([Spawn], true, false);
  }

  lemma StopGuarded(rest: seq<Instr>)
    requires Guarded(rest, false, true)
    ensures forall clear :: Guarded(STOP_PROGRAM + rest, false, clear)
  {
    var p := STOP_PROGRAM + rest;
    assert p[1..] == [Clear] + ([Release] + rest);
    assert p[1..][1..] == [Release] + rest;
    assert p[1..][1..][1..] == rest;
    assert Guarded([Release] + rest, false, true);
    forall clear ensures Guarded(p, false, clear) {
      assert Guarded(p[1..], false, clear);
    }
  }

  lemma SwitchGuarded()
    ensures Guarded(Program(SWITCH), false, false)
  {
    StartGuarded(true);
    StopGuarded([]);
    assert STOP_PROGRAM + [] == STOP_PROGRAM;
    assert ([Release] + STOP_PROGRAM)[1..] == STOP_PROGRAM;
    assert ([Release] + START_PROGRAM)[1..] == START_PROGRAM;
    assert Guarded([Release] + STOP_PROGRAM, false, false);
    assert Guarded([Release] + START_PROGRAM, false, true);
    var p := Program(SWITCH);
    assert p[1..] == [p[1]];
    assert Guarded([p[1]], false, false);
  }

  lemma ReloadGuarded()
    ensures Guarded(Program(RELOAD), false, false)
  {
    StartGuarded(true);
    StopGuarded(START_PROGRAM);
    var p := Program(RELOAD);
    assert p[1..] == [Release] + (STOP_PROGRAM + START_PROGRAM);
    assert p[1..][1..] == STOP_PROGRAM + START_PROGRAM;
    assert Guarded(p[1..], false, false);
  }

  lemma ProgramsGuarded(c: Command)
    ensures Guarded(Program(c), false, false)
  {
    match c {
      case START => StartGuarded(false);
      case STOP => StopGuarded([]); assert STOP_PROGRAM + [] == STOP_PROGRAM;
      case KILL => StopGuarded([]); assert STOP_PROGRAM + [] == STOP_PROGRAM;
      case SWITCH => SwitchGuarded();
      case RELOAD => ReloadGuarded();
      case _ =>
    }
  }

  lemma {:induction false} ArmedHasSpawn(p: seq<Instr>, clear: bool)
    requires Guarded(p, true, clear)
    ensures Spawn in p
    decreases |p|
  {
    if p[0] != Spawn { ArmedHasSpawn(p[1..], clear); }
  }

  // ---------------------------------------------------------------- who is left after a Clear

  /** While the flag is clear, the senders that are left are those that have not looked at it; and
      until the next sender is created, they are those that were live at the last Clear. */
  ghost predicate Tracked(s: State, armed: bool, clear: bool) {
    && Guarded(s.todo, armed, clear)
    && (clear ==> !s.sending) && (armed ==> s.sending)
    && (!s.sending ==> LiveIds(s) == s.unchecked)
    && (!s.sending || armed ==> LiveIds(s) == s.stale)
  }

  /** Whether the main thread executes `i` next. */
  predicate Executes(s: State, a: Action, i: Instr) { a == MainStep && s.todo != [] && s.todo[0] == i }

  lemma TrackedMain(s: State, armed: bool, clear: bool) returns (armed': bool, clear': bool)
    requires Tracked(s, armed, clear) && MainEnabled(s)
    ensures Tracked(DoMain(s), armed', clear')
    ensures armed' == if s.todo[0] == Raise then true else if s.todo[0] == Spawn then false else armed
    ensures s.todo[0] == Raise ==> !s.sending
    ensures s.todo[0] == Spawn ==> armed
  {
    armed', clear' := armed, clear;
    match s.todo[0] {
      case Raise => armed', clear' := true, false;
      case Clear => clear' := true;
      case Spawn => armed', clear' := false, false;
      case IfSending(_, _) => clear' := !s.sending;
      case _ =>
    }
    assert s.todo[0] != Spawn ==> LiveIds(DoMain(s)) == LiveIds(s);
  }

  lemma LiveAfterThreadStep(s: State, a: Action)
    requires Enabled(s, a) && (a.Go? || a.Skip? || a.Fail?)
    ensures
      var s' := Do(s, a);
      && s'.todo == s.todo && s'.sending == s.sending
      && LiveIds(s') == (if s'.threads[a.t].pc.Gone? then LiveIds(s) - {a.t} else LiveIds(s))
      && (s'.threads[a.t].pc.Gone? ==> s'.unchecked == s.unchecked - {a.t})
      && (!s.sending && !s'.threads[a.t].pc.Gone? ==> s'.unchecked == s.unchecked)
      && s'.stale == if s'.threads[a.t].pc.Gone? then s.stale - {a.t} else s.stale
  {
    var s' := Do(s, a);
    assert forall t: nat :: t < |s.threads| && t != a.t ==> s'.threads[t] == s.threads[t];
  }

  lemma TrackedStep(s: State, a: Action, armed: bool, clear: bool) returns (armed': bool, clear': bool)
    requires Tracked(s, armed, clear) && Enabled(s, a)
    ensures Tracked(Do(s, a), armed', clear')
    ensures armed' == if Executes(s, a, Raise) then true else if Executes(s, a, Spawn) then false else armed
    ensures Executes(s, a, Raise) ==> !s.sending
    ensures Executes(s, a, Spawn) ==> armed
  {
    armed', clear' := armed, clear;
    match a {
      case Arrive(c) =>
        ProgramsGuarded(c);
        clear' := false;
        assert LiveIds(Do(s, a)) == LiveIds(s);
      case MainStep => armed', clear' := TrackedMain(s, armed, clear);
      case _ => LiveAfterThreadStep(s, a);
    }
  }

  lemma {:induction false} TrackedRuns(s: State, acts: seq<Action>, armed: bool, clear: bool)
    returns (armed': bool, clear': bool)
    requires Tracked(s, armed, clear) && Runs(s, acts)
    ensures Tracked(After(s, acts), armed', clear')
    decreases |acts|
  {
    armed', clear' := armed, clear;
    if acts != [] {
      armed', clear' := TrackedStep(s, acts[0], armed, clear);
      armed', clear' := TrackedRuns(Do(s, acts[0]), acts[1..], armed', clear');
    }
  }

  // ---------------------------------------------------------------- one sender at a time

  /** No state of the run has two live senders. */
  predicate NeverTwo(s: State, acts: seq<Action>)
    requires Runs(s, acts)
    decreases |acts|
  {
    |LiveIds(s)| <= 1 && (acts == [] || NeverTwo(Do(s, acts[0]), acts[1..]))
  }

  /** A sender is created only when all that were live at the last Clear have ended. */
  predicate NoOverlap(s: State, acts: seq<Action>)
    requires Runs(s, acts)
    decreases |acts|
  {
    acts == [] ||
    ((Executes(s, acts[0], Spawn) ==> s.stale == {}) && NoOverlap(Do(s, acts[0]), acts[1..]))
  }

  /** The flag is raised only when no sender is left that was live when it was last cleared and has
      neither looked at it nor ended since. */
  predicate Patient(s: State, acts: seq<Action>)
    requires Runs(s, acts)
    decreases |acts|
  {
    acts == [] ||
    ((Executes(s, acts[0], Raise) ==> s.unchecked == {}) && Patient(Do(s, acts[0]), acts[1..]))
  }

  lemma LiveStep(s: State, a: Action)
    requires Enabled(s, a)
    ensures LiveIds(Do(s, a)) <= if Executes(s, a, Spawn) then LiveIds(s) + {|s.threads|} else LiveIds(s)
    ensures Executes(s, a, Spawn) ==> LiveIds(Do(s, a)) == LiveIds(s) + {|s.threads|} && |s.threads| !in LiveIds(s)
  {
    if a.Go? || a.Skip? || a.Fail? { LiveAfterThreadStep(s, a); }
  }

  lemma FewerMembers(a: set<nat>, b: set<nat>)
    requires a <= b
    ensures |a| <= |b|
  {
    assert b == a + (b - a);
  }

  lemma {:induction false} NeverTwoExactly(s: State, acts: seq<Action>, armed: bool, clear: bool)
    requires Tracked(s, armed, clear) && Runs(s, acts) && |LiveIds(s)| <= 1
    ensures NeverTwo(s, acts) <==> NoOverlap(s, acts)
    decreases |acts|
  {
    if acts != [] {
      var a, next := acts[0], Do(s, acts[0]);
      var armed', clear' := TrackedStep(s, a, armed, clear);
      LiveStep(s, a);
      if Executes(s, a, Spawn) {
        if s.stale == {} {
          assert LiveIds(next) == {|s.threads|};
          NeverTwoExactly(next, acts[1..], armed', clear');
        } else {
          var t :| t in s.stale;
          TwoMembers(LiveIds(next), t, |s.threads|);
        }
      } else {
        FewerMembers(LiveIds(next), LiveIds(s));
        NeverTwoExactly(next, acts[1..], armed', clear');
      }
    }
  }

  /** In any run, there are never two live senders exactly if every sender is created after all
      those that were live at the last Clear have ended. */
  lemma OneSenderExactly(k: nat, acts: seq<Action>)
    requires Runs(Init(k), acts)
    ensures NeverTwo(Init(k), acts) <==> NoOverlap(Init(k), acts)
  {
    assert LiveIds(Init(k)) == {};
    NeverTwoExactly(Init(k), acts, false, false);
  }

  lemma {:induction false} PatientNoOverlap(s: State, acts: seq<Action>, armed: bool, clear: bool)
    requires Tracked(s, armed, clear) && Runs(s, acts) && Patient(s, acts) && (armed ==> s.stale == {})
    ensures NoOverlap(s, acts)
    decreases |acts|
  {
    if acts != [] {
      var armed', clear' := TrackedStep(s, acts[0], armed, clear);
      if acts[0].Go? || acts[0].Skip? || acts[0].Fail? { LiveAfterThreadStep(s, acts[0]); }
      PatientNoOverlap(Do(s, acts[0]), acts[1..], armed', clear');
    }
  }

  /** If every sender gets to look at a cleared flag, or ends, before the flag is raised again,
      then no state of the run has more than one live sender. */
  lemma OneSenderAtATime(k: nat, acts: seq<Action>)
    requires Runs(Init(k), acts) && Patient(Init(k), acts)
    ensures NeverTwo(Init(k), acts)
  {
    assert LiveIds(Init(k)) == {};
    PatientNoOverlap(Init(k), acts, false, false);
    OneSenderExactly(k, acts);
  }

  /** A raised flag is followed by a new sender, as soon as the main thread goes on alone. */
  lemma {:induction false} SpawnFollows(s: State) returns (more: seq<Action>)
    requires Guarded(s.todo, true, false) && Outlook(s).Some? && !s.owner.Sender?
    ensures Runs(s, more) && After(s, more).threads == s.threads + [Thread(Connect, 0)]
    decreases |s.todo|
  {
    var next := DoMain(s);
    if s.todo[0] == Spawn {
      more := [MainStep];
      assert Runs(next, []) && After(next, []) == next && [MainStep][1..] == [];
    } else {
      more := SpawnFollows(next);
      assert ([MainStep] + more)[1..] == more;
      more := [MainStep] + more;
    }
  }

  /** The patience that `OneSenderAtATime` asks for is necessary: whenever the flag is about to be
      raised while some sender has not looked at it, the main thread alone makes them two. */
  lemma ImpatienceAllowsTwo(k: nat, acts: seq<Action>) returns (more: seq<Action>)
    requires Runs(Init(k), acts)
    requires
      var s := After(Init(k), acts);
      s.todo != [] && s.todo[0] == Raise && s.unchecked != {}
    ensures Runs(After(Init(k), acts), more)
    ensures |LiveIds(After(After(Init(k), acts), more))| >= 2
  {
    var s := After(Init(k), acts);
    LockingRuns(Init(k), acts);
    FlagIsProtected(k, acts);
    assert LiveIds(Init(k)) == {};
    var armed, clear := TrackedRuns(Init(k), acts, false, false);
    var raised := DoMain(s);
    LockingMain(s);
    more := SpawnFollows(raised);
    var s' := After(raised, more);
    assert ([MainStep] + more)[1..] == more;
    more := [MainStep] + more;
    var t :| t in s.unchecked;
    assert t in LiveIds(s) && t in LiveIds(s') && |s.threads| in LiveIds(s');
    TwoMembers(LiveIds(s'), t, |s.threads|);
  }

  // ---------------------------------------------------------------- what a set flag means

  /** A sender that has failed: on its way out, or gone. */
  predicate Lost(pc: Pc) { pc == Check(true) || pc == Checking(true) || pc == Gone }

  /** While the flag is set and its sender exists, that sender, the last one created, is lost
      exactly if one of its steps failed. `done` are the steps so far. */
  ghost predicate LastTold(s: State, done: seq<Action>, armed: bool) {
    && (forall t: nat :: Fail(t) in done ==> t < |s.threads|)
    && (s.sending && !armed ==>
          |s.threads| > 0 && (Lost(s.threads[|s.threads| - 1].pc) <==> Fail(|s.threads| - 1) in done))
  }

  lemma LastToldStep(s: State, done: seq<Action>, a: Action, armed: bool, clear: bool)
    returns (armed': bool, clear': bool)
    requires Tracked(s, armed, clear) && LastTold(s, done, armed) && Enabled(s, a)
    ensures Tracked(Do(s, a), armed', clear') && LastTold(Do(s, a), done + [a], armed')
  {
    armed', clear' := TrackedStep(s, a, armed, clear);
    forall x ensures x in done + [a] <==> x in done || x == a {}
  }

  lemma {:induction false} LastToldRuns(s: State, done: seq<Action>, acts: seq<Action>, armed: bool, clear: bool)
    returns (armed': bool, clear': bool)
    requires Tracked(s, armed, clear) && LastTold(s, done, armed) && Runs(s, acts)
    ensures Tracked(After(s, acts), armed', clear') && LastTold(After(s, acts), done + acts, armed')
    decreases |acts|
  {
    armed', clear' := armed, clear;
    if acts == [] {
      assert done + acts == done;
    } else {
      armed', clear' := LastToldStep(s, done, acts[0], armed, clear);
      armed', clear' := LastToldRuns(Do(s, acts[0]), done + [acts[0]], acts[1..], armed', clear');
      assert done + [acts[0]] + acts[1..] == done + acts;
    }
  }

  /** In every reachable state with the flag set and no sender about to be created, the sender
      created last is lost exactly if one of its steps failed. So a set flag means a live sender
      unless that sender failed. */
  lemma SetFlagMeansSender(k: nat, acts: seq<Action>)
    requires Runs(Init(k), acts)
    ensures
      var s := After(Init(k), acts);
      var last := |s.threads| - 1;
      s.sending && Spawn !in s.todo ==>
        && last >= 0
        && (Lost(s.threads[last].pc) <==> Fail(last) in acts)
        && (LiveIds(s) == {} ==> Fail(last) in acts)
  {
    assert LiveIds(Init(k)) == {};
    var armed, clear := LastToldRuns(Init(k), [], acts, false, false);
    assert [] + acts == acts;
    var s := After(Init(k), acts);
    if armed { ArmedHasSpawn(s.todo, clear); }
    if s.sending && !armed && LiveIds(s) == {} {
      assert |s.threads| - 1 !in LiveIds(s);
    }
  }

  // ---------------------------------------------------------------- runs that go wrong

  lemma TwoMembers(ids: set<nat>, a: nat, b: nat)
    requires a in ids && b in ids && a != b
    ensures |ids| >= 2
  {
    assert {a, b} <= ids && |{a, b}| == 2;
    assert ids == {a, b} + (ids - {a, b});
  }

  ghost predicate Idle(s: State) { s.running && s.todo == [] && s.owner == Nobody }

  /** START on a clear flag, with no other thread in between. */
  lemma StartFrom(k: nat, s: State) returns (s': State)
    requires Reachable(k, s) && Idle(s) && !s.sending
    ensures Reachable(k, s') && Idle(s')
    ensures s' == s.(sending := true, history := s.history + [START], threads := s.threads + [Thread(Connect, 0)])
  {
    s' := Extend(k, s, Arrive(START));
    s' := Extend(k, s', MainStep);
    assert s'.todo == [IfSending([], [Raise, Release, Spawn])];
    s' := Extend(k, s', MainStep);
    s' := Extend(k, s', MainStep);
    s' := Extend(k, s', MainStep);
    s' := Extend(k, s', MainStep);
  }

  lemma StopFrom(k: nat, s: State) returns (s': State)
    requires Reachable(k, s) && Idle(s)
    ensures Reachable(k, s') && Idle(s')
    ensures s' == s.(sending := false, history := s.history + [STOP],
                    unchecked := LiveIds(s), stale := LiveIds(s))
  {
    s' := Extend(k, s, Arrive(STOP));
    s' := Extend(k, s', MainStep);
    assert s'.todo == [Clear, Release];
    s' := Extend(k, s', MainStep);
    assert LiveIds(s) == s'.unchecked == s'.stale;
    s' := Extend(k, s', MainStep);
  }

  /** Without patience two senders can be live at once: STOP and START come so close together
      that the first sender does not look at the flag in between. */
  lemma TwoSenders(k: nat) returns (acts: seq<Action>)
    ensures Runs(Init(k), acts)
    ensures
      var s := After(Init(k), acts);
      s.history == [START, STOP, START] && Disciplined(s.history) && LiveIds(s) == {0, 1}
  {
    var s := Init(k);
    assert Reachable(k, s) by { assert Runs(s, []) && After(s, []) == s; }
    s := StartFrom(k, s);
    s := StopFrom(k, s);
    s := StartFrom(k, s);
    assert s.history == [START, STOP, START];
    RestartIsDisciplined();
    acts :| Runs(Init(k), acts) && After(Init(k), acts) == s;
  }

  lemma RestartIsDisciplined()
    ensures Disciplined([START, STOP, START])
  {
    assert [START, STOP, START][..2] == [START, STOP] && [START, STOP][..1] == [START] && [START][..0] == [];
    assert Fold([START, STOP]) == false && Fold([START]) == true;
  }

  /** The flag can be set with no sender at all: a sender that cannot connect does not clear it. */
  lemma SendingWithoutSender(k: nat) returns (acts: seq<Action>)
    ensures Runs(Init(k), acts)
    ensures
      var s := After(Init(k), acts);
      s.history == [START] && s.todo == [] && s.sending && LiveIds(s) == {}
  {
    var s := Init(k);
    assert Reachable(k, s) by { assert Runs(s, []) && After(s, []) == s; }
    s := StartFrom(k, s);
    s := Extend(k, s, Go(0));
    s := Extend(k, s, Fail(0));
    assert LiveIds(s) == {};
    acts :| Runs(Init(k), acts) && After(Init(k), acts) == s;
  }
}
