// A run of the protocol of LiveDev.dfy in which the replacement of a restart is selected although it is dead, and
// was not verified in the survey before that.
module LiveDevRun {
  import opened LiveDev
  import opened Options

  ghost predicate LeadsTo(states: seq<State>, actions: seq<Action>, s: State) {
    Run(states, actions) && states[|actions|] == s
  }

  ghost predicate Reachable(s: State) {
    exists states, actions :: LeadsTo(states, actions, s)
  }

  lemma Extended(states: seq<State>, actions: seq<Action>, a: Action)
    requires Run(states, actions) && Enabled(states[|actions|], a)
    ensures LeadsTo(states + [Apply(states[|actions|], a)], actions + [a], Apply(states[|actions|], a))
  {
  }

  lemma Reaches(s: State, a: Action, s2: State)
    requires Reachable(s) && Enabled(s, a) && s2 == Apply(s, a)
    ensures Reachable(s2)
  {
    var states, actions :| LeadsTo(states, actions, s);
    Extended(states, actions, a);
  }

  // The target of the restart dies in a reboot; the replacement is its successor at pid 7.

  const TARGET: Ident := Ident(1, 0)
  const CHILD: Ident := Ident(7, 1)
  const GOAL: Goal := Restart(TARGET, {})

  function Only(pc: Pc): map<nat, Launcher> {
    map[0 := Launcher(GOAL, pc)]
  }

  /** One launcher, which holds the lock. */
  function Mid(w: World, pc: Pc, intent: Intent, launched: set<Ident>, verified: set<Ident>): State {
    State(w, true, Only(pc), Some(0), intent, None, launched, verified, {})
  }

  function Down(): World {
    World(map[], 1, {}, {})
  }

  /** The child in its slot. */
  function Up(running: bool, published: set<Ident>, ready: set<Ident>): World {
    World(map[7 := Slot(1, running, Some(0))], 2, published, ready)
  }

  lemma MovesPc(s: State, pc: Pc, pc2: Pc)
    requires s.launchers == Only(pc)
    ensures At(s, 0, pc2) == s.(launchers := Only(pc2))
  {
  }

  lemma Steps(w: World, pc: Pc, intent: Intent, launched: set<Ident>, verified: set<Ident>, step: Step, s2: State)
    requires Reachable(Mid(w, pc, intent, launched, verified)) && CanDo(w, intent, GOAL, pc, step)
    requires s2 == Done(Mid(w, pc, intent, launched, verified), 0, GOAL, pc, step)
    ensures Reachable(s2)
  {
    Reaches(Mid(w, pc, intent, launched, verified), Do(0, step), s2);
  }

  /** A step that only moves the launcher on. */
  lemma Goes(w: World, pc: Pc, intent: Intent, launched: set<Ident>, verified: set<Ident>, step: Step, pc2: Pc)
    requires Reachable(Mid(w, pc, intent, launched, verified)) && CanDo(w, intent, GOAL, pc, step)
    requires var s := Mid(w, pc, intent, launched, verified); Done(s, 0, GOAL, pc, step) == At(s, 0, pc2)
    ensures Reachable(Mid(w, pc2, intent, launched, verified))
  {
    var s := Mid(w, pc, intent, launched, verified);
    MovesPc(s, pc, pc2);
    Steps(w, pc, intent, launched, verified, step, Mid(w, pc2, intent, launched, verified));
  }

  function Start0(): State {
    State(World(map[], 0, {}, {}), true, map[], None, Absent, None, {}, {}, {})
  }

  lemma TargetStarts()
    ensures Reachable(Start0().(world := World(map[1 := Slot(0, true, None)], 1, {}, {})))
  {
    var s := Start0();
    assert LeadsTo([s], [], s);
    assert Start(s.world, 1, None) == World(map[1 := Slot(0, true, None)], 1, {}, {});
    Reaches(s, Exec(1), s.(world := World(map[1 := Slot(0, true, None)], 1, {}, {})));
  }

  lemma TargetDies()
    ensures Reachable(Start0().(world := Down()))
  {
    TargetStarts();
    Reaches(Start0().(world := World(map[1 := Slot(0, true, None)], 1, {}, {})), Reboot(false),
            Start0().(world := Down()));
  }

  lemma Arrives()
    ensures Reachable(Start0().(world := Down(), launchers := Only(Outside)))
  {
    TargetDies();
    Reaches(Start0().(world := Down()), Arrive(0, GOAL), Start0().(world := Down(), launchers := Only(Outside)));
  }

  lemma Acquires()
    ensures Reachable(Mid(Down(), Pending(First, None), Absent, {}, {}))
  {
    Arrives();
    var s := Start0().(world := Down(), launchers := Only(Outside));
    MovesPc(s.(lock := Some(0)), Outside, Pending(First, None));
    Reaches(s, Acquire(0), Mid(Down(), Pending(First, None), Absent, {}, {}));
  }

  function Empty(why: Why): Pc {
    Survey({}, {}, map[], {}, why)
  }

  lemma FirstGate()
    ensures Reachable(Mid(Down(), OpenFd, Absent, {}, {}))
  {
    Acquires();
    Goes(Down(), Pending(First, None), Absent, {}, {}, ReadIntent, Empty(GateBefore));
    var none: map<Ident, bool> := map[];
    assert none.Keys - {TARGET} == {};
    Goes(Down(), Empty(GateBefore), Absent, {}, {}, Examined, OpenFd);
  }

  lemma SecondGate()
    ensures Reachable(Mid(Down(), Pending(Launching, None), Absent, {}, {}))
  {
    FirstGate();
    Goes(Down(), OpenFd, Absent, {}, {}, OpenPidfd, Empty(GateBetween));
    Goes(Down(), Empty(GateBetween), Absent, {}, {}, Examined, Pending(Launching, None));
  }

  lemma Announces()
    ensures Reachable(Mid(Down(), Spawn, PendingLaunch, {}, {}))
  {
    SecondGate();
    Goes(Down(), Pending(Launching, None), Absent, {}, {}, ReadIntent, Prepare);
    MovesPc(Mid(Down(), Prepare, PendingLaunch, {}, {}), Prepare, Spawn);
    Steps(Down(), Prepare, Absent, {}, {}, WriteIntent, Mid(Down(), Spawn, PendingLaunch, {}, {}));
  }

  lemma Spawns()
    ensures Reachable(Mid(Up(true, {}, {}), Capture(CHILD), PendingLaunch, {CHILD}, {}))
  {
    Announces();
    assert Start(Down(), 7, Some(0)) == Up(true, {}, {});
    MovesPc(Mid(Up(true, {}, {}), Spawn, PendingLaunch, {CHILD}, {}), Spawn, Capture(CHILD));
    assert {} + {CHILD} == {CHILD};
    Steps(Down(), Spawn, PendingLaunch, {}, {}, Popen(7),
          Mid(Up(true, {}, {}), Capture(CHILD), PendingLaunch, {CHILD}, {}));
  }

  lemma Captures()
    ensures Reachable(Mid(Up(true, {}, {}), Record(CHILD, CHILD), PendingLaunch, {CHILD}, {}))
  {
    Spawns();
    Goes(Up(true, {}, {}), Capture(CHILD), PendingLaunch, {CHILD}, {}, CaptureRecord, CheckCapture(CHILD, CHILD));
    Goes(Up(true, {}, {}), CheckCapture(CHILD, CHILD), PendingLaunch, {CHILD}, {}, LookUpCaptured,
         Record(CHILD, CHILD));
  }

  lemma Records()
    ensures Reachable(Mid(Up(true, {}, {}), Wait(CHILD, CHILD), Spawned(CHILD), {CHILD}, {}))
  {
    Captures();
    MovesPc(Mid(Up(true, {}, {}), Record(CHILD, CHILD), Spawned(CHILD), {CHILD}, {}), Record(CHILD, CHILD),
            Wait(CHILD, CHILD));
    Steps(Up(true, {}, {}), Record(CHILD, CHILD), PendingLaunch, {CHILD}, {}, WriteSpawned,
          Mid(Up(true, {}, {}), Wait(CHILD, CHILD), Spawned(CHILD), {CHILD}, {}));
  }

  lemma ComesUp()
    ensures Reachable(Mid(Up(true, {CHILD}, {CHILD}), Wait(CHILD, CHILD), Spawned(CHILD), {CHILD}, {}))
  {
    Records();
    var pc := Wait(CHILD, CHILD);
    assert {} + {CHILD} == {CHILD};
    Reaches(Mid(Up(true, {}, {}), pc, Spawned(CHILD), {CHILD}, {}), Publish(CHILD),
            Mid(Up(true, {CHILD}, {}), pc, Spawned(CHILD), {CHILD}, {}));
    Reaches(Mid(Up(true, {CHILD}, {}), pc, Spawned(CHILD), {CHILD}, {}), BecomeReady(CHILD),
            Mid(Up(true, {CHILD}, {CHILD}), pc, Spawned(CHILD), {CHILD}, {}));
  }

  lemma Matches()
    ensures Reachable(Mid(Up(true, {CHILD}, {CHILD}), Recheck(CHILD, CHILD), Spawned(CHILD), {CHILD}, {}))
  {
    ComesUp();
    var w := Up(true, {CHILD}, {CHILD});
    Goes(w, Wait(CHILD, CHILD), Spawned(CHILD), {CHILD}, {}, Match(CHILD), Compare(CHILD, CHILD, CHILD));
    Goes(w, Compare(CHILD, CHILD, CHILD), Spawned(CHILD), {CHILD}, {}, CompareMatch, Recheck(CHILD, CHILD));
  }

  lemma Verifies()
    ensures Reachable(Mid(Up(true, {CHILD}, {CHILD}), Clear(Verified(CHILD)), Spawned(CHILD), {CHILD}, {CHILD}))
  {
    Matches();
    var w := Up(true, {CHILD}, {CHILD});
    assert {} + {CHILD} == {CHILD};
    MovesPc(Mid(w, Recheck(CHILD, CHILD), Spawned(CHILD), {CHILD}, {CHILD}), Recheck(CHILD, CHILD),
            Clear(Verified(CHILD)));
    Steps(w, Recheck(CHILD, CHILD), Spawned(CHILD), {CHILD}, {}, LookUpVerified,
          Mid(w, Clear(Verified(CHILD)), Spawned(CHILD), {CHILD}, {CHILD}));
  }

  function LastGate(todo: set<Ident>): Pc {
    Survey({CHILD}, todo, map[], {}, GateAfter(CHILD))
  }

  lemma Clears()
    ensures Reachable(Mid(Up(true, {CHILD}, {CHILD}), LastGate({CHILD}), Absent, {CHILD}, {CHILD}))
  {
    Verifies();
    var w := Up(true, {CHILD}, {CHILD});
    MovesPc(Mid(w, Clear(Verified(CHILD)), Absent, {CHILD}, {CHILD}), Clear(Verified(CHILD)), LastGate({CHILD}));
    Steps(w, Clear(Verified(CHILD)), Spawned(CHILD), {CHILD}, {CHILD}, Unlink,
          Mid(w, LastGate({CHILD}), Absent, {CHILD}, {CHILD}));
  }

  lemma ChildDies()
    ensures Reachable(Mid(Up(false, {CHILD}, {CHILD}), LastGate({CHILD}), Absent, {CHILD}, {CHILD}))
  {
    Clears();
    assert Up(true, {CHILD}, {CHILD}).table[7 := Slot(1, false, Some(0))] == Up(false, {CHILD}, {CHILD}).table;
    Reaches(Mid(Up(true, {CHILD}, {CHILD}), LastGate({CHILD}), Absent, {CHILD}, {CHILD}), Exit(7),
            Mid(Up(false, {CHILD}, {CHILD}), LastGate({CHILD}), Absent, {CHILD}, {CHILD}));
  }

  lemma RecordGoes()
    ensures Reachable(Mid(Up(false, {}, {CHILD}), LastGate({}), Absent, {CHILD}, {CHILD}))
  {
    ChildDies();
    assert {CHILD} - {CHILD} == {};
    MovesPc(Mid(Up(false, {}, {CHILD}), LastGate({CHILD}), Absent, {CHILD}, {CHILD}), LastGate({CHILD}), LastGate({}));
    Steps(Up(false, {CHILD}, {CHILD}), LastGate({CHILD}), Absent, {CHILD}, {CHILD}, Examine(CHILD),
          Mid(Up(false, {}, {CHILD}), LastGate({}), Absent, {CHILD}, {CHILD}));
  }

  const MISSED: Pc := Save(CHILD, Known({CHILD}, map[], {}))

  lemma LastGatePassed()
    ensures Reachable(Mid(Up(false, {}, {CHILD}), MISSED, Absent, {CHILD}, {CHILD}))
  {
    RecordGoes();
    var none: map<Ident, bool> := map[];
    assert none.Keys - {CHILD} == {};
    Goes(Up(false, {}, {CHILD}), LastGate({}), Absent, {CHILD}, {CHILD}, Examined, MISSED);
  }

  /** A replacement that dies before the last survey comes to its record is selected all the same: a run from the
      start that ends with saving the selection of a process that is dead and not among those verified last. */
  lemma DeadReplacementSelected() returns (states: seq<State>, actions: seq<Action>, k: nat)
    ensures Run(states, actions) && |actions| == k + 1 && actions[k] == Do(0, SaveSelection)
    ensures 0 in states[k].launchers && states[k].launchers[0].goal.Restart? && states[k].launchers[0].pc.Save?
    ensures var pc := states[k].launchers[0].pc;
      && pc.replacement in pc.survey.glob && pc.replacement !in pc.survey.seen
      && states[k + 1].selection == Some(pc.replacement) && !Running(states[k + 1].world, pc.replacement)
  {
    LastGatePassed();
    var s := Mid(Up(false, {}, {CHILD}), MISSED, Absent, {CHILD}, {CHILD});
    states, actions :| LeadsTo(states, actions, s);
    k := |actions|;
    Extended(states, actions, Do(0, SaveSelection));
    states, actions := states + [Apply(s, Do(0, SaveSelection))], actions + [Do(0, SaveSelection)];
  }
}
