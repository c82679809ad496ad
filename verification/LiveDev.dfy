// The launch, stop and restart protocol of scripts/live_dev.py, as the steps of any number of launchers
// that interleave with each other and with the processes of the machine.
module LiveDev {
  import opened Options

  // ---------------------------------------------------------------------------------------------
  // The machine

  /** A process: its pid, and the moment it started, which no two processes share. */
  datatype Ident = Ident(pid: nat, start: nat)

  /** The occupant of a pid: running, or a zombie that holds the pid until it is reaped. */
  datatype Slot = Slot(start: nat, running: bool, parent: Option<nat>)

  /** `published` are the instance records on disk, `ready` the processes that report themselves ready. */
  datatype World = World(table: map<nat, Slot>, clock: nat, published: set<Ident>, ready: set<Ident>)

  predicate Occupies(w: World, p: Ident) {
    p.pid in w.table && w.table[p.pid].start == p.start
  }

  /** What _check_process establishes: this very process is there and is no zombie. */
  predicate Running(w: World, p: Ident) {
    Occupies(w, p) && w.table[p.pid].running
  }

  /** The process has started at some time. */
  predicate Born(w: World, p: Ident) {
    p.start < w.clock
  }

  function Start(w: World, pid: nat, parent: Option<nat>): World {
    w.(table := w.table[pid := Slot(w.clock, true, parent)], clock := w.clock + 1)
  }

  function Reaped(w: World, pid: nat): World {
    w.(table := w.table - {pid})
  }

  // ---------------------------------------------------------------------------------------------
  // Launchers

  datatype Goal = Ensure | Restart(target: Ident, authorized: set<Ident>)

  /** The two calls of _check_pending_launch: on entry, and just before a launch. */
  datatype Phase = First | Launching

  /** Why the instance records are being verified one by one. */
  datatype Why =
    | AtEntry
    | ForRecord(phase: Phase, record: Ident)
    | GateBefore | GateBetween | GateAfter(replacement: Ident)

  /** What an earlier survey found: the records that were there, each instance that it verified, with whether that
      was ready, and the records that were gone when their turn came. */
  datatype Known = Known(glob: set<Ident>, seen: map<Ident, bool>, gone: set<Ident>)

  /** Why the intent file is about to be removed. */
  datatype Reason =
    | Stale(phase: Phase, record: Ident, known: Option<Known>)
    | SeenReady(phase: Phase, record: Ident, known: Option<Known>)
    | NoExec
    | Exited(child: Ident)
    | Verified(child: Ident)

  /** Where a launcher is. `seen` maps each verified instance to whether it was ready. */
  datatype Pc =
    | Outside
    | Survey(glob: set<Ident>, todo: set<Ident>, seen: map<Ident, bool>, gone: set<Ident>, why: Why)
    | Pending(phase: Phase, known: Option<Known>)
    | CheckNamed(phase: Phase, record: Ident, known: Option<Known>)
    | Clear(reason: Reason)
    | Decide(survey: Known)
    | OpenFd | CheckTarget(fd: Option<Ident>) | Quit(fd: Option<Ident>) | CheckAfterQuit(fd: Option<Ident>)
    | Await(fd: Option<Ident>, round: Round) | CheckBefore(fd: Option<Ident>, round: Round)
    | Signal(fd: Option<Ident>, round: Round)
    | Prepare | Spawn
    | Capture(child: Ident)
    | CheckCapture(child: Ident, record: Ident)
    | Record(child: Ident, record: Ident)
    | Wait(child: Ident, record: Ident)
    | Compare(child: Ident, record: Ident, found: Ident)
    | Recheck(child: Ident, record: Ident)
    | Failing(child: Ident, reaped: bool)
    | Save(replacement: Ident, survey: Known)
    | Ending

  /** Waiting for the target to quit by itself, after SIGTERM, and after SIGKILL. */
  datatype Round = ByItself | AfterTerm | AfterKill

  datatype Launcher = Launcher(goal: Goal, pc: Pc)

  datatype SignalKind = Terminate | Kill

  /** A signal with the record it was meant for and the process it reached. */
  datatype Sent = Sent(meant: Ident, reached: Ident, kind: SignalKind)

  /** The intent file launch.json. */
  datatype Intent = Absent | PendingLaunch | Spawned(record: Ident)

  /** `launched`, `verified` and `signals` are history: the children of Popen calls, those that were verified
      as ready, and the signals sent. */
  datatype State = State(
    world: World, pidfds: bool, launchers: map<nat, Launcher>, lock: Option<nat>, intent: Intent,
    selection: Option<Ident>, launched: set<Ident>, verified: set<Ident>, signals: set<Sent>)

  predicate Initial(s: State) {
    && s.world == World(map[], 0, {}, {}) && s.launchers == map[] && s.lock == None && s.intent == Absent
    && s.selection == None && s.launched == {} && s.verified == {} && s.signals == {}
  }

  // ---------------------------------------------------------------------------------------------
  // Steps

  /** What the launcher that holds the lock does next. */
  datatype Step =
    // One record is verified, or found stale and removed, or skipped if it is gone; all records have been.
    | Examine(p: Ident) | Examined
    // The intent file and the process it names.
    | ReadIntent | LookUpNamed | Unlink | DecideToLaunch
    // Stopping the target of a restart.
    | OpenPidfd | LookUpTarget | QuitSent | QuitFailed | SeeExit | Deadline | Send
    // Launching.
    | WriteIntent | Popen(pid: nat) | PopenFails | CaptureRecord | LookUpCaptured | WriteSpawned
    | Poll | Match(found: Ident) | CompareMatch | LookUpVerified | GiveUp | SaveSelection

  datatype Action =
    // The machine: processes come and go and publish records; it may reboot, and may lose its private files then.
    | Exec(pid: nat) | Exit(pid: nat) | Reap(pid: nat)
    | Publish(p: Ident) | BecomeReady(p: Ident) | Unpublish(p: Ident) | Reboot(wipe: bool)
    // A launcher appears, takes the lock, and at any point ends: by returning, by raising, or killed.
    | Arrive(l: nat, goal: Goal) | Acquire(l: nat) | Stop(l: nat)
    | Do(l: nat, step: Step)

  /** Launcher l holds the lock. */
  predicate Inside(s: State, l: nat) {
    s.lock == Some(l) && l in s.launchers
  }

  function At(s: State, l: nat, pc: Pc): State
    requires l in s.launchers
  {
    s.(launchers := s.launchers[l := s.launchers[l].(pc := pc)])
  }

  /** Starts discover: the records that are there now are to be verified one by one. */
  function Discover(w: World, why: Why): Pc {
    Survey(w.published, w.published, map[], {}, why)
  }

  /** Where a launcher goes when no launch is pending. */
  function AfterCheck(w: World, goal: Goal, phase: Phase, known: Option<Known>): Pc {
    if phase == Launching then Prepare
    else if goal.Restart? then Discover(w, GateBefore)
    else if known.Some? then Decide(known.value)
    else Ending
  }

  predicate HasChild(pc: Pc) {
    pc.Capture? || pc.CheckCapture? || pc.Record? || pc.Wait? || pc.Compare? || pc.Recheck?
  }

  /** Whether the process that an exit check looks at has exited. */
  predicate SeenExited(w: World, fd: Option<Ident>, target: Ident) {
    if fd.Some? then !Running(w, fd.value) else !Running(w, target)
  }

  /** Whether the launcher goes on with what it has verified; otherwise it raises. */
  predicate SurveyPasses(goal: Goal, why: Why, seen: map<Ident, bool>) {
    match why
    case AtEntry => true
    case ForRecord(_, record) => record in seen && seen[record]
    case GateBefore => goal.Restart? && seen.Keys - {goal.target} == goal.authorized
    case GateBetween => goal.Restart? && seen.Keys == goal.authorized
    case GateAfter(replacement) => goal.Restart? && seen.Keys - {replacement} == goal.authorized
  }

  predicate ExitedUnreaped(w: World, pid: nat) {
    pid in w.table && !w.table[pid].running
  }

  /** Whether the named process, if it runs, is among the instances seen ready; otherwise the launcher raises. */
  predicate KnownReady(w: World, record: Ident, known: Option<Known>) {
    Running(w, record) && known.Some? ==> record in known.value.seen && known.value.seen[record]
  }

  /** Whether a launcher that holds the lock can take the step. */
  predicate CanDo(w: World, intent: Intent, goal: Goal, pc: Pc, step: Step) {
    match step
    case Examine(p) => pc.Survey? && p in pc.todo
    case Examined => pc.Survey? && pc.todo == {} && SurveyPasses(goal, pc.why, pc.seen)
    case ReadIntent => pc.Pending? && !intent.PendingLaunch?
    case LookUpNamed => pc.CheckNamed? && KnownReady(w, pc.record, pc.known)
    case Unlink => pc.Clear?
    case DecideToLaunch => pc.Decide? && pc.survey.seen == map[]
    case OpenPidfd => pc.OpenFd? && goal.Restart?
    case LookUpTarget => goal.Restart? && (pc.CheckTarget? || pc.CheckAfterQuit? || pc.CheckBefore?)
    case QuitSent => pc.Quit?
    case QuitFailed => pc.Quit? && pc.fd.Some?
    case SeeExit => goal.Restart? && pc.Await? && SeenExited(w, pc.fd, goal.target)
    case Deadline => pc.Await? && pc.fd.Some? && !pc.round.AfterKill?
    case Send => pc.Signal? && pc.fd.Some? && goal.Restart?
    case WriteIntent => pc.Prepare?
    case Popen(pid) => pc.Spawn? && pid !in w.table
    case PopenFails => pc.Spawn?
    case CaptureRecord => pc.Capture? && pc.child.pid in w.table
    case LookUpCaptured => pc.CheckCapture? && Running(w, pc.record)
    case WriteSpawned => pc.Record?
    case Poll =>
      if pc.Failing? && pc.reaped then true
      else (pc.Failing? || pc.Wait?) && ExitedUnreaped(w, pc.child.pid)
    case Match(found) =>
      pc.Wait? && found.pid == pc.child.pid && found in w.published && found in w.ready && Running(w, found)
    case CompareMatch => pc.Compare? && pc.found == pc.record
    case LookUpVerified => pc.Recheck? && Running(w, pc.record)
    case GiveUp => HasChild(pc)
    case SaveSelection => pc.Save?
  }

  /** The state after the step. */
  function Done(s: State, l: nat, goal: Goal, pc: Pc, step: Step): State
    requires l in s.launchers && s.launchers[l] == Launcher(goal, pc)
    requires CanDo(s.world, s.intent, goal, pc, step)
  {
    match step
    case Examine(p) =>
      if p !in s.world.published then At(s, l, pc.(todo := pc.todo - {p}, gone := pc.gone + {p}))
      else if Running(s.world, p) then
        At(s, l, pc.(todo := pc.todo - {p}, seen := pc.seen[p := p in s.world.ready]))
      else
        At(s.(world := s.world.(published := s.world.published - {p})), l, pc.(todo := pc.todo - {p}))
    case Examined => AfterSurvey(s, l, pc.why, Known(pc.glob, pc.seen, pc.gone))
    case ReadIntent =>
      At(s, l, if s.intent.Absent? then AfterCheck(s.world, goal, pc.phase, pc.known)
               else CheckNamed(pc.phase, s.intent.record, pc.known))
    case LookUpNamed =>
      if !Running(s.world, pc.record) then At(s, l, Clear(Stale(pc.phase, pc.record, pc.known)))
      else if pc.known.None? then At(s, l, Discover(s.world, ForRecord(pc.phase, pc.record)))
      else At(s.(verified := s.verified + {pc.record}), l, Clear(SeenReady(pc.phase, pc.record, pc.known)))
    case Unlink => At(s.(intent := Absent), l, AfterUnlink(s.world, goal, pc.reason))
    case DecideToLaunch => At(s, l, Pending(Launching, None))
    case OpenPidfd =>
      At(s, l, if !s.pidfds then CheckTarget(None)
               else if goal.target.pid !in s.world.table then Discover(s.world, GateBetween)
               else CheckTarget(Some(Ident(goal.target.pid, s.world.table[goal.target.pid].start))))
    case LookUpTarget =>
      At(s, l, if !Running(s.world, goal.target) then Discover(s.world, GateBetween)
               else if pc.CheckTarget? then Quit(pc.fd)
               else if pc.CheckAfterQuit? then Await(pc.fd, ByItself)
               else Signal(pc.fd, pc.round))
    case QuitSent => At(s, l, Await(pc.fd, ByItself))
    case QuitFailed => At(s, l, CheckAfterQuit(pc.fd))
    case SeeExit => At(s, l, Discover(s.world, GateBetween))
    case Deadline => At(s, l, CheckBefore(pc.fd, pc.round))
    case Send =>
      // The signal reaches the process the pidfd was opened on, or nothing once that is reaped.
      if !Occupies(s.world, pc.fd.value) then At(s, l, Discover(s.world, GateBetween))
      else
        var kind := if pc.round.ByItself? then Terminate else Kill;
        At(s.(signals := s.signals + {Sent(goal.target, pc.fd.value, kind)}), l,
           Await(pc.fd, if pc.round.ByItself? then AfterTerm else AfterKill))
    case WriteIntent => At(s.(intent := PendingLaunch), l, Spawn)
    case Popen(pid) =>
      var child := Ident(pid, s.world.clock);
      At(s.(world := Start(s.world, pid, Some(l)), launched := s.launched + {child}), l, Capture(child))
    case PopenFails => At(s, l, Clear(NoExec))
    case CaptureRecord =>
      At(s, l, CheckCapture(pc.child, Ident(pc.child.pid, s.world.table[pc.child.pid].start)))
    case LookUpCaptured => At(s, l, Record(pc.child, pc.record))
    case WriteSpawned => At(s.(intent := Spawned(pc.record)), l, Wait(pc.child, pc.record))
    case Poll =>
      // child.poll() reaps the child if it has exited.
      if pc.Wait? then At(s.(world := Reaped(s.world, pc.child.pid)), l, Failing(pc.child, true))
      else if pc.reaped then At(s, l, Clear(Exited(pc.child)))
      else At(s.(world := Reaped(s.world, pc.child.pid)), l, Clear(Exited(pc.child)))
    case Match(found) => At(s, l, Compare(pc.child, pc.record, found))
    case CompareMatch => At(s, l, Recheck(pc.child, pc.record))
    case LookUpVerified => At(s.(verified := s.verified + {pc.record}), l, Clear(Verified(pc.child)))
    case GiveUp => At(s, l, Failing(pc.child, false))
    case SaveSelection => At(s.(selection := Some(pc.replacement)), l, Ending)
  }

  function AfterSurvey(s: State, l: nat, why: Why, known: Known): State
    requires l in s.launchers
  {
    match why
    case AtEntry => At(s, l, Pending(First, Some(known)))
    case ForRecord(phase, record) =>
      At(s.(verified := s.verified + {record}), l, Clear(SeenReady(phase, record, None)))
    case GateBefore => At(s, l, OpenFd)
    case GateBetween => At(s, l, Pending(Launching, None))
    case GateAfter(replacement) => At(s, l, Save(replacement, known))
  }

  function AfterUnlink(w: World, goal: Goal, reason: Reason): Pc {
    match reason
    case Stale(phase, _, known) => AfterCheck(w, goal, phase, known)
    case SeenReady(phase, _, known) => AfterCheck(w, goal, phase, known)
    case NoExec => Ending
    case Exited(_) => Ending
    case Verified(child) => if goal.Restart? then Discover(w, GateAfter(child)) else Ending
  }

  /** No process and no launcher survives a reboot; the runtime directory with the instance records, the intent file
      and the selection may. */
  function Rebooted(s: State, wipe: bool): State {
    var down := s.(world := s.world.(table := map[]), launchers := map[], lock := None);
    if wipe then down.(world := down.world.(published := {}), intent := Absent, selection := None) else down
  }

  predicate Enabled(s: State, a: Action) {
    match a
    case Exec(pid) => pid !in s.world.table
    case Exit(pid) => pid in s.world.table && s.world.table[pid].running
    case Reap(pid) =>
      // A zombie whose parent is still there is left to the parent.
      ExitedUnreaped(s.world, pid)
      && (s.world.table[pid].parent.Some? ==> s.world.table[pid].parent.value !in s.launchers)
    case Publish(p) => Running(s.world, p)
    case BecomeReady(p) => Running(s.world, p)
    case Unpublish(p) => true
    case Reboot(_) => true
    case Arrive(l, goal) => l !in s.launchers && (goal.Restart? ==> Born(s.world, goal.target))
    case Acquire(l) => s.lock == None && l in s.launchers && s.launchers[l].pc.Outside?
    case Stop(l) => l in s.launchers
    case Do(l, step) => Inside(s, l) && CanDo(s.world, s.intent, s.launchers[l].goal, s.launchers[l].pc, step)
  }

  function Apply(s: State, a: Action): State
    requires Enabled(s, a)
  {
    match a
    case Exec(pid) => s.(world := Start(s.world, pid, None))
    case Exit(pid) => s.(world := s.world.(table := s.world.table[pid := s.world.table[pid].(running := false)]))
    case Reap(pid) => s.(world := Reaped(s.world, pid))
    case Publish(p) => s.(world := s.world.(published := s.world.published + {p}))
    case BecomeReady(p) => s.(world := s.world.(ready := s.world.ready + {p}))
    case Unpublish(p) => s.(world := s.world.(published := s.world.published - {p}))
    case Reboot(wipe) => Rebooted(s, wipe)
    case Arrive(l, goal) => s.(launchers := s.launchers[l := Launcher(goal, Outside)])
    case Acquire(l) =>
      At(s.(lock := Some(l)), l,
         if s.launchers[l].goal.Ensure? then Discover(s.world, AtEntry) else Pending(First, None))
    case Stop(l) => s.(launchers := s.launchers - {l}, lock := if s.lock == Some(l) then None else s.lock)
    case Do(l, step) => Done(s, l, s.launchers[l].goal, s.launchers[l].pc, step)
  }

  /** A run from the start: the states that the actions lead through. */
  ghost predicate Run(states: seq<State>, actions: seq<Action>) {
    && |states| == |actions| + 1 && Initial(states[0])
    && forall i {:trigger actions[i]} :: 0 <= i < |actions| ==>
         Enabled(states[i], actions[i]) && states[i + 1] == Apply(states[i], actions[i])
  }
}
