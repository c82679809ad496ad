// What every run of the protocol of LiveDev.dfy keeps, whatever interleaves and wherever launchers are killed.
module LiveDevSafety {
  import opened LiveDev
  import opened Options

  // ---------------------------------------------------------------------------------------------
  // The invariant

  /** A launched child that is alive and has not been verified as ready. */
  ghost predicate Unverified(s: State, c: Ident) {
    c in s.launched && c !in s.verified && Running(s.world, c)
  }

  /** Every such child is `child`. */
  ghost predicate OnlyChild(s: State, child: Ident) {
    forall c :: Unverified(s, c) ==> c == child
  }

  ghost predicate NoChild(s: State) {
    forall c :: !Unverified(s, c)
  }

  /** At most one, and the intent file is pending or names it. */
  ghost predicate Accounted(s: State) {
    && (forall c, d :: Unverified(s, c) && Unverified(s, d) ==> c == d)
    && (forall c :: Unverified(s, c) ==> s.intent == PendingLaunch || s.intent == Spawned(c))
  }

  ghost predicate WorldOk(w: World) {
    && (forall pid :: pid in w.table ==> w.table[pid].start < w.clock)
    && (forall p :: p in w.published ==> Born(w, p))
  }

  /** The child is still in its slot, running or not, because only launcher l may reap it. */
  ghost predicate Held(w: World, child: Ident, l: nat) {
    Occupies(w, child) && w.table[child.pid].parent == Some(l)
  }

  /** The facts that do not depend on where the launchers are. */
  ghost predicate Core(s: State) {
    && WorldOk(s.world) && Accounted(s)
    && (forall c :: c in s.launched ==> Born(s.world, c))
    && (s.intent.Spawned? ==> s.intent.record in s.launched)
    && s.verified <= s.world.ready
    && (forall g :: g in s.signals ==> g.meant == g.reached)
    && (forall g :: g in s.signals && g.kind.Kill? ==> g.(kind := Terminate) in s.signals)
    && (!s.pidfds ==> s.signals == {})
    && (s.selection.Some? ==> s.selection.value in s.launched && s.selection.value in s.verified)
  }

  ghost predicate TargetGone(s: State, goal: Goal) {
    goal.Restart? ==> !Running(s.world, goal.target)
  }

  /** Every record that was there when the survey began is still to do, seen, gone in the meantime, or of a process
      that has exited; an instance seen ready has announced itself ready. */
  ghost predicate SurveyOk(w: World, glob: set<Ident>, todo: set<Ident>, seen: map<Ident, bool>, gone: set<Ident>) {
    && (forall p :: p in glob ==> Born(w, p) && (p in todo || p in seen || p in gone || !Running(w, p)))
    && seen.Keys <= glob && todo <= glob && seen.Keys !! todo
    && SeenOk(w, seen)
  }

  ghost predicate SeenOk(w: World, seen: map<Ident, bool>) {
    forall p :: p in seen && seen[p] ==> p in w.ready
  }

  ghost predicate KnownOk(w: World, known: Option<Known>) {
    known.Some? ==> SurveyOk(w, known.value.glob, {}, known.value.seen, known.value.gone)
  }

  ghost predicate WhyOk(s: State, goal: Goal, why: Why) {
    match why
    case AtEntry => goal.Ensure?
    case ForRecord(phase, record) => s.intent == Spawned(record) && (phase == Launching ==> TargetGone(s, goal))
    case GateBefore => goal.Restart?
    case GateBetween => goal.Restart? && TargetGone(s, goal)
    case GateAfter(replacement) =>
      goal.Restart? && TargetGone(s, goal) && replacement in s.launched && replacement in s.verified
  }

  ghost predicate ReasonOk(s: State, goal: Goal, reason: Reason) {
    match reason
    case Stale(phase, record, known) =>
      && s.intent == Spawned(record) && !Running(s.world, record) && KnownOk(s.world, known)
      && (phase == Launching ==> TargetGone(s, goal))
    case SeenReady(phase, record, known) =>
      && s.intent == Spawned(record) && record in s.verified && KnownOk(s.world, known)
      && (phase == Launching ==> TargetGone(s, goal))
    case NoExec => NoChild(s)
    case Exited(child) => !Running(s.world, child) && Born(s.world, child) && OnlyChild(s, child)
    case Verified(child) => child in s.launched && child in s.verified && OnlyChild(s, child) && TargetGone(s, goal)
  }

  /** The pidfd, if there is one, is open on the target. */
  ghost predicate FdOk(s: State, goal: Goal, fd: Option<Ident>) {
    goal.Restart? && (fd.Some? ==> s.pidfds && fd.value == goal.target)
  }

  /** Past the first round the target has been asked to terminate. */
  ghost predicate RoundOk(s: State, goal: Goal, round: Round) {
    goal.Restart? && !round.ByItself? ==> Sent(goal.target, goal.target, Terminate) in s.signals
  }

  /** Launcher l has the child, and the file is pending until its record is written. */
  ghost predicate ChildOk(s: State, l: nat, goal: Goal, child: Ident, intent: Intent) {
    && child in s.launched && Held(s.world, child, l) && OnlyChild(s, child)
    && s.intent == intent && TargetGone(s, goal)
  }

  ghost predicate PcOk(s: State, l: nat, goal: Goal, pc: Pc) {
    match pc
    case Outside => false
    case Survey(glob, todo, seen, gone, why) => SurveyOk(s.world, glob, todo, seen, gone) && WhyOk(s, goal, why)
    case Pending(phase, known) => KnownOk(s.world, known) && (phase == Launching ==> TargetGone(s, goal))
    case CheckNamed(phase, record, known) =>
      s.intent == Spawned(record) && KnownOk(s.world, known) && (phase == Launching ==> TargetGone(s, goal))
    case Clear(reason) => ReasonOk(s, goal, reason)
    case Decide(known) => goal.Ensure? && SurveyOk(s.world, known.glob, {}, known.seen, known.gone)
    case OpenFd => goal.Restart?
    case CheckTarget(fd) =>
      && goal.Restart?
      && (fd.Some? ==> s.pidfds && Born(s.world, fd.value)
                       && (fd.value != goal.target ==> !Running(s.world, goal.target)))
    case Quit(fd) => FdOk(s, goal, fd)
    case CheckAfterQuit(fd) => FdOk(s, goal, fd)
    case Await(fd, round) => FdOk(s, goal, fd) && RoundOk(s, goal, round)
    case CheckBefore(fd, round) => FdOk(s, goal, fd) && RoundOk(s, goal, round)
    case Signal(fd, round) => FdOk(s, goal, fd) && RoundOk(s, goal, round)
    case Prepare => s.intent == Absent && TargetGone(s, goal)
    case Spawn => s.intent == PendingLaunch && NoChild(s) && TargetGone(s, goal)
    case Capture(child) => ChildOk(s, l, goal, child, PendingLaunch)
    case CheckCapture(child, record) => record == child && ChildOk(s, l, goal, child, PendingLaunch)
    case Record(child, record) => record == child && ChildOk(s, l, goal, child, PendingLaunch)
    case Wait(child, record) => record == child && ChildOk(s, l, goal, child, Spawned(child))
    case Compare(child, record, found) =>
      record == child && found in s.world.ready && ChildOk(s, l, goal, child, Spawned(child))
    case Recheck(child, record) =>
      record == child && child in s.world.ready && ChildOk(s, l, goal, child, Spawned(child))
    case Failing(child, reaped) =>
      && child in s.launched && OnlyChild(s, child)
      && (if reaped then !Running(s.world, child) else Held(s.world, child, l))
    case Save(replacement, survey) =>
      && goal.Restart? && survey.seen.Keys - {replacement} == goal.authorized
      && survey.seen.Keys <= survey.glob && replacement in s.launched && replacement in s.verified
    case Ending => true
  }

  /** Only the holder of the lock is past it, and it is where it may be. */
  ghost predicate Locked(s: State) {
    && (forall l :: l in s.launchers ==>
          && (s.launchers[l].pc.Outside? || s.lock == Some(l))
          && (s.launchers[l].goal.Restart? ==> Born(s.world, s.launchers[l].goal.target)))
    && (s.lock.Some? ==>
          && s.lock.value in s.launchers
          && PcOk(s, s.lock.value, s.launchers[s.lock.value].goal, s.launchers[s.lock.value].pc))
  }

  ghost predicate Inv(s: State) {
    Core(s) && Locked(s)
  }

  lemma InitialInv(s: State)
    requires Initial(s)
    ensures Inv(s)
  {
  }

  // ---------------------------------------------------------------------------------------------
  // What the machine does is harmless

  /** w2 comes after w: no process that had started comes back to life, and no launcher's child is reaped
      behind its back. */
  ghost predicate Later(w: World, w2: World, launchers: set<nat>) {
    && WorldOk(w2) && w.clock <= w2.clock && w.ready <= w2.ready
    && (forall p :: Born(w, p) && Running(w2, p) ==> Running(w, p))
    && (forall p, l :: l in launchers && Held(w, p, l) ==> Held(w2, p, l))
  }

  lemma MachineIsLater(s: State, a: Action)
    requires Inv(s) && Enabled(s, a) && OfMachine(a)
    ensures Later(s.world, Apply(s, a).world, s.launchers.Keys)
    ensures Apply(s, a) == s.(world := Apply(s, a).world)
  {
  }

  lemma CoreLater(s: State, w2: World)
    requires Core(s) && Later(s.world, w2, s.launchers.Keys)
    ensures Core(s.(world := w2))
    ensures forall c :: Unverified(s.(world := w2), c) ==> Unverified(s, c)
  {
    forall c | Unverified(s.(world := w2), c) ensures Unverified(s, c) {
      assert Born(s.world, c);
    }
  }

  lemma PcLater(s: State, w2: World, l: nat, goal: Goal, pc: Pc)
    requires Core(s) && Later(s.world, w2, s.launchers.Keys) && l in s.launchers
    requires PcOk(s, l, goal, pc) && (goal.Restart? ==> Born(s.world, goal.target))
    ensures PcOk(s.(world := w2), l, goal, pc)
  {
    CoreLater(s, w2);
  }

  lemma InvLater(s: State, w2: World)
    requires Inv(s) && Later(s.world, w2, s.launchers.Keys)
    ensures Inv(s.(world := w2))
  {
    CoreLater(s, w2);
    if s.lock.Some? {
      var l := s.lock.value;
      PcLater(s, w2, l, s.launchers[l].goal, s.launchers[l].pc);
    }
  }

  // ---------------------------------------------------------------------------------------------
  // The steps of the launcher that holds the lock

  lemma SameChildren(s: State, launchers: map<nat, Launcher>)
    ensures forall c :: Unverified(s.(launchers := launchers), c) <==> Unverified(s, c)
    ensures NoChild(s.(launchers := launchers)) <==> NoChild(s)
    ensures forall c :: OnlyChild(s.(launchers := launchers), c) <==> OnlyChild(s, c)
  {
    var s2 := s.(launchers := launchers);
    assert forall c :: Unverified(s2, c) <==> Unverified(s, c);
    forall c ensures OnlyChild(s2, c) <==> OnlyChild(s, c) {
    }
  }

  /** Where the launchers are does not matter to the facts about the rest. */
  lemma CoreFrame(s: State, launchers: map<nat, Launcher>)
    requires Core(s)
    ensures Core(s.(launchers := launchers))
  {
    SameChildren(s, launchers);
  }

  lemma PcFrame(s: State, launchers: map<nat, Launcher>, l: nat, goal: Goal, pc: Pc)
    requires PcOk(s, l, goal, pc)
    ensures PcOk(s.(launchers := launchers), l, goal, pc)
  {
    SameChildren(s, launchers);
  }

  /** A step of the holder is sound when its effect is, and it may be where it goes. */
  lemma MovesOn(s: State, e: State, l: nat, pc2: Pc)
    requires Locked(s) && Inside(s, l) && e.lock == s.lock && e.launchers == s.launchers
    requires s.world.clock <= e.world.clock && Core(e) && PcOk(e, l, s.launchers[l].goal, pc2)
    ensures Inv(At(e, l, pc2))
  {
    var launchers := At(e, l, pc2).launchers;
    CoreFrame(e, launchers);
    PcFrame(e, launchers, l, s.launchers[l].goal, pc2);
  }

  lemma AfterCheckOk(s: State, l: nat, goal: Goal, phase: Phase, known: Option<Known>)
    requires Core(s) && s.intent == Absent && (phase == Launching ==> TargetGone(s, goal)) && KnownOk(s.world, known)
    ensures PcOk(s, l, goal, AfterCheck(s.world, goal, phase, known))
  {
  }

  lemma Verifies(s: State, p: Ident)
    requires Core(s) && p in s.world.ready
    ensures Core(s.(verified := s.verified + {p}))
    ensures forall c :: Unverified(s.(verified := s.verified + {p}), c) ==> Unverified(s, c) && c != p
  {
    var s2 := s.(verified := s.verified + {p});
    assert forall c :: Unverified(s2, c) ==> Unverified(s, c);
  }

  lemma ReasonLeavesNoChild(s: State, goal: Goal, reason: Reason)
    requires Core(s) && ReasonOk(s, goal, reason)
    ensures NoChild(s)
  {
  }

  lemma ExamineStep(s: State, l: nat, step: Step, s2: State)
    requires Inv(s) && Inside(s, l) && step.Examine?
    requires CanDo(s.world, s.intent, s.launchers[l].goal, s.launchers[l].pc, step)
    requires s2 == Done(s, l, s.launchers[l].goal, s.launchers[l].pc, step)
    ensures Inv(s2)
  {
    var goal, pc := s.launchers[l].goal, s.launchers[l].pc;
    if step.p !in s.world.published {
      MovesOn(s, s, l, pc.(todo := pc.todo - {step.p}, gone := pc.gone + {step.p}));
    } else if Running(s.world, step.p) {
      MovesOn(s, s, l, pc.(todo := pc.todo - {step.p}, seen := pc.seen[step.p := step.p in s.world.ready]));
    } else {
      var e := s.(world := s.world.(published := s.world.published - {step.p}));
      CoreLater(s, e.world);
      PcLater(s, e.world, l, goal, pc);
      MovesOn(s, e, l, pc.(todo := pc.todo - {step.p}));
    }
  }

  lemma ExaminedStep(s: State, l: nat, step: Step, s2: State)
    requires Inv(s) && Inside(s, l) && step.Examined?
    requires CanDo(s.world, s.intent, s.launchers[l].goal, s.launchers[l].pc, step)
    requires s2 == Done(s, l, s.launchers[l].goal, s.launchers[l].pc, step)
    ensures Inv(s2)
  {
    var pc := s.launchers[l].pc;
    var next := s2.launchers[l].pc;
    if pc.why.ForRecord? {
      Verifies(s, pc.why.record);
      MovesOn(s, s.(verified := s.verified + {pc.why.record}), l, next);
    } else {
      MovesOn(s, s, l, next);
    }
  }

  lemma ReadIntentStep(s: State, l: nat, step: Step, s2: State)
    requires Inv(s) && Inside(s, l) && step.ReadIntent?
    requires CanDo(s.world, s.intent, s.launchers[l].goal, s.launchers[l].pc, step)
    requires s2 == Done(s, l, s.launchers[l].goal, s.launchers[l].pc, step)
    ensures Inv(s2)
  {
    var goal, pc := s.launchers[l].goal, s.launchers[l].pc;
    if s.intent.Absent? {
      AfterCheckOk(s, l, goal, pc.phase, pc.known);
      MovesOn(s, s, l, AfterCheck(s.world, goal, pc.phase, pc.known));
    } else {
      MovesOn(s, s, l, CheckNamed(pc.phase, s.intent.record, pc.known));
    }
  }

  lemma LookUpNamedStep(s: State, l: nat, step: Step, s2: State)
    requires Inv(s) && Inside(s, l) && step.LookUpNamed?
    requires CanDo(s.world, s.intent, s.launchers[l].goal, s.launchers[l].pc, step)
    requires s2 == Done(s, l, s.launchers[l].goal, s.launchers[l].pc, step)
    ensures Inv(s2)
  {
    var pc := s.launchers[l].pc;
    var next := s2.launchers[l].pc;
    if Running(s.world, pc.record) && pc.known.Some? {
      Verifies(s, pc.record);
      MovesOn(s, s.(verified := s.verified + {pc.record}), l, next);
    } else {
      MovesOn(s, s, l, next);
    }
  }

  lemma UnlinkStep(s: State, l: nat, step: Step, s2: State)
    requires Inv(s) && Inside(s, l) && step.Unlink?
    requires CanDo(s.world, s.intent, s.launchers[l].goal, s.launchers[l].pc, step)
    requires s2 == Done(s, l, s.launchers[l].goal, s.launchers[l].pc, step)
    ensures Inv(s2)
  {
    var goal, reason := s.launchers[l].goal, s.launchers[l].pc.reason;
    var e := s.(intent := Absent);
    ReasonLeavesNoChild(s, goal, reason);
    Writes(s, Absent);
    if reason.Stale? {
      AfterCheckOk(e, l, goal, reason.phase, reason.known);
    } else if reason.SeenReady? {
      AfterCheckOk(e, l, goal, reason.phase, reason.known);
    }
    MovesOn(s, e, l, AfterUnlink(s.world, goal, reason));
  }

  lemma StopSteps(s: State, l: nat, step: Step, s2: State)
    requires Inv(s) && Inside(s, l)
    requires step.OpenPidfd? || step.LookUpTarget? || step.QuitSent? || step.QuitFailed? || step.SeeExit?
          || step.Deadline? || step.DecideToLaunch?
    requires CanDo(s.world, s.intent, s.launchers[l].goal, s.launchers[l].pc, step)
    requires s2 == Done(s, l, s.launchers[l].goal, s.launchers[l].pc, step)
    ensures Inv(s2)
  {
    MovesOn(s, s, l, s2.launchers[l].pc);
  }

  lemma SendStep(s: State, l: nat, step: Step, s2: State)
    requires Inv(s) && Inside(s, l) && step.Send?
    requires CanDo(s.world, s.intent, s.launchers[l].goal, s.launchers[l].pc, step)
    requires s2 == Done(s, l, s.launchers[l].goal, s.launchers[l].pc, step)
    ensures Inv(s2)
  {
    var goal, pc := s.launchers[l].goal, s.launchers[l].pc;
    var next := s2.launchers[l].pc;
    if Occupies(s.world, pc.fd.value) {
      var kind := if pc.round.ByItself? then Terminate else Kill;
      var e := s.(signals := s.signals + {Sent(goal.target, pc.fd.value, kind)});
      assert forall c :: Unverified(e, c) <==> Unverified(s, c);
      MovesOn(s, e, l, next);
    } else {
      MovesOn(s, s, l, next);
    }
  }

  /** The file may be written at any time when no child is left, or its only child is named. */
  lemma Writes(s: State, intent: Intent)
    requires Core(s) && (intent.Spawned? ==> intent.record in s.launched && OnlyChild(s, intent.record))
    requires intent.Absent? ==> NoChild(s)
    ensures Core(s.(intent := intent))
    ensures forall c :: Unverified(s.(intent := intent), c) <==> Unverified(s, c)
  {
    assert forall c :: Unverified(s.(intent := intent), c) <==> Unverified(s, c);
  }

  lemma IntentSteps(s: State, l: nat, step: Step, s2: State)
    requires Inv(s) && Inside(s, l) && (step.WriteIntent? || step.WriteSpawned?)
    requires CanDo(s.world, s.intent, s.launchers[l].goal, s.launchers[l].pc, step)
    requires s2 == Done(s, l, s.launchers[l].goal, s.launchers[l].pc, step)
    ensures Inv(s2)
  {
    Writes(s, s2.intent);
    MovesOn(s, s.(intent := s2.intent), l, s2.launchers[l].pc);
  }

  lemma PopenStep(s: State, l: nat, step: Step, s2: State)
    requires Inv(s) && Inside(s, l) && step.Popen?
    requires CanDo(s.world, s.intent, s.launchers[l].goal, s.launchers[l].pc, step)
    requires s2 == Done(s, l, s.launchers[l].goal, s.launchers[l].pc, step)
    ensures Inv(s2)
  {
    var child := Ident(step.pid, s.world.clock);
    var e := s.(world := Start(s.world, step.pid, Some(l)), launched := s.launched + {child});
    forall c | Unverified(e, c) ensures c == child {
      if c != child {
        assert Born(s.world, c);
        assert Unverified(s, c);
      }
    }
    MovesOn(s, e, l, Capture(child));
  }

  /** The launcher reaps its own child, which has exited. */
  lemma ReapsChild(s: State, l: nat, child: Ident, pc2: Pc)
    requires Inv(s) && Inside(s, l) && ExitedUnreaped(s.world, child.pid)
    requires child in s.launched && OnlyChild(s, child) && Held(s.world, child, l)
    requires pc2 == Failing(child, true) || pc2 == Clear(Exited(child))
    ensures Inv(At(s.(world := Reaped(s.world, child.pid)), l, pc2))
  {
    var e := s.(world := Reaped(s.world, child.pid));
    assert forall c :: Unverified(e, c) ==> Unverified(s, c);
    assert Core(e);
    MovesOn(s, e, l, pc2);
  }

  lemma PollStep(s: State, l: nat, step: Step, s2: State)
    requires Inv(s) && Inside(s, l) && step.Poll?
    requires CanDo(s.world, s.intent, s.launchers[l].goal, s.launchers[l].pc, step)
    requires s2 == Done(s, l, s.launchers[l].goal, s.launchers[l].pc, step)
    ensures Inv(s2)
  {
    var pc := s.launchers[l].pc;
    assert PcOk(s, l, s.launchers[l].goal, pc);
    if pc.Wait? {
      ReapsChild(s, l, pc.child, Failing(pc.child, true));
    } else if pc.reaped {
      MovesOn(s, s, l, Clear(Exited(pc.child)));
    } else {
      ReapsChild(s, l, pc.child, Clear(Exited(pc.child)));
    }
  }

  lemma ChildSteps(s: State, l: nat, step: Step, s2: State)
    requires Inv(s) && Inside(s, l)
    requires step.PopenFails? || step.CaptureRecord? || step.LookUpCaptured? || step.GiveUp?
    requires CanDo(s.world, s.intent, s.launchers[l].goal, s.launchers[l].pc, step)
    requires s2 == Done(s, l, s.launchers[l].goal, s.launchers[l].pc, step)
    ensures Inv(s2)
  {
    MovesOn(s, s, l, s2.launchers[l].pc);
  }

  lemma MatchSteps(s: State, l: nat, step: Step, s2: State)
    requires Inv(s) && Inside(s, l) && (step.Match? || step.CompareMatch?)
    requires CanDo(s.world, s.intent, s.launchers[l].goal, s.launchers[l].pc, step)
    requires s2 == Done(s, l, s.launchers[l].goal, s.launchers[l].pc, step)
    ensures Inv(s2)
  {
    MovesOn(s, s, l, s2.launchers[l].pc);
  }

  lemma VerifiedStep(s: State, l: nat, step: Step, s2: State)
    requires Inv(s) && Inside(s, l) && step.LookUpVerified?
    requires CanDo(s.world, s.intent, s.launchers[l].goal, s.launchers[l].pc, step)
    requires s2 == Done(s, l, s.launchers[l].goal, s.launchers[l].pc, step)
    ensures Inv(s2)
  {
    var pc := s.launchers[l].pc;
    Verifies(s, pc.record);
    MovesOn(s, s.(verified := s.verified + {pc.record}), l, Clear(Verified(pc.child)));
  }

  lemma SaveStep(s: State, l: nat, step: Step, s2: State)
    requires Inv(s) && Inside(s, l) && step.SaveSelection?
    requires CanDo(s.world, s.intent, s.launchers[l].goal, s.launchers[l].pc, step)
    requires s2 == Done(s, l, s.launchers[l].goal, s.launchers[l].pc, step)
    ensures Inv(s2)
  {
    var e := s.(selection := Some(s.launchers[l].pc.replacement));
    assert forall c :: Unverified(e, c) <==> Unverified(s, c);
    MovesOn(s, e, l, Ending);
  }

  lemma DoKeeps(s: State, l: nat, step: Step, s2: State)
    requires Inv(s) && Enabled(s, Do(l, step)) && s2 == Apply(s, Do(l, step))
    ensures Inv(s2)
  {
    if step.Examine? {
      ExamineStep(s, l, step, s2);
    } else if step.Examined? {
      ExaminedStep(s, l, step, s2);
    } else if step.ReadIntent? {
      ReadIntentStep(s, l, step, s2);
    } else if step.LookUpNamed? {
      LookUpNamedStep(s, l, step, s2);
    } else if step.Unlink? {
      UnlinkStep(s, l, step, s2);
    } else if step.WriteIntent? || step.WriteSpawned? {
      IntentSteps(s, l, step, s2);
    } else if step.Send? {
      SendStep(s, l, step, s2);
    } else if step.Popen? {
      PopenStep(s, l, step, s2);
    } else if step.Poll? {
      PollStep(s, l, step, s2);
    } else if step.Match? || step.CompareMatch? {
      MatchSteps(s, l, step, s2);
    } else if step.LookUpVerified? {
      VerifiedStep(s, l, step, s2);
    } else if step.SaveSelection? {
      SaveStep(s, l, step, s2);
    } else if step.PopenFails? || step.CaptureRecord? || step.LookUpCaptured? || step.GiveUp? {
      ChildSteps(s, l, step, s2);
    } else {
      StopSteps(s, l, step, s2);
    }
  }

  lemma RebootKeeps(s: State, wipe: bool)
    requires Inv(s)
    ensures Inv(Rebooted(s, wipe)) && NoChild(Rebooted(s, wipe))
  {
    assert forall c :: !Unverified(Rebooted(s, wipe), c);
  }

  lemma ComingAndGoing(s: State, a: Action)
    requires Inv(s) && Enabled(s, a) && (a.Arrive? || a.Stop?)
    ensures Inv(Apply(s, a))
  {
    var s2 := Apply(s, a);
    SameChildren(s, s2.launchers);
    CoreFrame(s, s2.launchers);
    assert forall c :: Unverified(s2, c) <==> Unverified(s, c);
    if s2.lock.Some? {
      var l := s.lock.value;
      PcFrame(s, s2.launchers, l, s.launchers[l].goal, s.launchers[l].pc);
    }
  }

  lemma AcquireKeeps(s: State, l: nat)
    requires Inv(s) && Enabled(s, Acquire(l))
    ensures Inv(Apply(s, Acquire(l)))
  {
    var s2 := Apply(s, Acquire(l));
    assert forall c :: Unverified(s2, c) <==> Unverified(s, c);
  }

  predicate OfMachine(a: Action) {
    a.Exec? || a.Exit? || a.Reap? || a.Publish? || a.BecomeReady? || a.Unpublish?
  }

  lemma MachineKeeps(s: State, a: Action)
    requires Inv(s) && Enabled(s, a) && OfMachine(a)
    ensures Inv(Apply(s, a))
  {
    MachineIsLater(s, a);
    InvLater(s, Apply(s, a).world);
  }

  /** Every step keeps the invariant. */
  lemma StepKeeps(s: State, a: Action, s2: State)
    requires Inv(s) && Enabled(s, a) && s2 == Apply(s, a)
    ensures Inv(s2)
  {
    if a.Do? {
      DoKeeps(s, a.l, a.step, s2);
    } else if a.Reboot? {
      RebootKeeps(s, a.wipe);
    } else if a.Acquire? {
      AcquireKeeps(s, a.l);
    } else if OfMachine(a) {
      MachineKeeps(s, a);
    } else {
      ComingAndGoing(s, a);
    }
  }

  lemma {:induction false} RunKeeps(states: seq<State>, actions: seq<Action>, k: nat)
    requires Run(states, actions) && k <= |actions|
    ensures Inv(states[k])
  {
    if k == 0 {
      InitialInv(states[0]);
    } else {
      RunKeeps(states, actions, k - 1);
      StepKeeps(states[k - 1], actions[k - 1], states[k]);
    }
  }
}
