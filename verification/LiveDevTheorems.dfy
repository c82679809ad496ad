// The promises of scripts/live_dev.py, over every run.
module LiveDevTheorems {
  import opened LiveDev
  import opened Options
  import opened LiveDevSafety

  // ---------------------------------------------------------------------------------------------
  // Launching

  /** At any moment of any run at most one launched child is alive without having been verified as ready, and
      while there is one the intent file is pending or names exactly that process. */
  lemma AtMostOneUnverified(states: seq<State>, actions: seq<Action>, k: nat, c: Ident)
    requires Run(states, actions) && k <= |actions| && Unverified(states[k], c)
    ensures OnlyChild(states[k], c)
    ensures states[k].intent == PendingLaunch || states[k].intent == Spawned(c)
  {
    RunKeeps(states, actions, k);
  }

  /** Two launchers are never past the lock at once. */
  lemma OneLauncherAtATime(states: seq<State>, actions: seq<Action>, k: nat, l: nat, m: nat)
    requires Run(states, actions) && k <= |actions|
    requires l in states[k].launchers && m in states[k].launchers
    requires !states[k].launchers[l].pc.Outside? && !states[k].launchers[m].pc.Outside?
    ensures l == m
  {
    RunKeeps(states, actions, k);
  }

  /** No launch while another child is unverified; and the target of a restart has exited before its
      replacement is spawned. */
  lemma NoSecondSpawn(states: seq<State>, actions: seq<Action>, k: nat, l: nat, pid: nat)
    requires Run(states, actions) && k < |actions| && actions[k] == Do(l, Popen(pid))
    ensures NoChild(states[k]) && states[k].intent == PendingLaunch
    ensures TargetGone(states[k], states[k].launchers[l].goal)
  {
    RunKeeps(states, actions, k);
  }

  /** ensure_started launches only if every instance that was published when it entered has exited, or its record
      was gone by the time it was to be read. */
  lemma LaunchesOnlyAlone(states: seq<State>, actions: seq<Action>, k: nat, l: nat, p: Ident)
    requires Run(states, actions) && k < |actions| && actions[k] == Do(l, DecideToLaunch)
    ensures var survey := states[k].launchers[l].pc.survey;
      p in survey.glob && p !in survey.gone ==> !Running(states[k].world, p)
  {
    RunKeeps(states, actions, k);
  }

  /** Why the intent file may go: the process it names has exited, or nothing was executed, or the process
      has been verified as ready. */
  ghost predicate MayRemove(s: State, reason: Reason) {
    match reason
    case Stale(_, record, _) => s.intent == Spawned(record) && !Running(s.world, record)
    case SeenReady(_, record, _) => s.intent == Spawned(record) && record in s.verified && record in s.world.ready
    case NoExec => true
    case Exited(child) => !Running(s.world, child)
    case Verified(child) => child in s.verified && child in s.world.ready
  }

  /** The intent file is removed only by the launcher that holds the lock, for one of those reasons, or lost in
      a reboot; never while a child is alive and unverified. */
  lemma RemovedOnlyWithProof(states: seq<State>, actions: seq<Action>, k: nat)
    requires Run(states, actions) && k < |actions|
    requires !states[k].intent.Absent? && states[k + 1].intent.Absent?
    ensures NoChild(states[k + 1])
    ensures actions[k].Do? || actions[k] == Reboot(true)
    ensures actions[k].Do? ==>
      && NoChild(states[k]) && Inside(states[k], actions[k].l)
      && var pc := states[k].launchers[actions[k].l].pc; pc.Clear? && MayRemove(states[k], pc.reason)
  {
    RunKeeps(states, actions, k);
    RunKeeps(states, actions, k + 1);
    OnlyUnlinkRemoves(states[k], actions[k]);
    if actions[k].Do? {
      var l := actions[k].l;
      ReasonLeavesNoChild(states[k], states[k].launchers[l].goal, states[k].launchers[l].pc.reason);
    }
  }

  lemma OnlyUnlinkRemoves(s: State, a: Action)
    requires Enabled(s, a) && !s.intent.Absent? && Apply(s, a).intent.Absent?
    ensures (a.Do? && a.step.Unlink?) || a == Reboot(true)
  {
  }

  /** A launch was interrupted between the write of the intent file and the capture of the child. */
  ghost predicate Interrupted(s: State) {
    && s.intent == PendingLaunch
    && forall l :: l in s.launchers && Inside(s, l) ==>
         var pc := s.launchers[l].pc; pc.Outside? || pc.Pending? || pc.Ending? || (pc.Survey? && pc.why.AtEntry?)
  }

  lemma InterruptedStays(s: State, a: Action, s2: State)
    requires Interrupted(s) && Inv(s) && Enabled(s, a) && s2 == Apply(s, a) && a != Reboot(true)
    ensures Interrupted(s2) && !(a.Do? && (a.step.Popen? || a.step.Send?))
  {
  }

  lemma InterruptedOnce(states: seq<State>, actions: seq<Action>, k: nat)
    requires Run(states, actions) && k < |actions| && Interrupted(states[k]) && actions[k] != Reboot(true)
    ensures Interrupted(states[k + 1])
  {
    RunKeeps(states, actions, k);
    InterruptedStays(states[k], actions[k], states[k + 1]);
  }

  lemma {:induction false} InterruptedOn(states: seq<State>, actions: seq<Action>, j: nat, k: nat)
    requires Run(states, actions) && j <= k <= |actions| && Interrupted(states[j])
    requires forall i :: j <= i < k ==> actions[i] != Reboot(true)
    ensures Interrupted(states[k])
    decreases k
  {
    if j < k {
      InterruptedOn(states, actions, j, k - 1);
      InterruptedOnce(states, actions, k - 1);
    }
  }

  /** From then on, until somebody removes the file by hand or a reboot clears it, nothing is launched or
      signalled. */
  lemma InterruptedForGood(states: seq<State>, actions: seq<Action>, j: nat, k: nat)
    requires Run(states, actions) && j <= k < |actions| && Interrupted(states[j])
    requires forall i :: j <= i < k ==> actions[i] != Reboot(true)
    ensures states[k].intent == PendingLaunch
    ensures !(actions[k].Do? && (actions[k].step.Popen? || actions[k].step.Send?))
  {
    InterruptedOn(states, actions, j, k);
    RunKeeps(states, actions, k);
    if actions[k] != Reboot(true) { InterruptedStays(states[k], actions[k], states[k + 1]); }
  }

  // ---------------------------------------------------------------------------------------------
  // Stopping

  /** Every signal reached exactly the process that the record identifies; nothing is killed that was not asked to
      terminate; without pidfds there are no signals. */
  lemma SignalsHitTheTarget(states: seq<State>, actions: seq<Action>, k: nat)
    requires Run(states, actions) && k <= |actions|
    ensures forall g :: g in states[k].signals ==> g.meant == g.reached
    ensures forall g :: g in states[k].signals && g.kind.Kill? ==> g.(kind := Terminate) in states[k].signals
    ensures !states[k].pidfds ==> states[k].signals == {}
  {
    RunKeeps(states, actions, k);
  }

  lemma StaysDeadByStep(s: State, l: nat, step: Step, p: Ident)
    requires Enabled(s, Do(l, step)) && Born(s.world, p) && !Running(s.world, p)
    ensures Born(Apply(s, Do(l, step)).world, p) && !Running(Apply(s, Do(l, step)).world, p)
  {
  }

  lemma StaysDead(s: State, a: Action, p: Ident, s2: State)
    requires Inv(s) && Enabled(s, a) && s2 == Apply(s, a) && Born(s.world, p) && !Running(s.world, p)
    ensures Born(s2.world, p) && !Running(s2.world, p)
  {
    if a.Do? {
      StaysDeadByStep(s, a.l, a.step, p);
    } else if OfMachine(a) {
      MachineIsLater(s, a);
    }
  }

  lemma DeadOnce(states: seq<State>, actions: seq<Action>, k: nat, p: Ident)
    requires Run(states, actions) && k < |actions| && Born(states[k].world, p) && !Running(states[k].world, p)
    ensures Born(states[k + 1].world, p) && !Running(states[k + 1].world, p)
  {
    RunKeeps(states, actions, k);
    StaysDead(states[k], actions[k], p, states[k + 1]);
  }

  lemma {:induction false} DeadForGood(states: seq<State>, actions: seq<Action>, j: nat, k: nat, p: Ident)
    requires Run(states, actions) && j <= k <= |actions|
    requires Born(states[j].world, p) && !Running(states[j].world, p)
    ensures Born(states[k].world, p) && !Running(states[k].world, p)
    decreases k
  {
    if j < k {
      DeadForGood(states, actions, j, k - 1, p);
      DeadOnce(states, actions, k - 1, p);
    }
  }

  /** When a stop has come to an end without an exception, the target has exited, for good. */
  lemma StopProvesExit(states: seq<State>, actions: seq<Action>, j: nat, k: nat, l: nat)
    requires Run(states, actions) && j <= k <= |actions| && l in states[j].launchers
    requires states[j].launchers[l].goal.Restart?
    requires var pc := states[j].launchers[l].pc; pc.Survey? && pc.why.GateBetween?
    ensures !Running(states[k].world, states[j].launchers[l].goal.target)
  {
    RunKeeps(states, actions, j);
    DeadForGood(states, actions, j, k, states[j].launchers[l].goal.target);
  }

  // ---------------------------------------------------------------------------------------------
  // Restarting: the gates

  /** How many gates a restart has passed: none, the one before the stop, the one before the launch, the one
      before the selection is saved. */
  function Stage(pc: Pc): nat {
    match pc
    case OpenFd => 1
    case CheckTarget(_) => 1
    case Quit(_) => 1
    case CheckAfterQuit(_) => 1
    case Await(_, _) => 1
    case CheckBefore(_, _) => 1
    case Signal(_, _) => 1
    case Survey(_, _, _, _, why) =>
      if why.GateBetween? then 1
      else if why.GateAfter? || (why.ForRecord? && why.phase.Launching?) then 2 else 0
    case Pending(phase, _) => if phase.Launching? then 2 else 0
    case CheckNamed(phase, _, _) => if phase.Launching? then 2 else 0
    case Clear(reason) =>
      if reason.Stale? || reason.SeenReady? then (if reason.phase.Launching? then 2 else 0) else 2
    case Save(_, _) => 3
    case Outside => 0
    case Decide(_) => 0
    case Ending => 0
    case _ => 2
  }

  function Gate(why: Why): nat {
    match why
    case GateBefore => 1
    case GateBetween => 2
    case GateAfter(_) => 3
    case _ => 0
  }

  /** In state s launcher l, with this goal, passes the gate with that number. */
  ghost predicate PassesGate(s: State, a: Action, l: nat, goal: Goal, gate: nat) {
    && a == Do(l, Examined) && Enabled(s, a) && s.launchers[l].goal == goal
    && Gate(s.launchers[l].pc.why) == gate
  }

  lemma StageByStep(s: State, step: Step, l: nat, gate: nat, s2: State)
    requires Enabled(s, Do(l, step)) && s2 == Apply(s, Do(l, step))
    requires !step.Examined? && !step.Unlink? && !step.DecideToLaunch?
    requires s.launchers[l].goal.Restart? && 1 <= gate <= Stage(s2.launchers[l].pc)
    ensures s.launchers[l].goal == s2.launchers[l].goal && gate <= Stage(s.launchers[l].pc)
  {
  }

  lemma StageByUnlink(s: State, step: Step, l: nat, gate: nat, s2: State)
    requires Inv(s) && Enabled(s, Do(l, step)) && s2 == Apply(s, Do(l, step))
    requires step.Unlink? || step.DecideToLaunch?
    requires s.launchers[l].goal.Restart? && 1 <= gate <= Stage(s2.launchers[l].pc)
    ensures s.launchers[l].goal == s2.launchers[l].goal && gate <= Stage(s.launchers[l].pc)
  {
  }

  lemma StageByExamined(s: State, l: nat, gate: nat, s2: State)
    requires Inv(s) && Enabled(s, Do(l, Examined)) && s2 == Apply(s, Do(l, Examined))
    requires s.launchers[l].goal.Restart? && 1 <= gate <= Stage(s2.launchers[l].pc)
    ensures s.launchers[l].goal == s2.launchers[l].goal
    ensures gate <= Stage(s.launchers[l].pc) || Gate(s.launchers[l].pc.why) == gate
  {
  }

  /** A launcher moves by its own steps only, and gets to a later stage only through the gate. */
  lemma StageByGate(s: State, a: Action, l: nat, gate: nat, s2: State)
    requires Inv(s) && Enabled(s, a) && s2 == Apply(s, a)
    requires l in s2.launchers && 1 <= gate <= Stage(s2.launchers[l].pc) && s2.launchers[l].goal.Restart?
    ensures l in s.launchers && s.launchers[l].goal == s2.launchers[l].goal
    ensures gate <= Stage(s.launchers[l].pc) || PassesGate(s, a, l, s.launchers[l].goal, gate)
  {
    if a.Do? && a.l == l {
      if a.step.Examined? {
        StageByExamined(s, l, gate, s2);
      } else if a.step.Unlink? || a.step.DecideToLaunch? {
        StageByUnlink(s, a.step, l, gate, s2);
      } else {
        StageByStep(s, a.step, l, gate, s2);
      }
    } else if a.Do? {
      OthersUnmoved(s, a.step, a.l, l, s2);
    }
  }

  lemma OthersUnmoved(s: State, step: Step, m: nat, l: nat, s2: State)
    requires Enabled(s, Do(m, step)) && s2 == Apply(s, Do(m, step)) && l != m && l in s2.launchers
    ensures l in s.launchers && s.launchers[l] == s2.launchers[l]
  {
  }

  lemma StageOnce(states: seq<State>, actions: seq<Action>, k: nat, l: nat, gate: nat)
    requires Run(states, actions) && k < |actions| && l in states[k + 1].launchers
    requires states[k + 1].launchers[l].goal.Restart? && 1 <= gate <= Stage(states[k + 1].launchers[l].pc)
    ensures l in states[k].launchers && states[k].launchers[l].goal == states[k + 1].launchers[l].goal
    ensures gate <= Stage(states[k].launchers[l].pc)
         || PassesGate(states[k], actions[k], l, states[k].launchers[l].goal, gate)
  {
    RunKeeps(states, actions, k);
    StageByGate(states[k], actions[k], l, gate, states[k + 1]);
  }

  /** Before a restart touches its target, spawns a replacement or saves the selection, it has passed every
      gate on the way, and has stayed behind that gate since. */
  lemma {:induction false} GatesPassed(states: seq<State>, actions: seq<Action>, k: nat, l: nat, gate: nat)
    returns (j: nat)
    requires Run(states, actions) && k <= |actions| && l in states[k].launchers && states[k].launchers[l].goal.Restart?
    requires 1 <= gate <= Stage(states[k].launchers[l].pc)
    ensures j < k && PassesGate(states[j], actions[j], l, states[k].launchers[l].goal, gate)
    ensures forall i :: j < i <= k ==> l in states[i].launchers && gate <= Stage(states[i].launchers[l].pc)
    decreases k
  {
    if k > 0 {
      StageOnce(states, actions, k - 1, l, gate);
      if gate <= Stage(states[k - 1].launchers[l].pc) {
        j := GatesPassed(states, actions, k - 1, l, gate);
      } else {
        j := k - 1;
      }
    }
  }

  /** What a passed gate means: every instance that was published when the survey began and still runs is
      authorised (or is the target, or the replacement), unless its record was gone when its turn came; and every
      authorised one was found. */
  lemma GateMeans(states: seq<State>, actions: seq<Action>, j: nat, l: nat, gate: nat, p: Ident)
    requires Run(states, actions) && j < |actions| && gate >= 1
    requires l in states[j].launchers && PassesGate(states[j], actions[j], l, states[j].launchers[l].goal, gate)
    ensures var pc, goal := states[j].launchers[l].pc, states[j].launchers[l].goal;
      && (p in pc.glob && p !in pc.gone && Running(states[j].world, p) ==>
            p in goal.authorized || (gate == 1 && p == goal.target)
            || (gate == 3 && p == pc.why.replacement))
      && (p in goal.authorized ==> p in pc.seen && p in pc.glob)
  {
    RunKeeps(states, actions, j);
  }

  // ---------------------------------------------------------------------------------------------
  // Records that are withdrawn during a survey

  /** The records that the survey behind this place found gone. */
  function GoneIn(pc: Pc): set<Ident> {
    match pc
    case Survey(_, _, _, gone, _) => gone
    case Pending(_, known) => GoneOf(known)
    case CheckNamed(_, _, known) => GoneOf(known)
    case Clear(reason) => if reason.Stale? || reason.SeenReady? then GoneOf(reason.known) else {}
    case Decide(survey) => survey.gone
    case Save(_, survey) => survey.gone
    case _ => {}
  }

  function GoneOf(known: Option<Known>): set<Ident> {
    if known.Some? then known.value.gone else {}
  }

  ghost predicate FoundGone(s: State, l: nat, p: Ident) {
    l in s.launchers && p in GoneIn(s.launchers[l].pc)
  }

  lemma GoneByOwnStep(s: State, l: nat, step: Step, s2: State, p: Ident)
    requires Enabled(s, Do(l, step)) && s2 == Apply(s, Do(l, step)) && FoundGone(s2, l, p)
    ensures FoundGone(s, l, p) || (step == Examine(p) && p !in s.world.published)
  {
  }

  lemma GoneStep(s: State, a: Action, l: nat, s2: State, p: Ident)
    requires Enabled(s, a) && s2 == Apply(s, a) && FoundGone(s2, l, p)
    ensures FoundGone(s, l, p) || (a == Do(l, Examine(p)) && p !in s.world.published)
  {
    if a.Do? && a.l == l {
      GoneByOwnStep(s, l, a.step, s2, p);
    } else if a.Do? {
      OthersUnmoved(s, a.step, a.l, l, s2);
    }
  }

  lemma GoneOnce(states: seq<State>, actions: seq<Action>, k: nat, l: nat, p: Ident)
    requires Run(states, actions) && k < |actions| && FoundGone(states[k + 1], l, p)
    ensures || FoundGone(states[k], l, p)
            || (actions[k] == Do(l, Examine(p)) && p !in states[k].world.published)
  {
    GoneStep(states[k], actions[k], l, states[k + 1], p);
  }

  /** A record that a survey counts as gone was not on disk at the step of that survey which came to it. */
  lemma {:induction false} GoneWasWithdrawn(states: seq<State>, actions: seq<Action>, k: nat, l: nat, p: Ident)
    returns (j: nat)
    requires Run(states, actions) && k <= |actions| && FoundGone(states[k], l, p)
    ensures j < k && actions[j] == Do(l, Examine(p)) && p !in states[j].world.published
    ensures forall i :: j < i <= k ==> FoundGone(states[i], l, p)
    decreases k
  {
    if k > 0 {
      GoneOnce(states, actions, k - 1, l, p);
      if FoundGone(states[k - 1], l, p) {
        j := GoneWasWithdrawn(states, actions, k - 1, l, p);
      } else {
        j := k - 1;
      }
    }
  }

  // ---------------------------------------------------------------------------------------------
  // The survey before the selection is saved

  /** The survey of the last gate: the records that were there, those still to be verified, and those verified. */
  datatype LastSurvey = LastSurvey(replacement: Ident, glob: set<Ident>, todo: set<Ident>, seen: map<Ident, bool>)

  function LastSurveyOf(pc: Pc): Option<LastSurvey> {
    match pc
    case Survey(glob, todo, seen, _, why) =>
      if why.GateAfter? then Some(LastSurvey(why.replacement, glob, todo, seen)) else None
    case Save(replacement, survey) => Some(LastSurvey(replacement, survey.glob, {}, survey.seen))
    case _ => None
  }

  /** In state s launcher l is in, or has just finished, that last survey. */
  ghost predicate Surveys(s: State, l: nat, replacement: Ident, glob: set<Ident>) {
    && l in s.launchers && LastSurveyOf(s.launchers[l].pc).Some?
    && LastSurveyOf(s.launchers[l].pc).value.replacement == replacement
    && LastSurveyOf(s.launchers[l].pc).value.glob == glob
  }

  /** Whether p is among the verified instances, and as ready. */
  function Verdict(seen: map<Ident, bool>, p: Ident): Option<bool> {
    if p in seen then Some(seen[p]) else None
  }

  /** In state s the survey has done with record p, with this verdict. */
  ghost predicate Judged(s: State, l: nat, replacement: Ident, glob: set<Ident>, p: Ident, verdict: Option<bool>) {
    && Surveys(s, l, replacement, glob)
    && p !in LastSurveyOf(s.launchers[l].pc).value.todo
    && Verdict(LastSurveyOf(s.launchers[l].pc).value.seen, p) == verdict
  }

  /** The record is on disk and its process runs. */
  predicate There(w: World, p: Ident) {
    p in w.published && Running(w, p)
  }

  /** The verdict that the state of the machine calls for. */
  function Finding(w: World, p: Ident): Option<bool> {
    if There(w, p) then Some(p in w.ready) else None
  }

  /** The step at which launcher l verifies record p, or finds it stale. */
  ghost predicate Examines(s: State, a: Action, l: nat, replacement: Ident, glob: set<Ident>, p: Ident) {
    a == Do(l, Examine(p)) && Surveys(s, l, replacement, glob)
  }

  lemma JudgedByExamine(s: State, l: nat, step: Step, s2: State, replacement: Ident, glob: set<Ident>, p: Ident,
                        verdict: Option<bool>)
    requires Inv(s) && Enabled(s, Do(l, step)) && s2 == Apply(s, Do(l, step)) && step.Examine?
    requires p in glob && Judged(s2, l, replacement, glob, p, verdict)
    ensures || Judged(s, l, replacement, glob, p, verdict)
            || (step == Examine(p) && Surveys(s, l, replacement, glob) && verdict == Finding(s.world, p))
  {
    assert PcOk(s, l, s.launchers[l].goal, s.launchers[l].pc);
  }

  lemma JudgedByExamined(s: State, l: nat, s2: State, replacement: Ident, glob: set<Ident>, p: Ident,
                         verdict: Option<bool>)
    requires Enabled(s, Do(l, Examined)) && s2 == Apply(s, Do(l, Examined))
    requires p in glob && Judged(s2, l, replacement, glob, p, verdict)
    ensures Judged(s, l, replacement, glob, p, verdict)
  {
  }

  lemma JudgedByOwnStep(s: State, l: nat, step: Step, s2: State, replacement: Ident, glob: set<Ident>, p: Ident,
                        verdict: Option<bool>)
    requires Inv(s) && Enabled(s, Do(l, step)) && s2 == Apply(s, Do(l, step))
    requires p in glob && Judged(s2, l, replacement, glob, p, verdict)
    ensures || Judged(s, l, replacement, glob, p, verdict)
            || (step == Examine(p) && Surveys(s, l, replacement, glob) && verdict == Finding(s.world, p))
  {
    if step.Examine? {
      JudgedByExamine(s, l, step, s2, replacement, glob, p, verdict);
    } else if step.Examined? {
      JudgedByExamined(s, l, s2, replacement, glob, p, verdict);
    } else {
      JudgedByOther(s, l, step, s2, replacement, glob, p, verdict);
    }
  }

  /** No other step goes on with the last survey; one that begins it has judged nothing. */
  lemma JudgedByOther(s: State, l: nat, step: Step, s2: State, replacement: Ident, glob: set<Ident>, p: Ident,
                      verdict: Option<bool>)
    requires Enabled(s, Do(l, step)) && s2 == Apply(s, Do(l, step)) && !step.Examine? && !step.Examined?
    requires p in glob
    ensures !Judged(s2, l, replacement, glob, p, verdict)
  {
  }

  lemma JudgedStep(s: State, a: Action, l: nat, s2: State, replacement: Ident, glob: set<Ident>, p: Ident,
                   verdict: Option<bool>)
    requires Inv(s) && Enabled(s, a) && s2 == Apply(s, a)
    requires p in glob && Judged(s2, l, replacement, glob, p, verdict)
    ensures || Judged(s, l, replacement, glob, p, verdict)
            || (Examines(s, a, l, replacement, glob, p) && verdict == Finding(s.world, p))
  {
    if a.Do? && a.l == l {
      JudgedByOwnStep(s, l, a.step, s2, replacement, glob, p, verdict);
    } else if a.Do? {
      OthersUnmoved(s, a.step, a.l, l, s2);
    }
  }

  lemma JudgedOnce(states: seq<State>, actions: seq<Action>, k: nat, l: nat, replacement: Ident, glob: set<Ident>,
                   p: Ident, verdict: Option<bool>)
    requires Run(states, actions) && k < |actions| && p in glob
    requires Judged(states[k + 1], l, replacement, glob, p, verdict)
    ensures || Judged(states[k], l, replacement, glob, p, verdict)
            || (Examines(states[k], actions[k], l, replacement, glob, p) && verdict == Finding(states[k].world, p))
  {
    RunKeeps(states, actions, k);
    JudgedStep(states[k], actions[k], l, states[k + 1], replacement, glob, p, verdict);
  }

  /** Every record of the last survey was examined at one step of it, and is among the verified ones if and only
      if it was still on disk and its process ran at that step; as ready, if and only if it was ready then. */
  lemma {:induction false} ExaminedAt(states: seq<State>, actions: seq<Action>, k: nat, l: nat, replacement: Ident,
                                      glob: set<Ident>, p: Ident, verdict: Option<bool>)
    returns (j: nat)
    requires Run(states, actions) && k <= |actions| && p in glob
    requires Judged(states[k], l, replacement, glob, p, verdict)
    ensures j < k && Examines(states[j], actions[j], l, replacement, glob, p)
    ensures verdict == Finding(states[j].world, p)
    ensures forall i :: j < i <= k ==> Judged(states[i], l, replacement, glob, p, verdict)
    decreases k
  {
    if k > 0 {
      JudgedOnce(states, actions, k - 1, l, replacement, glob, p, verdict);
      if Judged(states[k - 1], l, replacement, glob, p, verdict) {
        j := ExaminedAt(states, actions, k - 1, l, replacement, glob, p, verdict);
      } else {
        j := k - 1;
      }
    }
  }

  lemma BeganByOwnStep(s: State, l: nat, step: Step, s2: State, replacement: Ident, glob: set<Ident>)
    requires Enabled(s, Do(l, step)) && s2 == Apply(s, Do(l, step)) && Surveys(s2, l, replacement, glob)
    ensures Surveys(s, l, replacement, glob) || (step.Unlink? && glob == s.world.published)
  {
    if !step.Examine? && !step.Examined? && !step.Unlink? { BegunByUnlink(s, l, step, s2, replacement, glob); }
  }

  lemma BegunByUnlink(s: State, l: nat, step: Step, s2: State, replacement: Ident, glob: set<Ident>)
    requires Enabled(s, Do(l, step)) && s2 == Apply(s, Do(l, step))
    requires !step.Examine? && !step.Examined? && !step.Unlink?
    ensures !Surveys(s2, l, replacement, glob)
  {
  }

  /** The survey goes back to the step that read which records were on disk. */
  lemma BeganStep(s: State, a: Action, l: nat, s2: State, replacement: Ident, glob: set<Ident>)
    requires Inv(s) && Enabled(s, a) && s2 == Apply(s, a) && Surveys(s2, l, replacement, glob)
    ensures Surveys(s, l, replacement, glob) || (a == Do(l, Unlink) && glob == s.world.published)
  {
    if a.Do? && a.l == l {
      BeganByOwnStep(s, l, a.step, s2, replacement, glob);
    } else if a.Do? {
      OthersUnmoved(s, a.step, a.l, l, s2);
    }
  }

  lemma BeganOnce(states: seq<State>, actions: seq<Action>, k: nat, l: nat, replacement: Ident, glob: set<Ident>)
    requires Run(states, actions) && k < |actions| && Surveys(states[k + 1], l, replacement, glob)
    ensures || Surveys(states[k], l, replacement, glob)
            || (actions[k] == Do(l, Unlink) && glob == states[k].world.published)
  {
    RunKeeps(states, actions, k);
    BeganStep(states[k], actions[k], l, states[k + 1], replacement, glob);
  }

  lemma {:induction false} SurveyBegan(states: seq<State>, actions: seq<Action>, k: nat, l: nat, replacement: Ident,
                                       glob: set<Ident>)
    returns (b: nat)
    requires Run(states, actions) && k <= |actions| && Surveys(states[k], l, replacement, glob)
    ensures b < k && actions[b] == Do(l, Unlink) && glob == states[b].world.published
    ensures forall i :: b < i <= k ==> Surveys(states[i], l, replacement, glob)
    decreases k
  {
    if k > 0 {
      BeganOnce(states, actions, k - 1, l, replacement, glob);
      if Surveys(states[k - 1], l, replacement, glob) {
        b := SurveyBegan(states, actions, k - 1, l, replacement, glob);
      } else {
        b := k - 1;
      }
    }
  }

  /** A saved selection is a verified child, and the set verified last, without the replacement, is the
      authorised peers. That survey began at step b, with the records on disk then. The replacement is in the set
      exactly when its record was on disk at step b, and still was at step j, where it was examined, with its process
      running. */
  lemma SelectionSaved(states: seq<State>, actions: seq<Action>, k: nat, l: nat) returns (b: nat, j: nat)
    requires Run(states, actions) && k < |actions| && actions[k] == Do(l, SaveSelection)
    ensures Inside(states[k], l) && states[k].launchers[l].pc.Save? && states[k].launchers[l].goal.Restart?
    ensures var pc, goal := states[k].launchers[l].pc, states[k].launchers[l].goal;
      && states[k + 1].selection == Some(pc.replacement) && pc.replacement in states[k].verified
      && pc.survey.seen.Keys - {pc.replacement} == goal.authorized
    ensures var pc, goal := states[k].launchers[l].pc, states[k].launchers[l].goal;
      && b < k && actions[b] == Do(l, Unlink)
      && (forall i :: b < i <= k ==> Surveys(states[i], l, pc.replacement, states[b].world.published))
      && (pc.replacement in states[b].world.published ==> b < j < k && actions[j] == Do(l, Examine(pc.replacement)))
      && (pc.survey.seen.Keys == goal.authorized + {pc.replacement} <==>
            pc.replacement in states[b].world.published && There(states[j].world, pc.replacement))
  {
    RunKeeps(states, actions, k);
    var pc := states[k].launchers[l].pc;
    var r, glob := pc.replacement, pc.survey.glob;
    b := SurveyBegan(states, actions, k, l, r, glob);
    if r in glob {
      j := ExaminedAt(states, actions, k, l, r, glob, r, Verdict(pc.survey.seen, r));
      NotAtUnlink(states[b], l, r, glob);
    } else {
      j := 0;
    }
  }

  lemma NotAtUnlink(s: State, l: nat, replacement: Ident, glob: set<Ident>)
    requires Enabled(s, Do(l, Unlink))
    ensures !Surveys(s, l, replacement, glob)
  {
  }

  /** So if the replacement's record was on disk when the last survey began and when its turn came, and it still
      runs when the survey ends, the verified set is the authorised peers and the replacement. */
  lemma LiveReplacementVerified(states: seq<State>, actions: seq<Action>, k: nat, l: nat, replacement: Ident)
    requires Run(states, actions) && k < |actions| && actions[k] == Do(l, Examined)
    requires states[k].launchers[l].pc.why == GateAfter(replacement)
    requires replacement in states[k].launchers[l].pc.glob && replacement !in states[k].launchers[l].pc.gone
    requires Running(states[k].world, replacement)
    ensures states[k].launchers[l].pc.seen.Keys == states[k].launchers[l].goal.authorized + {replacement}
  {
    RunKeeps(states, actions, k);
  }
}
