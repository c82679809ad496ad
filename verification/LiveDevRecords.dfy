// Which instance records stay on disk in the protocol of scripts/live_dev.py, and what that means for the next
// launcher.
module LiveDevRecords {
  import opened LiveDev
  import opened Options
  import opened LiveDevSafety
  import opened LiveDevTheorems

  // ---------------------------------------------------------------------------------------------
  // What takes a record off the disk

  /** The action takes the record of p off the disk: by the instance itself, in a reboot, or because a survey comes to
      it while its process is not running. */
  ghost predicate Removes(s: State, a: Action, p: Ident) {
    || a == Unpublish(p) || a == Reboot(true)
    || (a.Do? && a.step == Examine(p) && !Running(s.world, p))
  }

  lemma RecordsByStep(s: State, l: nat, step: Step, s2: State, p: Ident)
    requires Enabled(s, Do(l, step)) && s2 == Apply(s, Do(l, step))
    ensures p in s2.world.published <==> p in s.world.published && !Removes(s, Do(l, step), p)
  {
  }

  lemma RecordsByMachine(s: State, a: Action, s2: State, p: Ident)
    requires Enabled(s, a) && s2 == Apply(s, a) && !a.Do?
    ensures p in s2.world.published <==> a == Publish(p) || (p in s.world.published && !Removes(s, a, p))
  {
  }

  /** Exactly which records are on disk after each step of a run. */
  lemma RecordsAfter(states: seq<State>, actions: seq<Action>, k: nat, p: Ident)
    requires Run(states, actions) && k < |actions|
    ensures p in states[k + 1].world.published
       <==> actions[k] == Publish(p) || (p in states[k].world.published && !Removes(states[k], actions[k], p))
  {
    if actions[k].Do? {
      RecordsByStep(states[k], actions[k].l, actions[k].step, states[k + 1], p);
    } else {
      RecordsByMachine(states[k], actions[k], states[k + 1], p);
    }
  }

  /** Nobody withdraws the record in steps j to k - 1. */
  ghost predicate Undisturbed(actions: seq<Action>, j: nat, k: nat, p: Ident)
    requires k <= |actions|
  {
    forall i :: j <= i < k ==> actions[i] != Unpublish(p) && actions[i] != Reboot(true)
  }

  lemma RunningBefore(states: seq<State>, actions: seq<Action>, j: nat, k: nat, p: Ident)
    requires Run(states, actions) && j <= k <= |actions| && Born(states[j].world, p) && Running(states[k].world, p)
    ensures Running(states[j].world, p)
  {
    if !Running(states[j].world, p) { DeadForGood(states, actions, j, k, p); }
  }

  lemma PublishedBorn(states: seq<State>, actions: seq<Action>, j: nat, p: Ident)
    requires Run(states, actions) && j <= |actions| && p in states[j].world.published
    ensures Born(states[j].world, p)
  {
    RunKeeps(states, actions, j);
  }

  lemma BornOnce(states: seq<State>, actions: seq<Action>, k: nat, p: Ident)
    requires Run(states, actions) && k < |actions| && Born(states[k].world, p)
    ensures Born(states[k + 1].world, p)
  {
    RunKeeps(states, actions, k);
    ClockRuns(states[k], actions[k]);
  }

  lemma ClockRuns(s: State, a: Action)
    requires Enabled(s, a)
    ensures s.world.clock <= Apply(s, a).world.clock
  {
  }

  lemma {:induction false} StaysBorn(states: seq<State>, actions: seq<Action>, j: nat, k: nat, p: Ident)
    requires Run(states, actions) && j <= k <= |actions| && Born(states[j].world, p)
    ensures Born(states[k].world, p)
    decreases k
  {
    if j < k {
      StaysBorn(states, actions, j, k - 1, p);
      BornOnce(states, actions, k - 1, p);
    }
  }

  lemma LiveBefore(states: seq<State>, actions: seq<Action>, j: nat, i: nat, k: nat, p: Ident)
    requires Run(states, actions) && j <= i <= k <= |actions|
    requires p in states[j].world.published && Running(states[k].world, p)
    ensures Running(states[i].world, p)
  {
    PublishedBorn(states, actions, j, p);
    StaysBorn(states, actions, j, i, p);
    RunningBefore(states, actions, i, k, p);
  }

  /** The record of an instance that is published and still runs at step k is on disk up to then, unless it was
      withdrawn or the machine lost its files. */
  lemma {:induction false} RecordStays(states: seq<State>, actions: seq<Action>, j: nat, k: nat, p: Ident)
    requires Run(states, actions) && j <= k <= |actions| && Undisturbed(actions, j, k, p)
    requires p in states[j].world.published && Running(states[k].world, p)
    ensures p in states[k].world.published
    decreases k
  {
    if j < k {
      LiveBefore(states, actions, j, k - 1, k, p);
      RecordStays(states, actions, j, k - 1, p);
      RecordsAfter(states, actions, k - 1, p);
    }
  }

  // ---------------------------------------------------------------------------------------------
  // A live instance keeps the next ensure_started from launching

  /** An ensure_started that has the lock is somewhere between its survey and its decision, and p is among the
      instances that it has yet to verify or has verified. */
  ghost predicate Notices(s: State, l: nat, p: Ident) {
    l in s.launchers && s.launchers[l].goal == Ensure && NoticesAt(s.launchers[l].pc, p)
  }

  ghost predicate NoticesAt(pc: Pc, p: Ident) {
    match pc
    case Survey(_, todo, seen, _, why) => why.AtEntry? && (p in todo || p in seen)
    case Pending(phase, known) => phase.First? && Saw(known, p)
    case CheckNamed(phase, _, known) => phase.First? && Saw(known, p)
    case Clear(reason) => (reason.Stale? || reason.SeenReady?) && reason.phase.First? && Saw(reason.known, p)
    case Decide(survey) => p in survey.seen
    case _ => false
  }

  ghost predicate Saw(known: Option<Known>, p: Ident) {
    known.Some? && p in known.value.seen
  }

  lemma NoticesBySurvey(s: State, l: nat, step: Step, s2: State, p: Ident)
    requires Enabled(s, Do(l, step)) && s2 == Apply(s, Do(l, step)) && Notices(s, l, p)
    requires p in s.world.published && Running(s.world, p) && s.launchers[l].pc.Survey?
    ensures Notices(s2, l, p)
  {
  }

  lemma NoticesByCheck(s: State, l: nat, step: Step, s2: State, p: Ident)
    requires Enabled(s, Do(l, step)) && s2 == Apply(s, Do(l, step)) && Notices(s, l, p)
    requires !s.launchers[l].pc.Survey?
    ensures Notices(s2, l, p)
  {
  }

  /** What notices an instance does not launch. */
  lemma NoticesNoLaunch(s: State, l: nat, step: Step, p: Ident)
    requires Enabled(s, Do(l, step)) && Notices(s, l, p)
    ensures !step.DecideToLaunch? && !step.WriteIntent? && !step.Popen?
  {
  }

  lemma NoticesStep(s: State, a: Action, l: nat, s2: State, p: Ident)
    requires Enabled(s, a) && s2 == Apply(s, a) && Notices(s, l, p) && l in s2.launchers
    requires p in s.world.published && Running(s.world, p) && s.lock == Some(l)
    ensures Notices(s2, l, p)
  {
    if a.Do? {
      if s.launchers[l].pc.Survey? {
        NoticesBySurvey(s, l, a.step, s2, p);
      } else {
        NoticesByCheck(s, l, a.step, s2, p);
      }
    }
  }

  lemma NoticesOnce(states: seq<State>, actions: seq<Action>, k: nat, l: nat, p: Ident)
    requires Run(states, actions) && k < |actions| && Notices(states[k], l, p) && l in states[k + 1].launchers
    requires p in states[k].world.published && Running(states[k].world, p)
    ensures Notices(states[k + 1], l, p)
  {
    RunKeeps(states, actions, k);
    NoticesStep(states[k], actions[k], l, states[k + 1], p);
  }

  /** Launcher l takes the lock at step b for ensure_started, and is still there at step k. */
  ghost predicate Entered(states: seq<State>, actions: seq<Action>, b: nat, k: nat, l: nat)
    requires Run(states, actions) && k <= |actions|
  {
    && b < k && actions[b] == Acquire(l) && states[b].launchers[l].goal == Ensure
    && forall i :: b < i <= k ==> l in states[i].launchers
  }

  lemma NoticesAtEntry(s: State, l: nat, p: Ident)
    requires Enabled(s, Acquire(l)) && s.launchers[l].goal == Ensure && p in s.world.published
    ensures Notices(Apply(s, Acquire(l)), l, p)
  {
  }

  lemma ThereBefore(states: seq<State>, actions: seq<Action>, j: nat, i: nat, k: nat, p: Ident)
    requires Run(states, actions) && j <= i <= k <= |actions| && Undisturbed(actions, j, k, p)
    requires p in states[j].world.published && Running(states[k].world, p)
    ensures p in states[i].world.published && Running(states[i].world, p)
  {
    LiveBefore(states, actions, j, i, k, p);
    RecordStays(states, actions, j, i, p);
  }

  /** p was published at step j, has not been withdrawn or wiped since, and still runs at step k; launcher l entered in
      between, at step b. */
  ghost predicate Meets(states: seq<State>, actions: seq<Action>, j: nat, b: nat, k: nat, l: nat, p: Ident)
    requires Run(states, actions)
  {
    && j <= b < k <= |actions| && Undisturbed(actions, j, k, p) && p in states[j].world.published
    && Running(states[k].world, p) && Entered(states, actions, b, k, l)
  }

  lemma MetBefore(states: seq<State>, actions: seq<Action>, j: nat, b: nat, k: nat, l: nat, p: Ident)
    requires Run(states, actions) && Meets(states, actions, j, b, k, l, p) && b < k - 1
    ensures Meets(states, actions, j, b, k - 1, l, p)
  {
    ThereBefore(states, actions, j, k - 1, k, p);
  }

  ghost predicate NoticesIn(states: seq<State>, k: nat, l: nat, p: Ident) {
    k < |states| && Notices(states[k], l, p)
  }

  lemma NoticesFirst(states: seq<State>, actions: seq<Action>, j: nat, b: nat, l: nat, p: Ident)
    requires Run(states, actions) && Meets(states, actions, j, b, b + 1, l, p)
    ensures NoticesIn(states, b + 1, l, p)
  {
    ThereBefore(states, actions, j, b, b + 1, p);
    NoticesAtEntry(states[b], l, p);
  }

  lemma NoticesNext(states: seq<State>, actions: seq<Action>, j: nat, b: nat, k: nat, l: nat, p: Ident)
    requires Run(states, actions) && Meets(states, actions, j, b, k + 1, l, p) && b < k && NoticesIn(states, k, l, p)
    ensures NoticesIn(states, k + 1, l, p)
  {
    ThereBefore(states, actions, j, k, k + 1, p);
    NoticesOnce(states, actions, k, l, p);
  }

  /** It notices that instance. */
  lemma {:induction false} NoticesLive(states: seq<State>, actions: seq<Action>, j: nat, b: nat, k: nat, l: nat,
                                       p: Ident)
    requires Run(states, actions) && Meets(states, actions, j, b, k, l, p)
    ensures NoticesIn(states, k, l, p)
    decreases k
  {
    if k == b + 1 {
      NoticesFirst(states, actions, j, b, l, p);
    } else {
      MetBefore(states, actions, j, b, k, l, p);
      NoticesLive(states, actions, j, b, k - 1, l, p);
      NoticesNext(states, actions, j, b, k - 1, l, p);
    }
  }

  /** So ensure_started launches nothing beside an instance that was published before it had the lock, has not been
      withdrawn or wiped since, and still runs. */
  lemma LiveInstanceForbidsLaunch(states: seq<State>, actions: seq<Action>, j: nat, b: nat, k: nat, l: nat, p: Ident,
                                  step: Step)
    requires Run(states, actions) && k < |actions| && Meets(states, actions, j, b, k, l, p)
    requires step.DecideToLaunch? || step.WriteIntent? || step.Popen?
    ensures actions[k] != Do(l, step)
  {
    NoticesLive(states, actions, j, b, k, l, p);
    if actions[k] == Do(l, step) { NoticesNoLaunch(states[k], l, step, p); }
  }
}
