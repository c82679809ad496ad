// The concurrent life of src/job_system.cpp: each critical section is one step, taken by any number of
// submitters, pollers and workers in any order.
module JobQueue {
  import opened Bags
  import opened JobPolls

  /** A submission that has its identifier and is not yet in the queue; `known` once its kind was looked up. */
  datatype Hand = Hand(request: JobRequest, known: bool)

  /** A worker: before the test of its loop, in pop_job, running a job, about to post its result, gone. */
  datatype Worker = Looping | Popping | Holding(request: JobRequest) | Posting(result: JobResult) | Gone

  /** The last four fields are history: what was submitted, what entered the queue, what workers started, and
      how many jobs each worker started after stop was set. */
  datatype State = State(
    stop: bool, nextId: nat, kinds: set<string>, hands: seq<Hand>, queue: seq<JobRequest>, workers: seq<Worker>,
    completed: seq<JobResult>, delivered: seq<JobResult>,
    submitted: seq<JobRequest>, enqueued: seq<nat>, started: seq<nat>, late: seq<nat>)

  predicate Initial(s: State) {
    && !s.stop && s.nextId == 1 && s.hands == [] && s.queue == [] && s.completed == [] && s.delivered == []
    && s.submitted == [] && s.enqueued == [] && s.started == [] && |s.late| == |s.workers|
    && forall w :: 0 <= w < |s.workers| ==> s.workers[w] == Looping && s.late[w] == 0
  }

  /** What a handler does: returns some result, or throws an exception, or something that is none. */
  datatype Outcome = Returned(result: JobResult) | Threw(message: string) | ThrewOther

  datatype Action =
    | Register(kind: string)
    | TakeId(kind: string, payload: string, owner: JobOwner) | Reject(h: nat) | Accept(h: nat) | Enqueue(h: nat)
    | SetStop
    | LoopTest(w: nat) | Pop(w: nat) | PopNothing(w: nat) | RunJob(w: nat, outcome: Outcome) | Post(w: nat)
    | Poll(count: nat) | PollMatching(matches: JobResult -> bool, limit: nat, cut: nat)

  function UnknownKind(r: JobRequest): JobResult {
    JobResult(r.id, false, r.kind, "", "Unknown job kind: " + r.kind, r.owner)
  }

  /** The result that a worker posts. The identifier and the owner are put back; the kind only where the
      handler did not return. */
  function Finished(kinds: set<string>, r: JobRequest, outcome: Outcome): JobResult {
    if r.kind !in kinds then UnknownKind(r)
    else match outcome
      case Returned(result) => result.(id := r.id, owner := r.owner)
      case Threw(message) => JobResult(r.id, false, r.kind, "", message, r.owner)
      case ThrewOther => JobResult(r.id, false, r.kind, "", "Unhandled exception in job handler", r.owner)
  }

  ghost predicate Enabled(s: State, a: Action) {
    match a
    case Register(_) => true
    case TakeId(_, _, _) => true
    case Reject(h) => h < |s.hands| && !s.hands[h].known && s.hands[h].request.kind !in s.kinds
    case Accept(h) => h < |s.hands| && !s.hands[h].known && s.hands[h].request.kind in s.kinds
    case Enqueue(h) => h < |s.hands| && s.hands[h].known
    case SetStop => true
    case LoopTest(w) => w < |s.workers| && s.workers[w].Looping?
    case Pop(w) => w < |s.workers| && s.workers[w].Popping? && s.queue != [] && |s.late| == |s.workers|
    case PopNothing(w) => w < |s.workers| && s.workers[w].Popping? && s.stop && s.queue == []
    case RunJob(w, _) => w < |s.workers| && s.workers[w].Holding?
    case Post(w) => w < |s.workers| && s.workers[w].Posting?
    case Poll(count) => count <= |s.completed|
    case PollMatching(matches, limit, cut) =>
      && cut <= |s.completed| && |Filter(matches, s.completed[..cut])| <= limit
      && (cut < |s.completed| ==> |Filter(matches, s.completed[..cut])| == limit)
  }

  ghost function Apply(s: State, a: Action): State
    requires Enabled(s, a)
  {
    match a
    case Register(kind) => s.(kinds := s.kinds + {kind})
    case TakeId(kind, payload, owner) =>
      var r := JobRequest(s.nextId, kind, payload, owner);
      s.(nextId := s.nextId + 1, hands := s.hands + [Hand(r, false)], submitted := s.submitted + [r])
    case Reject(h) =>
      s.(hands := Without(s.hands, h), completed := s.completed + [UnknownKind(s.hands[h].request)])
    case Accept(h) => s.(hands := s.hands[h := s.hands[h].(known := true)])
    case Enqueue(h) =>
      s.(hands := Without(s.hands, h), queue := s.queue + [s.hands[h].request],
         enqueued := s.enqueued + [s.hands[h].request.id])
    case SetStop => s.(stop := true)
    case LoopTest(w) => s.(workers := s.workers[w := if s.stop then Gone else Popping])
    case Pop(w) =>
      s.(queue := s.queue[1..], workers := s.workers[w := Holding(s.queue[0])], started := s.started + [s.queue[0].id],
         late := if s.stop then s.late[w := s.late[w] + 1] else s.late)
    case PopNothing(w) => s.(workers := s.workers[w := Gone])
    case RunJob(w, outcome) =>
      s.(workers := s.workers[w := Posting(Finished(s.kinds, s.workers[w].request, outcome))])
    case Post(w) => s.(workers := s.workers[w := Looping], completed := s.completed + [s.workers[w].result])
    case Poll(count) =>
      s.(completed := s.completed[count..], delivered := s.delivered + s.completed[..count])
    case PollMatching(matches, limit, cut) =>
      s.(completed := Filter(Not(matches), s.completed[..cut]) + s.completed[cut..],
         delivered := s.delivered + Filter(matches, s.completed[..cut]))
  }

  /** The polling methods are these steps. */
  lemma PollsAreSteps(s: State, matches: JobResult -> bool, limit: nat, taken: seq<JobResult>, after: seq<JobResult>,
                      cut: nat)
    requires Polls(matches, limit, s.completed, taken, after, cut)
    ensures Enabled(s, PollMatching(matches, limit, cut))
    ensures Apply(s, PollMatching(matches, limit, cut)) == s.(completed := after, delivered := s.delivered + taken)
  {
  }

  ghost predicate Run(states: seq<State>, actions: seq<Action>) {
    && |states| == |actions| + 1 && Initial(states[0])
    && forall i {:trigger actions[i]} :: 0 <= i < |actions| ==>
         Enabled(states[i], actions[i]) && states[i + 1] == Apply(states[i], actions[i])
  }

  // ---------------------------------------------------------------------------------------------
  // Where the identifiers are

  function HandIs(id: nat): Hand -> bool { (h: Hand) => h.request.id == id }

  function RequestIs(id: nat): JobRequest -> bool { (r: JobRequest) => r.id == id }

  function ResultIs(id: nat): JobResult -> bool { (r: JobResult) => r.id == id }

  predicate HasJob(w: Worker, id: nat) {
    (w.Holding? && w.request.id == id) || (w.Posting? && w.result.id == id)
  }

  function Holds(id: nat): Worker -> bool { (w: Worker) => HasJob(w, id) }

  /** In how many places the identifier is: submitters' hands, queue, workers' hands, completed, delivered. */
  function Places(s: State, id: nat): nat {
    Count(HandIs(id), s.hands) + Count(RequestIs(id), s.queue) + Count(Holds(id), s.workers)
    + Count(ResultIs(id), s.completed) + Count(ResultIs(id), s.delivered)
  }

  // ---------------------------------------------------------------------------------------------
  // The invariant

  /** Every identifier handed out is in exactly one place, and no other identifier is anywhere. */
  ghost predicate Placed(s: State) {
    s.nextId >= 1 && forall id: nat :: Places(s, id) == if 1 <= id < s.nextId then 1 else 0
  }

  ghost predicate RequestOk(submitted: seq<JobRequest>, r: JobRequest) {
    1 <= r.id <= |submitted| && submitted[r.id - 1] == r
  }

  ghost predicate ResultOk(submitted: seq<JobRequest>, r: JobResult) {
    1 <= r.id <= |submitted| && submitted[r.id - 1].owner == r.owner
  }

  ghost predicate HandsOk(submitted: seq<JobRequest>, hands: seq<Hand>) {
    forall i :: 0 <= i < |hands| ==> RequestOk(submitted, hands[i].request)
  }

  ghost predicate QueueOk(submitted: seq<JobRequest>, queue: seq<JobRequest>) {
    forall i :: 0 <= i < |queue| ==> RequestOk(submitted, queue[i])
  }

  ghost predicate ResultsOk(submitted: seq<JobRequest>, results: seq<JobResult>) {
    forall r :: r in results ==> ResultOk(submitted, r)
  }

  ghost predicate WorkersOk(submitted: seq<JobRequest>, workers: seq<Worker>) {
    forall w :: 0 <= w < |workers| ==>
      && (workers[w].Holding? ==> RequestOk(submitted, workers[w].request))
      && (workers[w].Posting? ==> ResultOk(submitted, workers[w].result))
  }

  /** Requests are what was submitted, and results belong to the owner of their request. */
  ghost predicate Honest(s: State) {
    && |s.submitted| == s.nextId - 1
    && (forall i :: 0 <= i < |s.submitted| ==> s.submitted[i].id == i + 1)
    && HandsOk(s.submitted, s.hands) && QueueOk(s.submitted, s.queue) && WorkersOk(s.submitted, s.workers)
    && ResultsOk(s.submitted, s.completed) && ResultsOk(s.submitted, s.delivered)
  }

  /** Jobs start in the order in which they entered the queue. */
  ghost predicate InOrder(s: State) {
    s.enqueued == s.started + Ids(RequestId(), s.queue)
  }

  function RequestId(): JobRequest -> nat { (r: JobRequest) => r.id }

  /** After stop each worker starts at most one more job, and none once it is back at its loop test. */
  ghost predicate Stopping(s: State) {
    && |s.late| == |s.workers|
    && forall w :: 0 <= w < |s.workers| ==>
         && s.late[w] <= 1 && (!s.stop ==> s.late[w] == 0)
         && (s.workers[w].Popping? ==> s.late[w] == 0)
  }

  lemma HandsStep(s: State, a: Action, s2: State, id: nat)
    requires Enabled(s, a) && s2 == Apply(s, a) && (a.TakeId? || a.Reject? || a.Accept? || a.Enqueue?)
    ensures Places(s2, id) == Places(s, id) + if a.TakeId? && id == s.nextId then 1 else 0
  {
    match a
    case TakeId(kind, payload, owner) =>
      CountAppend(HandIs(id), s.hands, Hand(JobRequest(s.nextId, kind, payload, owner), false));
    case Reject(h) =>
      CountWithout(HandIs(id), s.hands, h);
      CountAppend(ResultIs(id), s.completed, UnknownKind(s.hands[h].request));
    case Enqueue(h) =>
      CountWithout(HandIs(id), s.hands, h);
      CountAppend(RequestIs(id), s.queue, s.hands[h].request);
    case Accept(h) =>
      CountUpdate(HandIs(id), s.hands, h, s.hands[h].(known := true));
  }

  lemma WorkerStep(s: State, a: Action, s2: State, id: nat)
    requires Enabled(s, a) && s2 == Apply(s, a)
    requires a.LoopTest? || a.Pop? || a.PopNothing? || a.RunJob? || a.Post?
    ensures Places(s2, id) == Places(s, id)
  {
    HoldsMove(s, a, s2, id);
    if a.Pop? {
      assert Without(s.queue, 0) == s.queue[1..];
      CountWithout(RequestIs(id), s.queue, 0);
    } else if a.Post? {
      CountAppend(ResultIs(id), s.completed, s.workers[a.w].result);
    }
  }

  /** A worker has a job from the moment it takes it until it posts the result. */
  lemma HoldsMove(s: State, a: Action, s2: State, id: nat)
    requires Enabled(s, a) && s2 == Apply(s, a)
    requires a.LoopTest? || a.Pop? || a.PopNothing? || a.RunJob? || a.Post?
    ensures Count(Holds(id), s2.workers)
         == Count(Holds(id), s.workers) + (if a.Pop? && s.queue[0].id == id then 1 else 0)
              - (if a.Post? && s.workers[a.w].result.id == id then 1 else 0)
  {
    CountUpdate(Holds(id), s.workers, a.w, s2.workers[a.w]);
  }

  lemma PollStep(s: State, a: Action, s2: State, id: nat)
    requires Enabled(s, a) && s2 == Apply(s, a) && (a.Poll? || a.PollMatching?)
    ensures Places(s2, id) == Places(s, id)
  {
    if a.Poll? {
      var taken, left := s.completed[..a.count], s.completed[a.count..];
      assert s.completed == taken + left;
      CountConcat(ResultIs(id), taken, left);
      CountConcat(ResultIs(id), s.delivered, taken);
    } else {
      var taken := Filter(a.matches, s.completed[..a.cut]);
      PollsConserve(ResultIs(id), a.matches, a.limit, s.completed, taken, s2.completed, a.cut);
      CountConcat(ResultIs(id), s.delivered, taken);
    }
  }

  lemma PlacedKeeps(s: State, a: Action, s2: State)
    requires Placed(s) && Enabled(s, a) && s2 == Apply(s, a)
    ensures Placed(s2)
  {
    forall id: nat ensures Places(s2, id) == Places(s, id) + if a.TakeId? && id == s.nextId then 1 else 0 {
      if a.TakeId? || a.Reject? || a.Accept? || a.Enqueue? {
        HandsStep(s, a, s2, id);
      } else if a.Poll? || a.PollMatching? {
        PollStep(s, a, s2, id);
      } else if !a.Register? && !a.SetStop? {
        WorkerStep(s, a, s2, id);
      }
    }
  }

  /** What was right about a shorter list of submissions is right about a longer one. */
  lemma MoreSubmitted(s: State, r: JobRequest)
    requires Honest(s)
    ensures HandsOk(s.submitted + [r], s.hands) && QueueOk(s.submitted + [r], s.queue)
    ensures WorkersOk(s.submitted + [r], s.workers)
    ensures ResultsOk(s.submitted + [r], s.completed) && ResultsOk(s.submitted + [r], s.delivered)
  {
  }

  lemma HonestHands(s: State, a: Action, s2: State)
    requires Honest(s) && s.nextId >= 1 && Enabled(s, a) && s2 == Apply(s, a)
    requires a.TakeId? || a.Reject? || a.Accept? || a.Enqueue?
    ensures Honest(s2)
  {
    if a.TakeId? { MoreSubmitted(s, JobRequest(s.nextId, a.kind, a.payload, a.owner)); }
  }

  lemma HonestWorkers(s: State, a: Action, s2: State)
    requires Honest(s) && Enabled(s, a) && s2 == Apply(s, a)
    requires a.LoopTest? || a.Pop? || a.PopNothing? || a.RunJob? || a.Post?
    ensures Honest(s2)
  {
  }

  lemma HonestPolls(s: State, a: Action, s2: State)
    requires Honest(s) && Enabled(s, a) && s2 == Apply(s, a) && (a.Poll? || a.PollMatching?)
    ensures Honest(s2)
  {
    if a.PollMatching? {
      FilterMembers(a.matches, s.completed[..a.cut]);
      FilterMembers(Not(a.matches), s.completed[..a.cut]);
    }
    forall r | r in s2.completed || r in s2.delivered ensures ResultOk(s.submitted, r) {
      assert r in s.completed || r in s.delivered;
    }
  }

  lemma HonestKeeps(s: State, a: Action, s2: State)
    requires Honest(s) && s.nextId >= 1 && Enabled(s, a) && s2 == Apply(s, a)
    ensures Honest(s2)
  {
    if a.TakeId? || a.Reject? || a.Accept? || a.Enqueue? {
      HonestHands(s, a, s2);
    } else if a.Poll? || a.PollMatching? {
      HonestPolls(s, a, s2);
    } else if !a.Register? && !a.SetStop? {
      HonestWorkers(s, a, s2);
    }
  }

  lemma OneBehind(front: seq<nat>, back: seq<nat>, x: nat)
    ensures front + back + [x] == front + (back + [x])
  {
  }

  lemma OneAcross(front: seq<nat>, x: nat, back: seq<nat>)
    ensures front + ([x] + back) == front + [x] + back
  {
  }

  lemma InOrderKeeps(s: State, a: Action, s2: State)
    requires InOrder(s) && Enabled(s, a) && s2 == Apply(s, a)
    ensures InOrder(s2)
  {
    if a.Enqueue? {
      IdsAppend(RequestId(), s.queue, s.hands[a.h].request);
      OneBehind(s.started, Ids(RequestId(), s.queue), s.hands[a.h].request.id);
    } else if a.Pop? {
      IdsTail(RequestId(), s.queue);
      OneAcross(s.started, s.queue[0].id, Ids(RequestId(), s.queue[1..]));
    }
  }

  lemma StoppingKeeps(s: State, a: Action, s2: State)
    requires Stopping(s) && Enabled(s, a) && s2 == Apply(s, a)
    ensures Stopping(s2)
  {
  }

  ghost predicate Inv(s: State) {
    Placed(s) && Honest(s) && InOrder(s) && Stopping(s)
  }

  lemma InitialInv(s: State)
    requires Initial(s)
    ensures Inv(s)
  {
    forall id: nat ensures Places(s, id) == 0 {
      CountNone(Holds(id), s.workers);
    }
  }

  lemma StepKeeps(s: State, a: Action, s2: State)
    requires Inv(s) && Enabled(s, a) && s2 == Apply(s, a)
    ensures Inv(s2)
  {
    PlacedKeeps(s, a, s2);
    HonestKeeps(s, a, s2);
    InOrderKeeps(s, a, s2);
    StoppingKeeps(s, a, s2);
  }

  lemma {:induction false} RunKeeps(states: seq<State>, actions: seq<Action>, k: nat)
    requires Run(states, actions) && k <= |actions|
    ensures Inv(states[k])
  {
    if k == 0 {
      InitialInv(states[0]);
    } else {
      RunKeeps(states, actions, k - 1);
      StepKeeps(states[k - 1], actions[k - 1], states[k]);
    }
  }

  // ---------------------------------------------------------------------------------------------
  // The promises

  /** At any moment of any run, every submitted job is in exactly one of the five places; an identifier that
      was never handed out is in none. */
  lemma ExactlyOnePlace(states: seq<State>, actions: seq<Action>, k: nat, id: nat)
    requires Run(states, actions) && k <= |actions|
    ensures Places(states[k], id) == if 1 <= id < states[k].nextId then 1 else 0
  {
    RunKeeps(states, actions, k);
  }

  /** A delivered result carries the identifier and the owner of a submitted job, whatever the handlers
      returned, and no two carry the same. */
  lemma DeliveredBelongs(states: seq<State>, actions: seq<Action>, k: nat, i: nat)
    requires Run(states, actions) && k <= |actions| && i < |states[k].delivered|
    ensures ResultOk(states[k].submitted, states[k].delivered[i])
    ensures states[k].submitted[states[k].delivered[i].id - 1].id == states[k].delivered[i].id
    ensures forall j :: i < j < |states[k].delivered| ==> states[k].delivered[j].id != states[k].delivered[i].id
  {
    RunKeeps(states, actions, k);
    var s := states[k];
    var id := s.delivered[i].id;
    assert s.delivered[i] in s.delivered;
    forall j | i < j < |s.delivered| ensures s.delivered[j].id != id {
      if s.delivered[j].id == id { CountTwo(ResultIs(id), s.delivered, i, j); }
      assert Places(s, id) <= 1;
    }
  }

  /** Jobs start in the order in which they entered the queue. */
  lemma StartedInOrder(states: seq<State>, actions: seq<Action>, k: nat)
    requires Run(states, actions) && k <= |actions|
    ensures states[k].started <= states[k].enqueued
  {
    RunKeeps(states, actions, k);
  }

  /** After stop is set, each worker starts at most one more job. */
  lemma AtMostOneMore(states: seq<State>, actions: seq<Action>, k: nat, w: nat)
    requires Run(states, actions) && k <= |actions| && w < |states[k].workers|
    ensures |states[k].late| == |states[k].workers| && states[k].late[w] <= 1
  {
    RunKeeps(states, actions, k);
  }

  // ---------------------------------------------------------------------------------------------
  // Where results come from

  /** The result exists: with the worker that is about to post it, among the completed ones, or delivered. */
  ghost predicate Made(s: State, r: JobResult) {
    || r in s.completed || r in s.delivered
    || exists w :: 0 <= w < |s.workers| && s.workers[w] == Posting(r)
  }

  /** The step makes the result r of the request: a submission whose kind is not registered, or the end of a
      handler. */
  ghost predicate MadeBy(s: State, a: Action, request: JobRequest, r: JobResult) {
    && Enabled(s, a)
    && (|| (a.Reject? && s.hands[a.h].request == request && r == UnknownKind(request))
        || (a.RunJob? && s.workers[a.w] == Holding(request) && r == Finished(s.kinds, request, a.outcome)))
  }

  lemma MadeByPoll(s: State, a: Action, s2: State, r: JobResult)
    requires Enabled(s, a) && s2 == Apply(s, a) && (a.Poll? || a.PollMatching?) && Made(s2, r)
    ensures Made(s, r)
  {
    if a.PollMatching? {
      FilterMembers(a.matches, s.completed[..a.cut]);
      FilterMembers(Not(a.matches), s.completed[..a.cut]);
    }
  }

  lemma MadeStep(s: State, a: Action, s2: State, r: JobResult) returns (request: JobRequest)
    requires Honest(s) && Enabled(s, a) && s2 == Apply(s, a) && Made(s2, r)
    ensures Made(s, r) || (MadeBy(s, a, request, r) && RequestOk(s.submitted, request) && request.id == r.id)
  {
    request := JobRequest(0, "", "", r.owner);
    if a.Poll? || a.PollMatching? {
      MadeByPoll(s, a, s2, r);
    } else if a.Reject? {
      request := s.hands[a.h].request;
    } else if a.RunJob? {
      request := s.workers[a.w].request;
    }
  }

  lemma MadeOnce(states: seq<State>, actions: seq<Action>, k: nat, r: JobResult) returns (request: JobRequest)
    requires Run(states, actions) && k < |actions| && Made(states[k + 1], r)
    ensures || Made(states[k], r)
            || (&& MadeBy(states[k], actions[k], request, r) && RequestOk(states[k].submitted, request)
                && request.id == r.id)
  {
    RunKeeps(states, actions, k);
    request := MadeStep(states[k], actions[k], states[k + 1], r);
  }

  lemma SubmittedStays(states: seq<State>, actions: seq<Action>, k: nat, request: JobRequest)
    requires Run(states, actions) && k < |actions| && RequestOk(states[k].submitted, request)
    ensures RequestOk(states[k + 1].submitted, request)
  {
    assert states[k + 1] == Apply(states[k], actions[k]);
  }

  /** Every result was made at an earlier step, for the request that was submitted under its identifier. */
  lemma {:induction false} ResultMade(states: seq<State>, actions: seq<Action>, k: nat, r: JobResult)
    returns (j: nat, request: JobRequest)
    requires Run(states, actions) && k <= |actions| && Made(states[k], r)
    ensures j < k && MadeBy(states[j], actions[j], request, r)
    ensures RequestOk(states[k].submitted, request) && request.id == r.id
    decreases k
  {
    if k == 0 {
      assert false;
    } else {
      request := MadeOnce(states, actions, k - 1, r);
      if Made(states[k - 1], r) {
        j, request := ResultMade(states, actions, k - 1, r);
      } else {
        j := k - 1;
      }
      SubmittedStays(states, actions, k - 1, request);
    }
  }

  /** A handler returned, and with another kind than it was asked for. */
  ghost predicate ReturnsOtherKind(s: State, a: Action, request: JobRequest) {
    && a.RunJob? && request.kind in s.kinds
    && a.outcome.Returned? && a.outcome.result.kind != request.kind
  }

  /** A delivered result has the kind of its submission unless the handler that made it returned another one, and
      then it has that kind. */
  lemma KindKeptExactly(states: seq<State>, actions: seq<Action>, k: nat, r: JobResult)
    returns (j: nat, request: JobRequest)
    requires Run(states, actions) && k <= |actions| && r in states[k].delivered
    ensures j < k && MadeBy(states[j], actions[j], request, r)
    ensures 1 <= r.id <= |states[k].submitted| && request == states[k].submitted[r.id - 1]
    ensures r.kind == request.kind <==> !ReturnsOtherKind(states[j], actions[j], request)
  {
    j, request := ResultMade(states, actions, k, r);
  }

  /** The result says that the job failed, and why; it has the kind of the request and no text. */
  ghost predicate Fails(r: JobResult, request: JobRequest, error: string) {
    !r.ok && r.kind == request.kind && r.result == "" && r.error == error
  }

  /** What the result says, by what the step did that made it. */
  ghost predicate Tells(s: State, a: Action, request: JobRequest, r: JobResult) {
    if a.RunJob? && request.kind in s.kinds then
      match a.outcome
      case Returned(x) => r.ok == x.ok && r.kind == x.kind && r.result == x.result && r.error == x.error
      case Threw(message) => Fails(r, request, message)
      case ThrewOther => Fails(r, request, "Unhandled exception in job handler")
    else
      Fails(r, request, "Unknown job kind: " + request.kind)
  }

  /** A delivered result tells what its handler returned or threw; or that the kind of the job was unknown, if it was
      when the job was submitted or run. */
  lemma DeliveredTells(states: seq<State>, actions: seq<Action>, k: nat, r: JobResult)
    returns (j: nat, request: JobRequest)
    requires Run(states, actions) && k <= |actions| && r in states[k].delivered
    ensures j < k && 1 <= r.id <= |states[k].submitted| && request == states[k].submitted[r.id - 1]
    ensures Enabled(states[j], actions[j])
    ensures || (actions[j].Reject? && states[j].hands[actions[j].h].request == request
                && request.kind !in states[j].kinds)
            || (actions[j].RunJob? && states[j].workers[actions[j].w] == Holding(request))
    ensures r.owner == request.owner && Tells(states[j], actions[j], request, r)
  {
    j, request := ResultMade(states, actions, k, r);
  }

  lemma Extended(states: seq<State>, actions: seq<Action>, a: Action, s2: State)
    returns (states2: seq<State>, actions2: seq<Action>)
    requires Run(states, actions) && Enabled(states[|actions|], a) && s2 == Apply(states[|actions|], a)
    ensures Run(states2, actions2) && |actions2| == |actions| + 1 && states2[|actions2|] == s2
  {
    states2, actions2 := states + [s2], actions + [a];
  }

  /** One worker, one kind, no jobs. */
  function OneWorker(): State {
    State(false, 1, {"a"}, [], [], [Looping], [], [], [], [], [], [0])
  }

  lemma QueuedRun(r: JobRequest) returns (states: seq<State>, actions: seq<Action>)
    requires r.id == 1 && r.kind == "a"
    ensures Run(states, actions)
    ensures states[|actions|] == OneWorker().(nextId := 2, queue := [r], submitted := [r], enqueued := [1])
  {
    var s := OneWorker();
    states, actions := [s], [];
    states, actions := Extended(states, actions, TakeId("a", r.payload, r.owner),
                                s.(nextId := 2, hands := [Hand(r, false)], submitted := [r]));
    s := s.(nextId := 2, submitted := [r]);
    states, actions := Extended(states, actions, Accept(0), s.(hands := [Hand(r, true)]));
    states, actions := Extended(states, actions, Enqueue(0), s.(queue := [r], enqueued := [1]));
  }

  /** A handler does change the kind of a delivered result. */
  lemma OtherKindDelivered(owner: JobOwner) returns (states: seq<State>, actions: seq<Action>)
    ensures Run(states, actions)
    ensures var s := states[|actions|];
      |s.submitted| == 1 && s.submitted[0].kind == "a" && |s.delivered| == 1 && s.delivered[0].kind == "b"
  {
    var r := JobRequest(1, "a", "", owner);
    states, actions := QueuedRun(r);
    var s := OneWorker().(nextId := 2, submitted := [r], enqueued := [1], started := [1]);
    var result := JobResult(1, true, "b", "", "", owner);
    states, actions := Extended(states, actions, LoopTest(0), s.(queue := [r], started := [], workers := [Popping]));
    states, actions := Extended(states, actions, Pop(0), s.(workers := [Holding(r)]));
    states, actions := Extended(states, actions, RunJob(0, Returned(result)), s.(workers := [Posting(result)]));
    states, actions := Extended(states, actions, Post(0), s.(completed := [result]));
    states, actions := Extended(states, actions, Poll(1), s.(delivered := [result]));
  }
}
