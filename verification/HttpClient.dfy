// The worker pool of src/http_client.cpp with its cancel table: each critical section, and each test of a
// cancel flag, is one step, taken by any number of callers and workers in any order.
module HttpClient {
  import opened Bags

  datatype HttpResponse = HttpResponse(id: nat, cancelled: bool, ok: bool, status: int, error: string)

  /** A worker: before its loop test, in pop_request, with a request whose flag it has not looked at, in
      perform, about to post its response, about to take the request out of the cancel table, gone. */
  datatype Worker =
    | Looping | Popping | Popped(id: nat) | Performing(id: nat) | Posting(response: HttpResponse) | Erasing(id: nat)
    | Gone

  /** `table` holds the keys of cancel_flags, `raised` the requests whose flag is set. The fields from `dropped` on are
      history: requests that a shutdown dropped, requests that workers are done with, requests for which a
      cancel returned true, and those for which one did while they were pending; the requests that entered the queue,
      those that workers took out of it, and the responses that were posted. */
  datatype State = State(
    stop: bool, nextId: nat, hands: seq<nat>, pending: seq<nat>, table: set<nat>, raised: set<nat>,
    workers: seq<Worker>, completed: seq<HttpResponse>, delivered: seq<HttpResponse>,
    dropped: seq<nat>, retired: seq<nat>, granted: set<nat>, early: set<nat>,
    queued: seq<nat>, begun: seq<nat>, posted: seq<HttpResponse>)

  predicate Initial(s: State) {
    && !s.stop && s.nextId == 1 && s.hands == [] && s.pending == [] && s.table == {} && s.raised == {}
    && (forall w :: 0 <= w < |s.workers| ==> s.workers[w] == Looping)
    && s.completed == [] && s.delivered == [] && s.dropped == [] && s.retired == []
    && s.granted == {} && s.early == {} && s.queued == [] && s.begun == [] && s.posted == []
  }

  /** How the transfer went: no curl handle, an error, or a status. */
  datatype Transfer = NoHandle | Failed(error: string) | Served(status: int)

  datatype Action =
    | TakeId | Enqueue(h: nat) | Cancel(id: nat) | Poll(count: nat) | SetStop | ClearAll
    | LoopTest(w: nat) | Pop(w: nat) | PopStopped(w: nat) | TestFlag(w: nat) | Finish(w: nat, transfer: Transfer)
    | Post(w: nat) | Erase(w: nat)

  function CancelledResponse(id: nat): HttpResponse {
    HttpResponse(id, true, false, 0, "cancelled")
  }

  /** What perform returns: without a handle the flag is not looked at. */
  function Performed(id: nat, transfer: Transfer, raised: bool): HttpResponse {
    if transfer.NoHandle? then HttpResponse(id, false, false, 0, "curl_easy_init failed")
    else if raised then CancelledResponse(id)
    else match transfer
      case Failed(error) => HttpResponse(id, false, false, 0, error)
      case Served(status) => HttpResponse(id, false, 200 <= status < 400, status, "")
      case NoHandle => CancelledResponse(id)
  }

  predicate Enabled(s: State, a: Action) {
    match a
    case TakeId => true
    case Enqueue(h) => h < |s.hands|
    case Cancel(_) => true
    case Poll(count) => count <= |s.completed|
    case SetStop => true
    case ClearAll => s.stop && forall w :: 0 <= w < |s.workers| ==> s.workers[w].Gone?
    case LoopTest(w) => w < |s.workers| && s.workers[w].Looping?
    case Pop(w) => w < |s.workers| && s.workers[w].Popping? && !s.stop && s.pending != []
    case PopStopped(w) => w < |s.workers| && s.workers[w].Popping? && s.stop
    case TestFlag(w) => w < |s.workers| && s.workers[w].Popped?
    case Finish(w, _) => w < |s.workers| && s.workers[w].Performing?
    case Post(w) => w < |s.workers| && s.workers[w].Posting?
    case Erase(w) => w < |s.workers| && s.workers[w].Erasing?
  }

  /** What a call of cancel returns. */
  predicate CancelReturns(s: State, id: nat) {
    id in s.table
  }

  function Apply(s: State, a: Action): State
    requires Enabled(s, a)
  {
    match a
    case TakeId => s.(nextId := s.nextId + 1, hands := s.hands + [s.nextId])
    case Enqueue(h) =>
      s.(hands := Without(s.hands, h), pending := s.pending + [s.hands[h]], table := s.table + {s.hands[h]},
         queued := s.queued + [s.hands[h]])
    case Cancel(id) =>
      if !CancelReturns(s, id) then s
      else s.(raised := s.raised + {id}, granted := s.granted + {id},
              early := if id in s.pending then s.early + {id} else s.early)
    case Poll(count) => s.(completed := s.completed[count..], delivered := s.delivered + s.completed[..count])
    case SetStop => s.(stop := true)
    case ClearAll => s.(pending := [], table := {}, dropped := s.dropped + s.pending)
    case LoopTest(w) => s.(workers := s.workers[w := if s.stop then Gone else Popping])
    case Pop(w) =>
      s.(pending := s.pending[1..], workers := s.workers[w := Popped(s.pending[0])], begun := s.begun + [s.pending[0]])
    case PopStopped(w) => s.(workers := s.workers[w := Gone])
    case TestFlag(w) =>
      var id := s.workers[w].id;
      s.(workers := s.workers[w := if id in s.raised then Posting(CancelledResponse(id)) else Performing(id)])
    case Finish(w, transfer) =>
      var id := s.workers[w].id;
      s.(workers := s.workers[w := Posting(Performed(id, transfer, id in s.raised))])
    case Post(w) =>
      var r := s.workers[w].response;
      s.(completed := s.completed + [r], workers := s.workers[w := Erasing(r.id)], posted := s.posted + [r])
    case Erase(w) =>
      var id := s.workers[w].id;
      s.(table := s.table - {id}, workers := s.workers[w := Looping], retired := s.retired + [id])
  }

  ghost predicate Run(states: seq<State>, actions: seq<Action>) {
    && |states| == |actions| + 1 && Initial(states[0])
    && forall i {:trigger actions[i]} :: 0 <= i < |actions| ==>
         Enabled(states[i], actions[i]) && states[i + 1] == Apply(states[i], actions[i])
  }

  // ---------------------------------------------------------------------------------------------
  // The invariant

  function Is(id: nat): nat -> bool { (n: nat) => n == id }

  function AnswersTo(id: nat): HttpResponse -> bool { (r: HttpResponse) => r.id == id }

  predicate Holds(w: Worker, id: nat) {
    match w
    case Popped(n) => n == id
    case Performing(n) => n == id
    case Posting(r) => r.id == id
    case Erasing(n) => n == id
    case _ => false
  }

  function HeldBy(id: nat): Worker -> bool { (w: Worker) => Holds(w, id) }

  function ErasedBy(id: nat): Worker -> bool { (w: Worker) => w.Erasing? && w.id == id }

  /** Where a request is: with its submitter, pending, with a worker, dropped, or done with. */
  function Places(s: State, id: nat): nat {
    Count(Is(id), s.hands) + Count(Is(id), s.pending) + Count(HeldBy(id), s.workers) + Count(Is(id), s.dropped)
    + Count(Is(id), s.retired)
  }

  function Responses(s: State, id: nat): nat {
    Count(AnswersTo(id), s.completed) + Count(AnswersTo(id), s.delivered)
  }

  ghost predicate Placed(s: State) {
    s.nextId >= 1 && forall id: nat :: Places(s, id) == if 1 <= id < s.nextId then 1 else 0
  }

  /** A response is there exactly while its worker is erasing the request, and afterwards. */
  ghost predicate Answered(s: State) {
    forall id: nat :: Responses(s, id) == Count(ErasedBy(id), s.workers) + Count(Is(id), s.retired)
  }

  /** The cancel table holds the pending requests and those that a worker has not taken out yet. */
  ghost predicate TableExact(s: State) {
    forall id: nat :: id in s.table <==> Count(Is(id), s.pending) + Count(HeldBy(id), s.workers) > 0
  }

  /** A response is cancelled only for a cancel that returned true, and must be if that came early. */
  ghost predicate Fair(s: State, r: HttpResponse) {
    (r.cancelled ==> r.id in s.granted) && (r.id in s.early ==> r.cancelled)
  }

  ghost predicate CancelsKept(s: State) {
    && s.raised == s.granted && s.early <= s.granted
    && (forall r :: r in s.completed ==> Fair(s, r))
    && (forall r :: r in s.delivered ==> Fair(s, r))
    && (forall w :: 0 <= w < |s.workers| ==>
          && (s.workers[w].Posting? ==> Fair(s, s.workers[w].response))
          && (s.workers[w].Performing? ==> s.workers[w].id !in s.early))
  }

  /** Requests are taken, and responses handed out, in the order in which they came. */
  ghost predicate InOrder(s: State) {
    && s.queued == s.begun + s.dropped + s.pending && s.posted == s.delivered + s.completed
    && (s.dropped != [] ==> forall w :: 0 <= w < |s.workers| ==> s.workers[w].Gone?)
  }

  ghost predicate Inv(s: State) {
    Placed(s) && Answered(s) && TableExact(s) && CancelsKept(s) && InOrder(s)
  }

  lemma InitialInv(s: State)
    requires Initial(s)
    ensures Inv(s)
  {
    forall id: nat ensures Places(s, id) == 0 && Count(ErasedBy(id), s.workers) == 0 {
      CountNone(HeldBy(id), s.workers);
      CountNone(ErasedBy(id), s.workers);
    }
  }

  /** What a step does to the counts of one identifier. */
  ghost predicate Moves(s: State, a: Action, s2: State, id: nat)
    requires Enabled(s, a)
  {
    && Places(s2, id) == Places(s, id) + (if a.TakeId? && id == s.nextId then 1 else 0)
    && Responses(s2, id) - Count(ErasedBy(id), s2.workers) - Count(Is(id), s2.retired)
       == Responses(s, id) - Count(ErasedBy(id), s.workers) - Count(Is(id), s.retired)
  }

  predicate ByCaller(a: Action) {
    a.TakeId? || a.Enqueue? || a.Cancel? || a.Poll? || a.SetStop? || a.ClearAll?
  }

  lemma CallerMoves(s: State, a: Action, s2: State, id: nat)
    requires Enabled(s, a) && s2 == Apply(s, a) && ByCaller(a)
    ensures Moves(s, a, s2, id)
  {
    match a
    case TakeId => CountAppend(Is(id), s.hands, s.nextId);
    case Enqueue(h) =>
      CountWithout(Is(id), s.hands, h);
      CountAppend(Is(id), s.pending, s.hands[h]);
    case Poll(count) =>
      var taken, left := s.completed[..count], s.completed[count..];
      assert s.completed == taken + left;
      CountConcat(AnswersTo(id), taken, left);
      CountConcat(AnswersTo(id), s.delivered, taken);
    case ClearAll => CountConcat(Is(id), s.dropped, s.pending);
    case _ =>
  }

  lemma WorkerPlaces(s: State, a: Action, s2: State, id: nat)
    requires Enabled(s, a) && s2 == Apply(s, a) && !ByCaller(a)
    ensures Places(s2, id) == Places(s, id)
  {
    if a.Pop? {
      PopPlaces(s, a, s2, id);
    } else {
      HeldMoves(s, a, s2, id);
      if a.Erase? { CountAppend(Is(id), s.retired, s.workers[a.w].id); }
    }
  }

  lemma HeldMoves(s: State, a: Action, s2: State, id: nat)
    requires Enabled(s, a) && s2 == Apply(s, a) && !ByCaller(a) && !a.Pop?
    ensures Count(HeldBy(id), s2.workers)
         == Count(HeldBy(id), s.workers) - if a.Erase? && s.workers[a.w].id == id then 1 else 0
  {
    CountUpdate(HeldBy(id), s.workers, a.w, s2.workers[a.w]);
  }

  lemma PopPlaces(s: State, a: Action, s2: State, id: nat)
    requires a.Pop? && Enabled(s, a) && s2 == Apply(s, a)
    ensures Places(s2, id) == Places(s, id)
  {
    CountUpdate(HeldBy(id), s.workers, a.w, s2.workers[a.w]);
    assert Without(s.pending, 0) == s.pending[1..];
    CountWithout(Is(id), s.pending, 0);
  }

  lemma WorkerResponses(s: State, a: Action, s2: State, id: nat)
    requires Enabled(s, a) && s2 == Apply(s, a) && !ByCaller(a)
    ensures Responses(s2, id) - Count(ErasedBy(id), s2.workers) - Count(Is(id), s2.retired)
         == Responses(s, id) - Count(ErasedBy(id), s.workers) - Count(Is(id), s.retired)
  {
    CountUpdate(ErasedBy(id), s.workers, a.w, s2.workers[a.w]);
    if a.Post? {
      CountAppend(AnswersTo(id), s.completed, s.workers[a.w].response);
    } else if a.Erase? {
      CountAppend(Is(id), s.retired, s.workers[a.w].id);
    }
  }

  lemma WorkerMoves(s: State, a: Action, s2: State, id: nat)
    requires Enabled(s, a) && s2 == Apply(s, a) && !ByCaller(a)
    ensures Moves(s, a, s2, id)
  {
    WorkerPlaces(s, a, s2, id);
    WorkerResponses(s, a, s2, id);
  }

  lemma CountsKeep(s: State, a: Action, s2: State)
    requires Placed(s) && Answered(s) && Enabled(s, a) && s2 == Apply(s, a)
    ensures Placed(s2) && Answered(s2)
  {
    forall id: nat
      ensures Places(s2, id) == if 1 <= id < s2.nextId then 1 else 0
      ensures Responses(s2, id) == Count(ErasedBy(id), s2.workers) + Count(Is(id), s2.retired)
    {
      if ByCaller(a) { CallerMoves(s, a, s2, id); } else { WorkerMoves(s, a, s2, id); }
      assert Places(s, id) == if 1 <= id < s.nextId then 1 else 0;
    }
  }

  /** How many of the two kinds that the table lists there are. */
  function Listed(s: State, id: nat): nat {
    Count(Is(id), s.pending) + Count(HeldBy(id), s.workers)
  }

  lemma ListedAtMostOnce(s: State, id: nat)
    requires Placed(s)
    ensures Listed(s, id) <= 1
  {
    assert Places(s, id) <= 1;
  }

  lemma ListedMoves(s: State, a: Action, s2: State, id: nat)
    requires Enabled(s, a) && s2 == Apply(s, a) && !a.ClearAll?
    ensures Listed(s2, id) == Listed(s, id)
              + (if a.Enqueue? && id == s.hands[a.h] then 1 else 0)
              - (if a.Erase? && id == s.workers[a.w].id then 1 else 0)
  {
    if a.Enqueue? {
      CountAppend(Is(id), s.pending, s.hands[a.h]);
    } else if !ByCaller(a) {
      ListedByWorker(s, a, s2, id);
    }
  }

  lemma ListedByWorker(s: State, a: Action, s2: State, id: nat)
    requires Enabled(s, a) && s2 == Apply(s, a) && !ByCaller(a)
    ensures Listed(s2, id) == Listed(s, id) - (if a.Erase? && id == s.workers[a.w].id then 1 else 0)
  {
    CountUpdate(HeldBy(id), s.workers, a.w, s2.workers[a.w]);
    if a.Pop? {
      assert Without(s.pending, 0) == s.pending[1..];
      CountWithout(Is(id), s.pending, 0);
    }
  }

  lemma TableKeeps(s: State, a: Action, s2: State)
    requires Placed(s) && TableExact(s) && Enabled(s, a) && s2 == Apply(s, a)
    ensures TableExact(s2)
  {
    forall id: nat ensures id in s2.table <==> Listed(s2, id) > 0 {
      assert id in s.table <==> Listed(s, id) > 0;
      if a.ClearAll? {
        CountNone(HeldBy(id), s.workers);
      } else {
        ListedMoves(s, a, s2, id);
        ListedAtMostOnce(s, id);
      }
    }
  }

  lemma PendingIsNowhereElse(s: State, id: nat)
    requires Inv(s) && id in s.pending
    ensures Count(HeldBy(id), s.workers) == 0 && Responses(s, id) == 0
  {
    var i :| 0 <= i < |s.pending| && s.pending[i] == id;
    CountWithout(Is(id), s.pending, i);
    assert Places(s, id) <= 1;
    assert Responses(s, id) == Count(ErasedBy(id), s.workers) + Count(Is(id), s.retired);
    ErasedAreHeld(s.workers, id);
  }

  lemma {:induction false} ErasedAreHeld(ws: seq<Worker>, id: nat)
    ensures Count(ErasedBy(id), ws) <= Count(HeldBy(id), ws)
  {
    if ws != [] { ErasedAreHeld(ws[..|ws| - 1], id); }
  }

  lemma {:induction false} CountPositive<T>(p: T -> bool, s: seq<T>)
    requires Count(p, s) == 0
    ensures forall x :: x in s ==> !p(x)
  {
    if s != [] {
      CountPositive(p, s[..|s| - 1]);
      assert s == s[..|s| - 1] + [s[|s| - 1]];
    }
  }

  lemma CancelKeeps(s: State, id: nat, s2: State)
    requires Inv(s) && s2 == Apply(s, Cancel(id))
    ensures CancelsKept(s2)
  {
    if id in s.pending {
      PendingIsNowhereElse(s, id);
      CountPositive(HeldBy(id), s.workers);
      CountPositive(AnswersTo(id), s.completed);
      CountPositive(AnswersTo(id), s.delivered);
      assert forall w :: 0 <= w < |s.workers| ==> s.workers[w] in s.workers && !HeldBy(id)(s.workers[w]);
      assert forall r :: r in s.completed || r in s.delivered ==> !AnswersTo(id)(r);
    }
  }

  lemma CallersKeepCancels(s: State, a: Action, s2: State)
    requires CancelsKept(s) && Enabled(s, a) && s2 == Apply(s, a) && ByCaller(a) && !a.Cancel?
    ensures CancelsKept(s2)
  {
    forall r | r in s2.completed || r in s2.delivered ensures Fair(s, r) {
      assert r in s.completed || r in s.delivered;
    }
  }

  lemma WorkersKeepCancels(s: State, a: Action, s2: State)
    requires CancelsKept(s) && Enabled(s, a) && s2 == Apply(s, a) && !ByCaller(a)
    ensures CancelsKept(s2)
  {
  }

  lemma CallersKeepOrder(s: State, a: Action, s2: State)
    requires InOrder(s) && Enabled(s, a) && s2 == Apply(s, a) && ByCaller(a)
    ensures InOrder(s2)
  {
    if a.Enqueue? {
      assert s2.queued == s.begun + s.dropped + (s.pending + [s.hands[a.h]]);
    } else if a.Poll? {
      assert s.completed == s.completed[..a.count] + s.completed[a.count..];
      assert s.delivered + s.completed == s2.delivered + s2.completed;
    } else if a.ClearAll? {
      assert s.begun + (s.dropped + s.pending) + [] == s.begun + s.dropped + s.pending;
    }
  }

  lemma WorkersKeepOrder(s: State, a: Action, s2: State)
    requires InOrder(s) && Enabled(s, a) && s2 == Apply(s, a) && !ByCaller(a)
    ensures InOrder(s2)
  {
    assert !s.workers[a.w].Gone? && s.dropped == [];
    if a.Pop? {
      assert s.pending == [s.pending[0]] + s.pending[1..];
      assert s.begun + [] + s.pending == s.begun + [s.pending[0]] + [] + s.pending[1..];
    } else if a.Post? {
      assert s.delivered + s.completed + [s.workers[a.w].response] == s2.delivered + s2.completed;
    }
  }

  lemma StepKeeps(s: State, a: Action, s2: State)
    requires Inv(s) && Enabled(s, a) && s2 == Apply(s, a)
    ensures Inv(s2)
  {
    CountsKeep(s, a, s2);
    TableKeeps(s, a, s2);
    if ByCaller(a) { CallersKeepOrder(s, a, s2); } else { WorkersKeepOrder(s, a, s2); }
    if a.Cancel? {
      CancelKeeps(s, a.id, s2);
    } else if ByCaller(a) {
      CallersKeepCancels(s, a, s2);
    } else {
      WorkersKeepCancels(s, a, s2);
    }
  }

  lemma {:induction false} RunKeeps(states: seq<State>, actions: seq<Action>, k: nat)
    requires Run(states, actions) && k <= |actions|
    ensures Inv(states[k])
  {
    if k == 0 {
      InitialInv(states[0]);
    } else {
      RunKeeps(states, actions, k - 1);
      StepKeeps(states[k - 1], actions[k - 1], states[k]);
    }
  }

  // ---------------------------------------------------------------------------------------------
  // The promises

  /** At any moment of any run, cancel would return true for exactly the pending requests and those that a
      worker has and has not yet erased. */
  lemma CancelTableTracksRequests(states: seq<State>, actions: seq<Action>, k: nat, id: nat)
    requires Run(states, actions) && k <= |actions|
    ensures CancelReturns(states[k], id)
       <==> id in states[k].pending || exists w :: 0 <= w < |states[k].workers| && Holds(states[k].workers[w], id)
  {
    RunKeeps(states, actions, k);
    var s := states[k];
    if id in s.pending {
      var i :| 0 <= i < |s.pending| && s.pending[i] == id;
      CountWithout(Is(id), s.pending, i);
    } else {
      CountNone(Is(id), s.pending);
    }
    if exists w :: 0 <= w < |s.workers| && Holds(s.workers[w], id) {
      var w :| 0 <= w < |s.workers| && Holds(s.workers[w], id);
      CountWithout(HeldBy(id), s.workers, w);
    } else {
      CountNone(HeldBy(id), s.workers);
    }
  }

  /** Each request yields at most one response. */
  lemma AtMostOneResponse(states: seq<State>, actions: seq<Action>, k: nat, id: nat)
    requires Run(states, actions) && k <= |actions|
    ensures Responses(states[k], id) <= if 1 <= id < states[k].nextId then 1 else 0
  {
    RunKeeps(states, actions, k);
    ErasedAreHeld(states[k].workers, id);
    assert Places(states[k], id) <= if 1 <= id < states[k].nextId then 1 else 0;
  }

  /** Workers take the requests in the order in which they were enqueued, and polls hand the responses out in the order
      in which they were posted. */
  lemma FirstComeFirstServed(states: seq<State>, actions: seq<Action>, k: nat)
    requires Run(states, actions) && k <= |actions|
    ensures states[k].begun <= states[k].queued && states[k].delivered <= states[k].posted
  {
    RunKeeps(states, actions, k);
    assert states[k].queued == states[k].begun + (states[k].dropped + states[k].pending);
  }

  /** A cancel that returned true while the request was pending forces any response to be a cancelled one, and
      a cancelled response implies that some cancel returned true. */
  lemma CancelsHonoured(states: seq<State>, actions: seq<Action>, k: nat, r: HttpResponse)
    requires Run(states, actions) && k <= |actions| && (r in states[k].completed || r in states[k].delivered)
    ensures r.id in states[k].early ==> r.cancelled
    ensures r.cancelled ==> r.id in states[k].granted
  {
    RunKeeps(states, actions, k);
  }

  /** One worker, one request, popped. */
  function OnePopped(): State {
    State(false, 2, [], [], {1}, {}, [Popped(1)], [], [], [], [], {}, {}, [1], [1], [])
  }

  lemma PoppedRun() returns (states: seq<State>, actions: seq<Action>)
    ensures Run(states, actions) && states[|actions|] == OnePopped()
  {
    var s := State(false, 1, [], [], {}, {}, [Looping], [], [], [], [], {}, {}, [], [], []);
    states, actions := [s], [];
    states, actions := Extended(states, actions, TakeId, s.(nextId := 2, hands := [1]));
    s := s.(nextId := 2, pending := [1], table := {1}, queued := [1]);
    states, actions := Extended(states, actions, Enqueue(0), s);
    states, actions := Extended(states, actions, LoopTest(0), s.(workers := [Popping]));
    states, actions := Extended(states, actions, Pop(0), OnePopped());
  }

  /** Once the request has been popped, the promise is gone: a request whose response is posted but which is
      not erased yet still takes a cancel, and the response stays as it was. */
  lemma LateCancel() returns (states: seq<State>, actions: seq<Action>)
    ensures Run(states, actions)
    ensures var s := states[|actions|]; 1 in s.granted && s.completed == [HttpResponse(1, false, true, 200, "")]
  {
    states, actions := PoppedRun();
    var s, r := OnePopped(), HttpResponse(1, false, true, 200, "");
    states, actions := Extended(states, actions, TestFlag(0), s.(workers := [Performing(1)]));
    states, actions := Extended(states, actions, Finish(0, Served(200)), s.(workers := [Posting(r)]));
    s := s.(workers := [Erasing(1)], completed := [r], posted := [r]);
    states, actions := Extended(states, actions, Post(0), s);
    states, actions := Extended(states, actions, Cancel(1), s.(raised := {1}, granted := {1}));
  }

  lemma Extended(states: seq<State>, actions: seq<Action>, a: Action, s2: State)
    returns (states2: seq<State>, actions2: seq<Action>)
    requires Run(states, actions) && Enabled(states[|actions|], a) && s2 == Apply(states[|actions|], a)
    ensures Run(states2, actions2) && |actions2| == |actions| + 1 && states2[|actions2|] == s2
  {
    states2, actions2 := states + [s2], actions + [a];
  }

  // ---------------------------------------------------------------------------------------------
  // When a cancel is honoured

  /** The response exists: with the worker that is about to post it, among the completed ones, or delivered. */
  ghost predicate Made(s: State, r: HttpResponse) {
    || r in s.completed || r in s.delivered
    || exists w :: 0 <= w < |s.workers| && s.workers[w] == Posting(r)
  }

  /** The step makes the response: the flag test before the transfer, if the flag is up, or the end of the
      transfer. */
  ghost predicate Decides(s: State, a: Action, id: nat) {
    && Enabled(s, a)
    && ((a.TestFlag? && s.workers[a.w].id == id && id in s.raised) || (a.Finish? && s.workers[a.w].id == id))
  }

  predicate WithoutHandle(a: Action) {
    a.Finish? && a.transfer.NoHandle?
  }

  /** What the response says, by what the step did that decided it. */
  ghost predicate Tells(s: State, a: Action, r: HttpResponse) {
    if WithoutHandle(a) then !r.cancelled && !r.ok && r.status == 0 && r.error == "curl_easy_init failed"
    else if r.id in s.granted then r.cancelled && !r.ok && r.status == 0 && r.error == "cancelled"
    else
      && a.Finish? && !r.cancelled
      && match a.transfer
         case Failed(error) => !r.ok && r.status == 0 && r.error == error
         case Served(status) => (r.ok <==> 200 <= status < 400) && r.status == status && r.error == ""
         case NoHandle => false
  }

  lemma MadeStep(s: State, a: Action, s2: State, r: HttpResponse)
    requires CancelsKept(s) && Enabled(s, a) && s2 == Apply(s, a) && Made(s2, r)
    ensures || Made(s, r)
            || (Decides(s, a, r.id) && Tells(s, a, r))
  {
    if !Made(s, r) && !ByCaller(a) {
      var w :| 0 <= w < |s2.workers| && (s2.workers[w] == Posting(r) || (w == a.w && a.Post?));
      assert w == a.w;
    }
  }

  lemma MadeOnce(states: seq<State>, actions: seq<Action>, k: nat, r: HttpResponse)
    requires Run(states, actions) && k < |actions| && Made(states[k + 1], r)
    ensures || Made(states[k], r)
            || (Decides(states[k], actions[k], r.id) && Tells(states[k], actions[k], r))
  {
    RunKeeps(states, actions, k);
    MadeStep(states[k], actions[k], states[k + 1], r);
  }

  /** Every response was decided at an earlier step, and tells what came of the transfer: it is a cancelled one if and
      only if a cancel had been granted by then, unless there is no curl handle, which makes a failed response
      whatever the flag says. */
  lemma {:induction false} ResponseDecided(states: seq<State>, actions: seq<Action>, k: nat, r: HttpResponse)
    returns (j: nat)
    requires Run(states, actions) && k <= |actions| && Made(states[k], r)
    ensures j < k && Decides(states[j], actions[j], r.id) && Tells(states[j], actions[j], r)
    ensures r.cancelled <==> r.id in states[j].granted && !WithoutHandle(actions[j])
    decreases k
  {
    if k > 0 {
      MadeOnce(states, actions, k - 1, r);
      if Made(states[k - 1], r) {
        j := ResponseDecided(states, actions, k - 1, r);
      } else {
        j := k - 1;
      }
    }
  }

  /** One of the first j steps is a cancel of the request that returns true. */
  ghost predicate CancelledBefore(states: seq<State>, actions: seq<Action>, j: nat, id: nat)
    requires Run(states, actions) && j <= |actions|
  {
    exists c :: 0 <= c < j && actions[c] == Cancel(id) && CancelReturns(states[c], id)
  }

  lemma {:induction false} GrantedExactly(states: seq<State>, actions: seq<Action>, j: nat, id: nat)
    requires Run(states, actions) && j <= |actions|
    ensures id in states[j].granted <==> CancelledBefore(states, actions, j, id)
  {
    if j > 0 {
      GrantedExactly(states, actions, j - 1, id);
      GrantedStep(states[j - 1], actions[j - 1], id);
      if CancelledBefore(states, actions, j - 1, id) {
        var c :| 0 <= c < j - 1 && actions[c] == Cancel(id) && CancelReturns(states[c], id);
        assert c < j;
      }
    }
  }

  lemma GrantedStep(s: State, a: Action, id: nat)
    requires Enabled(s, a)
    ensures id in Apply(s, a).granted <==> id in s.granted || (a == Cancel(id) && CancelReturns(s, id))
  {
  }

  /** Exactly when a cancel is honoured: some cancel returned true before the step that decided the response. */
  lemma CancelHonouredExactly(states: seq<State>, actions: seq<Action>, k: nat, r: HttpResponse) returns (j: nat)
    requires Run(states, actions) && k <= |actions| && (r in states[k].completed || r in states[k].delivered)
    ensures j < k && Decides(states[j], actions[j], r.id)
    ensures r.cancelled <==> CancelledBefore(states, actions, j, r.id) && !WithoutHandle(actions[j])
  {
    j := ResponseDecided(states, actions, k, r);
    GrantedExactly(states, actions, j, r.id);
  }
}
