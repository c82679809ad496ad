# Verified models of the engine's layout, launcher, workers, audio, input and colours

This project models seven pieces of the repository in Dafny and proves what they promise. Floating point
numbers are exact reals; a square root is any function whose value squares to its argument.

**Force layout.** `QuadTree.dfy` is the mutable quadtree of `src/force_layout_quad_tree.hpp` on the heap, proved
against `QuadTreeSpec.dfy`, which says what the tree of a list of points is without inserting any.
`QuadTreeTheorems.dfy` and `BarnesHut.dfy` prove what the tree and its queries promise. `RepulsionPass.dfy`,
`Springs.dfy`, `Motion.dfy` and `ForceLayout.dfy` are the phases of `ForceLayout::step` and the object around
them. The code's order of children (SW, SE, NW, NE) is followed, not the comment on the `children` field. On a
split the old point re-enters `insert` on the same node, so a node's mass is the number of its points plus one.

**Live-dev launcher.** `LiveDev.dfy` gives the protocol of `scripts/live_dev.py` as the steps of any number of
launchers, with zombies, pid reuse, reboots, and a kill of any launcher at any point. `LiveDevSafety.dfy` holds the
invariant, `LiveDevTheorems.dfy` and `LiveDevRecords.dfy` the promises over all runs, and `LiveDevRun.dfy` one
run in particular.

**Worker pools.** `JobPolls.dfy` has the polling loops of `src/job_system.cpp`; `JobQueue.dfy` and
`HttpClient.dfy` are the two pools as step systems, one step for each critical section, with any number of callers
and workers.

**Audio input.** `AudioInput.dfy` is the ring buffer of `src/audio_input.cpp` over an array; `SampleStream.dfy`
is the plain list it refines, with what holds over all runs.

**Input state.** `InputState.dfy` is the device tracking of `src/input_state.cpp`, with the single devices as
values in `Devices.dfy`.

**Colours.** `HueQuadrature.dfy`, `ColorModels.dfy` and `HexColors.dfy` are the conversions that undo each other;
the tables are those of CIE 159:2004.

`Reals.dfy`, `Vectors.dfy`, `Bags.dfy`, `Recent.dfy` and `Options.dfy` are shared vocabulary.

What turned out not to hold is stated as it is, with the exact condition where there is one. An edge that is
added downwards without its mirror never acts (`Springs.EdgesActAsAsked`). A restart can select a replacement that
has just died (`LiveDevRun.DeadReplacementSelected`); when the last verified set has the replacement in it is
`LiveDevTheorems.SelectionSaved`. A launch interrupted before its child was recorded blocks all later ones
(`LiveDevTheorems.InterruptedForGood`). A cancel can return true for a request that is answered all the same
(`HttpClient.LateCancel`); when a cancel counts is `HttpClient.CancelHonouredExactly`. A job's result can come back
under another kind (`JobQueue.OtherKindDelivered`, and exactly when is `JobQueue.KindKeptExactly`). Oversize pushes
and clears lose samples that no counter shows (`SampleStream.ConservedIffLossless`). A node can be pushed by a cell
that contains it (`RepulsionPass.PushedByOwnCell`); exactly when is `RepulsionPass.SelfForceExactly`, and never by
a cell of side s with 2 s s >= 1e-9 (`RepulsionPass.NoSelfForce`).

## Model

| member | source | states |
|---|---|---|
| QuadTreeSpec.ChildrenTile | src/force_layout_quad_tree.hpp:25-44 | the four children tile their half-open parent, and `getQuadrant` names the tile of every point |
| QuadTreeSpec.SeparationSeparates | src/force_layout_quad_tree.hpp:46-67 | the least max-norm distance separates every two points, and is positive if and only if they are pairwise distinct |
| QuadTree.QuadTreeNode.Subdivide | src/force_layout_quad_tree.hpp:36-44 | a split makes four fresh empty children over the quarters and changes no mass |
| QuadTree.QuadTreeNode.Insert | src/force_layout_quad_tree.hpp:46-67 | one insertion on the heap turns the tree of a list of points into the tree of the longer list, whatever was split on the way; it ends because the side halves towards the separation of the points |
| QuadTree.QuadTreeNode.Split | src/force_layout_quad_tree.hpp:57-61 | on a split the old point re-enters the same node, so its mass and position are counted there once more |
| QuadTree.QuadTreeNode.FinalizeMass | src/force_layout_quad_tree.hpp:69-77 | every node and nothing else has its position sum divided by its mass |
| QuadTree.QuadTreeNode.ComputeRepulsion | src/force_layout_quad_tree.hpp:79-121 | adds to the force what the places where the query ends contribute: leaves point by point, small cells as one mass |
| QuadTreeTheorems.TreeDetermined | src/force_layout_quad_tree.hpp:46-67 | the insertion order fixes the whole tree: cells, masses, sums and leaves |
| QuadTreeTheorems.PointsAreOrder | src/force_layout_quad_tree.hpp:46-67 | the leaves hold the inserted indices, each exactly once |
| QuadTreeTheorems.HoldsLeavesSound | src/force_layout_quad_tree.hpp:46-67 | every leaf holds at most one index, of a point that lies in its cell; inner nodes hold none |
| QuadTreeTheorems.MassAccounting | src/force_layout_quad_tree.hpp:46-67 | before finalising, a leaf counts the points of its cell, and an inner node counts them and the first to arrive exactly once more, in mass and in position sum |
| QuadTreeTheorems.HeightBound | src/force_layout_quad_tree.hpp:46-67 | with points at least `sep` apart the tree is no deeper than the halvings that bring the side to `sep` |
| QuadTreeTheorems.HeightLogarithmic | src/force_layout_quad_tree.hpp:46-67 | the depth is at most k once the root side is at most sep times 2 to the k |
| QuadTreeTheorems.SplittingEndsIffDistinct | src/force_layout_quad_tree.hpp:53-66 | two points of a cell are parted by some number of splits if and only if they differ |
| BarnesHut.CentreInCell | src/force_layout_quad_tree.hpp:46-77 | the centre of mass of a non-empty node lies in its cell, doubled first point and all |
| BarnesHut.VisitedPartitions | src/force_layout_quad_tree.hpp:79-121 | for every theta, the cells and leaves where a query ends share out all the points of the tree |
| BarnesHut.ExactAtThetaZero | src/force_layout_quad_tree.hpp:79-121 | at theta 0 a query gives the plain sum of the pair forces of the other points, in index order |
| BarnesHut.WholeCellPush | src/force_layout_quad_tree.hpp:88-112 | a cell of side s < theta times the softened distance r pushes as one mass, that of its points with the first counted twice, at the centre of that mass: r r r times the push is strength times mass times the displacement |
| BarnesHut.QuartersPush | src/force_layout_quad_tree.hpp:106-119 | any other cell pushes as its four quarters do |
| BarnesHut.LeafPush | src/force_layout_quad_tree.hpp:92-105 | a leaf pushes as its point does: with r the plain distance, r r r times the push is strength times the displacement; a point does not push itself |
| BarnesHut.InsideThreshold | src/force_layout_quad_tree.hpp:88-112 | about one cell by itself, with its centre of mass anywhere inside: no point of the cell sees it as small at theta 1/2 if and only if 2 s s >= 1e-9 for its side s |
| BarnesHut.SelfExclusion | src/force_layout_quad_tree.hpp:88-112 | at theta 1/2 no cell of side s with 2 s s >= 1e-9 that a query takes whole contains the queried point, wherever the other points are |
| BarnesHut.TakesOwnExactly | src/force_layout_quad_tree.hpp:88-112 | exactly when a query does take a cell that holds its own point: when 4 s s is below the softened squared distance from the point to the centre of mass, for some cell of side s around the point |
| BarnesHut.TinyTakenWhole | src/force_layout_quad_tree.hpp:88-112 | a cell with 4 s s < 1e-9 is taken whole by every query, those of its own points included |
| BarnesHut.UnpartedShadowed | src/force_layout_quad_tree.hpp:46-112 | if two points of the tree are not parted before the cells are that small, the condition of `TakesOwnExactly` holds of both |
| RepulsionPass.RootContainsAll | src/force_layout.cpp:213-222 | the root square contains every position, so the build loop drops none |
| RepulsionPass.CornersTouch | src/force_layout.cpp:213-219 | the corners are those of the smallest box around the nodes |
| RepulsionPass.RootAroundBox | src/force_layout.cpp:220-225 | the root square is centred on that box and reaches 1 beyond its longer side |
| RepulsionPass.BuildTree | src/force_layout.cpp:213-228 | the build loop makes the tree of all the points in index order |
| RepulsionPass.BuiltTree | src/force_layout.cpp:213-228 | after the build loop every index sits in exactly one leaf, whose cell contains it, and the masses are accounted for |
| RepulsionPass.RunQueries | src/force_layout.cpp:231-247 | each thread buffer holds the forces of its own nodes and zeros elsewhere |
| RepulsionPass.MergeBuffers | src/force_layout.cpp:248-254 | the merged buffers are the forces of the nodes |
| RepulsionPass.Repel | src/force_layout.cpp:213-254 | the repulsion forces are those of the one tree of the positions, for every assignment of nodes to threads and every order |
| RepulsionPass.NoSelfForce | src/force_layout.cpp:242-246 | in the pass no node is pushed by a cell of side s with 2 s s >= 1e-9 that contains it, for any positions |
| RepulsionPass.NoSelfForceWhenSpaced | src/force_layout.cpp:242-246 | so by no cell that contains it at all, if nodes are at least sep apart and 2 sep sep >= 1e-9 |
| RepulsionPass.SelfForceExactly | src/force_layout.cpp:213-246 | exactly when a node is pushed by a cell that contains it |
| RepulsionPass.PushedByOwnCell | src/force_layout.cpp:213-246 | four distinct nodes whose tree, built by the build loop, does push the first one by a cell that holds it |
| RepulsionPass.EachNodeOnce | src/force_layout.cpp:242-246 | in the pass every node is accounted for exactly once in every query |
| Springs.PullOpposite | src/force_layout.cpp:263-273 | the two ends of a spring are pulled by equal and opposite forces |
| Springs.PullLaw | src/force_layout.cpp:263-273 | dist times the pull is constant times (dist - rest length) times the displacement |
| Springs.StretchedDrawsTogether | src/force_layout.cpp:263-273 | a spring draws its ends together exactly when it is longer than at rest, and apart when it is shorter |
| Springs.PullAll | src/force_layout.cpp:256-274 | the spring loop adds to every node the pulls of the acting edges on it |
| Springs.SpringsBalance | src/force_layout.cpp:256-274 | for any adjacency lists the spring forces over all nodes add up to zero |
| Springs.EdgesActAsAsked | src/force_layout.cpp:178-183 | over any calls, an edge between known, different nodes acts exactly once per call, unless it was not mirrored and goes downwards, when it never acts |
| Springs.SpringForceOn | src/force_layout.cpp:256-274 | the spring force on a node is the sum of Hooke's law over the edges asked for, in any order |
| Motion.ClampInsideIffOrdered | src/force_layout.cpp:475-496 | a clamped position is inside the bounds if and only if the bounds are in order |
| Motion.ClampIdempotent | src/force_layout.cpp:475-496 | clamping twice is clamping once, and positions inside stay |
| Motion.ClampNonExpansive | src/force_layout.cpp:475-496 | clamping brings no two positions further apart in the plane |
| Motion.SortRangeOrders | src/force_layout.cpp:404-409 | sorted bounds are in order, whichever way round they were given, and hold the two given values |
| Motion.CappedWithin | src/force_layout.cpp:293-300 | the square of a displacement is at most the cap, exactly the cap if it was over it, and the displacement is unchanged otherwise |
| Motion.MovesAddUp | src/force_layout.cpp:293-304 | k capped moves and one more make a move of at most k + 1 times the root of the cap |
| Motion.ClampNearest | src/force_layout.cpp:475-496 | within ordered bounds a coordinate goes to the nearest one inside; across crossed ones to the upper one |
| Motion.TooFarExactly | src/force_layout.cpp:17-33 | a position is too far exactly when its magnitude exceeds a million |
| ForceLayout.ForceLayout.constructor | src/force_layout.cpp:133-156 | an empty layout whose centre is refreshed from the given bounds |
| ForceLayout.ForceLayout.AddNode | src/force_layout.cpp:168-176 | a position beyond the threshold is refused without effect, any other is clamped and appended with an empty row |
| ForceLayout.ForceLayout.AddEdge | src/force_layout.cpp:178-183 | the adjacency lists stay those of the calls made so far |
| ForceLayout.ForceLayout.SetPosition | src/force_layout.cpp:185-189 | an unknown index is ignored, a far position refused, any other stored clamped |
| ForceLayout.ForceLayout.PinNode | src/force_layout.cpp:191-194 | changes exactly one pin, or none for an unknown index |
| ForceLayout.ForceLayout.SetBounds | src/force_layout.cpp:404-413 | puts the bounds in order, clamps every node into them and refreshes the centre |
| ForceLayout.ForceLayout.RefreshCenter | src/force_layout.cpp:460-473 | the centre follows an axis only where both of its bounds are finite |
| ForceLayout.ForceLayout.CenterBetween | src/force_layout.cpp:460-473 | along an axis with two finite bounds the centre is as far from the one as from the other |
| ForceLayout.ForceLayout.ClampStart | src/force_layout.cpp:203-208 | checks each position before clamping it; at the first bad one the earlier ones are clamped and the later ones untouched |
| ForceLayout.ForceLayout.ComputeForces | src/force_layout.cpp:210-281 | the force on each node is the push on it, the springs of the edges asked for, and the pull to the centre; the push is that of the tree of the nodes, unless two coincide, when it may be anything |
| ForceLayout.CenteringPulls | src/force_layout.cpp:276-281 | along each axis the pull is towards the centre and grows with the square of the distance |
| ForceLayout.ForceLayout.Integrate | src/force_layout.cpp:283-314 | moves every node by its capped shift and reports total, average and maximum; stops at the first position that is too far |
| ForceLayout.MovesAlongForce | src/force_layout.cpp:283-304 | in an iteration a node that is not pinned moves by deltaT times the force on it, or, where that is over the cap, along it with the cap for its square, and is then clamped; with no bound in the way it ends exactly there; the length of that move is what it adds to the report |
| ForceLayout.MaximumIsAMove | src/force_layout.cpp:304-310 | the reported maximum is the length of the move of some node |
| ForceLayout.ForceLayout.Step | src/force_layout.cpp:196-318 | a call is a run of such iterations from the clamped start; on normal return every node is inside ordered bounds, pinned nodes are at their clamped start, the others at most k roots of the cap away |
| ForceLayout.RunKeeps | src/force_layout.cpp:196-318 | every run keeps bounds, pins, heights and displacement cap after each of its iterations |
| ForceLayout.CallKeeps | src/force_layout.cpp:196-318 | the same from the positions given to a whole call |
| ForceLayout.ReportBoundsMoves | src/force_layout.cpp:284-314 | the reported average is at most the maximum, that at most the root of the cap, and no node moved further than the maximum |
| ForceLayout.LastMovesBelow | src/force_layout.cpp:320-330 | a reported maximum below a limit means that the last iteration moved every node by less than the limit |
| ForceLayout.ForceLayout.Update | src/force_layout.cpp:320-332 | stops exactly when the results are below both thresholds, and then the last iteration moved every node by less than the threshold |
| LiveDevSafety.StepKeeps | scripts/live_dev.py:350-753 | every step of a launcher, of the machine, and every kill keeps the protocol invariant |
| LiveDevTheorems.AtMostOneUnverified | scripts/live_dev.py:450-522 | in every reachable state at most one launched child is alive and unverified, and the intent file is pending or names exactly it |
| LiveDevTheorems.OneLauncherAtATime | scripts/live_dev.py:350-365 | two launchers are never past the lock at once |
| LiveDevTheorems.NoSecondSpawn | scripts/live_dev.py:450-522 | a spawn happens only while no child is unverified and the file says pending; a restart spawns only after its target has exited |
| LiveDevTheorems.LaunchesOnlyAlone | scripts/live_dev.py:546-557 | ensure_started launches only if every instance published when its survey began has exited, or its record was gone when its turn came |
| LiveDevTheorems.RemovedOnlyWithProof | scripts/live_dev.py:450-522 | the file is removed only by the holder of the lock, after proven exit, failed exec or verified publication, or lost in a reboot, and never while a child is unverified |
| LiveDevTheorems.InterruptedForGood | scripts/live_dev.py:454-463 | a launch interrupted before its child was recorded blocks every later launch and signal until the file is removed by hand or cleared by a reboot |
| LiveDevTheorems.SignalsHitTheTarget | scripts/live_dev.py:638-700 | every signal reached exactly the process that the record identifies; nothing is killed that was not asked to terminate; without pidfds no signal is sent |
| LiveDevTheorems.StopProvesExit | scripts/live_dev.py:654-700 | when a stop ends without an exception the target has exited, for good |
| LiveDevTheorems.DeadForGood | scripts/live_dev.py:183-206 | a process that has started and is not running never runs again, whatever pids are reused |
| LiveDevTheorems.GatesPassed | scripts/live_dev.py:734-753 | before a restart touches its target, spawns a replacement or saves the selection it has passed every gate on the way: this very launcher, which has been behind that gate ever since |
| LiveDevTheorems.GateMeans | scripts/live_dev.py:703-753 | at a passed gate every instance that was published when the survey began and still runs is authorised, or the target, or the replacement, or its record was gone when its turn came; every authorised one was verified |
| LiveDevTheorems.GoneWasWithdrawn | scripts/live_dev.py:240-268 | a record that counts as gone was not on disk at the step of that survey which came to it |
| LiveDevTheorems.ExaminedAt | scripts/live_dev.py:209-268 | every record of the last survey was examined at one step of it, and is among the verified ones if and only if it was still on disk and its process ran at that step; as ready, if and only if it was ready then |
| LiveDevRecords.RecordsAfter | scripts/live_dev.py:225-268 | exactly which records are on disk after each step of a run: one goes only when it is withdrawn, wiped, or examined while its process is not running, and then it does go |
| LiveDevRecords.RecordStays | scripts/live_dev.py:225-268 | the record of an instance that still runs stays on disk unless it was withdrawn or wiped |
| LiveDevRecords.LiveInstanceForbidsLaunch | scripts/live_dev.py:546-557 | an ensure_started that takes the lock after an instance was published launches nothing while that instance runs and its record was neither withdrawn nor wiped |
| LiveDevTheorems.SelectionSaved | scripts/live_dev.py:749-753 | a saved selection is a verified child, and the set verified last, without it, was the authorised peers; the set was those and the replacement if and only if the record of the replacement was on disk when that survey began, and still was when it was examined, with its process running |
| LiveDevTheorems.LiveReplacementVerified | scripts/live_dev.py:749-753 | if the record of the replacement was on disk when the last survey began and when its turn came, and the replacement runs when the survey ends, the verified set is the authorised peers and the replacement |
| LiveDevRun.DeadReplacementSelected | scripts/live_dev.py:703-753 | a run from the start in which the replacement dies before the last survey comes to its record, and is selected all the same |
| JobPolls.Completed.Poll | src/job_system.cpp:81-102 | takes out all results, or the first ones asked for, and leaves the rest in order |
| JobPolls.Completed.TakeMatching | src/job_system.cpp:104-182 | the shared loop of the selective polls: up to a cut all matches are taken and the others stay; behind it nothing is touched |
| JobPolls.Completed.PollKind | src/job_system.cpp:104-128 | the selective poll by kind |
| JobPolls.Completed.PollOwner | src/job_system.cpp:130-154 | the selective poll by owner |
| JobPolls.Completed.PollKindOwner | src/job_system.cpp:156-182 | the selective poll by kind and owner |
| JobPolls.PollsInOrder | src/job_system.cpp:104-182 | a poll takes the first matching results in order, no more than asked for, and leaves the others in order |
| JobPolls.PollsConserve | src/job_system.cpp:104-182 | a poll loses and copies nothing |
| JobQueue.StepKeeps | src/job_system.cpp:37-239 | every critical section keeps the invariant of the job system |
| JobQueue.ExactlyOnePlace | src/job_system.cpp:59-239 | in every reachable state each submitted job is in exactly one of: submitter, queue, worker, completed, delivered; no other identifier is anywhere |
| JobQueue.DeliveredBelongs | src/job_system.cpp:204-237 | a delivered result carries the identifier and owner of a submitted job whatever the handler returned, and no two carry the same |
| JobQueue.StartedInOrder | src/job_system.cpp:184-195 | jobs start in the order in which they entered the queue |
| JobQueue.AtMostOneMore | src/job_system.cpp:184-202 | after stop is set each worker starts at most one more job |
| JobQueue.ResultMade | src/job_system.cpp:59-232 | every result was made at an earlier step, for the request submitted under its identifier: by a submission of an unknown kind or at the end of a handler |
| JobQueue.DeliveredTells | src/job_system.cpp:59-232 | over every run a delivered result tells what its handler returned, or the error it threw, or that the kind of the job was unknown, and belongs to the owner who asked |
| JobQueue.KindKeptExactly | src/job_system.cpp:204-232 | over every run a delivered result has the kind of its submission if and only if it was not made by a handler that returned another kind |
| JobQueue.OtherKindDelivered | src/job_system.cpp:204-232 | a run from the start in which a result is delivered under another kind than its job was submitted with |
| HttpClient.StepKeeps | src/http_client.cpp:148-286 | every critical section keeps the invariant of the client |
| HttpClient.CancelTableTracksRequests | src/http_client.cpp:148-177 | cancel returns true for exactly the pending requests and those a worker has and has not yet erased |
| HttpClient.AtMostOneResponse | src/http_client.cpp:253-286 | each request yields at most one response |
| HttpClient.FirstComeFirstServed | src/http_client.cpp:148-232 | workers take the requests in the order in which they were enqueued, and polls hand the responses out in the order in which they were posted |
| HttpClient.CancelsHonoured | src/http_client.cpp:166-177 | a cancel that returned true while the request was pending forces any response to be cancelled; a cancelled response implies that some cancel returned true |
| HttpClient.LateCancel | src/http_client.cpp:273-283 | a concrete run in which cancel returns true and the request nevertheless has an ordinary response |
| HttpClient.ResponseDecided | src/http_client.cpp:253-363 | every response was decided at an earlier step, a flag test or the end of a transfer; it is a cancelled one if and only if a cancel had been granted by then and there was a curl handle, and otherwise has the error or the status of the transfer, and is ok for 200 to 399 |
| HttpClient.CancelHonouredExactly | src/http_client.cpp:166-177 | a response is a cancelled one if and only if some cancel of it returned true before the step that decided it, and that was no transfer without a curl handle |
| AudioInput.SampleRingBuffer.Push | src/audio_input.cpp:56-83 | the contents become the newest samples of old and new, through every wrap-around and the oversize path; drops are counted as the source counts them |
| AudioInput.SampleRingBuffer.PushOne | src/audio_input.cpp:72-82 | one sample goes into a free slot or over the oldest one |
| AudioInput.SampleRingBuffer.Read | src/audio_input.cpp:85-100 | a prefix of the contents comes out and the rest stays |
| AudioInput.SampleRingBuffer.ReadInto | src/audio_input.cpp:102-118 | the same into a buffer whose other elements stay as they were |
| AudioInput.SampleRingBuffer.Clear | src/audio_input.cpp:126-131 | empties the buffer and counts nothing |
| SampleStream.EverySampleAccounted | src/audio_input.cpp:56-131 | over any run, samples offered are those read, held, counted as dropped, and lost uncounted |
| SampleStream.ConservedIffLossless | src/audio_input.cpp:56-131 | offered = read + held + dropped over a run if and only if every push was shorter than the buffer, or contended, or just filled an empty buffer, and every clear found it empty |
| SampleStream.HeldIsSuffix | src/audio_input.cpp:56-131 | over any run the contents are a suffix of all samples ever accepted |
| SampleStream.FirstInFirstOut | src/audio_input.cpp:56-131 | what the reads returned, followed by what is held, is all that was pushed, in order, if and only if the run counted no drop and lost nothing uncounted |
| SampleStream.RunInterleaved | src/audio_input.cpp:56-131 | over any run of whole-frame pushes and reads, contents and reads are whole frames with sample k from channel k mod channels |
| AudioInput.CapacityWholeFrames | src/audio_input.cpp:174-181 | the capacity is a whole number of frames |
| AudioInput.CapacityTwoSeconds | src/audio_input.cpp:174-181 | the capacity is the configured number of frames, or two seconds of them |
| AudioInput.Open | src/audio_input.cpp:149-222 | an input is opened exactly for a positive sample rate and channel count that an existing device covers and whose stream opens; it starts empty and aligned |
| AudioInput.AudioInput.Callback | src/audio_input.cpp:245-264 | a callback pushes its frames and keeps head, size and capacity whole frames and the contents interleaved |
| AudioInput.AudioInput.AvailableFrames | src/audio_input.cpp:358-365 | the number of whole frames held |
| AudioInput.AudioInput.ReadFrames | src/audio_input.cpp:367-374 | whole frames come out, each sample from its own channel, as many as asked for or all there are |
| AudioInput.AudioInput.ReadFramesInto | src/audio_input.cpp:376-384 | the same into a buffer of the caller, counted in frames |
| InputState.InputState.BeginFrame | src/input_state.cpp:366-416 | forgets exactly the devices that have been away for a frame, moves the others on, and changes no primary device |
| InputState.InputState.AssignPrimaryTouchIfMissing | src/input_state.cpp:923-943 | the primary contact is down afterwards, and absent only if none is; one that was down stays |
| InputState.InputState.AssignPrimaryPenIfMissing | src/input_state.cpp:945-965 | the same for pens in range |
| InputState.InputState.AssignPrimaryIfMissing | src/input_state.cpp:905-921 | the same for connected gamepads |
| InputState.InputState.OnTouchDown | src/input_state.cpp:452-465 | the contact is down; it becomes primary if there was none |
| InputState.InputState.OnTouchMotion | src/input_state.cpp:467-480 | the same for a motion |
| InputState.InputState.OnTouchUp | src/input_state.cpp:482-498 | the primary passes on only when the primary contact itself goes up |
| InputState.InputState.OnPenProximityIn | src/input_state.cpp:500-522 | the pen is in range and primary, and its history gains the record of the event |
| InputState.InputState.OnPenProximityOut | src/input_state.cpp:524-549 | the pen is away; the primary changes only if it was this pen |
| InputState.InputState.OnPenMotion | src/input_state.cpp:551-577 | the pen is updated, recorded and primary |
| InputState.InputState.OnPenDown | src/input_state.cpp:579-606 | the same for the tip going down |
| InputState.InputState.OnPenUp | src/input_state.cpp:608-635 | the same for the tip going up |
| InputState.InputState.OnPenButton | src/input_state.cpp:637-665 | the same for a button, over what the flags say |
| InputState.InputState.OnPenAxis | src/input_state.cpp:667-695 | the same for an axis |
| InputState.PushKeepsLast | src/input_state.cpp:263-269 | appending to the last 128 records, with the oldest dropped when there are 128, gives the last 128 of the longer list |
| InputState.InputState.OnGamepadConnected | src/input_state.cpp:418-423 | the gamepad is connected; it becomes primary if there was none |
| InputState.InputState.OnGamepadDisconnected | src/input_state.cpp:425-436 | the gamepad is forgotten; the primary changes only if it was this one |
| InputState.InputState.OnGamepadButton | src/input_state.cpp:438-443 | the gamepad becomes primary; a button out of range is an error that changes no primary |
| InputState.InputState.OnGamepadAxis | src/input_state.cpp:445-450 | the same for an axis |
| InputState.InputState.Handle | src/input_state.cpp:366-695 | an event changes contacts, pens, gamepads and the records of each pen as the pure functions of the event say; every primary identifier keeps agreeing with its device map; a primary contact still down is still primary |
| InputState.InputState.Replay | src/input_state.cpp:366-695 | over every sequence of events: contacts, pens and records are those functions applied in turn; each history is the last 128 of all records of the pen since it was tracked; a primary contact that is down after every prefix is still primary |
| InputState.LogListsEvents | src/input_state.cpp:500-695 | as long as no frame forgets a pen its records are those of the events about it, all and in order |
| InputState.OnlyDownIsPrimary | src/input_state.cpp:923-943 | after a contact goes down the primary is what it was, or that contact if there was none |
| InputState.TouchSays | src/input_state.cpp:452-498 | what a contact says after each contact event, field by field |
| InputState.FrameSays | src/input_state.cpp:366-416 | after a frame the previous states are what the current ones were, and there is no movement |
| InputState.FrameForgets | src/input_state.cpp:366-416 | a frame forgets exactly the contacts and pens that have been idle for a frame |
| InputState.PenMovesTo | src/input_state.cpp:551-635 | a pen event leaves the pen where it says, moved from where it was, with tip and eraser as it says |
| InputState.PenButtonsSay | src/input_state.cpp:637-665 | the buttons are those of the flags, except the one that the event is about |
| InputState.PenAxesSay | src/input_state.cpp:667-695 | an axis event sets its axis, and nothing else sets any |
| InputState.PenComesAndGoes | src/input_state.cpp:500-549 | proximity starts the pen afresh where it was |
| InputState.RecordShowsPen | src/input_state.cpp:500-695 | the newest record of a pen shows the pen as the event left it |
| InputState.GamepadSays | src/input_state.cpp:438-450 | a button or an axis in range is set, and no other; axes stay within -1 and 1 |
| HueQuadrature.FindSegment | src/colorspacious.cpp:114-123 | the loop finds the one segment that the value falls into, the outer ones reaching out |
| HueQuadrature.HueToQuadrature | src/colorspacious.cpp:114-126 | computes the hue quadrature of the shifted hue |
| HueQuadrature.QuadratureToHue | src/colorspacious.cpp:128-147 | computes the hue of a quadrature |
| HueQuadrature.QuadratureIncreases | src/colorspacious.cpp:114-126 | the quadrature is strictly increasing along the shifted hue, from 0 to below 400 |
| HueQuadrature.HueRoundTrip | src/colorspacious.cpp:114-147 | the inverse undoes the quadrature for every hue in [0, 360), with 0 coming back as 360 |
| HueQuadrature.QuadratureRoundTrip | src/colorspacious.cpp:114-147 | the quadrature undoes the inverse for every quadrature in [0, 400) |
| HueQuadrature.UniqueHues | src/colorspacious.cpp:61-63 | the quadratures of 20.14, 90, 164.25 and 237.53 are 0, 100, 200 and 300 |
| HueQuadrature.QuadratureByTheNumbers | src/colorspacious.cpp:61-126 | in each of the four intervals the weighted distances of the hue from its ends are to each other as those of the quadrature, with the numbers of CIE 159:2004 |
| HueQuadrature.HueByTheNumbers | src/colorspacious.cpp:61-147 | the same for the inverse, whose hues are above 0 and at most 360 |
| HueQuadrature.WeightZero | src/colorspacious.cpp:124-125 | the quadrature divides by zero only at the hue 665.36 |
| HueQuadrature.BackDenominatorZero | src/colorspacious.cpp:138-142 | the inverse divides by zero only at the quadrature -700 |
| ColorModels.HueNamesSector | src/colors.cpp:70-82 | the hue is 60 (k + f) where k and f say which channels are largest and smallest and where the third lies |
| ColorModels.PureHues | src/colors.cpp:70-82 | red, yellow, green, cyan, blue and magenta are at 0, 60, 120, 180, 240 and 300 |
| ColorModels.HsvRoundTrip | src/colors.cpp:386-416 | rgb to hsv and back is the identity on the unit cube |
| ColorModels.HsvMeans | src/colors.cpp:386-393 | the value is the largest channel and the saturation the share of it that the range of the channels makes up |
| ColorModels.HslRoundTrip | src/colors.cpp:418-454 | rgb to hsl and back is the identity on the unit cube |
| ColorModels.HslMeans | src/colors.cpp:418-436 | the lightness is the middle of the extreme channels and the saturation the share of the widest range of that lightness |
| ColorModels.ComponentOfSector | src/colors.cpp:84-102 | a component by its place on the wheel, in sectors |
| HexColors.HexRoundTrip | src/colors.cpp:1383-1415 | rgb to hex and back errs by at most 1/510 in each channel on the unit cube |
| HexColors.HexRereadExact | src/colors.cpp:1390-1415 | reading a written colour and writing it again changes nothing |
| HexColors.CapitalsRead | src/colors.cpp:1402-1415 | capital digits are read as small ones, with # and without |
| HexColors.PrimariesWritten | src/colors.cpp:1390-1400 | the channels are written red, green, blue, the high digit of each first |
| HexColors.Trim | src/colors.cpp:724-735 | the result is a stretch of the string with only white space around it and none at its ends |
| HexColors.CoreUnique | src/colors.cpp:724-735 | there is only one such string |
| HexColors.RgbFromHex | src/colors.cpp:1402-1415 | reads a trimmed colour with or without #, and refuses exactly what `NamesColor` does not describe |
| HexColors.NamedExactly | src/colors.cpp:1402-1415 | which strings are read: six characters, each pair with a hexadecimal digit in front, or white space or a sign in front of one; the colour lies outside the unit cube exactly when a minus sign stands before a digit other than 0 |

## Left out

- QuadTree.QuadTreeNode.Insert: is given only for pairwise distinct positions, because with exact reals two coincident points are split apart forever (`QuadTreeTheorems.SplittingEndsIffDistinct`); the doubles of the original end that by rounding.
- QuadTree.QuadTreeNode.ComputeRepulsion: leaves out the random jitter between coincident points, for the same reason.
- ForceLayout.ForceLayout.ComputeForces: where two nodes coincide any repulsion forces may come out (`tangled` of `Crew`); what is proved of bounds, pins and displacements holds whatever they are.
- ForceLayout.ForceLayout.Step: requires a displacement cap that is not negative; with a negative one the original takes the root of a negative number.
- Rounding, overflow, NaN and infinite positions; infinite bounds are modelled as bounds that do not bind.
- The references that `position_at`, `pen_by_id`, `touch_by_id` and `gamepad_by_id` hand out, through which callers can change the state from outside.
- Signals, callbacks, `start`, `run`, `until_stable` and wall-clock limits of the layout.
- The 64-bit wrap-around of job, request and drop counters, and the 32-bit range of node indices.
- JobQueue.AtMostOneMore: says nothing about whether the workers ever notice stop, because `shutdown` sets it without holding the queue mutex.
- HttpClient.CancelsHonoured: does not say that a response ever comes, for the same reason.
- The curl transfer itself, its headers, body and callbacks; `submit` with an empty URL, which throws before it touches any state.
- Handlers are arbitrary results or exceptions; native payloads and the auxiliary numbers of results are not modelled.
- The command line, recipes, builds and RPC of the launcher: their outcomes are steps that may or may not be taken, and any exception is a launcher that ends where it is.
- Two processes that get the same pid in the same clock tick, which a process identity could not tell apart.
- The moment between reading an instance record and verifying its process, which are one step of a survey.
- Directory permissions, symbolic links and malformed records, which end a launcher and nothing else.
- PortAudio and device enumeration; `overflowCount`, which only counts; a push while a reader holds the lock is the parameter `contended`.
- Keyboard and mouse state, and the status queries of devices.
- InputState.InputState.Handle: requires pens and gamepads to have identifiers other than 0, as SDL gives them; 0 is the original's word for none.
- ColorModels.HslRoundTrip: is stated on the unit cube, where the saturation is never a division by zero.
- Colour models built on powers, logarithms and trigonometry, matrices and spectra, and the search for a conversion path.
