// The layout object of src/force_layout.cpp: its graph, its bounds, and the step that moves the nodes.
module ForceLayout {
  import opened Reals
  import opened Vectors
  import opened QuadTreeSpec
  import opened BarnesHut
  import opened RepulsionPass
  import opened Springs
  import opened Motion

  /** How the parallel loop of one iteration turns out: the thread of each node, and the order of the nodes.
      Where two nodes coincide the queries jitter or the tree has no end, so any forces may come out of the loop:
      `tangled` stands for them. */
  datatype Crew = Crew(threads: nat, owner: seq<nat>, schedule: seq<nat>, tangled: seq<Vec2>)

  ghost predicate Fits(c: Crew, n: nat) {
    && |c.owner| == n && (forall i :: 0 <= i < n ==> c.owner[i] < c.threads)
    && multiset(c.schedule) == multiset(UpTo(n)) && |c.tangled| == n
  }

  datatype Status = Done | BadStart(index: nat) | BadMove(index: nat)

  function PlaneOf(ps: seq<Vec3>): seq<Vec2> {
    seq(|ps|, i requires 0 <= i < |ps| => Plane(ps[i]))
  }

  function ClampAll(b: Bounds, ps: seq<Vec3>): seq<Vec3> {
    seq(|ps|, i requires 0 <= i < |ps| => Clamp(b, ps[i]))
  }

  // ---------------------------------------------------------------------------------------------
  // What one iteration does

  /** The pull to the centre, which grows with the square of the distance along each axis. */
  function Centering(center: Vec2, p: Vec2, centerForce: real): Vec2 {
    var diff := Sub(center, p);
    Vec2(centerForce * diff.x * Abs(diff.x), centerForce * diff.y * Abs(diff.y))
  }

  /** Along each axis the pull is towards the centre, as large as centerForce times the square of the distance. */
  lemma CenteringPulls(center: Vec2, p: Vec2, centerForce: real)
    ensures var dx, f := center.x - p.x, Centering(center, p, centerForce).x;
      f == if dx >= 0.0 then centerForce * (dx * dx) else -(centerForce * (dx * dx))
    ensures var dy, f := center.y - p.y, Centering(center, p, centerForce).y;
      f == if dy >= 0.0 then centerForce * (dy * dy) else -(centerForce * (dy * dy))
  {
  }

  /** The force on node v: the push on it, the springs of the edges asked for, and the pull to the centre. */
  ghost function ForceOn(v: nat, push: Vec2, xy: seq<Vec2>, asked: seq<Pair>, tuning: Tuning, center: Vec2,
                         sqrt: real -> real): Vec2
    requires IsSqrt(sqrt) && v < |xy|
  {
    Add(Add(push, SumOf(EffectOn(v, Pulls(xy, tuning.spring, LengthBy(sqrt))), asked)),
        Centering(center, xy[v], tuning.centerForce))
  }

  /** The forces of one iteration: the push is that of the tree t of all the nodes when no two coincide. */
  ghost predicate NodeForces(forces: seq<Vec2>, xy: seq<Vec2>, asked: seq<Pair>, tuning: Tuning, center: Vec2,
                             tangled: seq<Vec2>, sqrt: real -> real)
    requires IsSqrt(sqrt)
  {
    && |forces| == |xy| == |tangled|
    && (Distinct(xy) ==> forall t, v :: IsTreeOf(t, xy) && 0 <= v < |xy| ==>
          forces[v] == ForceOn(v, Repulsion(Finalized(t), Query(v, xy[v], THETA, tuning.repulsion), xy, sqrt), xy,
                               asked, tuning, center, sqrt))
    && (!Distinct(xy) ==> forall v :: 0 <= v < |xy| ==>
          forces[v] == ForceOn(v, tangled[v], xy, asked, tuning, center, sqrt))
  }

  /** The moves of one iteration: pinned nodes are only clamped, the others shifted and clamped. */
  ghost predicate Iterates(before: seq<Vec3>, forces: seq<Vec2>, after: seq<Vec3>, pinned: seq<bool>, b: Bounds,
                           tuning: Tuning, sqrt: real -> real)
    requires tuning.maxDisplacementSquared >= 0.0
  {
    && |before| == |forces| == |after| == |pinned|
    && forall i :: 0 <= i < |before| ==> after[i] == NextPosition(before[i], forces[i], pinned[i], b, tuning, sqrt)
  }

  function NextPosition(p: Vec3, force: Vec2, pinned: bool, b: Bounds, tuning: Tuning, sqrt: real -> real): Vec3
    requires tuning.maxDisplacementSquared >= 0.0
  {
    if pinned then Clamp(b, p) else Moved(p, Shift(force, tuning, sqrt), b)
  }

  function Lengths(pinned: seq<bool>, forces: seq<Vec2>, tuning: Tuning, sqrt: real -> real): seq<real>
    requires |pinned| == |forces| && tuning.maxDisplacementSquared >= 0.0
  {
    seq(|pinned|, i requires 0 <= i < |pinned| => MoveLength(pinned[i], forces[i], tuning, sqrt))
  }

  /** The results that an iteration reports. */
  function Report(pinned: seq<bool>, forces: seq<Vec2>, tuning: Tuning, sqrt: real -> real): Results
    requires |pinned| == |forces| && pinned != [] && tuning.maxDisplacementSquared >= 0.0
  {
    var ls := Lengths(pinned, forces, tuning, sqrt);
    Results(Sum(ls), Sum(ls) / |pinned| as real, Largest(ls))
  }

  /** What stays the same throughout a call of step. */
  datatype Setting = Setting(asked: seq<Pair>, pinned: seq<bool>, bounds: Bounds, tuning: Tuning, center: Vec2)

  /** One iteration: the forces of its start, and the moves that they cause. */
  ghost predicate Iteration(before: seq<Vec3>, forces: seq<Vec2>, after: seq<Vec3>, s: Setting, tangled: seq<Vec2>,
                            sqrt: real -> real)
    requires IsSqrt(sqrt) && s.tuning.maxDisplacementSquared >= 0.0
  {
    && NodeForces(forces, PlaneOf(before), s.asked, s.tuning, s.center, tangled, sqrt)
    && Iterates(before, forces, after, s.pinned, s.bounds, s.tuning, sqrt)
  }

  /** A run of iterations: positions before, between and after, and the forces of each iteration. */
  ghost predicate Run(trace: seq<seq<Vec3>>, pushes: seq<seq<Vec2>>, s: Setting, crews: nat -> Crew,
                      sqrt: real -> real)
    requires IsSqrt(sqrt) && s.tuning.maxDisplacementSquared >= 0.0
  {
    && |trace| == |pushes| + 1
    && forall k :: 0 <= k < |pushes| ==> Iteration(trace[k], pushes[k], trace[k + 1], s, crews(k).tangled, sqrt)
  }

  lemma RunExtends(trace: seq<seq<Vec3>>, pushes: seq<seq<Vec2>>, s: Setting, crews: nat -> Crew,
                   sqrt: real -> real, forces: seq<Vec2>, after: seq<Vec3>)
    requires IsSqrt(sqrt) && s.tuning.maxDisplacementSquared >= 0.0
    requires Run(trace, pushes, s, crews, sqrt)
    requires Iteration(trace[|pushes|], forces, after, s, crews(|pushes|).tangled, sqrt)
    ensures Run(trace + [after], pushes + [forces], s, crews, sqrt)
  {
  }

  // ---------------------------------------------------------------------------------------------
  // What every run keeps

  /** What holds of a node after k iterations: it is inside ordered bounds, as high as it was, where it
      was if it is pinned, and otherwise at most k times the root of the cap away in the plane. */
  ghost predicate Kept(start: Vec3, now: Vec3, k: nat, pinned: bool, b: Bounds, cap: real) {
    && Clamp(b, now) == now && (Ordered(b) ==> Inside(b, now))
    && now.z == start.z
    && (pinned ==> now == start)
    && Within(Sub(Plane(now), Plane(start)), k, cap)
  }

  /** A plane vector no longer than k times the root of cap. */
  ghost predicate Within(d: Vec2, k: nat, cap: real) {
    Dot(d, d) <= k as real * k as real * cap
  }

  lemma KeptAtStart(p: Vec3, pinned: bool, b: Bounds, cap: real)
    requires Clamp(b, p) == p
    ensures Kept(p, p, 0, pinned, b, cap)
  {
    ClampInsideIffOrdered(b, p);
  }

  lemma WithinOneMore(first: Vec2, second: Vec2, k: nat, cap: real)
    requires Within(first, k, cap) && Dot(second, second) <= cap && cap >= 0.0
    ensures Within(Add(first, second), k + 1, cap)
  {
    assert (k + 1) as real == k as real + 1.0;
    MovesAddUp(first, second, k as real, cap);
  }

  lemma NextWithinCap(now: Vec3, force: Vec2, pinned: bool, b: Bounds, tuning: Tuning, sqrt: real -> real)
    requires IsSqrt(sqrt) && tuning.maxDisplacementSquared >= 0.0 && Clamp(b, now) == now
    ensures var next := NextPosition(now, force, pinned, b, tuning, sqrt);
      var d := Sub(Plane(next), Plane(now));
      && Dot(d, d) <= tuning.maxDisplacementSquared && next.z == now.z && Clamp(b, next) == next
      && (Ordered(b) ==> Inside(b, next)) && (pinned ==> next == now)
  {
    var delta := Shift(force, tuning, sqrt);
    if pinned {
      ClampInsideIffOrdered(b, now);
    } else {
      MovedNoFurther(now, delta, b);
      ShiftWithinCap(force, tuning, sqrt);
      NextClamped(now, delta, b);
    }
  }

  lemma KeptOnce(start: Vec3, now: Vec3, next: Vec3, k: nat, pinned: bool, b: Bounds, cap: real)
    requires cap >= 0.0 && Kept(start, now, k, pinned, b, cap)
    requires var d := Sub(Plane(next), Plane(now)); Dot(d, d) <= cap
    requires next.z == now.z && Clamp(b, next) == next
    requires (Ordered(b) ==> Inside(b, next)) && (pinned ==> next == now)
    ensures Kept(start, next, k + 1, pinned, b, cap)
  {
    var first, second := Sub(Plane(now), Plane(start)), Sub(Plane(next), Plane(now));
    assert Sub(Plane(next), Plane(start)) == Add(first, second);
    WithinOneMore(first, second, k, cap);
  }

  lemma NextClamped(p: Vec3, delta: Vec2, b: Bounds)
    ensures Clamp(b, Moved(p, delta, b)) == Moved(p, delta, b)
    ensures Ordered(b) ==> Inside(b, Moved(p, delta, b))
  {
    var r := Vec3(p.x + delta.x, p.y + delta.y, p.z);
    ClampIdempotent(b, r);
    ClampInsideIffOrdered(b, r);
  }

  /** Every run keeps the bounds, the pins, the heights and the displacement cap. */
  lemma {:induction false} RunKeeps(trace: seq<seq<Vec3>>, pushes: seq<seq<Vec2>>, s: Setting, crews: nat -> Crew,
                                    sqrt: real -> real, k: nat, i: nat)
    requires IsSqrt(sqrt) && s.tuning.maxDisplacementSquared >= 0.0
    requires Run(trace, pushes, s, crews, sqrt) && k < |trace|
    requires i < |s.pinned| == |trace[0]| && Clamp(s.bounds, trace[0][i]) == trace[0][i]
    ensures |trace[k]| == |s.pinned|
    ensures Kept(trace[0][i], trace[k][i], k, s.pinned[i], s.bounds, s.tuning.maxDisplacementSquared)
  {
    var cap := s.tuning.maxDisplacementSquared;
    if k == 0 {
      KeptAtStart(trace[0][i], s.pinned[i], s.bounds, cap);
    } else {
      RunKeeps(trace, pushes, s, crews, sqrt, k - 1, i);
      assert Iteration(trace[k - 1], pushes[k - 1], trace[k], s, crews(k - 1).tangled, sqrt);
      NextWithinCap(trace[k - 1][i], pushes[k - 1][i], s.pinned[i], s.bounds, s.tuning, sqrt);
      KeptOnce(trace[0][i], trace[k - 1][i], trace[k][i], k - 1, s.pinned[i], s.bounds, cap);
    }
  }

  /** A whole call: from the given positions, clamped, to the last ones. */
  lemma CallKeeps(start: seq<Vec3>, trace: seq<seq<Vec3>>, pushes: seq<seq<Vec2>>, s: Setting, crews: nat -> Crew,
                  sqrt: real -> real)
    requires IsSqrt(sqrt) && s.tuning.maxDisplacementSquared >= 0.0
    requires Run(trace, pushes, s, crews, sqrt) && |start| == |s.pinned| && trace[0] == ClampAll(s.bounds, start)
    ensures |trace[|pushes|]| == |start|
    ensures forall i :: 0 <= i < |start| ==>
      Kept(Clamp(s.bounds, start[i]), trace[|pushes|][i], |pushes|, s.pinned[i], s.bounds,
           s.tuning.maxDisplacementSquared)
  {
    if pushes != [] {
      assert Iteration(trace[|pushes| - 1], pushes[|pushes| - 1], trace[|pushes|], s, crews(|pushes| - 1).tangled,
                       sqrt);
    }
    forall i: nat | i < |start|
      ensures Kept(trace[0][i], trace[|pushes|][i], |pushes|, s.pinned[i], s.bounds, s.tuning.maxDisplacementSquared)
    {
      ClampIdempotent(s.bounds, start[i]);
      RunKeeps(trace, pushes, s, crews, sqrt, |pushes|, i);
    }
  }

  /** When the reported maximum of the last iteration is below a limit, that iteration moved every node by
      less than the limit. */
  lemma LastMovesBelow(trace: seq<seq<Vec3>>, pushes: seq<seq<Vec2>>, s: Setting, crews: nat -> Crew,
                       sqrt: real -> real, limit: real, i: nat)
    requires IsSqrt(sqrt) && s.tuning.maxDisplacementSquared >= 0.0
    requires Run(trace, pushes, s, crews, sqrt) && pushes != [] && i < |s.pinned| == |trace[0]|
    requires Clamp(s.bounds, trace[0][i]) == trace[0][i]
    requires |pushes[|pushes| - 1]| == |s.pinned|
    requires Report(s.pinned, pushes[|pushes| - 1], s.tuning, sqrt).maximum < limit
    ensures |trace[|pushes| - 1]| == |trace[|pushes|]| == |s.pinned|
    ensures Closer(trace[|pushes| - 1][i], trace[|pushes|][i], limit)
  {
    var n := |pushes| - 1;
    RunKeeps(trace, pushes, s, crews, sqrt, n, i);
    assert Iteration(trace[n], pushes[n], trace[n + 1], s, crews(n).tangled, sqrt);
    ReportBoundsMoves(trace[n], pushes[n], trace[n + 1], s.pinned, s.bounds, s.tuning, sqrt, i);
    CloserThan(trace[n][i], trace[n + 1][i], Report(s.pinned, pushes[n], s.tuning, sqrt).maximum, limit);
  }

  // ---------------------------------------------------------------------------------------------
  // Which way the nodes move

  /** What one iteration does to a node at p that the force acts on: a pinned node is only clamped; any other moves by
      g in the plane, as the force has it, and is clamped. The length l of g is what it adds to the report. */
  ghost predicate NodeMoved(p: Vec3, force: Vec2, r: Vec3, g: Vec2, l: real, pinned: bool, b: Bounds, t: Tuning) {
    && (if pinned then r == Clamp(b, p) && g == ZERO else Follows(g, force, t) && Lands(p, g, b, r))
    && l >= 0.0 && l * l == Dot(g, g)
  }

  lemma NodeMoves(p: Vec3, force: Vec2, r: Vec3, l: real, pinned: bool, b: Bounds, t: Tuning, sqrt: real -> real)
    returns (g: Vec2)
    requires IsSqrt(sqrt) && t.maxDisplacementSquared >= 0.0
    requires r == NextPosition(p, force, pinned, b, t, sqrt) && l == MoveLength(pinned, force, t, sqrt)
    ensures NodeMoved(p, force, r, g, l, pinned, b, t)
  {
    if pinned {
      g := ZERO;
    } else {
      g := Shift(force, t, sqrt);
      ShiftFollows(force, t, sqrt);
      MovedLands(p, g, b);
      MoveLengthExact(force, t, sqrt);
    }
  }

  lemma IteratesMoves(before: seq<Vec3>, forces: seq<Vec2>, after: seq<Vec3>, pinned: seq<bool>, b: Bounds, t: Tuning,
                      sqrt: real -> real, i: nat) returns (g: Vec2)
    requires IsSqrt(sqrt) && t.maxDisplacementSquared >= 0.0
    requires Iterates(before, forces, after, pinned, b, t, sqrt) && i < |before|
    ensures NodeMoved(before[i], forces[i], after[i], g, Lengths(pinned, forces, t, sqrt)[i], pinned[i], b, t)
  {
    var l := Lengths(pinned, forces, t, sqrt)[i];
    g := NodeMoves(before[i], forces[i], after[i], l, pinned[i], b, t, sqrt);
  }

  /** Every node moves as the force on it has it. */
  lemma MovesAlongForce(before: seq<Vec3>, forces: seq<Vec2>, after: seq<Vec3>, s: Setting, tangled: seq<Vec2>,
                        sqrt: real -> real, i: nat) returns (g: Vec2)
    requires IsSqrt(sqrt) && s.tuning.maxDisplacementSquared >= 0.0
    requires Iteration(before, forces, after, s, tangled, sqrt) && i < |before|
    ensures |after| == |forces| == |s.pinned| == |before|
    ensures NodeMoved(before[i], forces[i], after[i], g, Lengths(s.pinned, forces, s.tuning, sqrt)[i], s.pinned[i],
                      s.bounds, s.tuning)
  {
    g := IteratesMoves(before, forces, after, s.pinned, s.bounds, s.tuning, sqrt, i);
  }

  /** The reported maximum is the length of the move of some node. */
  lemma MaximumIsAMove(pinned: seq<bool>, forces: seq<Vec2>, tuning: Tuning, sqrt: real -> real) returns (i: nat)
    requires IsSqrt(sqrt) && tuning.maxDisplacementSquared >= 0.0 && |pinned| == |forces| && pinned != []
    ensures i < |pinned| && Report(pinned, forces, tuning, sqrt).maximum == Lengths(pinned, forces, tuning, sqrt)[i]
  {
    var ls := Lengths(pinned, forces, tuning, sqrt);
    forall k | 0 <= k < |ls| ensures ls[k] >= 0.0 {
      MoveLengthBounds(pinned[k], forces[k], tuning, sqrt);
    }
    LargestIsOne(ls);
    i :| i < |ls| && ls[i] == Largest(ls);
  }

  // ---------------------------------------------------------------------------------------------
  // The reported displacements

  lemma RootAtMost(a: real, b: real)
    requires a * a <= b * b && b >= 0.0
    ensures a <= b
  {
    if a > 0.0 {
      Sign(a - b, a + b);
      assert (a - b) * (a + b) == a * a - b * b;
    }
  }

  /** In the plane, p and r are at most l apart. */
  ghost predicate NoFurther(p: Vec3, r: Vec3, l: real) {
    var d := Sub(Plane(r), Plane(p));
    Dot(d, d) <= l * l
  }

  /** In the plane, p and r are less than l apart. */
  ghost predicate Closer(p: Vec3, r: Vec3, l: real) {
    var d := Sub(Plane(r), Plane(p));
    Dot(d, d) < l * l
  }

  lemma CloserThan(p: Vec3, r: Vec3, l: real, m: real)
    requires NoFurther(p, r, l) && 0.0 <= l < m
    ensures Closer(p, r, m)
  {
    SquareBelow(l, m);
  }

  /** The report is coherent: the average is at most the maximum, the maximum at most the root of the cap,
      and no node moved further in the plane than the maximum. */
  lemma ReportBoundsMoves(before: seq<Vec3>, forces: seq<Vec2>, after: seq<Vec3>, pinned: seq<bool>, b: Bounds,
                          tuning: Tuning, sqrt: real -> real, i: nat)
    requires IsSqrt(sqrt) && tuning.maxDisplacementSquared >= 0.0
    requires Iterates(before, forces, after, pinned, b, tuning, sqrt) && i < |before|
    requires Clamp(b, before[i]) == before[i]
    ensures var r := Report(pinned, forces, tuning, sqrt);
      && 0.0 <= r.average <= r.maximum <= sqrt(tuning.maxDisplacementSquared)
      && NoFurther(before[i], after[i], r.maximum)
  {
    MoveWithinLength(before[i], forces[i], pinned[i], b, tuning, sqrt);
    forall k | 0 <= k < |pinned|
      ensures 0.0 <= MoveLength(pinned[k], forces[k], tuning, sqrt) <= sqrt(tuning.maxDisplacementSquared)
    {
      MoveLengthBounds(pinned[k], forces[k], tuning, sqrt);
    }
    ReportCoherent(Lengths(pinned, forces, tuning, sqrt), sqrt(tuning.maxDisplacementSquared), before[i], after[i], i);
  }

  lemma ReportCoherent(ls: seq<real>, limit: real, p: Vec3, r: Vec3, i: nat)
    requires i < |ls| && (forall k :: 0 <= k < |ls| ==> 0.0 <= ls[k] <= limit)
    requires NoFurther(p, r, ls[i])
    ensures 0.0 <= Sum(ls) / |ls| as real <= Largest(ls) <= limit && NoFurther(p, r, Largest(ls))
  {
    MaximumBounds(ls, limit);
    FurtherStill(p, r, ls[i], Largest(ls));
  }

  lemma MaximumBounds(ls: seq<real>, limit: real)
    requires ls != [] && forall k :: 0 <= k < |ls| ==> 0.0 <= ls[k] <= limit
    ensures 0.0 <= Sum(ls) / |ls| as real <= Largest(ls) <= limit
    ensures forall k :: 0 <= k < |ls| ==> ls[k] <= Largest(ls)
  {
    assert 0.0 <= ls[0] <= limit;
    LargestBounds(ls);
    LargestAttained(ls, limit);
    AverageAtMostMaximum(ls);
    AverageNonNegative(ls);
  }

  lemma FurtherStill(p: Vec3, r: Vec3, l: real, m: real)
    requires NoFurther(p, r, l) && 0.0 <= l <= m
    ensures NoFurther(p, r, m)
  {
    SquareMonotone(l, m);
  }

  lemma MoveLengthBounds(pinned: bool, force: Vec2, tuning: Tuning, sqrt: real -> real)
    requires IsSqrt(sqrt) && tuning.maxDisplacementSquared >= 0.0
    ensures 0.0 <= MoveLength(pinned, force, tuning, sqrt) <= sqrt(tuning.maxDisplacementSquared)
  {
    if !pinned {
      var delta := Shift(force, tuning, sqrt);
      ShiftWithinCap(force, tuning, sqrt);
      DotNonNegative(delta);
      RootAtMost(sqrt(Dot(delta, delta)), sqrt(tuning.maxDisplacementSquared));
    }
  }

  lemma DotNonNegative(d: Vec2)
    ensures Dot(d, d) >= 0.0
  {
    if d != ZERO { DotPositive(d); }
  }

  lemma MoveWithinLength(p: Vec3, force: Vec2, pinned: bool, b: Bounds, tuning: Tuning, sqrt: real -> real)
    requires IsSqrt(sqrt) && tuning.maxDisplacementSquared >= 0.0 && Clamp(b, p) == p
    ensures NoFurther(p, NextPosition(p, force, pinned, b, tuning, sqrt), MoveLength(pinned, force, tuning, sqrt))
  {
    if pinned {
      StayingIsNoFurther(p);
    } else {
      ShiftWithinLength(p, Shift(force, tuning, sqrt), b, sqrt);
    }
  }

  lemma StayingIsNoFurther(p: Vec3)
    ensures NoFurther(p, p, 0.0)
  {
    assert Sub(Plane(p), Plane(p)) == ZERO;
  }

  lemma ShiftWithinLength(p: Vec3, delta: Vec2, b: Bounds, sqrt: real -> real)
    requires IsSqrt(sqrt) && Clamp(b, p) == p
    ensures NoFurther(p, Moved(p, delta, b), LengthBy(sqrt)(delta))
  {
    MovedNoFurther(p, delta, b);
    DotNonNegative(delta);
    assert sqrt(Dot(delta, delta)) * sqrt(Dot(delta, delta)) == Dot(delta, delta);
  }

  lemma {:induction false} SumNonNegative(s: seq<real>)
    requires forall i :: 0 <= i < |s| ==> s[i] >= 0.0
    ensures Sum(s) >= 0.0
  {
    if s != [] { SumNonNegative(s[..|s| - 1]); }
  }

  lemma AverageNonNegative(s: seq<real>)
    requires s != [] && forall i :: 0 <= i < |s| ==> s[i] >= 0.0
    ensures Sum(s) / |s| as real >= 0.0
  {
    SumNonNegative(s);
    QuotientSign(Sum(s), |s| as real);
  }

  // ---------------------------------------------------------------------------------------------
  // The object

  class ForceLayout {
    var positions: seq<Vec3>
    var edges: seq<seq<nat>>
    var pinned: seq<bool>
    var forces: seq<Vec2>
    var lastResults: Results
    var bounds: Bounds
    var centerPosition: Vec2
    var autoCenter: bool
    var active: bool
    var tuning: Tuning
    ghost var calls: seq<Build>  // the add_node and add_edge calls since the last clear

    ghost predicate Valid()
      reads this
    {
      && |positions| == |edges| == |pinned| == |forces|
      && edges == EdgesAfter(calls)
      && InRange(edges, |positions|)
    }

    constructor (center: Vec2, tuning: Tuning, bounds: Bounds, autoCenter: bool)
      ensures Valid() && positions == [] && calls == [] && !active && lastResults == Results(0.0, 0.0, 0.0)
      ensures this.bounds == bounds && this.tuning == tuning && this.autoCenter == autoCenter
      ensures centerPosition == Centered(center, bounds, autoCenter)
    {
      this.tuning, this.bounds, this.autoCenter := tuning, bounds, autoCenter;
      centerPosition := center;
      new;
      RefreshCenter();
      Clear();
    }

    method Clear()
      modifies this
      ensures Valid() && positions == [] && calls == [] && !active && lastResults == Results(0.0, 0.0, 0.0)
      ensures unchanged(`bounds, `centerPosition, `autoCenter, `tuning)
    {
      positions, edges, pinned, forces := [], [], [], [];
      lastResults := Results(0.0, 0.0, 0.0);
      active := false;
      calls := [];
    }

    static function CenterAlong(r: Range, c: real): real {
      if r.lower.Finite? && r.upper.Finite? then (r.lower.value + r.upper.value) * 0.5 else c
    }

    static function Centered(center: Vec2, b: Bounds, auto: bool): Vec2 {
      if auto then Vec2(CenterAlong(b.x, center.x), CenterAlong(b.y, center.y)) else center
    }

    /** The centre along an axis is as far from both of its bounds, or stays where it was. */
    static lemma CenterBetween(r: Range, c: real)
      ensures r.lower.Finite? && r.upper.Finite? ==>
        CenterAlong(r, c) - r.lower.value == r.upper.value - CenterAlong(r, c)
      ensures !r.lower.Finite? || !r.upper.Finite? ==> CenterAlong(r, c) == c
    {
    }

    method RefreshCenter()
      modifies this`centerPosition
      ensures centerPosition == Centered(old(centerPosition), bounds, autoCenter)
    {
      if !autoCenter {
        return;
      }
      var newCenter := centerPosition;
      if bounds.x.lower.Finite? && bounds.x.upper.Finite? {
        newCenter := newCenter.(x := (bounds.x.lower.value + bounds.x.upper.value) * 0.5);
      }
      if bounds.y.lower.Finite? && bounds.y.upper.Finite? {
        newCenter := newCenter.(y := (bounds.y.lower.value + bounds.y.upper.value) * 0.5);
      }
      centerPosition := newCenter;
    }

    /** A new node, clamped to the bounds; the check is on the position as it was given. */
    method AddNode(pos: Vec3) returns (ok: bool, index: nat)
      requires Valid()
      modifies this
      ensures Valid() && index == old(|positions|)
      ensures ok <==> !TooFar(pos)
      ensures !ok ==> unchanged(this)
      ensures ok ==> positions == old(positions) + [Clamp(bounds, pos)] && pinned == old(pinned) + [false]
      ensures ok ==> forces == old(forces) + [ZERO] && calls == old(calls) + [NewNode]
      ensures unchanged(`lastResults, `bounds, `centerPosition, `autoCenter, `active, `tuning)
    {
      index := |positions|;
      ok := !TooFar(pos);
      if !ok {
        return;
      }
      positions := positions + [Clamp(bounds, pos)];
      edges := edges + [[]];
      pinned := pinned + [false];
      forces := forces + [ZERO];
      calls := calls + [NewNode];
      assert calls[..|calls| - 1] == old(calls);
    }

    method AddEdge(source: int, target: int, mirror: bool)
      requires Valid()
      modifies this`edges, this`calls
      ensures Valid() && calls == old(calls) + [NewEdge(Link(source, target, mirror))]
      ensures edges == Linked(old(edges), Link(source, target, mirror))
    {
      calls := calls + [NewEdge(Link(source, target, mirror))];
      assert calls[..|calls| - 1] == old(calls);
      if source < 0 || target < 0 || source >= |edges| || target >= |edges| {
        return;
      }
      edges := edges[source := edges[source] + [target]];
      if mirror {
        edges := edges[target := edges[target] + [source]];
      }
    }

    method SetPosition(index: int, pos: Vec3) returns (ok: bool)
      requires Valid()
      modifies this`positions
      ensures Valid()
      ensures ok <==> !(0 <= index < |positions|) || !TooFar(pos)
      ensures positions == if 0 <= index < old(|positions|) && ok then old(positions)[index := Clamp(bounds, pos)]
                           else old(positions)
    {
      if index < 0 || index >= |positions| {
        return true;
      }
      if TooFar(pos) {
        return false;
      }
      positions := positions[index := Clamp(bounds, pos)];
      ok := true;
    }

    method PinNode(index: int, value: bool)
      requires Valid()
      modifies this`pinned
      ensures Valid()
      ensures pinned == if 0 <= index < old(|pinned|) then old(pinned)[index := value] else old(pinned)
    {
      if index < 0 || index >= |pinned| {
        return;
      }
      pinned := pinned[index := value];
    }

    /** New bounds, put in order axis by axis; every node is inside them afterwards. */
    method SetBounds(x0: Extended, y0: Extended, z0: Extended, x1: Extended, y1: Extended, z1: Extended)
      requires Valid()
      modifies this`bounds, this`positions, this`centerPosition
      ensures Valid() && Ordered(bounds)
      ensures bounds == Bounds(SortRange(x0, x1), SortRange(y0, y1), SortRange(z0, z1))
      ensures positions == ClampAll(bounds, old(positions))
      ensures forall i :: 0 <= i < |positions| ==> Inside(bounds, positions[i])
      ensures centerPosition == Centered(old(centerPosition), bounds, autoCenter)
    {
      bounds := Bounds(SortRange(x0, x1), SortRange(y0, y1), SortRange(z0, z1));
      SortRangeOrders(x0, x1);
      SortRangeOrders(y0, y1);
      SortRangeOrders(z0, z1);
      for i := 0 to |positions|
        modifies this`positions
        invariant |positions| == |old(positions)|
        invariant forall j :: 0 <= j < i ==> positions[j] == Clamp(bounds, old(positions)[j])
        invariant forall j :: i <= j < |positions| ==> positions[j] == old(positions)[j]
      {
        positions := positions[i := Clamp(bounds, positions[i])];
      }
      forall i | 0 <= i < |positions| ensures Inside(bounds, positions[i]) {
        ClampInsideIffOrdered(bounds, old(positions)[i]);
      }
      RefreshCenter();
    }

    /** The first loop of step: checks every position and clamps it. */
    method ClampStart() returns (xy: seq<Vec2>, status: Status)
      modifies this`positions
      ensures |positions| == old(|positions|) && !status.BadMove?
      ensures status.Done? ==> positions == ClampAll(bounds, old(positions)) && xy == PlaneOf(positions)
      ensures status.Done? ==> forall i :: 0 <= i < |positions| ==> !TooFar(old(positions)[i])
      ensures status.BadStart? ==> status.index < |positions| && TooFar(old(positions)[status.index])
      ensures status.BadStart? ==> forall i :: 0 <= i < |positions| ==>
        positions[i] == if i < status.index then Clamp(bounds, old(positions)[i]) else old(positions)[i]
    {
      xy := [];
      for i := 0 to |positions|
        invariant |positions| == old(|positions|) && |xy| == i
        invariant forall j :: 0 <= j < |positions| ==>
          positions[j] == if j < i then Clamp(bounds, old(positions)[j]) else old(positions)[j]
        invariant forall j :: 0 <= j < i ==> xy[j] == Plane(positions[j]) && !TooFar(old(positions)[j])
      {
        if TooFar(positions[i]) {
          return xy, BadStart(i);
        }
        positions := positions[i := Clamp(bounds, positions[i])];
        xy := xy + [Plane(positions[i])];
      }
      status := Done;
    }

    /** The forces of one iteration. */
    method ComputeForces(xy: seq<Vec2>, crew: Crew, sqrt: real -> real)
      requires Valid() && IsSqrt(sqrt) && xy != [] && |xy| == |positions| && Fits(crew, |positions|)
      modifies this`forces
      ensures Valid() && NodeForces(forces, xy, Asked(calls), tuning, centerPosition, crew.tangled, sqrt)
    {
      if Distinct(xy) {
        forces := Repel(xy, crew.threads, crew.owner, crew.schedule, tuning.repulsion, sqrt);
      } else {
        forces := crew.tangled;
      }
      ghost var repelled := forces;
      RootIsLength(sqrt);
      forces := PullAll(forces, edges, xy, tuning.spring, LengthBy(sqrt));
      ghost var pulled := forces;
      PullToCenter(xy);
      ForcesTogether(repelled, pulled, forces, calls, xy, tuning, centerPosition, sqrt);
      if Distinct(xy) { PushesRepelled(repelled, forces, xy, Asked(calls), tuning, centerPosition, sqrt); }
    }

    method PullToCenter(xy: seq<Vec2>)
      requires |xy| == |forces|
      modifies this`forces
      ensures |forces| == old(|forces|) && forall i :: 0 <= i < |forces| ==>
        forces[i] == Add(old(forces)[i], Centering(centerPosition, xy[i], tuning.centerForce))
    {
      for i := 0 to |xy|
        invariant |forces| == |xy|
        invariant forall j :: 0 <= j < i ==>
          forces[j] == Add(old(forces)[j], Centering(centerPosition, xy[j], tuning.centerForce))
        invariant forall j :: i <= j < |forces| ==> forces[j] == old(forces)[j]
      {
        forces := forces[i := Add(forces[i], Centering(centerPosition, xy[i], tuning.centerForce))];
      }
    }

    /** Moves one node that is not pinned. */
    method MoveNode(i: nat, sqrt: real -> real) returns (dist: real)
      requires i < |positions| == |forces| == |pinned| && !pinned[i] && tuning.maxDisplacementSquared >= 0.0
      modifies this`positions
      ensures positions == old(positions)[
        i := NextPosition(old(positions)[i], forces[i], pinned[i], bounds, tuning, sqrt)]
      ensures dist == MoveLength(pinned[i], forces[i], tuning, sqrt)
    {
      var disp := Scale(tuning.deltaT, forces[i]);
      var dispSq := Dot(disp, disp);
      var scale := 1.0;
      if dispSq > tuning.maxDisplacementSquared {
        scale := sqrt(tuning.maxDisplacementSquared / dispSq);
      }
      var delta := Scale(scale, disp);
      positions := positions[i := positions[i].(x := positions[i].x + delta.x)];
      positions := positions[i := positions[i].(y := positions[i].y + delta.y)];
      positions := positions[i := Clamp(bounds, positions[i])];
      dist := LengthBy(sqrt)(delta);
    }

    /** One round of the last loop: a pinned node is only clamped. */
    method IntegrateNode(i: nat, xy: seq<Vec2>, sqrt: real -> real) returns (moved: seq<Vec2>, dist: real, ok: bool)
      requires i < |positions| == |forces| == |pinned| && tuning.maxDisplacementSquared >= 0.0
      requires |xy| == |positions|
      modifies this`positions
      ensures positions
        == old(positions)[i := NextPosition(old(positions)[i], forces[i], pinned[i], bounds, tuning, sqrt)]
      ensures moved == xy[i := Plane(positions[i])] && dist == MoveLength(pinned[i], forces[i], tuning, sqrt)
      ensures ok <==> pinned[i] || !TooFar(positions[i])
    {
      if pinned[i] {
        positions := positions[i := Clamp(bounds, positions[i])];
        return xy[i := Plane(positions[i])], 0.0, true;
      }
      dist := MoveNode(i, sqrt);
      ok := !TooFar(positions[i]);
      moved := xy[i := Plane(positions[i])];
    }

    /** The last loop of an iteration: moves the nodes and reports how far. */
    method Integrate(xy: seq<Vec2>, sqrt: real -> real) returns (moved: seq<Vec2>, status: Status)
      requires |positions| == |forces| == |pinned| && positions != [] && xy == PlaneOf(positions)
      requires tuning.maxDisplacementSquared >= 0.0
      modifies this`positions, this`lastResults
      ensures |positions| == old(|positions|) && !status.BadStart?
      ensures status.Done? ==> Iterates(old(positions), forces, positions, pinned, bounds, tuning, sqrt)
      ensures status.Done? ==> lastResults == Report(pinned, forces, tuning, sqrt) && moved == PlaneOf(positions)
      ensures status.Done? ==> forall i :: 0 <= i < |positions| && !pinned[i] ==> !TooFar(positions[i])
      ensures status.BadMove? ==> lastResults == old(lastResults)
      ensures status.BadMove? ==>
        && status.index < |positions| && !pinned[status.index] && TooFar(positions[status.index])
        && forall i :: 0 <= i < |positions| ==>
             positions[i] == if i > status.index then old(positions)[i]
                             else NextPosition(old(positions)[i], forces[i], pinned[i], bounds, tuning, sqrt)
    {
      var total, maxD := 0.0, 0.0;
      moved := xy;
      ghost var ls := Lengths(pinned, forces, tuning, sqrt);
      for i := 0 to |positions|
        invariant |positions| == old(|positions|) == |moved|
        invariant forall j :: 0 <= j < |positions| ==>
          positions[j] == if j < i then NextPosition(old(positions)[j], forces[j], pinned[j], bounds, tuning, sqrt)
                          else old(positions)[j]
        invariant forall j :: 0 <= j < |positions| ==> moved[j] == Plane(positions[j])
        invariant forall j :: 0 <= j < i && !pinned[j] ==> !TooFar(positions[j])
        invariant total == Sum(ls[..i]) && maxD == Largest(ls[..i]) >= 0.0
        invariant lastResults == old(lastResults)
      {
        assert ls[..i + 1][..i] == ls[..i];
        var dist, ok;
        moved, dist, ok := IntegrateNode(i, moved, sqrt);
        if !ok {
          return moved, BadMove(i);
        }
        total := total + dist;
        if dist > maxD {
          maxD := dist;
        }
      }
      assert ls[..|positions|] == ls;
      lastResults := Results(total, total / |positions| as real, maxD);
      status := Done;
    }

    ghost function TheSetting(): Setting
      reads this
    {
      Setting(Asked(calls), pinned, bounds, tuning, centerPosition)
    }

    /** One round of the loop of step. */
    method Iterate(xy: seq<Vec2>, crew: Crew, sqrt: real -> real)
      returns (moved: seq<Vec2>, status: Status)
      requires Valid() && IsSqrt(sqrt) && tuning.maxDisplacementSquared >= 0.0
      requires positions != [] && xy == PlaneOf(positions) && Fits(crew, |positions|)
      modifies this`positions, this`forces, this`lastResults
      ensures Valid() && |positions| == old(|positions|) && !status.BadStart?
      ensures status.Done? ==> Iteration(old(positions), forces, positions, TheSetting(), crew.tangled, sqrt)
      ensures status.Done? ==> lastResults == Report(pinned, forces, tuning, sqrt) && moved == PlaneOf(positions)
      ensures status.Done? ==> forall i :: 0 <= i < |positions| && !pinned[i] ==> !TooFar(positions[i])
      ensures status.BadMove? ==>
        status.index < |positions| && !pinned[status.index] && TooFar(positions[status.index])
    {
      ComputeForces(xy, crew, sqrt);
      moved, status := Integrate(xy, sqrt);
    }

    /** `crews` tells of each iteration how its parallel loop is shared out. */
    method Step(numIterations: int, crews: nat -> Crew, sqrt: real -> real)
      returns (r: Results, status: Status, ghost trace: seq<seq<Vec3>>, ghost pushes: seq<seq<Vec2>>)
      requires Valid() && IsSqrt(sqrt) && tuning.maxDisplacementSquared >= 0.0
      requires forall k :: Fits(crews(k), |positions|)
      modifies this`positions, this`forces, this`lastResults
      ensures Valid() && |positions| == old(|positions|)
      ensures status.Done? ==> r == lastResults
      ensures positions == [] ==> status.Done? && r == Results(0.0, 0.0, 0.0)
      ensures status.Done? && positions != [] ==>
        && Run(trace, pushes, TheSetting(), crews, sqrt) && |pushes| == (if numIterations > 0 then numIterations else 0)
        && trace[0] == ClampAll(bounds, old(positions)) && trace[|pushes|] == positions
      ensures status.Done? && positions != [] ==> forall i :: 0 <= i < |positions| ==>
        Kept(Clamp(bounds, old(positions)[i]), positions[i], |pushes|, pinned[i], bounds, tuning.maxDisplacementSquared)
      ensures status.Done? && positions != [] ==>
        r == if numIterations > 0 then Report(pinned, pushes[numIterations - 1], tuning, sqrt) else old(lastResults)
      ensures status.Done? && numIterations > 0 ==>
        forall i :: 0 <= i < |positions| && !pinned[i] ==> !TooFar(positions[i])
      ensures status.BadStart? ==> status.index < |positions| && TooFar(old(positions)[status.index])
      ensures status.BadMove? ==>
        status.index < |positions| && !pinned[status.index] && TooFar(positions[status.index])
    {
      trace, pushes := [positions], [];
      if |positions| == 0 {
        lastResults := Results(0.0, 0.0, 0.0);
        return lastResults, Done, trace, pushes;
      }
      var xy: seq<Vec2>;
      xy, status := ClampStart();
      if !status.Done? {
        return lastResults, status, trace, pushes;
      }
      trace := [positions];
      r := lastResults;
      for iter := 0 to if numIterations > 0 then numIterations else 0
        invariant Valid() && |positions| == old(|positions|) && status.Done? && xy == PlaneOf(positions)
        invariant Run(trace, pushes, TheSetting(), crews, sqrt) && |pushes| == iter && trace[iter] == positions
        invariant trace[0] == ClampAll(bounds, old(positions))
        invariant lastResults == if iter > 0 then Report(pinned, pushes[iter - 1], tuning, sqrt) else old(lastResults)
        invariant iter > 0 ==> forall i :: 0 <= i < |positions| && !pinned[i] ==> !TooFar(positions[i])
      {
        xy, status := Iterate(xy, crews(iter), sqrt);
        if !status.Done? {
          return lastResults, status, trace, pushes;
        }
        RunExtends(trace, pushes, TheSetting(), crews, sqrt, forces, positions);
        trace, pushes := trace + [positions], pushes + [forces];
      }
      CallKeeps(old(positions), trace, pushes, TheSetting(), crews, sqrt);
      r := lastResults;
    }

    /** One tick of the running layout: steps, and stops once the last iteration was quiet enough. */
    method Update(numIterations: int, crews: nat -> Crew, sqrt: real -> real)
      returns (r: Results, status: Status, ghost trace: seq<seq<Vec3>>, ghost pushes: seq<seq<Vec2>>)
      requires Valid() && IsSqrt(sqrt) && tuning.maxDisplacementSquared >= 0.0
      requires forall k :: Fits(crews(k), |positions|)
      modifies this`positions, this`forces, this`lastResults, this`active
      ensures Valid() && |positions| == old(|positions|)
      ensures !old(active) ==> unchanged(this) && status.Done? && r == lastResults
      ensures !status.Done? ==> active
      ensures old(active) && status.Done? ==>
        (active <==> !(r.average < tuning.stabilizedAverage && r.maximum < tuning.stabilizedMax))
      ensures old(active) && !active && numIterations > 0 && positions != [] ==>
        && |trace| == numIterations + 1 && trace[numIterations] == positions
        && |trace[numIterations - 1]| == |positions|
        && forall i :: 0 <= i < |positions| ==>
             Closer(trace[numIterations - 1][i], positions[i], tuning.stabilizedMax)
    {
      trace, pushes := [], [];
      if !active {
        return lastResults, Done, trace, pushes;
      }
      r, status, trace, pushes := Step(numIterations, crews, sqrt);
      if !status.Done? {
        return;
      }
      if r.average < tuning.stabilizedAverage && r.maximum < tuning.stabilizedMax {
        active := false;
        if positions != [] && numIterations > 0 {
          QuietNodes(old(positions), trace, pushes, crews, sqrt);
        }
      }
    }

    lemma QuietNodes(start: seq<Vec3>, trace: seq<seq<Vec3>>, pushes: seq<seq<Vec2>>, crews: nat -> Crew,
                     sqrt: real -> real)
      requires Valid() && IsSqrt(sqrt) && tuning.maxDisplacementSquared >= 0.0
      requires Run(trace, pushes, TheSetting(), crews, sqrt) && pushes != [] && start != []
      requires |start| == |positions| && trace[0] == ClampAll(bounds, start) && trace[|pushes|] == positions
      requires |pushes[|pushes| - 1]| == |pinned|
      requires Report(pinned, pushes[|pushes| - 1], tuning, sqrt).maximum < tuning.stabilizedMax
      ensures |trace[|pushes| - 1]| == |positions|
      ensures forall i :: 0 <= i < |positions| ==>
        Closer(trace[|pushes| - 1][i], positions[i], tuning.stabilizedMax)
    {
      forall i: nat | i < |positions|
        ensures |trace[|pushes| - 1]| == |positions|
        ensures Closer(trace[|pushes| - 1][i], positions[i], tuning.stabilizedMax)
      {
        ClampIdempotent(bounds, start[i]);
        LastMovesBelow(trace, pushes, TheSetting(), crews, sqrt, tuning.stabilizedMax, i);
      }
      assert 0 < |positions|;
    }
  }

  /** The three kinds of force, added up in the order of the phases, are the force on each node. */
  lemma ForcesTogether(repelled: seq<Vec2>, pulled: seq<Vec2>, forces: seq<Vec2>, calls: seq<Build>, xy: seq<Vec2>,
                       tuning: Tuning, center: Vec2, sqrt: real -> real)
    requires IsSqrt(sqrt) && |repelled| == |xy| == |forces|
    requires Pulled(repelled, pulled, Acting(EdgesAfter(calls)), Pulls(xy, tuning.spring, LengthBy(sqrt)))
    requires forall i :: 0 <= i < |xy| ==> forces[i] == Add(pulled[i], Centering(center, xy[i], tuning.centerForce))
    ensures forall v :: 0 <= v < |xy| ==>
      forces[v] == ForceOn(v, repelled[v], xy, Asked(calls), tuning, center, sqrt)
  {
    var pull := Pulls(xy, tuning.spring, LengthBy(sqrt));
    forall v: nat | v < |xy| ensures forces[v] == ForceOn(v, repelled[v], xy, Asked(calls), tuning, center, sqrt) {
      SpringForceOn(v, calls, pull);
      assert pulled[v] == Add(repelled[v], SumOf(EffectOn(v, pull), Acting(EdgesAfter(calls))));
    }
  }

  lemma PushesRepelled(repelled: seq<Vec2>, forces: seq<Vec2>, xy: seq<Vec2>, asked: seq<Pair>, tuning: Tuning,
                       center: Vec2, sqrt: real -> real)
    requires IsSqrt(sqrt) && |repelled| == |xy| == |forces| && Repelled(repelled, xy, tuning.repulsion, sqrt)
    requires forall v :: 0 <= v < |xy| ==> forces[v] == ForceOn(v, repelled[v], xy, asked, tuning, center, sqrt)
    ensures forall t, v :: IsTreeOf(t, xy) && 0 <= v < |xy| ==>
      forces[v] == ForceOn(v, Repulsion(Finalized(t), Query(v, xy[v], THETA, tuning.repulsion), xy, sqrt), xy, asked,
                           tuning, center, sqrt)
  {
    forall t, v: nat | IsTreeOf(t, xy) && v < |xy|
      ensures repelled[v] == Repulsion(Finalized(t), Query(v, xy[v], THETA, tuning.repulsion), xy, sqrt)
    {
      assert Gives(repelled, Finalized(t), xy, tuning.repulsion, sqrt);
      assert IsDue(repelled[v], v, Finalized(t), xy, tuning.repulsion, sqrt);
    }
  }
}
