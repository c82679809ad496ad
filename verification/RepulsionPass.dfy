// The repulsion phase of ForceLayout::step (src/force_layout.cpp): the root square, the build loop,
// the parallel queries into per-thread buffers, and the merge of the buffers.
module RepulsionPass {
  import opened Reals
  import opened Vectors
  import opened QuadTreeSpec
  import opened QuadTreeTheorems
  import opened BarnesHut
  import opened QuadTree

  const THETA: real := 0.5

  // ---------------------------------------------------------------------------------------------
  // The root square

  function MinVec(a: Vec2, b: Vec2): Vec2 {
    Vec2(Min(a.x, b.x), Min(a.y, b.y))
  }

  function MaxVec(a: Vec2, b: Vec2): Vec2 {
    Vec2(Max(a.x, b.x), Max(a.y, b.y))
  }

  /** The lower-left corner of the smallest box around the points. */
  function Low(ps: seq<Vec2>): Vec2
    requires ps != []
  {
    if |ps| == 1 then ps[0] else MinVec(Low(ps[..|ps| - 1]), ps[|ps| - 1])
  }

  /** The upper-right corner. */
  function High(ps: seq<Vec2>): Vec2
    requires ps != []
  {
    if |ps| == 1 then ps[0] else MaxVec(High(ps[..|ps| - 1]), ps[|ps| - 1])
  }

  function RootSquare(lo: Vec2, hi: Vec2): Cell {
    var extent := Sub(hi, lo);
    var maxDim := Max(extent.x, extent.y) * 0.5 + 1.0;
    Cell(Scale(0.5, Add(lo, hi)), if maxDim <= 0.0 then 1.0 else maxDim)
  }

  function RootCell(ps: seq<Vec2>): Cell
    requires ps != []
  {
    RootSquare(Low(ps), High(ps))
  }

  ghost predicate Between(lo: Vec2, p: Vec2, hi: Vec2) {
    lo.x <= p.x <= hi.x && lo.y <= p.y <= hi.y
  }

  lemma {:induction false} CornersBound(ps: seq<Vec2>, i: nat)
    requires i < |ps|
    ensures Between(Low(ps), ps[i], High(ps))
  {
    if |ps| > 1 && i < |ps| - 1 {
      CornersBound(ps[..|ps| - 1], i);
    } else if |ps| > 1 {
      CornersBound(ps[..|ps| - 1], 0);
    }
  }

  /** The corners are those of the smallest box: each of their coordinates is that of some point. */
  lemma {:induction false} CornersTouch(ps: seq<Vec2>) returns (a: nat, b: nat, c: nat, d: nat)
    requires ps != []
    ensures a < |ps| && b < |ps| && c < |ps| && d < |ps|
    ensures Low(ps) == Vec2(ps[a].x, ps[b].y) && High(ps) == Vec2(ps[c].x, ps[d].y)
  {
    a, b, c, d := 0, 0, 0, 0;
    if |ps| > 1 {
      var n := |ps| - 1;
      a, b, c, d := CornersTouch(ps[..n]);
      if Low(ps).x == ps[n].x { a := n; }
      if Low(ps).y == ps[n].y { b := n; }
      if High(ps).x == ps[n].x { c := n; }
      if High(ps).y == ps[n].y { d := n; }
    }
  }

  /** The root square is centred on that box, and reaches 1 beyond its longer side. */
  lemma RootAroundBox(ps: seq<Vec2>)
    requires ps != []
    ensures var lo, hi, root := Low(ps), High(ps), RootCell(ps);
      && root.center.x - lo.x == hi.x - root.center.x && root.center.y - lo.y == hi.y - root.center.y
      && root.half == 1.0 + (if hi.x - lo.x >= hi.y - lo.y then hi.x - lo.x else hi.y - lo.y) / 2.0
  {
    CornersBound(ps, 0);
  }

  /** The root square contains every point, so the build loop drops none. */
  lemma RootContainsAll(ps: seq<Vec2>, i: nat)
    requires i < |ps|
    ensures RootCell(ps).half >= 1.0 && InCell(RootCell(ps), ps[i])
  {
    CornersBound(ps, i);
  }

  lemma AllPlaced(ps: seq<Vec2>, n: nat)
    requires n <= |ps| && ps != []
    ensures Placed(RootCell(ps), UpTo(n), ps)
  {
    forall i | i in UpTo(n) ensures i < |ps| && InCell(RootCell(ps), ps[i]) {
      RootContainsAll(ps, i);
    }
  }

  method Corners(ps: seq<Vec2>) returns (lo: Vec2, hi: Vec2)
    requires ps != []
    ensures lo == Low(ps) && hi == High(ps)
  {
    lo, hi := ps[0], ps[0];
    for i := 1 to |ps|
      invariant lo == Low(ps[..i]) && hi == High(ps[..i])
    {
      assert ps[..i + 1][..i] == ps[..i];
      lo, hi := MinVec(lo, ps[i]), MaxVec(hi, ps[i]);
    }
    assert ps[..|ps|] == ps;
  }

  // ---------------------------------------------------------------------------------------------
  // The build loop

  /** `t` is the tree of all the points, in index order, in the root square. */
  ghost predicate IsTreeOf(t: Tree, ps: seq<Vec2>) {
    ps != [] && t.cell == RootCell(ps) && Holds(t, UpTo(|ps|), ps)
  }

  /** After the build loop every index sits in exactly one leaf, whose cell contains it; every leaf holds
      at most one index; none is dropped. */
  lemma BuiltTree(t: Tree, ps: seq<Vec2>)
    requires IsTreeOf(t, ps)
    ensures Placed(t.cell, UpTo(|ps|), ps)
    ensures multiset(Points(t)) == multiset(UpTo(|ps|))
    ensures LeavesSound(t, ps) && Accounts(t, UpTo(|ps|), ps)
  {
    AllPlaced(ps, |ps|);
    PointsAreOrder(t, UpTo(|ps|), ps);
    HoldsLeavesSound(t, UpTo(|ps|), ps);
    MassAccounting(t, UpTo(|ps|), ps);
  }

  method BuildTree(ps: seq<Vec2>) returns (tree: QuadTreeNode)
    requires ps != [] && Distinct(ps)
    ensures fresh(tree.Repr) && tree.Valid() && IsTreeOf(tree.value, ps)
  {
    tree := EmptyRoot(ps);
    ghost var levels := EnoughLevels(ps);
    for i := 0 to |ps|
      invariant fresh(tree.Repr) && tree.Valid() && tree.value.cell == RootCell(ps)
      invariant Holds(tree.value, UpTo(i), ps)
    {
      InsertNext(tree, i, ps, levels);
    }
  }

  method EmptyRoot(ps: seq<Vec2>) returns (tree: QuadTreeNode)
    requires ps != []
    ensures fresh(tree.Repr) && tree.Valid() && tree.value.cell == RootCell(ps) && Holds(tree.value, UpTo(0), ps)
  {
    var lo, hi := Corners(ps);
    var root := RootSquare(lo, hi);
    tree := new QuadTreeNode(root.center, root.half);
  }

  lemma EnoughLevels(ps: seq<Vec2>) returns (levels: nat)
    requires ps != [] && Distinct(ps)
    ensures Settles(RootCell(ps).half, Separation(ps), levels)
  {
    SeparationSeparates(ps);
    levels := Levels(RootCell(ps).half, Separation(ps));
    LevelsSettle(RootCell(ps).half, Separation(ps));
  }

  /** One round of the build loop. */
  method InsertNext(tree: QuadTreeNode, i: nat, ps: seq<Vec2>, ghost levels: nat)
    requires i < |ps| && Distinct(ps)
    requires tree.Valid() && tree.value.cell == RootCell(ps) && Holds(tree.value, UpTo(i), ps)
    requires Settles(tree.value.cell.half, Separation(ps), levels)
    modifies tree.Repr
    ensures tree.Valid() && fresh(tree.Repr - old(tree.Repr))
    ensures tree.value.cell == RootCell(ps) && Holds(tree.value, UpTo(i + 1), ps)
  {
    ghost var before, order := tree.value, UpTo(i);
    RootContainsAll(ps, i);
    AllPlaced(ps, i);
    HoldsAccepts(before, order, ps);
    assert i !in order;
    tree.Insert(i, ps[i], ps, order, levels);
    InsertedHolds(before, tree.value, order, i, ps);
  }

  // ---------------------------------------------------------------------------------------------
  // The queries

  lemma {:induction false} LeavesSoundFinalized(t: Tree, ps: seq<Vec2>)
    requires LeavesSound(t, ps)
    ensures LeavesSound(Finalized(t), ps)
  {
    if t.Node? {
      LeavesSoundFinalized(t.sw, ps);
      LeavesSoundFinalized(t.se, ps);
      LeavesSoundFinalized(t.nw, ps);
      LeavesSoundFinalized(t.ne, ps);
    }
  }

  /** The buffers of the threads hold the forces of the nodes done so far, each in its thread's buffer. */
  ghost predicate Buffered(local: seq<seq<Vec2>>, done: seq<nat>, owner: seq<nat>, due: seq<Vec2>)
    requires |owner| == |due|
  {
    && (forall k :: 0 <= k < |local| ==> |local[k]| == |due|)
    && forall k, i :: 0 <= k < |local| && 0 <= i < |due| ==>
         local[k][i] == if i in done && owner[i] == k then due[i] else ZERO
  }

  /** The parallel loop. `owner` is the thread that each node is given to, and `schedule` the order in
      which the nodes happen to be done. */
  method RunQueries(tree: QuadTreeNode, ps: seq<Vec2>, threads: nat, owner: seq<nat>, schedule: seq<nat>,
                    strength: real, sqrt: real -> real, ghost due: seq<Vec2>)
    returns (local: seq<seq<Vec2>>)
    requires IsSqrt(sqrt) && Distinct(ps) && tree.Valid() && LeavesSound(tree.value, ps)
    requires |owner| == |ps| && (forall i :: 0 <= i < |ps| ==> owner[i] < threads)
    requires NoDup(schedule) && forall i :: i in schedule ==> i < |ps|
    requires Gives(due, tree.value, ps, strength, sqrt)
    ensures |local| == threads && Buffered(local, schedule, owner, due)
  {
    local := seq(threads, _ => seq(|ps|, _ => ZERO));
    for k := 0 to |schedule|
      invariant |local| == threads && Buffered(local, schedule[..k], owner, due)
    {
      var i := schedule[k];
      assert i in schedule && i !in schedule[..k] && schedule[..k + 1] == schedule[..k] + [i];
      var mine := local[owner[i]];
      var force := QueryNode(tree, ps, i, mine[i], strength, sqrt, due[i]);
      AddZero(due[i]);
      local := local[owner[i] := mine[i := force]];
    }
    assert schedule[..|schedule|] == schedule;
  }

  ghost predicate IsDue(due: Vec2, i: nat, finalized: Tree, ps: seq<Vec2>, strength: real, sqrt: real -> real)
    requires IsSqrt(sqrt) && i < |ps|
  {
    due == Repulsion(finalized, Query(i, ps[i], THETA, strength), ps, sqrt)
  }

  method QueryNode(tree: QuadTreeNode, ps: seq<Vec2>, i: nat, start: Vec2, strength: real, sqrt: real -> real,
                   ghost due: Vec2) returns (force: Vec2)
    requires IsSqrt(sqrt) && Distinct(ps) && i < |ps| && tree.Valid() && LeavesSound(tree.value, ps)
    requires IsDue(due, i, tree.value, ps, strength, sqrt)
    ensures force == Add(start, due)
  {
    force := tree.ComputeRepulsion(Query(i, ps[i], THETA, strength), start, ps, sqrt);
  }

  method MergeBuffers(local: seq<seq<Vec2>>, owner: seq<nat>, schedule: seq<nat>, ghost due: seq<Vec2>)
    returns (forces: seq<Vec2>)
    requires |owner| == |due| && forall i :: 0 <= i < |due| ==> i in schedule && owner[i] < |local|
    requires Buffered(local, schedule, owner, due)
    ensures forces == due
  {
    forces := seq(|owner|, _ => ZERO);
    for k := 0 to |local|
      invariant |forces| == |due|
      invariant forall i :: 0 <= i < |due| ==> forces[i] == if owner[i] < k then due[i] else ZERO
    {
      ghost var before := forces;
      forces := AddBuffer(forces, local[k]);
      assert forall i :: 0 <= i < |due| ==> forces[i] == Add(before[i], local[k][i]);
    }
  }

  method AddBuffer(forces: seq<Vec2>, buffer: seq<Vec2>) returns (sum: seq<Vec2>)
    requires |buffer| == |forces|
    ensures |sum| == |forces| && forall i :: 0 <= i < |sum| ==> sum[i] == Add(forces[i], buffer[i])
  {
    sum := forces;
    for i := 0 to |forces|
      invariant |sum| == |forces|
      invariant forall j :: 0 <= j < |sum| ==> sum[j] == if j < i then Add(forces[j], buffer[j]) else forces[j]
    {
      sum := sum[i := Add(sum[i], buffer[i])];
    }
  }

  /** The forces are those that queries on the tree give, node by node. */
  ghost predicate Gives(forces: seq<Vec2>, finalized: Tree, ps: seq<Vec2>, strength: real, sqrt: real -> real)
    requires IsSqrt(sqrt)
  {
    |forces| == |ps| && forall i :: 0 <= i < |ps| ==> IsDue(forces[i], i, finalized, ps, strength, sqrt)
  }

  /** The repulsion forces on the nodes, from the one tree that their positions make. */
  ghost predicate Repelled(forces: seq<Vec2>, ps: seq<Vec2>, strength: real, sqrt: real -> real)
    requires IsSqrt(sqrt)
  {
    forall t :: IsTreeOf(t, ps) ==> Gives(forces, Finalized(t), ps, strength, sqrt)
  }

  /** The whole phase. Its result is the same for every assignment of nodes to threads and every order. */
  method Repel(ps: seq<Vec2>, threads: nat, owner: seq<nat>, schedule: seq<nat>, strength: real,
               sqrt: real -> real) returns (forces: seq<Vec2>)
    requires IsSqrt(sqrt) && ps != [] && Distinct(ps)
    requires |owner| == |ps| && (forall i :: 0 <= i < |ps| ==> owner[i] < threads)
    requires multiset(schedule) == multiset(UpTo(|ps|))
    ensures |forces| == |ps| && Repelled(forces, ps, strength, sqrt)
  {
    ScheduleCovers(schedule, |ps|);
    var tree, t := FinishedTree(ps);
    ghost var due := AllDue(tree.value, ps, strength, sqrt);
    var local := RunQueries(tree, ps, threads, owner, schedule, strength, sqrt, due);
    forces := MergeBuffers(local, owner, schedule, due);
    GivesRepelled(forces, t, ps, strength, sqrt);
  }

  method FinishedTree(ps: seq<Vec2>) returns (tree: QuadTreeNode, ghost t: Tree)
    requires ps != [] && Distinct(ps)
    ensures tree.Valid() && IsTreeOf(t, ps) && tree.value == Finalized(t) && LeavesSound(tree.value, ps)
  {
    tree := BuildTree(ps);
    t := tree.value;
    BuiltTree(t, ps);
    LeavesSoundFinalized(t, ps);
    tree.FinalizeMass();
  }

  /** All the forces that the tree gives. */
  lemma AllDue(finalized: Tree, ps: seq<Vec2>, strength: real, sqrt: real -> real) returns (due: seq<Vec2>)
    requires IsSqrt(sqrt)
    ensures Gives(due, finalized, ps, strength, sqrt)
  {
    due := seq(|ps|, i requires 0 <= i < |ps| => Repulsion(finalized, Query(i, ps[i], THETA, strength), ps, sqrt));
  }

  lemma GivesRepelled(forces: seq<Vec2>, t: Tree, ps: seq<Vec2>, strength: real, sqrt: real -> real)
    requires IsSqrt(sqrt) && IsTreeOf(t, ps) && Gives(forces, Finalized(t), ps, strength, sqrt)
    ensures Repelled(forces, ps, strength, sqrt)
  {
    forall u | IsTreeOf(u, ps) ensures u == t {
      TreeDetermined(t, u, UpTo(|ps|), ps);
    }
  }

  lemma ScheduleCovers(schedule: seq<nat>, n: nat)
    requires multiset(schedule) == multiset(UpTo(n))
    ensures NoDup(schedule)
    ensures forall i: nat :: i in schedule <==> i < n
  {
    forall i: nat ensures i in schedule <==> i < n {
      assert i in multiset(schedule) <==> i in multiset(UpTo(n));
      if i < n { assert UpTo(n)[i] == i; }
    }
    SameMultisetNoDup(UpTo(n), schedule);
  }

  lemma SameMultisetNoDup(s: seq<nat>, t: seq<nat>)
    requires NoDup(s) && multiset(s) == multiset(t)
    ensures NoDup(t)
  {
    forall i, j | 0 <= i < j < |t| ensures t[i] != t[j] {
      CountOne(s, t[i]);
      CountTwo(t, i, j);
    }
  }

  lemma CountTwo(t: seq<nat>, i: nat, j: nat)
    requires i < j < |t|
    ensures t[i] == t[j] ==> multiset(t)[t[i]] >= 2
  {
    assert t == t[..i] + [t[i]] + t[i + 1..j] + [t[j]] + t[j + 1..];
  }

  lemma {:induction false} CountOne(s: seq<nat>, x: nat)
    requires NoDup(s)
    ensures multiset(s)[x] <= 1
  {
    if s != [] {
      var init, last := s[..|s| - 1], s[|s| - 1];
      assert s == init + [last];
      CountOne(init, x);
      assert last !in init;
      assert last !in multiset(init);
    }
  }

  // ---------------------------------------------------------------------------------------------
  // What the phase means

  /** No node is pushed by a cell of side s with 2 s^2 >= 1e-9 that contains the node itself, wherever the other
      nodes are. */
  lemma NoSelfForce(t: Tree, ps: seq<Vec2>, i: nat, strength: real, sqrt: real -> real)
    requires IsSqrt(sqrt) && IsTreeOf(t, ps) && i < |ps|
    ensures var q := Query(i, ps[i], THETA, strength); Excludes(Visited(Finalized(t), q, sqrt), q)
  {
    BuiltTree(t, ps);
    SelfExclusion(t, UpTo(|ps|), Query(i, ps[i], THETA, strength), ps, sqrt);
  }

  /** If the nodes are at least sep apart, with 2 sep^2 >= 1e-9, no node is pushed by any cell that contains it. */
  lemma NoSelfForceWhenSpaced(t: Tree, ps: seq<Vec2>, i: nat, strength: real, sqrt: real -> real, sep: real)
    requires IsSqrt(sqrt) && IsTreeOf(t, ps) && i < |ps|
    requires Spaced(ps, sep) && sep > 0.0 && 2.0 * (sep * sep) >= SOFTENING
    ensures var q := Query(i, ps[i], THETA, strength);
      forall v :: v in Visited(Finalized(t), q, sqrt) && v.Node? ==> !InCell(v.cell, q.pos) && q.node !in Points(v)
  {
    BuiltTree(t, ps);
    NoSelfForce(t, ps, i, strength, sqrt);
    SpacedCellsWide(t, UpTo(|ps|), Query(i, ps[i], THETA, strength), ps, sqrt, sep);
  }

  lemma IsListed(i: nat, n: nat)
    requires i < n
    ensures i in UpTo(n)
  {
    assert UpTo(n)[i] == i;
  }

  /** Exactly when a node is pushed by a cell that contains it. */
  lemma SelfForceExactly(t: Tree, ps: seq<Vec2>, i: nat, strength: real, sqrt: real -> real)
    requires IsSqrt(sqrt) && IsTreeOf(t, ps) && i < |ps|
    ensures var q := Query(i, ps[i], THETA, strength);
      TakesOwn(Visited(Finalized(t), q, sqrt), q) <==> Shadowed(Finalized(t), ps[i])
  {
    AllPlaced(ps, |ps|);
    IsListed(i, |ps|);
    TakesOwnExactly(t, UpTo(|ps|), Query(i, ps[i], THETA, strength), ps, sqrt);
  }

  // Four distinct nodes, the first two a millionth apart: their cells shrink to a side of 2^-16 before they
  // would be parted.

  const CLOSE: real := 0.000001

  function CloseNodes(): seq<Vec2> {
    [Vec2(0.0, 0.0), Vec2(CLOSE, 0.0), Vec2(1.0, 1.0), Vec2(-1.0, -1.0)]
  }

  lemma CloseRoot()
    ensures RootCell(CloseNodes()) == Cell(ZERO, 2.0)
  {
    var ps := CloseNodes();
    assert ps[..3][..2] == ps[..2] && ps[..2][..1] == ps[..1];
    assert Low(ps[..1]) == ps[0] == High(ps[..1]);
    assert Low(ps[..2]) == ps[0] && High(ps[..2]) == ps[1];
    assert Low(ps[..3]) == ps[0] && High(ps[..3]) == ps[2];
    assert Low(ps) == ps[3] && High(ps) == ps[2];
  }

  /** All of the halvings leave half-sides above 1e-6. */
  ghost predicate RoomAfter(half: real, levels: nat)
    decreases levels
  {
    levels > 0 ==> half > CLOSE && RoomAfter(half / 2.0, levels - 1)
  }

  lemma {:induction false} CloseUnparted(half: real, levels: nat)
    requires RoomAfter(half, levels)
    ensures !Parts(Cell(Vec2(half, half), half), ZERO, Vec2(CLOSE, 0.0), levels)
    decreases levels
  {
    if levels > 0 {
      var c := Cell(Vec2(half, half), half);
      assert Child(c, Quadrant(c, ZERO)) == Cell(Vec2(half / 2.0, half / 2.0), half / 2.0);
      CloseUnparted(half / 2.0, levels - 1);
    }
  }

  lemma SixHalvings(half: real, levels: nat)
    requires levels >= 6 && half > 64.0 * CLOSE
    ensures RoomAfter(half, levels) <==> RoomAfter(half / 64.0, levels - 6)
    ensures TinyAfter(half, levels) <==> TinyAfter(half / 64.0, levels - 6)
  {
    Halved(half, levels);
    Halved(half / 2.0, levels - 1);
    Halved(half / 4.0, levels - 2);
    Halved(half / 8.0, levels - 3);
    Halved(half / 16.0, levels - 4);
    Halved(half / 32.0, levels - 5);
  }

  lemma Halved(half: real, levels: nat)
    requires levels > 0 && half > CLOSE
    ensures RoomAfter(half, levels) <==> RoomAfter(half / 2.0, levels - 1)
    ensures TinyAfter(half, levels) <==> TinyAfter(half / 2.0, levels - 1)
  {
  }

  /** From half-side 1 the seventeenth halving gives 2^-17. */
  lemma SeventeenHalvings()
    ensures RoomAfter(1.0, 17) && TinyAfter(1.0, 17)
  {
    SixHalvings(1.0, 17);
    SixHalvings(1.0 / 64.0, 11);
    var h := 1.0 / 4096.0;
    Halved(h, 5);
    Halved(h / 2.0, 4);
    Halved(h / 4.0, 3);
    Halved(h / 8.0, 2);
    Halved(h / 16.0, 1);
  }

  /** A node does get pushed by a cell that contains it: the tree of these four nodes, queried for the first. */
  method PushedByOwnCell(ghost strength: real, ghost sqrt: real -> real) returns (tree: QuadTreeNode)
    requires IsSqrt(sqrt)
    ensures tree.Valid() && IsTreeOf(tree.value, CloseNodes())
    ensures var q := Query(0, CloseNodes()[0], THETA, strength); TakesOwn(Visited(Finalized(tree.value), q, sqrt), q)
  {
    var ps := CloseNodes();
    tree := BuildTree(ps);
    CloseShadowed(tree.value);
    SelfForceExactly(tree.value, ps, 0, strength, sqrt);
  }

  lemma CloseShadowed(t: Tree)
    requires IsTreeOf(t, CloseNodes())
    ensures Shadowed(Finalized(t), ZERO)
  {
    var ps := CloseNodes();
    BuiltTree(t, ps);
    CloseRoot();
    CloseInRoot();
    assert UpTo(4)[0] == 0 && UpTo(4)[1] == 1;
    UnpartedShadowed(t, UpTo(4), ps, 0, 1, 18);
  }

  lemma CloseInRoot()
    ensures !Parts(Cell(ZERO, 2.0), ZERO, Vec2(CLOSE, 0.0), 18) && TinyAfter(2.0, 18)
  {
    SeventeenHalvings();
    CloseUnparted(1.0, 17);
    var c := Cell(ZERO, 2.0);
    assert Quadrant(c, ZERO) == 3 == Quadrant(c, Vec2(CLOSE, 0.0)) && Child(c, 3) == Cell(Vec2(1.0, 1.0), 1.0);
    Halved(2.0, 18);
  }

  /** Whatever the opening angle, each node is accounted for once in a query. */
  lemma EachNodeOnce(t: Tree, ps: seq<Vec2>, q: Query, sqrt: real -> real)
    requires IsSqrt(sqrt) && IsTreeOf(t, ps)
    ensures multiset(PointsOfAll(Visited(Finalized(t), q, sqrt))) == multiset(UpTo(|ps|))
  {
    BuiltTree(t, ps);
    VisitedPartitions(Finalized(t), q, sqrt);
    PointsFinalized(t);
  }
}
