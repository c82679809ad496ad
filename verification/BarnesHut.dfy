// The repulsion query on a finalised tree: which parts of the tree one query visits, what force it
// sums, and how that relates to the plain sum over all pairs.
module BarnesHut {
  import opened Reals
  import opened Vectors
  import opened QuadTreeSpec
  import opened QuadTreeTheorems

  const SOFTENING: real := 0.000000001

  // ---------------------------------------------------------------------------------------------
  // Centres of mass

  function Divide(a: Vec2, m: real): Vec2
    requires m != 0.0
  {
    Vec2(a.x / m, a.y / m)
  }

  function Centre(mass: real, sum: Vec2): Vec2 {
    if mass > 0.0 then Divide(sum, mass) else sum
  }

  /** The tree after its position sums have been divided by its masses. */
  function Finalized(t: Tree): Tree {
    match t
    case Leaf(c, mass, com, indices) => Leaf(c, mass, Centre(mass, com), indices)
    case Node(c, mass, com, indices, sw, se, nw, ne) =>
      Node(c, mass, Centre(mass, com), indices, Finalized(sw), Finalized(se), Finalized(nw), Finalized(ne))
  }

  lemma FinalizedFromKids(t: Tree, u: Tree)
    requires t.Node? && u.Node? && u.cell == t.cell && u.mass == t.mass && u.indices == t.indices
    requires u.com == Centre(t.mass, t.com)
    requires forall q :: 0 <= q < 4 ==> Kid(u, q) == Finalized(Kid(t, q))
    ensures u == Finalized(t)
  {
    assert Kid(u, 0) == u.sw && Kid(u, 1) == u.se && Kid(u, 2) == u.nw && Kid(u, 3) == u.ne;
  }

  /** n numbers from [lo, hi) add up to s. */
  ghost predicate AddUp(n: nat, lo: real, s: real, hi: real) {
    n as real * lo <= s < n as real * hi
  }

  lemma OneMore(n: nat, lo: real, s: real, hi: real, x: real)
    requires lo <= x < hi && (AddUp(n, lo, s, hi) || (n == 0 && s == 0.0))
    ensures AddUp(n + 1, lo, s + x, hi)
  {
    var m := n as real;
    assert (n + 1) as real == m + 1.0;
    assert (m + 1.0) * lo == m * lo + lo;
    assert (m + 1.0) * hi == m * hi + hi;
  }

  ghost predicate SumInside(n: nat, c: Cell, s: Vec2) {
    && AddUp(n, c.center.x - c.half, s.x, c.center.x + c.half)
    && AddUp(n, c.center.y - c.half, s.y, c.center.y + c.half)
  }

  lemma SumInsideStep(n: nat, c: Cell, s: Vec2, x: Vec2)
    requires InCell(c, x) && (SumInside(n, c, s) || (n == 0 && s == ZERO))
    ensures SumInside(n + 1, c, Add(s, x))
  {
    OneMore(n, c.center.x - c.half, s.x, c.center.x + c.half, x.x);
    OneMore(n, c.center.y - c.half, s.y, c.center.y + c.half, x.y);
  }

  lemma PlacedInit(c: Cell, order: seq<nat>, ps: seq<Vec2>)
    requires Placed(c, order, ps) && order != []
    ensures Placed(c, order[..|order| - 1], ps)
    ensures order[|order| - 1] < |ps| && InCell(c, ps[order[|order| - 1]])
  {
    var init := order[..|order| - 1];
    assert order[|order| - 1] in order;
    forall i | i in init ensures i < |ps| && InCell(c, ps[i]) {
      assert i in order;
    }
  }

  lemma {:induction false} SumInBox(c: Cell, order: seq<nat>, ps: seq<Vec2>)
    requires Placed(c, order, ps) && order != []
    ensures SumInside(|order|, c, SumOf(At(ps), order))
  {
    var init, last := order[..|order| - 1], order[|order| - 1];
    assert order == init + [last];
    PlacedInit(c, order, ps);
    if init != [] { SumInBox(c, init, ps); }
    SumInsideStep(|init|, c, SumOf(At(ps), init), ps[last]);
  }

  lemma QuotientInside(s: real, m: nat, lo: real, hi: real)
    requires m > 0 && AddUp(m, lo, s, hi)
    ensures lo <= s / m as real < hi
  {
    var n := m as real;
    var q := s / n;
    assert q * n == s;
    assert (q - lo) * n >= 0.0;
    assert (hi - q) * n > 0.0;
  }

  /** The centre of mass of a non-empty cell lies in the cell, doubled first point and all. */
  lemma CentreInCell(t: Tree, order: seq<nat>, ps: seq<Vec2>)
    requires Holds(t, order, ps) && Placed(t.cell, order, ps) && order != []
    ensures t.mass > 0.0 && InCell(t.cell, Finalized(t).com)
  {
    var c, n := t.cell, if t.Leaf? then |order| else |order| + 1;
    assert order[0] in order;
    SumInBox(c, order, ps);
    if t.Node? {
      SumInsideStep(|order|, c, SumOf(At(ps), order), ps[order[0]]);
    }
    assert t.mass == n as real && SumInside(n, c, t.com);
    QuotientInside(t.com.x, n, c.center.x - c.half, c.center.x + c.half);
    QuotientInside(t.com.y, n, c.center.y - c.half, c.center.y + c.half);
  }

  // ---------------------------------------------------------------------------------------------
  // Queries

  /** One call of computeRepulsion: for point `node` at `pos`. */
  datatype Query = Query(node: nat, pos: Vec2, theta: real, strength: real)

  /** The softened squared distance from pos to a centre of mass. */
  function DistSq(com: Vec2, pos: Vec2): (r: real)
    ensures r >= SOFTENING
  {
    var delta := Sub(pos, com);
    SquareNonNegative(delta.x);
    SquareNonNegative(delta.y);
    Dot(delta, delta) + SOFTENING
  }

  lemma SquareNonNegative(r: real)
    ensures r * r >= 0.0
  {
  }

  /** Whether a cell looks small from pos: side / distance < theta. */
  predicate Small(side: real, distSq: real, theta: real, sqrt: real -> real)
    requires IsSqrt(sqrt) && distSq > 0.0
  {
    SqrtPositive(sqrt, distSq);
    side / sqrt(distSq) < theta
  }

  /** The nodes where a query ends, in visiting order: leaves, and cells taken as one mass. */
  function Visited(t: Tree, q: Query, sqrt: real -> real): seq<Tree>
    requires IsSqrt(sqrt)
  {
    if t.Leaf? || Small(t.cell.half * 2.0, DistSq(t.com, q.pos), q.theta, sqrt) then [t]
    else Visited(t.sw, q, sqrt) + Visited(t.se, q, sqrt) + Visited(t.nw, q, sqrt) + Visited(t.ne, q, sqrt)
  }

  /** The push of one point on another that is displaced from it by d. */
  function PairForce(strength: real, d: Vec2, sqrt: real -> real): Vec2
    requires IsSqrt(sqrt) && Dot(d, d) > 0.0
  {
    var dsq := Dot(d, d);
    SqrtPositive(sqrt, dsq);
    Scale(strength / dsq, Divide(d, sqrt(dsq)))
  }

  /** The push of point j on the query's point; none on itself. */
  function PushOf(q: Query, ps: seq<Vec2>, sqrt: real -> real): nat -> Vec2
    requires IsSqrt(sqrt)
  {
    (j: nat) =>
      if j < |ps| && j != q.node && Dot(Sub(q.pos, ps[j]), Sub(q.pos, ps[j])) > 0.0
      then PairForce(q.strength, Sub(q.pos, ps[j]), sqrt) else ZERO
  }

  /** The push of a whole cell, as one mass at its centre. */
  function CellForce(mass: real, com: Vec2, q: Query, sqrt: real -> real): Vec2
    requires IsSqrt(sqrt)
  {
    var distSq := DistSq(com, q.pos);
    SqrtPositive(sqrt, distSq);
    Scale(q.strength * mass / distSq, Divide(Sub(q.pos, com), sqrt(distSq)))
  }

  function Contribution(t: Tree, q: Query, ps: seq<Vec2>, sqrt: real -> real): Vec2
    requires IsSqrt(sqrt)
  {
    if t.Leaf? then SumOf(PushOf(q, ps, sqrt), t.indices) else CellForce(t.mass, t.com, q, sqrt)
  }

  function ContributionOf(q: Query, ps: seq<Vec2>, sqrt: real -> real): Tree -> Vec2
    requires IsSqrt(sqrt)
  {
    (t: Tree) => Contribution(t, q, ps, sqrt)
  }

  /** The force of one query. */
  function Repulsion(t: Tree, q: Query, ps: seq<Vec2>, sqrt: real -> real): Vec2
    requires IsSqrt(sqrt)
  {
    SumOf(ContributionOf(q, ps, sqrt), Visited(t, q, sqrt))
  }

  lemma SumOfOne<T>(f: T -> Vec2, x: T)
    ensures SumOf(f, [x]) == f(x)
  {
    assert [x][..0] == [];
  }

  lemma SumOfFour<T>(f: T -> Vec2, a: seq<T>, b: seq<T>, c: seq<T>, d: seq<T>)
    ensures SumOf(f, a + b + c + d) == Add(Add(Add(SumOf(f, a), SumOf(f, b)), SumOf(f, c)), SumOf(f, d))
  {
    SumConcat(f, a, b);
    SumConcat(f, a + b, c);
    SumConcat(f, a + b + c, d);
  }

  // ---------------------------------------------------------------------------------------------
  // The law of the pushes

  /** r sqrt(r) f = strength mass d: the push f of the mass along d weakens with the square of the distance. */
  ghost predicate Pushes(f: Vec2, r: real, strength: real, mass: real, d: Vec2, sqrt: real -> real) {
    Scale(r * sqrt(r), f) == Scale(strength * mass, d)
  }

  lemma LawAlong(k: real, r: real, s: real, x: real)
    requires r > 0.0 && s > 0.0
    ensures r * s * (k / r * (x / s)) == k * x
  {
    var u, v := k / r, x / s;
    assert u * r == k && v * s == x;
    assert r * s * (u * v) == (u * r) * (v * s);
  }

  lemma LawOf(strength: real, mass: real, r: real, d: Vec2, sqrt: real -> real)
    requires IsSqrt(sqrt) && r > 0.0
    ensures sqrt(r) > 0.0 && Pushes(Scale(strength * mass / r, Divide(d, sqrt(r))), r, strength, mass, d, sqrt)
  {
    SqrtPositive(sqrt, r);
    var k := strength * mass;
    LawAlong(k, r, sqrt(r), d.x);
    LawAlong(k, r, sqrt(r), d.y);
  }

  /** side / distance < theta without the division. */
  lemma SmallMeans(side: real, distSq: real, theta: real, sqrt: real -> real)
    requires IsSqrt(sqrt) && distSq > 0.0
    ensures Small(side, distSq, theta, sqrt) <==> side < theta * sqrt(distSq)
  {
    SqrtPositive(sqrt, distSq);
    var d, r := sqrt(distSq), side / sqrt(distSq);
    assert r * d == side;
    Sign(theta - r, d);
    assert (theta - r) * d == theta * d - side;
  }

  /** The softened squared length of a displacement. */
  function Softened(d: Vec2): (r: real)
    ensures r >= 0.000000001
  {
    SquareNonNegative(d.x);
    SquareNonNegative(d.y);
    d.x * d.x + d.y * d.y + 0.000000001
  }

  lemma CentreTimesMass(sum: Vec2, m: real)
    requires m > 0.0
    ensures Scale(m, Centre(m, sum)) == sum
  {
  }

  /** The mass of a finalised node, and its centre. */
  lemma NodeMass(t: Tree, order: seq<nat>, ps: seq<Vec2>)
    requires t.Node? && Holds(t, order, ps)
    ensures var mass := |order| as real + 1.0;
      && Finalized(t).Node? && Finalized(t).cell == t.cell && Finalized(t).mass == mass
      && Scale(mass, Finalized(t).com) == Add(SumOf(At(ps), order), At(ps)(order[0]))
  {
    CentreTimesMass(t.com, |order| as real + 1.0);
  }

  lemma CellForceLaw(mass: real, com: Vec2, q: Query, sqrt: real -> real)
    requires IsSqrt(sqrt)
    ensures var d := Sub(q.pos, com); Pushes(CellForce(mass, com, q, sqrt), Softened(d), q.strength, mass, d, sqrt)
  {
    var d := Sub(q.pos, com);
    LawOf(q.strength, mass, Softened(d), d, sqrt);
  }

  lemma TakenWholePush(t: Tree, q: Query, ps: seq<Vec2>, sqrt: real -> real)
    requires IsSqrt(sqrt) && t.Node?
    requires t.cell.half * 2.0 < q.theta * sqrt(Softened(Sub(q.pos, t.com)))
    ensures var d := Sub(q.pos, t.com);
      Pushes(Repulsion(t, q, ps, sqrt), Softened(d), q.strength, t.mass, d, sqrt)
  {
    SmallMeans(t.cell.half * 2.0, DistSq(t.com, q.pos), q.theta, sqrt);
    RepulsionOfEnd(t, q, ps, sqrt);
    CellForceLaw(t.mass, t.com, q, sqrt);
  }

  /** A cell that is small from the query's point pushes it as one mass: that of its points, with the first of them
      counted twice, at the centre of that mass. */
  lemma WholeCellPush(t: Tree, order: seq<nat>, q: Query, ps: seq<Vec2>, sqrt: real -> real)
    requires IsSqrt(sqrt) && t.Node? && Holds(t, order, ps)
    requires t.cell.half * 2.0 < q.theta * sqrt(Softened(Sub(q.pos, Finalized(t).com)))
    ensures var d, mass := Sub(q.pos, Finalized(t).com), |order| as real + 1.0;
      && Scale(mass, Finalized(t).com) == Add(SumOf(At(ps), order), At(ps)(order[0]))
      && Pushes(Repulsion(Finalized(t), q, ps, sqrt), Softened(d), q.strength, mass, d, sqrt)
  {
    NodeMass(t, order, ps);
    TakenWholePush(Finalized(t), q, ps, sqrt);
  }

  /** A cell that is not small pushes as its four quarters do. */
  lemma QuartersPush(t: Tree, q: Query, ps: seq<Vec2>, sqrt: real -> real)
    requires IsSqrt(sqrt) && t.Node?
    requires t.cell.half * 2.0 >= q.theta * sqrt(Softened(Sub(q.pos, t.com)))
    ensures Repulsion(t, q, ps, sqrt)
         == Add(Add(Add(Repulsion(t.sw, q, ps, sqrt), Repulsion(t.se, q, ps, sqrt)),
                    Repulsion(t.nw, q, ps, sqrt)), Repulsion(t.ne, q, ps, sqrt))
  {
    SmallMeans(t.cell.half * 2.0, DistSq(t.com, q.pos), q.theta, sqrt);
    RepulsionOfNode(t, q, ps, sqrt);
  }

  /** Point j pushes any other point by the same law with mass 1, without softening; nothing pushes itself. */
  lemma PointPush(q: Query, ps: seq<Vec2>, j: nat, sqrt: real -> real)
    requires IsSqrt(sqrt) && j < |ps|
    ensures j == q.node ==> PushOf(q, ps, sqrt)(j) == ZERO
    ensures var d := Sub(q.pos, ps[j]);
      j != q.node && d != ZERO ==>
        Dot(d, d) > 0.0 && Pushes(PushOf(q, ps, sqrt)(j), Dot(d, d), q.strength, 1.0, d, sqrt)
  {
    var d := Sub(q.pos, ps[j]);
    if j != q.node && d != ZERO {
      DotPositive(d);
      assert q.strength * 1.0 == q.strength;
      LawOf(q.strength, 1.0, Dot(d, d), d, sqrt);
    }
  }

  lemma LeafSum(t: Tree, order: seq<nat>, q: Query, ps: seq<Vec2>, sqrt: real -> real)
    requires IsSqrt(sqrt) && t.Leaf? && Holds(t, order, ps)
    ensures Repulsion(Finalized(t), q, ps, sqrt) == SumOf(PushOf(q, ps, sqrt), order)
  {
    RepulsionOfEnd(Finalized(t), q, ps, sqrt);
  }

  /** A leaf pushes as its point does. */
  lemma LeafPush(t: Tree, j: nat, q: Query, ps: seq<Vec2>, sqrt: real -> real)
    requires IsSqrt(sqrt) && t.Leaf? && Holds(t, [j], ps) && j < |ps|
    ensures j == q.node ==> Repulsion(Finalized(t), q, ps, sqrt) == ZERO
    ensures var d := Sub(q.pos, ps[j]);
      j != q.node && d != ZERO ==>
        Dot(d, d) > 0.0 && Pushes(Repulsion(Finalized(t), q, ps, sqrt), Dot(d, d), q.strength, 1.0, d, sqrt)
  {
    LeafSum(t, [j], q, ps, sqrt);
    SumOfOne(PushOf(q, ps, sqrt), j);
    PointPush(q, ps, j, sqrt);
  }

  /** A leaf without a point does not push. */
  lemma EmptyLeafPush(t: Tree, q: Query, ps: seq<Vec2>, sqrt: real -> real)
    requires IsSqrt(sqrt) && t.Leaf? && Holds(t, [], ps)
    ensures Repulsion(Finalized(t), q, ps, sqrt) == ZERO
  {
    LeafSum(t, [], q, ps, sqrt);
  }

  // ---------------------------------------------------------------------------------------------
  // Every point is accounted for once

  ghost function PointsOfAll(ts: seq<Tree>): seq<nat> {
    if ts == [] then [] else PointsOfAll(ts[..|ts| - 1]) + Points(ts[|ts| - 1])
  }

  lemma PointsOfAllAppend(ts: seq<Tree>, t: Tree)
    ensures PointsOfAll(ts + [t]) == PointsOfAll(ts) + Points(t)
  {
    assert (ts + [t])[..|ts|] == ts;
  }

  lemma Associates(a: seq<nat>, b: seq<nat>, c: seq<nat>)
    ensures a + b + c == a + (b + c)
  {
  }

  lemma {:induction false} PointsOfAllConcat(ts: seq<Tree>, us: seq<Tree>)
    ensures PointsOfAll(ts + us) == PointsOfAll(ts) + PointsOfAll(us)
    decreases |us|
  {
    if us == [] {
      assert ts + us == ts;
    } else {
      var init, last := us[..|us| - 1], us[|us| - 1];
      assert ts + us == ts + init + [last];
      PointsOfAllAppend(ts + init, last);
      PointsOfAllConcat(ts, init);
      Associates(PointsOfAll(ts), PointsOfAll(init), Points(last));
    }
  }

  /** For every theta, the cells and leaves where a query ends share out all the points of the tree. */
  lemma {:induction false} VisitedPartitions(t: Tree, q: Query, sqrt: real -> real)
    requires IsSqrt(sqrt)
    ensures PointsOfAll(Visited(t, q, sqrt)) == Points(t)
  {
    if t.Leaf? || Small(t.cell.half * 2.0, DistSq(t.com, q.pos), q.theta, sqrt) {
      assert PointsOfAll([t]) == PointsOfAll([]) + Points(t);
    } else {
      var sw, se := Visited(t.sw, q, sqrt), Visited(t.se, q, sqrt);
      var nw, ne := Visited(t.nw, q, sqrt), Visited(t.ne, q, sqrt);
      VisitedPartitions(t.sw, q, sqrt);
      VisitedPartitions(t.se, q, sqrt);
      VisitedPartitions(t.nw, q, sqrt);
      VisitedPartitions(t.ne, q, sqrt);
      PointsOfAllConcat(sw, se);
      PointsOfAllConcat(sw + se, nw);
      PointsOfAllConcat(sw + se + nw, ne);
    }
  }

  lemma {:induction false} PointsFinalized(t: Tree)
    ensures Points(Finalized(t)) == Points(t)
  {
    if t.Node? {
      PointsFinalized(t.sw);
      PointsFinalized(t.se);
      PointsFinalized(t.nw);
      PointsFinalized(t.ne);
    }
  }

  // ---------------------------------------------------------------------------------------------
  // The exact sum at theta = 0

  /** The push of the first k children of a node. */
  function FirstKids(t: Tree, k: nat, q: Query, ps: seq<Vec2>, sqrt: real -> real): Vec2
    requires IsSqrt(sqrt) && t.Node? && k <= 4
  {
    if k == 0 then ZERO else Add(FirstKids(t, k - 1, q, ps, sqrt), Repulsion(Kid(t, k - 1), q, ps, sqrt))
  }

  /** A node that is not taken whole pushes as its four children do. */
  lemma RepulsionOfNode(t: Tree, q: Query, ps: seq<Vec2>, sqrt: real -> real)
    requires IsSqrt(sqrt) && t.Node? && !Small(t.cell.half * 2.0, DistSq(t.com, q.pos), q.theta, sqrt)
    ensures Repulsion(t, q, ps, sqrt) == FirstKids(t, 4, q, ps, sqrt)
    ensures Repulsion(t, q, ps, sqrt)
         == Add(Add(Add(Repulsion(t.sw, q, ps, sqrt), Repulsion(t.se, q, ps, sqrt)),
                    Repulsion(t.nw, q, ps, sqrt)), Repulsion(t.ne, q, ps, sqrt))
  {
    var sw, se := Visited(t.sw, q, sqrt), Visited(t.se, q, sqrt);
    var nw, ne := Visited(t.nw, q, sqrt), Visited(t.ne, q, sqrt);
    assert Visited(t, q, sqrt) == sw + se + nw + ne;
    SumOfFour(ContributionOf(q, ps, sqrt), sw, se, nw, ne);
    assert FirstKids(t, 1, q, ps, sqrt) == Repulsion(t.sw, q, ps, sqrt);
    assert FirstKids(t, 2, q, ps, sqrt) == Add(Repulsion(t.sw, q, ps, sqrt), Repulsion(t.se, q, ps, sqrt));
  }

  /** What a leaf or a cell taken whole pushes. */
  lemma RepulsionOfEnd(t: Tree, q: Query, ps: seq<Vec2>, sqrt: real -> real)
    requires IsSqrt(sqrt)
    requires t.Leaf? || Small(t.cell.half * 2.0, DistSq(t.com, q.pos), q.theta, sqrt)
    ensures Repulsion(t, q, ps, sqrt) == Contribution(t, q, ps, sqrt)
  {
    SumOfOne(ContributionOf(q, ps, sqrt), t);
  }

  lemma DistinctApart(ps: seq<Vec2>, i: nat, j: nat)
    requires Distinct(ps) && i < |ps| && j < |ps| && i != j
    ensures Dot(Sub(ps[i], ps[j]), Sub(ps[i], ps[j])) > 0.0
  {
    assert ps[i] != ps[j];
    DotPositive(Sub(ps[i], ps[j]));
  }

  /** With theta at most 0 no cell is taken whole, and the total is the sum over the points. */
  lemma {:induction false} ExactTotal(t: Tree, q: Query, ps: seq<Vec2>, sqrt: real -> real)
    requires IsSqrt(sqrt) && q.theta <= 0.0 && SidesPositive(t)
    ensures Repulsion(t, q, ps, sqrt) == SumOf(PushOf(q, ps, sqrt), Points(t))
  {
    if t.Leaf? {
      SumOfOne(ContributionOf(q, ps, sqrt), t);
    } else {
      NeverSmall(t.cell.half * 2.0, DistSq(t.com, q.pos), q.theta, sqrt);
      RepulsionOfNode(t, q, ps, sqrt);
      ExactTotal(t.sw, q, ps, sqrt);
      ExactTotal(t.se, q, ps, sqrt);
      ExactTotal(t.nw, q, ps, sqrt);
      ExactTotal(t.ne, q, ps, sqrt);
      SumOfFour(PushOf(q, ps, sqrt), Points(t.sw), Points(t.se), Points(t.nw), Points(t.ne));
    }
  }

  ghost predicate SidesPositive(t: Tree) {
    t.Node? ==>
      && t.cell.half > 0.0
      && SidesPositive(t.sw) && SidesPositive(t.se) && SidesPositive(t.nw) && SidesPositive(t.ne)
  }

  lemma NeverSmall(side: real, distSq: real, theta: real, sqrt: real -> real)
    requires IsSqrt(sqrt) && distSq > 0.0 && side > 0.0 && theta <= 0.0
    ensures !Small(side, distSq, theta, sqrt)
  {
    SqrtPositive(sqrt, distSq);
    var d := sqrt(distSq);
    assert (side / d) * d == side;
  }

  lemma {:induction false} HoldsSidesPositive(t: Tree, order: seq<nat>, ps: seq<Vec2>)
    requires Holds(t, order, ps) && t.cell.half > 0.0
    ensures SidesPositive(Finalized(t))
  {
    if t.Node? {
      Quarters(t, order, ps);
      HoldsSidesPositive(t.sw, Part(t.cell, order, ps, 0), ps);
      HoldsSidesPositive(t.se, Part(t.cell, order, ps, 1), ps);
      HoldsSidesPositive(t.nw, Part(t.cell, order, ps, 2), ps);
      HoldsSidesPositive(t.ne, Part(t.cell, order, ps, 3), ps);
    }
  }

  /** At theta = 0 a query on the tree of all n points gives the plain sum of the pair forces of the
      other points, in index order. */
  lemma ExactAtThetaZero(t: Tree, order: seq<nat>, q: Query, ps: seq<Vec2>, sqrt: real -> real)
    requires IsSqrt(sqrt) && q.theta == 0.0
    requires Holds(t, order, ps) && t.cell.half > 0.0
    requires multiset(order) == multiset(UpTo(|ps|))
    ensures Repulsion(Finalized(t), q, ps, sqrt) == SumOf(PushOf(q, ps, sqrt), UpTo(|ps|))
  {
    HoldsSidesPositive(t, order, ps);
    ExactTotal(Finalized(t), q, ps, sqrt);
    PointsFinalized(t);
    PointsAreOrder(t, order, ps);
    SumPermutes(PushOf(q, ps, sqrt), Points(t), UpTo(|ps|));
  }

  // ---------------------------------------------------------------------------------------------
  // Self-exclusion

  /** A cell of side s whose centre of mass lies in it is never small from a point in the cell, if
      2 s^2 >= 1e-9 and theta = 1/2. */
  lemma NotSmallFromInside(c: Cell, com: Vec2, pos: Vec2, distSq: real, sqrt: real -> real)
    requires IsSqrt(sqrt) && c.half > 0.0 && InCell(c, com) && InCell(c, pos)
    requires distSq == Dot(Sub(pos, com), Sub(pos, com)) + SOFTENING && distSq > 0.0
    requires WideSide(c.half)
    ensures !Small(c.half * 2.0, distSq, 0.5, sqrt)
  {
    SqrtPositive(sqrt, distSq);
    var s, d := c.half * 2.0, sqrt(distSq);
    var dx, dy := pos.x - com.x, pos.y - com.y;
    SquareBelow(dx, s);
    SquareBelow(dy, s);
    assert d * d < 2.0 * (s * s) + SOFTENING <= 4.0 * (s * s);
    SquareOfDouble(s);
    RootBelow(d, 2.0 * s);
    QuotientAtLeastHalf(s, d);
  }

  lemma SquareOfDouble(s: real)
    ensures (2.0 * s) * (2.0 * s) == 4.0 * (s * s)
  {
  }

  /** 2 s^2 >= 1e-9 for the side s of a cell. */
  predicate WideSide(half: real) {
    var s := half * 2.0;
    2.0 * (s * s) >= SOFTENING
  }

  lemma SquareBelow(a: real, b: real)
    requires -b < a < b
    ensures a * a < b * b
  {
    assert (b - a) * (b + a) > 0.0;
    assert (b - a) * (b + a) == b * b - a * a;
  }

  lemma RootBelow(a: real, b: real)
    requires a * a < b * b && b > 0.0
    ensures a < b
  {
    if a > -b {
      assert (b - a) * (b + a) == b * b - a * a > 0.0;
    }
  }

  lemma QuotientAtLeastHalf(s: real, d: real)
    requires 0.0 < d < 2.0 * s
    ensures s / d >= 0.5
  {
    var r := s / d;
    assert r * d == s;
    assert (r - 0.5) * d == r * d - 0.5 * d > 0.0;
  }

  /** The threshold is exact: a cell can look small from inside itself if and only if 2 s^2 < 1e-9. */
  lemma InsideThreshold(c: Cell, sqrt: real -> real)
    requires IsSqrt(sqrt) && c.half > 0.0
    ensures WideSide(c.half) <==>
      forall com, pos :: InCell(c, com) && InCell(c, pos) ==> !LooksSmall(c, com, pos, sqrt)
  {
    if WideSide(c.half) {
      forall com, pos | InCell(c, com) && InCell(c, pos) ensures !LooksSmall(c, com, pos, sqrt) {
        SquareNonNegative(pos.x - com.x);
        SquareNonNegative(pos.y - com.y);
        NotSmallFromInside(c, com, pos, Dot(Sub(pos, com), Sub(pos, com)) + SOFTENING, sqrt);
      }
    } else {
      var com, pos := FarCorner(c, sqrt);
    }
  }

  ghost predicate LooksSmall(c: Cell, com: Vec2, pos: Vec2, sqrt: real -> real)
    requires IsSqrt(sqrt)
  {
    SquareNonNegative(pos.x - com.x);
    SquareNonNegative(pos.y - com.y);
    Small(c.half * 2.0, Dot(Sub(pos, com), Sub(pos, com)) + SOFTENING, 0.5, sqrt)
  }

  lemma FarCorner(c: Cell, sqrt: real -> real) returns (com: Vec2, pos: Vec2)
    requires IsSqrt(sqrt) && c.half > 0.0
    requires !WideSide(c.half)
    ensures InCell(c, com) && InCell(c, pos) && LooksSmall(c, com, pos, sqrt)
  {
    var s := c.half * 2.0;
    var gap := SOFTENING / 2.0 - s * s;
    var back := Min(s / 2.0, gap / (4.0 * s));
    var t := s - back;
    BackedOff(s, gap, back);
    StepBack(s, back, gap);
    com := Vec2(c.center.x - c.half, c.center.y - c.half);
    pos := Vec2(com.x + t, com.y + t);
    var distSq := t * t + t * t + SOFTENING;
    SquareNonNegative(t);
    SqrtPositive(sqrt, distSq);
    assert Dot(Sub(pos, com), Sub(pos, com)) + SOFTENING == distSq;
    var d := sqrt(distSq);
    SquareOfDouble(s);
    RootBelow(2.0 * s, d);
    QuotientBelowHalf(s, d);
  }

  lemma BackedOff(s: real, gap: real, back: real)
    requires s > 0.0 && gap > 0.0 && back == Min(s / 2.0, gap / (4.0 * s))
    ensures 0.0 < back < s && back * (4.0 * s) <= gap
  {
    var r := gap / (4.0 * s);
    assert r * (4.0 * s) == gap;
    assert (r - back) * (4.0 * s) >= 0.0;
  }

  lemma QuotientBelowHalf(s: real, d: real)
    requires 0.0 < 2.0 * s < d
    ensures s / d < 0.5
  {
    assert (s / d) * d == s;
    RatioBelowHalf(s / d, s, d);
  }

  lemma RatioBelowHalf(r: real, s: real, d: real)
    requires d > 0.0 && r * d == s && 2.0 * s < d
    ensures r < 0.5
  {
    assert (0.5 - r) * d > 0.0;
  }

  lemma StepBack(s: real, back: real, gap: real)
    requires s > 0.0 && gap > 0.0 && 0.0 < back < s && back * (4.0 * s) <= gap
    ensures 2.0 * ((s - back) * (s - back)) > 2.0 * (s * s) - gap
  {
    assert (s - back) * (s - back) == s * s - 2.0 * (s * back) + back * back;
    assert back * back > 0.0;
  }

  lemma PointsInCell(t: Tree, order: seq<nat>, ps: seq<Vec2>)
    requires Holds(t, order, ps) && Placed(t.cell, order, ps)
    ensures forall i :: i in Points(t) ==> i < |ps| && InCell(t.cell, ps[i])
  {
    PointsAreOrder(t, order, ps);
    forall i | i in Points(t) ensures i in order {
      assert i in multiset(Points(t));
    }
  }

  /** No whole cell of side s with 2 s^2 >= 1e-9 among the places where a query ends contains its point. */
  ghost predicate Excludes(ts: seq<Tree>, q: Query) {
    forall v :: v in ts && v.Node? && WideSide(v.cell.half) ==> !InCell(v.cell, q.pos) && q.node !in Points(v)
  }

  lemma ExcludesConcat(a: seq<Tree>, b: seq<Tree>, c: seq<Tree>, d: seq<Tree>, q: Query)
    requires Excludes(a, q) && Excludes(b, q) && Excludes(c, q) && Excludes(d, q)
    ensures Excludes(a + b + c + d, q)
  {
  }

  /** At theta = 1/2 no cell of side s with 2 s^2 >= 1e-9 that a query takes whole contains the query's own
      point, whatever the other points are. */
  lemma {:induction false} SelfExclusion(t: Tree, order: seq<nat>, q: Query, ps: seq<Vec2>, sqrt: real -> real)
    requires IsSqrt(sqrt) && q.theta == 0.5
    requires Holds(t, order, ps) && Placed(t.cell, order, ps)
    requires q.node < |ps| && ps[q.node] == q.pos
    ensures Excludes(Visited(Finalized(t), q, sqrt), q)
  {
    if t.Node? {
      var f := Finalized(t);
      var vs := Visited(f, q, sqrt);
      if Small(f.cell.half * 2.0, DistSq(f.com, q.pos), q.theta, sqrt) {
        assert vs == [f];
        if WideSide(t.cell.half) { TakenWholeExcludes(t, order, q, ps, sqrt); }
      } else {
        forall k: nat | k < 4 ensures Excludes(Visited(Finalized(Kid(t, k)), q, sqrt), q) {
          Quarter(t, order, ps, k);
          SelfExclusion(Kid(t, k), Part(t.cell, order, ps, k), q, ps, sqrt);
        }
        assert Kid(t, 0) == t.sw && Kid(t, 1) == t.se && Kid(t, 2) == t.nw && Kid(t, 3) == t.ne;
        var sw, se := Visited(f.sw, q, sqrt), Visited(f.se, q, sqrt);
        var nw, ne := Visited(f.nw, q, sqrt), Visited(f.ne, q, sqrt);
        assert vs == sw + se + nw + ne;
        ExcludesConcat(sw, se, nw, ne, q);
      }
    }
  }

  lemma CellNotSmall(t: Tree, pos: Vec2, sqrt: real -> real)
    requires IsSqrt(sqrt) && InCell(t.cell, t.com) && InCell(t.cell, pos)
    requires WideSide(t.cell.half)
    ensures !Small(t.cell.half * 2.0, DistSq(t.com, pos), 0.5, sqrt)
  {
    NotSmallFromInside(t.cell, t.com, pos, DistSq(t.com, pos), sqrt);
  }

  lemma TakenWholeExcludes(t: Tree, order: seq<nat>, q: Query, ps: seq<Vec2>, sqrt: real -> real)
    requires IsSqrt(sqrt) && q.theta == 0.5 && t.Node?
    requires Holds(t, order, ps) && Placed(t.cell, order, ps)
    requires q.node < |ps| && ps[q.node] == q.pos
    requires Small(t.cell.half * 2.0, DistSq(Finalized(t).com, q.pos), q.theta, sqrt) && WideSide(t.cell.half)
    ensures !InCell(t.cell, q.pos) && q.node !in Points(Finalized(t))
  {
    CentreInCell(t, order, ps);
    PointsFinalized(t);
    PointsInCell(t, order, ps);
    if InCell(t.cell, q.pos) {
      CellNotSmall(Finalized(t), q.pos, sqrt);
    }
  }

  // ---------------------------------------------------------------------------------------------
  // Which layouts have only wide cells, and what happens in the others

  ghost predicate AllWide(ts: seq<Tree>) {
    forall v :: v in ts && v.Node? ==> WideSide(v.cell.half)
  }

  lemma AllWideConcat(a: seq<Tree>, b: seq<Tree>, c: seq<Tree>, d: seq<Tree>)
    requires AllWide(a) && AllWide(b) && AllWide(c) && AllWide(d)
    ensures AllWide(a + b + c + d)
  {
  }

  lemma SideWide(sep: real, half: real)
    requires 0.0 < sep < 2.0 * half && 2.0 * (sep * sep) >= SOFTENING
    ensures WideSide(half)
  {
    SquareBelow(sep, half * 2.0);
  }

  /** If the points are at least sep apart and 2 sep^2 >= 1e-9, every cell that is taken whole is wide, so none
      contains the query's own point. */
  lemma {:induction false} SpacedCellsWide(t: Tree, order: seq<nat>, q: Query, ps: seq<Vec2>, sqrt: real -> real,
                                           sep: real)
    requires IsSqrt(sqrt) && Holds(t, order, ps) && Placed(t.cell, order, ps)
    requires Spaced(ps, sep) && sep > 0.0 && 2.0 * (sep * sep) >= SOFTENING
    ensures AllWide(Visited(Finalized(t), q, sqrt))
  {
    if t.Node? {
      var f := Finalized(t);
      WiderThan(t.cell, order, ps, sep);
      SideWide(sep, t.cell.half);
      if !Small(f.cell.half * 2.0, DistSq(f.com, q.pos), q.theta, sqrt) {
        forall k: nat | k < 4 ensures AllWide(Visited(Finalized(Kid(t, k)), q, sqrt)) {
          Quarter(t, order, ps, k);
          SpacedCellsWide(Kid(t, k), Part(t.cell, order, ps, k), q, ps, sqrt, sep);
        }
        assert Kid(t, 0) == t.sw && Kid(t, 1) == t.se && Kid(t, 2) == t.nw && Kid(t, 3) == t.ne;
        var sw, se := Visited(f.sw, q, sqrt), Visited(f.se, q, sqrt);
        var nw, ne := Visited(f.nw, q, sqrt), Visited(f.ne, q, sqrt);
        assert Visited(f, q, sqrt) == sw + se + nw + ne;
        AllWideConcat(sw, se, nw, ne);
      }
    }
  }

  /** At theta = 1/2 a cell of side s is taken whole if and only if 4 s^2 is below the softened square of the
      distance to its centre of mass. */
  lemma SmallExactly(side: real, distSq: real, sqrt: real -> real)
    requires IsSqrt(sqrt) && side > 0.0 && distSq > 0.0
    ensures Small(side, distSq, 0.5, sqrt) <==> 4.0 * (side * side) < distSq
  {
    SqrtPositive(sqrt, distSq);
    var d, r := sqrt(distSq), side / sqrt(distSq);
    assert r * d == side;
    SquareOfDouble(side);
    assert (0.5 - r) * d == 0.5 * d - side;
    Sign(0.5 - r, d);
    Sign(d - 2.0 * side, d + 2.0 * side);
    assert (d - 2.0 * side) * (d + 2.0 * side) == d * d - 4.0 * (side * side);
  }

  /** 4 s^2 < 1e-9 for the side s of a cell. */
  predicate TinySide(half: real) {
    var s := half * 2.0;
    4.0 * (s * s) < SOFTENING
  }

  /** A tiny cell is taken whole by every query, those of its own points included. */
  lemma TinyTakenWhole(t: Tree, q: Query, sqrt: real -> real)
    requires IsSqrt(sqrt) && q.theta == 0.5 && t.cell.half > 0.0 && TinySide(t.cell.half)
    ensures Visited(t, q, sqrt) == [t]
  {
    SmallExactly(t.cell.half * 2.0, DistSq(t.com, q.pos), sqrt);
  }

  /** Some cell around pos has a centre of mass so far from pos that 4 s^2 is below the softened square of
      their distance. */
  ghost predicate Shadowed(t: Tree, pos: Vec2) {
    && t.Node?
    && (|| 4.0 * (t.cell.half * 2.0 * (t.cell.half * 2.0)) < DistSq(t.com, pos)
        || Shadowed(Kid(t, Quadrant(t.cell, pos)), pos))
  }

  /** At theta = 1/2 the test of Shadowed is the test of the query. */
  lemma ShadowedStep(t: Tree, pos: Vec2, sqrt: real -> real)
    requires IsSqrt(sqrt) && t.Node? && t.cell.half > 0.0
    ensures Shadowed(t, pos) <==>
      Small(t.cell.half * 2.0, DistSq(t.com, pos), 0.5, sqrt) || Shadowed(Kid(t, Quadrant(t.cell, pos)), pos)
  {
    SmallExactly(t.cell.half * 2.0, DistSq(t.com, pos), sqrt);
  }

  /** A cell that holds the query's point is taken whole. */
  ghost predicate TakesOwn(ts: seq<Tree>, q: Query) {
    exists v :: v in ts && v.Node? && InCell(v.cell, q.pos) && q.node in Points(v)
  }

  lemma OwnNode(t: Tree, order: seq<nat>, q: Query, ps: seq<Vec2>)
    requires Holds(t, order, ps) && Placed(t.cell, order, ps) && q.node in order && ps[q.node] == q.pos && t.Node?
    ensures t.cell.half > 0.0 && TakesOwn([Finalized(t)], q)
  {
    PointsFinalized(t);
    PointsAreOrder(t, order, ps);
    assert q.node in multiset(Points(t));
    assert InCell(t.cell, q.pos);
  }

  lemma FinalizedKid(t: Tree, k: nat)
    requires t.Node? && k < 4
    ensures Finalized(t).Node? && Kid(Finalized(t), k) == Finalized(Kid(t, k))
  {
  }

  lemma VisitedKids(t: Tree, q: Query, sqrt: real -> real)
    requires IsSqrt(sqrt) && t.Node? && !Small(t.cell.half * 2.0, DistSq(t.com, q.pos), q.theta, sqrt)
    ensures forall v :: v in Visited(t, q, sqrt) <==> exists k: nat :: k < 4 && v in Visited(Kid(t, k), q, sqrt)
  {
    var sw, se := Visited(t.sw, q, sqrt), Visited(t.se, q, sqrt);
    var nw, ne := Visited(t.nw, q, sqrt), Visited(t.ne, q, sqrt);
    assert Visited(t, q, sqrt) == sw + se + nw + ne;
    assert Kid(t, 0) == t.sw && Kid(t, 1) == t.se && Kid(t, 2) == t.nw && Kid(t, 3) == t.ne;
  }

  /** What is visited below a tree holds no points but the tree's. */
  lemma {:induction false} VisitedWithin(t: Tree, q: Query, sqrt: real -> real, v: Tree)
    requires IsSqrt(sqrt) && v in Visited(t, q, sqrt)
    ensures forall i :: i in Points(v) ==> i in Points(t)
  {
    if t.Node? && !Small(t.cell.half * 2.0, DistSq(t.com, q.pos), q.theta, sqrt) {
      VisitedKids(t, q, sqrt);
      var k: nat :| k < 4 && v in Visited(Kid(t, k), q, sqrt);
      VisitedWithin(Kid(t, k), q, sqrt, v);
    }
  }

  /** The query's own point lies below one child only. */
  lemma OwnKid(t: Tree, order: seq<nat>, q: Query, ps: seq<Vec2>, k: nat)
    requires t.Node? && Holds(t, order, ps) && Placed(t.cell, order, ps) && k < 4
    requires q.node < |ps| && ps[q.node] == q.pos && q.node in Points(Kid(t, k))
    ensures k == Quadrant(t.cell, q.pos)
  {
    Quarter(t, order, ps, k);
    PointsAreOrder(Kid(t, k), Part(t.cell, order, ps, k), ps);
    assert q.node in multiset(Points(Kid(t, k)));
  }

  lemma TakesOwnBelow(t: Tree, order: seq<nat>, q: Query, ps: seq<Vec2>, sqrt: real -> real)
    requires IsSqrt(sqrt) && t.Node? && Holds(t, order, ps) && Placed(t.cell, order, ps)
    requires q.node in order && ps[q.node] == q.pos
    requires !Small(t.cell.half * 2.0, DistSq(Finalized(t).com, q.pos), q.theta, sqrt)
    ensures var k := Quadrant(t.cell, q.pos);
      TakesOwn(Visited(Finalized(t), q, sqrt), q) <==> TakesOwn(Visited(Finalized(Kid(t, k)), q, sqrt), q)
  {
    var f := Finalized(t);
    VisitedKids(f, q, sqrt);
    if TakesOwn(Visited(f, q, sqrt), q) {
      var v :| v in Visited(f, q, sqrt) && v.Node? && InCell(v.cell, q.pos) && q.node in Points(v);
      var k: nat :| k < 4 && v in Visited(Kid(f, k), q, sqrt);
      FinalizedKid(t, k);
      VisitedWithin(Kid(f, k), q, sqrt, v);
      PointsFinalized(Kid(t, k));
      OwnKid(t, order, q, ps, k);
    }
    FinalizedKid(t, Quadrant(t.cell, q.pos));
  }

  /** Exactly when a query at theta = 1/2 takes a cell that holds its own point: when one of the cells around
      the point is shorter than half the softened distance from the point to the cell's centre of mass. */
  lemma {:induction false} TakesOwnExactly(t: Tree, order: seq<nat>, q: Query, ps: seq<Vec2>, sqrt: real -> real)
    requires IsSqrt(sqrt) && q.theta == 0.5 && Holds(t, order, ps) && Placed(t.cell, order, ps)
    requires q.node in order && ps[q.node] == q.pos
    ensures TakesOwn(Visited(Finalized(t), q, sqrt), q) <==> Shadowed(Finalized(t), q.pos)
  {
    var f := Finalized(t);
    if t.Node? {
      OwnNode(t, order, q, ps);
      ShadowedStep(f, q.pos, sqrt);
      if Small(f.cell.half * 2.0, DistSq(f.com, q.pos), q.theta, sqrt) {
        assert Visited(f, q, sqrt) == [f];
      } else {
        var k := Quadrant(t.cell, q.pos);
        Quarter(t, order, ps, k);
        TakesOwnBelow(t, order, q, ps, sqrt);
        TakesOwnExactly(Kid(t, k), Part(t.cell, order, ps, k), q, ps, sqrt);
        FinalizedKid(t, k);
      }
    } else {
      assert Visited(f, q, sqrt) == [f];
    }
  }

  /** The half-side after `levels` splits is that of a tiny cell. */
  ghost predicate TinyAfter(half: real, levels: nat)
    decreases levels
  {
    if levels == 0 then TinySide(half) else TinyAfter(half / 2.0, levels - 1)
  }

  /** Two points that are not parted before the cells are tiny shadow each other. */
  lemma {:induction false} UnpartedShadowed(t: Tree, order: seq<nat>, ps: seq<Vec2>, i: nat, j: nat, levels: nat)
    requires Holds(t, order, ps) && Placed(t.cell, order, ps)
    requires i in order && j in order && i != j
    requires !Parts(t.cell, ps[i], ps[j], levels) && TinyAfter(t.cell.half, levels)
    ensures Shadowed(Finalized(t), ps[i])
    decreases levels
  {
    TwoListed(order, i, j);
    if levels > 0 {
      var k := Quadrant(t.cell, ps[i]);
      Quarter(t, order, ps, k);
      UnpartedShadowed(Kid(t, k), Part(t.cell, order, ps, k), ps, i, j, levels - 1);
      FinalizedKid(t, k);
    }
  }

  lemma TwoListed(order: seq<nat>, i: nat, j: nat)
    requires i in order && j in order && i != j
    ensures |order| >= 2
  {
  }
}
