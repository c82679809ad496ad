// The quadtree as a value: what the tree is after a list of points has been inserted, stated
// without insertion, by dividing the list among the four quarters of the square.
module QuadTreeSpec {
  import opened Reals
  import opened Vectors

  /** A half-open square. */
  datatype Cell = Cell(center: Vec2, half: real)

  predicate InCell(c: Cell, p: Vec2) {
    && c.center.x - c.half <= p.x < c.center.x + c.half
    && c.center.y - c.half <= p.y < c.center.y + c.half
  }

  /** 0 = SW, 1 = SE, 2 = NW, 3 = NE. */
  function Quadrant(c: Cell, p: Vec2): (q: nat)
    ensures q < 4
  {
    (if p.y >= c.center.y then 2 else 0) + (if p.x >= c.center.x then 1 else 0)
  }

  function Child(c: Cell, q: nat): Cell {
    var size := c.half / 2.0;
    var dx := if q % 2 == 1 then size else -size;
    var dy := if q / 2 % 2 == 1 then size else -size;
    Cell(Add(c.center, Vec2(dx, dy)), size)
  }

  /** The four children tile their parent, and getQuadrant names the tile. */
  lemma ChildrenTile(c: Cell, p: Vec2, q: nat)
    requires q < 4
    ensures InCell(Child(c, q), p) <==> InCell(c, p) && Quadrant(c, p) == q
  {
  }

  /** The tree of a node and everything below it. `com` is the accumulated position sum until the
      masses are finalised, and the centre of mass afterwards. */
  datatype Tree =
    | Leaf(cell: Cell, mass: real, com: Vec2, indices: seq<nat>)
    | Node(cell: Cell, mass: real, com: Vec2, indices: seq<nat>,
           sw: Tree, se: Tree, nw: Tree, ne: Tree)

  function Empty(c: Cell): Tree {
    Leaf(c, 0.0, ZERO, [])
  }

  function Kid(t: Tree, q: nat): (k: Tree)
    requires t.Node? && q < 4
    ensures k < t
  {
    if q == 0 then t.sw else if q == 1 then t.se else if q == 2 then t.nw else t.ne
  }

  // ---------------------------------------------------------------------------------------------
  // Separation of the points, and how many halvings of a square it takes to separate them

  predicate Distinct(ps: seq<Vec2>) {
    forall i, j :: 0 <= i < j < |ps| ==> ps[i] != ps[j]
  }

  function MaxNorm(a: Vec2, b: Vec2): real {
    Max(Abs(a.x - b.x), Abs(a.y - b.y))
  }

  /** Any two of the points are at least sep apart in the max norm. */
  ghost predicate Spaced(ps: seq<Vec2>, sep: real) {
    forall i, j :: 0 <= i < j < |ps| ==> MaxNorm(ps[i], ps[j]) >= sep
  }

  function SeparationFrom(p: Vec2, ps: seq<Vec2>): real {
    if ps == [] then 1.0 else Min(MaxNorm(p, ps[0]), SeparationFrom(p, ps[1..]))
  }

  /** A distance that separates every two of the points: the least max-norm distance, capped at 1. */
  function Separation(ps: seq<Vec2>): real {
    if ps == [] then 1.0 else Min(SeparationFrom(ps[0], ps[1..]), Separation(ps[1..]))
  }

  lemma {:induction false} SeparationFromSeparates(p: Vec2, ps: seq<Vec2>)
    ensures forall i :: 0 <= i < |ps| ==> SeparationFrom(p, ps) <= MaxNorm(p, ps[i])
    ensures SeparationFrom(p, ps) > 0.0 <==> p !in ps
  {
    if ps != [] {
      SeparationFromSeparates(p, ps[1..]);
      assert MaxNorm(p, ps[0]) > 0.0 <==> p != ps[0];
      assert ps == [ps[0]] + ps[1..];
      forall i | 0 <= i < |ps| ensures SeparationFrom(p, ps) <= MaxNorm(p, ps[i]) {
        if i > 0 { assert ps[i] == ps[1..][i - 1]; }
      }
    }
  }

  lemma {:induction false} SeparationSeparates(ps: seq<Vec2>)
    ensures Spaced(ps, Separation(ps))
    ensures Separation(ps) > 0.0 <==> Distinct(ps)
  {
    if ps != [] {
      var rest := ps[1..];
      SeparationSeparates(rest);
      SeparationFromSeparates(ps[0], rest);
      assert forall i :: 0 < i < |ps| ==> ps[i] == rest[i - 1];
      assert Distinct(ps) <==> ps[0] !in rest && Distinct(rest) by {
        if Distinct(ps) {
          forall i, j | 0 <= i < j < |rest| ensures rest[i] != rest[j] {
            assert ps[i + 1] != ps[j + 1];
          }
        }
      }
    }
  }

  /** Halvings until a square of half-side h is no wider than sep. */
  ghost function Levels(h: real, sep: real): nat
    requires sep > 0.0
    decreases if h <= 0.0 then 0 else (2.0 * h / sep).Floor
  {
    if 2.0 * h <= sep then 0
    else
      HalvingShrinks(2.0 * h / sep, h, sep);
      1 + Levels(h / 2.0, sep)
  }

  lemma HalvingShrinks(r: real, h: real, sep: real)
    requires sep > 0.0 && 2.0 * h > sep && r == 2.0 * h / sep
    ensures r > 1.0 && 2.0 * (h / 2.0) / sep == r / 2.0
    ensures 0 <= (r / 2.0).Floor < r.Floor
  {
    assert r * sep == 2.0 * h;
    assert (r - 1.0) * sep > 0.0;
    assert (r / 2.0) * sep == h;
  }

  /** A square of half-side h is no wider than sep after at most `levels` halvings. */
  ghost predicate Settles(h: real, sep: real, levels: nat)
    decreases levels
  {
    2.0 * h <= sep || (levels > 0 && Settles(h / 2.0, sep, levels - 1))
  }

  lemma {:induction false} LevelsSettle(h: real, sep: real)
    requires sep > 0.0
    ensures Settles(h, sep, Levels(h, sep))
    decreases Levels(h, sep)
  {
    if 2.0 * h > sep { LevelsSettle(h / 2.0, sep); }
  }

  // ---------------------------------------------------------------------------------------------
  // The canonical tree

  /** Every listed point exists and lies in the cell, and none is listed twice. */
  ghost predicate Placed(c: Cell, order: seq<nat>, ps: seq<Vec2>) {
    NoDup(order) && forall i :: i in order ==> i < |ps| && InCell(c, ps[i])
  }

  function At(ps: seq<Vec2>): nat -> Vec2 {
    (i: nat) => if i < |ps| then ps[i] else ZERO
  }

  /** The points of `order` that lie in quadrant q, in the same order. */
  ghost function Part(c: Cell, order: seq<nat>, ps: seq<Vec2>, q: nat): (part: seq<nat>)
    ensures forall i :: i in part <==> i in order && Quadrant(c, At(ps)(i)) == q
  {
    if order == [] then []
    else
      var init, last := order[..|order| - 1], order[|order| - 1];
      assert order == init + [last];
      Part(c, init, ps, q) + if Quadrant(c, At(ps)(last)) == q then [last] else []
  }

  lemma PartAppend(c: Cell, order: seq<nat>, i: nat, ps: seq<Vec2>, q: nat)
    ensures Part(c, order + [i], ps, q)
         == Part(c, order, ps, q) + if Quadrant(c, At(ps)(i)) == q then [i] else []
  {
    assert (order + [i])[..|order|] == order;
  }

  lemma {:induction false} PartPlaced(c: Cell, order: seq<nat>, ps: seq<Vec2>, q: nat)
    requires Placed(c, order, ps) && q < 4
    ensures Placed(Child(c, q), Part(c, order, ps, q), ps)
  {
    if order != [] {
      var init, last := order[..|order| - 1], order[|order| - 1];
      assert order == init + [last];
      assert last in order && Placed(c, init, ps);
      PartPlaced(c, init, ps, q);
      ChildrenTile(c, ps[last], q);
      assert last !in Part(c, init, ps, q);
    }
  }

  /** Two listed points in a cell: the cell is wider than their separation. */
  lemma WideEnough(c: Cell, order: seq<nat>, ps: seq<Vec2>)
    requires Placed(c, order, ps) && |order| >= 2
    ensures 2.0 * c.half > Separation(ps)
  {
    SeparationSeparates(ps);
    var i, j := order[0], order[1];
    assert i in order && j in order && i != j;
    assert MaxNorm(ps[i], ps[j]) < 2.0 * c.half;
    assert MaxNorm(ps[i], ps[j]) == MaxNorm(ps[j], ps[i]);
  }

  /** The tree is exactly what the points of `order` make of its cell when they arrive in that order:
      no point, an empty leaf; one point, a leaf that holds it; more, a node whose quarters share the
      points out. The node has counted its points once each, and the first of them once more. */
  ghost predicate Holds(t: Tree, order: seq<nat>, ps: seq<Vec2>)
    decreases t, 2
  {
    match t
    case Leaf(_, mass, com, indices) =>
      |order| <= 1 && indices == order && mass == |order| as real && com == SumOf(At(ps), order)
    case Node(_, mass, com, indices, _, _, _, _) =>
      && |order| >= 2 && indices == []
      && mass == |order| as real + 1.0
      && com == Add(SumOf(At(ps), order), At(ps)(order[0]))
      && KidsHold(t, order, ps)
  }

  /** The four quarters of a node share out the points of `order`. */
  ghost predicate KidsHold(t: Tree, order: seq<nat>, ps: seq<Vec2>)
    requires t.Node?
    decreases t, 1
  {
    && KidHolds(t.sw, t.cell, order, ps, 0) && KidHolds(t.se, t.cell, order, ps, 1)
    && KidHolds(t.nw, t.cell, order, ps, 2) && KidHolds(t.ne, t.cell, order, ps, 3)
  }

  ghost predicate KidHolds(kid: Tree, c: Cell, order: seq<nat>, ps: seq<Vec2>, q: nat)
    requires q < 4
    decreases kid, 3
  {
    kid.cell == Child(c, q) && Holds(kid, Part(c, order, ps, q), ps)
  }

  lemma PlacedAppend(c: Cell, order: seq<nat>, i: nat, ps: seq<Vec2>)
    requires Placed(c, order, ps) && i !in order && i < |ps| && InCell(c, ps[i])
    ensures Placed(c, order + [i], ps)
  {
  }

  /** The quarters of a node hold the parts of its points. */
  lemma Quarters(t: Tree, order: seq<nat>, ps: seq<Vec2>)
    requires t.Node? && Holds(t, order, ps)
    ensures t.sw.cell == Child(t.cell, 0) && Holds(t.sw, Part(t.cell, order, ps, 0), ps)
    ensures t.se.cell == Child(t.cell, 1) && Holds(t.se, Part(t.cell, order, ps, 1), ps)
    ensures t.nw.cell == Child(t.cell, 2) && Holds(t.nw, Part(t.cell, order, ps, 2), ps)
    ensures t.ne.cell == Child(t.cell, 3) && Holds(t.ne, Part(t.cell, order, ps, 3), ps)
  {
    assert KidsHold(t, order, ps);
    assert KidHolds(t.sw, t.cell, order, ps, 0) && KidHolds(t.se, t.cell, order, ps, 1);
    assert KidHolds(t.nw, t.cell, order, ps, 2) && KidHolds(t.ne, t.cell, order, ps, 3);
  }

  lemma QuarterHolds(t: Tree, order: seq<nat>, ps: seq<Vec2>, q: nat)
    requires t.Node? && Holds(t, order, ps) && q < 4
    ensures Kid(t, q).cell == Child(t.cell, q)
    ensures Holds(Kid(t, q), Part(t.cell, order, ps, q), ps)
  {
    assert KidsHold(t, order, ps);
    if q == 0 {
      assert KidHolds(t.sw, t.cell, order, ps, 0);
    } else if q == 1 {
      assert KidHolds(t.se, t.cell, order, ps, 1);
    } else if q == 2 {
      assert KidHolds(t.nw, t.cell, order, ps, 2);
    } else {
      assert KidHolds(t.ne, t.cell, order, ps, 3);
    }
  }

  /** One quarter: its cell, and the points that it holds. */
  lemma Quarter(t: Tree, order: seq<nat>, ps: seq<Vec2>, q: nat)
    requires t.Node? && Holds(t, order, ps) && Placed(t.cell, order, ps) && q < 4
    ensures Kid(t, q).cell == Child(t.cell, q)
    ensures Holds(Kid(t, q), Part(t.cell, order, ps, q), ps)
    ensures Placed(Kid(t, q).cell, Part(t.cell, order, ps, q), ps)
  {
    QuarterHolds(t, order, ps, q);
    PartPlaced(t.cell, order, ps, q);
  }

  /** When a point has gone to the child of its quadrant, the children share out the longer list. */
  lemma KidHoldsAfter(kid: Tree, c: Cell, order: seq<nat>, i: nat, ps: seq<Vec2>, q: nat)
    requires q < 4
    requires if Quadrant(c, At(ps)(i)) == q then kid.cell == Child(c, q) && Holds(kid, Part(c, order, ps, q) + [i], ps)
             else KidHolds(kid, c, order, ps, q)
    ensures KidHolds(kid, c, order + [i], ps, q)
  {
    PartAppend(c, order, i, ps, q);
    assert Part(c, order, ps, q) + [] == Part(c, order, ps, q);
  }

  lemma LeafHolds(t: Tree, i: nat, ps: seq<Vec2>)
    requires t.Leaf? && t.indices == [i] && t.mass == 1.0 && t.com == Add(ZERO, At(ps)(i))
    ensures Holds(t, [i], ps)
  {
    SumAppend(At(ps), [], i);
    assert [] + [i] == [i];
  }

  /** The accumulators of a node, one point later. */
  lemma NodeCounts(f: nat -> Vec2, s: seq<nat>, i: nat)
    requires s != []
    ensures |s + [i]| as real == |s| as real + 1.0
    ensures Add(SumOf(f, s + [i]), f((s + [i])[0])) == Add(Add(SumOf(f, s), f(s[0])), f(i))
  {
    SumAppend(f, s, i);
  }

  /** A leaf's one point and the new one, and the first of them once more. */
  lemma FullLeafCounts(f: nat -> Vec2, s: seq<nat>, i: nat)
    requires |s| == 1
    ensures |s + [i]| == 2
    ensures Add(SumOf(f, s + [i]), f((s + [i])[0])) == Add(Add(SumOf(f, s), f(i)), f(s[0]))
  {
    SumAppend(f, s, i);
  }

  /** The tree can take one more point: a leaf holds exactly `order`; of a node only the children do,
      which is all that is left of it while it is being split. */
  ghost predicate Accepts(t: Tree, order: seq<nat>, ps: seq<Vec2>) {
    && Placed(t.cell, order, ps)
    && (t.Leaf? ==> Holds(t, order, ps))
    && (t.Node? ==> KidsHold(t, order, ps) && 2.0 * t.cell.half > Separation(ps))
  }

  /** What inserting point i into such a tree makes of it. */
  ghost predicate Inserted(t: Tree, t2: Tree, order: seq<nat>, i: nat, ps: seq<Vec2>)
    requires i < |ps|
  {
    && t2.cell == t.cell
    && if !InCell(t.cell, ps[i]) then t2 == t
       else if t.Leaf? then Holds(t2, order + [i], ps)
       else
         && t2.Node? && KidsHold(t2, order + [i], ps) && t2.indices == t.indices
         && t2.mass == t.mass + 1.0 && t2.com == Add(t.com, ps[i])
  }

  lemma HoldsAccepts(t: Tree, order: seq<nat>, ps: seq<Vec2>)
    requires Holds(t, order, ps) && Placed(t.cell, order, ps)
    ensures Accepts(t, order, ps)
  {
    if t.Node? { WideEnough(t.cell, order, ps); }
  }

  /** Insertion into the tree of a list gives the tree of the longer list. */
  lemma InsertedHolds(t: Tree, t2: Tree, order: seq<nat>, i: nat, ps: seq<Vec2>)
    requires Holds(t, order, ps) && i < |ps| && InCell(t.cell, ps[i])
    requires Inserted(t, t2, order, i, ps)
    ensures Holds(t2, order + [i], ps)
  {
    if t.Node? { NodeCounts(At(ps), order, i); }
  }

  lemma KidHeld(t: Tree, order: seq<nat>, ps: seq<Vec2>, q: nat)
    requires t.Node? && KidsHold(t, order, ps) && q < 4
    ensures Kid(t, q).cell == Child(t.cell, q) && Holds(Kid(t, q), Part(t.cell, order, ps, q), ps)
  {
    assert KidHolds(Kid(t, q), t.cell, order, ps, q);
  }

  /** The child that a new point of the cell belongs to can take it. */
  lemma KidReady(t: Tree, order: seq<nat>, i: nat, ps: seq<Vec2>)
    requires t.Node? && KidsHold(t, order, ps) && Placed(t.cell, order, ps)
    requires i < |ps| && i !in order && InCell(t.cell, ps[i])
    ensures var q := Quadrant(t.cell, ps[i]); var part := Part(t.cell, order, ps, q);
      Kid(t, q).cell == Child(t.cell, q) && i !in part && Accepts(Kid(t, q), part, ps)
  {
    var q := Quadrant(t.cell, ps[i]);
    PartPlaced(t.cell, order, ps, q);
    HoldsAccepts(Kid(t, q), Part(t.cell, order, ps, q), ps);
  }

  lemma KidInserted(t: Tree, kid: Tree, order: seq<nat>, i: nat, ps: seq<Vec2>)
    requires t.Node? && KidsHold(t, order, ps) && i < |ps| && InCell(t.cell, ps[i])
    requires var q := Quadrant(t.cell, ps[i]); Inserted(Kid(t, q), kid, Part(t.cell, order, ps, q), i, ps)
    ensures var q := Quadrant(t.cell, ps[i]);
      kid.cell == Child(t.cell, q) && Holds(kid, Part(t.cell, order, ps, q) + [i], ps)
  {
    var q := Quadrant(t.cell, ps[i]);
    ChildrenTile(t.cell, ps[i], q);
    KidHeld(t, order, ps, q);
    InsertedHolds(Kid(t, q), kid, Part(t.cell, order, ps, q), i, ps);
  }

  /** Once the child has taken the point, the children share out the longer list. */
  lemma KidsShare(t: Tree, t2: Tree, order: seq<nat>, i: nat, ps: seq<Vec2>)
    requires t.Node? && t2.Node? && t2.cell == t.cell && KidsHold(t, order, ps)
    requires var q := Quadrant(t.cell, At(ps)(i));
      && (forall r :: 0 <= r < 4 && r != q ==> Kid(t2, r) == Kid(t, r))
      && Kid(t2, q).cell == Child(t.cell, q) && Holds(Kid(t2, q), Part(t.cell, order, ps, q) + [i], ps)
    ensures KidsHold(t2, order + [i], ps)
  {
    assert Kid(t2, 0) == t2.sw && Kid(t2, 1) == t2.se && Kid(t2, 2) == t2.nw && Kid(t2, 3) == t2.ne;
    assert Kid(t, 0) == t.sw && Kid(t, 1) == t.se && Kid(t, 2) == t.nw && Kid(t, 3) == t.ne;
    KidHoldsAfter(t2.sw, t.cell, order, i, ps, 0);
    KidHoldsAfter(t2.se, t.cell, order, i, ps, 1);
    KidHoldsAfter(t2.nw, t.cell, order, i, ps, 2);
    KidHoldsAfter(t2.ne, t.cell, order, i, ps, 3);
  }
}
