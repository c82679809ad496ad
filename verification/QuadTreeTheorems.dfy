// What the tree of src/force_layout_quad_tree.hpp promises, for every list of points inserted.
module QuadTreeTheorems {
  import opened Reals
  import opened Vectors
  import opened QuadTreeSpec

  // ---------------------------------------------------------------------------------------------
  // Which points are where

  /** The indices in the leaves, in the order of the quarters. */
  ghost function Points(t: Tree): seq<nat> {
    match t
    case Leaf(_, _, _, indices) => indices
    case Node(_, _, _, _, sw, se, nw, ne) => Points(sw) + Points(se) + Points(nw) + Points(ne)
  }

  lemma {:induction false} PartsMakeWhole(c: Cell, order: seq<nat>, ps: seq<Vec2>)
    ensures multiset(Part(c, order, ps, 0)) + multiset(Part(c, order, ps, 1))
          + multiset(Part(c, order, ps, 2)) + multiset(Part(c, order, ps, 3)) == multiset(order)
  {
    if order != [] {
      var init, last := order[..|order| - 1], order[|order| - 1];
      assert order == init + [last];
      PartsMakeWhole(c, init, ps);
    }
  }

  /** No point is lost and none is copied: the leaves hold the inserted indices, each once. */
  lemma {:induction false} PointsAreOrder(t: Tree, order: seq<nat>, ps: seq<Vec2>)
    requires Holds(t, order, ps)
    ensures multiset(Points(t)) == multiset(order)
  {
    if t.Node? {
      Quarters(t, order, ps);
      PointsAreOrder(t.sw, Part(t.cell, order, ps, 0), ps);
      PointsAreOrder(t.se, Part(t.cell, order, ps, 1), ps);
      PointsAreOrder(t.nw, Part(t.cell, order, ps, 2), ps);
      PointsAreOrder(t.ne, Part(t.cell, order, ps, 3), ps);
      PartsMakeWhole(t.cell, order, ps);
    }
  }

  /** Every leaf holds at most one index, of a point in the leaf's cell; nodes hold none. */
  ghost predicate LeavesSound(t: Tree, ps: seq<Vec2>) {
    match t
    case Leaf(c, _, _, indices) => |indices| <= 1 && forall i :: i in indices ==> i < |ps| && InCell(c, ps[i])
    case Node(_, _, _, indices, sw, se, nw, ne) =>
      indices == [] && LeavesSound(sw, ps) && LeavesSound(se, ps) && LeavesSound(nw, ps) && LeavesSound(ne, ps)
  }

  lemma {:induction false} HoldsLeavesSound(t: Tree, order: seq<nat>, ps: seq<Vec2>)
    requires Holds(t, order, ps) && Placed(t.cell, order, ps)
    ensures LeavesSound(t, ps)
  {
    if t.Node? {
      forall q: nat | q < 4 ensures LeavesSound(Kid(t, q), ps) {
        Quarter(t, order, ps, q);
        HoldsLeavesSound(Kid(t, q), Part(t.cell, order, ps, q), ps);
      }
      assert Kid(t, 0) == t.sw && Kid(t, 1) == t.se && Kid(t, 2) == t.nw && Kid(t, 3) == t.ne;
    }
  }

  /** The insertion order fixes the whole tree: cells, masses, sums and leaves. */
  lemma {:induction false} TreeDetermined(t: Tree, u: Tree, order: seq<nat>, ps: seq<Vec2>)
    requires Holds(t, order, ps) && Holds(u, order, ps) && t.cell == u.cell
    ensures t == u
  {
    if t.Node? {
      var c := t.cell;
      Quarters(t, order, ps);
      Quarters(u, order, ps);
      TreeDetermined(t.sw, u.sw, Part(c, order, ps, 0), ps);
      TreeDetermined(t.se, u.se, Part(c, order, ps, 1), ps);
      TreeDetermined(t.nw, u.nw, Part(c, order, ps, 2), ps);
      TreeDetermined(t.ne, u.ne, Part(c, order, ps, 3), ps);
    }
  }

  // ---------------------------------------------------------------------------------------------
  // Exact mass accounting, in terms of the inserted points that lie in each cell

  /** The inserted points that lie in a cell, in insertion order. */
  ghost function Reached(c: Cell, order: seq<nat>, ps: seq<Vec2>): seq<nat> {
    if order == [] then []
    else
      var init, last := order[..|order| - 1], order[|order| - 1];
      Reached(c, init, ps) + if InCell(c, At(ps)(last)) then [last] else []
  }

  /** A leaf counts the points of its cell; a node counts them, and the first to arrive once more. */
  ghost predicate Accounts(t: Tree, order: seq<nat>, ps: seq<Vec2>) {
    var here := Reached(t.cell, order, ps);
    match t
    case Leaf(_, mass, com, _) => mass == |here| as real && com == SumOf(At(ps), here)
    case Node(_, mass, com, _, sw, se, nw, ne) =>
      && |here| >= 2
      && mass == |here| as real + 1.0
      && com == Add(SumOf(At(ps), here), At(ps)(here[0]))
      && Accounts(sw, order, ps) && Accounts(se, order, ps) && Accounts(nw, order, ps) && Accounts(ne, order, ps)
  }

  lemma {:induction false} PartIsReached(c: Cell, order: seq<nat>, ps: seq<Vec2>, q: nat)
    requires q < 4
    ensures Part(c, Reached(c, order, ps), ps, q) == Reached(Child(c, q), order, ps)
  {
    if order != [] {
      var init, last := order[..|order| - 1], order[|order| - 1];
      PartIsReached(c, init, ps, q);
      ChildrenTile(c, At(ps)(last), q);
      if InCell(c, At(ps)(last)) {
        PartAppend(c, Reached(c, init, ps), last, ps, q);
      } else {
        assert Reached(c, order, ps) == Reached(c, init, ps);
      }
    }
  }

  lemma {:induction false} HoldsAccounts(t: Tree, order: seq<nat>, ps: seq<Vec2>)
    requires Holds(t, Reached(t.cell, order, ps), ps)
    ensures Accounts(t, order, ps)
  {
    if t.Node? {
      Quarters(t, Reached(t.cell, order, ps), ps);
      PartIsReached(t.cell, order, ps, 0);
      PartIsReached(t.cell, order, ps, 1);
      PartIsReached(t.cell, order, ps, 2);
      PartIsReached(t.cell, order, ps, 3);
      HoldsAccounts(t.sw, order, ps);
      HoldsAccounts(t.se, order, ps);
      HoldsAccounts(t.nw, order, ps);
      HoldsAccounts(t.ne, order, ps);
    }
  }

  lemma {:induction false} AllReached(c: Cell, order: seq<nat>, ps: seq<Vec2>)
    requires Placed(c, order, ps)
    ensures Reached(c, order, ps) == order
  {
    if order != [] {
      var init, last := order[..|order| - 1], order[|order| - 1];
      assert order == init + [last] && last in order && Placed(c, init, ps);
      AllReached(c, init, ps);
    }
  }

  lemma MassAccounting(t: Tree, order: seq<nat>, ps: seq<Vec2>)
    requires Holds(t, order, ps) && Placed(t.cell, order, ps)
    ensures Accounts(t, order, ps)
  {
    AllReached(t.cell, order, ps);
    HoldsAccounts(t, order, ps);
  }

  // ---------------------------------------------------------------------------------------------
  // Depth, and which inputs insertion terminates on

  ghost function Height(t: Tree): nat {
    if t.Leaf? then 0 else 1 + MaxNat(MaxNat(Height(t.sw), Height(t.se)), MaxNat(Height(t.nw), Height(t.ne)))
  }

  function MaxNat(a: nat, b: nat): nat {
    if a < b then b else a
  }

  function Pow2(k: nat): real {
    if k == 0 then 1.0 else 2.0 * Pow2(k - 1)
  }

  lemma {:induction false} PowSettles(h: real, sep: real, k: nat)
    requires 2.0 * h <= sep * Pow2(k)
    ensures Settles(h, sep, k)
    decreases k
  {
    if k > 0 && 2.0 * h > sep {
      assert sep * Pow2(k) == 2.0 * (sep * Pow2(k - 1));
      PowSettles(h / 2.0, sep, k - 1);
    }
  }

  lemma WiderThan(c: Cell, order: seq<nat>, ps: seq<Vec2>, sep: real)
    requires Placed(c, order, ps) && |order| >= 2 && Spaced(ps, sep)
    ensures sep < 2.0 * c.half
  {
    var i, j := order[0], order[1];
    assert i in order && j in order && i != j;
    assert MaxNorm(ps[i], ps[j]) == MaxNorm(ps[j], ps[i]) < 2.0 * c.half;
  }

  /** With points at least sep apart, the tree is no deeper than the halvings that reach sep. */
  lemma {:induction false} HeightBound(t: Tree, order: seq<nat>, ps: seq<Vec2>, sep: real, k: nat)
    requires Holds(t, order, ps) && Placed(t.cell, order, ps) && Spaced(ps, sep)
    requires Settles(t.cell.half, sep, k)
    ensures Height(t) <= k
  {
    if t.Node? {
      WiderThan(t.cell, order, ps, sep);
      forall q: nat | q < 4 ensures Height(Kid(t, q)) <= k - 1 {
        Quarter(t, order, ps, q);
        HeightBound(Kid(t, q), Part(t.cell, order, ps, q), ps, sep, k - 1);
      }
      assert Kid(t, 0) == t.sw && Kid(t, 1) == t.se && Kid(t, 2) == t.nw && Kid(t, 3) == t.ne;
    }
  }

  /** The depth is logarithmic: at most k once the root's side is at most sep * 2^k. */
  lemma HeightLogarithmic(t: Tree, order: seq<nat>, ps: seq<Vec2>, sep: real, k: nat)
    requires Holds(t, order, ps) && Placed(t.cell, order, ps) && Spaced(ps, sep)
    requires 2.0 * t.cell.half <= sep * Pow2(k)
    ensures Height(t) <= k
  {
    PowSettles(t.cell.half, sep, k);
    HeightBound(t, order, ps, sep, k);
  }

  /** Some split among the first k levels sends the two points to different quarters. */
  ghost predicate Parts(c: Cell, p: Vec2, r: Vec2, k: nat)
    decreases k
  {
    k > 0 && (Quadrant(c, p) != Quadrant(c, r) || Parts(Child(c, Quadrant(c, p)), p, r, k - 1))
  }

  /** `Parts`, named at a definite depth. */
  ghost predicate PartedAt(c: Cell, p: Vec2, r: Vec2, k: nat) {
    Parts(c, p, r, k)
  }

  lemma {:induction false} SettledPointsPart(c: Cell, p: Vec2, r: Vec2, k: nat)
    requires InCell(c, p) && InCell(c, r) && Settles(c.half, MaxNorm(p, r), k)
    ensures Parts(c, p, r, k)
    decreases k
  {
    assert MaxNorm(p, r) < 2.0 * c.half;
    if Quadrant(c, p) == Quadrant(c, r) {
      ChildrenTile(c, p, Quadrant(c, p));
      ChildrenTile(c, r, Quadrant(c, p));
      SettledPointsPart(Child(c, Quadrant(c, p)), p, r, k - 1);
    }
  }

  lemma {:induction false} SamePointNeverParts(c: Cell, p: Vec2, k: nat)
    ensures !Parts(c, p, p, k)
    decreases k
  {
    if k > 0 { SamePointNeverParts(Child(c, Quadrant(c, p)), p, k - 1); }
  }

  /** Splitting ends exactly for distinct points: two points of a cell are parted at some depth if and
      only if they differ. */
  lemma SplittingEndsIffDistinct(c: Cell, p: Vec2, r: Vec2)
    requires InCell(c, p) && InCell(c, r)
    ensures (exists k: nat :: PartedAt(c, p, r, k)) <==> p != r
  {
    if p == r {
      forall k: nat { SamePointNeverParts(c, p, k); }
    } else {
      assert MaxNorm(p, r) > 0.0;
      LevelsSettle(c.half, MaxNorm(p, r));
      var k := Levels(c.half, MaxNorm(p, r));
      SettledPointsPart(c, p, r, k);
      assert PartedAt(c, p, r, k);
    }
  }
}
