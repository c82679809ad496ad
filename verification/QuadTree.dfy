// The mutable quadtree of src/force_layout_quad_tree.hpp.
module QuadTree {
  import opened Vectors
  import opened QuadTreeSpec
  import opened BarnesHut
  import opened QuadTreeTheorems

  class QuadTreeNode {
    const center: Vec2
    const halfSize: real
    var massCenter: Vec2
    var totalMass: real
    var indices: seq<nat>
    var isLeaf: bool
    var children: seq<QuadTreeNode>
    ghost var value: Tree  // the subtree as a value
    ghost var Repr: set<QuadTreeNode>

    function Square(): Cell {
      Cell(center, halfSize)
    }

    ghost predicate Valid()
      reads this, Repr
      ensures Valid() ==> this in Repr && value.cell == Square() && (value.Leaf? <==> isLeaf)
      decreases Repr
    {
      && this in Repr
      && (value.Leaf? <==> isLeaf)
      && value.cell == Square()
      && value.mass == totalMass && value.com == massCenter && value.indices == indices
      && (!isLeaf ==>
            && |children| == 4
            && Owns(children[0]) && Owns(children[1]) && Owns(children[2]) && Owns(children[3])
            && Apart(children[0].Repr, children[1].Repr, children[2].Repr, children[3].Repr)
            && value == Whole())
    }

    static ghost predicate Apart(a: set<QuadTreeNode>, b: set<QuadTreeNode>,
                                 c: set<QuadTreeNode>, d: set<QuadTreeNode>)
    {
      a !! b && a !! c && a !! d && b !! c && b !! d && c !! d
    }

    ghost predicate Owns(child: QuadTreeNode)
      reads this, Repr
      decreases Repr, 0
    {
      && child in Repr && child.Repr <= Repr && this in Repr && this !in child.Repr
      && child.Valid()
    }

    /** The children are four separate valid trees; nothing is said about this node's own fields. */
    ghost predicate Parted()
      reads this`isLeaf, this`children, children, set c, n | c in children && n in c.Repr :: n
    {
      && !isLeaf
      && |children| == 4
      && (forall q :: 0 <= q < 4 ==> children[q].Valid() && this !in children[q].Repr)
      && (forall q, r :: 0 <= q < r < 4 ==> children[q].Repr !! children[r].Repr)
    }

    /** Restores `value` alone, when no node has joined. */
    ghost method Refresh()
      requires Parted() && Family() <= Repr
      modifies this`value
      ensures Valid() && value == Whole()
    {
      value := Whole();
    }

    ghost function Family(): set<QuadTreeNode>
      requires |children| == 4
      reads this`children, children
    {
      {this} + children[0].Repr + children[1].Repr + children[2].Repr + children[3].Repr
    }

    ghost function Whole(): Tree
      requires |children| == 4
      reads this, children
    {
      Node(Square(), totalMass, massCenter, indices,
           children[0].value, children[1].value, children[2].value, children[3].value)
    }

    /** Restores the ghost fields after the children or this node's own fields have changed. */
    ghost method Adopt()
      requires Parted()
      modifies this`Repr, this`value
      ensures Valid() && Repr == Family()
      ensures value == Whole()
    {
      Repr := Family();
      value := Whole();
    }

    constructor (center: Vec2, halfSize: real)
      ensures IsNew(Cell(center, halfSize))
    {
      this.center, this.halfSize := center, halfSize;
      massCenter, totalMass := ZERO, 0.0;
      indices, isLeaf, children := [], true, [];
      value := Empty(Cell(center, halfSize));
      Repr := {this};
    }

    ghost predicate IsNew(c: Cell)
      reads this
    {
      Repr == {this} && Valid() && value == Empty(c)
    }

    method Subdivide()
      modifies this`children, this`isLeaf, this`value, this`Repr
      ensures Valid() && !isLeaf && fresh(Repr - {this})
      ensures value == Node(Square(), totalMass, massCenter, indices,
                            Empty(Child(Square(), 0)), Empty(Child(Square(), 1)),
                            Empty(Child(Square(), 2)), Empty(Child(Square(), 3)))
    {
      children := [];
      for i := 0 to 4
        invariant |children| == i
        invariant forall q :: 0 <= q < i ==> fresh(children[q]) && children[q].IsNew(Child(Square(), q))
        invariant forall q, r :: 0 <= q < r < i ==> children[q] != children[r]
      {
        var child := new QuadTreeNode(Child(Square(), i).center, halfSize / 2.0);
        children := children + [child];
      }
      isLeaf := false;
      AdoptNew();
    }

    ghost method AdoptNew()
      requires !isLeaf && |children| == 4
      requires forall q :: 0 <= q < 4 ==> children[q] != this && children[q].IsNew(Child(Square(), q))
      requires forall q, r :: 0 <= q < r < 4 ==> children[q] != children[r]
      modifies this`Repr, this`value
      ensures Valid() && Repr == {this, children[0], children[1], children[2], children[3]}
      ensures value == Node(Square(), totalMass, massCenter, indices,
                            Empty(Child(Square(), 0)), Empty(Child(Square(), 1)),
                            Empty(Child(Square(), 2)), Empty(Child(Square(), 3)))
    {
      Adopt();
    }

    /** What a change inside one child leaves alone. */
    twostate lemma OthersKept(quad: nat)
      requires old(Parted()) && quad < 4
      requires |children| == 4 && children == old(children) && !isLeaf
      requires forall n :: n in old(Family()) && n !in old(children[quad].Repr) ==> unchanged(n)
      requires children[quad].Valid() && fresh(children[quad].Repr - old(children[quad].Repr))
      ensures Parted() && fresh(Family() - old(Family()))
      ensures forall q :: 0 <= q < 4 && q != quad ==> Kid(Whole(), q) == old(Kid(Whole(), q))
      ensures Kid(Whole(), quad) == children[quad].value
    {
      forall q | 0 <= q < 4 && q != quad
        ensures children[q].Valid() && children[q].value == old(children[q].value)
        ensures children[q].Repr == old(children[q].Repr)
      {
        assert forall n :: n in old(children[q].Repr) ==> n !in old(children[quad].Repr) && unchanged(n);
      }
    }

    lemma ValidParted()
      requires Valid()
      ensures !isLeaf ==> Parted() && Family() <= Repr && value == Whole()
    {
    }

    /** Inserts a point. On a split the point that was here re-enters this same node, so its mass and
        position are counted a second time. */
    method Insert(index: nat, pos: Vec2, positions: seq<Vec2>, ghost order: seq<nat>, ghost levels: nat)
      requires Valid()
      requires index < |positions| && positions[index] == pos && index !in order
      requires Distinct(positions) && Accepts(value, order, positions)
      requires Settles(halfSize, Separation(positions), levels)
      modifies Repr
      ensures Valid() && fresh(Repr - old(Repr))
      ensures Inserted(old(value), value, order, index, positions)
      decreases levels, isLeaf, 4
    {
      if !InCell(Square(), pos) {
        return;
      }
      ValidParted();
      massCenter := Add(massCenter, pos);
      totalMass := totalMass + 1.0;
      if isLeaf {
        InsertIntoLeaf(index, pos, positions, order, levels);
      } else {
        InsertBelow(Quadrant(Square(), pos), index, pos, positions, order, levels);
      }
    }

    /** Insert into a leaf, once this node has counted the new point. */
    method InsertIntoLeaf(index: nat, pos: Vec2, positions: seq<Vec2>, ghost order: seq<nat>, ghost levels: nat)
      requires isLeaf && value.cell == Square() && value.Leaf? && this in Repr
      requires index < |positions| && positions[index] == pos && index !in order && InCell(Square(), pos)
      requires Distinct(positions) && Placed(Square(), order, positions)
      requires Settles(halfSize, Separation(positions), levels)
      requires |order| <= 1 && indices == order && totalMass == |order| as real + 1.0
      requires massCenter == Add(SumOf(At(positions), order), pos)
      modifies this
      ensures Valid() && fresh(Repr - {this} - old(Repr))
      ensures Holds(value, order + [index], positions) && value.cell == Square()
      decreases levels, true, 3
    {
      if |indices| < 1 {
        indices := indices + [index];
        value := Leaf(Square(), totalMass, massCenter, indices);
        LeafHolds(value, index, positions);
        assert order + [index] == [index];
      } else {
        PlacedAppend(Square(), order, index, positions);
        WideEnough(Square(), order + [index], positions);
        InsertIntoFull(index, pos, positions, order, levels);
        FullLeafCounts(At(positions), order, index);
      }
    }

    method InsertIntoFull(index: nat, pos: Vec2, positions: seq<Vec2>, ghost order: seq<nat>, ghost levels: nat)
      requires isLeaf && indices == order && |order| == 1
      requires index < |positions| && positions[index] == pos && index !in order && InCell(Square(), pos)
      requires Distinct(positions) && Placed(Square(), order, positions)
      requires 2.0 * halfSize > Separation(positions) && Settles(halfSize, Separation(positions), levels)
      modifies this
      ensures Valid() && fresh(Repr - {this})
      ensures value.Node? && KidsHold(value, order + [index], positions)
      ensures value.indices == [] && value.mass == old(totalMass) + 1.0
      ensures value.com == Add(old(massCenter), At(positions)(order[0]))
      decreases levels, true, 2
    {
      Split(positions, order, levels);
      indices := [];
      InsertBelow(Quadrant(Square(), pos), index, pos, positions, order, levels);
    }

    /** The split: the point of a full leaf goes on to one of four new children. */
    method Split(positions: seq<Vec2>, ghost order: seq<nat>, ghost levels: nat)
      requires isLeaf && indices == order && |order| == 1
      requires Distinct(positions) && Placed(Square(), order, positions)
      requires 2.0 * halfSize > Separation(positions) && Settles(halfSize, Separation(positions), levels)
      modifies this
      ensures Parted() && Family() <= Repr && fresh(Repr - {this})
      ensures KidsHold(Whole(), order, positions)
      ensures indices == order && totalMass == old(totalMass) + 1.0
      ensures massCenter == Add(old(massCenter), At(positions)(order[0]))
      decreases levels, true, 1
    {
      Subdivide();
      for k := 0 to |indices|
        invariant Valid() && !isLeaf && indices == order && fresh(Repr - {this})
        invariant KidsHold(value, order[..k], positions)
        invariant totalMass == old(totalMass) + k as real
        invariant massCenter == if k == 0 then old(massCenter) else Add(old(massCenter), At(positions)(order[0]))
      {
        assert order[..k] == [] && indices[k] in order && order[..k + 1] == [] + [indices[k]];
        Insert(indices[k], positions[indices[k]], positions, [], levels);
      }
      assert order[..1] == order;
      ValidParted();
    }

    /** The last step of Insert: the point goes on to the child whose quadrant it lies in. */
    method InsertBelow(quad: nat, index: nat, pos: Vec2, positions: seq<Vec2>, ghost order: seq<nat>,
                       ghost levels: nat)
      requires Parted() && Family() <= Repr
      requires index < |positions| && positions[index] == pos && index !in order
      requires Distinct(positions) && Placed(Square(), order, positions)
      requires InCell(Square(), pos) && quad == Quadrant(Square(), pos)
      requires 2.0 * halfSize > Separation(positions) && Settles(halfSize, Separation(positions), levels)
      requires KidsHold(Whole(), order, positions)
      modifies this`value, this`Repr, children[quad].Repr
      ensures Valid() && fresh(Repr - old(Repr)) && value == Whole()
      ensures KidsHold(value, order + [index], positions)
      decreases levels, false, 1
    {
      ghost var before, part := Whole(), Part(Square(), order, positions, quad);
      KidReady(before, order, index, positions);
      assert Kid(before, quad) == children[quad].value;
      InsertIntoChild(quad, index, pos, positions, part, levels - 1);
      KidInserted(before, children[quad].value, order, index, positions);
      Adopt();
      KidsShare(before, value, order, index, positions);
    }

    method InsertIntoChild(quad: nat, index: nat, pos: Vec2, positions: seq<Vec2>, ghost part: seq<nat>,
                           ghost levels: nat)
      requires Parted() && quad < 4
      requires index < |positions| && positions[index] == pos && index !in part
      requires Distinct(positions) && Accepts(children[quad].value, part, positions)
      requires Settles(children[quad].halfSize, Separation(positions), levels)
      modifies children[quad].Repr
      ensures Parted() && fresh(Family() - old(Family()))
      ensures forall q :: 0 <= q < 4 && q != quad ==> Kid(Whole(), q) == old(Kid(Whole(), q))
      ensures Kid(Whole(), quad) == children[quad].value
      ensures Inserted(old(children[quad].value), children[quad].value, part, index, positions)
      decreases levels, true, 5
    {
      children[quad].Insert(index, pos, positions, part, levels);
      OthersKept(quad);
    }

    /** Turns position sums into centres of mass, here and below. */
    method FinalizeMass()
      requires Valid()
      modifies Repr
      ensures Valid() && Repr == old(Repr)
      ensures value == Finalized(old(value))
      decreases value, 1
    {
      ValidParted();
      ghost var before := value;
      if totalMass > 0.0 {
        massCenter := Divide(massCenter, totalMass);
      }
      if !isLeaf {
        FinalizeChildren(before);
      } else {
        value := Leaf(Square(), totalMass, massCenter, indices);
      }
    }

    /** The loop over the children. */
    method FinalizeChildren(ghost before: Tree)
      requires before.Node? && Parted() && Family() <= Repr
      requires forall q :: 0 <= q < 4 ==> Kid(Whole(), q) == Kid(before, q)
      requires before.cell == Square() && totalMass == before.mass && indices == before.indices
      requires massCenter == Centre(before.mass, before.com)
      modifies Repr
      ensures Valid() && Repr == old(Repr) && value == Finalized(before)
      decreases before, 0
    {
      for i := 0 to 4
        invariant Parted() && children == old(children) && Family() == old(Family()) && Repr == old(Repr)
        invariant totalMass == before.mass && massCenter == Centre(before.mass, before.com) && indices == before.indices
        invariant forall q :: 0 <= q < 4 ==>
          Kid(Whole(), q) == if q < i then Finalized(Kid(before, q)) else Kid(before, q)
      {
        assert Kid(Whole(), i) == children[i].value == Kid(before, i);
        FinalizeChild(i);
      }
      Refresh();
      FinalizedFromKids(before, value);
    }

    method FinalizeChild(i: nat)
      requires Parted() && i < 4
      modifies children[i].Repr
      ensures Parted() && Family() == old(Family())
      ensures forall q :: 0 <= q < 4 && q != i ==> Kid(Whole(), q) == old(Kid(Whole(), q))
      ensures Kid(Whole(), i) == Finalized(old(Kid(Whole(), i)))
      decreases children[i].value, 2
    {
      children[i].FinalizeMass();
      OthersKept(i);
    }

    /** Adds to `force` the repulsion on the query's point of everything in this subtree. */
    method ComputeRepulsion(q: Query, force: Vec2, positions: seq<Vec2>, sqrt: real -> real) returns (total: Vec2)
      requires Valid() && IsSqrt(sqrt)
      requires Distinct(positions) && q.node < |positions| && positions[q.node] == q.pos
      requires LeavesSound(value, positions)
      ensures total == Add(force, Repulsion(value, q, positions, sqrt))
      decreases value, 1
    {
      total := force;
      if isLeaf {
        total := PushFromLeaf(q, force, positions, sqrt);
        RepulsionOfEnd(value, q, positions, sqrt);
      } else if Small(halfSize * 2.0, DistSq(massCenter, q.pos), q.theta, sqrt) {
        total := Add(total, CellForce(totalMass, massCenter, q, sqrt));
        RepulsionOfEnd(value, q, positions, sqrt);
      } else {
        total := PushFromChildren(q, force, positions, sqrt);
        RepulsionOfNode(value, q, positions, sqrt);
      }
    }

    /** The loop over the children of a node that is not taken whole. */
    method PushFromChildren(q: Query, force: Vec2, positions: seq<Vec2>, sqrt: real -> real) returns (total: Vec2)
      requires Valid() && !isLeaf && IsSqrt(sqrt)
      requires Distinct(positions) && q.node < |positions| && positions[q.node] == q.pos
      requires LeavesSound(value, positions)
      ensures total == Add(force, FirstKids(value, 4, q, positions, sqrt))
      decreases value, 0
    {
      ValidParted();
      total := force;
      for k := 0 to 4
        invariant total == Add(force, FirstKids(value, k, q, positions, sqrt))
      {
        assert Kid(value, k) == children[k].value;
        total := children[k].ComputeRepulsion(q, total, positions, sqrt);
      }
    }

    /** The loop over the indices of a leaf. */
    method PushFromLeaf(q: Query, force: Vec2, positions: seq<Vec2>, sqrt: real -> real) returns (total: Vec2)
      requires IsSqrt(sqrt)
      requires Distinct(positions) && q.node < |positions| && positions[q.node] == q.pos
      requires forall i :: i in indices ==> i < |positions|
      ensures total == Add(force, SumOf(PushOf(q, positions, sqrt), indices))
    {
      ghost var push := PushOf(q, positions, sqrt);
      total := force;
      for k := 0 to |indices|
        invariant total == Add(force, SumOf(push, indices[..k]))
      {
        var idx := indices[k];
        assert indices[..k + 1] == indices[..k] + [idx];
        SumStep(push, force, indices[..k], idx);
        if idx == q.node {
          AddZero(total);
          continue;
        }
        assert idx in indices;
        DistinctApart(positions, q.node, idx);
        var f := PairForce(q.strength, Sub(q.pos, positions[idx]), sqrt);
        assert f == push(idx);
        total := Add(total, f);
      }
      assert indices[..|indices|] == indices;
    }
  }
}
