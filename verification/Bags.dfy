// Sequences seen as filters and as bags of identifiers.
module Bags {

  /** The elements that satisfy p, in order. */
  function Filter<T>(p: T -> bool, s: seq<T>): seq<T> {
    if s == [] then [] else Filter(p, s[..|s| - 1]) + if p(s[|s| - 1]) then [s[|s| - 1]] else []
  }

  lemma FilterAppend<T>(p: T -> bool, s: seq<T>, x: T)
    ensures Filter(p, s + [x]) == Filter(p, s) + if p(x) then [x] else []
  {
    assert (s + [x])[..|s|] == s;
  }

  lemma {:induction false} FilterConcat<T>(p: T -> bool, s: seq<T>, t: seq<T>)
    ensures Filter(p, s + t) == Filter(p, s) + Filter(p, t)
    decreases |t|
  {
    if t == [] {
      assert s + t == s;
    } else {
      var init, x := t[..|t| - 1], t[|t| - 1];
      assert s + t == (s + init) + [x];
      FilterAppend(p, s + init, x);
      FilterConcat(p, s, init);
    }
  }

  function Not<T>(p: T -> bool): T -> bool {
    (x: T) => !p(x)
  }

  /** The identifiers of the elements. */
  function Ids<T>(id: T -> nat, s: seq<T>): (r: seq<nat>)
    ensures |r| == |s| && forall i :: 0 <= i < |s| ==> r[i] == id(s[i])
  {
    if s == [] then [] else Ids(id, s[..|s| - 1]) + [id(s[|s| - 1])]
  }

  lemma IdsAppend<T>(id: T -> nat, s: seq<T>, x: T)
    ensures Ids(id, s + [x]) == Ids(id, s) + [id(x)]
  {
  }

  lemma IdsTail<T>(id: T -> nat, s: seq<T>)
    requires s != []
    ensures Ids(id, s) == [id(s[0])] + Ids(id, s[1..])
  {
  }

  /** How many elements satisfy p. */
  function Count<T>(p: T -> bool, s: seq<T>): nat {
    if s == [] then 0 else Count(p, s[..|s| - 1]) + if p(s[|s| - 1]) then 1 else 0
  }

  lemma CountAppend<T>(p: T -> bool, s: seq<T>, x: T)
    ensures Count(p, s + [x]) == Count(p, s) + if p(x) then 1 else 0
  {
    assert (s + [x])[..|s|] == s;
  }

  lemma {:induction false} CountConcat<T>(p: T -> bool, s: seq<T>, t: seq<T>)
    ensures Count(p, s + t) == Count(p, s) + Count(p, t)
    decreases |t|
  {
    if t == [] {
      assert s + t == s;
    } else {
      var init, x := t[..|t| - 1], t[|t| - 1];
      assert s + t == (s + init) + [x];
      CountAppend(p, s + init, x);
      CountConcat(p, s, init);
    }
  }

  /** The list without its i-th element. */
  function Without<T>(s: seq<T>, i: nat): seq<T>
    requires i < |s|
  {
    s[..i] + s[i + 1..]
  }

  lemma SplitAt<T>(s: seq<T>, i: nat)
    requires i < |s|
    ensures s == s[..i] + [s[i]] + s[i + 1..]
  {
  }

  lemma CountMiddle<T>(p: T -> bool, front: seq<T>, x: T, back: seq<T>)
    ensures Count(p, front + [x] + back) == Count(p, front + back) + if p(x) then 1 else 0
  {
    CountConcat(p, front + [x], back);
    CountAppend(p, front, x);
    CountConcat(p, front, back);
  }

  lemma CountWithout<T>(p: T -> bool, s: seq<T>, i: nat)
    requires i < |s|
    ensures Count(p, s) == Count(p, Without(s, i)) + if p(s[i]) then 1 else 0
  {
    SplitAt(s, i);
    CountMiddle(p, s[..i], s[i], s[i + 1..]);
  }

  lemma CountUpdate<T>(p: T -> bool, s: seq<T>, i: nat, x: T)
    requires i < |s|
    ensures Count(p, s[i := x]) + (if p(s[i]) then 1 else 0) == Count(p, s) + if p(x) then 1 else 0
  {
    assert Without(s[i := x], i) == Without(s, i);
    CountWithout(p, s, i);
    CountWithout(p, s[i := x], i);
  }

  /** Splitting by a predicate loses and copies nothing. */
  lemma {:induction false} CountParts<T>(p: T -> bool, q: T -> bool, s: seq<T>)
    ensures Count(p, s) == Count(p, Filter(q, s)) + Count(p, Filter(Not(q), s))
  {
    if s != [] {
      var init, x := s[..|s| - 1], s[|s| - 1];
      CountParts(p, q, init);
      if q(x) {
        CountAppend(p, Filter(q, init), x);
        assert Filter(Not(q), init) + [] == Filter(Not(q), init);
      } else {
        CountAppend(p, Filter(Not(q), init), x);
        assert Filter(q, init) + [] == Filter(q, init);
      }
    }
  }

  /** Two elements that satisfy p make a count of two. */
  lemma CountTwo<T>(p: T -> bool, s: seq<T>, i: nat, j: nat)
    requires i < j < |s| && p(s[i]) && p(s[j])
    ensures Count(p, s) >= 2
  {
    CountWithout(p, s, j);
    CountWithout(p, Without(s, j), i);
  }

  lemma {:induction false} CountNone<T>(p: T -> bool, s: seq<T>)
    requires forall x :: x in s ==> !p(x)
    ensures Count(p, s) == 0
  {
    if s != [] {
      assert s[|s| - 1] in s;
      CountNone(p, s[..|s| - 1]);
    }
  }

  lemma {:induction false} FilterMembers<T>(p: T -> bool, s: seq<T>)
    ensures forall x :: x in Filter(p, s) <==> x in s && p(x)
  {
    if s != [] {
      var init, last := s[..|s| - 1], s[|s| - 1];
      FilterMembers(p, init);
      assert s == init + [last];
    }
  }

  lemma {:induction false} FilterNone<T>(p: T -> bool, s: seq<T>)
    requires forall x :: x in s ==> !p(x)
    ensures Filter(p, s) == []
  {
    if s != [] { FilterNone(p, s[..|s| - 1]); }
  }

  lemma {:induction false} FilterAll<T>(p: T -> bool, s: seq<T>)
    requires forall x :: x in s ==> p(x)
    ensures Filter(p, s) == s
  {
    if s != [] {
      var init, last := s[..|s| - 1], s[|s| - 1];
      assert s == init + [last];
      assert last in s && forall x :: x in init ==> x in s;
      FilterAll(p, init);
    }
  }
}
