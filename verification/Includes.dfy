/** std::includes over whatever order the sets happen to be iterated in. */
module Includes {
  import opened IntSets

  ghost predicate Ascending(a: seq<int>) {
    forall i, j | 0 <= i < j < |a| :: a[i] < a[j]
  }

  /** The answer of std::includes on ranges in any order. */
  function Walk(a: seq<int>, b: seq<int>): bool {
    if b == [] then true
    else if a == [] || b[0] < a[0] then false
    else if a[0] < b[0] then Walk(a[1..], b)
    else Walk(a[1..], b[1..])
  }

  method StdIncludes(a: seq<int>, b: seq<int>) returns (r: bool)
    ensures r == Walk(a, b)
  {
    var i, j := 0, 0;
    while j < |b|
      invariant 0 <= i <= |a| && 0 <= j <= |b|
      invariant Walk(a, b) == Walk(a[i..], b[j..])
      decreases |b| - j + |a| - i
    {
      if i == |a| || b[j] < a[i] { return false; }
      if !(a[i] < b[j]) {
        j := j + 1;
      }
      i := i + 1;
    }
    return true;
  }

  /** A positive answer can be trusted in any order. */
  lemma {:induction false} WalkSound(a: seq<int>, b: seq<int>)
    requires Walk(a, b)
    ensures forall x | x in b :: x in a
    decreases |a|
  {
    if b != [] {
      assert a == [a[0]] + a[1..] && b == [b[0]] + b[1..];
      if a[0] < b[0] { WalkSound(a[1..], b); } else { WalkSound(a[1..], b[1..]); }
    }
  }

  /** A negative answer can only be trusted if both ranges ascend. */
  lemma {:induction false} WalkExact(a: seq<int>, b: seq<int>)
    requires Ascending(a) && Ascending(b)
    ensures Walk(a, b) <==> forall x | x in b :: x in a
    decreases |a|
  {
    if Walk(a, b) { WalkSound(a, b); }
    if b != [] {
      assert b[0] in b;
      if a != [] && !(b[0] < a[0]) {
        if a[0] < b[0] {
          WalkExact(a[1..], b);
          assert a == [a[0]] + a[1..];
        } else {
          WalkExact(a[1..], b[1..]);
          assert a == [a[0]] + a[1..] && b == [b[0]] + b[1..];
          assert forall x | x in b[1..] :: x in b && x != a[0];
        }
      } else if a != [] {
        assert forall x | x in a :: b[0] < x;
      }
    }
  }

  lemma WalkMisses()
    ensures !Walk([2, 1], [1]) && 1 in [2, 1]
  {
    assert [2, 1][1] == 1;
  }

  /** a is s, each element once, in some order. */
  ghost predicate Lists(a: seq<int>, s: set<int>) {
    && (forall x :: x in a <==> x in s)
    && forall i, j | 0 <= i < j < |a| :: a[i] != a[j]
  }

  lemma {:induction false} ListSize(a: seq<int>, s: set<int>)
    requires Lists(a, s)
    ensures |a| == |s|
    decreases |a|
  {
    if a == [] {
      if s != {} { var x := PickOne(s); }
    } else {
      var init, x := a[..|a| - 1], a[|a| - 1];
      assert a == init + [x];
      forall y ensures y in init <==> y in s - {x} {
        if y in init { var i :| 0 <= i < |init| && init[i] == y; assert a[i] == y; }
      }
      ListSize(init, s - {x});
    }
  }

  lemma {:induction false} WalkShort(a: seq<int>, b: seq<int>)
    requires |a| < |b|
    ensures !Walk(a, b)
    decreases |a|
  {
    if a != [] && b != [] {
      if a[0] < b[0] {
        WalkShort(a[1..], b);
      } else {
        WalkShort(a[1..], b[1..]);
      }
    }
  }

  /** Ranges of one length: the answer is yes only for the very same sequence. */
  lemma {:induction false} WalkEqual(a: seq<int>, b: seq<int>)
    requires |a| == |b|
    ensures Walk(a, b) <==> a == b
    decreases |a|
  {
    if a != [] {
      WalkEqual(a[1..], b[1..]);
      WalkShort(a[1..], b);
      assert a == [a[0]] + a[1..] && b == [b[0]] + b[1..];
    }
  }

  /** The same set, listed twice: included exactly if listed in the same order. */
  lemma WalkSameSet(a: seq<int>, b: seq<int>, s: set<int>)
    requires Lists(a, s) && Lists(b, s)
    ensures Walk(a, b) <==> a == b
  {
    ListSize(a, s);
    ListSize(b, s);
    WalkEqual(a, b);
  }

  /** How the open set is iterated in each round of a step. */
  type Listing = (nat, set<int>) -> seq<int>

  ghost predicate Lister(order: Listing) {
    forall k: nat, s: set<int> :: Lists(order(k, s), s)
  }

  lemma {:induction false} MinExists(s: set<int>)
    requires s != {}
    ensures exists x :: x in s && forall y | y in s :: x <= y
  {
    var x := PickOne(s);
    if s - {x} == {} {
      SubsetByDifference(s, {x});
      assert x in s && forall y | y in s :: x <= y;
    } else {
      MinExists(s - {x});
      var m :| m in s - {x} && forall y | y in s - {x} :: m <= y;
      var l := if x < m then x else m;
      forall y | y in s
        ensures l <= y
      {
        assert y == x || y in s - {x};
      }
      assert l in s;
    }
  }

  lemma SmallestFirst(m: int, rest: seq<int>, s: set<int>)
    requires m in s && (forall y | y in s :: m <= y) && Lists(rest, s - {m}) && Ascending(rest)
    ensures Lists([m] + rest, s) && Ascending([m] + rest)
  {
    var a := [m] + rest;
    forall i | 0 <= i < |rest| ensures m < rest[i] {
      assert rest[i] in rest;
    }
    assert forall i | 0 < i < |a| :: a[i] == rest[i - 1];
    assert Ascending(a);
    forall x ensures x in a <==> x in s {
      assert x in a <==> x == m || x in rest;
    }
  }

  /** One way to iterate. */
  ghost function Sorted(s: set<int>): (a: seq<int>)
    ensures Lists(a, s) && Ascending(a)
  {
    if s == {} then []
    else
      MinExists(s);
      var m :| m in s && forall y | y in s :: m <= y;
      var rest := Sorted(s - {m});
      SmallestFirst(m, rest, s);
      [m] + rest
  }
}
