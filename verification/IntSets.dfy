/** Turning facts about every element into facts about whole sets of ids. */
module IntSets {

  lemma PickOne<T>(s: set<T>) returns (x: T)
    requires s != {}
    ensures x in s
  {
    x :| x in s;
  }

  lemma SubsetByElements(s: set<int>, t: set<int>)
    requires forall x | x in s :: x in t
    ensures s <= t
  {
    if s - t != {} {
      var x := PickOne(s - t);
    }
    assert s == (s - t) + (s * t);
  }

  lemma SameByElements(s: set<int>, t: set<int>)
    requires forall x :: x in s <==> x in t
    ensures s == t
  {
    SubsetByElements(s, t);
    SubsetByElements(t, s);
  }

  lemma DisjointByElements(s: set<int>, t: set<int>)
    requires forall x | x in s :: x !in t
    ensures s !! t
  {
    if s * t != {} {
      var x := PickOne(s * t);
    }
    DisjointByMeet(s, t);
  }

  lemma DisjointByMeet<T>(s: set<T>, t: set<T>)
    requires s * t == {}
    ensures s !! t
  {
    forall x | x in s
      ensures x !in t
    {
      assert x in t ==> x in s * t;
    }
  }

  lemma SubsetByDifference<T>(s: set<T>, t: set<T>)
    requires s - t == {}
    ensures s <= t
  {
    forall x | x in s
      ensures x in t
    {
      assert x !in t ==> x in s - t;
    }
  }

  lemma SubsetSize(a: set<int>, b: set<int>)
    requires a <= b
    ensures |a| <= |b|
    ensures |a| == |b| ==> a == b
  {
    assert b == a + (b - a);
    assert |b| == |a| + |b - a|;
  }

  predicate IsId(x: int, n: nat) {
    0 <= x < n
  }

  function Ids(n: nat): set<int> {
    set x | 0 <= x < n && IsId(x, n)
  }

  lemma {:induction false} IdsSize(n: nat)
    ensures |Ids(n)| == n
  {
    if n == 0 {
      SameByElements(Ids(n), {});
    } else {
      IdsSize(n - 1);
      SameByElements(Ids(n), Ids(n - 1) + {n - 1});
    }
  }
}
