/** The sanity checks of the StrongMaster constructor, and which order trees pass them. */
module RendCheck {
  import opened IntSets
  import opened RendCompiler

  function ParentCount(rends: seq<Rend>, x: int): nat {
    if rends == [] then 0 else (if x in rends[0].parents then 1 else 0) + ParentCount(rends[1..], x)
  }

  function ChildCount(rends: seq<Rend>, x: int): nat {
    if rends == [] then 0 else (if x in rends[0].children then 1 else 0) + ChildCount(rends[1..], x)
  }

  /** Every client is a parent of exactly one rend and a child of exactly one; nobody else occurs. */
  ghost predicate Accepted(rends: seq<Rend>, n: nat) {
    && |rends| >= 2
    && forall x :: ParentCount(rends, x) == ChildCount(rends, x) == if 0 <= x < n then 1 else 0
  }

  lemma {:induction false} CountConcat(a: seq<Rend>, b: seq<Rend>, x: int)
    ensures ParentCount(a + b, x) == ParentCount(a, x) + ParentCount(b, x)
    ensures ChildCount(a + b, x) == ChildCount(a, x) + ChildCount(b, x)
  {
    if a == [] {
      assert a + b == b;
    } else {
      assert (a + b)[1..] == a[1..] + b;
      CountConcat(a[1..], b, x);
    }
  }

  lemma CountSnoc(rends: seq<Rend>, i: nat, x: int)
    requires i < |rends|
    ensures ParentCount(rends[..i + 1], x) == ParentCount(rends[..i], x) + if x in rends[i].parents then 1 else 0
    ensures ChildCount(rends[..i + 1], x) == ChildCount(rends[..i], x) + if x in rends[i].children then 1 else 0
  {
    assert rends[..i + 1] == rends[..i] + [rends[i]];
    CountConcat(rends[..i], [rends[i]], x);
  }

  lemma CountMonotone(rends: seq<Rend>, i: nat, x: int)
    requires i <= |rends|
    ensures ParentCount(rends[..i], x) <= ParentCount(rends, x)
    ensures ChildCount(rends[..i], x) <= ChildCount(rends, x)
  {
    assert rends == rends[..i] + rends[i..];
    CountConcat(rends[..i], rends[i..], x);
  }

  ghost predicate InRange(ids: set<int>, n: nat) {
    forall x | x in ids :: 0 <= x < n
  }

  /** One of the two inner loops: adds ids to `seen`, stopping at a repeated or foreign one. */
  method AddAll(seen: set<int>, ids: set<int>, n: nat) returns (ok: bool, all: set<int>)
    ensures ok <==> seen !! ids && InRange(ids, n)
    ensures ok ==> all == seen + ids
  {
    all := seen;
    var left := ids;
    while left != {}
      invariant left <= ids
      invariant forall x :: x in all <==> x in seen || (x in ids && x !in left)
      invariant forall x | x in ids && x !in left :: x !in seen && 0 <= x < n
      decreases left
    {
      ghost var some := PickOne(left);
      var id :| id in left;
      if id in all { return false, all; }
      all := all + {id};
      if id < 0 || id >= n { return false, all; }
      left := left - {id};
    }
    DisjointByElements(seen, ids);
    SameByElements(all, seen + ids);
    return true, all;
  }

  method CheckRends(rends: seq<Rend>, n: nat) returns (accepted: bool)
    ensures accepted <==> Accepted(rends, n)
  {
    if |rends| < 2 { return false; }
    var parents, children: set<int> := {}, {};
    var i := 0;
    while i < |rends|
      invariant 0 <= i <= |rends|
      invariant Counted(rends[..i], parents, children)
      invariant InRange(parents, n) && InRange(children, n)
    {
      var ok;
      ghost var seenParents, seenChildren := parents, children;
      ok, parents := AddAll(parents, rends[i].parents, n);
      if !ok {
        RepeatedOrForeign(rends, n, i, seenParents, seenChildren);
        return false;
      }
      ok, children := AddAll(children, rends[i].children, n);
      if !ok {
        RepeatedOrForeign(rends, n, i, seenParents, seenChildren);
        return false;
      }
      forall x {
        CountSnoc(rends, i, x);
      }
      i := i + 1;
    }
    assert rends[..i] == rends;
    FullSize(children, n);
    FullSize(parents, n);
    if |children| != n { return false; }
    if |parents| != n { return false; }
    return true;
  }

  /** The two sets hold exactly the ids counted so far, each of them counted once. */
  ghost predicate Counted(rends: seq<Rend>, parents: set<int>, children: set<int>) {
    forall x :: ParentCount(rends, x) == (if x in parents then 1 else 0)
             && ChildCount(rends, x) == if x in children then 1 else 0
  }

  lemma FullSize(ids: set<int>, n: nat)
    requires InRange(ids, n)
    ensures |ids| == n <==> forall x :: x in ids <==> 0 <= x < n
  {
    SubsetByElements(ids, Ids(n));
    SubsetSize(ids, Ids(n));
    IdsSize(n);
    if forall x :: x in ids <==> 0 <= x < n {
      SameByElements(ids, Ids(n));
    }
  }

  lemma RepeatedOrForeign(rends: seq<Rend>, n: nat, i: nat, parents: set<int>, children: set<int>)
    requires i < |rends|
    requires Counted(rends[..i], parents, children)
    requires || !(parents !! rends[i].parents && InRange(rends[i].parents, n))
             || !(children !! rends[i].children && InRange(rends[i].children, n))
    ensures !Accepted(rends, n)
  {
    var p, c := rends[i].parents, rends[i].children;
    if forall x | x in p :: x !in parents && 0 <= x < n {
      DisjointByElements(p, parents);
      if forall x | x in c :: x !in children && 0 <= x < n {
        DisjointByElements(c, children);
        assert false;
      }
    }
    var x :| (x in p && (x in parents || !(0 <= x < n))) || (x in c && (x in children || !(0 <= x < n)));
    CountSnoc(rends, i, x);
    CountMonotone(rends, i + 1, x);
  }
}
