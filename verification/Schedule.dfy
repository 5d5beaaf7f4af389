/** What a run of the rendezvous scheduler looks like, and what holds of every run. */
module Schedule {
  import opened IntSets
  import opened RendCompiler
  import opened RendCheck
  import opened RendOrder
  import opened OrderShapes

  /** Accepted rends, element by element; the first rend is the root. */
  ghost predicate Tidy(rends: seq<Rend>, n: nat) {
    && rends != [] && rends[0].parents == {}
    && (forall i, x | 0 <= i < |rends| && (x in rends[i].parents || x in rends[i].children) :: 0 <= x < n)
    && (forall i, j, x | 0 <= i < |rends| && 0 <= j < |rends| && x in rends[i].parents
        && x in rends[j].parents :: i == j)
    && (forall i, j, x | 0 <= i < |rends| && 0 <= j < |rends| && x in rends[i].children
        && x in rends[j].children :: i == j)
    && (forall x | 0 <= x < n :: IsParent(rends, x) && IsChild(rends, x))
  }

  ghost predicate IsParent(rends: seq<Rend>, x: int) {
    exists i :: 0 <= i < |rends| && x in rends[i].parents
  }

  ghost predicate IsChild(rends: seq<Rend>, x: int) {
    exists i :: 0 <= i < |rends| && x in rends[i].children
  }

  lemma {:induction false} CountedTwice(rends: seq<Rend>, i: nat, j: nat, x: int)
    requires i < j < |rends|
    ensures x in rends[i].parents && x in rends[j].parents ==> ParentCount(rends, x) >= 2
    ensures x in rends[i].children && x in rends[j].children ==> ChildCount(rends, x) >= 2
  {
    if i == 0 {
      assert rends[1..][j - 1] == rends[j];
      Mentioned(rends[1..], j - 1, x);
    } else {
      assert rends[1..][i - 1] == rends[i] && rends[1..][j - 1] == rends[j];
      CountedTwice(rends[1..], i - 1, j - 1, x);
    }
  }

  lemma {:induction false} CountedSomewhere(rends: seq<Rend>, x: int)
    ensures ParentCount(rends, x) >= 1 ==> exists i :: 0 <= i < |rends| && x in rends[i].parents
    ensures ChildCount(rends, x) >= 1 ==> exists i :: 0 <= i < |rends| && x in rends[i].children
  {
    if rends != [] {
      CountedSomewhere(rends[1..], x);
      if x in rends[0].parents {
      } else if ParentCount(rends, x) >= 1 {
        var i :| 0 <= i < |rends[1..]| && x in rends[1..][i].parents;
        assert rends[i + 1] == rends[1..][i];
      }
      if x in rends[0].children {
      } else if ChildCount(rends, x) >= 1 {
        var i :| 0 <= i < |rends[1..]| && x in rends[1..][i].children;
        assert rends[i + 1] == rends[1..][i];
      }
    }
  }

  lemma AcceptedTidy(rends: seq<Rend>, n: nat)
    requires Accepted(rends, n) && rends[0].parents == {}
    ensures Tidy(rends, n)
  {
    forall i, x | 0 <= i < |rends| && (x in rends[i].parents || x in rends[i].children)
      ensures 0 <= x < n
    {
      Mentioned(rends, i, x);
    }
    forall i, j, x | 0 <= i < |rends| && 0 <= j < |rends|
                     && ((x in rends[i].parents && x in rends[j].parents)
                         || (x in rends[i].children && x in rends[j].children))
      ensures i == j
    {
      if i < j { CountedTwice(rends, i, j, x); }
      if j < i { CountedTwice(rends, j, i, x); }
    }
    forall x | 0 <= x < n
      ensures IsParent(rends, x) && IsChild(rends, x)
    {
      assert ParentCount(rends, x) == ChildCount(rends, x) == 1;
      CountedSomewhere(rends, x);
    }
  }

  // ---- Opening ---------------------------------------------------------------------------------

  ghost predicate Triggered(r: Rend, done: set<int>) {
    r.parents != {} && r.parents <= done
  }

  /** v may be stepped once `done` is done. */
  ghost predicate OpenedBy(rends: seq<Rend>, done: set<int>, v: int)
    requires rends != []
  {
    || v in rends[0].children
    || exists r :: 0 < r < |rends| && v in rends[r].children && Triggered(rends[r], done)
  }

  // ---- Histories: the sets stepped together, in order ---------------------------------------------

  function Union(bs: seq<set<int>>): set<int> {
    if bs == [] then {} else Union(bs[..|bs| - 1]) + bs[|bs| - 1]
  }

  lemma {:induction false} InUnion(bs: seq<set<int>>, x: int)
    ensures x in Union(bs) <==> exists k :: 0 <= k < |bs| && x in bs[k]
  {
    if bs != [] {
      InUnion(bs[..|bs| - 1], x);
      if x in Union(bs[..|bs| - 1]) {
        var k :| 0 <= k < |bs[..|bs| - 1]| && x in bs[..|bs| - 1][k];
        assert x in bs[k];
      }
      if exists k :: 0 <= k < |bs| && x in bs[k] {
        var k :| 0 <= k < |bs| && x in bs[k];
        if k < |bs| - 1 { assert x in bs[..|bs| - 1][k]; }
      }
    }
  }

  /** A possible run: batches are non-empty, nothing is stepped twice or before it is opened. */
  ghost predicate History(rends: seq<Rend>, bs: seq<set<int>>)
    requires rends != []
  {
    forall k | 0 <= k < |bs| ::
      && bs[k] != {}
      && bs[k] !! Union(bs[..k])
      && forall v | v in bs[k] :: OpenedBy(rends, Union(bs[..k]), v)
  }

  /** Every batch holds everything that was open. */
  ghost predicate Greedy(rends: seq<Rend>, bs: seq<set<int>>)
    requires rends != []
  {
    forall k, v | 0 <= k < |bs| && OpenedBy(rends, Union(bs[..k]), v) :: v in Union(bs[..k]) || v in bs[k]
  }

  lemma HistoryExtend(rends: seq<Rend>, bs: seq<set<int>>, b: set<int>)
    requires rends != [] && History(rends, bs)
    requires b != {} && b !! Union(bs) && forall v | v in b :: OpenedBy(rends, Union(bs), v)
    ensures History(rends, bs + [b]) && Union(bs + [b]) == Union(bs) + b
  {
    var c := bs + [b];
    assert c[..|c| - 1] == bs;
    assert forall k | 0 <= k <= |bs| :: c[..k] == bs[..k];
    assert bs[..|bs|] == bs;
  }

  lemma GreedyExtend(rends: seq<Rend>, bs: seq<set<int>>, b: set<int>)
    requires rends != [] && Greedy(rends, bs)
    requires forall v | OpenedBy(rends, Union(bs), v) :: v in Union(bs) || v in b
    ensures Greedy(rends, bs + [b])
  {
    var c := bs + [b];
    assert forall k | 0 <= k <= |bs| :: c[..k] == bs[..k];
    assert bs[..|bs|] == bs;
  }

  /** In a run, u is stepped in an earlier batch than v whenever some rend awaits u and opens v. */
  lemma EdgeInOrder(rends: seq<Rend>, n: nat, bs: seq<set<int>>, u: int, v: int, j: nat) returns (i: nat)
    requires Tidy(rends, n) && History(rends, bs) && Edge(rends, u, v)
    requires j < |bs| && v in bs[j]
    ensures i < j && u in bs[i]
  {
    assert OpenedBy(rends, Union(bs[..j]), v);
    var k :| 0 <= k < |rends| && u in rends[k].parents && v in rends[k].children;
    assert u in Union(bs[..j]);
    InUnion(bs[..j], u);
    i :| 0 <= i < j && u in bs[..j][i];
  }

  lemma {:induction false} PathInOrder(rends: seq<Rend>, n: nat, bs: seq<set<int>>, path: seq<int>,
                                       j: nat) returns (i: nat)
    requires Tidy(rends, n) && History(rends, bs)
    requires |path| >= 2 && IsPath(rends, path) && j < |bs| && path[|path| - 1] in bs[j]
    ensures i < j && path[0] in bs[i]
    decreases |path|
  {
    var m := |path| - 2;
    assert Edge(rends, path[m], path[m + 1]);
    i := EdgeInOrder(rends, n, bs, path[m], path[m + 1], j);
    if m > 0 {
      assert IsPath(rends, path[..m + 1]);
      i := PathInOrder(rends, n, bs, path[..m + 1], i);
    }
  }

  lemma BatchUnique(rends: seq<Rend>, bs: seq<set<int>>, x: int, i: nat, j: nat)
    requires rends != [] && History(rends, bs) && i < |bs| && j < |bs| && x in bs[i] && x in bs[j]
    ensures i == j
  {
    if i < j { InUnion(bs[..j], x); }
    if j < i { InUnion(bs[..i], x); }
  }

  /** Safety of every run: the order enforced by the rends is the order of the batches. */
  lemma RunInOrder(rends: seq<Rend>, n: nat, bs: seq<set<int>>, u: int, v: int, i: nat, j: nat)
    requires Tidy(rends, n) && History(rends, bs) && Before(rends, u, v)
    requires i < |bs| && u in bs[i] && j < |bs| && v in bs[j]
    ensures i < j
  {
    var path :| |path| >= 2 && IsPath(rends, path) && path[0] == u && path[|path| - 1] == v;
    var k := PathInOrder(rends, n, bs, path, j);
    BatchUnique(rends, bs, u, i, k);
  }

  /** A run takes at most one batch per FMU. */
  lemma {:induction false} BatchCount(rends: seq<Rend>, n: nat, bs: seq<set<int>>)
    requires Tidy(rends, n) && History(rends, bs)
    ensures |bs| <= |Union(bs)| <= n
  {
    BatchCountUpTo(rends, bs, |bs|);
    assert bs[..|bs|] == bs;
    forall x | x in Union(bs)
      ensures x in Ids(n)
    {
      InUnion(bs, x);
      var k :| 0 <= k < |bs| && x in bs[k];
      assert OpenedBy(rends, Union(bs[..k]), x);
    }
    SubsetByElements(Union(bs), Ids(n));
    SubsetSize(Union(bs), Ids(n));
    IdsSize(n);
  }

  lemma {:induction false} BatchCountUpTo(rends: seq<Rend>, bs: seq<set<int>>, k: nat)
    requires rends != [] && History(rends, bs) && k <= |bs|
    ensures k <= |Union(bs[..k])|
  {
    if k > 0 {
      BatchCountUpTo(rends, bs, k - 1);
      assert bs[..k][..k - 1] == bs[..k - 1];
      assert Union(bs[..k]) == Union(bs[..k - 1]) + bs[k - 1];
      assert |bs[k - 1]| > 0;
    }
  }

  // ---- Progress ------------------------------------------------------------------------------------

  /** No kinematic FMU has to wait for another. */
  ghost predicate KinsIndependent(rends: seq<Rend>, kins: set<int>) {
    forall u, v | u in kins && v in kins :: !Before(rends, u, v)
  }

  /**
   * If v is not opened then, following rends backwards, some open and undone FMU holds it up,
   * unless a dead rend does.
   */
  lemma {:induction false} HeldUp(rends: seq<Rend>, n: nat, done: set<int>, v: int, r: nat) returns (w: int)
    requires Tidy(rends, n) && Forward(rends) && Live(rends)
    requires r < |rends| && v in rends[r].children && !OpenedBy(rends, done, v)
    ensures 0 <= w < n && w !in done && OpenedBy(rends, done, w) && Before(rends, w, v)
    decreases r
  {
    assert r > 0 && rends[r].parents != {};
    var missing := rends[r].parents - done;
    if missing == {} {
      SubsetByDifference(rends[r].parents, done);
    }
    w := PickOne(missing);
    EdgeBefore(rends, w, v);
    if !OpenedBy(rends, done, w) {
      assert IsChild(rends, w);
      var q :| 0 <= q < |rends| && w in rends[q].children;
      var x := HeldUp(rends, n, done, w, q);
      BeforeTransitive(rends, x, w, v);
      w := x;
    }
  }

  /** A complete run exists only if no rend is dead. */
  lemma CompleteIsLive(rends: seq<Rend>, n: nat, bs: seq<set<int>>)
    requires Tidy(rends, n) && History(rends, bs) && Union(bs) == Ids(n)
    ensures Live(rends)
  {
    forall r | 0 < r < |rends| && rends[r].children != {}
      ensures rends[r].parents != {}
    {
      var v := PickOne(rends[r].children);
      assert v in Ids(n);
      InUnion(bs, v);
      var k :| 0 <= k < |bs| && v in bs[k];
      assert OpenedBy(rends, Union(bs[..k]), v);
    }
  }

  /** A run that steps all kinematic FMUs together needs them to be independent. */
  lemma TogetherIsIndependent(rends: seq<Rend>, n: nat, bs: seq<set<int>>, kins: set<int>, j: nat)
    requires Tidy(rends, n) && History(rends, bs) && j < |bs| && kins <= bs[j]
    ensures KinsIndependent(rends, kins)
  {
    forall u, v | u in kins && v in kins
      ensures !Before(rends, u, v)
    {
      if Before(rends, u, v) {
        RunInOrder(rends, n, bs, u, v, j, j);
      }
    }
  }
}
