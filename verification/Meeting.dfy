/** When the scheduler sees the kinematic FMUs in the open set, for any order in which sets are iterated. */
module Meeting {
  import opened IntSets
  import opened Includes
  import opened OrderTree
  import opened RendCompiler
  import opened OrderShapes
  import opened Schedule
  import opened StrongMaster

  /** What is done had been opened. */
  lemma {:induction false} DoneWasOpened(rends: seq<Rend>, n: nat, target: set<int>, k: nat)
    requires rends != []
    ensures DoneAt(rends, n, target, k) <= Opened(rends, n, DoneAt(rends, n, target, k))
  {
    if k > 0 {
      DoneWasOpened(rends, n, target, k - 1);
      var d, more := DoneAt(rends, n, target, k - 1), DoneAt(rends, n, target, k);
      forall v | v in more ensures v in Opened(rends, n, more) {
        StillOpened(rends, n, d, more, v);
      }
      SubsetByElements(more, Opened(rends, n, more));
    }
  }

  lemma StillOpened(rends: seq<Rend>, n: nat, d: set<int>, more: set<int>, v: int)
    requires rends != [] && d <= more && v in Opened(rends, n, d)
    ensures v in Opened(rends, n, more)
  {
    OpenedByMonotone(rends, d, more, v);
  }

  lemma {:induction false} TargetNotDone(rends: seq<Rend>, n: nat, target: set<int>, k: nat)
    requires rends != []
    ensures target !! DoneAt(rends, n, target, k)
  {
    if k > 0 {
      TargetNotDone(rends, n, target, k - 1);
      DisjointByElements(target, DoneAt(rends, n, target, k));
    }
  }

  /** Each round leaves the scheduler in a consistent state with the target not done. */
  lemma SchedAt(rends: seq<Rend>, n: nat, target: set<int>, k: nat)
    requires Tidy(rends, n)
    ensures var d := DoneAt(rends, n, target, k);
            && Sched(rends, n, d, OpenAt(rends, n, target, k), Ids(n) - Opened(rends, n, d), Remaining(rends, d))
            && target !! d
  {
    DoneWasOpened(rends, n, target, k);
    TargetNotDone(rends, n, target, k);
  }

  /** In the end nothing but the target may be stepped. */
  lemma {:induction false} Settles(rends: seq<Rend>, n: nat, target: set<int>, k: nat) returns (last: nat)
    requires Tidy(rends, n)
    ensures last >= k && OpenAt(rends, n, target, last) - target == {}
    decreases n - |DoneAt(rends, n, target, k)|
  {
    SchedAt(rends, n, target, k);
    var d, open := DoneAt(rends, n, target, k), OpenAt(rends, n, target, k);
    if open - target == {} {
      last := k;
    } else {
      Grows(rends, n, d, open, Ids(n) - Opened(rends, n, d), Remaining(rends, d), target);
      SchedAt(rends, n, target, k + 1);
      DoneAtMost(rends, n, DoneAt(rends, n, target, k + 1), OpenAt(rends, n, target, k + 1),
                 Ids(n) - Opened(rends, n, DoneAt(rends, n, target, k + 1)),
                     Remaining(rends, DoneAt(rends, n, target, k + 1)));
      last := Settles(rends, n, target, k + 1);
    }
  }

  /** Round k is reached without seeing the target, and there the open set is the target, listed in another order. */
  ghost predicate StopsAt(rends: seq<Rend>, n: nat, target: set<int>, order: Listing, list: seq<int>, k: nat)
    requires rends != []
  {
    Missed(rends, n, target, order, list, k) && OpenAt(rends, n, target, k) == target && order(k, target) != list
  }

  /** Either some round sees the target, or the last one stops at it: one of the two, and not both. */
  lemma MeetsUnless(rends: seq<Rend>, n: nat, target: set<int>, order: Listing, list: seq<int>)
    requires Tidy(rends, n) && Forward(rends) && Live(rends) && KinsIndependent(rends, target)
    requires target != {} && (forall x | x in target :: 0 <= x < n) && Lister(order) && Lists(list, target)
    ensures Meets(rends, n, target, order, list) <==> !exists k: nat :: StopsAt(rends, n, target, order, list, k)
  {
    forall k: nat | StopsAt(rends, n, target, order, list, k) ensures !Meets(rends, n, target, order, list) {
      WalkSameSet(order(k, target), list, target);
      assert OpenAt(rends, n, target, k) - target == {};
      NeverMeets(rends, n, target, order, list, k);
    }
    if !Meets(rends, n, target, order, list) {
      var last := Settles(rends, n, target, 0);
      FirstStop(rends, n, target, order, list, last);
    }
  }

  lemma {:induction false} FirstStop(rends: seq<Rend>, n: nat, target: set<int>, order: Listing, list: seq<int>,
                                     last: nat)
    requires Tidy(rends, n) && Forward(rends) && Live(rends) && KinsIndependent(rends, target)
    requires target != {} && (forall x | x in target :: 0 <= x < n) && Lister(order) && Lists(list, target)
    requires OpenAt(rends, n, target, last) - target == {} && !Meets(rends, n, target, order, list)
    ensures exists k: nat :: StopsAt(rends, n, target, order, list, k)
    decreases last
  {
    if j: nat :| j < last && OpenAt(rends, n, target, j) - target == {} {
      FirstStop(rends, n, target, order, list, j);
    } else {
      NoneMet(rends, n, target, order, list, last);
      SchedAt(rends, n, target, last);
      var d, open := DoneAt(rends, n, target, last), OpenAt(rends, n, target, last);
      var todo, counters := Ids(n) - Opened(rends, n, d), Remaining(rends, d);
      NotAllDone(rends, n, d, open, todo, counters, target);
      BlockedIff(rends, n, d, open, todo, counters, target, order(last, open), list);
      assert StopsAt(rends, n, target, order, list, last);
    }
  }

  lemma {:induction false} NoneMet(rends: seq<Rend>, n: nat, target: set<int>, order: Listing, list: seq<int>, k: nat)
    requires rends != [] && !Meets(rends, n, target, order, list)
    requires forall j: nat | j < k :: OpenAt(rends, n, target, j) - target != {}
    ensures Missed(rends, n, target, order, list, k) && !Walk(order(k, OpenAt(rends, n, target, k)), list)
  {
    if k > 0 {
      NoneMet(rends, n, target, order, list, k - 1);
      MissedNext(rends, n, target, order, list, k - 1);
    }
    if Walk(order(k, OpenAt(rends, n, target, k)), list) { MissedThenSeen(rends, n, target, order, list, k); }
  }

  /** The open set is iterated like kins whenever the two are equal. */
  ghost predicate ListedAlike(order: Listing, kins: set<int>, list: seq<int>) {
    forall k: nat :: order(k, kins) == list
  }

  /** Then the kinematic FMUs are always seen. */
  lemma AlikeMeets(rends: seq<Rend>, n: nat, target: set<int>, order: Listing, list: seq<int>)
    requires Tidy(rends, n) && Forward(rends) && Live(rends) && KinsIndependent(rends, target)
    requires target != {} && (forall x | x in target :: 0 <= x < n) && Lister(order) && Lists(list, target)
    requires ListedAlike(order, target, list)
    ensures Meets(rends, n, target, order, list)
  {
    MeetsUnless(rends, n, target, order, list);
  }

  /** Ascending iteration is alike. */
  lemma AscendingAlike(order: Listing, kins: set<int>, list: seq<int>)
    requires Lister(order) && Lists(list, kins) && Ascending(list) && forall k: nat :: Ascending(order(k, kins))
    ensures ListedAlike(order, kins, list)
  {
    forall k: nat ensures order(k, kins) == list {
      WalkExact(order(k, kins), list);
      WalkSameSet(order(k, kins), list, kins);
    }
  }

  /** Two kinematic FMUs in jacobi order, the open set listed 1, 0 and kins 0, 1: nothing to step, nothing seen. */
  lemma JacobiUnfulfillable(order: Listing)
    requires order(0, {0, 1}) == [1, 0]
    ensures var rends := [Rend({}, {0, 1}), Rend({0, 1}, {})];
            && ExecutionOrder(Parallel({0, 1}, [])) == rends
            && OpenAt(rends, 2, {0, 1}, 0) == {0, 1}
            && !Meets(rends, 2, {0, 1}, order, [0, 1])
  {
    var rends := [Rend({}, {0, 1}), Rend({0, 1}, {})];
    assert Compiled(Parallel({0, 1}, [])) == Block({0, 1}, {0, 1}, []);
    SameByElements(OpenAt(rends, 2, {0, 1}, 0), {0, 1});
    WalkEqual([1, 0], [0, 1]);
    assert [1, 0][0] != [0, 1][0];
    NeverMeets(rends, 2, {0, 1}, order, [0, 1], 0);
  }
}
