/** From the order tree the user wrote to the steps the FMUs take. */
module OrderRun {
  import opened IntSets
  import opened Options
  import opened OrderTree
  import opened RendCompiler
  import opened RendCheck
  import opened OrderAcceptance
  import opened RendOrder
  import opened OrderTheorem
  import opened OrderShapes
  import opened LiveTrees
  import opened Schedule
  import opened Includes
  import opened StrongMaster
  import opened Meeting
  import opened Wiring
  import opened Network

  /** Every run over a sealed tree steps u in an earlier batch than v wherever the tree says so. */
  lemma TreeOrderKept(p: Parallel, n: nat, bs: seq<set<int>>, u: int, v: int, i: nat, j: nat)
    requires LongSerials(p) && Sealed(p) && Accepted(ExecutionOrder(p), n) && Live(ExecutionOrder(p))
    requires History(ExecutionOrder(p), bs) && Precedes(p, u, v)
    requires i < |bs| && u in bs[i] && j < |bs| && v in bs[j]
    ensures i < j
  {
    LiveIsDistinct(p, n);
    AcceptedIff(p, n);
    OrderCompleteIffSealed(p);
    AcceptedTidy(ExecutionOrder(p), n);
    RunInOrder(ExecutionOrder(p), n, bs, u, v, i, j);
  }

  predicate KinsUnordered(p: Parallel, kins: set<int>) {
    forall u, v | u in kins && v in kins :: !Precedes(p, u, v)
  }

  /** Why a compiled tree without empty groups can always run. */
  lemma TreeRuns(p: Parallel, n: nat, kins: set<int>)
    requires LongSerials(p) && NoEmptyGroup(p) && Accepted(ExecutionOrder(p), n)
    ensures Forward(ExecutionOrder(p)) && Live(ExecutionOrder(p)) && ExecutionOrder(p)[0].parents == {}
    ensures Sealed(p)
    ensures KinsIndependent(ExecutionOrder(p), kins) <==> KinsUnordered(p, kins)
  {
    AcceptedIffPlain(p, n);
    CompiledForward(p);
    CompiledLive(p);
    NoEmptySerials(p.serials);
    OrderExact(p, n);
  }

  /** The batches of one step respect the tree. */
  ghost predicate InTreeOrder(p: Parallel, bs: seq<set<int>>) {
    forall u, v, i, j | 0 <= i < |bs| && 0 <= j < |bs| && u in bs[i] && v in bs[j] && Precedes(p, u, v) :: i < j
  }

  /** No FMU is in two batches, and every FMU is in one. */
  ghost predicate EachOnce(n: nat, bs: seq<set<int>>) {
    && Union(bs) == Ids(n)
    && forall i, j, x | 0 <= i < |bs| && 0 <= j < |bs| && x in bs[i] && x in bs[j] :: i == j
  }

  /** Constructs the master over a rend vector and runs one time step. */
  method RunOrder<S(!new)>(rends: seq<Rend>, kins: set<int>, kinList: seq<int>, order: Listing, net: Net<S>, t: real,
                    dt: real,
                           forces: seq<seq<Assign>>)
    returns (r: Outcome<Master<S>>)
    requires net.Valid() && |forces| == |net.models| && rends != [] && rends[0].parents == {}
    requires (forall x | x in kins :: 0 <= x < |net.models|) && Lists(kinList, kins) && Lister(order)
    modifies net, net.table
    ensures r.Ok? ==> Accepted(rends, |net.models|) && r.value.rends == rends && r.value.net == net
    ensures r.Ok? ==> History(rends, Members(r.value.batches)) && Union(Members(r.value.batches)) == Ids(|net.models|)
    ensures r.Ok? ==> r.value.NetAt(old(net.States()), r.value.batches, t, dt) && KinsIndependent(rends, kins)
    ensures r.Ok? && kins == {} ==> Lockstep(rends, |net.models|, r.value.batches)
    ensures r.Ok? ==> Live(rends)
    ensures Forward(rends) ==>
              (r.Ok? <==> && Accepted(rends, |net.models|) && AllConvertible(net.conns, Ids(|net.models|))
                          && Live(rends) && (kins == {} || Meets(rends, |net.models|, kins, order, kinList)))
  {
    var made := NewMaster(rends, kins, kinList, net);
    if made.Stop? { return Stop; }
    var ok := made.value.RunIteration(t, dt, forces, order);
    if ok { CompleteIsLive(rends, |net.models|, Members(made.value.batches)); }
    return if ok then made else Stop;
  }

  /**
   * Compiles a tree, constructs the master and runs one time step. If the step goes through it
   * steps every FMU once and takes the FMUs of a faithful network where the batch-wise semantics
   * does; over a sealed tree it does so in tree order. Any tree goes through exactly if its serials
   * are long, its vector is accepted and has no dead rend, every connection can be converted, and
   * some round sees the kinematic FMUs in the open set. A tree without empty groups does so
   * exactly if each FMU is written once, no serial group ends in a parallel group with serial
   * groups in it, no kinematic FMU is ordered before another, every connection can be converted,
   * and some round sees the kinematic FMUs in the open set. The last is sure if the open set is
   * iterated like the kinematic set whenever the two are equal.
   */
  method RunTree<S(!new)>(p: Parallel, kins: set<int>, kinList: seq<int>, order: Listing, net: Net<S>,
                          t: real, dt: real, forces: seq<seq<Assign>>)
    returns (r: Outcome<Master<S>>)
    requires net.Valid() && |forces| == |net.models|
    requires (forall x | x in kins :: 0 <= x < |net.models|) && Lists(kinList, kins) && Lister(order)
    modifies net, net.table
    ensures r.Ok? ==> EachOnce(|net.models|, Members(r.value.batches))
    ensures r.Ok? ==> r.value.net == net && r.value.NetAt(old(net.States()), r.value.batches, t, dt)
    ensures r.Ok? ==> Distinct(p) && (Sealed(p) ==> InTreeOrder(p, Members(r.value.batches)))
    ensures NoEmptyGroup(p) && r.Ok? ==> Sealed(p)
    ensures r.Ok? <==>
              && LongSerials(p) && Accepted(ExecutionOrder(p), |net.models|) && Live(ExecutionOrder(p))
              && AllConvertible(net.conns, Ids(|net.models|))
              && (kins == {} || Meets(ExecutionOrder(p), |net.models|, kins, order, kinList))
    ensures NoEmptyGroup(p) ==>
              (r.Ok? <==> && Runnable(p, |net.models|, kins) && AllConvertible(net.conns, Ids(|net.models|))
                          && (kins == {} || Meets(ExecutionOrder(p), |net.models|, kins, order, kinList)))
    ensures NoEmptyGroup(p) && ListedAlike(order, kins, kinList) ==>
              (r.Ok? <==> Runnable(p, |net.models|, kins) && AllConvertible(net.conns, Ids(|net.models|)))
  {
    var built := BuildExecutionOrder(p);
    if built.Stop? { return Stop; }
    if Accepted(ExecutionOrder(p), |net.models|) && Live(ExecutionOrder(p)) {
      LiveIsDistinct(p, |net.models|);
      CompiledForward(p);
    }
    r := RunOrder(built.value, kins, kinList, order, net, t, dt, forces);
    RunnableTree(p, |net.models|, kins);
    if NoEmptyGroup(p) && Runnable(p, |net.models|, kins) && kins != {} && ListedAlike(order, kins, kinList) {
      AcceptedTidy(ExecutionOrder(p), |net.models|);
      AlikeMeets(ExecutionOrder(p), |net.models|, kins, order, kinList);
    }
    if r.Ok? {
      OnceAndInOrder(p, |net.models|, Members(r.value.batches));
    }
  }

  predicate Runnable(p: Parallel, n: nat, kins: set<int>) {
    LongSerials(p) && Distinct(p) && Leaves(p) == Ids(n) && PlainEndings(p) && KinsUnordered(p, kins)
  }

  lemma RunnableTree(p: Parallel, n: nat, kins: set<int>)
    requires LongSerials(p)
    ensures NoEmptyGroup(p) && Accepted(ExecutionOrder(p), n) ==> Distinct(p) && Sealed(p) && Forward(ExecutionOrder(p))
    ensures NoEmptyGroup(p) ==>
              (Runnable(p, n, kins) <==> && Accepted(ExecutionOrder(p), n) && Live(ExecutionOrder(p))
                                         && KinsIndependent(ExecutionOrder(p), kins))
    ensures NoEmptyGroup(p) && Distinct(p) ==> Forward(ExecutionOrder(p))
  {
    if NoEmptyGroup(p) {
      AcceptedIffPlain(p, n);
      if Accepted(ExecutionOrder(p), n) { TreeRuns(p, n, kins); }
      if Distinct(p) { CompiledForward(p); }
    }
  }

  lemma OnceAndInOrder(p: Parallel, n: nat, bs: seq<set<int>>)
    requires LongSerials(p) && Accepted(ExecutionOrder(p), n)
    requires History(ExecutionOrder(p), bs) && Union(bs) == Ids(n) && Live(ExecutionOrder(p))
    ensures EachOnce(n, bs) && (Sealed(p) ==> InTreeOrder(p, bs))
  {
    forall i, j, x | 0 <= i < |bs| && 0 <= j < |bs| && x in bs[i] && x in bs[j]
      ensures i == j
    {
      BatchUnique(ExecutionOrder(p), bs, x, i, j);
    }
    if Sealed(p) {
      forall u, v, i, j | 0 <= i < |bs| && 0 <= j < |bs| && u in bs[i] && v in bs[j] && Precedes(p, u, v)
        ensures i < j
      {
        TreeOrderKept(p, n, bs, u, v, i, j);
      }
    }
  }

  // ---- Where the code and the tree part ways ----------------------------------------------------

  /** A serial group that ends in a parallel group holding a serial group: 0, then (1 then 2). */
  const NESTED_ENDING := Parallel({}, [Serial([Fmu(0), Group(Parallel({}, [Serial([Fmu(1), Fmu(2)])]))])])

  /** The head of the inner group is overwritten and its tail is opened twice; it is rejected. */
  lemma NestedEndingRejected(n: nat)
    ensures ExecutionOrder(NESTED_ENDING) == [Rend({}, {0}), Rend({0}, {2}), Rend({1}, {2}), Rend({2}, {})]
    ensures !Accepted(ExecutionOrder(NESTED_ENDING), n)
  {
    var inner := [Fmu(1), Fmu(2)];
    assert inner[1..] == [Fmu(2)];
    assert CompiledElements(inner) == Then(Block({1}, {1}, []), {2}, Block({2}, {2}, []));
    var ss := [Serial(inner)];
    assert ss[1..] == [];
    assert CompiledSerials(ss) == Block({1}, {2}, [Rend({1}, {2})]);
    var last := Group(Parallel({}, ss));
    assert CompiledElement(last) == Block({1}, {2}, [Rend({1}, {2})]);
    var outer := [Fmu(0), last];
    assert outer[1..] == [last];
    assert CompiledElements(outer) == Then(Block({0}, {0}, []), {2}, CompiledElement(last));
    var all := [Serial(outer)];
    assert all[1..] == [];
    assert CompiledSerials(all) == Block({0}, {2}, [Rend({0}, {2}), Rend({1}, {2})]);
    assert NESTED_ENDING == Parallel({}, all);
    assert Compiled(NESTED_ENDING) == Block({0}, {2}, [Rend({0}, {2}), Rend({1}, {2})]);
    var rends := ExecutionOrder(NESTED_ENDING);
    CountedTwice(rends, 1, 2, 2);
  }

  /** (0 beside (3 then 1 then nothing)) and then 2: the empty group hides 1 from 2. */
  const HIDDEN_LEAF :=
    Parallel({}, [Serial([Group(Parallel({0}, [Serial([Fmu(3), Fmu(1), Group(Parallel({}, []))])])), Fmu(2)])])

  const HIDDEN_RENDS := [Rend({}, {0, 3}), Rend({3}, {1}), Rend({1}, {}), Rend({0}, {2}), Rend({2}, {})]

  /** The tree puts 1 before 2; the master accepts it and nothing makes 2 wait for 1. */
  lemma HiddenLeafUnordered()
    ensures LongSerials(HIDDEN_LEAF) && Distinct(HIDDEN_LEAF) && Precedes(HIDDEN_LEAF, 1, 2)
    ensures ExecutionOrder(HIDDEN_LEAF) == HIDDEN_RENDS
    ensures Accepted(HIDDEN_RENDS, 4) && !Before(HIDDEN_RENDS, 1, 2)
  {
    var inner := [Fmu(3), Fmu(1), Group(Parallel({}, []))];
    HiddenLeafCompiled(inner, Group(Parallel({0}, [Serial(inner)])));
    forall x
      ensures ParentCount(HIDDEN_RENDS, x) == ChildCount(HIDDEN_RENDS, x) == if 0 <= x < 4 then 1 else 0
    {
      HiddenLeafCounts(x);
    }
    HiddenLeafFree();
  }

  lemma HiddenLeafFree()
    ensures !Before(HIDDEN_RENDS, 1, 2)
  {
    if Before(HIDDEN_RENDS, 1, 2) {
      FirstEdge(HIDDEN_RENDS, 1, 2);
    }
  }

  /** The master's own run over that tree steps 1 and 2 together. */
  lemma HiddenLeafRun()
    ensures History(HIDDEN_RENDS, [{0, 3}, {1, 2}]) && Greedy(HIDDEN_RENDS, [{0, 3}, {1, 2}])
    ensures Union([{0, 3}, {1, 2}]) == Ids(4)
  {
    var first: seq<set<int>> := [{0, 3}];
    HiddenLeafFirst();
    HiddenLeafSecond();
    HistoryExtend(HIDDEN_RENDS, first, {1, 2});
    GreedyExtend(HIDDEN_RENDS, first, {1, 2});
    assert first + [{1, 2}] == [{0, 3}, {1, 2}];
    SameByElements({0, 3} + {1, 2}, Ids(4));
  }

  lemma HiddenLeafFirst()
    ensures History(HIDDEN_RENDS, [{0, 3}]) && Greedy(HIDDEN_RENDS, [{0, 3}]) && Union([{0, 3}]) == {0, 3}
  {
    var rends: seq<Rend>, none: seq<set<int>> := HIDDEN_RENDS, [];
    forall r | 0 < r < |rends|
      ensures !Triggered(rends[r], {})
    {
      assert 3 in rends[1].parents && 1 in rends[2].parents && 0 in rends[3].parents && 2 in rends[4].parents;
    }
    assert Union(none) == {};
    assert forall v :: OpenedBy(rends, {}, v) <==> v == 0 || v == 3;
    HistoryExtend(rends, none, {0, 3});
    GreedyExtend(rends, none, {0, 3});
    assert none + [{0, 3}] == [{0, 3}];
  }

  lemma HiddenLeafSecond()
    ensures forall v :: OpenedBy(HIDDEN_RENDS, {0, 3}, v) <==> 0 <= v < 4
  {
    var rends: seq<Rend> := HIDDEN_RENDS;
    assert 3 in rends[1].parents && 1 in rends[2].parents && 0 in rends[3].parents && 2 in rends[4].parents;
    assert 1 in rends[1].children && Triggered(rends[1], {0, 3});
    assert 2 in rends[3].children && Triggered(rends[3], {0, 3});
  }

  lemma HiddenLeafCounts(x: int)
    ensures ParentCount(HIDDEN_RENDS, x) == ChildCount(HIDDEN_RENDS, x) == if 0 <= x < 4 then 1 else 0
  {
    var r4 := [Rend({2}, {})];
    assert r4[1..] == [];
    assert ParentCount(r4, x) == if x == 2 then 1 else 0;
    assert ChildCount(r4, x) == 0;
    var r3 := [Rend({0}, {2}), Rend({2}, {})];
    assert r3[1..] == r4;
    assert ParentCount(r3, x) == if x == 0 || x == 2 then 1 else 0;
    assert ChildCount(r3, x) == if x == 2 then 1 else 0;
    var r2 := [Rend({1}, {}), Rend({0}, {2}), Rend({2}, {})];
    assert r2[1..] == r3;
    assert ParentCount(r2, x) == if 0 <= x < 3 then 1 else 0;
    assert ChildCount(r2, x) == if x == 2 then 1 else 0;
    var r1 := [Rend({3}, {1}), Rend({1}, {}), Rend({0}, {2}), Rend({2}, {})];
    assert r1[1..] == r2;
    assert ParentCount(r1, x) == if 0 <= x < 4 then 1 else 0;
    assert ChildCount(r1, x) == if x == 1 || x == 2 then 1 else 0;
    assert HIDDEN_RENDS[1..] == r1;
  }

  lemma HiddenLeafCompiled(inner: seq<Element>, group: Element)
    requires inner == [Fmu(3), Fmu(1), Group(Parallel({}, []))] && group == Group(Parallel({0}, [Serial(inner)]))
    ensures LongSerials(HIDDEN_LEAF) && Distinct(HIDDEN_LEAF) && Precedes(HIDDEN_LEAF, 1, 2)
    ensures ExecutionOrder(HIDDEN_LEAF) == HIDDEN_RENDS
  {
    assert inner[1..] == [Fmu(1), Group(Parallel({}, []))] && inner[2..] == [Group(Parallel({}, []))];
    assert inner[1..][1..] == inner[2..];
    assert CompiledElements(inner[2..]) == Block({}, {}, []);
    assert CompiledElements(inner[1..]) == Block({1}, {}, [Rend({1}, {})]);
    assert CompiledElements(inner) == Block({3}, {}, [Rend({3}, {1}), Rend({1}, {})]);
    assert [Serial(inner)][1..] == [];
    assert CompiledSerials([Serial(inner)]) == Block({3}, {}, [Rend({3}, {1}), Rend({1}, {})]);
    assert CompiledElement(group) == Block({0, 3}, {0}, [Rend({3}, {1}), Rend({1}, {})]);
    var outer := [group, Fmu(2)];
    assert outer[1..] == [Fmu(2)];
    assert CompiledElements(outer) == Then(CompiledElement(group), {2}, Block({2}, {2}, []));
    assert HIDDEN_LEAF == Parallel({}, [Serial(outer)]);
    assert [Serial(outer)][1..] == [];
    assert LeavesOfElements(inner[2..]) == {};
    assert LeavesOfElements(inner[1..]) == {1} + {};
    assert LeavesOfElements(inner) == {3, 1};
    assert LeavesOf(group) == {0, 3, 1};
    assert LeavesOfElements(outer[1..]) == {2} + {};
    assert PrecedesInElements(outer, 1, 2);
    assert DistinctElements(inner[2..]) && DistinctElements(inner[1..]) && DistinctElements(inner);
    assert DistinctSerials([Serial(inner)]) && DistinctElement(group);
    assert DistinctElements(outer[1..]) && DistinctElements(outer);
    assert LongSerialsIn(inner[2..]) && LongSerialsIn(inner[1..]) && LongSerialsIn(inner);
    assert LongSerialsAll([Serial(inner)]) && LongSerialsOf(group);
    assert LongSerialsIn(outer[1..]) && LongSerialsIn(outer);
    var b := Block({0, 3}, {2}, [Rend({3}, {1}), Rend({1}, {}), Rend({0}, {2})]);
    assert CompiledElements(outer) == b;
    assert CompiledSerials([Serial(outer)]) == b;
    assert Compiled(HIDDEN_LEAF) == b;
  }
}
