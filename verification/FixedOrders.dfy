/** The -m jacobi and -m gs orders compute the Jacobi and Gauss-Seidel updates. */
module FixedOrders {
  import opened IntSets
  import opened OrderTree
  import opened RendCompiler
  import opened RendCheck
  import opened OrderAcceptance
  import opened OrderShapes
  import opened Schedule
  import opened Includes
  import opened StrongMaster
  import opened Meeting
  import opened Wiring
  import opened Simulators
  import opened Network
  import opened OrderRun
  import opened Steps

  /** All FMUs advance at once, reading the old states of the others. */
  function Simultaneous<S>(models: seq<Simulator<S>>, conns: seq<Conn>, states: seq<S>, t: real, dt: real): seq<S>
    requires |states| == |models| && Wired(conns, |models|)
  {
    seq(|states|, c requires 0 <= c < |states| => Advance(models, conns, c, states, [], t, dt))
  }

  /** One FMU after another, in order g, each reading what the earlier ones just produced. */
  function OneByOne<S>(models: seq<Simulator<S>>, conns: seq<Conn>, states: seq<S>, g: seq<int>, t: real,
                       dt: real): (r: seq<S>)
    requires |states| == |models| && Wired(conns, |models|) && forall i | 0 <= i < |g| :: 0 <= g[i] < |models|
    ensures |r| == |states|
  {
    if g == [] then states
    else
      var before := OneByOne(models, conns, states, g[..|g| - 1], t, dt);
      var c := g[|g| - 1];
      before[c := Advance(models, conns, c, before, [], t, dt)]
  }

  // ---- What each FMU of a run reads -------------------------------------------------------------

  /** An FMU that is in none of the batches from k on keeps the state it had before batch k. */
  lemma {:induction false} Untouched<S>(models: seq<Simulator<S>>, conns: seq<Conn>, states: seq<S>, bs: seq<Batch>,
                                        t: real, dt: real,
                                        k: nat, d: nat)
    requires |states| == |models| && Wired(conns, |models|) && Sized(bs, |models|) && k <= |bs| && d < |models|
    requires forall i | k <= i < |bs| :: d !in bs[i].ids
    ensures RunBatches(models, conns, states, bs, t, dt)[d] == RunBatches(models, conns, states, bs[..k], t, dt)[d]
    decreases |bs|
  {
    if k < |bs| {
      var m := |bs| - 1;
      Untouched(models, conns, states, bs[..m], t, dt, k, d);
      assert bs[..m][..k] == bs[..k];
    } else {
      assert bs[..k] == bs;
    }
  }

  /** A batch is the only one its members are in. */
  lemma OnlyBatch(bs: seq<Batch>, rends: seq<Rend>, k: nat, c: int)
    requires rends != [] && History(rends, Members(bs)) && k < |bs| && c in bs[k].ids
    ensures forall i | 0 <= i < |bs| && i != k :: c !in bs[i].ids
  {
    var all := Members(bs);
    forall i | 0 <= i < |bs| && i != k
      ensures c !in bs[i].ids
    {
      if c in all[i] {
        if i < k { BatchUnique(rends, all, c, i, k); } else { BatchUnique(rends, all, c, k, i); }
      }
    }
  }

  /** One FMU as seen by batch k. */
  lemma Seen<S>(models: seq<Simulator<S>>, conns: seq<Conn>, states: seq<S>, bs: seq<Batch>, t: real, dt: real,
                rends: seq<Rend>, k: nat, d: nat)
    requires |states| == |models| && Wired(conns, |models|) && Sized(bs, |models|)
    requires rends != [] && History(rends, Members(bs)) && k <= |bs| && d < |models|
    ensures RunBatches(models, conns, states, bs[..k], t, dt)[d]
            == if d in Union(Members(bs)[..k]) then RunBatches(models, conns, states, bs, t, dt)[d] else states[d]
  {
    var all := Members(bs);
    InUnion(all[..k], d);
    if d in Union(all[..k]) {
      var i :| 0 <= i < k && d in all[..k][i];
      OnlyBatch(bs, rends, i, d);
      Untouched(models, conns, states, bs, t, dt, k, d);
    } else {
      forall j | 0 <= j < k
        ensures d !in bs[..k][j].ids
      {
        assert all[..k][j] == bs[j].ids;
      }
      Untouched(models, conns, states, bs[..k], t, dt, 0, d);
      assert bs[..k][..0] == [];
    }
  }

  /** The states that a batch reads: stepped for FMUs of earlier batches, unstepped for all others. */
  lemma BatchReads<S>(models: seq<Simulator<S>>, conns: seq<Conn>, states: seq<S>, bs: seq<Batch>, t: real, dt: real,
                      rends: seq<Rend>, k: nat, c: nat)
    requires |states| == |models| && Wired(conns, |models|) && Sized(bs, |models|)
    requires rends != [] && History(rends, Members(bs)) && k < |bs| && c < |models| && c in bs[k].ids
    ensures var seen, final := RunBatches(models, conns, states, bs[..k], t, dt),
            RunBatches(models, conns, states, bs, t, dt);
            && final[c] == Advance(models, conns, c, seen, bs[k].extra[c], t, dt)
            && forall d | 0 <= d < |models| :: seen[d] == if d in Union(Members(bs)[..k]) then final[d] else states[d]
  {
    OnlyBatch(bs, rends, k, c);
    Untouched(models, conns, states, bs, t, dt, k + 1, c);
    assert bs[..k + 1][..k] == bs[..k];
    forall d | 0 <= d < |models|
      ensures RunBatches(models, conns, states, bs[..k], t, dt)[d]
              == if d in Union(Members(bs)[..k]) then RunBatches(models, conns, states, bs, t, dt)[d] else states[d]
    {
      Seen(models, conns, states, bs, t, dt, rends, k, d);
    }
  }

  lemma JacobiBatches(n: nat, bs: seq<set<int>>)
    requires n > 0 && History(ExecutionOrder(JacobiTree(n)), bs) && Greedy(ExecutionOrder(JacobiTree(n)), bs)
    requires Union(bs) == Ids(n)
    ensures bs == [Ids(n)]
  {
    var rends := ExecutionOrder(JacobiTree(n));
    assert rends[0].children == Ids(n) + {};
    IdsSize(n);
    assert bs != [];
    assert bs[..0] == [];
    forall v
      ensures v in bs[0] <==> v in Ids(n)
    {
      InUnion(bs, v);
      if v in Ids(n) { assert OpenedBy(rends, Union(bs[..0]), v); }
    }
    SameByElements(bs[0], Ids(n));
    if |bs| > 1 {
      var x := PickOne(bs[1]);
      InUnion(bs, x);
      BatchUnique(rends, bs, x, 0, 1);
    }
  }

  ghost predicate Permutation(g: seq<int>) {
    && (forall i | 0 <= i < |g| :: 0 <= g[i] < |g|)
    && AllDifferent(g)
  }

  function Singles(g: seq<int>): (bs: seq<set<int>>)
    ensures |bs| == |g| && forall i | 0 <= i < |g| :: bs[i] == {g[i]}
  {
    seq(|g|, i requires 0 <= i < |g| => {g[i]})
  }

  lemma {:induction false} UnionSingles(g: seq<int>, x: int)
    ensures x in Union(Singles(g)) <==> x in g
  {
    if g != [] {
      UnionSingles(g[..|g| - 1], x);
      assert Singles(g)[..|g| - 1] == Singles(g[..|g| - 1]);
      assert g == g[..|g| - 1] + [g[|g| - 1]];
    }
  }

  /** With the first k entries of g done, the first k + 1 are opened. */
  lemma ChainOpened(g: seq<int>, done: set<int>, k: nat, v: int)
    requires Permutation(g) && k <= |g| && forall x :: x in done <==> x in g[..k]
    ensures OpenedBy(Chain(g), done, v) <==> v in g[..k] || (k < |g| && v == g[k])
  {
    if OpenedBy(Chain(g), done, v) { OpenedInChain(g, done, k, v); }
    if v in g[..k] || (k < |g| && v == g[k]) {
      var i :| 0 <= i <= k && i < |g| && g[i] == v;
      ChainOpens(g, done, k, i);
    }
  }

  lemma OpenedInChain(g: seq<int>, done: set<int>, k: nat, v: int)
    requires Permutation(g) && k <= |g| && forall x :: x in done <==> x in g[..k]
    requires OpenedBy(Chain(g), done, v)
    ensures v in g[..k] || (k < |g| && v == g[k])
  {
    var rends := Chain(g);
    if v in rends[0].children {
      assert v == g[0];
      assert k > 0 ==> v == g[..k][0];
    } else {
      var r :| 0 < r < |rends| && v in rends[r].children && Triggered(rends[r], done);
      assert g[r - 1] in rends[r].parents;
      assert g[r - 1] in g[..k];
      assert r - 1 < k && v == g[r];
      assert r < k ==> v == g[..k][r];
    }
  }

  lemma ChainOpens(g: seq<int>, done: set<int>, k: nat, i: nat)
    requires i <= k <= |g| && i < |g| && forall x :: x in done <==> x in g[..k]
    ensures OpenedBy(Chain(g), done, g[i])
  {
    var rends := Chain(g);
    if i > 0 {
      assert rends[i] == Rend({g[i - 1]}, {g[i]});
      assert g[i - 1] == g[..k][i - 1];
      assert Triggered(rends[i], done);
    }
  }

  lemma NextSingle(g: seq<int>, done: set<int>, k: nat, b: set<int>)
    requires Permutation(g) && k <= |g| && forall x :: x in done <==> x in g[..k]
    requires b != {} && b !! done && forall v | v in b :: OpenedBy(Chain(g), done, v)
    requires forall v | OpenedBy(Chain(g), done, v) :: v in done || v in b
    ensures k < |g| && b == {g[k]}
  {
    var x := PickOne(b);
    ChainOpened(g, done, k, x);
    forall v
      ensures v in b <==> v == g[k]
    {
      ChainOpened(g, done, k, v);
    }
    SameByElements(b, {g[k]});
  }

  /** After k rounds exactly the first k entries of g have been stepped, one by one. */
  lemma {:induction false} ChainPrefix(g: seq<int>, bs: seq<set<int>>, k: nat)
    requires Permutation(g) && History(Chain(g), bs) && Greedy(Chain(g), bs) && k <= |bs|
    ensures k <= |g| && bs[..k] == Singles(g[..k])
  {
    if k > 0 {
      ChainPrefix(g, bs, k - 1);
      ChainStep(g, bs, k - 1);
    }
  }

  lemma ChainStep(g: seq<int>, bs: seq<set<int>>, k: nat)
    requires Permutation(g) && History(Chain(g), bs) && Greedy(Chain(g), bs) && k < |bs|
    requires k <= |g| && bs[..k] == Singles(g[..k])
    ensures k < |g| && bs[..k + 1] == Singles(g[..k + 1])
  {
    DoneSingles(g[..k]);
    BatchFacts(Chain(g), bs, k);
    NextSingle(g, Union(bs[..k]), k, bs[k]);
    SinglesSnoc(g, bs, k);
  }

  lemma SinglesSnoc(g: seq<int>, bs: seq<set<int>>, k: nat)
    requires k < |bs| && k < |g| && bs[..k] == Singles(g[..k]) && bs[k] == {g[k]}
    ensures bs[..k + 1] == Singles(g[..k + 1])
  {
    assert bs[..k + 1] == bs[..k] + [bs[k]];
    assert Singles(g[..k + 1]) == Singles(g[..k]) + [{g[k]}];
  }

  lemma BatchFacts(rends: seq<Rend>, bs: seq<set<int>>, k: nat)
    requires rends != [] && History(rends, bs) && Greedy(rends, bs) && k < |bs|
    ensures bs[k] != {} && bs[k] !! Union(bs[..k]) && forall v | v in bs[k] :: OpenedBy(rends, Union(bs[..k]), v)
    ensures forall v | OpenedBy(rends, Union(bs[..k]), v) :: v in Union(bs[..k]) || v in bs[k]
  {
  }

  lemma DoneSingles(g: seq<int>)
    ensures forall x :: x in Union(Singles(g)) <==> x in g
  {
    forall x
      ensures x in Union(Singles(g)) <==> x in g
    {
      UnionSingles(g, x);
    }
  }

  lemma {:induction false} RunSingles<S>(models: seq<Simulator<S>>, conns: seq<Conn>, states: seq<S>, g: seq<int>,
                                         bs: seq<Batch>, t: real, dt: real)
    requires |states| == |models| && Wired(conns, |models|) && (forall i | 0 <= i < |g| :: 0 <= g[i] < |models|)
    requires Members(bs) == Singles(g) && forall i | 0 <= i < |bs| :: bs[i].extra == Nothing(|models|)
    ensures Sized(bs, |models|)
    ensures RunBatches(models, conns, states, bs, t, dt) == OneByOne(models, conns, states, g, t, dt)
  {
    assert |bs| == |g|;
    if g != [] {
      var m := |g| - 1;
      assert Members(bs[..m]) == Members(bs)[..m] == Singles(g)[..m] == Singles(g[..m]);
      RunSingles(models, conns, states, g[..m], bs[..m], t, dt);
      assert bs[m].ids == {g[m]};
      var before := RunBatches(models, conns, states, bs[..m], t, dt);
      assert BatchStep(models, conns, before, bs[m], t, dt)
             == before[g[m] := Advance(models, conns, g[m], before, [], t, dt)];
    }
  }

  /** Without kinematic constraints the jacobi order is the simultaneous update, in a faithful network. */
  method RunJacobi<S(!new)>(order: Listing, net: Net<S>, t: real, dt: real) returns (ok: bool)
    requires net.Valid() && |net.models| > 0 && Lister(order)
    modifies net, net.table
    ensures ok <==> AllConvertible(net.conns, Ids(|net.models|))
    ensures ok ==> net.Valid()
    ensures ok && net.Faithful() ==> net.States() == Simultaneous(net.models, net.conns, old(net.States()), t, dt)
  {
    var n := |net.models|;
    var rends := BuildJacobi(n);
    JacobiFine(n);
    ghost var start := net.States();
    var r := RunOrder(rends, {}, [], order, net, t, dt, Nothing(n));
    ok := r.Ok?;
    if ok {
      JacobiStep(net.models, net.conns, start, r.value.batches, t, dt);
    }
  }

  /** Two kinematic FMUs in jacobi order, listed 1, 0 in the open set and 0, 1 in kins: the step stops. */
  method RunUnfulfillable<S(!new)>(order: Listing, net: Net<S>, t: real, dt: real,
                            forces: seq<seq<Assign>>) returns (ok: bool)
    requires net.Valid() && |net.models| == |forces| == 2 && Lister(order) && order(0, {0, 1}) == [1, 0]
    modifies net, net.table
    ensures !ok
  {
    var rends := BuildJacobi(2);
    JacobiFine(2);
    SameByElements(Ids(2), {0, 1});
    JacobiUnfulfillable(order);
    var r := RunOrder(rends, {0, 1}, [0, 1], order, net, t, dt, forces);
    ok := r.Ok?;
  }

  lemma JacobiFine(n: nat)
    requires n > 0
    ensures var rends := ExecutionOrder(JacobiTree(n));
            && Accepted(rends, n) && Forward(rends) && Live(rends) && rends[0].parents == {}
  {
    var p := JacobiTree(n);
    assert 0 in Ids(n);
    assert LeavesOfSerials([]) == {} && Leaves(p) == Ids(n) + {};
    assert LongSerials(p) && NoEmptyGroup(p) && Distinct(p) && PlainEndings(p);
    AcceptedIffPlain(p, n);
    CompiledForward(p);
    CompiledLive(p);
  }

  /** Without kinematic constraints the gs order is the Gauss-Seidel update in order g, in a faithful network. */
  method RunGaussSeidel<S(!new)>(g: seq<int>, order: Listing, net: Net<S>, t: real, dt: real) returns (ok: bool)
    requires net.Valid() && |g| == |net.models| > 0 && Lister(order)
    modifies net, net.table
    ensures ok <==> Permutation(g) && AllConvertible(net.conns, Ids(|net.models|))
    ensures ok ==> net.Valid()
    ensures ok && net.Faithful() ==> net.States() == OneByOne(net.models, net.conns, old(net.States()), g, t, dt)
  {
    var n := |net.models|;
    var rends := BuildGaussSeidel(g);
    GaussSeidelFine(g);
    var r := RunOrder(rends, {}, [], order, net, t, dt, Nothing(n));
    ok := r.Ok?;
    if ok {
      GaussSeidelStep(net.models, net.conns, old(net.States()), g, r.value.batches, t, dt);
    }
  }

  lemma ChainComplete(g: seq<int>, bs: seq<set<int>>)
    requires Permutation(g) && History(Chain(g), bs) && Greedy(Chain(g), bs) && Union(bs) == Ids(|g|)
    ensures bs == Singles(g)
  {
    ChainPrefix(g, bs, |bs|);
    assert bs[..|bs|] == bs;
    if |bs| < |g| {
      UnionSingles(g[..|bs|], g[|bs|]);
    }
    assert g[..|g|] == g;
  }

  lemma {:induction false} FmusLeaves(g: seq<int>)
    ensures forall x :: x in LeavesOfElements(Fmus(g)) <==> x in g
  {
    if g != [] {
      FmusLeaves(g[1..]);
      assert Fmus(g)[0] == Fmu(g[0]) && Fmus(g)[1..] == Fmus(g[1..]);
      assert g == [g[0]] + g[1..];
    }
  }

  ghost predicate AllDifferent(g: seq<int>) {
    forall i, j | 0 <= i < j < |g| :: g[i] != g[j]
  }

  lemma {:induction false} FmusDistinct(g: seq<int>)
    ensures DistinctElements(Fmus(g)) <==> AllDifferent(g)
    ensures AllDifferent(g) ==> |LeavesOfElements(Fmus(g))| == |g|
  {
    if g != [] {
      var es, h := Fmus(g), g[1..];
      FmusDistinct(h);
      FmusLeaves(h);
      assert es[0] == Fmu(g[0]) && es[1..] == Fmus(h);
      assert g == [g[0]] + h;
      if g[0] in h {
        var i :| 0 <= i < |h| && h[i] == g[0];
        assert g[0] == g[i + 1];
      } else {
        DisjointByElements({g[0]}, LeavesOfElements(es[1..]));
        assert AllDifferent(g) <==> AllDifferent(h) by { DifferentCons(g[0], h); }
      }
    }
  }

  lemma DifferentCons(x: int, h: seq<int>)
    requires x !in h
    ensures AllDifferent([x] + h) <==> AllDifferent(h)
  {
    var g := [x] + h;
    assert forall i | 0 <= i < |h| :: h[i] == g[i + 1];
    if AllDifferent(h) {
      forall i, j | 0 <= i < j < |g|
        ensures g[i] != g[j]
      {
        if i > 0 { assert g[i] == h[i - 1]; }
        assert g[j] == h[j - 1];
      }
    }
  }

  lemma PermutationIff(g: seq<int>)
    requires g != []
    ensures Permutation(g) <==> DistinctElements(Fmus(g)) && LeavesOfElements(Fmus(g)) == Ids(|g|)
  {
    FmusLeaves(g);
    FmusDistinct(g);
    if Permutation(g) { PermutationCovers(g); }
    if DistinctElements(Fmus(g)) && LeavesOfElements(Fmus(g)) == Ids(|g|) {
      forall i | 0 <= i < |g|
        ensures 0 <= g[i] < |g|
      {
        assert g[i] in g && g[i] in LeavesOfElements(Fmus(g));
      }
    }
  }

  lemma PermutationCovers(g: seq<int>)
    requires Permutation(g)
    ensures LeavesOfElements(Fmus(g)) == Ids(|g|)
  {
    FmusLeaves(g);
    FmusDistinct(g);
    var L := LeavesOfElements(Fmus(g));
    SubsetByElements(L, Ids(|g|));
    SubsetSize(L, Ids(|g|));
    IdsSize(|g|);
  }

  /** The tree behind the gs vector; a single FMU is just a leaf. */
  function GaussSeidelSource(g: seq<int>): Parallel
    requires g != []
  {
    if |g| == 1 then Parallel({g[0]}, []) else GaussSeidelTree(g)
  }

  lemma GaussSeidelShape(g: seq<int>)
    requires g != []
    ensures ExecutionOrder(GaussSeidelSource(g)) == Chain(g)
    ensures var p := GaussSeidelSource(g); LongSerials(p) && NoEmptyGroup(p) && PlainEndings(p)
    ensures Leaves(GaussSeidelSource(g)) == LeavesOfElements(Fmus(g))
    ensures Distinct(GaussSeidelSource(g)) <==> DistinctElements(Fmus(g))
  {
    if |g| == 1 {
      SingleShape(g[0]);
      assert g == [g[0]];
    } else {
      ChainIsCompiled(g);
      FmusPlain(g);
      var es := Fmus(g);
      assert [Serial(es)][1..] == [];
      assert LeavesOfSerials([Serial(es)]) == LeavesOfElements(es) + {};
      assert Leaves(GaussSeidelTree(g)) == {} + LeavesOfElements(es);
      DisjointByElements({}, LeavesOfSerials([Serial(es)]));
      DisjointByElements(LeavesOfElements(es), {});
      assert DistinctSerials([Serial(es)]) <==> DistinctElements(es);
    }
  }

  lemma SingleShape(x: int)
    ensures var p := Parallel({x}, []);
            && ExecutionOrder(p) == Chain([x]) && LongSerials(p) && NoEmptyGroup(p) && PlainEndings(p)
            && Distinct(p) && DistinctElements(Fmus([x])) && Leaves(p) == LeavesOfElements(Fmus([x]))
  {
    var p, es := Parallel({x}, []), Fmus([x]);
    assert es == [Fmu(x)] && es[1..] == [];
    assert LeavesOfElements(es) == {x} + {};
    assert Leaves(p) == {x} + {};
    assert Compiled(p) == Block({x}, {x}, []);
  }

  lemma {:induction false} FmusPlain(g: seq<int>)
    ensures LongSerialsIn(Fmus(g)) && NoEmptyGroupIn(Fmus(g)) && PlainEndingsIn(Fmus(g))
  {
    if g != [] {
      FmusPlain(g[1..]);
      assert Fmus(g)[0] == Fmu(g[0]) && Fmus(g)[1..] == Fmus(g[1..]);
    }
  }

  /** The gs vector is accepted exactly if g is a permutation, and then it can run. */
  lemma GaussSeidelFine(g: seq<int>)
    requires g != []
    ensures Accepted(Chain(g), |g|) <==> Permutation(g)
    ensures Permutation(g) ==> Forward(Chain(g)) && Live(Chain(g))
    ensures Chain(g)[0].parents == {}
  {
    var p := GaussSeidelSource(g);
    GaussSeidelShape(g);
    PermutationIff(g);
    AcceptedIffPlain(p, |g|);
    CompiledLive(p);
    if Distinct(p) { CompiledForward(p); }
  }

  // ---- Many steps ---------------------------------------------------------------------------------

  /** k simultaneous updates. */
  function SimultaneousSteps<S>(models: seq<Simulator<S>>, conns: seq<Conn>, states: seq<S>, times: seq<real>, dt: real,
                                k: nat): (r: seq<S>)
    requires |states| == |models| && Wired(conns, |models|) && k <= |times|
    ensures |r| == |states|
  {
    if k == 0 then states
    else Simultaneous(models, conns, SimultaneousSteps(models, conns, states, times, dt, k - 1), times[k - 1], dt)
  }

  /** k rounds of one-by-one updates in order g. */
  function OneByOneSteps<S>(models: seq<Simulator<S>>, conns: seq<Conn>, states: seq<S>, g: seq<int>, times: seq<real>,
                            dt: real, k: nat): (r: seq<S>)
    requires |states| == |models| && Wired(conns, |models|) && k <= |times|
    requires forall i | 0 <= i < |g| :: 0 <= g[i] < |models|
    ensures |r| == |states|
  {
    if k == 0 then states
    else OneByOne(models, conns, OneByOneSteps(models, conns, states, g, times, dt, k - 1), g, times[k - 1], dt)
  }

  /** The one batch of a jacobi step. */
  lemma JacobiStep<S>(models: seq<Simulator<S>>, conns: seq<Conn>, states: seq<S>, bs: seq<Batch>, t: real, dt: real)
    requires |states| == |models| > 0 && Wired(conns, |models|)
    requires var rends := ExecutionOrder(JacobiTree(|models|));
             History(rends, Members(bs)) && Union(Members(bs)) == Ids(|models|) && Lockstep(rends, |models|, bs)
    ensures Sized(bs, |models|)
    ensures RunBatches(models, conns, states, bs, t, dt) == Simultaneous(models, conns, states, t, dt)
  {
    var n := |models|;
    JacobiBatches(n, Members(bs));
    assert |bs| == 1 && bs[0] == Batch(Ids(n), Nothing(n));
    assert bs[..0] == [];
    assert RunBatches(models, conns, states, bs, t, dt) == BatchStep(models, conns, states, bs[0], t, dt);
  }

  lemma GaussSeidelStep<S>(models: seq<Simulator<S>>, conns: seq<Conn>, states: seq<S>, g: seq<int>, bs: seq<Batch>,
                           t: real, dt: real)
    requires |states| == |models| == |g| > 0 && Wired(conns, |models|) && Permutation(g)
    requires History(Chain(g), Members(bs)) && Union(Members(bs)) == Ids(|g|) && Lockstep(Chain(g), |models|, bs)
    ensures Sized(bs, |models|)
    ensures RunBatches(models, conns, states, bs, t, dt) == OneByOne(models, conns, states, g, t, dt)
  {
    ChainComplete(g, Members(bs));
    RunSingles(models, conns, states, g, bs, t, dt);
  }

  /** A jacobi step, logged. */
  ghost predicate IsJacobi(n: nat, bs: seq<Batch>) {
    n > 0
    && var rends := ExecutionOrder(JacobiTree(n));
       History(rends, Members(bs)) && Union(Members(bs)) == Ids(n) && Lockstep(rends, n, bs)
  }

  lemma {:induction false} JacobiSteps<S>(models: seq<Simulator<S>>, conns: seq<Conn>, states: seq<S>,
                                          log: seq<seq<Batch>>, times: seq<real>, dt: real)
    requires |states| == |models| > 0 && Wired(conns, |models|) && |log| <= |times| && AllSized(log, |models|)
    requires forall i | 0 <= i < |log| :: IsJacobi(|models|, log[i])
    ensures RunSteps(models, conns, states, log, times, dt)
            == SimultaneousSteps(models, conns, states, times, dt, |log|)
  {
    if log != [] {
      var k := |log| - 1;
      JacobiSteps(models, conns, states, log[..k], times, dt);
      JacobiStep(models, conns, RunSteps(models, conns, states, log[..k], times, dt), log[k], times[k], dt);
    }
  }

  /** A gs step, logged. */
  ghost predicate IsGaussSeidel(g: seq<int>, bs: seq<Batch>) {
    && g != [] && History(Chain(g), Members(bs)) && Union(Members(bs)) == Ids(|g|)
    && Lockstep(Chain(g), |g|, bs)
  }

  lemma {:induction false} GaussSeidelSteps<S>(models: seq<Simulator<S>>, conns: seq<Conn>, states: seq<S>, g: seq<int>,
                                               log: seq<seq<Batch>>, times: seq<real>, dt: real)
    requires |states| == |models| == |g| > 0 && Wired(conns, |models|) && Permutation(g)
    requires |log| <= |times| && AllSized(log, |models|) && forall i | 0 <= i < |log| :: IsGaussSeidel(g, log[i])
    ensures RunSteps(models, conns, states, log, times, dt) == OneByOneSteps(models, conns, states, g, times, dt, |log|)
  {
    if log != [] {
      var k := |log| - 1;
      GaussSeidelSteps(models, conns, states, g, log[..k], times, dt);
      GaussSeidelStep(models, conns, RunSteps(models, conns, states, log[..k], times, dt), g, log[k], times[k], dt);
    }
  }

  /** Any number of steps in jacobi order is as many simultaneous updates, in a faithful network. */
  method SimulateJacobi<S(!new)>(orders: seq<Listing>, net: Net<S>, times: seq<real>, dt: real) returns (ok: bool)
    requires net.Valid() && |net.models| > 0 && |times| == |orders|
    requires forall i | 0 <= i < |orders| :: Lister(orders[i])
    modifies net, net.table
    ensures ok <==> times == [] || AllConvertible(net.conns, Ids(|net.models|))
    ensures ok ==> net.Valid()
    ensures ok && net.Faithful() ==>
              net.States() == SimultaneousSteps(net.models, net.conns, old(net.States()), times, dt, |times|)
  {
    var n := |net.models|;
    var rends := BuildJacobi(n);
    JacobiFine(n);
    ghost var start := net.States();
    var made := NewMaster(rends, {}, [], net);
    var m := made.value;
    ghost var log;
    ok, log := Simulate(m, times, dt, seq(|times|, _ => Nothing(n)), orders);
    AllPass(m, orders, |orders|);
    if ok {
      assert forall i | 0 <= i < |log| :: Whole(m, log[i]) && IsJacobi(n, log[i]);
      if net.Faithful() { JacobiSteps(net.models, net.conns, start, log, times, dt); }
    }
  }

  /** Any number of steps in gs order is as many rounds of one-by-one updates, in a faithful network. */
  method SimulateGaussSeidel<S(!new)>(g: seq<int>, orders: seq<Listing>, net: Net<S>, times: seq<real>, dt: real)
    returns (ok: bool)
    requires net.Valid() && |g| == |net.models| > 0 && |times| == |orders|
    requires forall i | 0 <= i < |orders| :: Lister(orders[i])
    modifies net, net.table
    ensures ok <==> Permutation(g) && (times == [] || AllConvertible(net.conns, Ids(|net.models|)))
    ensures ok ==> net.Valid()
    ensures ok && net.Faithful() ==>
              net.States() == OneByOneSteps(net.models, net.conns, old(net.States()), g, times, dt, |times|)
  {
    var n := |net.models|;
    var rends := BuildGaussSeidel(g);
    GaussSeidelFine(g);
    ghost var start := net.States();
    var made := NewMaster(rends, {}, [], net);
    if made.Stop? { return false; }
    var m := made.value;
    ghost var log;
    ok, log := Simulate(m, times, dt, seq(|times|, _ => Nothing(n)), orders);
    AllPass(m, orders, |orders|);
    if ok {
      assert forall i | 0 <= i < |log| :: Whole(m, log[i]) && IsGaussSeidel(g, log[i]);
      if net.Faithful() { GaussSeidelSteps(net.models, net.conns, start, g, log, times, dt); }
    }
  }

  lemma {:induction false} AllPass<S(!new)>(m: Master<S>, orders: seq<Listing>, k: nat)
    requires k <= |orders| && m.rends != [] && m.kins == {} && Live(m.rends)
    ensures Passes(m, orders, k) <==> k == 0 || m.Convertibles()
  {
    if k > 0 { AllPass(m, orders, k - 1); }
  }
}
