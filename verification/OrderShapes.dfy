/** What compiled orders look like to the scheduler, and the two built-in orders. */
module OrderShapes {
  import opened IntSets
  import opened OrderTree
  import opened RendCompiler
  import opened OrderAcceptance
  import opened RendOrder

  /** The rend that awaits an FMU comes after the rend that opens it. */
  ghost predicate Forward(rends: seq<Rend>) {
    forall i, j, x | 0 <= i < |rends| && 0 <= j < |rends| && x in rends[i].children && x in rends[j].parents :: i < j
  }

  /** Every rend but the root that opens something also awaits something. */
  ghost predicate Live(rends: seq<Rend>) {
    forall i | 0 < i < |rends| :: rends[i].children != {} ==> rends[i].parents != {}
  }

  /** Only ids of L occur. */
  ghost predicate Speaks(rends: seq<Rend>, L: set<int>) {
    forall i | 0 <= i < |rends| :: rends[i].parents <= L && rends[i].children <= L
  }

  lemma SpeaksByCounts(b: Block, L: set<int>)
    requires forall x | x !in L :: OpenCount(b, x, true) == AwaitCount(b, x) == 0
    ensures Speaks(b.inner, L) && b.head <= L && b.tail <= L
  {
    OwnsByCounts(b, L);
    forall i | 0 <= i < |b.inner|
      ensures b.inner[i].parents <= L && b.inner[i].children <= L
    {
      forall x { Mentioned(b.inner, i, x); }
      SubsetByElements(b.inner[i].parents, L);
      SubsetByElements(b.inner[i].children, L);
    }
  }

  lemma ForwardConcat(a: seq<Rend>, A: set<int>, b: seq<Rend>, B: set<int>)
    requires Forward(a) && Forward(b) && Speaks(a, A) && Speaks(b, B)
    requires forall i, j, x | 0 <= i < |b| && 0 <= j < |a| && x in b[i].children :: x !in a[j].parents
    ensures Forward(a + b) && Speaks(a + b, A + B)
  {
    var c := a + b;
    forall i, j, x | 0 <= i < |c| && 0 <= j < |c| && x in c[i].children && x in c[j].parents
      ensures i < j
    {
      if i >= |a| {
        assert c[i] == b[i - |a|];
        if j >= |a| { assert c[j] == b[j - |a|]; }
      }
    }
    forall i | 0 <= i < |c|
      ensures c[i].parents <= A + B && c[i].children <= A + B
    {
      if i >= |a| { assert c[i] == b[i - |a|]; }
    }
  }

  lemma {:induction false} ForwardSerials(ss: seq<Serial>)
    requires DistinctSerials(ss)
    ensures Forward(CompiledSerials(ss).inner) && Speaks(CompiledSerials(ss).inner, LeavesOfSerials(ss))
    decreases ss
  {
    if ss != [] {
      ForwardElements(ss[0].elements);
      ForwardSerials(ss[1..]);
      ForwardConcat(CompiledElements(ss[0].elements).inner, LeavesOfElements(ss[0].elements),
                    CompiledSerials(ss[1..]).inner, LeavesOfSerials(ss[1..]));
    }
  }

  lemma {:induction false} ForwardElements(es: seq<Element>)
    requires DistinctElements(es)
    ensures Forward(CompiledElements(es).inner) && Speaks(CompiledElements(es).inner, LeavesOfElements(es))
    decreases es
  {
    if es != [] {
      ForwardElement(es[0]);
      ForwardElements(es[1..]);
      if |es| > 1 {
        var a, b := CompiledElement(es[0]), CompiledElements(es[1..]);
        var A, B := LeavesOf(es[0]), LeavesOfElements(es[1..]);
        OwnsElement(es[0]);
        OwnsElements(es[1..]);
        var mid := [Rend(a.tail, if |es| == 2 then b.tail else b.head)];
        ForwardConcat(a.inner, A, mid, A + B);
        ForwardConcat(a.inner + mid, A + (A + B), b.inner, B);
        assert A + (A + B) + B == A + B;
      }
    }
  }

  lemma {:induction false} ForwardElement(e: Element)
    requires DistinctElement(e)
    ensures Forward(CompiledElement(e).inner) && Speaks(CompiledElement(e).inner, LeavesOf(e))
    decreases e
  {
    match e {
      case Fmu(_) =>
      case Group(p) =>
        assert Distinct(p);
        ForwardSerials(p.serials);
        assert CompiledElement(e).inner == CompiledSerials(p.serials).inner;
    }
  }

  lemma {:induction false} AwaitingSerials(ss: seq<Serial>)
    requires NoEmptyGroupAll(ss) && LongSerialsAll(ss)
    ensures forall i | 0 <= i < |CompiledSerials(ss).inner| :: CompiledSerials(ss).inner[i].parents != {}
    decreases ss
  {
    if ss != [] {
      AwaitingElements(ss[0].elements);
      AwaitingSerials(ss[1..]);
    }
  }

  lemma {:induction false} AwaitingElements(es: seq<Element>)
    requires NoEmptyGroupIn(es) && LongSerialsIn(es)
    ensures forall i | 0 <= i < |CompiledElements(es).inner| :: CompiledElements(es).inner[i].parents != {}
    decreases es
  {
    if es != [] {
      AwaitingElement(es[0]);
      AwaitingElements(es[1..]);
      assert CompiledElements([es[0]]).tail == CompiledElement(es[0]).tail;
      assert NoEmptyGroupIn([es[0]]) && LongSerialsIn([es[0]]);
      EndsElements([es[0]]);
    }
  }

  lemma {:induction false} AwaitingElement(e: Element)
    requires NoEmptyGroupOf(e) && LongSerialsOf(e)
    ensures forall i | 0 <= i < |CompiledElement(e).inner| :: CompiledElement(e).inner[i].parents != {}
    decreases e
  {
    match e {
      case Fmu(_) =>
      case Group(p) =>
        assert NoEmptyGroup(p) && LongSerials(p);
        AwaitingSerials(p.serials);
        assert CompiledElement(e).inner == CompiledSerials(p.serials).inner;
    }
  }

  /** In a compiled order the rend indices are a topological order. */
  lemma CompiledForward(p: Parallel)
    requires Distinct(p)
    ensures Forward(ExecutionOrder(p)) && ExecutionOrder(p)[0].parents == {}
  {
    var b, L := Compiled(p), Leaves(p);
    ForwardSerials(p.serials);
    forall x { OwnParallel(p, x); }
    SpeaksByCounts(b, L);
    ForwardConcat([Rend({}, b.head)], L, b.inner, L);
    ForwardConcat([Rend({}, b.head)] + b.inner, L + L, [Rend(b.tail, {})], L);
  }

  /** Without empty groups no rend is dead. */
  lemma CompiledLive(p: Parallel)
    requires NoEmptyGroup(p) && LongSerials(p)
    ensures Live(ExecutionOrder(p))
  {
    AwaitingSerials(p.serials);
    var rends, b := ExecutionOrder(p), Compiled(p);
    forall i | 0 < i < |rends|
      ensures rends[i].children != {} ==> rends[i].parents != {}
    {
      assert b.inner == CompiledSerials(p.serials).inner;
      if i <= |b.inner| {
        assert rends[i] == b.inner[i - 1];
      } else {
        assert rends[i] == Rend(b.tail, {});
      }
    }
  }

  // ---- -m jacobi and -m gs -------------------------------------------------------------------

  function JacobiTree(n: nat): Parallel {
    Parallel(Ids(n), [])
  }

  method BuildJacobi(n: nat) returns (rends: seq<Rend>)
    ensures rends == ExecutionOrder(JacobiTree(n))
  {
    rends := [Rend({}, {}), Rend({}, {})];
    SameByElements(Ids(0), {});
    for x := 0 to n
      invariant |rends| == 2 && rends[0] == Rend({}, Ids(x)) && rends[1] == Rend(Ids(x), {})
    {
      SameByElements(Ids(x + 1), Ids(x) + {x});
      rends := rends[0 := rends[0].(children := rends[0].children + {x})];
      rends := rends[1 := rends[1].(parents := rends[1].parents + {x})];
    }
    assert Ids(n) + {} == Ids(n);
    assert Compiled(JacobiTree(n)) == Block(Ids(n), Ids(n), []);
  }

  function Fmus(g: seq<int>): (es: seq<Element>)
    ensures |es| == |g| && forall i | 0 <= i < |g| :: es[i] == Fmu(g[i])
  {
    if g == [] then [] else [Fmu(g[0])] + Fmus(g[1..])
  }

  /** g[0], then g[1], and so on. */
  function GaussSeidelTree(g: seq<int>): Parallel {
    Parallel({}, [Serial(Fmus(g))])
  }

  function Chain(g: seq<int>): (rends: seq<Rend>)
    ensures |rends| == |g| + 1
  {
    seq(|g| + 1, i requires 0 <= i <= |g| => Rend(if i == 0 then {} else {g[i - 1]}, if i == |g| then {} else {g[i]}))
  }

  method BuildGaussSeidel(g: seq<int>) returns (rends: seq<Rend>)
    ensures rends == Chain(g)
  {
    rends := seq(|g| + 1, _ => Rend({}, {}));
    var x := 0;
    while x < |g|
      invariant 0 <= x <= |g| && |rends| == |g| + 1
      invariant forall i | 0 <= i < x :: rends[i].children == {g[i]}
      invariant forall i | x <= i <= |g| :: rends[i].children == {}
      invariant forall i | 0 < i <= x :: rends[i].parents == {g[i - 1]}
      invariant forall i | x < i <= |g| :: rends[i].parents == {}
      invariant rends[0].parents == {}
    {
      assert {} + {g[x]} == {g[x]};
      rends := rends[x := rends[x].(children := rends[x].children + {g[x]})];
      rends := rends[x + 1 := rends[x + 1].(parents := rends[x + 1].parents + {g[x]})];
      x := x + 1;
    }
    forall i | 0 <= i <= |g|
      ensures rends[i] == Chain(g)[i]
    {
      assert rends[i] == Rend(rends[i].parents, rends[i].children);
    }
  }

  lemma {:induction false} ChainBlock(g: seq<int>)
    requires g != []
    ensures CompiledElements(Fmus(g)).head == {g[0]} && CompiledElements(Fmus(g)).tail == {g[|g| - 1]}
    ensures CompiledElements(Fmus(g)).inner == Chain(g)[1..|g|]
  {
    var es := Fmus(g);
    if |g| > 1 {
      ChainBlock(g[1..]);
      assert es[1..] == Fmus(g[1..]);
      assert es[0] == Fmu(g[0]);
      var b := CompiledElements(es[1..]);
      assert b.head == {g[1]};
      if |g| == 2 { assert b.tail == {g[1]}; }
      assert CompiledElements(es).inner == [] + [Rend({g[0]}, {g[1]})] + b.inner;
    }
  }

  /** The -m gs vector is what the serial tree of the same FMUs compiles to. */
  lemma ChainIsCompiled(g: seq<int>)
    requires g != []
    ensures ExecutionOrder(GaussSeidelTree(g)) == Chain(g)
  {
    ChainBlock(g);
    var s, b := GaussSeidelTree(g).serials, CompiledElements(Fmus(g));
    assert s[1..] == [];
    assert CompiledSerials(s) == Block(b.head + {}, b.tail + {}, b.inner + []);
    assert Compiled(GaussSeidelTree(g)) == b;
  }
}
