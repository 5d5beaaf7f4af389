/** The compiled rends enforce the order of the tree: soundness, completeness, and exactly when. */
module OrderTheorem {
  import opened IntSets
  import opened OrderTree
  import opened RendCompiler
  import opened RendCheck
  import opened OrderAcceptance
  import opened RendOrder

  /** With even endings the rend before the last element opens the element's head after all. */
  lemma ThenForm(es: seq<Element>)
    requires |es| >= 2 && EvenEndingsIn(es)
    ensures CompiledElements(es)
            == Then(CompiledElement(es[0]), CompiledElements(es[1..]).head, CompiledElements(es[1..]))
  {
    assert EvenEndingsIn(es[1..]);
  }

  // ---- Nothing more than the tree: every edge is a tree precedence ------------------------

  lemma {:induction false} EdgeSerials(ss: seq<Serial>, u: int, v: int)
    requires EvenEndingsAll(ss) && Edge(CompiledSerials(ss).inner, u, v)
    ensures PrecedesInSerials(ss, u, v)
    decreases ss
  {
    if ss != [] {
      EdgeBeside(CompiledElements(ss[0].elements), CompiledSerials(ss[1..]), u, v);
      if Edge(CompiledElements(ss[0].elements).inner, u, v) {
        EdgeElements(ss[0].elements, u, v);
      } else {
        EdgeSerials(ss[1..], u, v);
      }
    }
  }

  lemma {:induction false} EdgeElements(es: seq<Element>, u: int, v: int)
    requires EvenEndingsIn(es) && Edge(CompiledElements(es).inner, u, v)
    ensures PrecedesInElements(es, u, v)
    decreases es
  {
    if |es| == 1 {
      EdgeElement(es[0], u, v);
    } else if |es| > 1 {
      var a, b := CompiledElement(es[0]), CompiledElements(es[1..]);
      ThenForm(es);
      EdgeThen(a, b, u, v);
      if Edge(a.inner, u, v) {
        EdgeElement(es[0], u, v);
      } else if Edge(b.inner, u, v) {
        EdgeElements(es[1..], u, v);
      } else {
        OwnsElement(es[0]);
        OwnsElements(es[1..]);
      }
    }
  }

  lemma {:induction false} EdgeElement(e: Element, u: int, v: int)
    requires EvenEndingsOf(e) && Edge(CompiledElement(e).inner, u, v)
    ensures PrecedesIn(e, u, v)
    decreases e
  {
    match e {
      case Fmu(_) =>
      case Group(p) =>
        assert CompiledElement(e).inner == CompiledSerials(p.serials).inner;
        EdgeSerials(p.serials, u, v);
    }
  }

  lemma {:induction false} PathPrecedes(p: Parallel, path: seq<int>)
    requires Distinct(p) && EvenEndings(p) && |path| >= 2 && IsPath(Compiled(p).inner, path)
    ensures Precedes(p, path[0], path[|path| - 1])
    decreases |path|
  {
    assert Edge(Compiled(p).inner, path[0], path[1]);
    EdgeSerials(p.serials, path[0], path[1]);
    if |path| > 2 {
      PathSplit(Compiled(p).inner, path);
      PathPrecedes(p, path[1..]);
      TransitiveSerials(p.serials, path[0], path[1], path[|path| - 1]);
    }
  }

  // ---- All of the tree, exactly when it is sealed -------------------------------------------

  ghost predicate FullElements(es: seq<Element>) {
    forall u, v | PrecedesInElements(es, u, v) :: Before(CompiledElements(es).inner, u, v)
  }

  ghost predicate FullElement(e: Element) {
    forall u, v | PrecedesIn(e, u, v) :: Before(CompiledElement(e).inner, u, v)
  }

  ghost predicate FullSerials(ss: seq<Serial>) {
    forall u, v | PrecedesInSerials(ss, u, v) :: Before(CompiledSerials(ss).inner, u, v)
  }

  ghost predicate AllReachTail(b: Block, L: set<int>) {
    forall u | u in L :: ReachesTail(b, u)
  }

  ghost predicate AllFromHead(b: Block, L: set<int>) {
    forall v | v in L :: ReachedFromHead(b, v)
  }

  lemma {:induction false} SealSerials(ss: seq<Serial>)
    requires DistinctSerials(ss) && EvenEndingsAll(ss) && LongSerialsAll(ss)
    ensures SealedSerials(ss) <==> FullSerials(ss)
    ensures SealedSerials(ss) ==> (TailSealedSerials(ss) <==> AllReachTail(CompiledSerials(ss), LeavesOfSerials(ss)))
    ensures SealedSerials(ss) ==> (HeadSealedSerials(ss) <==> AllFromHead(CompiledSerials(ss), LeavesOfSerials(ss)))
    decreases ss
  {
    if ss != [] {
      var es := ss[0].elements;
      var a, b := CompiledElements(es), CompiledSerials(ss[1..]);
      var A, B := LeavesOfElements(es), LeavesOfSerials(ss[1..]);
      SealElements(es);
      SealSerials(ss[1..]);
      OwnsElements(es);
      OwnsSerials(ss[1..]);
      forall u, v
        ensures Before(CompiledSerials(ss).inner, u, v) <==> Before(a.inner, u, v) || Before(b.inner, u, v)
        ensures PrecedesInElements(es, u, v) ==> u in A && !Before(b.inner, u, v)
        ensures PrecedesInSerials(ss[1..], u, v) ==> u in B && !Before(a.inner, u, v)
      {
        BeforeBeside(a, A, b, B, u, v);
        if Before(a.inner, u, v) { BeforeOwned(a, A, u, v); }
        if Before(b.inner, u, v) { BeforeOwned(b, B, u, v); }
        if PrecedesInElements(es, u, v) { PrecedesLeavesElements(es, u, v); }
        if PrecedesInSerials(ss[1..], u, v) { PrecedesLeavesSerials(ss[1..], u, v); }
      }
      assert FullSerials(ss) <==> FullElements(es) && FullSerials(ss[1..]);
      forall u
        ensures u in A ==> (ReachesTail(CompiledSerials(ss), u) <==> ReachesTail(a, u))
        ensures u in B ==> (ReachesTail(CompiledSerials(ss), u) <==> ReachesTail(b, u))
        ensures u in A ==> (ReachedFromHead(CompiledSerials(ss), u) <==> ReachedFromHead(a, u))
        ensures u in B ==> (ReachedFromHead(CompiledSerials(ss), u) <==> ReachedFromHead(b, u))
      {
        EndsBeside(a, A, b, B, u);
      }
    }
  }

  lemma {:induction false} SealElement(e: Element)
    requires DistinctElement(e) && EvenEndingsOf(e) && LongSerialsOf(e)
    ensures SealedElement(e) <==> FullElement(e)
    ensures SealedElement(e) ==> (TailSealed(e) <==> AllReachTail(CompiledElement(e), LeavesOf(e)))
    ensures SealedElement(e) ==> (HeadSealed(e) <==> AllFromHead(CompiledElement(e), LeavesOf(e)))
    decreases e
  {
    match e {
      case Fmu(_) =>
      case Group(p) =>
        assert Distinct(p) && EvenEndings(p) && LongSerials(p);
        SealSerials(p.serials);
        OwnsSerials(p.serials);
        var a, b := Block(p.fmus, p.fmus, []), CompiledSerials(p.serials);
        assert Compiled(p) == Beside(a, b);
        forall u, v | PrecedesIn(e, u, v)
          ensures PrecedesInSerials(p.serials, u, v)
        {
          assert Precedes(p, u, v);
        }
        forall u, v | PrecedesInSerials(p.serials, u, v)
          ensures PrecedesIn(e, u, v)
        {
          assert Precedes(p, u, v);
        }
        forall u
          ensures u in p.fmus ==> ReachesTail(Compiled(p), u) && ReachedFromHead(Compiled(p), u)
          ensures u in LeavesOfSerials(p.serials) ==> (ReachesTail(Compiled(p), u) <==> ReachesTail(b, u))
          ensures u in LeavesOfSerials(p.serials) ==> (ReachedFromHead(Compiled(p), u) <==> ReachedFromHead(b, u))
        {
          EndsBeside(a, p.fmus, b, LeavesOfSerials(p.serials), u);
        }
    }
  }

  lemma {:induction false} SealElements(es: seq<Element>)
    requires es != [] && DistinctElements(es) && EvenEndingsIn(es) && LongSerialsIn(es)
    ensures SealedElements(es) <==> FullElements(es)
    ensures SealedElements(es) ==>
            (TailSealedElements(es) <==> AllReachTail(CompiledElements(es), LeavesOfElements(es)))
    ensures SealedElements(es) ==> (HeadSealedElements(es) <==> AllFromHead(CompiledElements(es), LeavesOfElements(es)))
    decreases es
  {
    SealElement(es[0]);
    OwnsElement(es[0]);
    if |es| == 1 {
      assert LeavesOfElements(es[1..]) == {};
      assert LeavesOfElements(es) == LeavesOf(es[0]) + {};
      assert forall u, v :: PrecedesInElements(es, u, v) <==> PrecedesIn(es[0], u, v);
    } else {
      SealElements(es[1..]);
      OwnsElements(es[1..]);
      SealThen(es);
      if SealedElements(es) {
        SealThenTail(es);
        SealThenHead(es);
      }
    }
  }

  ghost predicate Halves(es: seq<Element>) {
    && |es| >= 2
    && DistinctElements(es) && EvenEndingsIn(es)
    && Owns(CompiledElement(es[0]), LeavesOf(es[0]))
    && Owns(CompiledElements(es[1..]), LeavesOfElements(es[1..]))
    && (SealedElement(es[0]) <==> FullElement(es[0]))
    && (SealedElements(es[1..]) <==> FullElements(es[1..]))
    && (SealedElement(es[0]) ==> (TailSealed(es[0]) <==> AllReachTail(CompiledElement(es[0]), LeavesOf(es[0]))))
    && (SealedElement(es[0]) ==> (HeadSealed(es[0]) <==> AllFromHead(CompiledElement(es[0]), LeavesOf(es[0]))))
    && (SealedElements(es[1..]) ==>
          (TailSealedElements(es[1..]) <==> AllReachTail(CompiledElements(es[1..]), LeavesOfElements(es[1..]))))
    && (SealedElements(es[1..]) ==>
          (HeadSealedElements(es[1..]) <==> AllFromHead(CompiledElements(es[1..]), LeavesOfElements(es[1..]))))
  }

  lemma SealThen(es: seq<Element>)
    requires Halves(es)
    ensures SealedElements(es) <==> FullElements(es)
  {
    var a, b := CompiledElement(es[0]), CompiledElements(es[1..]);
    var A, B := LeavesOf(es[0]), LeavesOfElements(es[1..]);
    ThenForm(es);
    forall u, v
      ensures Before(CompiledElements(es).inner, u, v) <==> Passes(a, b, u, v)
      ensures Before(a.inner, u, v) || PrecedesIn(es[0], u, v) ==> u in A && v in A
      ensures Before(b.inner, u, v) || PrecedesInElements(es[1..], u, v) ==> u in B && v in B
      ensures ReachesTail(a, u) ==> u in A
      ensures ReachedFromHead(b, v) ==> v in B
    {
      BeforeThen(a, A, b, B, u, v);
      if Before(a.inner, u, v) { BeforeOwned(a, A, u, v); }
      if Before(b.inner, u, v) { BeforeOwned(b, B, u, v); }
      if ReachesTail(a, u) { ReachesTailOwned(a, A, u); }
      if ReachedFromHead(b, v) { ReachedFromHeadOwned(b, B, v); }
      if PrecedesIn(es[0], u, v) { PrecedesLeaves(es[0], u, v); }
      if PrecedesInElements(es[1..], u, v) { PrecedesLeavesElements(es[1..], u, v); }
    }
    if FullElements(es) {
      assert FullElement(es[0]) by {
        forall u, v | PrecedesIn(es[0], u, v)
          ensures Before(a.inner, u, v)
        {
          assert PrecedesInElements(es, u, v);
        }
      }
      assert FullElements(es[1..]) by {
        forall u, v | PrecedesInElements(es[1..], u, v)
          ensures Before(b.inner, u, v)
        {
          assert PrecedesInElements(es, u, v);
        }
      }
      if A != {} && B != {} {
        var someA := PickOne(A);
        var someB := PickOne(B);
        forall u | u in A
          ensures ReachesTail(a, u)
        {
          assert PrecedesInElements(es, u, someB);
        }
        forall v | v in B
          ensures ReachedFromHead(b, v)
        {
          assert PrecedesInElements(es, someA, v);
        }
      }
    }
    if SealedElements(es) {
      forall u, v | PrecedesInElements(es, u, v)
        ensures Before(CompiledElements(es).inner, u, v)
      {
        if u in A && v in B {
          assert ReachesTail(a, u) && ReachedFromHead(b, v);
        }
      }
    }
  }

  lemma SealThenTail(es: seq<Element>)
    requires Halves(es) && SealedElements(es)
    ensures TailSealedElements(es) <==> AllReachTail(CompiledElements(es), LeavesOfElements(es))
  {
    var a, b := CompiledElement(es[0]), CompiledElements(es[1..]);
    var A, B := LeavesOf(es[0]), LeavesOfElements(es[1..]);
    ThenForm(es);
    forall u
      ensures u in B ==> (ReachesTail(CompiledElements(es), u) <==> ReachesTail(b, u))
      ensures u in A ==> (ReachesTail(CompiledElements(es), u)
                          <==> ReachesTail(a, u) && exists h | h in b.head :: ReachesTail(b, h))
    {
      TailThen(a, A, b, B, u);
    }
    if LeavesOfElements(es) != {} {
      if TailSealedElements(es) {
        var v := PickOne(B);
        if A != {} {
          assert ReachedFromHead(b, v);
          var h :| h in b.head && (h == v || Before(b.inner, h, v));
          assert h in B && ReachesTail(b, h);
        }
        forall u | u in LeavesOfElements(es)
          ensures ReachesTail(CompiledElements(es), u)
        {
          if u in A {
            assert A != {};
          }
        }
      }
      if AllReachTail(CompiledElements(es), LeavesOfElements(es)) {
        var u := PickOne(LeavesOfElements(es));
        assert ReachesTail(CompiledElements(es), u);
        var t :| t in b.tail;
        assert t in B;
        forall v | v in B
          ensures ReachesTail(b, v)
        {
          assert v in LeavesOfElements(es);
        }
      }
    } else {
      assert forall u | u in B :: u in LeavesOfElements(es);
    }
  }

  lemma SealThenHead(es: seq<Element>)
    requires Halves(es) && SealedElements(es)
    ensures HeadSealedElements(es) <==> AllFromHead(CompiledElements(es), LeavesOfElements(es))
  {
    var a, b := CompiledElement(es[0]), CompiledElements(es[1..]);
    var A, B := LeavesOf(es[0]), LeavesOfElements(es[1..]);
    ThenForm(es);
    forall v
      ensures v in A ==> (ReachedFromHead(CompiledElements(es), v) <==> ReachedFromHead(a, v))
      ensures v in B ==> (ReachedFromHead(CompiledElements(es), v)
                          <==> ReachedFromHead(b, v) && exists t | t in a.tail :: ReachedFromHead(a, t))
    {
      HeadThen(a, A, b, B, v);
    }
    if LeavesOfElements(es) != {} {
      if HeadSealedElements(es) {
        var u := PickOne(A);
        if B != {} {
          assert ReachesTail(a, u);
          var t :| t in a.tail && (t == u || Before(a.inner, u, t));
          assert t in A && ReachedFromHead(a, t);
        }
        forall v | v in LeavesOfElements(es)
          ensures ReachedFromHead(CompiledElements(es), v)
        {
          if v in B {
            assert B != {};
          }
        }
      }
      if AllFromHead(CompiledElements(es), LeavesOfElements(es)) {
        var v := PickOne(LeavesOfElements(es));
        assert ReachedFromHead(CompiledElements(es), v);
        var h :| h in a.head;
        assert h in A;
        forall u | u in A
          ensures ReachedFromHead(a, u)
        {
          assert u in LeavesOfElements(es);
        }
      }
    }
  }

  // ---- The whole vector ----------------------------------------------------------------------

  lemma BeforeOrder(p: Parallel, u: int, v: int)
    ensures Before(ExecutionOrder(p), u, v) <==> Before(Compiled(p).inner, u, v)
  {
    var b := Compiled(p);
    forall x, y
      ensures Edge(ExecutionOrder(p), x, y) <==> Edge(b.inner, x, y)
    {
      EdgeConcat([Rend({}, b.head)] + b.inner, [Rend(b.tail, {})], x, y);
      EdgeConcat([Rend({}, b.head)], b.inner, x, y);
    }
    if Before(b.inner, u, v) { BeforeMonotone(b.inner, ExecutionOrder(p), u, v); }
    if Before(ExecutionOrder(p), u, v) { BeforeMonotone(ExecutionOrder(p), b.inner, u, v); }
  }

  /** The rends never order two FMUs that the tree leaves unordered. */
  lemma OrderSound(p: Parallel, u: int, v: int)
    requires Distinct(p) && EvenEndings(p) && Before(ExecutionOrder(p), u, v)
    ensures Precedes(p, u, v)
  {
    BeforeOrder(p, u, v);
    var path :| |path| >= 2 && IsPath(Compiled(p).inner, path) && path[0] == u && path[|path| - 1] == v;
    PathPrecedes(p, path);
  }

  /** The rends enforce the whole order of an accepted tree if and only if the tree is sealed. */
  lemma OrderCompleteIffSealed(p: Parallel)
    requires LongSerials(p) && Distinct(p) && EvenEndings(p)
    ensures (forall u, v | Precedes(p, u, v) :: Before(ExecutionOrder(p), u, v)) <==> Sealed(p)
  {
    SealSerials(p.serials);
    forall u, v
      ensures Before(ExecutionOrder(p), u, v) <==> Before(CompiledSerials(p.serials).inner, u, v)
    {
      BeforeOrder(p, u, v);
    }
  }

  /** Accepted trees without empty groups: the closure of the rends is the order of the tree. */
  lemma OrderExact(p: Parallel, n: nat)
    requires LongSerials(p) && NoEmptyGroup(p) && Accepted(ExecutionOrder(p), n)
    ensures forall u, v :: Before(ExecutionOrder(p), u, v) <==> Precedes(p, u, v)
  {
    AcceptedIffPlain(p, n);
    PlainIsEvenSerials(p.serials);
    NoEmptySerials(p.serials);
    OrderCompleteIffSealed(p);
    forall u, v | Before(ExecutionOrder(p), u, v)
      ensures Precedes(p, u, v)
    {
      OrderSound(p, u, v);
    }
  }
}
