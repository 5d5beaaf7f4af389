/** A tree whose vector is accepted and has no dead rend names every FMU once. */
module LiveTrees {
  import opened IntSets
  import opened OrderTree
  import opened RendCompiler
  import opened RendCheck
  import opened OrderAcceptance
  import opened OrderShapes

  /** No rend inside the block waits for nobody and yet opens somebody. */
  ghost predicate LiveBlock(b: Block) {
    forall i | 0 <= i < |b.inner| :: b.inner[i].children != {} ==> b.inner[i].parents != {}
  }

  /** Inside the block nobody is opened twice, and nobody is awaited twice. */
  ghost predicate Sparse(b: Block) {
    forall x :: ChildCount(b.inner, x) <= 1 && AwaitCount(b, x) <= 1
  }

  /** x is both in the head and opened inside, y only in the head, and awaited inside. */
  ghost predicate TwistedBy(b: Block, x: int, y: int) {
    && x in b.head && ChildCount(b.inner, x) >= 1
    && y in b.head && y !in b.tail && ChildCount(b.inner, y) == 0 && ParentCount(b.inner, y) >= 1
  }

  /** y is awaited inside, but nothing opens it. */
  ghost predicate OrphanBy(b: Block, y: int) {
    y !in b.head && y !in b.tail && ChildCount(b.inner, y) == 0 && ParentCount(b.inner, y) >= 1
  }

  ghost predicate Crooked(b: Block) {
    (exists x, y :: TwistedBy(b, x, y)) || exists y :: OrphanBy(b, y)
  }

  lemma LiveThen(a: Block, next: set<int>, b: Block)
    requires LiveBlock(Then(a, next, b))
    ensures LiveBlock(a) && LiveBlock(b) && (next != {} ==> a.tail != {})
  {
    var inner := Then(a, next, b).inner;
    assert forall i | 0 <= i < |a.inner| :: inner[i] == a.inner[i];
    assert inner[|a.inner|] == Rend(a.tail, next);
    assert forall i | 0 <= i < |b.inner| :: inner[|a.inner| + 1 + i] == b.inner[i];
  }

  lemma LiveBeside(a: Block, b: Block)
    requires LiveBlock(Beside(a, b))
    ensures LiveBlock(a) && LiveBlock(b)
  {
    var inner := Beside(a, b).inner;
    assert forall i | 0 <= i < |a.inner| :: inner[i] == a.inner[i];
    assert forall i | 0 <= i < |b.inner| :: inner[|a.inner| + i] == b.inner[i];
  }

  // ---- What ends must begin --------------------------------------------------------------------------

  lemma {:induction false} BeginsElements(es: seq<Element>)
    requires LiveBlock(CompiledElements(es)) && CompiledElements(es).head == {}
    ensures CompiledElements(es).tail == {}
    decreases es
  {
    if |es| == 1 {
      BeginsElement(es[0]);
    } else if |es| > 1 {
      var a, b := CompiledElement(es[0]), CompiledElements(es[1..]);
      LiveThen(a, if |es| == 2 then b.tail else b.head, b);
      BeginsElement(es[0]);
      if |es| > 2 { BeginsElements(es[1..]); }
    }
  }

  lemma {:induction false} BeginsElement(e: Element)
    requires LiveBlock(CompiledElement(e)) && CompiledElement(e).head == {}
    ensures CompiledElement(e).tail == {}
    decreases e
  {
    match e {
      case Fmu(id) => assert id in CompiledElement(e).head;
      case Group(p) =>
        var b := CompiledSerials(p.serials);
        assert p.fmus <= Compiled(p).head && b.head <= Compiled(p).head;
        assert LiveBlock(b);
        BeginsSerials(p.serials);
    }
  }

  lemma {:induction false} BeginsSerials(ss: seq<Serial>)
    requires LiveBlock(CompiledSerials(ss)) && CompiledSerials(ss).head == {}
    ensures CompiledSerials(ss).tail == {}
    decreases ss
  {
    if ss != [] {
      var a, b := CompiledElements(ss[0].elements), CompiledSerials(ss[1..]);
      LiveBeside(a, b);
      assert a.head <= CompiledSerials(ss).head && b.head <= CompiledSerials(ss).head;
      BeginsElements(ss[0].elements);
      BeginsSerials(ss[1..]);
    }
  }

  // ---- Crooked parts make a crooked whole ------------------------------------------------------------

  /** The block mentions only members of L and awaits each of them. */
  ghost predicate Covers(b: Block, L: set<int>) {
    && (forall x | x !in L :: OpenCount(b, x, true) == 0 && AwaitCount(b, x) == 0)
    && forall x | x in L :: AwaitCount(b, x) >= 1
  }

  lemma CoversElement(e: Element)
    ensures Covers(CompiledElement(e), LeavesOf(e))
  {
    forall x ensures x !in LeavesOf(e) ==>
        OpenCount(CompiledElement(e), x, true) == 0 && AwaitCount(CompiledElement(e), x) == 0
             ensures x in LeavesOf(e) ==> AwaitCount(CompiledElement(e), x) >= 1
    {
      OwnElement(e, x);
    }
  }

  lemma CoversElements(es: seq<Element>)
    ensures Covers(CompiledElements(es), LeavesOfElements(es))
  {
    forall x ensures x !in LeavesOfElements(es) ==>
        OpenCount(CompiledElements(es), x, true) == 0 && AwaitCount(CompiledElements(es), x) == 0
             ensures x in LeavesOfElements(es) ==> AwaitCount(CompiledElements(es), x) >= 1
    {
      OwnElements(es, x);
    }
  }

  lemma CoversSerials(ss: seq<Serial>)
    ensures Covers(CompiledSerials(ss), LeavesOfSerials(ss))
  {
    forall x ensures x !in LeavesOfSerials(ss) ==>
        OpenCount(CompiledSerials(ss), x, true) == 0 && AwaitCount(CompiledSerials(ss), x) == 0
             ensures x in LeavesOfSerials(ss) ==> AwaitCount(CompiledSerials(ss), x) >= 1
    {
      OwnSerials(ss, x);
    }
  }

  lemma ThenSparse(a: Block, A: set<int>, next: set<int>, r: Block, R: set<int>)
    requires Covers(a, A) && Covers(r, R) && Sparse(Then(a, next, r))
    ensures Sparse(a) && Sparse(r) && A !! R
  {
    forall x
      ensures ChildCount(a.inner, x) <= 1 && ChildCount(r.inner, x) <= 1 && AwaitCount(a, x) + AwaitCount(r, x) <= 1
    {
      CountThen(a, next, r, x);
      assert ChildCount(Then(a, next, r).inner, x) <= 1 && AwaitCount(Then(a, next, r), x) <= 1;
    }
    forall x | x in A ensures x !in R {
      assert AwaitCount(a, x) + AwaitCount(r, x) <= 1;
    }
    DisjointByElements(A, R);
  }

  lemma CrookedFirst(a: Block, A: set<int>, next: set<int>, r: Block, R: set<int>)
    requires Covers(a, A) && Covers(r, R) && A !! R && (forall x | x in next :: x in R) && Crooked(a)
    ensures Crooked(Then(a, next, r))
  {
    var b := Then(a, next, r);
    if x, y :| TwistedBy(a, x, y) {
      CountThen(a, next, r, x);
      CountThen(a, next, r, y);
      assert y in A;
      assert TwistedBy(b, x, y);
    } else {
      var y :| OrphanBy(a, y);
      CountThen(a, next, r, y);
      assert y in A;
      assert OrphanBy(b, y);
    }
  }

  lemma CrookedRest(a: Block, A: set<int>, next: set<int>, r: Block, R: set<int>)
    requires Covers(a, A) && Covers(r, R) && A !! R && Crooked(r) && Sparse(Then(a, next, r))
    requires next == r.head || next == r.tail
    ensures Crooked(Then(a, next, r))
  {
    var b := Then(a, next, r);
    if x, y :| TwistedBy(r, x, y) {
      CountThen(a, next, r, x);
      CountThen(a, next, r, y);
      assert ChildCount(b.inner, x) <= 1;
      assert y in R;
      assert OrphanBy(b, y);
    } else {
      var y :| OrphanBy(r, y);
      CountThen(a, next, r, y);
      assert y in R;
      assert OrphanBy(b, y);
    }
  }

  /** whole is part beside other, in whichever order. */
  ghost predicate Combines(whole: Block, part: Block, other: Block) {
    && whole.head == part.head + other.head && whole.tail == part.tail + other.tail
    && forall x :: && ChildCount(whole.inner, x) == ChildCount(part.inner, x) + ChildCount(other.inner, x)
                   && ParentCount(whole.inner, x) == ParentCount(part.inner, x) + ParentCount(other.inner, x)
  }

  lemma CrookedPart(whole: Block, part: Block, other: Block, O: set<int>)
    requires Combines(whole, part, other) && Covers(other, O) && Sparse(whole) && Crooked(part)
    ensures Crooked(whole)
  {
    if x, y :| TwistedBy(part, x, y) {
      assert AwaitCount(whole, y) <= 1;
      assert y in O ==> AwaitCount(other, y) >= 1;
      assert TwistedBy(whole, x, y);
    } else {
      var y :| OrphanBy(part, y);
      assert AwaitCount(whole, y) <= 1;
      assert y in O ==> AwaitCount(other, y) >= 1;
      assert OrphanBy(whole, y);
    }
  }

  lemma BesideCombines(a: Block, b: Block)
    ensures Combines(Beside(a, b), a, b) && Combines(Beside(a, b), b, a)
  {
    forall x
      ensures ChildCount(Beside(a, b).inner, x) == ChildCount(a.inner, x) + ChildCount(b.inner, x)
      ensures ParentCount(Beside(a, b).inner, x) == ParentCount(a.inner, x) + ParentCount(b.inner, x)
    {
      CountBeside(a, b, x);
    }
  }

  lemma PartSparse(whole: Block, part: Block, other: Block)
    requires Combines(whole, part, other) && Sparse(whole)
    ensures Sparse(part)
  {
    forall x ensures ChildCount(part.inner, x) <= 1 && AwaitCount(part, x) <= 1 {
      assert ChildCount(whole.inner, x) <= 1 && AwaitCount(whole, x) <= 1;
    }
  }

  // ---- Straight means distinct -----------------------------------------------------------------------

  lemma {:induction false} StraightElements(es: seq<Element>)
    requires |es| >= 2 && LongSerialsIn(es) && LiveBlock(CompiledElements(es)) && Sparse(CompiledElements(es))
    ensures DistinctElements(es) || Crooked(CompiledElements(es))
    decreases es
  {
    var a, r := CompiledElement(es[0]), CompiledElements(es[1..]);
    var A, R := LeavesOf(es[0]), LeavesOfElements(es[1..]);
    var next := if |es| == 2 then r.tail else r.head;
    CoversElement(es[0]);
    CoversElements(es[1..]);
    LiveThen(a, next, r);
    ThenSparse(a, A, next, r, R);
    StraightElement(es[0]);
    if |es| > 2 {
      StraightElements(es[1..]);
    } else {
      assert es[1..] == [es[1]] && es[1..][1..] == [];
      StraightElement(es[1]);
      DisjointByElements(LeavesOf(es[1]), {});
      assert DistinctElements(es[1..]) <==> DistinctElement(es[1]);
    }
    if Crooked(a) {
      forall x | x in next ensures x in R {
        assert x !in R ==> OpenCount(r, x, true) == 0 && AwaitCount(r, x) == 0;
      }
      CrookedFirst(a, A, next, r, R);
    } else if Crooked(r) {
      CrookedRest(a, A, next, r, R);
    }
  }

  lemma {:induction false} StraightElement(e: Element)
    requires LongSerialsOf(e) && LiveBlock(CompiledElement(e)) && Sparse(CompiledElement(e))
    ensures DistinctElement(e) || Crooked(CompiledElement(e))
    decreases e
  {
    match e {
      case Fmu(_) =>
      case Group(p) => StraightParallel(p);
    }
  }

  lemma {:induction false} StraightSerials(ss: seq<Serial>)
    requires LongSerialsAll(ss) && LiveBlock(CompiledSerials(ss)) && Sparse(CompiledSerials(ss))
    ensures DistinctSerials(ss) || Crooked(CompiledSerials(ss))
    decreases ss
  {
    if ss != [] {
      var es := ss[0].elements;
      var a, r := CompiledElements(es), CompiledSerials(ss[1..]);
      BesideCombines(a, r);
      LiveBeside(a, r);
      PartSparse(Beside(a, r), a, r);
      PartSparse(Beside(a, r), r, a);
      CoversElements(es);
      CoversSerials(ss[1..]);
      StraightElements(es);
      StraightSerials(ss[1..]);
      if Crooked(a) {
        CrookedPart(Beside(a, r), a, r, LeavesOfSerials(ss[1..]));
      } else if Crooked(r) {
        CrookedPart(Beside(a, r), r, a, LeavesOfElements(es));
      } else {
        SerialsApart(ss);
      }
    }
  }

  /** Two serials of a group cannot share an FMU: it would be awaited or opened twice. */
  lemma SerialsApart(ss: seq<Serial>)
    requires ss != [] && LongSerialsAll(ss) && Sparse(CompiledSerials(ss))
    ensures LeavesOfElements(ss[0].elements) !! LeavesOfSerials(ss[1..])
  {
    var es := ss[0].elements;
    var a, r := CompiledElements(es), CompiledSerials(ss[1..]);
    forall x | x in LeavesOfElements(es) ensures x !in LeavesOfSerials(ss[1..]) {
      CountBeside(a, r, x);
      OwnElements(es, x);
      OwnSerials(ss[1..], x);
      assert ChildCount(CompiledSerials(ss).inner, x) <= 1 && AwaitCount(CompiledSerials(ss), x) <= 1;
      if x in a.tail && x in r.tail {
        TailOpened(es, x);
        TailOpenedInSerials(ss[1..], x);
      }
    }
    DisjointByElements(LeavesOfElements(es), LeavesOfSerials(ss[1..]));
  }

  /** Where a serial ends, it began: with an FMU that only whoever precedes the group can open. */
  lemma {:induction false} SerialsBegin(ss: seq<Serial>, x: int) returns (y: int)
    requires LongSerialsAll(ss) && DistinctSerials(ss) && LiveBlock(CompiledSerials(ss))
             && x in CompiledSerials(ss).tail
    ensures var b := CompiledSerials(ss);
            y in b.head && y !in b.tail && ChildCount(b.inner, y) == 0 && ParentCount(b.inner, y) >= 1
    decreases ss
  {
    var es := ss[0].elements;
    var a, r := CompiledElements(es), CompiledSerials(ss[1..]);
    LiveBeside(a, r);
    if x in a.tail {
      if a.head == {} { BeginsElements(es); }
      y := PickOne(a.head);
      BeginsApart(es, y);
      OwnSerials(ss[1..], y);
      HeadNotOpened(es, y);
    } else {
      y := SerialsBegin(ss[1..], x);
      OwnElements(es, y);
      OwnSerials(ss[1..], y);
    }
    CountBeside(a, r, y);
  }

  lemma BeginsApart(es: seq<Element>, y: int)
    requires |es| >= 2 && DistinctElements(es) && y in CompiledElements(es).head
    ensures y !in CompiledElements(es).tail && ParentCount(CompiledElements(es).inner, y) >= 1
            && y in LeavesOfElements(es)
  {
    var r := CompiledElements(es[1..]);
    OwnElement(es[0], y);
    OwnElements(es[1..], y);
    OwnElements(es, y);
  }

  lemma {:induction false} StraightParallel(p: Parallel)
    requires LongSerials(p) && LiveBlock(Compiled(p)) && Sparse(Compiled(p))
    ensures Distinct(p) || Crooked(Compiled(p))
    decreases p
  {
    var b, s, f := Compiled(p), CompiledSerials(p.serials), Block(p.fmus, p.fmus, []);
    assert Combines(b, s, f) by {
      assert p.fmus + s.head == s.head + p.fmus && p.fmus + s.tail == s.tail + p.fmus;
    }
    assert Covers(f, p.fmus);
    PartSparse(b, s, f);
    assert LiveBlock(s);
    StraightSerials(p.serials);
    if Crooked(s) {
      CrookedPart(b, s, f, p.fmus);
    } else if !(p.fmus !! LeavesOfSerials(p.serials)) {
      Overlapping(p);
    }
  }

  /** An FMU both beside and inside a serial of the group: the group is twisted. */
  lemma Overlapping(p: Parallel)
    requires LongSerials(p) && LiveBlock(Compiled(p)) && Sparse(Compiled(p)) && DistinctSerials(p.serials)
    requires !(p.fmus !! LeavesOfSerials(p.serials))
    ensures Crooked(Compiled(p))
  {
    var b, s := Compiled(p), CompiledSerials(p.serials);
    if p.fmus * LeavesOfSerials(p.serials) == {} { DisjointByMeet(p.fmus, LeavesOfSerials(p.serials)); }
    var x := PickOne(p.fmus * LeavesOfSerials(p.serials));
    OwnSerials(p.serials, x);
    assert AwaitCount(b, x) <= 1;
    TailOpenedInSerials(p.serials, x);
    assert LiveBlock(s);
    var y := SerialsBegin(p.serials, x);
    assert AwaitCount(b, y) <= 1;
    assert TwistedBy(b, x, y);
  }

  /** Accepted and without dead rends: every FMU is written once. */
  lemma LiveIsDistinct(p: Parallel, n: nat)
    requires LongSerials(p) && Accepted(ExecutionOrder(p), n) && Live(ExecutionOrder(p))
    ensures Distinct(p)
  {
    var b, rends := Compiled(p), ExecutionOrder(p);
    assert LiveBlock(b) by {
      assert forall i | 0 <= i < |b.inner| :: rends[i + 1] == b.inner[i];
    }
    forall x ensures OpenCount(b, x, true) == AwaitCount(b, x) <= 1 {
      CountOrder(p, x);
      assert ParentCount(rends, x) == ChildCount(rends, x) == if 0 <= x < n then 1 else 0;
    }
    StraightParallel(p);
    NotCrooked(b);
  }

  lemma NotCrooked(b: Block)
    requires forall x :: OpenCount(b, x, true) == AwaitCount(b, x) <= 1
    ensures !Crooked(b)
  {
    forall x, y ensures !TwistedBy(b, x, y) {
      assert OpenCount(b, x, true) <= 1;
    }
    forall y ensures !OrphanBy(b, y) {
      assert OpenCount(b, y, true) == AwaitCount(b, y);
    }
  }

  // ---- Where a rend is dead ---------------------------------------------------------------------------

  const NO_ONE := Group(Parallel({}, []))

  /** FMU 0 beside (nothing, then 0 again). */
  const TWICE := Group(Parallel({0}, [Serial([NO_ONE, Fmu(0)])]))

  /** 1, and then a group that holds TWICE, then 2, then nothing. */
  const TWIN := Parallel({}, [Serial([Fmu(1), Group(Parallel({}, [Serial([TWICE, Fmu(2), NO_ONE])]))])])

  const TWIN_RENDS := [Rend({}, {1}), Rend({1}, {}), Rend({}, {0}), Rend({0}, {2}), Rend({2}, {}), Rend({}, {})]

  lemma PlusNone<T>(s: set<T>)
    ensures s + {} == s && {} + s == s
  {
  }

  /** A serial alone in its group. */
  lemma LoneSerial(fmus: set<int>, es: seq<Element>)
    requires |es| >= 2
    ensures var g, t := Parallel(fmus, [Serial(es)]), CompiledElements(es);
            && Compiled(g) == Block(fmus + t.head, fmus + t.tail, t.inner)
            && (LongSerials(g) <==> LongSerialsIn(es))
            && (Distinct(g) ==> DistinctElements(es) && forall x | x in fmus :: x !in LeavesOfElements(es))
  {
    var ss, t := [Serial(es)], CompiledElements(es);
    assert ss[1..] == [];
    PlusNone(t.head);
    PlusNone(t.tail);
    PlusNone(LeavesOfElements(es));
    assert t.inner + [] == t.inner;
    var g := Parallel(fmus, ss);
    assert CompiledSerials([]) == EMPTY_BLOCK && CompiledSerials(ss) == Beside(t, CompiledSerials(ss[1..])) == t;
    assert Compiled(g) == Block(fmus + CompiledSerials(ss).head, fmus + CompiledSerials(ss).tail,
           CompiledSerials(ss).inner);
    assert LeavesOfSerials([]) == {} && LeavesOfSerials(ss) == LeavesOfElements(es) + LeavesOfSerials(ss[1..]);
    assert LongSerialsAll(ss[1..]) && (LongSerialsAll(ss) <==> LongSerialsIn(es));
    assert DistinctSerials(ss) ==> DistinctElements(es);
    assert LongSerials(g) == LongSerialsAll(ss);
    assert Distinct(g) ==> fmus !! LeavesOfElements(es) && DistinctSerials(ss);
  }

  /** A group of one serial of two elements. */
  lemma PairGroup(fmus: set<int>, a: Element, b: Element)
    ensures var g, c, d := Parallel(fmus, [Serial([a, b])]), CompiledElement(a), CompiledElement(b);
            && Compiled(g) == Block(fmus + c.head, fmus + d.tail, c.inner + [Rend(c.tail, d.tail)] + d.inner)
            && (LongSerials(g) <==> LongSerialsOf(a) && LongSerialsOf(b))
            && (Distinct(g) ==> DistinctElement(a) && DistinctElement(b) && forall x | x in fmus :: x !in LeavesOf(b))
  {
    var es := [a, b];
    LoneSerial(fmus, es);
    assert es[1..] == [b] && [b][1..] == [];
    assert CompiledElements([b]) == CompiledElement(b);
    assert CompiledElements(es) == Then(CompiledElement(a), CompiledElement(b).tail, CompiledElement(b));
    assert LeavesOfElements([b]) == LeavesOf(b) + LeavesOfElements([]);
    assert LeavesOfElements(es) == LeavesOf(a) + LeavesOfElements([b]);
    assert LongSerialsIn([b][1..]) && (LongSerialsIn([b]) <==> LongSerialsOf(b));
    assert DistinctElements(es) ==> DistinctElement(a) && DistinctElements([b]);
  }

  /** A group of one serial of three elements, the last of them empty. */
  lemma TripleGroup(a: Element, b: Element)
    ensures var g, c, d := Parallel({}, [Serial([a, b, NO_ONE])]), CompiledElement(a), CompiledElement(b);
            && Compiled(g) == Block(c.head, {}, c.inner + [Rend(c.tail, d.head)] + (d.inner + [Rend(d.tail, {})]))
            && (LongSerials(g) <==> LongSerialsOf(a) && LongSerialsOf(b))
            && (Distinct(g) ==> DistinctElement(a))
  {
    var es, rest := [a, b, NO_ONE], [b, NO_ONE];
    LoneSerial({}, es);
    assert es[1..] == rest && rest[1..] == [NO_ONE] && [NO_ONE][1..] == [];
    assert Compiled(NO_ONE.group) == EMPTY_BLOCK;
    assert CompiledElements([NO_ONE]) == EMPTY_BLOCK;
    var u := Then(CompiledElement(b), {}, EMPTY_BLOCK);
    assert CompiledElements(rest) == u && u.inner == CompiledElement(b).inner + [Rend(CompiledElement(b).tail, {})];
    var t := Then(CompiledElement(a), u.head, u);
    assert CompiledElements(es) == t;
    PlusNone(t.head);
    PlusNone(t.tail);
    assert LongSerialsIn([NO_ONE][1..]) && LongSerialsOf(NO_ONE) && LongSerialsIn([NO_ONE]);
    assert LongSerialsIn(rest) <==> LongSerialsOf(b);
  }

  /** It names 0 twice and is accepted; its third rend opens 0 and waits for nobody. */
  lemma TwinAccepted()
    ensures LongSerials(TWIN) && !Distinct(TWIN) && ExecutionOrder(TWIN) == TWIN_RENDS
    ensures Accepted(TWIN_RENDS, 3) && !Live(TWIN_RENDS)
  {
    assert Compiled(NO_ONE.group) == EMPTY_BLOCK;
    PairGroup({0}, NO_ONE, Fmu(0));
    assert CompiledElement(TWICE) == Block({0}, {0}, [Rend({}, {0})]);
    assert !DistinctElement(TWICE) by { assert 0 in LeavesOf(Fmu(0)); }
    TripleGroup(TWICE, Fmu(2));
    var g := Group(Parallel({}, [Serial([TWICE, Fmu(2), NO_ONE])]));
    assert CompiledElement(g) == Block({0}, {}, [Rend({}, {0}), Rend({0}, {2}), Rend({2}, {})]);
    PairGroup({}, Fmu(1), g);
    assert Compiled(TWIN) == Block({1}, {}, [Rend({1}, {}), Rend({}, {0}), Rend({0}, {2}), Rend({2}, {})]);
    forall x ensures ParentCount(TWIN_RENDS, x) == ChildCount(TWIN_RENDS, x) == if 0 <= x < 3 then 1 else 0 {
      TwinCounts(x);
    }
    assert TWIN_RENDS[2] == Rend({}, {0}) && 0 in TWIN_RENDS[2].children;
  }

  lemma TwinCounts(x: int)
    ensures ParentCount(TWIN_RENDS, x) == ChildCount(TWIN_RENDS, x) == if 0 <= x < 3 then 1 else 0
  {
    var r5 := [Rend({}, {})];
    var r4 := [Rend({2}, {})] + r5;
    var r3 := [Rend({0}, {2})] + r4;
    var r2 := [Rend({}, {0})] + r3;
    var r1 := [Rend({1}, {})] + r2;
    assert r5[1..] == [] && r4[1..] == r5 && r3[1..] == r4 && r2[1..] == r3 && r1[1..] == r2 && TWIN_RENDS[1..] == r1;
    assert ParentCount(r5, x) == 0 && ChildCount(r5, x) == 0;
    assert ParentCount(r4, x) == (if x == 2 then 1 else 0) && ChildCount(r4, x) == 0;
    assert ParentCount(r3, x) == (if x == 0 || x == 2 then 1 else 0) && ChildCount(r3, x) == (if x == 2 then 1 else 0);
    assert ParentCount(r2, x) == (if x == 0 || x == 2 then 1 else 0)
           && ChildCount(r2, x) == (if x == 0 || x == 2 then 1 else 0);
    assert ParentCount(r1, x) == (if 0 <= x < 3 then 1 else 0)
           && ChildCount(r1, x) == (if x == 0 || x == 2 then 1 else 0);
  }

  /** 0, and then a group that holds the serial (nothing, 1, nothing). */
  const QUIET := Parallel({}, [Serial([Fmu(0), Group(Parallel({}, [Serial([NO_ONE, Fmu(1), NO_ONE])]))])])

  /** A serial group may end in a group that holds a serial, if empty groups hide its head and tail. */
  lemma QuietAccepted()
    ensures LongSerials(QUIET) && !PlainEndings(QUIET)
    ensures ExecutionOrder(QUIET) == [Rend({}, {0}), Rend({0}, {}), Rend({}, {1}), Rend({1}, {}), Rend({}, {})]
    ensures Accepted(ExecutionOrder(QUIET), 2) && !Live(ExecutionOrder(QUIET))
  {
    assert Compiled(NO_ONE.group) == EMPTY_BLOCK;
    TripleGroup(NO_ONE, Fmu(1));
    var g := Group(Parallel({}, [Serial([NO_ONE, Fmu(1), NO_ONE])]));
    assert CompiledElement(g) == Block({}, {}, [Rend({}, {1}), Rend({1}, {})]);
    PairGroup({}, Fmu(0), g);
    assert Compiled(QUIET) == Block({0}, {}, [Rend({0}, {}), Rend({}, {1}), Rend({1}, {})]);
    var rends := ExecutionOrder(QUIET);
    assert rends == [Rend({}, {0}), Rend({0}, {}), Rend({}, {1}), Rend({1}, {}), Rend({}, {})];
    forall x ensures ParentCount(rends, x) == ChildCount(rends, x) == if 0 <= x < 2 then 1 else 0 {
      QuietCounts(x);
    }
    assert rends[2] == Rend({}, {1}) && 1 in rends[2].children;
    var es := [Fmu(0), g];
    assert es[1..] == [g] && !PlainEndingsIn([g]) && !PlainEndingsIn(es);
  }

  lemma QuietCounts(x: int)
    ensures var rends := [Rend({}, {0}), Rend({0}, {}), Rend({}, {1}), Rend({1}, {}), Rend({}, {})];
            ParentCount(rends, x) == ChildCount(rends, x) == if 0 <= x < 2 then 1 else 0
  {
    var r4 := [Rend({}, {})];
    var r3 := [Rend({1}, {})] + r4;
    var r2 := [Rend({}, {1})] + r3;
    var r1 := [Rend({0}, {})] + r2;
    var rends := [Rend({}, {0}), Rend({0}, {}), Rend({}, {1}), Rend({1}, {}), Rend({}, {})];
    assert r4[1..] == [] && r3[1..] == r4 && r2[1..] == r3 && r1[1..] == r2 && rends[1..] == r1;
    assert ParentCount(r4, x) == 0 && ChildCount(r4, x) == 0;
    assert ParentCount(r3, x) == (if x == 1 then 1 else 0) && ChildCount(r3, x) == 0;
    assert ParentCount(r2, x) == (if x == 1 then 1 else 0) && ChildCount(r2, x) == (if x == 1 then 1 else 0);
    assert ParentCount(r1, x) == (if 0 <= x < 2 then 1 else 0) && ChildCount(r1, x) == (if x == 1 then 1 else 0);
  }
}
