/** Which order trees survive compilation and the constructor checks. */
module OrderAcceptance {
  import opened IntSets
  import opened OrderTree
  import opened RendCompiler
  import opened RendCheck

  /** How often x is opened: by inner rends and, if the block's head is kept, from outside. */
  function OpenCount(b: Block, x: int, keepHead: bool): nat {
    (if keepHead && x in b.head then 1 else 0) + ChildCount(b.inner, x)
  }

  /** How often x is awaited: by inner rends and by whatever follows the block. */
  function AwaitCount(b: Block, x: int): nat {
    (if x in b.tail then 1 else 0) + ParentCount(b.inner, x)
  }

  /**
   * Every parallel group that ends a serial group has the same head and tail, so that the
   * overwriting of the last child set (parseargs.cpp line 361) changes nothing.
   */
  predicate EvenEndings(p: Parallel)
    decreases p
  {
    EvenEndingsAll(p.serials)
  }

  predicate EvenEndingsAll(ss: seq<Serial>)
    decreases ss
  {
    ss != [] ==> EvenEndingsIn(ss[0].elements) && EvenEndingsAll(ss[1..])
  }

  predicate EvenEndingsIn(es: seq<Element>)
    decreases es
  {
    es != [] ==>
      && EvenEndingsOf(es[0])
      && EvenEndingsIn(es[1..])
      && (|es| == 1 ==> CompiledElement(es[0]).head == CompiledElement(es[0]).tail)
  }

  predicate EvenEndingsOf(e: Element)
    decreases e
  {
    e.Group? ==> EvenEndings(e.group)
  }

  // ---- Counting over the two block compositions ----------------------------------------

  lemma CountBeside(a: Block, b: Block, x: int)
    ensures ChildCount(Beside(a, b).inner, x) == ChildCount(a.inner, x) + ChildCount(b.inner, x)
    ensures ParentCount(Beside(a, b).inner, x) == ParentCount(a.inner, x) + ParentCount(b.inner, x)
  {
    CountConcat(a.inner, b.inner, x);
  }

  lemma CountThen(a: Block, next: set<int>, b: Block, x: int)
    ensures ChildCount(Then(a, next, b).inner, x)
            == ChildCount(a.inner, x) + (if x in next then 1 else 0) + ChildCount(b.inner, x)
    ensures AwaitCount(Then(a, next, b), x) == AwaitCount(a, x) + AwaitCount(b, x)
  {
    CountConcat(a.inner + [Rend(a.tail, next)], b.inner, x);
    CountConcat(a.inner, [Rend(a.tail, next)], x);
  }

  lemma CountOrder(p: Parallel, x: int)
    ensures ChildCount(ExecutionOrder(p), x) == OpenCount(Compiled(p), x, true)
    ensures ParentCount(ExecutionOrder(p), x) == AwaitCount(Compiled(p), x)
  {
    var b := Compiled(p);
    CountConcat([Rend({}, b.head)] + b.inner, [Rend(b.tail, {})], x);
    CountConcat([Rend({}, b.head)], b.inner, x);
  }

  // ---- A block mentions its own FMUs only, and awaits each of them ---------------------

  lemma {:induction false} OwnParallel(p: Parallel, x: int)
    ensures x !in Leaves(p) ==> OpenCount(Compiled(p), x, true) == AwaitCount(Compiled(p), x) == 0
    ensures x in Leaves(p) ==> AwaitCount(Compiled(p), x) >= 1
    decreases p
  {
    OwnSerials(p.serials, x);
  }

  lemma {:induction false} OwnSerials(ss: seq<Serial>, x: int)
    ensures x !in LeavesOfSerials(ss) ==>
            OpenCount(CompiledSerials(ss), x, true) == AwaitCount(CompiledSerials(ss), x) == 0
    ensures x in LeavesOfSerials(ss) ==> AwaitCount(CompiledSerials(ss), x) >= 1
    decreases ss
  {
    if ss != [] {
      OwnElements(ss[0].elements, x);
      OwnSerials(ss[1..], x);
      CountBeside(CompiledElements(ss[0].elements), CompiledSerials(ss[1..]), x);
    }
  }

  lemma {:induction false} OwnElements(es: seq<Element>, x: int)
    ensures x !in LeavesOfElements(es) ==>
            OpenCount(CompiledElements(es), x, true) == AwaitCount(CompiledElements(es), x) == 0
    ensures x in LeavesOfElements(es) ==> AwaitCount(CompiledElements(es), x) >= 1
    decreases es
  {
    if es != [] {
      OwnElement(es[0], x);
      OwnElements(es[1..], x);
      if |es| > 1 {
        var b := CompiledElements(es[1..]);
        CountThen(CompiledElement(es[0]), if |es| == 2 then b.tail else b.head, b, x);
      }
    }
  }

  lemma {:induction false} OwnElement(e: Element, x: int)
    ensures x !in LeavesOf(e) ==> OpenCount(CompiledElement(e), x, true) == AwaitCount(CompiledElement(e), x) == 0
    ensures x in LeavesOf(e) ==> AwaitCount(CompiledElement(e), x) >= 1
    decreases e
  {
    match e {
      case Fmu(_) =>
      case Group(p) => OwnParallel(p, x);
    }
  }

  // ---- Distinct ids and even endings: everything is opened and awaited once -------------

  lemma {:induction false} OnceParallel(p: Parallel, x: int)
    requires Distinct(p) && EvenEndings(p)
    ensures OpenCount(Compiled(p), x, true) == AwaitCount(Compiled(p), x) == if x in Leaves(p) then 1 else 0
    decreases p
  {
    OnceSerials(p.serials, x);
    OwnSerials(p.serials, x);
  }

  lemma {:induction false} OnceSerials(ss: seq<Serial>, x: int)
    requires DistinctSerials(ss) && EvenEndingsAll(ss)
    ensures OpenCount(CompiledSerials(ss), x, true) == AwaitCount(CompiledSerials(ss), x)
            == if x in LeavesOfSerials(ss) then 1 else 0
    decreases ss
  {
    if ss != [] {
      OnceElements(ss[0].elements, x);
      OnceSerials(ss[1..], x);
      CountBeside(CompiledElements(ss[0].elements), CompiledSerials(ss[1..]), x);
    }
  }

  lemma {:induction false} OnceElements(es: seq<Element>, x: int)
    requires DistinctElements(es) && EvenEndingsIn(es)
    ensures OpenCount(CompiledElements(es), x, true) == AwaitCount(CompiledElements(es), x)
            == if x in LeavesOfElements(es) then 1 else 0
    decreases es
  {
    if es != [] {
      OnceElement(es[0], x);
      OnceElements(es[1..], x);
      if |es| > 1 {
        var b := CompiledElements(es[1..]);
        CountThen(CompiledElement(es[0]), if |es| == 2 then b.tail else b.head, b, x);
      }
    }
  }

  lemma {:induction false} OnceElement(e: Element, x: int)
    requires DistinctElement(e) && EvenEndingsOf(e)
    ensures OpenCount(CompiledElement(e), x, true) == AwaitCount(CompiledElement(e), x)
            == if x in LeavesOf(e) then 1 else 0
    decreases e
  {
    match e {
      case Fmu(_) =>
      case Group(p) => OnceParallel(p, x);
    }
  }

  // ---- Distinct ids and once opened: the endings are even -------------------------------

  /** A serial group's tail was already opened by the rend before its last element. */
  lemma {:induction false} TailOpened(es: seq<Element>, x: int)
    requires |es| >= 2 && x in CompiledElements(es).tail
    ensures ChildCount(CompiledElements(es).inner, x) >= 1
  {
    var b := CompiledElements(es[1..]);
    CountThen(CompiledElement(es[0]), if |es| == 2 then b.tail else b.head, b, x);
    if |es| > 2 {
      TailOpened(es[1..], x);
    }
  }

  lemma {:induction false} HeadNotOpened(es: seq<Element>, x: int)
    requires DistinctElements(es) && x in CompiledElements(es).head
    ensures ChildCount(CompiledElements(es).inner, x) == 0
    decreases es
  {
    OwnElement(es[0], x);
    OwnElements(es[1..], x);
    HeadNotOpenedIn(es[0], x);
    if |es| > 1 {
      var b := CompiledElements(es[1..]);
      CountThen(CompiledElement(es[0]), if |es| == 2 then b.tail else b.head, b, x);
    }
  }

  lemma {:induction false} HeadNotOpenedIn(e: Element, x: int)
    requires DistinctElement(e) && x in CompiledElement(e).head
    ensures ChildCount(CompiledElement(e).inner, x) == 0
    decreases e
  {
    match e {
      case Fmu(_) =>
      case Group(p) =>
        assert Distinct(p);
        HeadNotOpenedInSerials(p.serials, x);
        OwnSerials(p.serials, x);
    }
  }

  lemma {:induction false} HeadNotOpenedInSerials(ss: seq<Serial>, x: int)
    requires DistinctSerials(ss)
    ensures x in CompiledSerials(ss).head ==> ChildCount(CompiledSerials(ss).inner, x) == 0
    decreases ss
  {
    if ss != [] {
      OwnElements(ss[0].elements, x);
      OwnSerials(ss[1..], x);
      CountBeside(CompiledElements(ss[0].elements), CompiledSerials(ss[1..]), x);
      if x in CompiledElements(ss[0].elements).head {
        HeadNotOpened(ss[0].elements, x);
      }
      HeadNotOpenedInSerials(ss[1..], x);
    }
  }

  lemma {:induction false} EvenSerials(ss: seq<Serial>, keepHead: bool)
    requires DistinctSerials(ss) && LongSerialsAll(ss)
    requires forall x | x in LeavesOfSerials(ss) :: OpenCount(CompiledSerials(ss), x, keepHead) == 1
    ensures EvenEndingsAll(ss)
    decreases ss
  {
    if ss != [] {
      var a, b := CompiledElements(ss[0].elements), CompiledSerials(ss[1..]);
      forall x | x in LeavesOfElements(ss[0].elements)
        ensures OpenCount(a, x, keepHead) == 1
      {
        OwnSerials(ss[1..], x);
        CountBeside(a, b, x);
        assert x in LeavesOfSerials(ss);
      }
      forall x | x in LeavesOfSerials(ss[1..])
        ensures OpenCount(b, x, keepHead) == 1
      {
        OwnElements(ss[0].elements, x);
        CountBeside(a, b, x);
        assert x in LeavesOfSerials(ss);
      }
      EvenElements(ss[0].elements, keepHead);
      EvenSerials(ss[1..], keepHead);
    }
  }

  lemma {:induction false} EvenElements(es: seq<Element>, keepHead: bool)
    requires |es| >= 2 && DistinctElements(es) && LongSerialsIn(es)
    requires forall x | x in LeavesOfElements(es) :: OpenCount(CompiledElements(es), x, keepHead) == 1
    ensures EvenEndingsIn(es)
    decreases es
  {
    var a, b := CompiledElement(es[0]), CompiledElements(es[1..]);
    var next := if |es| == 2 then b.tail else b.head;
    forall x | x in LeavesOf(es[0])
      ensures OpenCount(a, x, keepHead) == 1
    {
      OwnElements(es[1..], x);
      CountThen(a, next, b, x);
      assert x in LeavesOfElements(es);
    }
    EvenElement(es[0], keepHead);
    forall x | x in LeavesOfElements(es[1..])
      ensures (if x in next then 1 else 0) + ChildCount(b.inner, x) == 1
    {
      OwnElement(es[0], x);
      CountThen(a, next, b, x);
      assert x in LeavesOfElements(es);
    }
    if |es| > 2 {
      EvenElements(es[1..], true);
    } else {
      assert es[1..] == [es[1]];
      assert LeavesOfElements(es[1..]) == LeavesOf(es[1]) + {};
      EvenLast(es[1]);
    }
  }

  lemma {:induction false} EvenElement(e: Element, keepHead: bool)
    requires DistinctElement(e) && LongSerialsOf(e)
    requires forall x | x in LeavesOf(e) :: OpenCount(CompiledElement(e), x, keepHead) == 1
    ensures EvenEndingsOf(e)
    decreases e
  {
    match e {
      case Fmu(_) =>
      case Group(p) =>
        assert Distinct(p) && LongSerials(p);
        forall x | x in LeavesOfSerials(p.serials)
          ensures OpenCount(CompiledSerials(p.serials), x, keepHead) == 1
        {
          assert x in LeavesOf(e) && x !in p.fmus;
          assert x in Compiled(p).head <==> x in CompiledSerials(p.serials).head;
        }
        EvenSerials(p.serials, keepHead);
    }
  }

  lemma {:induction false} EvenLast(e: Element)
    requires DistinctElement(e) && LongSerialsOf(e)
    requires forall x | x in LeavesOf(e) ::
               (if x in CompiledElement(e).tail then 1 else 0) + ChildCount(CompiledElement(e).inner, x) == 1
    ensures EvenEndingsOf(e)
    ensures CompiledElement(e).head == CompiledElement(e).tail
    decreases e
  {
    match e {
      case Fmu(_) =>
      case Group(p) =>
        assert Distinct(p) && LongSerials(p);
        var b := CompiledSerials(p.serials);
        forall x | x in LeavesOfSerials(p.serials)
          ensures (if x in b.tail then 1 else 0) + ChildCount(b.inner, x) == 1
        {
          assert x in LeavesOf(e);
          assert x in Compiled(p).tail <==> x in b.tail;
        }
        EvenLastSerials(p.serials);
    }
  }

  lemma {:induction false} EvenLastSerials(ss: seq<Serial>)
    requires DistinctSerials(ss) && LongSerialsAll(ss)
    requires forall x | x in LeavesOfSerials(ss) ::
               (if x in CompiledSerials(ss).tail then 1 else 0) + ChildCount(CompiledSerials(ss).inner, x) == 1
    ensures EvenEndingsAll(ss)
    ensures CompiledSerials(ss).head == CompiledSerials(ss).tail == {}
    decreases ss
  {
    if ss != [] {
      var es := ss[0].elements;
      var a, b := CompiledElements(es), CompiledSerials(ss[1..]);
      forall x | x in LeavesOfElements(es)
        ensures x !in a.tail && x !in a.head && OpenCount(a, x, false) == 1
      {
        assert x in LeavesOfSerials(ss);
        OwnSerials(ss[1..], x);
        CountBeside(a, b, x);
        if x in a.tail { TailOpened(es, x); }
        if x in a.head { HeadNotOpened(es, x); }
      }
      forall x
        ensures x !in a.tail && x !in a.head
      {
        OwnElements(es, x);
      }
      SameByElements(a.tail, {});
      SameByElements(a.head, {});
      forall x | x in LeavesOfSerials(ss[1..])
        ensures (if x in b.tail then 1 else 0) + ChildCount(b.inner, x) == 1
      {
        assert x in LeavesOfSerials(ss);
        OwnElements(es, x);
        CountBeside(a, b, x);
      }
      EvenElements(es, false);
      EvenLastSerials(ss[1..]);
    }
  }

  /** For trees without repeated ids: exactly which ones the master accepts. */
  lemma AcceptedIff(p: Parallel, n: nat)
    requires LongSerials(p) && Distinct(p)
    ensures Accepted(ExecutionOrder(p), n) <==> Leaves(p) == Ids(n) && EvenEndings(p)
  {
    var rends := ExecutionOrder(p);
    forall x
      ensures ChildCount(rends, x) == OpenCount(Compiled(p), x, true)
      ensures ParentCount(rends, x) == AwaitCount(Compiled(p), x)
      ensures x in Leaves(p) <==> ParentCount(rends, x) >= 1
    {
      CountOrder(p, x);
      OwnParallel(p, x);
    }
    if Accepted(rends, n) {
      SameByElements(Leaves(p), Ids(n));
      forall x | x in LeavesOfSerials(p.serials)
        ensures OpenCount(CompiledSerials(p.serials), x, true) == 1
      {
        assert x in Leaves(p) && ChildCount(rends, x) == 1;
      }
      EvenSerials(p.serials, true);
    }
    if Leaves(p) == Ids(n) && EvenEndings(p) {
      forall x
        ensures ParentCount(rends, x) == ChildCount(rends, x) == if 0 <= x < n then 1 else 0
      {
        OnceParallel(p, x);
      }
    }
  }

  // ---- Without empty groups the checks also find every repeated id ----------------------

  lemma {:induction false} EndsParallel(p: Parallel)
    requires NoEmptyGroup(p) && LongSerials(p)
    ensures Compiled(p).head != {} && Compiled(p).tail != {}
    decreases p
  {
    EndsSerials(p.serials);
    if p.fmus != {} {
      var x := PickOne(p.fmus);
      assert x in Compiled(p).head && x in Compiled(p).tail;
    } else {
      var x := PickOne(CompiledSerials(p.serials).head);
      var y := PickOne(CompiledSerials(p.serials).tail);
      assert x in Compiled(p).head && y in Compiled(p).tail;
    }
  }

  lemma {:induction false} EndsSerials(ss: seq<Serial>)
    requires NoEmptyGroupAll(ss) && LongSerialsAll(ss)
    ensures ss != [] ==> CompiledSerials(ss).head != {} && CompiledSerials(ss).tail != {}
    decreases ss
  {
    if ss != [] {
      EndsElements(ss[0].elements);
      var b := CompiledElements(ss[0].elements);
      var x := PickOne(b.head);
      var y := PickOne(b.tail);
      assert x in CompiledSerials(ss).head && y in CompiledSerials(ss).tail;
    }
  }

  lemma {:induction false} EndsElements(es: seq<Element>)
    requires NoEmptyGroupIn(es) && LongSerialsIn(es)
    ensures es != [] ==> CompiledElements(es).head != {} && CompiledElements(es).tail != {}
    decreases es
  {
    if es != [] {
      match es[0] {
        case Fmu(id) => assert id in CompiledElement(es[0]).head;
        case Group(p) => EndsGroup(es[0]);
      }
      EndsElements(es[1..]);
    }
  }

  lemma {:induction false} EndsGroup(e: Element)
    requires e.Group? && NoEmptyGroupOf(e) && LongSerialsOf(e)
    ensures CompiledElement(e).head != {} && CompiledElement(e).tail != {}
    decreases e
  {
    EndsParallel(e.group);
  }

  ghost predicate AtMostOnce(b: Block) {
    forall x :: OpenCount(b, x, true) <= 1 && AwaitCount(b, x) <= 1
  }

  lemma {:induction false} DetectParallel(p: Parallel)
    requires NoEmptyGroup(p) && LongSerials(p) && AtMostOnce(Compiled(p))
    ensures Distinct(p) && PlainEndings(p)
    decreases p
  {
    var b := CompiledSerials(p.serials);
    forall x
      ensures OpenCount(b, x, true) <= 1 && AwaitCount(b, x) <= 1
      ensures !(x in p.fmus && x in LeavesOfSerials(p.serials))
    {
      assert OpenCount(Compiled(p), x, true) <= 1 && AwaitCount(Compiled(p), x) <= 1;
      OwnSerials(p.serials, x);
      if x in b.tail { TailOpenedInSerials(p.serials, x); }
    }
    DisjointByElements(p.fmus, LeavesOfSerials(p.serials));
    DetectSerials(p.serials);
  }

  lemma {:induction false} TailOpenedInSerials(ss: seq<Serial>, x: int)
    requires LongSerialsAll(ss) && x in CompiledSerials(ss).tail
    ensures ChildCount(CompiledSerials(ss).inner, x) >= 1
    decreases ss
  {
    CountBeside(CompiledElements(ss[0].elements), CompiledSerials(ss[1..]), x);
    if x in CompiledElements(ss[0].elements).tail {
      TailOpened(ss[0].elements, x);
    } else {
      TailOpenedInSerials(ss[1..], x);
    }
  }

  lemma {:induction false} DetectSerials(ss: seq<Serial>)
    requires NoEmptyGroupAll(ss) && LongSerialsAll(ss) && AtMostOnce(CompiledSerials(ss))
    ensures DistinctSerials(ss) && PlainEndingsAll(ss)
    decreases ss
  {
    if ss != [] {
      var es := ss[0].elements;
      var a, b := CompiledElements(es), CompiledSerials(ss[1..]);
      forall x
        ensures OpenCount(a, x, true) <= 1 && AwaitCount(a, x) <= 1
        ensures OpenCount(b, x, true) <= 1 && AwaitCount(b, x) <= 1
        ensures !(x in LeavesOfElements(es) && x in LeavesOfSerials(ss[1..]))
      {
        assert OpenCount(CompiledSerials(ss), x, true) <= 1 && AwaitCount(CompiledSerials(ss), x) <= 1;
        CountBeside(a, b, x);
        OwnElements(es, x);
        OwnSerials(ss[1..], x);
        if x in a.tail && x in b.tail {
          TailOpened(es, x);
          TailOpenedInSerials(ss[1..], x);
        }
      }
      DisjointByElements(LeavesOfElements(es), LeavesOfSerials(ss[1..]));
      DetectElements(es);
      DetectSerials(ss[1..]);
    }
  }

  lemma {:induction false} DetectElements(es: seq<Element>)
    requires |es| >= 2 && NoEmptyGroupIn(es) && LongSerialsIn(es) && AtMostOnce(CompiledElements(es))
    ensures DistinctElements(es) && PlainEndingsIn(es)
    decreases es
  {
    var a, b := CompiledElement(es[0]), CompiledElements(es[1..]);
    var next := if |es| == 2 then b.tail else b.head;
    forall x
      ensures OpenCount(a, x, true) <= 1 && AwaitCount(a, x) <= 1
      ensures (if x in next then 1 else 0) + ChildCount(b.inner, x) <= 1 && AwaitCount(b, x) <= 1
      ensures !(x in LeavesOf(es[0]) && x in LeavesOfElements(es[1..]))
    {
      assert OpenCount(CompiledElements(es), x, true) <= 1 && AwaitCount(CompiledElements(es), x) <= 1;
      CountThen(a, next, b, x);
      OwnElement(es[0], x);
      OwnElements(es[1..], x);
    }
    DisjointByElements(LeavesOf(es[0]), LeavesOfElements(es[1..]));
    DetectElement(es[0]);
    if |es| > 2 {
      DetectElements(es[1..]);
    } else {
      assert es[1..] == [es[1]];
      PlainLast(es[1]);
      assert es[1..][1..] == [];
      DisjointByElements(LeavesOf(es[1]), {});
      DetectElement(es[1]);
    }
  }

  lemma {:induction false} DetectElement(e: Element)
    requires NoEmptyGroupOf(e) && LongSerialsOf(e) && AtMostOnce(CompiledElement(e))
    ensures DistinctElement(e) && PlainEndingsOf(e)
    decreases e
  {
    match e {
      case Fmu(_) =>
      case Group(p) => DetectParallel(p);
    }
  }

  /** A serial group inside the last element would open its own tail a second time. */
  lemma PlainLast(e: Element)
    requires NoEmptyGroupOf(e) && LongSerialsOf(e)
    requires forall x :: (if x in CompiledElement(e).tail then 1 else 0) + ChildCount(CompiledElement(e).inner, x) <= 1
    ensures e.Group? ==> e.group.serials == []
    ensures CompiledElement(e).head == CompiledElement(e).tail
  {
    match e {
      case Fmu(_) =>
      case Group(p) =>
        assert NoEmptyGroup(p) && LongSerials(p);
        assert CompiledSerials([]) == EMPTY_BLOCK;
        if p.serials != [] {
          EndsSerials(p.serials);
          var t := PickOne(CompiledSerials(p.serials).tail);
          TailOpenedInSerials(p.serials, t);
          assert t in CompiledElement(e).tail;
        }
    }
  }

  lemma {:induction false} PlainIsEven(es: seq<Element>)
    requires PlainEndingsIn(es)
    ensures EvenEndingsIn(es)
    decreases es
  {
    if es != [] {
      PlainIsEvenElement(es[0]);
      PlainIsEven(es[1..]);
    }
  }

  lemma {:induction false} PlainIsEvenElement(e: Element)
    requires PlainEndingsOf(e)
    ensures EvenEndingsOf(e)
    ensures e.Group? && e.group.serials == [] ==> CompiledElement(e).head == CompiledElement(e).tail
    decreases e
  {
    match e {
      case Fmu(_) =>
      case Group(p) =>
        assert CompiledSerials([]) == EMPTY_BLOCK;
        PlainIsEvenSerials(p.serials);
    }
  }

  lemma {:induction false} PlainIsEvenSerials(ss: seq<Serial>)
    requires PlainEndingsAll(ss)
    ensures EvenEndingsAll(ss)
    decreases ss
  {
    if ss != [] {
      PlainIsEven(ss[0].elements);
      PlainIsEvenSerials(ss[1..]);
    }
  }

  /** For trees without empty groups: exactly which ones the master accepts. */
  lemma AcceptedIffPlain(p: Parallel, n: nat)
    requires LongSerials(p) && NoEmptyGroup(p)
    ensures Accepted(ExecutionOrder(p), n) <==> Distinct(p) && Leaves(p) == Ids(n) && PlainEndings(p)
  {
    if Accepted(ExecutionOrder(p), n) {
      forall x
        ensures OpenCount(Compiled(p), x, true) <= 1 && AwaitCount(Compiled(p), x) <= 1
      {
        CountOrder(p, x);
        assert ParentCount(ExecutionOrder(p), x) <= 1;
      }
      DetectParallel(p);
    }
    if Distinct(p) {
      AcceptedIff(p, n);
      if PlainEndings(p) {
        PlainIsEvenSerials(p.serials);
      }
    }
  }
}
