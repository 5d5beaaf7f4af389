/** Compilation of an execution order into rendezvous points. */
module RendCompiler {
  import opened Options
  import opened OrderTree

  /** Once every parent is done the children may be stepped. */
  datatype Rend = Rend(parents: set<int>, children: set<int>)

  /**
   * What a piece of the tree compiles to: the FMUs that whoever precedes the piece must open,
   * the FMUs that must be done before whatever follows it, and the rends between them.
   */
  datatype Block = Block(head: set<int>, tail: set<int>, inner: seq<Rend>)

  const EMPTY_BLOCK := Block({}, {}, [])

  function Beside(a: Block, b: Block): Block {
    Block(a.head + b.head, a.tail + b.tail, a.inner + b.inner)
  }

  /** a, then a rend that opens `next`, then b. */
  function Then(a: Block, next: set<int>, b: Block): Block {
    Block(a.head, b.tail, a.inner + [Rend(a.tail, next)] + b.inner)
  }

  function Compiled(p: Parallel): Block
    decreases p
  {
    var b := CompiledSerials(p.serials);
    Block(p.fmus + b.head, p.fmus + b.tail, b.inner)
  }

  function CompiledSerials(ss: seq<Serial>): Block
    decreases ss
  {
    if ss == [] then EMPTY_BLOCK
    else Beside(CompiledElements(ss[0].elements), CompiledSerials(ss[1..]))
  }

  /**
   * The rend before the last element opens the element's tail, not its head: this is what
   * the assignment on parseargs.cpp line 361 does, whatever was in the child set before.
   */
  function CompiledElements(es: seq<Element>): Block
    decreases es
  {
    if es == [] then EMPTY_BLOCK
    else if |es| == 1 then CompiledElement(es[0])
    else
      var b := CompiledElements(es[1..]);
      Then(CompiledElement(es[0]), if |es| == 2 then b.tail else b.head, b)
  }

  function CompiledElement(e: Element): Block
    decreases e
  {
    match e
    case Fmu(id) => Block({id}, {id}, [])
    case Group(p) => Compiled(p)
  }

  /** The whole rend vector: a root that opens the head, a terminal that collects the tail. */
  function ExecutionOrder(p: Parallel): seq<Rend> {
    var b := Compiled(p);
    [Rend({}, b.head)] + b.inner + [Rend(b.tail, {})]
  }

  // ---- The recursive traversal over one shared rend vector ----------------------------

  datatype TraverseRet = TraverseRet(head: set<int>, tail: set<int>)

  /** rends with `next` added to the children of the rend at index k. */
  function Opening(rends: seq<Rend>, k: nat, next: set<int>): (r: seq<Rend>)
    requires k < |rends|
    ensures |r| == |rends|
  {
    rends[k := rends[k].(children := rends[k].children + next)]
  }

  lemma OpeningAgain(rends: seq<Rend>, k: nat, a: set<int>, b: set<int>, more: seq<Rend>)
    requires k < |rends|
    ensures Opening(rends, k, {}) == rends
    ensures Opening(Opening(rends, k, a) + more, k, b) == Opening(rends, k, a + b) + more
  {
    assert rends[k].children + {} == rends[k].children;
    assert rends[k].children + a + b == rends[k].children + (a + b);
  }

  lemma OpeningBoth(rends: seq<Rend>, k: nat, a: Block, b: Block)
    requires k < |rends|
    ensures Opening(Opening(rends, k, a.head) + a.inner, k, b.head) + b.inner
            == Opening(rends, k, Beside(a, b).head) + Beside(a, b).inner
  {
    OpeningAgain(rends, k, a.head, b.head, a.inner);
  }

  lemma BesideAgain(a: Block, b: Block, c: Block)
    ensures Beside(Beside(a, b), c) == Beside(a, Beside(b, c))
  {
  }

  class Traversal {
    var rends: seq<Rend>

    constructor ()
      ensures rends == [Rend({}, {})]
    {
      rends := [Rend({}, {})];
    }

    method Parallels(p: Parallel, parent: nat) returns (r: Outcome<TraverseRet>)
      requires parent < |rends|
      modifies this
      ensures |rends| > parent
      ensures r.Ok? <==> LongSerials(p)
      ensures r.Ok? ==>
                && r.value == TraverseRet(p.fmus, Compiled(p).tail)
                && rends == Opening(old(rends), parent, CompiledSerials(p.serials).head) + Compiled(p).inner
      decreases p
    {
      var head, tail := p.fmus, p.fmus;
      ghost var acc := EMPTY_BLOCK;
      var i := 0;
      assert p.serials[0..] == p.serials;
      OpeningAgain(rends, parent, {}, {}, []);
      while i < |p.serials|
        invariant 0 <= i <= |p.serials| && parent < |rends|
        invariant LongSerialsAll(p.serials) <==> LongSerialsAll(p.serials[i..])
        invariant head == p.fmus && tail == p.fmus + acc.tail
        invariant rends == Opening(old(rends), parent, acc.head) + acc.inner
        invariant Beside(acc, CompiledSerials(p.serials[i..])) == CompiledSerials(p.serials)
      {
        var s := p.serials[i];
        var got := Serials(s, parent);
        if got.Stop? { return Stop; }
        head := head + got.value.head;
        tail := tail + got.value.tail;
        ghost var b := CompiledElements(s.elements);
        assert p.serials[i..][1..] == p.serials[i + 1..];
        OpeningBoth(old(rends), parent, acc, b);
        BesideAgain(acc, b, CompiledSerials(p.serials[i + 1..]));
        acc := Beside(acc, b);
        i := i + 1;
      }
      return Ok(TraverseRet(head, tail));
    }

    method Elements(e: Element, parent: nat) returns (r: Outcome<TraverseRet>)
      requires parent < |rends|
      modifies this
      ensures r.Ok? <==> LongSerialsOf(e)
      ensures |rends| > parent
      ensures r.Ok? ==>
                && r.value.tail == CompiledElement(e).tail
                && rends[parent].parents == old(rends)[parent].parents
                && Opening(rends, parent, r.value.head)
                   == Opening(old(rends), parent, CompiledElement(e).head) + CompiledElement(e).inner
      decreases e
    {
      match e {
        case Fmu(id) =>
          assert rends + [] == rends;
          return Ok(TraverseRet({id}, {id}));
        case Group(p) =>
          r := Parallels(p, parent);
          OpeningAgain(old(rends), parent, CompiledSerials(p.serials).head, p.fmus, Compiled(p).inner);
          assert CompiledSerials(p.serials).head + p.fmus == Compiled(p).head;
      }
    }

    method Serials(s: Serial, parent: nat) returns (r: Outcome<TraverseRet>)
      requires parent < |rends|
      modifies this
      ensures |rends| > parent
      ensures r.Ok? <==> |s.elements| >= 2 && LongSerialsIn(s.elements)
      ensures r.Ok? ==>
                && r.value == TraverseRet({}, CompiledElements(s.elements).tail)
                && rends == Opening(old(rends), parent, CompiledElements(s.elements).head)
                            + CompiledElements(s.elements).inner
      decreases s
    {
      var es := s.elements;
      if |es| <= 1 { return Stop; }
      ghost var passed: seq<Rend> := [];
      var k, x := parent, 0;
      assert es[0..] == es;
      while x < |es| - 1
        invariant 0 <= x < |es| && parent < |rends|
        invariant LongSerialsIn(es) <==> LongSerialsIn(es[x..])
        invariant CompiledElements(es).tail == CompiledElements(es[x..]).tail
        invariant x == 0 ==> k == parent && passed == [] && rends == old(rends)
        invariant x > 0 ==>
                    && Passed(es, x, passed)
                    && rends == Opening(old(rends), parent, CompiledElements(es).head) + passed
                    && k == |rends| - 1
      {
        ghost var before := rends;
        var got := Elements(es[x], k);
        if got.Stop? { return Stop; }
        ghost var c := CompiledElement(es[x]);
        rends := Opening(rends, k, got.value.head) + [Rend(got.value.tail, {})];
        assert rends == Opening(before, k, c.head) + c.inner + [Rend(c.tail, {})];
        k := |rends| - 1;
        assert es[x..][1..] == es[x + 1..];
        PassedStep(es, x, passed);
        passed := PassedNext(es, x, passed);
        if x > 0 {
          assert {} + c.head == c.head;
          assert rends == Opening(old(rends), parent, CompiledElements(es).head) + passed;
        }
        x := x + 1;
      }
      assert es[x..] == [es[x]];
      var got := Elements(es[x], k);
      if got.Stop? { return Stop; }
      assert forall i | 0 <= i < |rends| && i != k :: rends[i] == Opening(rends, k, got.value.head)[i];
      rends := rends[k := rends[k].(children := got.value.tail)];
      return Ok(TraverseRet({}, got.value.tail));
    }
  }

  /** The child set of the rend in front of element x. */
  ghost function Gate(es: seq<Element>, x: nat): set<int>
    requires x < |es|
  {
    var rest := CompiledElements(es[x..]);
    if x == |es| - 1 then rest.tail else rest.head
  }

  /** `passed` are the rends emitted before element x; the last one is still childless. */
  ghost predicate Passed(es: seq<Element>, x: nat, passed: seq<Rend>) {
    && 0 < x < |es|
    && passed != []
    && passed[|passed| - 1].children == {}
    && CompiledElements(es).inner
       == passed[|passed| - 1 := passed[|passed| - 1].(children := Gate(es, x))] + CompiledElements(es[x..]).inner
  }

  ghost function PassedNext(es: seq<Element>, x: nat, passed: seq<Rend>): seq<Rend>
    requires x < |es|
    requires x > 0 ==> passed != []
  {
    var c := CompiledElement(es[x]);
    (if x == 0 then [] else passed[|passed| - 1 := passed[|passed| - 1].(children := c.head)])
    + c.inner + [Rend(c.tail, {})]
  }

  lemma PassedStep(es: seq<Element>, x: nat, passed: seq<Rend>)
    requires x + 1 < |es|
    requires x == 0 ==> passed == []
    requires x > 0 ==> Passed(es, x, passed)
    ensures Passed(es, x + 1, PassedNext(es, x, passed))
  {
    assert es[x..][1..] == es[x + 1..];
    assert es[0..] == es;
  }

  method BuildExecutionOrder(p: Parallel) returns (r: Outcome<seq<Rend>>)
    ensures r.Ok? <==> LongSerials(p)
    ensures r.Ok? ==> r.value == ExecutionOrder(p)
  {
    var t := new Traversal();
    var ret := t.Parallels(p, 0);
    if ret.Stop? { return Stop; }
    var rends := Opening(t.rends, 0, ret.value.head);
    OpeningAgain([Rend({}, {})], 0, CompiledSerials(p.serials).head, p.fmus, Compiled(p).inner);
    assert {} + (CompiledSerials(p.serials).head + p.fmus) == Compiled(p).head;
    return Ok(rends + [Rend(ret.value.tail, {})]);
  }
}
