/** The order a rend vector enforces, and when it is the order the tree asked for. */
module RendOrder {
  import opened IntSets
  import opened OrderTree
  import opened RendCompiler
  import opened RendCheck
  import opened OrderAcceptance

  /** Some rend opens v only after u is done. */
  ghost predicate Edge(rends: seq<Rend>, u: int, v: int) {
    exists k :: 0 <= k < |rends| && u in rends[k].parents && v in rends[k].children
  }

  ghost predicate IsPath(rends: seq<Rend>, path: seq<int>) {
    forall i | 0 < i < |path| :: Edge(rends, path[i - 1], path[i])
  }

  /** The transitive closure of Edge: v can only be opened after u is done. */
  ghost predicate Before(rends: seq<Rend>, u: int, v: int) {
    exists path :: |path| >= 2 && IsPath(rends, path) && path[0] == u && path[|path| - 1] == v
  }

  lemma EdgeBefore(rends: seq<Rend>, u: int, v: int)
    requires Edge(rends, u, v)
    ensures Before(rends, u, v)
  {
    var path := [u, v];
    assert IsPath(rends, path) && path[0] == u && path[|path| - 1] == v;
  }

  lemma BeforeTransitive(rends: seq<Rend>, u: int, v: int, w: int)
    requires Before(rends, u, v) && Before(rends, v, w)
    ensures Before(rends, u, w)
  {
    var p :| |p| >= 2 && IsPath(rends, p) && p[0] == u && p[|p| - 1] == v;
    var q :| |q| >= 2 && IsPath(rends, q) && q[0] == v && q[|q| - 1] == w;
    var path := p + q[1..];
    forall i | 0 < i < |path|
      ensures Edge(rends, path[i - 1], path[i])
    {
      if i >= |p| {
        assert path[i] == q[i - |p| + 1] && path[i - 1] == q[i - |p|];
      }
    }
    assert |path| >= 2 && IsPath(rends, path) && path[0] == u && path[|path| - 1] == w;
  }

  lemma FirstEdge(rends: seq<Rend>, u: int, v: int)
    requires Before(rends, u, v)
    ensures exists y :: Edge(rends, u, y)
  {
    var p :| |p| >= 2 && IsPath(rends, p) && p[0] == u && p[|p| - 1] == v;
    assert Edge(rends, p[0], p[1]);
  }

  lemma BeforeMonotone(rends: seq<Rend>, more: seq<Rend>, u: int, v: int)
    requires forall x, y | Edge(rends, x, y) :: Edge(more, x, y)
    requires Before(rends, u, v)
    ensures Before(more, u, v)
  {
    var p :| |p| >= 2 && IsPath(rends, p) && p[0] == u && p[|p| - 1] == v;
    assert IsPath(more, p);
  }

  /** A relation that holds along every edge and is transitive holds along every path. */
  lemma {:induction false} PathSplit(rends: seq<Rend>, path: seq<int>)
    requires |path| > 2 && IsPath(rends, path)
    ensures Edge(rends, path[0], path[1])
    ensures IsPath(rends, path[1..]) && Before(rends, path[1], path[|path| - 1])
  {
    var q := path[1..];
    forall i | 0 < i < |q|
      ensures Edge(rends, q[i - 1], q[i])
    {
      assert q[i - 1] == path[i] && q[i] == path[i + 1];
    }
    assert |q| >= 2 && IsPath(rends, q) && q[0] == path[1] && q[|q| - 1] == path[|path| - 1];
  }

  lemma EdgeConcat(a: seq<Rend>, b: seq<Rend>, u: int, v: int)
    ensures Edge(a + b, u, v) <==> Edge(a, u, v) || Edge(b, u, v)
  {
    if Edge(a, u, v) {
      var k :| 0 <= k < |a| && u in a[k].parents && v in a[k].children;
      assert (a + b)[k] == a[k];
    }
    if Edge(b, u, v) {
      var k :| 0 <= k < |b| && u in b[k].parents && v in b[k].children;
      assert (a + b)[|a| + k] == b[k];
    }
  }

  // ---- Order inside composed blocks -----------------------------------------------------

  /** The rends of the block speak of L only. */
  ghost predicate Owns(b: Block, L: set<int>) {
    && b.head <= L && b.tail <= L
    && forall u, v | Edge(b.inner, u, v) :: u in L && v in L
  }

  ghost predicate ReachesTail(b: Block, u: int) {
    u in b.tail || exists t | t in b.tail :: Before(b.inner, u, t)
  }

  ghost predicate ReachedFromHead(b: Block, v: int) {
    v in b.head || exists h | h in b.head :: Before(b.inner, h, v)
  }

  lemma BeforeOwned(b: Block, L: set<int>, u: int, v: int)
    requires Owns(b, L) && Before(b.inner, u, v)
    ensures u in L && v in L
  {
    var p :| |p| >= 2 && IsPath(b.inner, p) && p[0] == u && p[|p| - 1] == v;
    assert Edge(b.inner, p[0], p[1]) && Edge(b.inner, p[|p| - 2], p[|p| - 1]);
  }

  lemma EdgeBeside(a: Block, b: Block, u: int, v: int)
    ensures Edge(Beside(a, b).inner, u, v) <==> Edge(a.inner, u, v) || Edge(b.inner, u, v)
  {
    EdgeConcat(a.inner, b.inner, u, v);
  }

  lemma EdgeThen(a: Block, b: Block, u: int, v: int)
    ensures Edge(Then(a, b.head, b).inner, u, v)
            <==> Edge(a.inner, u, v) || (u in a.tail && v in b.head) || Edge(b.inner, u, v)
  {
    var mid := [Rend(a.tail, b.head)];
    EdgeConcat(a.inner + mid, b.inner, u, v);
    EdgeConcat(a.inner, mid, u, v);
    if u in a.tail && v in b.head {
      assert u in mid[0].parents && v in mid[0].children;
    }
  }

  lemma {:induction false} BesidePath(a: Block, A: set<int>, b: Block, B: set<int>, p: seq<int>)
    requires Owns(a, A) && Owns(b, B) && A !! B
    requires |p| >= 2 && IsPath(Beside(a, b).inner, p)
    ensures Before(a.inner, p[0], p[|p| - 1]) || Before(b.inner, p[0], p[|p| - 1])
    decreases |p|
  {
    EdgeBeside(a, b, p[0], p[1]);
    if Edge(a.inner, p[0], p[1]) { EdgeBefore(a.inner, p[0], p[1]); } else { EdgeBefore(b.inner, p[0], p[1]); }
    if |p| > 2 {
      PathSplit(Beside(a, b).inner, p);
      BesidePath(a, A, b, B, p[1..]);
      var u, v, w := p[0], p[1], p[|p| - 1];
      if Before(a.inner, v, w) {
        BeforeOwned(a, A, v, w);
        BeforeTransitive(a.inner, u, v, w);
      } else {
        BeforeOwned(b, B, v, w);
        BeforeTransitive(b.inner, u, v, w);
      }
    }
  }

  lemma BeforeBeside(a: Block, A: set<int>, b: Block, B: set<int>, u: int, v: int)
    requires Owns(a, A) && Owns(b, B) && A !! B
    ensures Before(Beside(a, b).inner, u, v) <==> Before(a.inner, u, v) || Before(b.inner, u, v)
  {
    forall x, y
      ensures Edge(a.inner, x, y) || Edge(b.inner, x, y) ==> Edge(Beside(a, b).inner, x, y)
    {
      EdgeBeside(a, b, x, y);
    }
    if Before(a.inner, u, v) { BeforeMonotone(a.inner, Beside(a, b).inner, u, v); }
    if Before(b.inner, u, v) { BeforeMonotone(b.inner, Beside(a, b).inner, u, v); }
    if Before(Beside(a, b).inner, u, v) {
      var p :| |p| >= 2 && IsPath(Beside(a, b).inner, p) && p[0] == u && p[|p| - 1] == v;
      BesidePath(a, A, b, B, p);
    }
  }

  /** How a path can run through a block that is followed by another. */
  ghost predicate Passes(a: Block, b: Block, u: int, v: int) {
    || Before(a.inner, u, v)
    || Before(b.inner, u, v)
    || (ReachesTail(a, u) && ReachedFromHead(b, v))
  }

  lemma {:induction false} ThenPath(a: Block, A: set<int>, b: Block, B: set<int>, p: seq<int>)
    requires Owns(a, A) && Owns(b, B) && A !! B
    requires |p| >= 2 && IsPath(Then(a, b.head, b).inner, p)
    ensures Passes(a, b, p[0], p[|p| - 1])
    decreases |p|
  {
    EdgeThen(a, b, p[0], p[1]);
    if Edge(a.inner, p[0], p[1]) { EdgeBefore(a.inner, p[0], p[1]); }
    if Edge(b.inner, p[0], p[1]) { EdgeBefore(b.inner, p[0], p[1]); }
    if |p| > 2 {
      PathSplit(Then(a, b.head, b).inner, p);
      ThenPath(a, A, b, B, p[1..]);
      PassesStep(a, A, b, B, p[0], p[1], p[|p| - 1]);
    }
  }

  lemma PassesStep(a: Block, A: set<int>, b: Block, B: set<int>, u: int, v: int, w: int)
    requires Owns(a, A) && Owns(b, B) && A !! B
    requires Before(a.inner, u, v) || (u in a.tail && v in b.head) || Before(b.inner, u, v)
    requires Passes(a, b, v, w)
    ensures Passes(a, b, u, w)
  {
    if Before(a.inner, u, v) { BeforeOwned(a, A, u, v); }
    if Before(b.inner, u, v) { BeforeOwned(b, B, u, v); }
    if Before(a.inner, v, w) {
      BeforeOwned(a, A, v, w);
      BeforeTransitive(a.inner, u, v, w);
    } else if Before(b.inner, v, w) {
      BeforeOwned(b, B, v, w);
      if Before(b.inner, u, v) {
        BeforeTransitive(b.inner, u, v, w);
      }
    } else {
      ReachesTailOwned(a, A, v);
      if v !in a.tail {
        var t :| t in a.tail && Before(a.inner, v, t);
        BeforeTransitive(a.inner, u, v, t);
      }
    }
  }

  lemma ReachesTailOwned(a: Block, A: set<int>, u: int)
    requires Owns(a, A) && ReachesTail(a, u)
    ensures u in A
  {
    if u !in a.tail {
      var t :| t in a.tail && Before(a.inner, u, t);
      BeforeOwned(a, A, u, t);
    }
  }

  lemma ReachedFromHeadOwned(b: Block, B: set<int>, v: int)
    requires Owns(b, B) && ReachedFromHead(b, v)
    ensures v in B
  {
    if v !in b.head {
      var h :| h in b.head && Before(b.inner, h, v);
      BeforeOwned(b, B, h, v);
    }
  }

  lemma BeforeThen(a: Block, A: set<int>, b: Block, B: set<int>, u: int, v: int)
    requires Owns(a, A) && Owns(b, B) && A !! B
    ensures Before(Then(a, b.head, b).inner, u, v) <==> Passes(a, b, u, v)
  {
    var inner := Then(a, b.head, b).inner;
    forall x, y
      ensures Edge(a.inner, x, y) || (x in a.tail && y in b.head) || Edge(b.inner, x, y) ==> Edge(inner, x, y)
    {
      EdgeThen(a, b, x, y);
    }
    if Before(a.inner, u, v) {
      BeforeMonotone(a.inner, inner, u, v);
    } else if Before(b.inner, u, v) {
      BeforeMonotone(b.inner, inner, u, v);
    } else if ReachesTail(a, u) && ReachedFromHead(b, v) {
      var t := u;
      if u !in a.tail {
        t :| t in a.tail && Before(a.inner, u, t);
        BeforeMonotone(a.inner, inner, u, t);
      }
      var h := v;
      if v !in b.head {
        h :| h in b.head && Before(b.inner, h, v);
        BeforeMonotone(b.inner, inner, h, v);
      }
      EdgeBefore(inner, t, h);
      if u != t { BeforeTransitive(inner, u, t, h); }
      if h != v { BeforeTransitive(inner, u, h, v); }
    }
    if Before(inner, u, v) {
      var p :| |p| >= 2 && IsPath(inner, p) && p[0] == u && p[|p| - 1] == v;
      ThenPath(a, A, b, B, p);
    }
  }

  lemma TailThen(a: Block, A: set<int>, b: Block, B: set<int>, u: int)
    requires Owns(a, A) && Owns(b, B) && A !! B
    ensures u in B ==> (ReachesTail(Then(a, b.head, b), u) <==> ReachesTail(b, u))
    ensures u in A ==>
              (ReachesTail(Then(a, b.head, b), u) <==> ReachesTail(a, u) && exists h | h in b.head :: ReachesTail(b, h))
  {
    var c := Then(a, b.head, b);
    forall t
      ensures Before(c.inner, u, t) <==> Passes(a, b, u, t)
    {
      BeforeThen(a, A, b, B, u, t);
    }
    if ReachesTail(c, u) && u !in c.tail {
      var t :| t in c.tail && Before(c.inner, u, t);
      if Before(a.inner, u, t) { BeforeOwned(a, A, u, t); }
      if Before(b.inner, u, t) { BeforeOwned(b, B, u, t); }
      if u in B && ReachesTail(a, u) { ReachesTailOwned(a, A, u); }
      if u in A {
        assert ReachesTail(a, u) && ReachedFromHead(b, t);
        var h :| h in b.head && (h == t || Before(b.inner, h, t));
        assert ReachesTail(b, h);
      }
    }
    if u in A && ReachesTail(a, u) && exists h | h in b.head :: ReachesTail(b, h) {
      var h :| h in b.head && ReachesTail(b, h);
      var t := h;
      if h !in b.tail { t :| t in b.tail && Before(b.inner, h, t); }
      assert ReachedFromHead(b, t);
      assert Passes(a, b, u, t);
    }
    if u in B && ReachesTail(b, u) && u !in b.tail {
      var t :| t in b.tail && Before(b.inner, u, t);
      assert Passes(a, b, u, t);
    }
  }

  lemma HeadThen(a: Block, A: set<int>, b: Block, B: set<int>, v: int)
    requires Owns(a, A) && Owns(b, B) && A !! B
    ensures v in A ==> (ReachedFromHead(Then(a, b.head, b), v) <==> ReachedFromHead(a, v))
    ensures v in B ==>
              (ReachedFromHead(Then(a, b.head, b), v) <==>
                  ReachedFromHead(b, v) && exists t | t in a.tail :: ReachedFromHead(a, t))
  {
    var c := Then(a, b.head, b);
    forall h
      ensures Before(c.inner, h, v) <==> Passes(a, b, h, v)
    {
      BeforeThen(a, A, b, B, h, v);
    }
    if ReachedFromHead(c, v) && v !in c.head {
      var h :| h in c.head && Before(c.inner, h, v);
      if Before(a.inner, h, v) { BeforeOwned(a, A, h, v); }
      if Before(b.inner, h, v) { BeforeOwned(b, B, h, v); }
      if v in A && ReachedFromHead(b, v) { ReachedFromHeadOwned(b, B, v); }
      if v in B {
        assert ReachesTail(a, h) && ReachedFromHead(b, v);
        var t :| t in a.tail && (h == t || Before(a.inner, h, t));
        assert ReachedFromHead(a, t);
      }
    }
    if v in B && ReachedFromHead(b, v) && exists t | t in a.tail :: ReachedFromHead(a, t) {
      var t :| t in a.tail && ReachedFromHead(a, t);
      var h := t;
      if t !in a.head { h :| h in a.head && Before(a.inner, h, t); }
      assert ReachesTail(a, h);
      assert Passes(a, b, h, v);
    }
    if v in A && ReachedFromHead(a, v) && v !in a.head {
      var h :| h in a.head && Before(a.inner, h, v);
      assert Passes(a, b, h, v);
    }
  }

  lemma EndsBeside(a: Block, A: set<int>, b: Block, B: set<int>, u: int)
    requires Owns(a, A) && Owns(b, B) && A !! B
    ensures u in A ==> (ReachesTail(Beside(a, b), u) <==> ReachesTail(a, u))
    ensures u in B ==> (ReachesTail(Beside(a, b), u) <==> ReachesTail(b, u))
    ensures u in A ==> (ReachedFromHead(Beside(a, b), u) <==> ReachedFromHead(a, u))
    ensures u in B ==> (ReachedFromHead(Beside(a, b), u) <==> ReachedFromHead(b, u))
  {
    forall x
      ensures Before(Beside(a, b).inner, u, x) <==> Before(a.inner, u, x) || Before(b.inner, u, x)
      ensures Before(Beside(a, b).inner, x, u) <==> Before(a.inner, x, u) || Before(b.inner, x, u)
      ensures Before(a.inner, u, x) || Before(a.inner, x, u) ==> u in A && x in A
      ensures Before(b.inner, u, x) || Before(b.inner, x, u) ==> u in B && x in B
    {
      BeforeBeside(a, A, b, B, u, x);
      BeforeBeside(a, A, b, B, x, u);
      if Before(a.inner, u, x) { BeforeOwned(a, A, u, x); }
      if Before(a.inner, x, u) { BeforeOwned(a, A, x, u); }
      if Before(b.inner, u, x) { BeforeOwned(b, B, u, x); }
      if Before(b.inner, x, u) { BeforeOwned(b, B, x, u); }
    }
  }

  // ---- Compiled trees own their leaves ---------------------------------------------------

  lemma {:induction false} Mentioned(rends: seq<Rend>, k: nat, x: int)
    requires k < |rends|
    ensures x in rends[k].parents ==> ParentCount(rends, x) >= 1
    ensures x in rends[k].children ==> ChildCount(rends, x) >= 1
  {
    if k > 0 {
      assert rends[1..][k - 1] == rends[k];
      Mentioned(rends[1..], k - 1, x);
    }
  }

  lemma OwnsByCounts(b: Block, L: set<int>)
    requires forall x | x !in L :: OpenCount(b, x, true) == AwaitCount(b, x) == 0
    ensures Owns(b, L)
  {
    SubsetByElements(b.head, L);
    SubsetByElements(b.tail, L);
    forall u, v | Edge(b.inner, u, v)
      ensures u in L && v in L
    {
      var k :| 0 <= k < |b.inner| && u in b.inner[k].parents && v in b.inner[k].children;
      Mentioned(b.inner, k, u);
      Mentioned(b.inner, k, v);
    }
  }

  lemma OwnsSerials(ss: seq<Serial>)
    ensures Owns(CompiledSerials(ss), LeavesOfSerials(ss))
  {
    forall x { OwnSerials(ss, x); }
    OwnsByCounts(CompiledSerials(ss), LeavesOfSerials(ss));
  }

  lemma OwnsElements(es: seq<Element>)
    ensures Owns(CompiledElements(es), LeavesOfElements(es))
  {
    forall x { OwnElements(es, x); }
    OwnsByCounts(CompiledElements(es), LeavesOfElements(es));
  }

  lemma OwnsElement(e: Element)
    ensures Owns(CompiledElement(e), LeavesOf(e))
  {
    forall x { OwnElement(e, x); }
    OwnsByCounts(CompiledElement(e), LeavesOf(e));
  }
}
