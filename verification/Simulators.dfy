/** FMUs seen from outside, and what a list of assignments does to one. */
module Simulators {
  import opened Options
  import opened Wiring
  import opened RefValues

  /** An FMU is deterministic in its state, its inputs and the time. */
  datatype Simulator<!S> = Simulator(
    getReal: (S, int) -> real,
    getInt: (S, int) -> int,
    getBool: (S, int) -> bool,
    getString: (S, int) -> string,
    set1: (S, Var, Val) -> S,
    step: (S, real, real) -> S)

  function Output<S>(m: Simulator<S>, s: S, v: Var): (r: Val)
    ensures HasType(r, v.ty)
  {
    match v.ty
    case RealB => RealV(m.getReal(s, v.vr))
    case IntB => IntV(m.getInt(s, v.vr))
    case BoolB => BoolV(m.getBool(s, v.vr))
    case StrB => StrV(m.getString(s, v.vr))
    case EnumB => IntV(m.getInt(s, v.vr))
  }

  function SetAll<S>(m: Simulator<S>, s: S, a: seq<Assign>): S {
    if a == [] then s else m.set1(SetAll(m, s, a[..|a| - 1]), a[|a| - 1].to, a[|a| - 1].val)
  }

  lemma {:induction false} SetAllConcat<S>(m: Simulator<S>, s: S, a: seq<Assign>, b: seq<Assign>)
    ensures SetAll(m, s, a + b) == SetAll(m, SetAll(m, s, a), b)
  {
    if b == [] {
      assert a + b == a;
    } else {
      assert (a + b)[..|a + b| - 1] == a + b[..|b| - 1];
      SetAllConcat(m, s, a, b[..|b| - 1]);
    }
  }

  // ---- The law of assignment ------------------------------------------------------------------------

  /** Setting two variables commutes. */
  ghost predicate Commutes<S>(m: Simulator<S>, s: S, u: Var, x: Val, v: Var, y: Val) {
    m.set1(m.set1(s, u, x), v, y) == m.set1(m.set1(s, v, y), u, x)
  }

  /** Setting a variable again is as if it had been set only then. */
  ghost predicate Overwrites<S>(m: Simulator<S>, s: S, u: Var, x: Val, y: Val) {
    m.set1(m.set1(s, u, x), u, y) == m.set1(s, u, y)
  }

  /** Real inputs, set to real values: different ones commute, and the same one is overwritten. */
  ghost predicate Lawful<S(!new)>(m: Simulator<S>) {
    && (forall s: S, u: int, x: real, v: int, y: real | u != v ::
          Commutes(m, s, Var(RealB, u), RealV(x), Var(RealB, v), RealV(y)))
    && forall s: S, u: int, x: real, y: real :: Overwrites(m, s, Var(RealB, u), RealV(x), RealV(y))
  }

  predicate IsReal(a: Assign) {
    a.to.ty == RealB && a.val.RealV?
  }

  predicate AllReal(a: seq<Assign>) {
    forall i | 0 <= i < |a| :: IsReal(a[i])
  }

  /** What the last assignment to v in the list gives it. */
  function LastOf(a: seq<Assign>, v: Var): Option<Val> {
    if a == [] then None else if a[|a| - 1].to == v then Some(a[|a| - 1].val) else LastOf(a[..|a| - 1], v)
  }

  function Without(a: seq<Assign>, v: Var): (r: seq<Assign>)
    ensures |r| <= |a|
    ensures AllReal(a) ==> AllReal(r)
  {
    if a == [] then [] else Without(a[..|a| - 1], v) + if a[|a| - 1].to == v then [] else [a[|a| - 1]]
  }

  lemma {:induction false} LastWithout(a: seq<Assign>, v: Var, w: Var)
    ensures LastOf(Without(a, v), w) == if w == v then None else LastOf(a, w)
  {
    if a != [] {
      var init, last := a[..|a| - 1], a[|a| - 1];
      LastWithout(init, v, w);
      if last.to != v {
        assert Without(a, v)[..|Without(init, v)|] == Without(init, v);
      } else {
        assert Without(a, v) == Without(init, v);
      }
    }
  }

  lemma {:induction false} WithoutSize(a: seq<Assign>, v: Var)
    ensures LastOf(a, v).None? ==> Without(a, v) == a
    ensures LastOf(a, v).Some? ==> |Without(a, v)| < |a|
  {
    if a != [] {
      WithoutSize(a[..|a| - 1], v);
      assert a == a[..|a| - 1] + [a[|a| - 1]];
    }
  }

  lemma {:induction false} LastIsReal(a: seq<Assign>, v: Var)
    requires AllReal(a) && LastOf(a, v).Some?
    ensures v.ty == RealB && LastOf(a, v).value.RealV?
  {
    var last := a[|a| - 1];
    assert IsReal(last);
    if last.to != v { LastIsReal(a[..|a| - 1], v); }
  }

  /** All assignments to v can be replaced by its last one, made at the end. */
  lemma {:induction false} Extract<S(!new)>(m: Simulator<S>, s: S, a: seq<Assign>, v: Var)
    requires Lawful(m) && AllReal(a) && LastOf(a, v).Some?
    ensures SetAll(m, s, a) == m.set1(SetAll(m, s, Without(a, v)), v, LastOf(a, v).value)
  {
    var init, last := a[..|a| - 1], a[|a| - 1];
    assert IsReal(last);
    WithoutSize(init, v);
    LastIsReal(a, v);
    if LastOf(init, v).Some? {
      LastIsReal(init, v);
      Extract(m, s, init, v);
    }
    var rest := SetAll(m, s, Without(init, v));
    if last.to == v {
      assert Without(a, v) == Without(init, v);
      if LastOf(init, v).Some? {
        assert Overwrites(m, rest, Var(RealB, v.vr), RealV(LastOf(init, v).value.r), RealV(last.val.r));
      }
    } else {
      assert Without(a, v)[..|Without(init, v)|] == Without(init, v);
      assert Commutes(m, rest, Var(RealB, v.vr), RealV(LastOf(a, v).value.r), Var(RealB, last.to.vr),
             RealV(last.val.r));
    }
  }

  /** Only the last assignment to each real variable matters. */
  lemma {:induction false} SameLast<S(!new)>(m: Simulator<S>, s: S, a: seq<Assign>, b: seq<Assign>)
    requires Lawful(m) && AllReal(a) && AllReal(b) && forall v :: LastOf(a, v) == LastOf(b, v)
    ensures SetAll(m, s, a) == SetAll(m, s, b)
    decreases |a|
  {
    if a == [] {
      var v := if b == [] then Var(RealB, 0) else b[|b| - 1].to;
      assert LastOf(a, v) == LastOf(b, v);
    } else {
      var v := a[|a| - 1].to;
      assert LastOf(a, v) == LastOf(b, v);
      Extract(m, s, a, v);
      Extract(m, s, b, v);
      forall w ensures LastOf(Without(a, v), w) == LastOf(Without(b, v), w) {
        LastWithout(a, v, w);
        LastWithout(b, v, w);
      }
      WithoutSize(a, v);
      SameLast(m, s, Without(a, v), Without(b, v));
    }
  }

  // ---- What a client is sent ------------------------------------------------------------------------

  function RealAssigns(vrs: seq<int>, reals: seq<real>): (a: seq<Assign>)
    requires |vrs| == |reals|
    ensures |a| == |vrs| && AllReal(a)
  {
    seq(|vrs|, i requires 0 <= i < |vrs| => Assign(Var(RealB, vrs[i]), RealV(reals[i])))
  }

  function IntAssigns(ints: seq<(int, int)>): seq<Assign> {
    seq(|ints|, i requires 0 <= i < |ints| => Assign(Var(IntB, ints[i].0), IntV(ints[i].1)))
  }

  function BoolAssigns(bools: seq<(int, bool)>): seq<Assign> {
    seq(|bools|, i requires 0 <= i < |bools| => Assign(Var(BoolB, bools[i].0), BoolV(bools[i].1)))
  }

  function StringAssigns(strings: seq<(int, string)>): seq<Assign> {
    seq(|strings|, i requires 0 <= i < |strings| => Assign(Var(StrB, strings[i].0), StrV(strings[i].1)))
  }

  /** FMIClient::sendSetX: reals, integers, booleans, strings. */
  function Assigns(x: SetX): seq<Assign>
    requires |x.realVrs| == |x.reals|
  {
    RealAssigns(x.realVrs, x.reals) + IntAssigns(x.ints) + BoolAssigns(x.bools) + StringAssigns(x.strings)
  }

  lemma {:induction false} RealLast(vrs: seq<int>, reals: seq<real>, v: Var)
    requires |vrs| == |reals|
    ensures LastOf(RealAssigns(vrs, reals), v)
            == if v.ty == RealB && LastWrite(vrs, reals, v.vr).Some? then Some(RealV(LastWrite(vrs, reals,
                v.vr).value)) else None
  {
    if vrs != [] {
      var n := |vrs| - 1;
      RealLast(vrs[..n], reals[..n], v);
      assert RealAssigns(vrs, reals)[..n] == RealAssigns(vrs[..n], reals[..n]);
    }
  }

  /** Lists of the same effect take a lawful FMU to the same state. */
  lemma SameEffectSameState<S(!new)>(m: Simulator<S>, s: S, x: SetX, y: SetX)
    requires Lawful(m) && SameEffect(x, y)
    ensures SetAll(m, s, Assigns(x)) == SetAll(m, s, Assigns(y))
  {
    var a, b := RealAssigns(x.realVrs, x.reals), RealAssigns(y.realVrs, y.reals);
    forall v ensures LastOf(a, v) == LastOf(b, v) {
      RealLast(x.realVrs, x.reals, v);
      RealLast(y.realVrs, y.reals, v);
    }
    SameLast(m, s, a, b);
    var i, c, t := IntAssigns(x.ints), BoolAssigns(x.bools), StringAssigns(x.strings);
    SetAllConcat(m, s, a + i + c, t);
    SetAllConcat(m, s, a + i, c);
    SetAllConcat(m, s, a, i);
    SetAllConcat(m, s, b + i + c, t);
    SetAllConcat(m, s, b + i, c);
    SetAllConcat(m, s, b, i);
  }

  /** The FMU cannot tell lists of the same effect apart. */
  ghost predicate Indifferent<S(!new)>(m: Simulator<S>) {
    forall s: S, x: SetX, y: SetX | SameEffect(x, y) :: SetAll(m, s, Assigns(x)) == SetAll(m, s, Assigns(y))
  }

  /** The law is exactly what it takes for lists of the same effect to lead to the same state. */
  lemma LawfulIff<S(!new)>(m: Simulator<S>)
    ensures Lawful(m) <==> Indifferent(m)
  {
    if Lawful(m) {
      forall s: S, x: SetX, y: SetX | SameEffect(x, y) ensures SetAll(m, s, Assigns(x)) == SetAll(m, s, Assigns(y)) {
        SameEffectSameState(m, s, x, y);
      }
    }
    if Indifferent(m) {
      forall s: S, u: int, x: real, v: int, y: real | u != v
        ensures Commutes(m, s, Var(RealB, u), RealV(x), Var(RealB, v), RealV(y))
      {
        SwappedEffect(u, x, v, y);
        assert SetAll(m, s, Assigns(Two(u, x, v, y))) == SetAll(m, s, Assigns(Two(v, y, u, x)));
        PairState(m, s, u, x, v, y);
        PairState(m, s, v, y, u, x);
      }
      forall s: S, u: int, x: real, y: real ensures Overwrites(m, s, Var(RealB, u), RealV(x), RealV(y)) {
        RepeatedEffect(u, x, y);
        assert SetAll(m, s, Assigns(Two(u, x, u, y))) == SetAll(m, s, Assigns(One(u, y)));
        PairState(m, s, u, x, u, y);
        SingleState(m, s, u, y);
      }
    }
  }

  function One(u: int, x: real): SetX {
    SetX([u], [x], [], [], [])
  }

  function Two(u: int, x: real, v: int, y: real): SetX {
    SetX([u, v], [x, y], [], [], [])
  }

  lemma TwoLast(u: int, x: real, v: int, y: real, w: int)
    ensures LastWrite([u, v], [x, y], w) == if w == v then Some(y) else if w == u then Some(x) else None
  {
    assert [u, v][..1] == [u] && [x, y][..1] == [x];
    OneLast(u, x, w);
  }

  lemma OneLast(u: int, x: real, w: int)
    ensures LastWrite([u], [x], w) == if w == u then Some(x) else None
  {
    assert [u][..0] == [] && [x][..0] == [];
  }

  lemma SwappedEffect(u: int, x: real, v: int, y: real)
    requires u != v
    ensures SameEffect(Two(u, x, v, y), Two(v, y, u, x))
  {
    forall w ensures LastWrite([u, v], [x, y], w) == LastWrite([v, u], [y, x], w) {
      TwoLast(u, x, v, y, w);
      TwoLast(v, y, u, x, w);
    }
  }

  lemma RepeatedEffect(u: int, x: real, y: real)
    ensures SameEffect(Two(u, x, u, y), One(u, y))
  {
    forall w ensures LastWrite([u, u], [x, y], w) == LastWrite([u], [y], w) {
      TwoLast(u, x, u, y, w);
      OneLast(u, y, w);
    }
  }

  lemma PairState<S>(m: Simulator<S>, s: S, u: int, x: real, v: int, y: real)
    ensures SetAll(m, s, Assigns(Two(u, x, v, y)))
            == m.set1(m.set1(s, Var(RealB, u), RealV(x)), Var(RealB, v), RealV(y))
  {
    var p, q := Assign(Var(RealB, u), RealV(x)), Assign(Var(RealB, v), RealV(y));
    assert Assigns(Two(u, x, v, y)) == [p, q];
    assert [p, q] == [p] + [q];
    SetAllConcat(m, s, [p], [q]);
    SetOne(m, s, p);
    SetOne(m, SetAll(m, s, [p]), q);
  }

  lemma SingleState<S>(m: Simulator<S>, s: S, u: int, x: real)
    ensures SetAll(m, s, Assigns(One(u, x))) == m.set1(s, Var(RealB, u), RealV(x))
  {
    var p := Assign(Var(RealB, u), RealV(x));
    assert Assigns(One(u, x)) == [p];
    SetOne(m, s, p);
  }

  lemma SetOne<S>(m: Simulator<S>, s: S, p: Assign)
    ensures SetAll(m, s, [p]) == m.set1(s, p.to, p.val)
  {
    assert [p][..0] == [];
  }

  // ---- The law is needed ----------------------------------------------------------------------------

  /** A complex connection that delivers the constant x to input u of client 1. */
  function Constant(u: int, x: real): Conn {
    Conn(0, RealB, 0, 1, RealB, u, 0.0, x)
  }

  /** A simple connection from output 1 of client 0 to input v of client 1. */
  function Direct(v: int): Conn {
    Conn(0, RealB, 1, 1, RealB, v, 1.0, 0.0)
  }

  function TwoCaches(y: real): seq<Cache> {
    [map[Var(RealB, 0) := RealV(0.0), Var(RealB, 1) := RealV(y)], map[]]
  }

  lemma OneConnection(w: Conn, c: nat, caches: seq<Cache>, x: SetX, r: real)
    requires w.src < |caches| && w.dst < |caches| && w.dst == c && Convert(w, caches) == Ok(RealV(r))
    ensures Wired([w], |caches|)
    ensures Collect([w], c, caches, x) == Ok(x.(realVrs := x.realVrs + [w.toVR], reals := x.reals + [r]))
    ensures ComplexOf([w]) == (if IsSimple(w) then [] else [w]) && SimpleOf([w], c) == (if IsSimple(w) then [w] else [])
  {
    assert [w][..0] == [];
    assert Collect([w][..0], c, caches, x) == Ok(x);
    assert ComplexOf([w][..0]) == [] && SimpleOf([w][..0], c) == [];
  }

  lemma PairShape(a: Conn, b: Conn)
    requires !IsSimple(a) && IsSimple(b) && a.src < 2 && b.src < 2 && a.dst == b.dst == 1
    requires a.toType != b.toType || a.toVR != b.toVR
    ensures Wired([a, b], 2) && ComplexOf([a, b]) == [a] && SimpleOf([a, b], 1) == [b] && SplitSafe([a, b], 1)
  {
    var conns := [a, b];
    assert conns[..1] == [a] && [a][..0] == [];
    assert ComplexOf([a]) == ComplexOf([]) + [a] && SimpleOf([a], 1) == SimpleOf([], 1) + [];
    assert ComplexOf(conns) == [a] + [] && SimpleOf(conns, 1) == [] + [b];
    DistinctIsSafe(conns, 1);
  }

  lemma PairCollected(a: Conn, b: Conn, caches: seq<Cache>, x: real, y: real)
    requires |caches| == 2 && a.src < 2 && b.src < 2 && a.dst == b.dst == 1
    requires Convert(a, caches) == Ok(RealV(x)) && Convert(b, caches) == Ok(RealV(y))
    ensures Wired([a, b], 2) && Collect([a, b], 1, caches, NOTHING) == Ok(SetX([a.toVR, b.toVR], [x, y], [], [], []))
  {
    var one := SetX([a.toVR], [x], [], [], []);
    assert Collect([a], 1, caches, NOTHING) == Ok(one) by {
      OneConnection(a, 1, caches, NOTHING, x);
      assert [] + [a.toVR] == [a.toVR] && [] + [x] == [x];
    }
    assert Collect([a, b], 1, caches, NOTHING) == Delivery(Ok(one), b, 1, caches) by {
      assert [a, b][..1] == [a];
    }
    assert Pushed(one, b.toVR, RealV(y)) == SetX([a.toVR, b.toVR], [x, y], [], [], []) by {
      assert [a.toVR] + [b.toVR] == [a.toVR, b.toVR] && [x] + [y] == [x, y];
    }
  }

  lemma PairSplit(a: Conn, b: Conn, caches: seq<Cache>, x: real, y: real)
    requires |caches| == 2 && a.src < 2 && a.dst == 1 && Convert(a, caches) == Ok(RealV(x))
    ensures Wired([a], 2)
    ensures Collect([a], 1, caches, SetX([b.toVR], [y], [], [], [])) == Ok(SetX([b.toVR, a.toVR], [y, x], [], [], []))
  {
    OneConnection(a, 1, caches, SetX([b.toVR], [y], [], [], []), x);
    assert [b.toVR] + [a.toVR] == [b.toVR, a.toVR] && [y] + [x] == [y, x];
  }

  /** The state in which the split leaves the client is another than after the plain loop. */
  ghost predicate GoesElsewhere<S>(m: Simulator<S>, s: S, conns: seq<Conn>, caches: seq<Cache>, first: SetX) {
    && |caches| == 2 && Wired(conns, 2) && Wired(SimpleOf(conns, 1), 2) && Wired(ComplexOf(conns), 2)
    && SplitSafe(conns, 1) && SimpleCached(conns, 1, caches) && Begun(first, conns, 1, caches)
    && var split, plain := Collect(ComplexOf(conns), 1, caches, first), Collect(conns, 1, caches, NOTHING);
       && split.Ok? && plain.Ok? && |split.value.realVrs| == |split.value.reals|
           && |plain.value.realVrs| == |plain.value.reals|
       && SetAll(m, s, Assigns(split.value)) != SetAll(m, s, Assigns(plain.value))
  }

  /** Where two sets of real inputs do not commute, the split of a safe wiring goes elsewhere than the plain loop. */
  lemma CommutingNeeded<S>(m: Simulator<S>, s: S, u: int, x: real, v: int, y: real)
    requires u != v && !Commutes(m, s, Var(RealB, u), RealV(x), Var(RealB, v), RealV(y))
    ensures GoesElsewhere(m, s, [Constant(u, x), Direct(v)], TwoCaches(y), SetX([v], [y], [], [], []))
  {
    var a, b, caches := Constant(u, x), Direct(v), TwoCaches(y);
    PairShape(a, b);
    PairBegun(u, x, v, y);
    PairCollected(a, b, caches, x, y);
    PairSplit(a, b, caches, x, y);
    PairState(m, s, u, x, v, y);
    PairState(m, s, v, y, u, x);
  }

  lemma PairBegun(u: int, x: real, v: int, y: real)
    requires ComplexOf([Constant(u, x), Direct(v)]) == [Constant(u, x)]
             && SimpleOf([Constant(u, x), Direct(v)], 1) == [Direct(v)]
    ensures Convert(Constant(u, x), TwoCaches(y)) == Ok(RealV(x)) && Convert(Direct(v), TwoCaches(y)) == Ok(RealV(y))
    ensures Wired([Constant(u, x), Direct(v)], 2) && SimpleCached([Constant(u, x), Direct(v)], 1, TwoCaches(y))
    ensures Begun(SetX([v], [y], [], [], []), [Constant(u, x), Direct(v)], 1, TwoCaches(y))
  {
    assert Cached(Direct(v), TwoCaches(y));
    assert Targets([Direct(v)]) == [v] && Lookups([Direct(v)], TwoCaches(y)) == [y];
  }

  /** A complex connection that doubles output 0 of client 0 into input u of client 1. */
  function Doubling(u: int): Conn {
    Conn(0, RealB, 0, 1, RealB, u, 2.0, 0.0)
  }

  function HalfOf(x: real): seq<Cache> {
    [map[Var(RealB, 0) := RealV(x / 2.0)], map[]]
  }

  lemma DoublesHalf(u: int, x: real)
    ensures Convert(Doubling(u), HalfOf(x)) == Ok(RealV(x))
  {
  }

  /**
   * Where a second set of a real input does not undo the first, leftovers do harm: what an
   * earlier batch collected for this client is sent again before the new value.
   */
  lemma OverwritingNeeded<S>(m: Simulator<S>, s: S, u: int, x: real, y: real)
    requires !Overwrites(m, s, Var(RealB, u), RealV(x), RealV(y))
    ensures Wired([Doubling(u)], 2) && ComplexOf([Doubling(u)]) == [Doubling(u)]
    ensures Collect(ComplexOf([Doubling(u)]), 1, HalfOf(x), NOTHING) == Ok(One(u, x))
    ensures Leftover(One(u, x), Targets(SimpleOf([Doubling(u)], 1)), [Doubling(u)], 1)
    ensures GoesElsewhere(m, s, [Doubling(u)], HalfOf(y), One(u, x))
  {
    DoublingShape(u);
    DoublingCollects(u, x);
    DoublingCollects(u, y);
    DoublesHalf(u, y);
    PairSplit(Doubling(u), Doubling(u), HalfOf(y), y, x);
    PairState(m, s, u, x, u, y);
    SingleState(m, s, u, y);
  }

  lemma DoublingShape(u: int)
    ensures Wired([Doubling(u)], 2) && ComplexOf([Doubling(u)]) == [Doubling(u)] && SimpleOf([Doubling(u)], 1) == []
    ensures SplitSafe([Doubling(u)], 1) && LastTo([Doubling(u)], 1, u) == Some(Doubling(u))
  {
    DoublesHalf(u, 0.0);
    OneConnection(Doubling(u), 1, HalfOf(0.0), NOTHING, 0.0);
    DistinctIsSafe([Doubling(u)], 1);
  }

  lemma DoublingCollects(u: int, x: real)
    ensures Wired([Doubling(u)], 2) && Collect([Doubling(u)], 1, HalfOf(x), NOTHING) == Ok(One(u, x))
  {
    DoublesHalf(u, x);
    OneConnection(Doubling(u), 1, HalfOf(x), NOTHING, x);
    assert [] + [u] == [u] && [] + [x] == [x];
  }

  /** An FMU that logs which inputs are set. */
  const LOGGER: Simulator<seq<int>> :=
    Simulator((s, v) => 0.0, (s, v) => 0, (s, v) => false, (s, v) => "", (s, v: Var, x) => s + [v.vr], (s, t, dt) => s)

  /** It tells the order of the two connections apart. */
  lemma LoggerUnlawful()
    ensures !Commutes(LOGGER, [], Var(RealB, 1), RealV(0.0), Var(RealB, 2), RealV(0.0))
    ensures !Lawful(LOGGER)
  {
    assert ([] + [1] + [2])[0] == 1 && ([] + [2] + [1])[0] == 2;
  }
}
