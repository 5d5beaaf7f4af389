/** The numerical directional derivative of a model that is affine in its inputs. */
module Linear {
  import opened Options
  import opened FmuTemplate
  import opened Rollback
  import opened Wiring

  function Value<D, X>(m: Model<D, X>, md: D, vr: int): real {
    var v := m.getReal(md, vr);
    if v.Some? then v.value else 0.0
  }

  /** Output z after a step from md. */
  function Output<D, X>(m: Model<D, X>, x: X, t: real, dt: real, md: D, z: int): real {
    Value(m, m.doStep(md, x, t, dt).0, z)
  }

  /** r goes into input v and no other input, and moves every output by slope(z, v) times the change. */
  ghost predicate Moves<D, X>(m: Model<D, X>, x: X, t: real, dt: real, ins: set<int>, outs: set<int>,
                              slope: (int, int) -> real,
                              md: D, v: int, r: real) {
    var p := m.put(md, Assign(Var(RealB, v), RealV(r)));
    && p.Some?
    && (forall w | w in ins :: Value(m, p.value, w) == if w == v then r else Value(m, md, w))
    && forall z | z in outs ::
        Output(m, x, t, dt, p.value, z) == Output(m, x, t, dt, md, z) + Times(slope(z, v), r - Value(m, md, v))
  }

  /** From GSL variables x, the outputs outs after a step of dt at t are affine in the inputs ins. */
  ghost predicate Affine<D(!new), X>(m: Model<D, X>, x: X, t: real, dt: real, ins: set<int>, outs: set<int>,
                           slope: (int, int) -> real) {
    && (forall md: D, v | v in ins :: m.getReal(md, v).Some?)
    && (forall md: D, z | z in outs :: m.getReal(m.doStep(md, x, t, dt).0, z).Some?)
    && forall md: D, v: int, r: real | v in ins :: Moves(m, x, t, dt, ins, outs, slope, md, v, r)
  }

  lemma Reads<D(!new), X>(m: Model<D, X>, x: X, t: real, dt: real, ins: set<int>, outs: set<int>,
                slope: (int, int) -> real, md: D, vr: int)
    requires Affine(m, x, t, dt, ins, outs, slope)
    ensures vr in ins ==> m.getReal(md, vr).Some?
    ensures vr in outs ==> m.getReal(m.doStep(md, x, t, dt).0, vr).Some?
  {
  }

  /** How far the first n entries move input w: the last one that names it decides. */
  function Shift(v: seq<int>, dv: seq<real>, n: nat, w: int): real
    requires n <= |v| == |dv|
  {
    if n == 0 then 0.0 else if v[n - 1] == w then dv[n - 1] else Shift(v, dv, n - 1, w)
  }

  /** What the first n entries add to output z. */
  function Moved(slope: (int, int) -> real, z: int, v: seq<int>, dv: seq<real>, n: nat): real
    requires n <= |v| == |dv|
  {
    if n == 0 then 0.0
    else Moved(slope, z, v, dv, n - 1) + Times(slope(z, v[n - 1]), dv[n - 1] - Shift(v, dv, n - 1, v[n - 1]))
  }

  /** The sum of slopes weighted by dv. */
  function Analytic(slope: (int, int) -> real, z: int, v: seq<int>, dv: seq<real>, n: nat): real
    requires n <= |v| == |dv|
  {
    if n == 0 then 0.0 else Analytic(slope, z, v, dv, n - 1) + Times(slope(z, v[n - 1]), dv[n - 1])
  }

  /** What is counted in the weighted sum but overwritten in the FMU, because an input is named again. */
  function Overlap(slope: (int, int) -> real, z: int, v: seq<int>, dv: seq<real>, n: nat): real
    requires n <= |v| == |dv|
  {
    if n == 0 then 0.0 else Overlap(slope, z, v, dv, n - 1) + Times(slope(z, v[n - 1]), Shift(v, dv, n - 1, v[n - 1]))
  }

  lemma {:induction false} MovedIs(slope: (int, int) -> real, z: int, v: seq<int>, dv: seq<real>, n: nat)
    requires n <= |v| == |dv|
    ensures Moved(slope, z, v, dv, n) == Analytic(slope, z, v, dv, n) - Overlap(slope, z, v, dv, n)
  {
    if n > 0 { MovedIs(slope, z, v, dv, n - 1); }
  }

  lemma {:induction false} NoShift(v: seq<int>, dv: seq<real>, n: nat, w: int)
    requires n <= |v| == |dv| && forall k | 0 <= k < n :: v[k] != w
    ensures Shift(v, dv, n, w) == 0.0
  {
    if n > 0 { NoShift(v, dv, n - 1, w); }
  }

  lemma {:induction false} NoOverlap(slope: (int, int) -> real, z: int, v: seq<int>, dv: seq<real>, n: nat)
    requires n <= |v| == |dv| && forall j, k | 0 <= j < k < |v| :: v[j] != v[k]
    ensures Overlap(slope, z, v, dv, n) == 0.0
  {
    if n > 0 {
      NoOverlap(slope, z, v, dv, n - 1);
      NoShift(v, dv, n - 1, v[n - 1]);
    }
  }

  /** Raising the inputs one by one moves each input and each output as told. */
  lemma {:induction false} RaisedMoves<D(!new),
                                         X>(m: Model<D, X>, x: X, t: real, dt: real, ins: set<int>, outs: set<int>,
                                         slope: (int, int) -> real,
                                                   md: D, v: seq<int>, v0: seq<real>, dv: seq<real>, n: nat)
    requires Affine(m, x, t, dt, ins, outs, slope) && n <= |v| == |dv| == |v0|
    requires forall k | 0 <= k < |v| :: v[k] in ins && v0[k] == Value(m, md, v[k])
    ensures var (after, ok) := SetFirst(m, md, Raised(v, v0, dv), n);
            && ok
            && (forall w | w in ins :: Value(m, after, w) == Value(m, md, w) + Shift(v, dv, n, w))
            && forall z | z in outs ::
                Output(m, x, t, dt, after, z) == Output(m, x, t, dt, md, z) + Moved(slope, z, v, dv, n)
  {
    if n > 0 {
      RaisedMoves(m, x, t, dt, ins, outs, slope, md, v, v0, dv, n - 1);
      var before := SetFirst(m, md, Raised(v, v0, dv), n - 1).0;
      assert Moves(m, x, t, dt, ins, outs, slope, before, v[n - 1], v0[n - 1] + dv[n - 1]);
    }
  }

  /** A step from a permitted state, then reading outputs. */
  lemma OutputsAfter<D(!new), X>(m: Model<D, X>, i: Inst<D, X>, t: real, dt: real, ins: set<int>, outs: set<int>,
      slope: (int, int) -> real, z: seq<int>, k: nat)
    requires Affine(m, i.x, t, dt, ins, outs, slope) && i.s.state in MASK_STEP && dt > 0.0
    requires k < |z| && forall j | 0 <= j < |z| :: z[j] in outs
    ensures Values(m, Step(m, i, t, dt).inst, z)[k] == Output(m, i.x, t, dt, i.s.md, z[k])
  {
    forall j | 0 <= j < |z| ensures m.getReal(m.doStep(i.s.md, i.x, t, dt).0, z[j]).Some? {
      Reads(m, i.x, t, dt, ins, outs, slope, i.s.md, z[j]);
    }
  }

  /**
   * For a model affine in its inputs the numerical derivative is the weighted sum of partials,
   * less what repeated inputs count twice.
   */
  lemma NumericalIs<D(!new), X>(m: Model<D, X>, i: Inst<D, X>, t: real, dt: real, ins: set<int>, outs: set<int>,
      slope: (int, int) -> real, d: Deriv, k: nat)
    requires Affine(m, i.x, t, dt, ins, outs, slope) && i.s.state in MASK_STEP && dt > 0.0
    requires |d.v| == |d.dv| && (forall j | 0 <= j < |d.v| :: d.v[j] in ins)
    requires k < |d.z| && forall j | 0 <= j < |d.z| :: d.z[j] in outs
    ensures Difference(m, i, t, dt, d)[k] == Analytic(slope, d.z[k], d.v, d.dv, |d.v|) - Overlap(slope, d.z[k], d.v,
            d.dv, |d.v|)
  {
    var v0 := Values(m, i, d.v);
    forall j | 0 <= j < |d.v| ensures m.getReal(i.s.md, d.v[j]).Some? {
      Reads(m, i.x, t, dt, ins, outs, slope, i.s.md, d.v[j]);
    }
    RaisedMoves(m, i.x, t, dt, ins, outs, slope, i.s.md, d.v, v0, d.dv, |d.v|);
    OutputsAfter(m, i, t, dt, ins, outs, slope, d.z, k);
    OutputsAfter(m, SetX(m, i, Raised(d.v, v0, d.dv)).inst, t, dt, ins, outs, slope, d.z, k);
    MovedIs(slope, d.z[k], d.v, d.dv, |d.v|);
  }

  /** With distinct inputs, the numerical derivative is what the FMU itself answers from its partials. */
  lemma NumericalIsAnalytic<D(!new), X>(m: Model<D, X>, i: Inst<D, X>, t: real, dt: real, ins: set<int>,
      outs: set<int>, slope: (int, int) -> real, d: Deriv, k: nat)
    requires Affine(m, i.x, t, dt, ins, outs, slope) && i.s.state in MASK_STEP && dt > 0.0
    requires |d.v| == |d.dv| && (forall j | 0 <= j < |d.v| :: d.v[j] in ins)
    requires k < |d.z| && forall j | 0 <= j < |d.z| :: d.z[j] in outs
    requires forall z, v | z in outs && v in ins :: m.partial(i.s.md, z, v) == Some(slope(z, v))
    ensures var own := Weighted(m, i.s.md, d.z[k], d.v, d.dv, |d.v|);
            && own.Some?
            && (Difference(m, i, t, dt, d)[k] == own.value <==> Overlap(slope, d.z[k], d.v, d.dv, |d.v|) == 0.0)
            && ((forall a, b | 0 <= a < b < |d.v| :: d.v[a] != d.v[b]) ==> Difference(m, i, t, dt, d)[k] == own.value)
  {
    NumericalIs(m, i, t, dt, ins, outs, slope, d, k);
    WeightedIs(m, i.s.md, ins, outs, slope, d.z[k], d.v, d.dv, |d.v|);
    if forall a, b | 0 <= a < b < |d.v| :: d.v[a] != d.v[b] { NoOverlap(slope, d.z[k], d.v, d.dv, |d.v|); }
  }

  lemma {:induction false} WeightedIs<D, X>(m: Model<D, X>, md: D, ins: set<int>, outs: set<int>, slope: (int,
      int) -> real, z: int, v: seq<int>, dv: seq<real>, n: nat)
    requires n <= |v| == |dv| && (forall j | 0 <= j < |v| :: v[j] in ins) && z in outs
    requires forall z, v | z in outs && v in ins :: m.partial(md, z, v) == Some(slope(z, v))
    ensures Weighted(m, md, z, v, dv, n) == Some(Analytic(slope, z, v, dv, n))
  {
    if n > 0 { WeightedIs(m, md, ins, outs, slope, z, v, dv, n - 1); }
  }

  // ---- A model ------------------------------------------------------------------------------------

  /** Input 0, and output 1 that takes its value at every step. */
  const FOLLOWER: Model<(real, real), ()> :=
    Model((d: (real, real), x, t, dt) => ((d.0, d.0), x),
          (d: (real, real), vr) => if vr == 0 then Some(d.0) else if vr == 1 then Some(d.1) else None,
          (d: (real, real), a: Assign) => if a.to == Var(RealB, 0) && a.val.RealV? then Some((a.val.r, d.1)) else None,
          (d: (real, real), z, v) => if z == 1 && v == 0 then Some(1.0) else None)

  const ONE: (int, int) -> real := (z, v) => 1.0

  lemma FollowerAffine(t: real, dt: real)
    ensures Affine(FOLLOWER, (), t, dt, {0}, {1}, ONE)
  {
    forall md: (real, real), v: int, r: real | v in {0} ensures Moves(FOLLOWER, (), t, dt, {0}, {1}, ONE, md, v, r) {
      assert FOLLOWER.put(md, Assign(Var(RealB, v), RealV(r))) == Some((r, md.1));
      assert Output(FOLLOWER, (), t, dt, (r, md.1), 1) == r && Output(FOLLOWER, (), t, dt, md, 1) == md.0;
      assert Times(ONE(1, v), r - md.0) == r - md.0;
    }
  }

  /** Naming its input twice with seed 1: the trial step moves it once, the weighted sum counts it twice. */
  lemma RepeatedInputDiffers(i: Inst<(real, real), ()>, t: real, dt: real)
    requires i.s.state in MASK_STEP && dt > 0.0
    ensures var d := Deriv([1], [0, 0], [1.0, 1.0]);
            && Weighted(FOLLOWER, i.s.md, 1, d.v, d.dv, 2) == Some(2.0)
            && Difference(FOLLOWER, i, t, dt, d)[0] == 1.0
  {
    var d := Deriv([1], [0, 0], [1.0, 1.0]);
    FollowerAffine(t, dt);
    NumericalIs(FOLLOWER, i, t, dt, {0}, {1}, ONE, d, 0);
    assert Analytic(ONE, 1, d.v, d.dv, 1) == 1.0 && Overlap(ONE, 1, d.v, d.dv, 1) == 0.0;
    assert Weighted(FOLLOWER, i.s.md, 1, d.v, d.dv, 1) == Some(1.0);
  }

  /**
   * Before the first step of a run the server has no step size. If it is not positive, nothing is
   * stepped, and the answer is only what raising the inputs does to the outputs at once.
   */
  lemma NoStepDifference<D, X>(m: Model<D, X>, i: Inst<D, X>, t: real, dt: real, d: Deriv, k: nat)
    requires i.s.state in MASK_STEP && dt <= 0.0 && |d.v| == |d.dv| && k < |d.z|
    ensures var raised := SetFirst(m, i.s.md, Raised(d.v, Values(m, i, d.v), d.dv), |d.v|).0;
            Difference(m, i, t, dt, d)[k] == Read(m, raised, d.z)[k] - Read(m, i.s.md, d.z)[k]
  {
    assert Step(m, i, t, dt).inst.s == i.s.(state := Stepping);
  }
}
