/** The server's look-ahead: stepping an FMU, reading it, and putting it back. */
module Rollback {
  import opened Options
  import opened FmuTemplate
  import opened Wiring
  import opened Calls

  /** A request for the derivative of outputs z along dv in the inputs v. */
  datatype Deriv = Deriv(z: seq<int>, v: seq<int>, dv: seq<real>)

  /** fmi2_kinematic_req. */
  datatype Kinematic = Kinematic(reals: seq<Assign>, ints: seq<Assign>, bools: seq<Assign>, strings: seq<Assign>,
                                 future: seq<int>, t: real, dt: real, derivs: seq<Deriv>)

  /** Everything a caller can observe: all but the backup. */
  predicate SameObservable<D(==), X(==)>(i: Inst<D, X>, j: Inst<D, X>) {
    i.s == j.s && i.x == j.x
  }

  function SetIfAny<D, X>(m: Model<D, X>, i: Inst<D, X>, a: seq<Assign>): Did<D, X> {
    if a == [] then Did(i, true) else SetX(m, i, a)
  }

  /** The instance once the inputs of the request are set, or the first failure. */
  function InputsSet<D, X>(m: Model<D, X>, i: Inst<D, X>, r: Kinematic): Did<D, X> {
    var a := SetIfAny(m, i, r.reals);
    if !a.ok then a
    else
      var b := SetIfAny(m, a.inst, r.ints);
      if !b.ok then b
      else
        var c := SetIfAny(m, b.inst, r.bools);
        if !c.ok then c else SetIfAny(m, c.inst, r.strings)
  }

  /** How many of the four lists hold something. */
  function Sets(r: Kinematic): nat {
    (if r.reals == [] then 0 else 1) + (if r.ints == [] then 0 else 1)
    + (if r.bools == [] then 0 else 1) + (if r.strings == [] then 0 else 1)
  }

  function Raised(v: seq<int>, v0: seq<real>, dv: seq<real>): seq<Assign>
    requires |v| == |v0| == |dv|
  {
    seq(|v|, k requires 0 <= k < |v| => Assign(Var(RealB, v[k]), RealV(v0[k] + dv[k])))
  }

  method Raise(v: seq<int>, v0: seq<real>, dv: seq<real>) returns (a: seq<Assign>)
    requires |v| == |v0| == |dv|
    ensures a == Raised(v, v0, dv)
  {
    a := [];
    for x := 0 to |v|
      invariant a == Raised(v, v0, dv)[..x]
    {
      a := a + [Assign(Var(RealB, v[x]), RealV(v0[x] + dv[x]))];
    }
  }

  method Minus(z1: seq<real>, z0: seq<real>) returns (dz: seq<real>)
    requires |z1| == |z0|
    ensures |dz| == |z1| && forall k | 0 <= k < |dz| :: dz[k] == z1[k] - z0[k]
  {
    dz := [];
    for x := 0 to |z1|
      invariant |dz| == x && forall k | 0 <= k < x :: dz[k] == z1[k] - z0[k]
    {
      dz := dz + [z1[x] - z0[x]];
    }
  }

  /** The difference that raising the inputs by dv makes to the outputs after a step. */
  function Difference<D, X>(m: Model<D, X>, i: Inst<D, X>, t: real, dt: real, d: Deriv): (dz: seq<real>)
    requires |d.v| == |d.dv|
    ensures |dz| == |d.z|
  {
    var v0 := Values(m, i, d.v);
    var z0 := Values(m, Step(m, Checked(i, MASK_GET), t, dt).inst, d.z);
    var z1 := Values(m, Step(m, SetX(m, i, Raised(d.v, v0, d.dv)).inst, t, dt).inst, d.z);
    seq(|d.z|, k requires 0 <= k < |d.z| => z1[k] - z0[k])
  }

  class Server<D, X> {
    const fmu: ModelInstance<D, X>
    const alwaysNumerical: bool
    const providesDerivatives: bool
    var point: real
    var stepSize: real

    constructor (fmu: ModelInstance<D, X>, alwaysNumerical: bool, providesDerivatives: bool, point: real,
        stepSize: real)
      ensures this.fmu == fmu && this.point == point && this.stepSize == stepSize
      ensures this.alwaysNumerical == alwaysNumerical && this.providesDerivatives == providesDerivatives
    {
      this.fmu, this.alwaysNumerical, this.providesDerivatives := fmu, alwaysNumerical, providesDerivatives;
      this.point, this.stepSize := point, stepSize;
    }

    /** Step and read. */
    method Trial(z: seq<int>) returns (values: seq<real>)
      modifies fmu
      ensures fmu.Now() == Step(fmu.model, old(fmu.Now()), point, stepSize).inst
      ensures values == Values(fmu.model, fmu.Now(), z)
      ensures fmu.calls == old(fmu.calls) + [StepCall(stepSize), GetCall]
    {
      var _ := fmu.DoStep(point, stepSize);
      var _, r := fmu.GetReal(z);
      values := r;
    }

    /** computeNumericalDirectionalDerivative: two trial steps, each undone. No status is looked at. */
    method NumericalDerivative(d: Deriv) returns (dz: seq<real>)
      requires fmu.canGetAndSetState && |d.v| == |d.dv|
      modifies fmu
      ensures fmu.Now() == Save(old(fmu.Now()))
      ensures dz == Difference(fmu.model, Save(old(fmu.Now())), point, stepSize, d)
      ensures fmu.calls == old(fmu.calls) + DerivativeCalls(stepSize)
    {
      var saved := fmu.GetFmuState();
      var v0, z0 := Baseline(d, saved.value);
      var z1 := RaisedTrial(d, v0, saved.value);
      dz := Minus(z1, z0);
    }

    /** The inputs as they are, the outputs after a step from them, and back. */
    method Baseline(d: Deriv, saved: Saved<D>) returns (v0: seq<real>, z0: seq<real>)
      requires fmu.canGetAndSetState && saved == fmu.Now().s && fmu.Now() == Save(fmu.Now())
      modifies fmu
      ensures fmu.Now() == old(fmu.Now())
      ensures v0 == Values(fmu.model, old(fmu.Now()), d.v)
      ensures z0 == Values(fmu.model, Step(fmu.model, Checked(old(fmu.Now()), MASK_GET), point, stepSize).inst, d.z)
      ensures fmu.calls == old(fmu.calls) + [GetCall, StepCall(stepSize), GetCall, RestoreCall]
    {
      var _, v := fmu.GetReal(d.v);
      v0 := v;
      z0 := Trial(d.z);
      var _ := fmu.SetFmuState(saved);
    }

    /** The outputs after a step from raised inputs, and back. */
    method RaisedTrial(d: Deriv, v0: seq<real>, saved: Saved<D>) returns (z1: seq<real>)
      requires fmu.canGetAndSetState && saved == fmu.Now().s && fmu.Now() == Save(fmu.Now()) && |d.v| == |v0| == |d.dv|
      modifies fmu
      ensures fmu.Now() == old(fmu.Now())
      ensures z1 == Values(fmu.model, Step(fmu.model, SetX(fmu.model, old(fmu.Now()), Raised(d.v, v0, d.dv)).inst,
              point, stepSize).inst, d.z)
      ensures fmu.calls == old(fmu.calls) + [SetCall, StepCall(stepSize), GetCall, RestoreCall]
    {
      var raised := Raise(d.v, v0, d.dv);
      var _ := fmu.Set(raised);
      z1 := Trial(d.z);
      var _ := fmu.SetFmuState(saved);
    }

    predicate Numerical() {
      alwaysNumerical || !providesDerivatives
    }

    /** A derivative request can be answered when the FMU is as i. */
    ghost predicate Answerable(i: Inst<D, X>, d: Deriv)
      requires |d.v| == |d.dv|
    {
      if Numerical() then fmu.canGetAndSetState
      else forall k | 0 <= k < |d.z| :: Weighted(fmu.model, i.s.md, d.z[k], d.v, d.dv, |d.v|).Some?
    }

    /** dz answers request d about the FMU as it is in i. */
    ghost predicate Answers(i: Inst<D, X>, d: Deriv, dz: seq<real>)
      requires |d.v| == |d.dv|
      reads this
    {
      if Numerical() then dz == Difference(fmu.model, Save(i), point, stepSize, d)
      else |dz| == |d.z| && forall k | 0 <= k < |d.z| ::
          Weighted(fmu.model, i.s.md, d.z[k], d.v, d.dv, |d.v|) == Some(dz[k])
    }

    /** getDirectionalDerivatives: by the FMU itself or numerically. */
    method DirectionalDerivative(d: Deriv) returns (r: Option<seq<real>>)
      requires |d.v| == |d.dv|
      modifies fmu
      ensures SameObservable(fmu.Now(), old(fmu.Now()))
      ensures r.Some? <==> Answerable(old(fmu.Now()), d)
      ensures r.Some? ==> Answers(old(fmu.Now()), d, r.value)
      ensures fmu.calls == old(fmu.calls) + if Numerical() && r.Some? then DerivativeCalls(stepSize) else []
    {
      if !alwaysNumerical && providesDerivatives {
        r := fmu.GetDirectionalDerivative(d.z, d.v, d.dv);
      } else if fmu.canGetAndSetState {
        var dz := NumericalDerivative(d);
        r := Some(dz);
      } else {
        r := None;
      }
    }

    method SetInputs(r: Kinematic) returns (ok: bool, ghost made: nat)
      modifies fmu
      ensures Did(fmu.Now(), ok) == InputsSet(fmu.model, old(fmu.Now()), r)
      ensures made <= Sets(r) && (ok ==> made == Sets(r))
      ensures fmu.calls == old(fmu.calls) + Repeat([SetCall], made)
    {
      ok, made := SetNext(r.reals, 0);
      if ok { ok, made := SetNext(r.ints, made); }
      if ok { ok, made := SetNext(r.bools, made); }
      if ok { ok, made := SetNext(r.strings, made); }
      assert fmu.calls == old(fmu.calls) + Repeat([SetCall], made);
    }

    /** One set call, unless there is nothing to set. */
    method SetNext(a: seq<Assign>, ghost before: nat) returns (ok: bool, ghost made: nat)
      modifies fmu
      ensures Did(fmu.Now(), ok) == SetIfAny(fmu.model, old(fmu.Now()), a)
      ensures made == before + (if a == [] then 0 else 1)
      ensures forall start | old(fmu.calls) == start + Repeat([SetCall], before) ::
              fmu.calls == start + Repeat([SetCall], made)
    {
      ok, made := true, before;
      if a != [] {
        ok := fmu.Set(a);
        made := before + 1;
        RepeatMore([SetCall], before);
      }
    }

    /** Save, step, read, restore. A failure on the way is not undone. */
    method LookAhead(t: real, dt: real, vrs: seq<int>) returns (ok: bool, velocities: seq<real>)
      modifies fmu
      ensures var ahead := Step(fmu.model, Save(old(fmu.Now())), t, dt);
              && (ok <==> fmu.canGetAndSetState && ahead.ok && Readable(fmu.model, ahead.inst.s.md, vrs))
              && (ok ==> SameObservable(fmu.Now(), old(fmu.Now())) && velocities == Values(fmu.model, ahead.inst, vrs))
              && (!ok && fmu.canGetAndSetState ==> fmu.Now() == ahead.inst)
      ensures fmu.calls <= old(fmu.calls) + LookAheadCalls(dt)
              && (ok ==> fmu.calls == old(fmu.calls) + LookAheadCalls(dt))
    {
      velocities := [];
      var saved := fmu.GetFmuState();
      if saved.None? { return false, []; }
      ok := fmu.DoStep(t, dt);
      if !ok { return; }
      ok, velocities := fmu.GetReal(vrs);
      if !ok { return; }
      ok := fmu.SetFmuState(saved.value);
    }

    /** The derivatives of a request, one after another, until one fails. */
    method AllDerivatives(ds: seq<Deriv>) returns (ok: bool, derivs: seq<seq<real>>, ghost made: nat)
      requires forall k | 0 <= k < |ds| :: |ds[k].v| == |ds[k].dv|
      modifies fmu
      ensures SameObservable(fmu.Now(), old(fmu.Now()))
      ensures ok <==> forall k | 0 <= k < |ds| :: Answerable(old(fmu.Now()), ds[k])
      ensures ok ==> |derivs| == |ds| && forall k | 0 <= k < |ds| :: Answers(old(fmu.Now()), ds[k], derivs[k])
      ensures made <= Trials(ds) && (ok ==> made == Trials(ds))
      ensures fmu.calls == old(fmu.calls) + Repeat(DerivativeCalls(stepSize), made)
    {
      derivs, made := [], 0;
      assert Repeat(DerivativeCalls(stepSize), 0) == [];
      var x := 0;
      while x < |ds|
        invariant 0 <= x <= |ds| && |derivs| == x && SameObservable(fmu.Now(), old(fmu.Now()))
        invariant forall k | 0 <= k < x ::
                  Answerable(old(fmu.Now()), ds[k]) && Answers(old(fmu.Now()), ds[k], derivs[k])
        invariant made == if Numerical() then x else 0
        invariant fmu.calls == old(fmu.calls) + Repeat(DerivativeCalls(stepSize), made)
      {
        assert Save(fmu.Now()) == Save(old(fmu.Now()));
        var r := DirectionalDerivative(ds[x]);
        if r.None? { return false, derivs, made; }
        derivs := derivs + [r.value];
        if Numerical() {
          RepeatMore(DerivativeCalls(stepSize), made);
          made := made + 1;
        }
        x := x + 1;
      }
      return true, derivs, made;
    }

    /** How many numerical derivatives are taken. */
    function Trials(ds: seq<Deriv>): nat {
      if Numerical() then |ds| else 0
    }

    /** The calls that a request comes down to. */
    ghost function TurnOf(r: Kinematic): Turn
      reads this
    {
      KinTurn(Sets(r), r.future != [], r.dt, Trials(r.derivs), stepSize)
    }

    /** The look-ahead of a request succeeds when the FMU is as i. */
    ghost predicate CanLookAhead(i: Inst<D, X>, r: Kinematic) {
      r.future == [] || (var ahead := Step(fmu.model, Save(i), r.t, r.dt);
                         fmu.canGetAndSetState && ahead.ok && Readable(fmu.model, ahead.inst.s.md, r.future))
    }

    /**
     * A kinematic request. On success the FMU is as it was once its inputs were set, whatever
     * was asked; the answers are those of the trial steps.
     */
    method Serve(r: Kinematic) returns (ok: bool, velocities: seq<real>, derivs: seq<seq<real>>)
      requires forall k | 0 <= k < |r.derivs| :: |r.derivs[k].v| == |r.derivs[k].dv|
      modifies fmu
      ensures var ready := InputsSet(fmu.model, old(fmu.Now()), r);
              && (ok <==> ready.ok && CanLookAhead(ready.inst, r) && forall k | 0 <= k < |r.derivs| ::
                  Answerable(ready.inst, r.derivs[k]))
              && (ok ==> SameObservable(fmu.Now(), ready.inst))
              && (ok && r.future != [] ==>
                  velocities == Values(fmu.model, Step(fmu.model, Save(ready.inst), r.t, r.dt).inst, r.future))
              && (ok ==> |derivs| == |r.derivs| && forall k | 0 <= k < |derivs| ::
                  Answers(ready.inst, r.derivs[k], derivs[k]))
      ensures fmu.calls <= old(fmu.calls) + TurnCalls(TurnOf(r))
              && (ok ==> fmu.calls == old(fmu.calls) + TurnCalls(TurnOf(r)))
    {
      ghost var start, made, tried := fmu.calls, 0, 0;
      velocities, derivs := [], [];
      ok, made := SetInputs(r);
      CallPrefix(start, r, made, fmu.calls, 0);
      if !ok { return; }
      ghost var ready := fmu.Now();
      ok, velocities := LookAheadIfAsked(r);
      CallPrefix(start, r, made, fmu.calls, 0);
      if !ok { return; }
      ghost var back := fmu.Now();
      assert Save(back) == Save(ready);
      ok, derivs, tried := AllDerivatives(r.derivs);
      CallPrefix(start, r, made, fmu.calls, tried);
      assert forall k | 0 <= k < |r.derivs| :: Answerable(back, r.derivs[k]) <==> Answerable(ready, r.derivs[k]);
    }

    ghost function AheadCalls(r: Kinematic): seq<Call> {
      if r.future == [] then [] else LookAheadCalls(r.dt)
    }

    method LookAheadIfAsked(r: Kinematic) returns (ok: bool, velocities: seq<real>)
      modifies fmu
      ensures ok <==> CanLookAhead(old(fmu.Now()), r)
      ensures ok ==> SameObservable(fmu.Now(), old(fmu.Now()))
      ensures ok && r.future != [] ==>
              velocities == Values(fmu.model, Step(fmu.model, Save(old(fmu.Now())), r.t, r.dt).inst, r.future)
      ensures fmu.calls <= old(fmu.calls) + AheadCalls(r) && (ok ==> fmu.calls == old(fmu.calls) + AheadCalls(r))
    {
      ok, velocities := true, [];
      if r.future != [] {
        ok, velocities := LookAhead(r.t, r.dt, r.future);
      }
    }

    /** Wherever the request stops, the calls made so far are the first of those it comes down to. */
    lemma CallPrefix(start: seq<Call>, r: Kinematic, made: nat, calls: seq<Call>, tried: nat)
      requires made <= Sets(r) && tried <= Trials(r.derivs)
      ensures calls == start + Repeat([SetCall], made) ==> calls <= start + TurnCalls(TurnOf(r))
      ensures made == Sets(r) && calls <= start + Repeat([SetCall], made) + AheadCalls(r) ==>
              calls <= start + TurnCalls(TurnOf(r))
      ensures made == Sets(r) && calls == start + Repeat([SetCall], made) + AheadCalls(r)
              + Repeat(DerivativeCalls(stepSize), tried) ==>
                && calls <= start + TurnCalls(TurnOf(r))
                && (tried == Trials(r.derivs) ==> calls == start + TurnCalls(TurnOf(r)))
    {
      RepeatPrefix([SetCall], made, Sets(r));
      RepeatPrefix(DerivativeCalls(stepSize), tried, Trials(r.derivs));
      var a, b, c := Repeat([SetCall], Sets(r)), AheadCalls(r), Repeat(DerivativeCalls(stepSize), Trials(r.derivs));
      assert TurnCalls(TurnOf(r)) == a + b + c;
      assert start + a + b + c == start + (a + b + c);
    }
  }

  // ---- One backup for all saved states --------------------------------------------------------------

  datatype Op = SaveOp(handle: nat) | RestoreOp(handle: nat) | StepOp(t: real, dt: real) | SetOp(a: seq<Assign>)

  /** An instance, what it looked like at each save, and the handle of the latest save. */
  datatype Session<D, X> = Session(inst: Inst<D, X>, snaps: map<nat, Inst<D, X>>, latest: Option<nat>)

  function Do<D, X>(m: Model<D, X>, c: Session<D, X>, op: Op): Session<D, X> {
    match op
    case SaveOp(h) => Session(Save(c.inst), c.snaps[h := c.inst], Some(h))
    case RestoreOp(h) => if h in c.snaps then c.(inst := Restore(c.inst, c.snaps[h].s)) else c
    case StepOp(t, dt) => c.(inst := Step(m, c.inst, t, dt).inst)
    case SetOp(a) => c.(inst := SetX(m, c.inst, a).inst)
  }

  function DoAll<D, X>(m: Model<D, X>, i: Inst<D, X>, ops: seq<Op>): Session<D, X> {
    if ops == [] then Session(i, map[], None) else Do(m, DoAll(m, i, ops[..|ops| - 1]), ops[|ops| - 1])
  }

  /** Whatever is done, the backup is that of the latest save. */
  lemma {:induction false} BackupIsLatest<D, X>(m: Model<D, X>, i: Inst<D, X>, ops: seq<Op>)
    ensures var c := DoAll(m, i, ops);
            if c.latest.None? then c.snaps == map[]
            else c.latest.value in c.snaps && c.inst.backup == c.snaps[c.latest.value].x
  {
    if ops != [] { BackupIsLatest(m, i, ops[..|ops| - 1]); }
  }

  /** After any calls, restoring a saved state brings it back exactly if the latest save had the same GSL variables. */
  lemma {:induction false} RestoreExact<D, X>(m: Model<D, X>, i: Inst<D, X>, ops: seq<Op>, h: nat)
    requires h in DoAll(m, i, ops).snaps
    ensures var c := DoAll(m, i, ops);
            && c.latest.Some? && c.latest.value in c.snaps
            && (SameObservable(Do(m, c, RestoreOp(h)).inst, c.snaps[h]) <==> c.snaps[h].x == c.snaps[c.latest.value].x)
  {
    BackupIsLatest(m, i, ops);
  }

  /** A model whose only behaviour is to count its steps in its GSL variable. */
  const COUNTER: Model<int, int> :=
    Model((d, x, t, dt) => (d, x + 1), (d, vr) => None, (d, a) => None, (d, z, v) => None)

  const FRESH: Inst<int, int> := Inst(Saved(Initialized, 0, 0.0), 0, 0)

  /** Two saves with a step between: the first state does not come back. */
  lemma NestedSaveLost()
    ensures var c := DoAll(COUNTER, FRESH, [SaveOp(0), StepOp(0.0, 1.0), SaveOp(1)]);
            0 in c.snaps && c.snaps[0] == FRESH && !SameObservable(Do(COUNTER, c, RestoreOp(0)).inst, FRESH)
  {
    var ops := [SaveOp(0), StepOp(0.0, 1.0), SaveOp(1)];
    var c0 := DoAll<int, int>(COUNTER, FRESH, []);
    var c1 := DoAll(COUNTER, FRESH, [SaveOp(0)]);
    var c2 := DoAll(COUNTER, FRESH, [SaveOp(0), StepOp(0.0, 1.0)]);
    assert c1 == Do(COUNTER, c0, SaveOp(0)) by { assert [SaveOp(0)][..0] == []; }
    assert c2 == Do(COUNTER, c1, StepOp(0.0, 1.0)) by { assert [SaveOp(0), StepOp(0.0, 1.0)][..1] == [SaveOp(0)]; }
    assert ops[..2] == [SaveOp(0), StepOp(0.0, 1.0)];
    assert c2.inst.x == 1;
  }
}
