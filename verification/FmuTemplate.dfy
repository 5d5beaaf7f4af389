/** An FMU built on the template: its life cycle, its variables, and saving and restoring its state. */
module FmuTemplate {
  import opened Options
  import opened Wiring
  import opened Calls

  datatype ModelState =
    | Instantiated | InitializationMode | Initialized | Stepping | Terminated | Error
    | EventMode | ContinuousTimeMode

  const MASK_GET := {InitializationMode, Initialized, Stepping, EventMode, ContinuousTimeMode, Terminated, Error}
  const MASK_SET := {Instantiated, InitializationMode, Initialized, Stepping, EventMode}
  const MASK_STEP := {Initialized, Stepping}

  /** The model-specific code: D is the model description struct, X the variables of the GSL model. */
  datatype Model<!D, !X> = Model(
    doStep: (D, X, real, real) -> (D, X),
    getReal: (D, int) -> Option<real>,
    put: (D, Assign) -> Option<D>,
    partial: (D, int, int) -> Option<real>)

  /** What memcpy saves. The GSL variables are behind a pointer, so they are not part of it. */
  datatype Saved<D> = Saved(state: ModelState, md: D, time: real)

  /** The whole instance: the struct, the GSL variables and their single backup. */
  datatype Inst<D, X> = Inst(s: Saved<D>, x: X, backup: X)

  /** The outcome of an FMI call. */
  datatype Did<D, X> = Did(inst: Inst<D, X>, ok: bool)

  function Checked<D, X>(i: Inst<D, X>, mask: set<ModelState>): Inst<D, X> {
    if i.s.state in mask then i else i.(s := i.s.(state := Error))
  }

  function Step<D, X>(m: Model<D, X>, i: Inst<D, X>, t: real, dt: real): Did<D, X> {
    if i.s.state !in MASK_STEP then Did(Checked(i, MASK_STEP), false)
    else
      var j := i.(s := i.s.(state := Stepping));
      if dt <= 0.0 then Did(j, false)
      else
        var (md, x) := m.doStep(i.s.md, i.x, t, dt);
        Did(j.(s := j.s.(md := md), x := x), true)
  }

  /** The first n assignments, up to one that fails. */
  function SetFirst<D, X>(m: Model<D, X>, md: D, a: seq<Assign>, n: nat): (D, bool)
    requires n <= |a|
  {
    if n == 0 then (md, true)
    else
      var (before, ok) := SetFirst(m, md, a, n - 1);
      if !ok then (before, false)
      else
        match m.put(before, a[n - 1])
        case None => (before, false)
        case Some(after) => (after, true)
  }

  function SetX<D, X>(m: Model<D, X>, i: Inst<D, X>, a: seq<Assign>): Did<D, X> {
    if i.s.state !in MASK_SET then Did(Checked(i, MASK_SET), false)
    else
      var (md, ok) := SetFirst(m, i.s.md, a, |a|);
      Did(i.(s := i.s.(md := md)), ok)
  }

  predicate Readable<D, X>(m: Model<D, X>, md: D, vrs: seq<int>) {
    forall k | 0 <= k < |vrs| :: m.getReal(md, vrs[k]).Some?
  }

  /** The values up to the first that cannot be read; zeros from there on. */
  function Read<D, X>(m: Model<D, X>, md: D, vrs: seq<int>): (r: seq<real>)
    ensures |r| == |vrs|
    ensures Readable(m, md, vrs) ==> forall k | 0 <= k < |vrs| :: m.getReal(md, vrs[k]) == Some(r[k])
  {
    if vrs == [] then []
    else
      match m.getReal(md, vrs[0])
      case None => seq(|vrs|, _ => 0.0)
      case Some(v) => [v] + Read(m, md, vrs[1..])
  }

  function Values<D, X>(m: Model<D, X>, i: Inst<D, X>, vrs: seq<int>): seq<real> {
    if i.s.state in MASK_GET then Read(m, i.s.md, vrs) else seq(|vrs|, _ => 0.0)
  }

  function Save<D, X>(i: Inst<D, X>): Inst<D, X> {
    i.(backup := i.x)
  }

  function Restore<D, X>(i: Inst<D, X>, saved: Saved<D>): Inst<D, X> {
    i.(s := saved, x := i.backup)
  }

  /** Weighted sum of partial derivatives of z over the first n inputs; absent if one is undefined. */
  function Weighted<D, X>(m: Model<D, X>, md: D, z: int, v: seq<int>, dv: seq<real>, n: nat): Option<real>
    requires n <= |v| == |dv|
  {
    if n == 0 then Some(0.0)
    else
      Plus(Weighted(m, md, z, v, dv, n - 1), dv[n - 1], m.partial(md, z, v[n - 1]))
  }

  function Plus(sum: Option<real>, d: real, p: Option<real>): Option<real> {
    if sum.None? || p.None? then None else Some(sum.value + Times(p.value, d))
  }

  function Times(a: real, b: real): real {
    a * b
  }

  class ModelInstance<D, X> {
    const model: Model<D, X>
    const canGetAndSetState: bool
    var state: ModelState
    var md: D
    var time: real
    var x: X
    var backup: X
    ghost var calls: seq<Call>  // made so far

    ghost function Now(): Inst<D, X>
      reads this
    {
      Inst(Saved(state, md, time), x, backup)
    }

    /** fmi2Instantiate. */
    constructor (model: Model<D, X>, canGetAndSetState: bool, defaults: D, x0: X)
      ensures this.model == model && this.canGetAndSetState == canGetAndSetState
      ensures Now() == Inst(Saved(Instantiated, defaults, 0.0), x0, x0) && calls == []
    {
      this.model, this.canGetAndSetState := model, canGetAndSetState;
      state, md, time, x, backup, calls := Instantiated, defaults, 0.0, x0, x0, [];
    }

    method InvalidState(mask: set<ModelState>) returns (bad: bool)
      modifies this`state
      ensures bad == (old(state) !in mask)
      ensures Now() == Checked(old(Now()), mask)
    {
      bad := state !in mask;
      if bad { state := Error; }
    }

    method SetupExperiment(startTime: real) returns (ok: bool)
      modifies this
      ensures ok == (old(state) == Instantiated)
      ensures Now() == if ok then old(Now()).(s := old(Now()).s.(time := startTime))
              else Checked(old(Now()), {Instantiated})
      ensures calls == old(calls) + [Calls.SetupExperiment]
    {
      calls := calls + [Calls.SetupExperiment];
      var bad := InvalidState({Instantiated});
      if bad { return false; }
      time := startTime;
      return true;
    }

    method EnterInitializationMode() returns (ok: bool)
      modifies this
      ensures ok == (old(state) == Instantiated)
      ensures Now() == old(Now()).(s := old(Now()).s.(state := if ok then InitializationMode else Error))
      ensures calls == old(calls) + [EnterInit]
    {
      calls := calls + [EnterInit];
      var bad := InvalidState({Instantiated});
      if bad { return false; }
      state := InitializationMode;
      return true;
    }

    method ExitInitializationMode() returns (ok: bool)
      modifies this
      ensures ok == (old(state) == InitializationMode)
      ensures Now() == old(Now()).(s := old(Now()).s.(state := if ok then Initialized else Error))
      ensures calls == old(calls) + [ExitInit]
    {
      calls := calls + [ExitInit];
      var bad := InvalidState({InitializationMode});
      if bad { return false; }
      state := Initialized;
      return true;
    }

    method Terminate() returns (ok: bool)
      modifies this
      ensures ok == (old(state) in {Initialized, Stepping, EventMode, ContinuousTimeMode})
      ensures Now() == old(Now()).(s := old(Now()).s.(state := if ok then Terminated else Error))
      ensures calls == old(calls) + [TerminateCall]
    {
      calls := calls + [TerminateCall];
      var bad := InvalidState({Initialized, Stepping, EventMode, ContinuousTimeMode});
      if bad { return false; }
      state := Terminated;
      return true;
    }

    method DoStep(t: real, dt: real) returns (ok: bool)
      modifies this
      ensures Did(Now(), ok) == Step(model, old(Now()), t, dt)
      ensures calls == old(calls) + [StepCall(dt)]
    {
      calls := calls + [StepCall(dt)];
      var bad := InvalidState(MASK_STEP);
      if bad { return false; }
      state := Stepping;
      if dt <= 0.0 { return false; }
      var (d, y) := model.doStep(md, x, t, dt);
      md, x := d, y;
      return true;
    }

    method Set(a: seq<Assign>) returns (ok: bool)
      modifies this
      ensures Did(Now(), ok) == SetX(model, old(Now()), a)
      ensures calls == old(calls) + [SetCall]
    {
      calls := calls + [SetCall];
      var bad := InvalidState(MASK_SET);
      if bad { return false; }
      var i := 0;
      while i < |a|
        invariant 0 <= i <= |a| && SetFirst(model, old(md), a, i) == (md, true)
        invariant Now() == old(Now()).(s := old(Now()).s.(md := md)) && calls == old(calls) + [SetCall]
      {
        match model.put(md, a[i]) {
          case None =>
            SetStops(model, old(md), a, i + 1, |a|);
            return false;
          case Some(after) =>
            md := after;
        }
        i := i + 1;
      }
      return true;
    }

    method GetReal(vrs: seq<int>) returns (ok: bool, values: seq<real>)
      modifies this`state, this`calls
      ensures Now() == Checked(old(Now()), MASK_GET)
      ensures ok <==> old(state) in MASK_GET && Readable(model, md, vrs)
      ensures values == Values(model, old(Now()), vrs)
      ensures calls == old(calls) + [GetCall]
    {
      calls := calls + [GetCall];
      values := seq(|vrs|, _ => 0.0);
      var bad := InvalidState(MASK_GET);
      if bad { return false, values; }
      var i := 0;
      while i < |vrs|
        invariant 0 <= i <= |vrs| && |values| == |vrs|
        invariant forall k | 0 <= k < i :: model.getReal(md, vrs[k]) == Some(values[k])
        invariant forall k | i <= k < |vrs| :: values[k] == 0.0
      {
        match model.getReal(md, vrs[i]) {
          case None =>
            ReadIs(model, md, vrs, i, values);
            return false, values;
          case Some(v) =>
            values := values[i := v];
        }
        i := i + 1;
      }
      ReadIs(model, md, vrs, i, values);
      return true, values;
    }

    method GetFmuState() returns (saved: Option<Saved<D>>)
      modifies this`backup, this`calls
      ensures saved == if canGetAndSetState then Some(old(Now()).s) else None
      ensures Now() == if canGetAndSetState then Save(old(Now())) else old(Now())
      ensures calls == old(calls) + [SaveCall]
    {
      calls := calls + [SaveCall];
      if !canGetAndSetState { return None; }
      backup := x;
      return Some(Saved(state, md, time));
    }

    method SetFmuState(saved: Saved<D>) returns (ok: bool)
      modifies this
      ensures ok == canGetAndSetState
      ensures Now() == if ok then Restore(old(Now()), saved) else old(Now())
      ensures calls == old(calls) + [RestoreCall]
    {
      calls := calls + [RestoreCall];
      if !canGetAndSetState { return false; }
      state, md, time := saved.state, saved.md, saved.time;
      x := backup;
      return true;
    }

    /** Partial derivatives of the outputs weighted by dv. */
    method GetDirectionalDerivative(z: seq<int>, v: seq<int>, dv: seq<real>) returns (r: Option<seq<real>>)
      requires |v| == |dv|
      ensures r.Some? <==> forall k | 0 <= k < |z| :: Weighted(model, md, z[k], v, dv, |v|).Some?
      ensures r.Some? ==> |r.value| == |z| && forall k | 0 <= k < |z| ::
              Weighted(model, md, z[k], v, dv, |v|) == Some(r.value[k])
    {
      var dz: seq<real> := [];
      for a := 0 to |z|
        invariant |dz| == a
        invariant forall k | 0 <= k < a :: Weighted(model, md, z[k], v, dv, |v|) == Some(dz[k])
      {
        var sum := 0.0;
        for b := 0 to |v|
          invariant Weighted(model, md, z[a], v, dv, b) == Some(sum)
        {
          var p := model.partial(md, z[a], v[b]);
          if p.None? {
            WeightedStops(model, md, z[a], v, dv, b + 1, |v|);
            return None;
          }
          assert Weighted(model, md, z[a], v, dv, b + 1) == Plus(Some(sum), dv[b], p);
          sum := sum + Times(p.value, dv[b]);
        }
        dz := dz + [sum];
      }
      return Some(dz);
    }
  }

  lemma {:induction false} WeightedStops<D, X>(m: Model<D, X>, md: D, z: int, v: seq<int>, dv: seq<real>, k: nat,
                                               n: nat)
    requires k <= n <= |v| == |dv| && Weighted(m, md, z, v, dv, k).None?
    ensures Weighted(m, md, z, v, dv, n).None?
  {
    if k < n { WeightedStops(m, md, z, v, dv, k, n - 1); }
  }

  lemma {:induction false} SetStops<D, X>(m: Model<D, X>, md: D, a: seq<Assign>, k: nat, n: nat)
    requires k <= n <= |a| && !SetFirst(m, md, a, k).1
    ensures SetFirst(m, md, a, n) == SetFirst(m, md, a, k)
  {
    if k < n { SetStops(m, md, a, k, n - 1); }
  }

  lemma {:induction false} ReadIs<D, X>(m: Model<D, X>, md: D, vrs: seq<int>, n: nat, values: seq<real>)
    requires n <= |vrs| == |values|
    requires forall k | 0 <= k < n :: m.getReal(md, vrs[k]) == Some(values[k])
    requires forall k | n <= k < |vrs| :: values[k] == 0.0
    requires n < |vrs| ==> m.getReal(md, vrs[n]).None?
    ensures values == Read(m, md, vrs)
  {
    if n > 0 {
      ReadIs(m, md, vrs[1..], n - 1, values[1..]);
      assert m.getReal(md, vrs[0]) == Some(values[0]);
      assert values == [values[0]] + values[1..];
    }
  }
}
