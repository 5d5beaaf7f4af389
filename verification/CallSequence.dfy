/** The master's order of FMI calls against the call-permission masks of the FMU template. */
module CallSequence {
  import opened Options
  import opened Wiring
  import opened Calls
  import opened FmuTemplate

  /** The life of an instance as far as the masks go. */
  datatype Life = Alive(state: ModelState, saved: Option<ModelState>) | Freed

  const START := Alive(Instantiated, None)

  /** invalidState with the mask of the call. Saving and restoring are not checked. */
  predicate InMask(state: ModelState, c: Call) {
    match c
    case SetupExperiment => state == Instantiated
    case EnterInit => state == Instantiated
    case ExitInit => state == InitializationMode
    case SetCall => state in MASK_SET
    case GetCall => state in MASK_GET
    case StepCall(_) => state in MASK_STEP
    case TerminateCall => state in {Initialized, Stepping, EventMode, ContinuousTimeMode}
    case FreeInstance => state == Terminated
    case _ => true
  }

  /** Allowed here; a restore also needs something saved. */
  predicate Permitted(l: Life, c: Call) {
    l.Alive? && InMask(l.state, c) && (c.RestoreCall? ==> l.saved.Some?)
  }

  function Next(l: Life, c: Call): Life {
    if l.Freed? then l
    else if !Permitted(l, c) then l.(state := Error)
    else
      match c
      case EnterInit => l.(state := InitializationMode)
      case ExitInit => l.(state := Initialized)
      case StepCall(_) => l.(state := Stepping)
      case SaveCall => l.(saved := Some(l.state))
      case RestoreCall => l.(state := l.saved.value)
      case TerminateCall => l.(state := Terminated)
      case FreeInstance => Freed
      case _ => l
  }

  function StateOf<D>(slot: Option<Saved<D>>): Option<ModelState> {
    if slot.Some? then Some(slot.value.state) else None
  }

  /** Making the call on an instance, with any arguments, takes it where Next says; its status is as Permitted says. */
  method Perform<D, X>(fmu: ModelInstance<D, X>, c: Call, a: seq<Assign>, vrs: seq<int>, t: real,
                       slot: Option<Saved<D>>)
    returns (ok: bool, slot': Option<Saved<D>>)
    requires fmu.canGetAndSetState && !c.FreeInstance? && (c.RestoreCall? ==> slot.Some?)
    modifies fmu
    ensures Alive(fmu.state, StateOf(slot')) == Next(Alive(old(fmu.state), StateOf(slot)), c)
    ensures !Permitted(Alive(old(fmu.state), StateOf(slot)), c) ==> !ok && fmu.state == Error
    ensures Permitted(Alive(old(fmu.state), StateOf(slot)), c) ==>
              (ok <==> match c
                       case StepCall(dt) => dt > 0.0
                       case SetCall => SetFirst(fmu.model, old(fmu.md), a, |a|).1
                       case GetCall => Readable(fmu.model, old(fmu.md), vrs)
                       case _ => true)
  {
    slot', ok := slot, true;
    match c {
      case SetupExperiment => ok := fmu.SetupExperiment(t);
      case EnterInit => ok := fmu.EnterInitializationMode();
      case ExitInit => ok := fmu.ExitInitializationMode();
      case SetCall => ok := fmu.Set(a);
      case GetCall => var values; ok, values := fmu.GetReal(vrs);
      case StepCall(dt) => ok := fmu.DoStep(t, dt);
      case SaveCall => slot' := fmu.GetFmuState();
      case RestoreCall => ok := fmu.SetFmuState(slot.value);
      case TerminateCall => ok := fmu.Terminate();
    }
  }

  /** Every call of the list is allowed where it is made. */
  predicate Legal(l: Life, cs: seq<Call>)
    decreases |cs|
  {
    cs == [] || (Permitted(l, cs[0]) && Legal(Next(l, cs[0]), cs[1..]))
  }

  function After(l: Life, cs: seq<Call>): Life
    decreases |cs|
  {
    if cs == [] then l else After(Next(l, cs[0]), cs[1..])
  }

  lemma {:induction false} Then(l: Life, a: seq<Call>, b: seq<Call>)
    ensures After(l, a + b) == After(After(l, a), b)
    ensures Legal(l, a + b) <==> Legal(l, a) && Legal(After(l, a), b)
    decreases |a|
  {
    if a == [] {
      assert a + b == b;
    } else {
      assert (a + b)[1..] == a[1..] + b;
      Then(Next(l, a[0]), a[1..], b);
    }
  }

  /** No prefix of legal calls ends in Error: a legal run never enters it. */
  lemma {:induction false} LegalNeverErrs(l: Life, cs: seq<Call>, k: nat)
    requires Legal(l, cs) && k <= |cs| && l.Alive? && l.state != Error && (l.saved.Some? ==> l.saved.value != Error)
    ensures After(l, cs[..k]).Alive? ==> After(l, cs[..k]).state != Error
    decreases k
  {
    if k > 0 {
      assert cs[..k][1..] == cs[1..][..k - 1];
      var n := Next(l, cs[0]);
      if n.Alive? {
        LegalNeverErrs(n, cs[1..], k - 1);
      } else {
        FreedStays(cs[1..][..k - 1]);
      }
    }
  }

  lemma {:induction false} FreedStays(cs: seq<Call>)
    ensures After(Freed, cs) == Freed
  {
    if cs != [] { FreedStays(cs[1..]); }
  }

  // ---- What the master does -------------------------------------------------------------------------

  function TurnsCalls(ts: seq<Turn>): seq<Call> {
    if ts == [] then [] else TurnCalls(ts[0]) + TurnsCalls(ts[1..])
  }

  /** Start values, parameters, calls in initialization mode (true reads, false sets), and the running phase. */
  datatype Run = Run(startValues: nat, params: nat, initing: seq<bool>, turns: seq<Turn>)

  function InitCalls(gets: seq<bool>): seq<Call> {
    if gets == [] then [] else [if gets[0] then GetCall else SetCall] + InitCalls(gets[1..])
  }

  function RunCalls(r: Run): seq<Call> {
    Repeat([SetCall], r.startValues) + ([SetupExperiment]
    + (Repeat([SetCall], r.params) + ([EnterInit]
    + (InitCalls(r.initing) + ([ExitInit]
    + (TurnsCalls(r.turns) + [TerminateCall, FreeInstance]))))))
  }

  // ---- It is always allowed -------------------------------------------------------------------------

  lemma {:induction false} SetsLegal(l: Life, n: nat)
    requires l.Alive? && l.state in MASK_SET
    ensures Legal(l, Repeat([SetCall], n)) && After(l, Repeat([SetCall], n)) == l
  {
    if n > 0 {
      SetsLegal(l, n - 1);
      Then(l, [SetCall], Repeat([SetCall], n - 1));
      assert [SetCall][1..] == [];
    }
  }

  lemma {:induction false} InitLegal(l: Life, gets: seq<bool>)
    requires l.Alive? && l.state == InitializationMode
    ensures Legal(l, InitCalls(gets)) && After(l, InitCalls(gets)) == l
  {
    if gets != [] {
      InitLegal(l, gets[1..]);
      assert InitCalls(gets)[1..] == InitCalls(gets[1..]);
    }
  }

  /** Running: initialized or stepping. */
  predicate Going(l: Life) {
    l.Alive? && l.state in MASK_STEP
  }

  /** Step, read, restore comes back to what was saved. */
  lemma TrialLegal(l: Life, dt: real)
    requires Going(l) && l.saved.Some?
    ensures Legal(l, [StepCall(dt), GetCall, RestoreCall])
            && After(l, [StepCall(dt), GetCall, RestoreCall]) == l.(state := l.saved.value)
  {
    var l1 := Next(l, StepCall(dt));
    assert [StepCall(dt), GetCall, RestoreCall] == [StepCall(dt)] + ([GetCall] + ([RestoreCall] + []));
    One(l, StepCall(dt), [GetCall] + ([RestoreCall] + []));
    One(l1, GetCall, [RestoreCall] + []);
    One(l1, RestoreCall, []);
  }

  lemma LookAheadLegal(l: Life, dt: real)
    requires Going(l)
    ensures Legal(l, LookAheadCalls(dt)) && After(l, LookAheadCalls(dt)) == l.(saved := Some(l.state))
  {
    assert LookAheadCalls(dt) == [SaveCall] + [StepCall(dt), GetCall, RestoreCall];
    One(l, SaveCall, [StepCall(dt), GetCall, RestoreCall]);
    TrialLegal(Next(l, SaveCall), dt);
  }

  lemma DerivativeLegal(l: Life, dt: real)
    requires Going(l)
    ensures Legal(l, DerivativeCalls(dt)) && After(l, DerivativeCalls(dt)) == l.(saved := Some(l.state))
  {
    var trial := [StepCall(dt), GetCall, RestoreCall];
    var l1 := Next(l, SaveCall);
    assert DerivativeCalls(dt) == [SaveCall] + ([GetCall] + (trial + ([SetCall] + trial)));
    One(l, SaveCall, [GetCall] + (trial + ([SetCall] + trial)));
    One(l1, GetCall, trial + ([SetCall] + trial));
    TrialLegal(l1, dt);
    Then(l1, trial, [SetCall] + trial);
    One(l1, SetCall, trial);
  }

  lemma {:induction false} DerivativesLegal(l: Life, dt: real, n: nat)
    requires Going(l)
    ensures Legal(l, Repeat(DerivativeCalls(dt), n))
    ensures After(l, Repeat(DerivativeCalls(dt), n)) == if n == 0 then l else l.(saved := Some(l.state))
    decreases n
  {
    if n > 0 {
      DerivativeLegal(l, dt);
      Then(l, DerivativeCalls(dt), Repeat(DerivativeCalls(dt), n - 1));
      DerivativesLegal(l.(saved := Some(l.state)), dt, n - 1);
    }
  }

  /** A request is legal while running, and only a step moves on from just initialized. */
  lemma TurnLegal(l: Life, t: Turn)
    requires Going(l)
    ensures Legal(l, TurnCalls(t)) && Going(After(l, TurnCalls(t)))
    ensures !t.StepTurn? ==> After(l, TurnCalls(t)).state == l.state
  {
    match t
    case KinTurn(sets, ahead, dt, derivs, trial) =>
      var a, b, c := Repeat([SetCall], sets), (if ahead then LookAheadCalls(dt) else []),
          Repeat(DerivativeCalls(trial), derivs);
      SetsLegal(l, sets);
      LookAheadLegal(l, dt);
      var l' := After(l, b);
      DerivativesLegal(l', trial, derivs);
      Then(l, a, b);
      Then(l, a + b, c);
    case _ =>
      assert TurnCalls(t)[1..] == [];
  }

  lemma {:induction false} TurnsLegal(l: Life, ts: seq<Turn>)
    requires Going(l)
    ensures Legal(l, TurnsCalls(ts)) && Going(After(l, TurnsCalls(ts)))
    decreases |ts|
  {
    if ts != [] {
      TurnLegal(l, ts[0]);
      TurnsLegal(After(l, TurnCalls(ts[0])), ts[1..]);
      Then(l, TurnCalls(ts[0]), TurnsCalls(ts[1..]));
    }
  }

  lemma One(l: Life, c: Call, rest: seq<Call>)
    ensures Legal(l, [c] + rest) <==> Permitted(l, c) && Legal(Next(l, c), rest)
    ensures After(l, [c] + rest) == After(Next(l, c), rest)
  {
    assert ([c] + rest)[1..] == rest;
  }

  /** From exit of initialization to the end. */
  lemma RunningLegal(l: Life, ts: seq<Turn>)
    requires l.Alive? && l.state == InitializationMode
    ensures var cs := [ExitInit] + (TurnsCalls(ts) + [TerminateCall, FreeInstance]);
            Legal(l, cs) && After(l, cs) == Freed
  {
    var l1 := Next(l, ExitInit);
    One(l, ExitInit, TurnsCalls(ts) + [TerminateCall, FreeInstance]);
    TurnsLegal(l1, ts);
    Then(l1, TurnsCalls(ts), [TerminateCall, FreeInstance]);
    assert [TerminateCall, FreeInstance][1..] == [FreeInstance] && [FreeInstance][1..] == [];
  }

  lemma InitingLegal(l: Life, gets: seq<bool>, ts: seq<Turn>)
    requires l.Alive? && l.state == Instantiated
    ensures var cs := [EnterInit] + (InitCalls(gets) + ([ExitInit] + (TurnsCalls(ts) + [TerminateCall, FreeInstance])));
            Legal(l, cs) && After(l, cs) == Freed
  {
    var rest := [ExitInit] + (TurnsCalls(ts) + [TerminateCall, FreeInstance]);
    var l1 := Next(l, EnterInit);
    One(l, EnterInit, InitCalls(gets) + rest);
    InitLegal(l1, gets);
    Then(l1, InitCalls(gets), rest);
    RunningLegal(l1, ts);
  }

  /** Whatever the master does, every call it makes is allowed, and the instance ends freed. */
  lemma MasterRunLegal(r: Run)
    ensures Legal(START, RunCalls(r)) && After(START, RunCalls(r)) == Freed
  {
    var rest := [EnterInit] + (InitCalls(r.initing)
        + ([ExitInit] + (TurnsCalls(r.turns) + [TerminateCall, FreeInstance])));
    SetsLegal(START, r.startValues);
    SetsLegal(START, r.params);
    InitingLegal(START, r.initing, r.turns);
    Then(START, Repeat([SetCall], r.params), rest);
    One(START, SetupExperiment, Repeat([SetCall], r.params) + rest);
    Then(START, Repeat([SetCall], r.startValues), [SetupExperiment] + (Repeat([SetCall], r.params) + rest));
  }

  /** At no point of any run of the master, however far it gets, is the instance in the error state. */
  lemma MasterNeverErrs(r: Run, k: nat)
    requires k <= |RunCalls(r)|
    ensures After(START, RunCalls(r)[..k]).Alive? ==> After(START, RunCalls(r)[..k]).state != Error
  {
    MasterRunLegal(r);
    LegalNeverErrs(START, RunCalls(r), k);
  }

  /** Reading an output before initialization mode would be fatal to the instance. */
  lemma EarlyGetErrs(n: nat, rest: seq<Call>)
    ensures !Legal(START, Repeat([SetCall], n) + ([GetCall] + rest))
    ensures After(START, Repeat([SetCall], n) + [GetCall]) == Alive(Error, None)
  {
    SetsLegal(START, n);
    Then(START, Repeat([SetCall], n), [GetCall] + rest);
    One(START, GetCall, rest);
    Then(START, Repeat([SetCall], n), [GetCall]);
    assert [GetCall][1..] == [];
  }
}
