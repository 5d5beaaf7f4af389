/** The FMI calls that the server makes for the master's requests. */
module Calls {

  datatype Call =
    | SetupExperiment | EnterInit | ExitInit | SetCall | GetCall | StepCall(dt: real)
    | SaveCall | RestoreCall | TerminateCall | FreeInstance

  function Repeat(c: seq<Call>, n: nat): seq<Call> {
    if n == 0 then [] else c + Repeat(c, n - 1)
  }

  lemma {:induction false} RepeatMore(c: seq<Call>, n: nat)
    ensures Repeat(c, n) + c == Repeat(c, n + 1)
  {
    if n == 0 {
      assert [] + c == c + [];
    } else {
      RepeatMore(c, n - 1);
      assert c + Repeat(c, n - 1) + c == c + (Repeat(c, n - 1) + c);
    }
  }

  lemma {:induction false} RepeatPrefix(c: seq<Call>, m: nat, n: nat)
    requires m <= n
    ensures Repeat(c, m) <= Repeat(c, n)
  {
    if m > 0 { RepeatPrefix(c, m - 1, n - 1); }
  }

  /** One request while running. A kinematic request sets inputs, may look ahead, and takes numerical derivatives. */
  datatype Turn = GetTurn | SetTurn | StepTurn(dt: real) | KinTurn(sets: nat, ahead: bool, dt: real, derivs: nat,
      trial: real)

  function LookAheadCalls(dt: real): seq<Call> {
    [SaveCall, StepCall(dt), GetCall, RestoreCall]
  }

  function DerivativeCalls(trial: real): seq<Call> {
    [SaveCall, GetCall, StepCall(trial), GetCall, RestoreCall, SetCall, StepCall(trial), GetCall, RestoreCall]
  }

  function TurnCalls(t: Turn): seq<Call> {
    match t
    case GetTurn => [GetCall]
    case SetTurn => [SetCall]
    case StepTurn(dt) => [StepCall(dt)]
    case KinTurn(sets, ahead, dt, derivs, trial) =>
      Repeat([SetCall], sets) + (if ahead then LookAheadCalls(dt) else []) + Repeat(DerivativeCalls(trial), derivs)
  }
}
