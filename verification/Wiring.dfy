/** Variables, values and the connections between FMUs. */
module Wiring {
  import opened Options

  datatype Base = RealB | IntB | BoolB | StrB | EnumB

  datatype Var = Var(ty: Base, vr: int)

  datatype Val = RealV(r: real) | IntV(i: int) | BoolV(b: bool) | StrV(s: string)

  /** A value set on a variable. */
  datatype Assign = Assign(to: Var, val: Val)

  /** y = slope * x + intercept, from an output of one client to an input of another. */
  datatype Conn = Conn(src: nat, fromType: Base, fromVR: int, dst: nat, toType: Base, toVR: int, slope: real,
      intercept: real) {
    function Source(): Var {
      Var(fromType, fromVR)
    }

    function Target(): Var {
      Var(toType, toVR)
    }
  }

  /** The outputs last received from one client. */
  type Cache = map<Var, Val>

  predicate Wired(conns: seq<Conn>, n: nat) {
    forall i | 0 <= i < |conns| :: conns[i].src < n && conns[i].dst < n
  }

  predicate HasType(v: Val, ty: Base) {
    match ty
    case RealB => v.RealV?
    case IntB => v.IntV?
    case BoolB => v.BoolV?
    case StrB => v.StrV?
    case EnumB => true
  }

  /** The C++ conversion from double to int: towards zero. */
  function Truncate(x: real): int {
    if x >= 0.0 then x.Floor else -((-x).Floor)
  }

  /** A number connected to an input of another numeric type. */
  function Scaled(x: real, w: Conn): Outcome<Val> {
    var y := x * w.slope + w.intercept;
    match w.toType
    case RealB => Ok(RealV(y))
    case IntB => Ok(IntV(Truncate(y)))
    case BoolB => Ok(BoolV(y > 0.5 || y < -0.5))
    case StrB => Stop
    case EnumB => Stop
  }

  /** What connection w makes of the value of its source; stops if it cannot be converted. */
  function Converted(w: Conn, v: Val): Outcome<Val> {
    if !HasType(v, w.fromType) then Stop
    else
      match w.fromType
      case RealB => Scaled(v.r, w)
      case IntB => if w.toType == IntB && w.slope == 1.0 && w.intercept == 0.0 then Ok(v) else Scaled(v.i as real, w)
      case BoolB =>
        if w.toType == BoolB then (if w.slope != 1.0 || w.intercept != 0.0 then Stop else Ok(v))
        else Scaled(if v.b then 1.0 else 0.0, w)
      case StrB => if w.toType != StrB then Stop else Ok(v)
      case EnumB => Stop
  }

  /** The value that connection w delivers; stops if it was not requested or cannot be converted. */
  function Convert(w: Conn, caches: seq<Cache>): Outcome<Val>
    requires w.src < |caches|
  {
    if w.Source() !in caches[w.src] then Stop else Converted(w, caches[w.src][w.Source()])
  }

  /** The types of w are among those the conversion supports. */
  predicate Convertible(w: Conn) {
    match w.fromType
    case RealB => w.toType in {RealB, IntB, BoolB}
    case IntB => w.toType in {RealB, IntB, BoolB}
    case BoolB => w.toType in {RealB, IntB} || (w.toType == BoolB && w.slope == 1.0 && w.intercept == 0.0)
    case StrB => w.toType == StrB
    case EnumB => false
  }

  /** Whether a conversion succeeds depends on the types alone, and it yields the target's type. */
  lemma ConvertedType(w: Conn, v: Val)
    requires HasType(v, w.fromType)
    ensures Converted(w, v).Ok? <==> Convertible(w)
    ensures Converted(w, v).Ok? ==> HasType(Converted(w, v).value, w.toType) && w.toType != EnumB
  {
  }
}
