/** Asking the FMUs of a kinematic step for directional derivatives, and filing the answers in the mobility matrix. */
module Mobility {
  import opened IntSets

  datatype Vec3 = Vec3(x: real, y: real, z: real)

  /** One entry of the sparse mobility matrix. */
  datatype Element = Element(spatial: Vec3, rotational: Vec3)

  /** The value references of a vector quantity: absent, one, or one per coordinate. */
  datatype Refs = NoRefs | One(vr: int) | Three(vx: int, vy: int, vz: int) {
    function List(): (l: seq<int>)
      ensures |l| in {0, 1, 3}
    {
      match this
      case NoRefs => []
      case One(vr) => [vr]
      case Three(vx, vy, vz) => [vx, vy, vz]
    }
  }

  /** A strong connector: its kind, and the references of the outputs and inputs used. */
  datatype Connector = Connector(shaft: bool, acc: Refs, force: Refs, angAcc: Refs, torque: Refs)

  /** An equation's hold on connector number `conn` of FMU `slave`, with that connector's Jacobian element. */
  datatype Attachment = Attachment(slave: nat, conn: nat, jacobian: Element)

  datatype Equation = Equation(isSpatial: bool, isRotational: bool, held: seq<Attachment>)

  datatype System = System(slaves: seq<seq<Connector>>, eqs: seq<Equation>)

  datatype Request = Request(z: seq<int>, v: seq<int>, dv: seq<real>)

  /** One turn of the innermost loop: a matrix entry, the FMU, and what its requests depend on. */
  datatype Visit = Visit(row: nat, column: nat, slave: nat, spatial: bool, rotational: bool, ac: Connector,
      fc: Connector, jacobian: Element)

  const ZERO := Vec3(0.0, 0.0, 0.0)

  predicate Formed(sys: System) {
    forall e, k | 0 <= e < |sys.eqs| && 0 <= k < |sys.eqs[e].held| :: Attached(sys, sys.eqs[e].held[k])
  }

  predicate Attached(sys: System, a: Attachment) {
    a.slave < |sys.slaves| && a.conn < |sys.slaves[a.slave]|
  }

  /** There is an input reference for every output reference. */
  predicate Paired(z: Refs, v: Refs) {
    !z.NoRefs? && !v.NoRefs? && |z.List()| <= |v.List()|
  }

  /** None of the three fatal() calls of the request pass is reached, and no reference is read past its list. */
  predicate Allowed(v: Visit) {
    && v.ac.shaft == v.fc.shaft
    && (v.spatial ==> Paired(v.ac.acc, v.fc.force))
    && (v.rotational ==> Paired(v.ac.angAcc, v.fc.torque))
  }

  function Cut<T>(s: seq<T>, n: nat): seq<T> {
    if n <= |s| then s[..n] else s
  }

  /** getDirectionalDerivative: one input and one seed entry for each output. */
  function Ask(z: Refs, v: Refs, seed: Vec3): (q: Request)
    ensures Paired(z, v) ==> |q.z| == |q.v| == |q.dv| > 0
  {
    var n := |z.List()|;
    Request(z.List(), Cut(v.List(), n), Cut([seed.x, seed.y, seed.z], n))
  }

  function Spatial(v: Visit): Request {
    Ask(v.ac.acc, v.fc.force, v.jacobian.spatial)
  }

  function Rotational(v: Visit): Request {
    Ask(v.ac.angAcc, v.fc.torque, v.jacobian.rotational)
  }

  function Requests(v: Visit): seq<Request> {
    (if v.spatial then [Spatial(v)] else []) + if v.rotational then [Rotational(v)] else []
  }

  /** An answer as a vector; a lone number is its first coordinate. */
  function ToVec(dz: seq<real>): Vec3 {
    if |dz| == 1 then Vec3(dz[0], 0.0, 0.0) else if |dz| >= 3 then Vec3(dz[0], dz[1], dz[2]) else ZERO
  }

  /** An FMU's answers to requests for a derivative. */
  type Answers = (int, Request) -> seq<real>

  /** What belongs in the matrix for this visit: the answers to this visit's own requests. */
  function Wanted(answer: Answers, v: Visit): Element {
    Element(if v.spatial then ToVec(answer(v.slave, Spatial(v))) else ZERO,
            if v.rotational then ToVec(answer(v.slave, Rotational(v))) else ZERO)
  }

  function Key(v: Visit): (int, int) {
    (v.row, v.column)
  }

  // ---- The order of the visits ----------------------------------------------------------------------

  /** The row of FMU c's first connector: connectors are numbered FMU by FMU. */
  function FirstRow(slaves: seq<seq<Connector>>, c: nat): nat
    requires c <= |slaves|
  {
    if c == 0 then 0 else FirstRow(slaves, c - 1) + |slaves[c - 1]|
  }

  lemma {:induction false} RowsApart(slaves: seq<seq<Connector>>, c: nat, d: nat)
    requires c < d <= |slaves|
    ensures FirstRow(slaves, c) + |slaves[c]| <= FirstRow(slaves, d)
  {
    if c + 1 < d { RowsApart(slaves, c, d - 1); }
  }

  /** Different connectors have different rows. */
  lemma SameRow(slaves: seq<seq<Connector>>, c: nat, x: nat, d: nat, y: nat)
    requires c < |slaves| && x < |slaves[c]| && d < |slaves| && y < |slaves[d]|
    ensures FirstRow(slaves, c) + x == FirstRow(slaves, d) + y <==> c == d && x == y
  {
    if c < d {
      RowsApart(slaves, c, d);
    } else if d < c {
      RowsApart(slaves, d, c);
    }
  }

  predicate InRange(sys: System, e: nat, k: nat, x: nat) {
    && e < |sys.eqs| && k < |sys.eqs[e].held| && Attached(sys, sys.eqs[e].held[k])
    && x < |sys.slaves[sys.eqs[e].held[k].slave]|
  }

  /** Equation e, its attachment k, and connector x of the FMU attached there. */
  function VisitAt(sys: System, e: nat, k: nat, x: nat): Visit
    requires InRange(sys, e, k, x)
  {
    var eq, a := sys.eqs[e], sys.eqs[e].held[k];
    Visit(FirstRow(sys.slaves, a.slave) + x, e, a.slave, eq.isSpatial, eq.isRotational,
          sys.slaves[a.slave][x], sys.slaves[a.slave][a.conn], a.jacobian)
  }

  /** The visits of the first n connectors of attachment k of equation e. */
  function ConnectorVisits(sys: System, e: nat, k: nat, n: nat): seq<Visit>
    requires e < |sys.eqs| && k < |sys.eqs[e].held| && Attached(sys, sys.eqs[e].held[k])
    requires n <= |sys.slaves[sys.eqs[e].held[k].slave]|
  {
    if n == 0 then [] else ConnectorVisits(sys, e, k, n - 1) + [VisitAt(sys, e, k, n - 1)]
  }

  function Connectors(sys: System, e: nat, k: nat): nat
    requires e < |sys.eqs| && k < |sys.eqs[e].held| && Attached(sys, sys.eqs[e].held[k])
  {
    |sys.slaves[sys.eqs[e].held[k].slave]|
  }

  /** The visits of the first n attachments of equation e. */
  function EquationVisits(sys: System, e: nat, n: nat): seq<Visit>
    requires Formed(sys) && e < |sys.eqs| && n <= |sys.eqs[e].held|
  {
    if n == 0 then [] else EquationVisits(sys, e, n - 1) + ConnectorVisits(sys, e, n - 1, Connectors(sys, e, n - 1))
  }

  /** The visits of the first n equations. */
  function Visits(sys: System, n: nat): seq<Visit>
    requires Formed(sys) && n <= |sys.eqs|
  {
    if n == 0 then [] else Visits(sys, n - 1) + EquationVisits(sys, n - 1, |sys.eqs[n - 1].held|)
  }

  lemma {:induction false} ConnectorPrefix(sys: System, e: nat, k: nat, m: nat, n: nat)
    requires e < |sys.eqs| && k < |sys.eqs[e].held| && Attached(sys, sys.eqs[e].held[k])
    requires m <= n <= Connectors(sys, e, k)
    ensures ConnectorVisits(sys, e, k, m) <= ConnectorVisits(sys, e, k, n)
  {
    if m < n { ConnectorPrefix(sys, e, k, m, n - 1); }
  }

  lemma {:induction false} EquationPrefix(sys: System, e: nat, m: nat, n: nat)
    requires Formed(sys) && e < |sys.eqs| && m <= n <= |sys.eqs[e].held|
    ensures EquationVisits(sys, e, m) <= EquationVisits(sys, e, n)
  {
    if m < n { EquationPrefix(sys, e, m, n - 1); }
  }

  lemma {:induction false} VisitsPrefix(sys: System, m: nat, n: nat)
    requires Formed(sys) && m <= n <= |sys.eqs|
    ensures Visits(sys, m) <= Visits(sys, n)
  {
    if m < n { VisitsPrefix(sys, m, n - 1); }
  }

  lemma NextVisit(sys: System, e: nat, k: nat, x: nat, filed: seq<Visit>, all: seq<Visit>)
    requires e < |sys.eqs| && k < |sys.eqs[e].held| && Attached(sys, sys.eqs[e].held[k]) && x < Connectors(sys, e, k)
    requires filed + ConnectorVisits(sys, e, k, Connectors(sys, e, k)) <= all
    ensures filed + ConnectorVisits(sys, e, k, x) + [VisitAt(sys, e, k, x)]
            == filed + ConnectorVisits(sys, e, k, x + 1) <= all
  {
    ConnectorPrefix(sys, e, k, x + 1, Connectors(sys, e, k));
  }

  lemma NextConnector(sys: System, e: nat, k: nat, filed: seq<Visit>, all: seq<Visit>)
    requires Formed(sys) && e < |sys.eqs| && k < |sys.eqs[e].held|
    requires filed + EquationVisits(sys, e, |sys.eqs[e].held|) <= all
    ensures filed + EquationVisits(sys, e, k) + ConnectorVisits(sys, e, k, Connectors(sys, e, k)) <= all
    ensures filed + EquationVisits(sys, e, k) + ConnectorVisits(sys, e, k, Connectors(sys, e, k))
            == filed + EquationVisits(sys, e, k + 1)
  {
    EquationPrefix(sys, e, k + 1, |sys.eqs[e].held|);
  }

  // ---- Which requests end up with which FMU ---------------------------------------------------------

  /** operator[] of a map of ints: an absent id reads as 0. */
  function Slot(id2kin: map<int, nat>, c: int): nat {
    if c in id2kin then id2kin[c] else 0
  }

  /** The requests that the visits put in slot s, in order. */
  function RequestsTo(id2kin: map<int, nat>, vs: seq<Visit>, s: nat): seq<Request> {
    if vs == [] then []
    else
      var v := vs[|vs| - 1];
      RequestsTo(id2kin, vs[..|vs| - 1], s) + if Slot(id2kin, v.slave) == s then Requests(v) else []
  }

  lemma {:induction false} RequestsPrefix(id2kin: map<int, nat>, vs: seq<Visit>, all: seq<Visit>, s: nat)
    requires vs <= all
    ensures RequestsTo(id2kin, vs, s) <= RequestsTo(id2kin, all, s)
  {
    if |vs| < |all| {
      RequestsPrefix(id2kin, vs, all[..|all| - 1], s);
    } else {
      assert vs == all;
    }
  }

  function Lists(id2kin: map<int, nat>, vs: seq<Visit>, n: nat): seq<seq<Request>> {
    seq(n, s requires 0 <= s < n => RequestsTo(id2kin, vs, s))
  }

  function Counts(id2kin: map<int, nat>, vs: seq<Visit>, n: nat): seq<nat> {
    seq(n, s requires 0 <= s < n => |RequestsTo(id2kin, vs, s)|)
  }

  lemma CountsNext(id2kin: map<int, nat>, vs: seq<Visit>, v: Visit, n: nat)
    requires Slot(id2kin, v.slave) < n
    ensures var s, before := Slot(id2kin, v.slave), Counts(id2kin, vs, n);
            Counts(id2kin, vs + [v], n) == before[s := before[s] + |Requests(v)|]
    ensures var s, before := Slot(id2kin, v.slave), Lists(id2kin, vs, n);
            Lists(id2kin, vs + [v], n) == before[s := before[s] + Requests(v)]
  {
    assert (vs + [v])[..|vs|] == vs;
    var s, c, l := Slot(id2kin, v.slave), Counts(id2kin, vs, n), Lists(id2kin, vs, n);
    forall t: nat | t < n
      ensures Lists(id2kin, vs + [v], n)[t] == l[s := l[s] + Requests(v)][t]
      ensures Counts(id2kin, vs + [v], n)[t] == c[s := c[s] + |Requests(v)|][t]
    {
      assert RequestsTo(id2kin, vs + [v], t) == RequestsTo(id2kin, vs, t) + if s == t then Requests(v) else [];
    }
  }

  function AnswersTo(answer: Answers, c: int, rs: seq<Request>): seq<seq<real>> {
    seq(|rs|, i requires 0 <= i < |rs| => answer(c, rs[i]))
  }

  lemma AnswersWithin(answer: Answers, c: int, before: seq<Request>, rs: seq<Request>, all: seq<Request>)
    requires before + rs <= all
    ensures AnswersTo(answer, c, all)[|before|..|before| + |rs|] == AnswersTo(answer, c, rs)
  {
    forall i | 0 <= i < |rs| ensures all[|before| + i] == rs[i] {
      assert (before + rs)[|before| + i] == rs[i];
    }
  }

  /** The next answers waiting in v's list are those to v's own requests. */
  lemma NextAnswers(id2kin: map<int, nat>, vs: seq<Visit>, v: Visit, all: seq<Visit>, answer: Answers)
    requires vs + [v] <= all
    ensures var s := Slot(id2kin, v.slave);
            var waiting, ofs := AnswersTo(answer, v.slave, RequestsTo(id2kin, all, s)), |RequestsTo(id2kin, vs, s)|;
            && ofs + |Requests(v)| <= |waiting|
            && waiting[ofs..ofs + |Requests(v)|] == AnswersTo(answer, v.slave, Requests(v))
  {
    var s := Slot(id2kin, v.slave);
    assert (vs + [v])[..|vs|] == vs;
    RequestsPrefix(id2kin, vs + [v], all, s);
    AnswersWithin(answer, v.slave, RequestsTo(id2kin, vs, s), Requests(v), RequestsTo(id2kin, all, s));
  }

  // ---- What the matrix holds ------------------------------------------------------------------------

  type Matrix = map<(int, int), Element>

  /** m after every visit wrote what it wanted. */
  function Filed(answer: Answers, m: Matrix, vs: seq<Visit>): Matrix {
    if vs == [] then m
    else
      var v := vs[|vs| - 1];
      Filed(answer, m, vs[..|vs| - 1])[Key(v) := Wanted(answer, v)]
  }

  lemma {:induction false} FiledAppend(answer: Answers, m: Matrix, vs: seq<Visit>, ws: seq<Visit>)
    ensures Filed(answer, m, vs + ws) == Filed(answer, Filed(answer, m, vs), ws)
  {
    if ws == [] {
      assert vs + ws == vs;
    } else {
      FiledAppend(answer, m, vs, ws[..|ws| - 1]);
      assert (vs + ws)[..|vs + ws| - 1] == vs + ws[..|ws| - 1];
    }
  }

  predicate Kept(m: Matrix, m': Matrix, key: (int, int)) {
    if key in m then key in m' && m'[key] == m[key] else key !in m'
  }

  predicate Holds(m: Matrix, key: (int, int), el: Element) {
    key in m && m[key] == el
  }

  /** The last of the first n attachments to the FMU of attachment k. */
  function LastHold(eq: Equation, k: nat, n: nat): (r: nat)
    requires k < n <= |eq.held|
    ensures k <= r < n && eq.held[r].slave == eq.held[k].slave
    ensures forall j | r < j < n :: eq.held[j].slave != eq.held[k].slave
  {
    if n == k + 1 || eq.held[n - 1].slave == eq.held[k].slave then n - 1 else LastHold(eq, k, n - 1)
  }

  lemma {:induction false} FiledConnector(sys: System, answer: Answers, m: Matrix, e: nat, k: nat, n: nat, f: nat,
                                          j: nat, x: nat)
    requires InRange(sys, f, j, x) && e < |sys.eqs| && k < |sys.eqs[e].held| && Attached(sys, sys.eqs[e].held[k])
    requires n <= Connectors(sys, e, k)
    ensures var key, m' := Key(VisitAt(sys, f, j, x)), Filed(answer, m, ConnectorVisits(sys, e, k, n));
            if f == e && sys.eqs[f].held[j].slave == sys.eqs[e].held[k].slave && x < n
            then Holds(m', key, Wanted(answer, VisitAt(sys, e, k, x))) else Kept(m, m', key)
  {
    if n > 0 {
      FiledConnector(sys, answer, m, e, k, n - 1, f, j, x);
      var vs := ConnectorVisits(sys, e, k, n);
      assert vs[..|vs| - 1] == ConnectorVisits(sys, e, k, n - 1);
      SameRow(sys.slaves, sys.eqs[f].held[j].slave, x, sys.eqs[e].held[k].slave, n - 1);
    }
  }

  lemma {:induction false} FiledEquation(sys: System, answer: Answers, m: Matrix, e: nat, n: nat, f: nat, j: nat,
                                         x: nat)
    requires Formed(sys) && InRange(sys, f, j, x) && e < |sys.eqs| && n <= |sys.eqs[e].held|
    ensures var key, m' := Key(VisitAt(sys, f, j, x)), Filed(answer, m, EquationVisits(sys, e, n));
            && (f == e && j < n ==> Holds(m', key, Wanted(answer, VisitAt(sys, e, LastHold(sys.eqs[e], j, n), x))))
            && (f != e ==> Kept(m, m', key))
  {
    if n > 0 {
      var vs, ws := EquationVisits(sys, e, n - 1), ConnectorVisits(sys, e, n - 1, Connectors(sys, e, n - 1));
      FiledEquation(sys, answer, m, e, n - 1, f, j, x);
      FiledAppend(answer, m, vs, ws);
      FiledConnector(sys, answer, Filed(answer, m, vs), e, n - 1, Connectors(sys, e, n - 1), f, j, x);
      if f == e && j < n && sys.eqs[e].held[n - 1].slave == sys.eqs[e].held[j].slave {
        assert LastHold(sys.eqs[e], j, n) == n - 1;
      }
    }
  }

  /** After all visits, an entry answers the request made for its FMU's last attachment in that equation. */
  lemma {:induction false} FiledAll(sys: System, answer: Answers, m: Matrix, n: nat, f: nat, j: nat, x: nat)
    requires Formed(sys) && InRange(sys, f, j, x) && n <= |sys.eqs|
    ensures var key, m' := Key(VisitAt(sys, f, j, x)), Filed(answer, m, Visits(sys, n));
            if f < n then Holds(m', key, Wanted(answer, VisitAt(sys, f, LastHold(sys.eqs[f], j, |sys.eqs[f].held|), x)))
            else Kept(m, m', key)
  {
    if n > 0 {
      var vs, ws := Visits(sys, n - 1), EquationVisits(sys, n - 1, |sys.eqs[n - 1].held|);
      FiledAll(sys, answer, m, n - 1, f, j, x);
      FiledAppend(answer, m, vs, ws);
      FiledEquation(sys, answer, Filed(answer, m, vs), n - 1, |sys.eqs[n - 1].held|, f, j, x);
    }
  }

  /** Every equation holds each FMU at most once. */
  predicate OnDistinctFmus(sys: System) {
    forall e, j, k | 0 <= e < |sys.eqs|
        && 0 <= j < k < |sys.eqs[e].held| :: sys.eqs[e].held[j].slave != sys.eqs[e].held[k].slave
  }

  /** Each derivative is in the entry it was requested for, if no equation holds an FMU twice. */
  lemma EachInItsPlace(sys: System, answer: Answers, m: Matrix, e: nat, k: nat, x: nat)
    requires Formed(sys) && OnDistinctFmus(sys) && InRange(sys, e, k, x)
    ensures Holds(Filed(answer, m, Visits(sys, |sys.eqs|)), Key(VisitAt(sys, e, k, x)),
            Wanted(answer, VisitAt(sys, e, k, x)))
  {
    FiledAll(sys, answer, m, |sys.eqs|, e, k, x);
  }

  // ---- An FMU held twice ----------------------------------------------------------------------------

  /** One answer per output asked for. */
  ghost predicate Complete(answer: Answers) {
    forall c: int, q :: |answer(c, q)| == |q.z|
  }

  /** Ones for one request, zeros for all others. */
  function Singling(only: Request): Answers {
    (c, q) => if q == only then seq(|q.z|, _ => 1.0) else seq(|q.z|, _ => 0.0)
  }

  lemma SinglingTells(only: Request, other: Request, c: int)
    requires |only.z| in {1, 3} && other != only
    ensures Complete(Singling(only)) && ToVec(Singling(only)(c, only)) != ToVec(Singling(only)(c, other))
  {
    assert Singling(only)(c, only)[0] == 1.0;
    var dz := Singling(only)(c, other);
    assert |dz| > 0 ==> dz[0] == 0.0;
  }

  /** Visits that make different requests can be told apart by some answers. */
  lemma RequestsTell(v: Visit, w: Visit) returns (answer: Answers)
    requires Allowed(v) && v.slave == w.slave && v.spatial == w.spatial && v.rotational == w.rotational
    requires Requests(v) != Requests(w)
    ensures Complete(answer) && Wanted(answer, v) != Wanted(answer, w)
  {
    if v.spatial && Spatial(v) != Spatial(w) {
      SinglingTells(Spatial(v), Spatial(w), v.slave);
      answer := Singling(Spatial(v));
    } else {
      assert v.rotational && Rotational(v) != Rotational(w);
      SinglingTells(Rotational(v), Rotational(w), v.slave);
      answer := Singling(Rotational(v));
    }
  }

  lemma SameRequestsSameElement(answer: Answers, v: Visit, w: Visit)
    requires v.slave == w.slave && v.spatial == w.spatial && v.rotational == w.rotational && Requests(v) == Requests(w)
    ensures Wanted(answer, v) == Wanted(answer, w)
  {
    assert v.spatial ==> Requests(v)[0] == Spatial(v) && Requests(w)[0] == Spatial(w);
    var i := if v.spatial then 1 else 0;
    assert v.rotational ==> Requests(v)[i] == Rotational(v) && Requests(w)[i] == Rotational(w);
  }

  /** The last attachment of the same FMU in the same equation, seen at the same connector. */
  function LastVisit(sys: System, e: nat, k: nat, x: nat): Visit
    requires Formed(sys) && InRange(sys, e, k, x)
  {
    VisitAt(sys, e, LastHold(sys.eqs[e], k, |sys.eqs[e].held|), x)
  }

  /** An entry is right for all answers exactly if the FMU's last attachment asks for the same. */
  lemma PlacedIff(sys: System, m: Matrix, e: nat, k: nat, x: nat)
    requires Formed(sys) && InRange(sys, e, k, x) && Allowed(VisitAt(sys, e, k, x))
    ensures var v := VisitAt(sys, e, k, x);
            (forall answer | Complete(answer) ::
                Holds(Filed(answer, m, Visits(sys, |sys.eqs|)), Key(v), Wanted(answer, v)))
            <==> Requests(v) == Requests(LastVisit(sys, e, k, x))
  {
    var v, w := VisitAt(sys, e, k, x), LastVisit(sys, e, k, x);
    forall answer ensures Holds(Filed(answer, m, Visits(sys, |sys.eqs|)), Key(v), Wanted(answer, w)) {
      FiledAll(sys, answer, m, |sys.eqs|, e, k, x);
    }
    if Requests(v) == Requests(w) {
      forall answer ensures Wanted(answer, v) == Wanted(answer, w) { SameRequestsSameElement(answer, v, w); }
    } else {
      var answer := RequestsTell(v, w);
      assert Complete(answer) && !Holds(Filed(answer, m, Visits(sys, |sys.eqs|)), Key(v), Wanted(answer, v));
    }
  }

  const HINGE := Connector(false, Three(1, 2, 3), Three(4, 5, 6), NoRefs, NoRefs)

  const BAR := Connector(false, Three(11, 12, 13), Three(14, 15, 16), NoRefs, NoRefs)

  /** One equation that holds both connectors of one FMU, with opposite Jacobian elements. */
  const SHARED := System([[HINGE, BAR]],
                         [Equation(true, false, [Attachment(0, 0, Element(Vec3(1.0, 0.0, 0.0), ZERO)),
                                                 Attachment(0, 1, Element(Vec3(-1.0, 0.0, 0.0), ZERO))])])

  /** The entry of its first attachment is overwritten by the answers for the second. */
  lemma SharedMisplaced(m: Matrix) returns (answer: Answers)
    ensures Formed(SHARED) && InRange(SHARED, 0, 0, 0) && Allowed(VisitAt(SHARED, 0, 0, 0)) && !OnDistinctFmus(SHARED)
    ensures Complete(answer)
    ensures var v := VisitAt(SHARED, 0, 0, 0);
            !Holds(Filed(answer, m, Visits(SHARED, 1)), Key(v), Wanted(answer, v))
  {
    assert SHARED.eqs[0].held[0].slave == SHARED.eqs[0].held[1].slave;
    var v, w := VisitAt(SHARED, 0, 0, 0), VisitAt(SHARED, 0, 1, 0);
    assert LastHold(SHARED.eqs[0], 0, 2) == 1;
    assert Spatial(v).dv[0] == 1.0 && Spatial(w).dv[0] == -1.0;
    assert Requests(v)[0] == Spatial(v) && Requests(w)[0] == Spatial(w);
    answer := RequestsTell(v, w);
    FiledAll(SHARED, answer, m, 1, 0, 0, 0);
  }

  // ---- The two passes -------------------------------------------------------------------------------

  predicate AllAllowed(vs: seq<Visit>) {
    forall i | 0 <= i < |vs| :: Allowed(vs[i])
  }

  lemma AllowedAppend(vs: seq<Visit>, ws: seq<Visit>)
    ensures AllAllowed(vs + ws) <==> AllAllowed(vs) && AllAllowed(ws)
  {
    if AllAllowed(vs + ws) {
      forall i | 0 <= i < |vs| ensures Allowed(vs[i]) { assert (vs + ws)[i] == vs[i]; }
      forall i | 0 <= i < |ws| ensures Allowed(ws[i]) { assert (vs + ws)[|vs| + i] == ws[i]; }
    }
  }

  lemma AllowedPrefix(vs: seq<Visit>, all: seq<Visit>)
    requires vs <= all && AllAllowed(all)
    ensures AllAllowed(vs)
  {
    assert forall i | 0 <= i < |vs| :: all[i] == vs[i];
  }

  /** What is allowed for a whole equation is allowed for its first k attachments. */
  lemma AllowedEarlier(sys: System, e: nat, k: nat)
    requires Formed(sys) && e < |sys.eqs| && k <= |sys.eqs[e].held|
    ensures AllAllowed(EquationVisits(sys, e, |sys.eqs[e].held|)) ==> AllAllowed(EquationVisits(sys, e, k))
  {
    var all := EquationVisits(sys, e, |sys.eqs[e].held|);
    EquationPrefix(sys, e, k, |sys.eqs[e].held|);
    if AllAllowed(all) { AllowedPrefix(EquationVisits(sys, e, k), all); }
  }

  lemma AskedNext(sys: System, e: nat, k: nat, seen: seq<Visit>)
    requires Formed(sys) && e < |sys.eqs| && k < |sys.eqs[e].held|
    ensures var vs := ConnectorVisits(sys, e, k, Connectors(sys, e, k));
            && (AllAllowed(EquationVisits(sys, e, k + 1)) <==> AllAllowed(EquationVisits(sys, e, k)) && AllAllowed(vs))
            && seen + EquationVisits(sys, e, k) + vs == seen + EquationVisits(sys, e, k + 1)
  {
    AllowedAppend(EquationVisits(sys, e, k), ConnectorVisits(sys, e, k, Connectors(sys, e, k)));
  }

  /** The first n attachments of the equation are to open FMUs. */
  predicate HeldOpen(eq: Equation, opens: set<int>, n: nat)
    requires n <= |eq.held|
  {
    n == 0 || (HeldOpen(eq, opens, n - 1) && eq.held[n - 1].slave in opens)
  }

  lemma {:induction false} HeldOpenEarlier(eq: Equation, opens: set<int>, m: nat, n: nat)
    requires m <= n <= |eq.held|
    ensures HeldOpen(eq, opens, n) ==> HeldOpen(eq, opens, m)
  {
    if m < n { HeldOpenEarlier(eq, opens, m, n - 1); }
  }

  /** Every attachment of the first n equations is to an open FMU. */
  predicate AllHeldOpen(sys: System, opens: set<int>, n: nat)
    requires n <= |sys.eqs|
  {
    n == 0 || (AllHeldOpen(sys, opens, n - 1) && HeldOpen(sys.eqs[n - 1], opens, |sys.eqs[n - 1].held|))
  }

  lemma {:induction false} AllHeldOpenEarlier(sys: System, opens: set<int>, m: nat, n: nat)
    requires m <= n <= |sys.eqs| && AllHeldOpen(sys, opens, n)
    ensures AllHeldOpen(sys, opens, m)
  {
    if m < n { AllHeldOpenEarlier(sys, opens, m, n - 1); }
  }

  class Kinematics {
    const sys: System
    const opens: set<int>
    const id2kin: map<int, nat>
    var kin: seq<seq<Request>>
    var kinOfs: seq<nat>
    var mobilities: Matrix

    /** Every open FMU has a slot. */
    ghost predicate Indexed() {
      && Formed(sys) && |opens| > 0
      && (forall c | c in opens :: c in id2kin)
      && forall c | c in id2kin :: id2kin[c] < |opens|
    }

    /** The open FMUs get slots in the order in which the set is iterated. */
    constructor (sys: System, opens: set<int>, m: Matrix)
      requires Formed(sys) && |opens| > 0
      ensures Indexed() && this.sys == sys && this.opens == opens && mobilities == m
      ensures kin == Lists(id2kin, [], |opens|) && kinOfs == Counts(id2kin, [], |opens|)
      ensures forall c, d | c in opens && d in opens :: id2kin[c] == id2kin[d] ==> c == d
    {
      var ids: map<int, nat>, i := map[], 0;
      var left := opens;
      while left != {}
        invariant left <= opens && i + |left| == |opens|
        invariant forall c | c in opens :: c in left || c in ids
        invariant forall c | c in ids :: c in opens && c !in left && ids[c] < i
        invariant forall c, d | c in ids && d in ids :: ids[c] == ids[d] ==> c == d
        decreases left
      {
        ghost var some := PickOne(left);
        var id :| id in left;
        ids, i, left := ids[id := i], i + 1, left - {id};
      }
      this.sys, this.opens, id2kin := sys, opens, ids;
      kin, kinOfs := seq(|opens|, _ => []), seq(|opens|, _ => 0);
      mobilities := m;
    }

    /** The body of the innermost request loop. */
    method AskOne(v: Visit, ghost seen: seq<Visit>) returns (ok: bool)
      requires Indexed() && kin == Lists(id2kin, seen, |opens|)
      modifies this`kin
      ensures ok <==> Allowed(v)
      ensures ok ==> kin == Lists(id2kin, seen + [v], |opens|)
    {
      if v.ac.shaft != v.fc.shaft { return false; }
      var s := Slot(id2kin, v.slave);
      var mine := kin[s];
      if v.spatial {
        if v.ac.acc.NoRefs? || v.fc.force.NoRefs? || |v.fc.force.List()| < |v.ac.acc.List()| { return false; }
        mine := mine + [Ask(v.ac.acc, v.fc.force, v.jacobian.spatial)];
      }
      if v.rotational {
        if v.ac.angAcc.NoRefs? || v.fc.torque.NoRefs? || |v.fc.torque.List()| < |v.ac.angAcc.List()| { return false; }
        mine := mine + [Ask(v.ac.angAcc, v.fc.torque, v.jacobian.rotational)];
      }
      CountsNext(id2kin, seen, v, |opens|);
      assert mine == kin[s] + Requests(v);
      kin := kin[s := mine];
      return true;
    }

    method AskConnector(e: nat, k: nat, ghost seen: seq<Visit>) returns (ok: bool)
      requires Indexed() && kin == Lists(id2kin, seen, |opens|) && e < |sys.eqs| && k < |sys.eqs[e].held|
      modifies this`kin
      ensures ok <==> AllAllowed(ConnectorVisits(sys, e, k, Connectors(sys, e, k)))
      ensures ok ==> kin == Lists(id2kin, seen + ConnectorVisits(sys, e, k, Connectors(sys, e, k)), |opens|)
    {
      var x, n := 0, Connectors(sys, e, k);
      ghost var now := seen;
      while x < n
        invariant 0 <= x <= n && AllAllowed(ConnectorVisits(sys, e, k, x))
        invariant now == seen + ConnectorVisits(sys, e, k, x) && kin == Lists(id2kin, now, |opens|)
      {
        ghost var v := VisitAt(sys, e, k, x);
        AllowedAppend(ConnectorVisits(sys, e, k, x), [v]);
        ok := AskOne(VisitAt(sys, e, k, x), now);
        if !ok {
          assert !Allowed([v][0]);
          ConnectorPrefix(sys, e, k, x + 1, n);
          if AllAllowed(ConnectorVisits(sys, e, k, n)) {
            AllowedPrefix(ConnectorVisits(sys, e, k, x + 1), ConnectorVisits(sys, e, k, n));
          }
          return;
        }
        now := now + [v];
        x := x + 1;
      }
      return true;
    }

    method AskEquation(e: nat, ghost seen: seq<Visit>) returns (ok: bool)
      requires Indexed() && kin == Lists(id2kin, seen, |opens|) && e < |sys.eqs|
      modifies this`kin
      ensures ok <==> AllAllowed(EquationVisits(sys, e, |sys.eqs[e].held|))
      ensures ok ==> kin == Lists(id2kin, seen + EquationVisits(sys, e, |sys.eqs[e].held|), |opens|)
    {
      var k, n := 0, |sys.eqs[e].held|;
      ghost var now := seen;
      while k < n
        invariant 0 <= k <= n && AllAllowed(EquationVisits(sys, e, k))
        invariant now == seen + EquationVisits(sys, e, k) && kin == Lists(id2kin, now, |opens|)
      {
        ghost var vs := ConnectorVisits(sys, e, k, Connectors(sys, e, k));
        AskedNext(sys, e, k, seen);
        ok := AskConnector(e, k, now);
        if !ok {
          AllowedEarlier(sys, e, k + 1);
          return;
        }
        now := now + vs;
        k := k + 1;
      }
      return true;
    }

    /** Step 0: every request is put in its FMU's list. */
    method AskAll() returns (ok: bool)
      requires Indexed() && kin == Lists(id2kin, [], |opens|)
      modifies this`kin
      ensures ok <==> AllAllowed(Visits(sys, |sys.eqs|))
      ensures ok ==> kin == Lists(id2kin, Visits(sys, |sys.eqs|), |opens|)
    {
      var e, n := 0, |sys.eqs|;
      while e < n
        invariant 0 <= e <= n && AllAllowed(Visits(sys, e))
        invariant kin == Lists(id2kin, Visits(sys, e), |opens|)
      {
        AllowedAppend(Visits(sys, e), EquationVisits(sys, e, |sys.eqs[e].held|));
        ok := AskEquation(e, Visits(sys, e));
        if !ok {
          VisitsPrefix(sys, e + 1, n);
          if AllAllowed(Visits(sys, n)) { AllowedPrefix(Visits(sys, e + 1), Visits(sys, n)); }
          return;
        }
        e := e + 1;
      }
      return true;
    }

    /** The next answer of FMU c. */
    method Take(c: nat, last: map<int, seq<seq<real>>>) returns (dz: seq<real>)
      requires Indexed() && c in id2kin && c in last && |kinOfs| == |opens| && kinOfs[id2kin[c]] < |last[c]|
      modifies this`kinOfs
      ensures dz == last[c][old(kinOfs[id2kin[c]])]
      ensures kinOfs == old(kinOfs)[id2kin[c] := old(kinOfs[id2kin[c]]) + 1]
    {
      dz := last[c][kinOfs[id2kin[c]]];
      kinOfs := kinOfs[id2kin[c] := kinOfs[id2kin[c]] + 1];
    }

    /** The answers to one visit's requests, as a matrix entry. */
    method TakeElement(v: Visit, last: map<int, seq<seq<real>>>, ghost answer: Answers) returns (el: Element)
      requires Indexed() && Allowed(v) && |kinOfs| == |opens| && v.slave in id2kin && v.slave in last
      requires forall q :: |answer(v.slave, q)| == |q.z|
      requires var ofs := kinOfs[id2kin[v.slave]];
               && ofs + |Requests(v)| <= |last[v.slave]|
               && last[v.slave][ofs..ofs + |Requests(v)|] == AnswersTo(answer, v.slave, Requests(v))
      modifies this`kinOfs
      ensures el == Wanted(answer, v)
      ensures var s := id2kin[v.slave]; kinOfs == old(kinOfs)[s := old(kinOfs[s]) + |Requests(v)|]
    {
      ghost var rs, ofs := Requests(v), kinOfs[id2kin[v.slave]];
      ghost var mine := last[v.slave][ofs..ofs + |rs|];
      el := Element(ZERO, ZERO);
      if v.spatial {
        assert last[v.slave][ofs] == mine[0] == answer(v.slave, rs[0]);
        var dz := Take(v.slave, last);
        el := el.(spatial := if |v.ac.acc.List()| == 1 then Vec3(dz[0], 0.0, 0.0) else Vec3(dz[0], dz[1], dz[2]));
      }
      if v.rotational {
        ghost var i := if v.spatial then 1 else 0;
        assert last[v.slave][ofs + i] == mine[i] == answer(v.slave, rs[i]);
        var dz := Take(v.slave, last);
        el := el.(rotational := if |v.ac.angAcc.List()| == 1 then Vec3(dz[0], 0.0, 0.0) else Vec3(dz[0], dz[1], dz[2]));
      }
    }

    /** last_kinematic: every FMU of the step answered its requests one by one, in order. */
    ghost predicate Answered(last: map<int, seq<seq<real>>>, answer: Answers, all: seq<Visit>) {
      && Indexed() && AllAllowed(all)
      && Complete(answer)
      && (forall c {:trigger c in last} | c in opens :: c in last)
      && forall c {:trigger last[c]} | c in opens ::
           last[c] == AnswersTo(answer, c, RequestsTo(id2kin, all, id2kin[c]))
    }

    /** kinOfs counts the answers already taken from each FMU's list, and those are filed. */
    ghost predicate Filing(answer: Answers, start: Matrix, filed: seq<Visit>)
      reads this`kinOfs, this`mobilities
    {
      kinOfs == Counts(id2kin, filed, |opens|) && mobilities == Filed(answer, start, filed)
    }

    /** The body of the innermost filing loop. */
    method FileOne(v: Visit, last: map<int, seq<seq<real>>>, ghost answer: Answers, ghost start: Matrix,
        ghost filed: seq<Visit>, ghost all: seq<Visit>)
      requires Answered(last, answer, all) && Filing(answer, start, filed) && filed + [v] <= all && v.slave in opens
      modifies this`kinOfs, this`mobilities
      ensures Filing(answer, start, filed + [v])
    {
      NextAnswers(id2kin, filed, v, all, answer);
      assert v.slave in last;
      assert last[v.slave] == AnswersTo(answer, v.slave, RequestsTo(id2kin, all, id2kin[v.slave]));
      CountsNext(id2kin, filed, v, |opens|);
      assert Allowed(v) by { assert all[|filed|] == v; }
      var el := TakeElement(v, last, answer);
      mobilities := mobilities[Key(v) := el];
      assert (filed + [v])[..|filed|] == filed;
    }

    method FileConnector(e: nat, k: nat, last: map<int, seq<seq<real>>>, ghost answer: Answers, ghost start: Matrix,
        ghost filed: seq<Visit>, ghost all: seq<Visit>)
      requires Answered(last, answer, all) && Filing(answer, start, filed) && e < |sys.eqs| && k < |sys.eqs[e].held|
      requires filed + ConnectorVisits(sys, e, k, Connectors(sys, e, k)) <= all && sys.eqs[e].held[k].slave in opens
      modifies this`kinOfs, this`mobilities
      ensures Filing(answer, start, filed + ConnectorVisits(sys, e, k, Connectors(sys, e, k)))
    {
      var x, n := 0, Connectors(sys, e, k);
      ghost var now := filed;
      while x < n
        invariant 0 <= x <= n && now == filed + ConnectorVisits(sys, e, k, x)
        invariant Filing(answer, start, now)
      {
        NextVisit(sys, e, k, x, filed, all);
        FileOne(VisitAt(sys, e, k, x), last, answer, start, now, all);
        now := now + [VisitAt(sys, e, k, x)];
        x := x + 1;
      }
    }

    /** The body of the loop over an equation's attachments. */
    method FileAttachment(e: nat, k: nat, last: map<int, seq<seq<real>>>, ghost answer: Answers, ghost start: Matrix,
        ghost filed: seq<Visit>, ghost all: seq<Visit>)
      returns (ok: bool)
      requires Answered(last, answer, all) && e < |sys.eqs| && k < |sys.eqs[e].held|
      requires filed + EquationVisits(sys, e, |sys.eqs[e].held|) <= all
               && Filing(answer, start, filed + EquationVisits(sys, e, k))
      modifies this`kinOfs, this`mobilities
      ensures ok <==> sys.eqs[e].held[k].slave in opens
      ensures ok ==> Filing(answer, start, filed + EquationVisits(sys, e, k + 1))
    {
      if sys.eqs[e].held[k].slave !in opens { return false; }
      NextConnector(sys, e, k, filed, all);
      FileConnector(e, k, last, answer, start, filed + EquationVisits(sys, e, k), all);
      return true;
    }

    method FileEquation(e: nat, last: map<int, seq<seq<real>>>, ghost answer: Answers, ghost start: Matrix,
        ghost filed: seq<Visit>, ghost all: seq<Visit>)
      returns (ok: bool)
      requires Answered(last, answer, all) && Filing(answer, start, filed) && e < |sys.eqs|
      requires filed + EquationVisits(sys, e, |sys.eqs[e].held|) <= all
      modifies this`kinOfs, this`mobilities
      ensures ok <==> HeldOpen(sys.eqs[e], opens, |sys.eqs[e].held|)
      ensures ok ==> Filing(answer, start, filed + EquationVisits(sys, e, |sys.eqs[e].held|))
    {
      var k, n := 0, |sys.eqs[e].held|;
      assert filed + EquationVisits(sys, e, 0) == filed;
      ghost var now := filed;
      while k < n
        invariant 0 <= k <= n && HeldOpen(sys.eqs[e], opens, k) && now == filed + EquationVisits(sys, e, k)
        invariant Filing(answer, start, now)
      {
        ok := FileAttachment(e, k, last, answer, start, filed, all);
        if !ok {
          HeldOpenEarlier(sys.eqs[e], opens, k + 1, n);
          return;
        }
        now := filed + EquationVisits(sys, e, k + 1);
        k := k + 1;
      }
      return true;
    }

    /**
     * Step 1: every answer is filed, and the offsets end at the number of requests. Stops
     * exactly if an equation holds an FMU outside the open set.
     */
    method FileAll(last: map<int, seq<seq<real>>>, ghost answer: Answers)
      returns (ok: bool)
      requires Indexed() && Answered(last, answer, Visits(sys, |sys.eqs|))
      requires kin == Lists(id2kin, Visits(sys, |sys.eqs|), |opens|) && kinOfs == Counts(id2kin, [], |opens|)
      modifies this`kinOfs, this`mobilities
      ensures ok <==> AllHeldOpen(sys, opens, |sys.eqs|)
      ensures ok ==> |kinOfs| == |kin| && forall s | 0 <= s < |kin| :: kinOfs[s] == |kin[s]|
      ensures ok ==> mobilities == Filed(answer, old(mobilities), Visits(sys, |sys.eqs|))
    {
      ghost var start := mobilities;
      var e, n := 0, |sys.eqs|;
      while e < n
        invariant 0 <= e <= n && Filing(answer, start, Visits(sys, e))
        invariant AllHeldOpen(sys, opens, e)
      {
        VisitsPrefix(sys, e + 1, n);
        ok := FileEquation(e, last, answer, start, Visits(sys, e), Visits(sys, n));
        if !ok {
          if AllHeldOpen(sys, opens, n) { AllHeldOpenEarlier(sys, opens, e + 1, n); }
          return;
        }
        e := e + 1;
      }
      return true;
    }

    /**
     * Both passes around one round of answers. If it does not stop, every entry holds the
     * answers to the requests made for it, and every answer was used.
     */
    method Derivatives(answer: Answers) returns (ok: bool)
      requires Indexed() && kin == Lists(id2kin, [], |opens|) && kinOfs == Counts(id2kin, [], |opens|)
      requires Complete(answer)
      modifies this
      ensures ok <==> AllAllowed(Visits(sys, |sys.eqs|)) && AllHeldOpen(sys, opens, |sys.eqs|)
      ensures ok ==> |kinOfs| == |kin| && forall s | 0 <= s < |kin| :: kinOfs[s] == |kin[s]|
      ensures ok && OnDistinctFmus(sys) ==> forall e, k, x | InRange(sys, e, k, x) ::
                Holds(mobilities, Key(VisitAt(sys, e, k, x)), Wanted(answer, VisitAt(sys, e, k, x)))
    {
      ok := AskAll();
      if !ok { return; }
      var lists := kin;
      var last := map c | c in opens :: AnswersTo(answer, c, lists[id2kin[c]]);
      ghost var start := mobilities;
      ok := FileAll(last, answer);
      if ok && OnDistinctFmus(sys) {
        forall e, k, x | InRange(sys, e, k, x)
          ensures Holds(mobilities, Key(VisitAt(sys, e, k, x)), Wanted(answer, VisitAt(sys, e, k, x)))
        {
          EachInItsPlace(sys, answer, start, e, k, x);
        }
      }
    }
  }
}
