/** What lasts of a kinematic request, in terms of the network's simulators. */
module Lasting {
  import opened Wiring
  import opened FmuTemplate
  import opened Rollback
  import opened Simulators
  import Linear

  /** What can be observed of an instance. */
  datatype Seen<D, X> = Seen(s: Saved<D>, x: X)

  function Observed<D, X>(i: Inst<D, X>): Seen<D, X> {
    Seen(i.s, i.x)
  }

  /** An instance as a simulator over its observable state; a failed call leaves what the template leaves. */
  function AsSimulator<D, X>(m: Model<D, X>, getInt: (Seen<D, X>, int) -> int, getBool: (Seen<D, X>, int) -> bool,
                             getString: (Seen<D, X>, int) -> string): Simulator<Seen<D, X>> {
    Simulator((o: Seen<D, X>, vr) => var r := m.getReal(o.s.md, vr); if r.Some? then r.value else 0.0,
              getInt, getBool, getString,
              (o: Seen<D, X>, v, x) => Observed(SetX(m, Inst(o.s, o.x, o.x), [Assign(v, x)]).inst),
              (o: Seen<D, X>, t, dt) => Observed(Step(m, Inst(o.s, o.x, o.x), t, dt).inst))
  }

  lemma SetXOne<D, X>(m: Model<D, X>, i: Inst<D, X>, a: Assign)
    requires i.s.state in MASK_SET
    ensures SetX(m, i, [a]).inst.x == i.x
    ensures SetX(m, i, [a]).inst.s == i.s.(md := var p := m.put(i.s.md, a); if p.Some? then p.value else i.s.md)
  {
    assert SetFirst(m, i.s.md, [a], 0) == (i.s.md, true);
    assert SetFirst(m, i.s.md, [a], 1) == match m.put(i.s.md, a) case None => (i.s.md, false) case Some(d) => (d, true);
  }

  /** A set call that succeeds is the assignments one by one. */
  lemma {:induction false} SetXIsSetAll<D, X>(m: Model<D, X>, sim: Simulator<Seen<D, X>>, i: Inst<D, X>,
                                              a: seq<Assign>, n: nat)
    requires sim == AsSimulator(m, sim.getInt, sim.getBool, sim.getString) && i.s.state in MASK_SET
    requires n <= |a| && SetFirst(m, i.s.md, a, n).1
    ensures SetAll(sim, Observed(i), a[..n]) == Seen(i.s.(md := SetFirst(m, i.s.md, a, n).0), i.x)
  {
    if n > 0 {
      SetXIsSetAll(m, sim, i, a, n - 1);
      assert a[..n][..n - 1] == a[..n - 1];
      var before := Seen(i.s.(md := SetFirst(m, i.s.md, a, n - 1).0), i.x);
      SetXOne(m, Inst(before.s, before.x, before.x), a[n - 1]);
      assert SetAll(sim, Observed(i), a[..n]) == sim.set1(before, a[n - 1].to, a[n - 1].val);
      assert Assign(a[n - 1].to, a[n - 1].val) == a[n - 1];
    } else {
      assert a[..0] == [];
    }
  }

  lemma SetIfAnyIsSetAll<D, X>(m: Model<D, X>, sim: Simulator<Seen<D, X>>, i: Inst<D, X>, a: seq<Assign>)
    requires sim == AsSimulator(m, sim.getInt, sim.getBool, sim.getString) && i.s.state in MASK_SET
             && SetIfAny(m, i, a).ok
    ensures Observed(SetIfAny(m, i, a).inst) == SetAll(sim, Observed(i), a)
            && SetIfAny(m, i, a).inst.s.state == i.s.state
  {
    if a != [] {
      SetXIsSetAll(m, sim, i, a, |a|);
      assert a[..|a|] == a;
    }
  }

  /** Once the inputs of a request are set, the instance is where the network's assignments take it. */
  lemma InputsAreSetAll<D, X>(m: Model<D, X>, sim: Simulator<Seen<D, X>>, i: Inst<D, X>, r: Kinematic)
    requires sim == AsSimulator(m, sim.getInt, sim.getBool, sim.getString) && i.s.state in MASK_SET
             && InputsSet(m, i, r).ok
    ensures Observed(InputsSet(m, i, r).inst) == SetAll(sim, Observed(i), r.reals + r.ints + r.bools + r.strings)
  {
    var o := Observed(i);
    var a := SetIfAny(m, i, r.reals).inst;
    var b := SetIfAny(m, a, r.ints).inst;
    var c := SetIfAny(m, b, r.bools).inst;
    SetIfAnyIsSetAll(m, sim, i, r.reals);
    SetIfAnyIsSetAll(m, sim, a, r.ints);
    SetIfAnyIsSetAll(m, sim, b, r.bools);
    SetIfAnyIsSetAll(m, sim, c, r.strings);
    SetAllConcat(sim, o, r.reals, r.ints);
    SetAllConcat(sim, o, r.reals + r.ints, r.bools);
    SetAllConcat(sim, o, r.reals + r.ints + r.bools, r.strings);
  }

  /** Serving a kinematic request has no other lasting effect on the simulator than its assignments. */
  method ServeAsSimulator<D, X>(server: Server<D, X>, ghost sim: Simulator<Seen<D, X>>, r: Kinematic) returns (ok: bool)
    requires forall k | 0 <= k < |r.derivs| :: |r.derivs[k].v| == |r.derivs[k].dv|
    requires sim == AsSimulator(server.fmu.model, sim.getInt, sim.getBool, sim.getString)
             && server.fmu.state in MASK_SET
    modifies server.fmu
    ensures ok ==> Observed(server.fmu.Now()) == SetAll(sim, old(Observed(server.fmu.Now())), r.reals + r.ints
            + r.bools + r.strings)
  {
    ghost var before := server.fmu.Now();
    var velocities, derivs;
    ok, velocities, derivs := server.Serve(r);
    if ok { InputsAreSetAll(server.fmu.model, sim, before, r); }
  }

  // ---- When such a simulator obeys the law of assignment --------------------------------------------

  /** The model description after real input u is set, or refused. */
  function Put<D, X>(m: Model<D, X>, md: D, u: int, x: real): D {
    var p := m.put(md, Assign(Var(RealB, u), RealV(x)));
    if p.Some? then p.value else md
  }

  /** The setters of real inputs store: different ones do not meddle, and the last value stays. */
  ghost predicate Stores<D(!new), X>(m: Model<D, X>) {
    && (forall md: D, u: int, x: real, v: int, y: real | u != v ::
          Put(m, Put(m, md, u, x), v, y) == Put(m, Put(m, md, v, y), u, x))
    && forall md: D, u: int, x: real, y: real :: Put(m, Put(m, md, u, x), u, y) == Put(m, md, u, y)
  }

  /** One assignment to the simulator. */
  lemma SetsOne<D, X>(m: Model<D, X>, sim: Simulator<Seen<D, X>>, o: Seen<D, X>, u: int, x: real)
    requires sim == AsSimulator(m, sim.getInt, sim.getBool, sim.getString)
    ensures sim.set1(o, Var(RealB, u), RealV(x))
            == if o.s.state in MASK_SET then o.(s := o.s.(md := Put(m, o.s.md, u, x)))
                else o.(s := o.s.(state := Error))
  {
    if o.s.state in MASK_SET { SetXOne(m, Inst(o.s, o.x, o.x), Assign(Var(RealB, u), RealV(x))); }
  }

  lemma SetsTwo<D, X>(m: Model<D, X>, sim: Simulator<Seen<D, X>>, o: Seen<D, X>, u: int, x: real, v: int, y: real)
    requires sim == AsSimulator(m, sim.getInt, sim.getBool, sim.getString)
    ensures sim.set1(sim.set1(o, Var(RealB, u), RealV(x)), Var(RealB, v), RealV(y))
            == if o.s.state in MASK_SET then o.(s := o.s.(md := Put(m, Put(m, o.s.md, u, x), v, y)))
               else o.(s := o.s.(state := Error))
  {
    SetsOne(m, sim, o, u, x);
    SetsOne(m, sim, sim.set1(o, Var(RealB, u), RealV(x)), v, y);
  }

  /** An FMU over the template obeys the law of assignment exactly if its real setters store. */
  lemma LawfulIffStores<D(!new), X(!new)>(m: Model<D, X>, sim: Simulator<Seen<D, X>>, x0: X)
    requires sim == AsSimulator(m, sim.getInt, sim.getBool, sim.getString)
    ensures Lawful(sim) <==> Stores(m)
  {
    if Lawful(sim) { StoresIfLawful(m, sim, x0); }
    if Stores(m) { LawfulIfStores(m, sim); }
  }

  lemma LawfulIfStores<D(!new), X(!new)>(m: Model<D, X>, sim: Simulator<Seen<D, X>>)
    requires sim == AsSimulator(m, sim.getInt, sim.getBool, sim.getString) && Stores(m)
    ensures Lawful(sim)
  {
    forall o: Seen<D, X>, u: int, x: real, v: int, y: real | u != v
      ensures Commutes(sim, o, Var(RealB, u), RealV(x), Var(RealB, v), RealV(y))
    {
      SetsTwo(m, sim, o, u, x, v, y);
      SetsTwo(m, sim, o, v, y, u, x);
    }
    forall o: Seen<D, X>, u: int, x: real, y: real ensures Overwrites(sim, o, Var(RealB, u), RealV(x), RealV(y)) {
      SetsTwo(m, sim, o, u, x, u, y);
      SetsOne(m, sim, o, u, y);
    }
  }

  lemma StoresIfLawful<D(!new), X(!new)>(m: Model<D, X>, sim: Simulator<Seen<D, X>>, x0: X)
    requires sim == AsSimulator(m, sim.getInt, sim.getBool, sim.getString) && Lawful(sim)
    ensures Stores(m)
  {
    forall md: D, u: int, x: real, v: int, y: real | u != v
      ensures Put(m, Put(m, md, u, x), v, y) == Put(m, Put(m, md, v, y), u, x)
    {
      var o := Seen(Saved(Stepping, md, 0.0), x0);
      assert Commutes(sim, o, Var(RealB, u), RealV(x), Var(RealB, v), RealV(y));
      SetsTwo(m, sim, o, u, x, v, y);
      SetsTwo(m, sim, o, v, y, u, x);
    }
    forall md: D, u: int, x: real, y: real ensures Put(m, Put(m, md, u, x), u, y) == Put(m, md, u, y) {
      var o := Seen(Saved(Stepping, md, 0.0), x0);
      assert Overwrites(sim, o, Var(RealB, u), RealV(x), RealV(y));
      SetsTwo(m, sim, o, u, x, u, y);
      SetsOne(m, sim, o, u, y);
    }
  }

  /** The follower, which refuses integers, obeys the law. */
  lemma FollowerLawful(sim: Simulator<Seen<(real, real), ()>>)
    requires sim == AsSimulator(Linear.FOLLOWER, sim.getInt, sim.getBool, sim.getString)
    ensures Lawful(sim)
  {
    LawfulIffStores(Linear.FOLLOWER, sim, ());
  }
}
