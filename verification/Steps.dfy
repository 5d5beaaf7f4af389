/** Many time steps, one after another. */
module Steps {
  import opened IntSets
  import opened Includes
  import opened OrderShapes
  import opened Schedule
  import opened Wiring
  import opened Simulators
  import opened Network
  import opened StrongMaster

  predicate AllSized(log: seq<seq<Batch>>, n: nat) {
    forall i | 0 <= i < |log| :: Sized(log[i], n)
  }

  /** The states after the logged batches of one step after another, step i at times[i]. */
  function RunSteps<S>(models: seq<Simulator<S>>, conns: seq<Conn>, states: seq<S>, log: seq<seq<Batch>>,
                       times: seq<real>, dt: real): (r: seq<S>)
    requires |states| == |models| && Wired(conns, |models|) && AllSized(log, |models|) && |log| <= |times|
    ensures |r| == |states|
  {
    if log == [] then states
    else
      var k := |log| - 1;
      RunBatches(models, conns, RunSteps(models, conns, states, log[..k], times, dt), log[k], times[k], dt)
  }

  /** A whole step: every FMU in some batch, in an order that the rends allow. */
  ghost predicate Whole<S(!new)>(m: Master<S>, bs: seq<Batch>) {
    && m.rends != [] && History(m.rends, Members(bs)) && Union(Members(bs)) == Ids(m.n) && |bs| <= m.n
    && (m.kins == {} ==> Lockstep(m.rends, m.n, bs))
  }

  /** What the main loop passes to each step. */
  ghost predicate Inputs<S(!new)>(m: Master<S>, times: seq<real>, forces: seq<seq<seq<Assign>>>, orders: seq<Listing>) {
    && |times| == |forces| == |orders|
    && forall i | 0 <= i < |times| :: |forces[i]| == m.n && Lister(orders[i])
  }

  /** The kinematic FMUs, if any, are seen. */
  ghost predicate SeesKins<S(!new)>(m: Master<S>, order: Listing)
    requires m.rends != []
  {
    m.kins == {} || Meets(m.rends, m.n, m.kins, order, m.kinList)
  }

  /** One step, with its batches. */
  method OneStep<S(!new)>(m: Master<S>, t: real, dt: real, forces: seq<seq<Assign>>, order: Listing)
    returns (ok: bool, ghost bs: seq<Batch>)
    requires m.Ready() && m.net.Valid() && |forces| == m.n && Lister(order)
    modifies m, m.net, m.net.table
    ensures ok ==> m.net.Valid() && Sized(bs, m.n) && Whole(m, bs)
    ensures ok && m.net.Faithful() ==>
              m.net.States() == RunBatches(m.net.models, m.net.conns, old(m.net.States()), bs, t, dt)
    ensures Forward(m.rends) ==> (ok <==> m.Convertibles() && Live(m.rends) && SeesKins(m, order))
  {
    ok := m.RunIteration(t, dt, forces, order);
    bs := m.batches;
  }

  /** The steps logged so far, and where they led. */
  ghost predicate Logged<S(!new)>(m: Master<S>, log: seq<seq<Batch>>, start: seq<S>, times: seq<real>, dt: real)
    reads m.net, m.net.table
  {
    && m.Ready() && m.net.Valid() && |start| == m.n && |log| <= |times| && AllSized(log, m.n)
    && (forall i | 0 <= i < |log| :: Whole(m, log[i]))
    && (m.net.Faithful() ==> m.net.States() == RunSteps(m.net.models, m.net.conns, start, log, times, dt))
  }

  /** The first k steps can succeed. */
  ghost predicate Passes<S(!new)>(m: Master<S>, orders: seq<Listing>, k: nat)
    requires k <= |orders| && m.rends != []
  {
    k == 0 || (Passes(m, orders, k - 1) && m.Convertibles() && Live(m.rends) && SeesKins(m, orders[k - 1]))
  }

  lemma {:induction false} PassesEarlier<S(!new)>(m: Master<S>, orders: seq<Listing>, j: nat, k: nat)
    requires j <= k <= |orders| && m.rends != [] && Passes(m, orders, k)
    ensures Passes(m, orders, j)
  {
    if j < k { PassesEarlier(m, orders, j, k - 1); }
  }

  lemma RunStepsNext<S>(models: seq<Simulator<S>>, conns: seq<Conn>, states: seq<S>, log: seq<seq<Batch>>,
                        bs: seq<Batch>, times: seq<real>, dt: real)
    requires |states| == |models| && Wired(conns, |models|) && AllSized(log, |models|) && Sized(bs, |models|)
    requires |log| < |times|
    ensures AllSized(log + [bs], |models|)
    ensures RunSteps(models, conns, states, log + [bs], times, dt)
            == RunBatches(models, conns, RunSteps(models, conns, states, log, times, dt), bs, times[|log|], dt)
  {
    assert (log + [bs])[..|log|] == log;
  }

  /**
   * The main loop's steps. The lists of inputs and the caches that a step leaves are reused by the
   * next: the states of a faithful network are those of all logged batches in sequence. Over a
   * forward vector the steps all go through exactly if the connections can be converted, no rend
   * is dead, and every step sees the kinematic FMUs.
   */
  method Simulate<S(!new)>(m: Master<S>, times: seq<real>, dt: real, forces: seq<seq<seq<Assign>>>,
                           orders: seq<Listing>)
    returns (ok: bool, ghost log: seq<seq<Batch>>)
    requires m.Ready() && m.net.Valid() && Inputs(m, times, forces, orders)
    modifies m, m.net, m.net.table
    ensures ok ==> |log| == |times| && Logged(m, log, old(m.net.States()), times, dt)
    ensures Forward(m.rends) ==> (ok <==> Passes(m, orders, |orders|))
  {
    log := [];
    ghost var start := m.net.States();
    var k := 0;
    while k < |times|
      invariant 0 <= k <= |times| && |log| == k && Logged(m, log, start, times, dt)
      invariant Forward(m.rends) ==> Passes(m, orders, k)
    {
      ghost var bs;
      ok, bs := OneStep(m, times[k], dt, forces[k], orders[k]);
      if !ok {
        if Passes(m, orders, |orders|) { PassesEarlier(m, orders, k + 1, |orders|); }
        return;
      }
      RunStepsNext(m.net.models, m.net.conns, start, log, bs, times, dt);
      log := log + [bs];
      k := k + 1;
    }
    return true, log;
  }
}
