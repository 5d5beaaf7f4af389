/** The rendezvous scheduler that runs every time step. */
module StrongMaster {
  import opened IntSets
  import opened Options
  import opened Includes
  import opened RendCompiler
  import opened RendCheck
  import opened OrderShapes
  import opened Schedule
  import opened Wiring
  import opened Simulators
  import opened Network

  /** The FMUs that may have been opened once `done` is done. */
  ghost function Opened(rends: seq<Rend>, n: nat, done: set<int>): set<int>
    requires rends != []
  {
    set v | v in Ids(n) && OpenedBy(rends, done, v)
  }

  /** For each rend, how many of its parents are not done. */
  ghost function Remaining(rends: seq<Rend>, done: set<int>): (c: seq<int>)
    ensures |c| == |rends|
  {
    if rends == [] then [] else [|rends[0].parents - done|] + Remaining(rends[1..], done)
  }

  lemma {:induction false} RemainingAt(rends: seq<Rend>, done: set<int>, r: nat)
    requires r < |rends|
    ensures Remaining(rends, done)[r] == |rends[r].parents - done|
  {
    if r > 0 { RemainingAt(rends[1..], done, r - 1); }
  }

  /** The three sets and the counters are determined by what is done. */
  ghost predicate Sched(rends: seq<Rend>, n: nat, done: set<int>, open: set<int>, todo: set<int>, counters: seq<int>) {
    && Tidy(rends, n)
    && done <= Opened(rends, n, done)
    && open == Opened(rends, n, done) - done
    && todo == Ids(n) - Opened(rends, n, done)
    && counters == Remaining(rends, done)
  }

  /** Each FMU is in exactly one of the three sets. */
  lemma SchedPartition(rends: seq<Rend>, n: nat, done: set<int>, open: set<int>, todo: set<int>, counters: seq<int>)
    requires Sched(rends, n, done, open, todo, counters)
    ensures done !! open && done !! todo && open !! todo && done + open + todo == Ids(n)
  {
    var all := Opened(rends, n, done);
    assert all <= Ids(n);
    assert done + (all - done) == all;
    assert all + (Ids(n) - all) == Ids(n);
  }

  lemma CountDown(parents: set<int>, done: set<int>, id: int)
    requires id !in done
    ensures id in parents ==> |parents - (done + {id})| == |parents - done| - 1
    ensures id !in parents ==> parents - (done + {id}) == parents - done
  {
    assert parents - (done + {id}) == parents - done - {id};
  }

  lemma OpenedByMonotone(rends: seq<Rend>, done: set<int>, more: set<int>, v: int)
    requires rends != [] && done <= more && OpenedBy(rends, done, v)
    ensures OpenedBy(rends, more, v)
  {
    if v !in rends[0].children {
      var r :| 0 < r < |rends| && v in rends[r].children && Triggered(rends[r], done);
      assert Triggered(rends[r], more);
    }
  }

  /** The rends that the ids of `cranked` complete. */
  ghost predicate Completed(rends: seq<Rend>, r: int, cranked: set<int>, done: set<int>) {
    0 <= r < |rends| && rends[r].parents <= done && exists x :: x in cranked && x in rends[r].parents
  }

  // ---- The rounds of a crank towards a target ---------------------------------------------------

  /** What is done after k rounds that step all but the target. */
  ghost function DoneAt(rends: seq<Rend>, n: nat, target: set<int>, k: nat): set<int>
    requires rends != []
  {
    if k == 0 then {}
    else
      var d := DoneAt(rends, n, target, k - 1);
      d + (Opened(rends, n, d) - d - target)
  }

  ghost function OpenAt(rends: seq<Rend>, n: nat, target: set<int>, k: nat): set<int>
    requires rends != []
  {
    Opened(rends, n, DoneAt(rends, n, target, k)) - DoneAt(rends, n, target, k)
  }

  /** Round k is reached, and there std::includes sees the target in the open set. */
  ghost predicate MeetsAt(rends: seq<Rend>, n: nat, target: set<int>, order: Listing, list: seq<int>, k: nat)
    requires rends != []
  {
    && (forall j: nat | j < k :: OpenAt(rends, n, target, j) - target != {})
    && Walk(order(k, OpenAt(rends, n, target, k)), list)
  }

  ghost predicate Meets(rends: seq<Rend>, n: nat, target: set<int>, order: Listing, list: seq<int>)
    requires rends != []
  {
    exists k: nat :: MeetsAt(rends, n, target, order, list, k)
  }

  datatype Round = Reached | Blocked | Stepped | Failed

  class Master<S(!new)> {
    const rends: seq<Rend>
    const n: nat
    const kins: set<int>
    const kinList: seq<int>  // the order in which kins is iterated
    const clientrend: map<int, int>
    const net: Net<S>

    var done: set<int>
    var open: set<int>
    var todo: set<int>
    var counters: seq<int>
    ghost var batches: seq<Batch>

    ghost predicate Ready() {
      && Tidy(rends, n) && |net.models| == n
      && (forall x | x in kins :: 0 <= x < n) && Lists(kinList, kins)
      && (forall x | 0 <= x < n :: x in clientrend && Awaits(rends, clientrend[x], x))
    }

    ghost predicate Valid()
      reads this
    {
      Ready() && Sched(rends, n, done, open, todo, counters)
    }

    /** The batches stepped so far are a run that led to what is done. */
    ghost predicate Logged()
      reads this
    {
      rends != [] && History(rends, Members(batches)) && Union(Members(batches)) == done
    }

    /** The FMUs are where the given batches take them, if the network is faithful. */
    ghost predicate NetAt(start: seq<S>, bs: seq<Batch>, t: real, dt: real)
      reads net, net.table
    {
      && net.Valid() && |start| == |net.models| && Sized(bs, |net.models|)
      && (net.Faithful() ==> net.States() == RunBatches(net.models, net.conns, start, bs, t, dt))
    }

    /** Every connection can be converted. */
    predicate Convertibles() {
      AllConvertible(net.conns, Ids(n))
    }

    constructor (rends: seq<Rend>, kins: set<int>, kinList: seq<int>, clientrend: map<int, int>, net: Net<S>)
      requires Lists(kinList, kins) && Tidy(rends, |net.models|) && forall x | x in kins :: 0 <= x < |net.models|
      requires forall x | 0 <= x < |net.models| :: x in clientrend && Awaits(rends, clientrend[x], x)
      ensures this.rends == rends && this.kins == kins && this.kinList == kinList && this.net == net
      ensures n == |net.models| && Ready()
    {
      this.rends, this.kins, this.kinList, this.clientrend, this.net := rends, kins, kinList, clientrend, net;
      n := |net.models|;
      done, open, todo, counters, batches := {}, {}, {}, seq(|rends|, _ => 0), [];
    }

    /** Pokes the rend of one stepped FMU; stops if it was poked too often. */
    method PokeOne(id: int, expired: set<int>, ghost start: set<int>) returns (ok: bool, triggered: set<int>)
      requires counters == Remaining(rends, done) && start <= done && id !in done
      requires expired == Expired(Remaining(rends, start), counters)
      requires id in clientrend && Awaits(rends, clientrend[id], id)
      modifies this`done, this`open, this`counters
      ensures ok && counters == Remaining(rends, done) && triggered == Expired(Remaining(rends, start), counters)
      ensures done == old(done) + {id} && open == old(open) - {id}
    {
      var r := clientrend[id];
      CountingStep(rends, counters, r, id, done);
      ExpiredStep(rends, start, done, Remaining(rends, start), counters, r);
      counters := counters[r := counters[r] - 1];
      ok, triggered := counters[r] >= 0, expired;
      if ok && counters[r] == 0 {
        triggered := triggered + {r};
      }
      done := done + {id};
      open := open - {id};
    }

    /** First half of moveCranked: poke the rends of the stepped FMUs. */
    method Poke(cranked: set<int>) returns (ok: bool, triggered: set<int>)
      requires counters == Remaining(rends, done) && cranked !! done
      requires forall x | x in cranked :: x in clientrend && Awaits(rends, clientrend[x], x)
      modifies this`done, this`open, this`counters
      ensures ok && counters == Remaining(rends, done) && triggered == Expired(Remaining(rends, old(done)), counters)
      ensures done == old(done) + cranked && open == old(open) - cranked
    {
      triggered, ok := {}, true;
      SameByElements(Expired(counters, counters), {});
      var left := cranked;
      ghost var poked := {};
      while left != {}
        invariant left + poked == cranked && left !! poked
        invariant done == old(done) + poked && open == old(open) - poked
        invariant counters == Remaining(rends, done) && triggered == Expired(Remaining(rends, old(done)), counters)
        decreases left
      {
        ghost var some := PickOne(left);
        var id :| id in left;
        assert id in cranked && id !in done;
        HandOver(left, poked, id, old(done), old(open));
        ok, triggered := PokeOne(id, triggered, old(done));
        if !ok { return; }
        left := left - {id};
        poked := poked + {id};
      }
    }

    /** Second half of moveCranked: open the children of the completed rends. */
    method OpenChildren(triggered: set<int>, ghost cranked: set<int>, ghost before: set<int>) returns (ok: bool)
      requires Tidy(rends, n)
      requires CompletedAre(rends, cranked, before + cranked, triggered) && cranked !! before
      requires todo == Ids(n) - Opened(rends, n, before)
      modifies this`open, this`todo
      ensures ok
      ensures forall v :: v in open <==> v in old(open) || ChildOf(rends, triggered, v)
      ensures forall v :: v in todo <==> v in old(todo) && !ChildOf(rends, triggered, v)
    {
      ok := true;
      var left := triggered;
      ghost var handled := {};
      while left != {}
        invariant ok && left + handled == triggered && left !! handled
        invariant forall v :: v in open <==> v in old(open) || ChildOf(rends, handled, v)
        invariant forall v :: v in todo <==> v in old(todo) && !ChildOf(rends, handled, v)
        decreases left
      {
        ghost var some := PickOne(left);
        var t :| t in left;
        assert t in triggered && Completed(rends, t, cranked, before + cranked);
        var kids := rends[t].children;
        ghost var o, d := open, todo;
        while kids != {}
          invariant ok && kids <= rends[t].children
          invariant forall v :: v in open <==> v in o || (v in rends[t].children && v !in kids)
          invariant forall v :: v in todo <==> v in d && !(v in rends[t].children && v !in kids)
          decreases kids
        {
          ghost var one := PickOne(kids);
          var id :| id in kids;
          StillClosed(rends, n, triggered, handled, cranked, before, t, id);
          if id !in todo { return false; }
          todo := todo - {id};
          open := open + {id};
          kids := kids - {id};
        }
        left := left - {t};
        handled := handled + {t};
      }
      assert handled == triggered;
    }

    /** Moves FMUs that were just stepped from open to done, and opens what that completes. */
    method MoveCranked(cranked: set<int>) returns (ok: bool)
      requires Valid() && cranked <= open
      modifies this`done, this`open, this`todo, this`counters
      ensures ok && Valid() && done == old(done) + cranked
    {
      ghost var before, wasOpen, wasTodo, counted := done, open, todo, counters;
      assert cranked !! before && cranked <= Ids(n);
      var triggered;
      ok, triggered := Poke(cranked);
      ExpiredCompleted(rends, before, cranked, counted, counters, triggered);
      ok := OpenChildren(triggered, cranked, before);
      Moved(rends, n, before, cranked, triggered, wasOpen, open, wasTodo, todo);
    }

    method CrankNet(toStep: set<int>, t: real, dt: real, ghost start: seq<S>, ghost bs: seq<Batch>) returns (ok: bool)
      requires NetAt(start, bs, t, dt)
      modifies net, net.table
      ensures ok <==> AllConvertible(net.conns, toStep)
      ensures ok ==> NetAt(start, bs + [Batch(toStep, Nothing(|net.models|))], t, dt)
    {
      RunSnoc(net.models, net.conns, start, bs, Batch(toStep, Nothing(|net.models|)), t, dt);
      ok := net.Crank(toStep, t, dt);
    }

    /** The state between two batches of a step that began with the FMUs in `start`. */
    ghost predicate InStep(start: seq<S>, t: real, dt: real)
      reads this, net, net.table
    {
      Valid() && Logged() && NetAt(start, batches, t, dt) && AllConvertible(net.conns, done)
    }

    /** Steps a batch and records it. */
    method CrankOnce(toStep: set<int>, t: real, dt: real, ghost start: seq<S>) returns (ok: bool)
      requires InStep(start, t, dt) && toStep <= open && toStep != {}
      modifies this, net, net.table
      ensures ok <==> AllConvertible(net.conns, toStep)
      ensures ok ==> InStep(start, t, dt) && done == old(done) + toStep
      ensures ok ==> batches == old(batches) + [Batch(toStep, Nothing(|net.models|))]
    {
      ghost var b := Batch(toStep, Nothing(|net.models|));
      Extended(rends, n, done, open, batches, b);
      ok := CrankNet(toStep, t, dt, start, batches);
      if !ok { return; }
      ok := MoveCranked(toStep);
      batches := batches + [b];
    }

    /**
     * One round of crankIt: the target is seen to be open, nothing may be stepped, or a batch is
     * stepped. In a forward, live vector with an independent target, a round is blocked exactly
     * if the open set is the target but iterated in another order.
     */
    method CrankRound(t: real, dt: real, target: set<int>, list: seq<int>, order: Listing, k: nat,
                      ghost start: seq<S>) returns (r: Round)
      requires InStep(start, t, dt) && |done| < n && Lists(list, target) && Lister(order)
      requires target !! done && forall x | x in target :: 0 <= x < n
      modifies this, net, net.table
      ensures r.Failed? ==> !Convertibles()
      ensures !r.Failed? ==> InStep(start, t, dt) && target !! done
      ensures r.Reached? <==> target != {} && Walk(order(k, old(open)), list)
      ensures r.Reached? ==> target <= open
      ensures r.Blocked? <==> !(target != {} && Walk(order(k, old(open)), list)) && old(open) - target == {}
      ensures r.Reached? || r.Blocked? ==> done == old(done) && open == old(open) && batches == old(batches)
      ensures r.Stepped? ==> |done| > |old(done)| && done == old(done) + (old(open) - target)
      ensures r.Stepped? ==> |batches| == |old(batches)| + 1
      ensures Forward(rends) && Live(rends) && KinsIndependent(rends, target) ==>
                (r.Blocked? <==> target != {} && old(open) == target && order(k, target) != list)
      ensures !r.Failed? && target == {} && Lockstep(rends, n, old(batches)) ==> Lockstep(rends, n, batches)
    {
      if Forward(rends) && Live(rends) && KinsIndependent(rends, target) {
        BlockedIff(rends, n, done, open, todo, counters, target, order(k, open), list);
      }
      var seen := Sees(open, target, order(k, open), list);
      if seen { return Reached; }
      var toStep := open - target;
      if toStep == {} { return Blocked; }
      var ok := StepAllBut(target, toStep, t, dt, start);
      return if ok then Stepped else Failed;
    }

    /** Steps all that is open, except the target. */
    method StepAllBut(target: set<int>, toStep: set<int>, t: real, dt: real, ghost start: seq<S>) returns (ok: bool)
      requires InStep(start, t, dt) && target !! done && toStep == open - target && toStep != {}
      modifies this, net, net.table
      ensures !ok ==> !Convertibles()
      ensures ok ==> InStep(start, t, dt) && target !! done
      ensures ok ==> |done| > |old(done)| && done == old(done) + toStep && |batches| == |old(batches)| + 1
      ensures ok && target == {} && Lockstep(rends, n, old(batches)) ==> Lockstep(rends, n, batches)
    {
      Grows(rends, n, done, open, todo, counters, target);
      if target == {} && Lockstep(rends, n, batches) {
        ExtendedGreedy(rends, n, done, open, batches, Batch(toStep, Nothing(|net.models|)));
      }
      OpenConvertible(net.conns, open, toStep, n);
      ok := CrankOnce(toStep, t, dt, start);
    }

    /** Steps whatever is open until everything is done. */
    method CrankAll(t: real, dt: real, order: Listing, ghost start: seq<S>) returns (ok: bool)
      requires InStep(start, t, dt) && Lister(order)
      modifies this, net, net.table
      ensures ok ==> InStep(start, t, dt) && |done| >= n
      ensures !ok && Convertibles() && Forward(rends) ==> !Live(rends)
      ensures ok && Lockstep(rends, n, old(batches)) ==> Lockstep(rends, n, batches)
    {
      while |done| < n
        invariant InStep(start, t, dt)
        invariant Lockstep(rends, n, old(batches)) ==> Lockstep(rends, n, batches)
        decreases n - |done|
      {
        var r := CrankRound(t, dt, {}, [], order, |done|, start);
        if r != Stepped { return false; }
      }
      return true;
    }

    /**
     * Steps whatever is open, except the target, until the target is seen to be open. This
     * succeeds exactly if some round that is reached sees it, whatever the iteration orders.
     */
    method CrankIt(t: real, dt: real, target: set<int>, list: seq<int>, order: Listing,
                   ghost start: seq<S>) returns (ok: bool)
      requires InStep(start, t, dt) && done == {} && batches == [] && target != {} && Lists(list, target)
               && Lister(order)
      requires forall x | x in target :: 0 <= x < n
      modifies this, net, net.table
      ensures ok ==> InStep(start, t, dt) && target !! done && target <= open
      ensures ok ==> Meets(rends, n, target, order, list)
      ensures !ok && Convertibles() ==> !Meets(rends, n, target, order, list)
      ensures !ok && Convertibles() && Forward(rends) && Live(rends) && KinsIndependent(rends, target) ==>
                open == target && exists k: nat :: open == OpenAt(rends, n, target, k) && order(k, target) != list
    {
      var k := 0;
      while true
        invariant InStep(start, t, dt) && target !! done
        invariant done == DoneAt(rends, n, target, k) && Missed(rends, n, target, order, list, k)
        decreases n - |done|
      {
        NotAllDone(rends, n, done, open, todo, counters, target);
        assert open == OpenAt(rends, n, target, k);
        var r := CrankRound(t, dt, target, list, order, k, start);
        if r == Failed { return false; }
        if r == Reached {
          MissedThenSeen(rends, n, target, order, list, k);
          return true;
        }
        if r == Blocked {
          NeverMeets(rends, n, target, order, list, k);
          assert open == OpenAt(rends, n, target, k);
          return false;
        }
        MissedNext(rends, n, target, order, list, k);
        k := k + 1;
      }
    }

    /** Steps everything that is open, the kinematic FMUs with it. */
    method StepKinematicFmus(t: real, dt: real, forces: seq<seq<Assign>>, ghost start: seq<S>) returns (ok: bool)
      requires InStep(start, t, dt) && |forces| == n && open != {}
      modifies this, net, net.table
      ensures ok <==> old(kins <= open) && AllConvertible(net.conns, old(open))
      ensures ok ==> InStep(start, t, dt)
      ensures ok ==> batches == old(batches) + [Batch(old(open), forces)]
    {
      if !(kins <= open) { return false; }
      ghost var b := Batch(open, forces);
      Extended(rends, n, done, open, batches, b);
      ok := DriveNet(open, forces, t, dt, start, batches);
      if !ok { return; }
      ok := MoveCranked(open);
      batches := batches + [b];
    }

    method DriveNet(ids: set<int>, forces: seq<seq<Assign>>, t: real, dt: real, ghost start: seq<S>,
                    ghost bs: seq<Batch>) returns (ok: bool)
      requires NetAt(start, bs, t, dt) && |forces| == |net.models|
      modifies net, net.table
      ensures ok <==> AllConvertible(net.conns, ids)
      ensures ok ==> NetAt(start, bs + [Batch(ids, forces)], t, dt)
    {
      RunSnoc(net.models, net.conns, start, bs, Batch(ids, forces), t, dt);
      ok := net.StepKinematic(ids, forces, t, dt);
    }

    /** Sets up the counters and the three sets for a new step. */
    method Restart()
      requires Ready()
      modifies this
      ensures Valid() && Logged() && done == {} && batches == []
    {
      done, open, todo, batches := {}, rends[0].children, {}, [];
      counters := [];
      var x := |rends|;
      while x > 0
        invariant 0 <= x <= |rends| && counters == Remaining(rends[x..], {})
        invariant done == {} && batches == [] && open == rends[0].children && todo == {}
      {
        x := x - 1;
        assert rends[x].parents - {} == rends[x].parents;
        assert rends[x..][1..] == rends[x + 1..];
        counters := [|rends[x].parents|] + counters;
      }
      assert forall v :: v !in todo;
      for c := 0 to n
        invariant done == {} && batches == [] && open == rends[0].children && counters == Remaining(rends[0..], {})
        invariant forall v :: v in todo <==> 0 <= v < c && v !in open
      {
        if c !in open {
          todo := todo + {c};
        }
      }
      assert rends[0..] == rends;
      Beginning(rends, n, open, todo);
      assert Union(Members([])) == {};
    }

    /** Steps the kinematic FMUs and whatever comes after them. */
    method Finish(t: real, dt: real, forces: seq<seq<Assign>>, order: Listing, ghost start: seq<S>) returns (ok: bool)
      requires InStep(start, t, dt) && |forces| == n && open != {} && kins <= open && Lister(order)
      modifies this, net, net.table
      ensures ok ==> InStep(start, t, dt) && |done| >= n && KinsIndependent(rends, kins)
      ensures !ok && Convertibles() && Forward(rends) ==> !Live(rends)
    {
      ghost var j := |batches|;
      ok := StepKinematicFmus(t, dt, forces, start);
      if !ok { return; }
      TogetherIsIndependent(rends, n, Members(batches), kins, j);
      ok := CrankAll(t, dt, order, start);
    }

    /** crankIt(kins): to the end if there are no kinematic FMUs. */
    method CrankToKins(t: real, dt: real, order: Listing, ghost start: seq<S>) returns (ok: bool)
      requires InStep(start, t, dt) && done == {} && batches == [] && Lister(order)
      modifies this, net, net.table
      ensures ok ==> InStep(start, t, dt)
      ensures ok && kins == {} ==> open == {} && todo == {} && |done| >= n && Lockstep(rends, n, batches)
      ensures ok && kins != {} ==> open != {} && kins <= open && Meets(rends, n, kins, order, kinList)
      ensures !ok && Convertibles() && Forward(rends) ==>
              !Live(rends) || (kins != {} && !Meets(rends, n, kins, order, kinList))
    {
      if kins == {} {
        ok := CrankAll(t, dt, order, start);
        if ok { DoneAtMost(rends, n, done, open, todo, counters); }
      } else {
        ok := CrankIt(t, dt, kins, kinList, order, start);
        if ok { SomeOpen(kins, open); }
      }
    }

    /**
     * One time step. If it does not stop, every FMU was stepped exactly once, batch by batch, and
     * in a faithful network ended where the batch-wise semantics puts it. Whatever the order in
     * which sets are iterated, over a forward vector it stops exactly if a connection cannot be
     * converted, a rend is dead, or no round sees the kinematic FMUs in the open set.
     */
    method RunIteration(t: real, dt: real, forces: seq<seq<Assign>>, order: Listing) returns (ok: bool)
      requires Ready() && net.Valid() && |forces| == n && Lister(order)
      modifies this, net, net.table
      ensures ok ==> InStep(old(net.States()), t, dt) && done == Ids(n)
      ensures ok ==> |batches| <= n && KinsIndependent(rends, kins)
      ensures ok && kins == {} ==> Lockstep(rends, n, batches)
      ensures Forward(rends) ==>
              (ok <==> Convertibles() && Live(rends) && (kins == {} || Meets(rends, n, kins, order, kinList)))
    {
      ghost var start := net.States();
      Restart();
      ok := CrankToKins(t, dt, order, start);
      if !ok { return; }
      if open != {} {
        ok := Finish(t, dt, forces, order, start);
        if !ok { return; }
      } else if todo != {} {
        return false;
      }
      RunCompleted(rends, n, done, open, todo, counters, Members(batches));
      PrefetchConvertible(net.conns, rends[0].children, n);
      ok := net.Prefetch(rends[0].children, Ids(n));
    }
  }

  function Members(bs: seq<Batch>): (r: seq<set<int>>)
    ensures |r| == |bs| && forall i | 0 <= i < |bs| :: r[i] == bs[i].ids
  {
    seq(|bs|, i requires 0 <= i < |bs| => bs[i].ids)
  }

  lemma DoneAtMost(rends: seq<Rend>, n: nat, done: set<int>, open: set<int>, todo: set<int>, counters: seq<int>)
    requires Sched(rends, n, done, open, todo, counters)
    ensures |done| <= n && (|done| == n ==> done == Ids(n) && open == {} && todo == {})
  {
    SchedPartition(rends, n, done, open, todo, counters);
    SubsetSize(done, Ids(n));
    IdsSize(n);
    if |done| == n {
      assert done == Ids(n) && open !! Ids(n) && todo !! Ids(n);
      assert open == open - Ids(n) && todo == todo - Ids(n);
      assert open - Ids(n) == {} && todo - Ids(n) == {};
    }
  }

  lemma Extended(rends: seq<Rend>, n: nat, done: set<int>, open: set<int>, bs: seq<Batch>, b: Batch)
    requires rends != [] && open == Opened(rends, n, done) - done && b.ids <= open && b.ids != {}
    requires History(rends, Members(bs)) && Union(Members(bs)) == done
    ensures History(rends, Members(bs + [b])) && Union(Members(bs + [b])) == done + b.ids
  {
    assert Members(bs + [b]) == Members(bs) + [b.ids];
    HistoryExtend(rends, Members(bs), b.ids);
  }

  /** Nobody is held back and nobody is given forces. */
  ghost predicate Lockstep(rends: seq<Rend>, n: nat, bs: seq<Batch>) {
    rends != [] && Greedy(rends, Members(bs)) && forall i | 0 <= i < |bs| :: bs[i].extra == Nothing(n)
  }

  lemma ExtendedGreedy(rends: seq<Rend>, n: nat, done: set<int>, open: set<int>, bs: seq<Batch>, b: Batch)
    requires Tidy(rends, n) && open == Opened(rends, n, done) - done && b.ids == open
    requires Union(Members(bs)) == done && Lockstep(rends, n, bs) && b.extra == Nothing(n)
    ensures Lockstep(rends, n, bs + [b])
  {
    assert Members(bs + [b]) == Members(bs) + [b.ids];
    forall v | OpenedBy(rends, done, v)
      ensures v in done || v in b.ids
    {
      OpenedIsClient(rends, n, done, v);
    }
    GreedyExtend(rends, Members(bs), b.ids);
  }

  lemma RunCompleted(rends: seq<Rend>, n: nat, done: set<int>, open: set<int>, todo: set<int>, counters: seq<int>,
                   bs: seq<set<int>>)
    requires Sched(rends, n, done, open, todo, counters) && |done| >= n
    requires History(rends, bs) && Union(bs) == done
    ensures done == Ids(n) && |bs| <= n && Live(rends)
  {
    DoneAtMost(rends, n, done, open, todo, counters);
    BatchCount(rends, n, bs);
    CompleteIsLive(rends, n, bs);
  }

  lemma Grows(rends: seq<Rend>, n: nat, done: set<int>, open: set<int>, todo: set<int>, counters: seq<int>,
              target: set<int>)
    requires Sched(rends, n, done, open, todo, counters) && open - target != {}
    ensures open - target <= open && |done + (open - target)| > |done|
    ensures target == {} ==> open - target == open
  {
    SchedPartition(rends, n, done, open, todo, counters);
    var toStep := open - target;
    assert |done + toStep| == |done| + |toStep|;
  }

  lemma OpenedIsClient(rends: seq<Rend>, n: nat, done: set<int>, v: int)
    requires Tidy(rends, n) && OpenedBy(rends, done, v)
    ensures 0 <= v < n
  {
  }

  lemma RunSnoc<S>(models: seq<Simulator<S>>, conns: seq<Conn>, start: seq<S>, bs: seq<Batch>, b: Batch, t: real,
                   dt: real)
    requires |start| == |models| == |b.extra| && Wired(conns, |models|) && Sized(bs, |models|)
    ensures Sized(bs + [b], |models|)
    ensures RunBatches(models, conns, start, bs + [b], t, dt)
            == BatchStep(models, conns, RunBatches(models, conns, start, bs, t, dt), b, t, dt)
  {
    assert (bs + [b])[..|bs|] == bs;
  }

  /** What the master does at the beginning of each step. */
  lemma Beginning(rends: seq<Rend>, n: nat, open: set<int>, todo: set<int>)
    requires Tidy(rends, n) && open == rends[0].children
    requires forall v :: v in todo <==> 0 <= v < n && v !in open
    ensures Sched(rends, n, {}, open, todo, Remaining(rends, {}))
  {
    assert forall r | 0 < r < |rends| :: !Triggered(rends[r], {});
    SameByElements(open, Opened(rends, n, {}) - {});
    SameByElements(todo, Ids(n) - Opened(rends, n, {}));
  }

  /** If nothing may be stepped, then some kinematic FMU waits for another or a rend is dead. */
  lemma Stuck(rends: seq<Rend>, n: nat, done: set<int>, open: set<int>, todo: set<int>, counters: seq<int>,
              target: set<int>)
    requires Sched(rends, n, done, open, todo, counters) && Forward(rends) && Live(rends)
    requires open <= target && |done| < n && target !! done
    requires target == {} || !(target <= open)
    requires forall x | x in target :: 0 <= x < n
    ensures !KinsIndependent(rends, target)
  {
    var v;
    if target == {} {
      if Ids(n) - done == {} {
        SubsetByDifference(Ids(n), done);
        SubsetSize(Ids(n), done);
        IdsSize(n);
      }
      v := PickOne(Ids(n) - done);
    } else {
      if target - open == {} { SubsetByDifference(target, open); }
      v := PickOne(target - open);
    }
    assert v in todo;
    assert IsChild(rends, v);
    var r :| 0 <= r < |rends| && v in rends[r].children;
    var w := HeldUp(rends, n, done, v, r);
    assert w in open;
  }

  /** With something in the target, and nothing of it done, not everything is done. */
  lemma NotAllDone(rends: seq<Rend>, n: nat, done: set<int>, open: set<int>, todo: set<int>, counters: seq<int>,
                   target: set<int>)
    requires Sched(rends, n, done, open, todo, counters) && target !! done && target != {}
             && forall x | x in target :: 0 <= x < n
    ensures |done| < n
  {
    var x := PickOne(target);
    DoneAtMost(rends, n, done, open, todo, counters);
  }

  lemma SomeOpen(target: set<int>, open: set<int>)
    requires target != {} && target <= open
    ensures open != {}
  {
    var x := PickOne(target);
  }

  /** The first k rounds had something to step and did not see the target. */
  ghost predicate Missed(rends: seq<Rend>, n: nat, target: set<int>, order: Listing, list: seq<int>, k: nat)
    requires rends != []
  {
    forall j: nat | j < k ::
        OpenAt(rends, n, target, j) - target != {} && !Walk(order(j, OpenAt(rends, n, target, j)), list)
  }

  lemma MissedNext(rends: seq<Rend>, n: nat, target: set<int>, order: Listing, list: seq<int>, k: nat)
    requires rends != [] && Missed(rends, n, target, order, list, k)
    requires !Walk(order(k, OpenAt(rends, n, target, k)), list) && OpenAt(rends, n, target, k) - target != {}
    ensures Missed(rends, n, target, order, list, k + 1)
  {
  }

  lemma MissedThenSeen(rends: seq<Rend>, n: nat, target: set<int>, order: Listing, list: seq<int>, k: nat)
    requires rends != [] && Missed(rends, n, target, order, list, k)
             && Walk(order(k, OpenAt(rends, n, target, k)), list)
    ensures Meets(rends, n, target, order, list)
  {
    assert MeetsAt(rends, n, target, order, list, k);
  }

  /** Once nothing but the target may be stepped and it is not seen, it never will be. */
  lemma NeverMeets(rends: seq<Rend>, n: nat, target: set<int>, order: Listing, list: seq<int>, k: nat)
    requires rends != [] && Missed(rends, n, target, order, list, k)
    requires !Walk(order(k, OpenAt(rends, n, target, k)), list) && OpenAt(rends, n, target, k) - target == {}
    ensures !Meets(rends, n, target, order, list)
  {
    forall m: nat ensures !MeetsAt(rends, n, target, order, list, m) {
      if m == k {
      } else if m < k {
        assert !Walk(order(m, OpenAt(rends, n, target, m)), list);
      } else {
        assert OpenAt(rends, n, target, k) - target == {};
      }
    }
  }

  /** The test at the head of crankIt. */
  method Sees(open: set<int>, target: set<int>, listed: seq<int>, list: seq<int>) returns (r: bool)
    requires Lists(listed, open) && Lists(list, target)
    ensures r <==> target != {} && Walk(listed, list)
    ensures r ==> target <= open
  {
    if target == {} { return false; }
    r := StdIncludes(listed, list);
    if r {
      WalkSound(listed, list);
      SubsetByElements(target, open);
    }
  }

  /** In a forward, live vector, an independent target is all that is open and not seen exactly if listed otherwise. */
  lemma BlockedIff(rends: seq<Rend>, n: nat, done: set<int>, open: set<int>, todo: set<int>, counters: seq<int>,
                   target: set<int>, listed: seq<int>, list: seq<int>)
    requires Sched(rends, n, done, open, todo, counters) && Forward(rends) && Live(rends)
             && KinsIndependent(rends, target)
    requires |done| < n && target !! done && (forall x | x in target :: 0 <= x < n)
    requires Lists(listed, open) && Lists(list, target)
    ensures !(target != {} && Walk(listed, list)) && open - target == {} <==>
            target != {} && open == target && listed != list
  {
    if open == target { WalkSameSet(listed, list, target); }
    if open - target == {} {
      SubsetByDifference(open, target);
      if target == {} || !(target <= open) { Stuck(rends, n, done, open, todo, counters, target); }
    }
  }

  lemma OpenConvertible(conns: seq<Conn>, open: set<int>, toStep: set<int>, n: nat)
    requires toStep <= open && Wired(conns, n)
    ensures AllConvertible(conns, Ids(n)) ==> AllConvertible(conns, toStep)
  {
    if AllConvertible(conns, Ids(n)) { PrefetchConvertible(conns, toStep, n); }
  }

  lemma PrefetchConvertible(conns: seq<Conn>, first: set<int>, n: nat)
    requires AllConvertible(conns, Ids(n)) && Wired(conns, n)
    ensures AllConvertible(conns, first)
  {
    forall i | 0 <= i < |conns| && conns[i].dst in first ensures Convertible(conns[i]) {
      assert conns[i].dst in Ids(n);
    }
  }

  lemma HandOver(left: set<int>, poked: set<int>, id: int, done: set<int>, open: set<int>)
    requires id in left && left !! poked
    ensures (left - {id}) + (poked + {id}) == left + poked && (left - {id}) !! (poked + {id})
    ensures done + poked + {id} == done + (poked + {id}) && open - poked - {id} == open - (poked + {id})
  {
  }

  ghost predicate CompletedAre(rends: seq<Rend>, cranked: set<int>, done: set<int>, triggered: set<int>) {
    forall r :: r in triggered <==> Completed(rends, r, cranked, done)
  }

  ghost predicate ChildOf(rends: seq<Rend>, triggered: set<int>, v: int) {
    exists t :: t in triggered && 0 <= t < |rends| && v in rends[t].children
  }

  /** r is the one rend that awaits x. */
  ghost predicate Awaits(rends: seq<Rend>, r: int, x: int) {
    && 0 <= r < |rends| && x in rends[r].parents
    && forall q | 0 <= q < |rends| && x in rends[q].parents :: q == r
  }

  lemma CountingStep(rends: seq<Rend>, counters: seq<int>, r: nat, id: int, done: set<int>)
    requires Awaits(rends, r, id) && id !in done && counters == Remaining(rends, done)
    ensures counters[r] >= 1 && counters[r := counters[r] - 1] == Remaining(rends, done + {id})
  {
    forall q | 0 <= q < |rends|
      ensures counters[r := counters[r] - 1][q] == |rends[q].parents - (done + {id})|
    {
      CountDown(rends[q].parents, done, id);
      RemainingAt(rends, done, q);
    }
    CountDown(rends[r].parents, done, id);
    forall q | 0 <= q < |rends|
      ensures counters[r := counters[r] - 1][q] == Remaining(rends, done + {id})[q]
    {
      RemainingAt(rends, done + {id}, q);
    }
  }

  /** The counters that reached zero. */
  ghost function Expired(before: seq<int>, counters: seq<int>): set<int>
    requires |before| == |counters|
  {
    set r | 0 <= r < |counters| && counters[r] == 0 && before[r] > 0
  }

  lemma ExpiredStep(rends: seq<Rend>, done: set<int>, more: set<int>, before: seq<int>, counters: seq<int>, r: nat)
    requires before == Remaining(rends, done) && counters == Remaining(rends, more) && done <= more
    requires r < |counters| && counters[r] > 0
    ensures Expired(before, counters[r := counters[r] - 1])
            == if counters[r] == 1 then Expired(before, counters) + {r} else Expired(before, counters)
  {
    RemainingAt(rends, done, r);
    RemainingAt(rends, more, r);
    SubsetSize(rends[r].parents - more, rends[r].parents - done);
    SameByElements(Expired(before, counters[r := counters[r] - 1]),
                   if counters[r] == 1 then Expired(before, counters) + {r} else Expired(before, counters));
  }

  lemma ExpiredCompleted(rends: seq<Rend>, done: set<int>, cranked: set<int>, before: seq<int>, counters: seq<int>,
                         triggered: set<int>)
    requires before == Remaining(rends, done) && counters == Remaining(rends, done + cranked)
    requires triggered == Expired(before, counters) && cranked !! done
    ensures CompletedAre(rends, cranked, done + cranked, triggered)
  {
    forall r | 0 <= r < |rends|
      ensures r in triggered <==> Completed(rends, r, cranked, done + cranked)
    {
      var p := rends[r].parents;
      RemainingAt(rends, done, r);
      RemainingAt(rends, done + cranked, r);
      if p - (done + cranked) == {} { SubsetByDifference(p, done + cranked); }
      if p <= done + cranked { assert p - (done + cranked) == {}; }
      if before[r] > 0 && p <= done + cranked {
        var x := PickOne(p - done);
        assert x in cranked;
      }
    }
  }

  /** A child about to be opened is still in todo: nothing opened it before. */
  lemma StillClosed(rends: seq<Rend>, n: nat, triggered: set<int>, handled: set<int>, cranked: set<int>,
                    before: set<int>,
                    t: int, id: int)
    requires Tidy(rends, n) && cranked !! before
    requires CompletedAre(rends, cranked, before + cranked, triggered)
    requires t in triggered && handled <= triggered && t !in handled && 0 <= t < |rends| && id in rends[t].children
    ensures 0 <= id < n && !OpenedBy(rends, before, id) && !ChildOf(rends, handled, id)
  {
    assert Completed(rends, t, cranked, before + cranked);
    var x :| x in cranked && x in rends[t].parents;
    assert x !in before;
  }

  lemma Moved(rends: seq<Rend>, n: nat, before: set<int>, cranked: set<int>, triggered: set<int>,
              wasOpen: set<int>, open: set<int>, wasTodo: set<int>, todo: set<int>)
    requires Sched(rends, n, before, wasOpen, wasTodo, Remaining(rends, before)) && cranked <= wasOpen
    requires CompletedAre(rends, cranked, before + cranked, triggered)
    requires forall v :: v in open <==> v in wasOpen - cranked || ChildOf(rends, triggered, v)
    requires forall v :: v in todo <==> v in wasTodo && !ChildOf(rends, triggered, v)
    ensures Sched(rends, n, before + cranked, open, todo, Remaining(rends, before + cranked))
  {
    var done := before + cranked;
    forall v
      ensures OpenedBy(rends, done, v) <==> OpenedBy(rends, before, v) || ChildOf(rends, triggered, v)
      ensures ChildOf(rends, triggered, v) ==> v in Ids(n) && !OpenedBy(rends, before, v)
    {
      OpenedMore(rends, n, before, cranked, triggered, v);
    }
    SubsetByElements(done, Opened(rends, n, done));
    SameByElements(open, Opened(rends, n, done) - done);
    SameByElements(todo, Ids(n) - Opened(rends, n, done));
  }

  lemma OpenedMore(rends: seq<Rend>, n: nat, before: set<int>, cranked: set<int>, triggered: set<int>, v: int)
    requires Tidy(rends, n) && cranked !! before
    requires CompletedAre(rends, cranked, before + cranked, triggered)
    ensures OpenedBy(rends, before + cranked, v) <==> OpenedBy(rends, before, v) || ChildOf(rends, triggered, v)
    ensures ChildOf(rends, triggered, v) ==> 0 <= v < n && !OpenedBy(rends, before, v)
  {
    var done := before + cranked;
    if OpenedBy(rends, before, v) { OpenedByMonotone(rends, before, done, v); }
    if ChildOf(rends, triggered, v) {
      var t :| t in triggered && 0 <= t < |rends| && v in rends[t].children;
      StillClosed(rends, n, triggered, {}, cranked, before, t, v);
      assert Completed(rends, t, cranked, done);
      assert Triggered(rends[t], done);
    }
    if OpenedBy(rends, done, v) && !OpenedBy(rends, before, v) {
      var r :| 0 < r < |rends| && v in rends[r].children && Triggered(rends[r], done);
      assert !Triggered(rends[r], before);
      if rends[r].parents - before == {} { SubsetByDifference(rends[r].parents, before); }
      var x := PickOne(rends[r].parents - before);
      assert x in cranked;
      assert Completed(rends, r, cranked, done);
    }
  }

  /** For each FMU, the rend that awaits it. */
  method ClientRends(rends: seq<Rend>) returns (m: map<int, int>)
    ensures forall i, x | 0 <= i < |rends| && x in rends[i].parents :: x in m
    ensures forall x | x in m :: 0 <= m[x] < |rends| && x in rends[m[x]].parents
  {
    m := map[];
    for i := 0 to |rends|
      invariant forall j, x | 0 <= j < i && x in rends[j].parents :: x in m
      invariant forall x | x in m :: 0 <= m[x] < |rends| && x in rends[m[x]].parents
    {
      var left := rends[i].parents;
      while left != {}
        invariant left <= rends[i].parents
        invariant forall j, x | 0 <= j < i && x in rends[j].parents :: x in m
        invariant forall x | x in rends[i].parents && x !in left :: x in m
        invariant forall x | x in m :: 0 <= m[x] < |rends| && x in rends[m[x]].parents
        decreases left
      {
        ghost var some := PickOne(left);
        var id :| id in left;
        m := m[id := i];
        left := left - {id};
      }
    }
  }

  /** The constructor: stops unless the rends pass every check. */
  method NewMaster<S(!new)>(rends: seq<Rend>, kins: set<int>, kinList: seq<int>,
                     net: Net<S>) returns (r: Outcome<Master<S>>)
    requires net.Valid() && (forall x | x in kins :: 0 <= x < |net.models|) && Lists(kinList, kins)
    requires rends != [] ==> rends[0].parents == {}
    ensures r.Ok? <==> Accepted(rends, |net.models|)
    ensures r.Ok? ==>
              && fresh(r.value) && r.value.rends == rends && r.value.kins == kins
              && r.value.kinList == kinList && r.value.net == net && r.value.Ready()
  {
    var accepted := CheckRends(rends, |net.models|);
    if !accepted { return Stop; }
    AcceptedTidy(rends, |net.models|);
    var clientrend := ClientRends(rends);
    forall x | 0 <= x < |net.models|
      ensures x in clientrend && Awaits(rends, clientrend[x], x)
    {
      assert IsParent(rends, x);
    }
    var m := new Master<S>(rends, kins, kinList, clientrend, net);
    return Ok(m);
  }
}
