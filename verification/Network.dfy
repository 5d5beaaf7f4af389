/**
 * Data movement between the master and its FMUs: outputs are requested, cached and turned
 * into inputs, while set, step and get messages stay queued until the next wait().
 */
module Network {
  import opened Wiring
  import opened RefValues
  import opened Simulators

  /** A get request asks for variables of one type. */
  datatype Message = Get(ty: Base, vars: set<Var>) | Set(assigns: seq<Assign>) | Step(t: real, dt: real)

  /** What handling one message does to the FMU. */
  function Handle<S>(m: Simulator<S>, s: S, msg: Message): S {
    match msg
    case Get(_, _) => s
    case Set(assigns) => SetAll(m, s, assigns)
    case Step(t, dt) => m.step(s, t, dt)
  }

  function HandleAll<S>(m: Simulator<S>, s: S, msgs: seq<Message>): S {
    if msgs == [] then s else HandleAll(m, Handle(m, s, msgs[0]), msgs[1..])
  }

  lemma {:induction false} HandleConcat<S>(m: Simulator<S>, s: S, a: seq<Message>, b: seq<Message>)
    ensures HandleAll(m, s, a + b) == HandleAll(m, HandleAll(m, s, a), b)
  {
    if a == [] {
      assert a + b == b;
    } else {
      assert (a + b)[1..] == a[1..] + b;
      HandleConcat(m, Handle(m, s, a[0]), a[1..], b);
    }
  }

  lemma HandleStep<S>(m: Simulator<S>, s: S, msgs: seq<Message>, t: real, dt: real)
    ensures HandleAll(m, s, msgs + [Step(t, dt)]) == m.step(HandleAll(m, s, msgs), t, dt)
  {
    HandleConcat(m, s, msgs, [Step(t, dt)]);
  }

  // ---- The reference semantics of one batch --------------------------------------------------

  /** The inputs of one type that the connections give FMU c, in list order, when the others are in these states. */
  function InputsOf<S>(models: seq<Simulator<S>>, conns: seq<Conn>, c: nat, ty: Base, states: seq<S>): seq<Assign>
    requires |states| == |models| && Wired(conns, |models|)
  {
    if conns == [] then []
    else
      InputsOf(models, conns[..|conns| - 1], c, ty, states) + Input(models, conns[|conns| - 1], c, ty, states)
  }

  function Input<S>(models: seq<Simulator<S>>, w: Conn, c: nat, ty: Base, states: seq<S>): seq<Assign>
    requires |states| == |models| && w.src < |models|
  {
    var v := Converted(w, Output(models[w.src], states[w.src], w.Source()));
    if w.dst == c && w.toType == ty && v.Ok? then [Assign(w.Target(), v.value)] else []
  }

  /** Inputs are sent by type: reals, integers, booleans, strings. */
  function Inputs<S>(models: seq<Simulator<S>>, conns: seq<Conn>, c: nat, states: seq<S>): seq<Assign>
    requires |states| == |models| && Wired(conns, |models|)
  {
    InputsOf(models, conns, c, RealB, states) + InputsOf(models, conns, c, IntB, states)
    + InputsOf(models, conns, c, BoolB, states) + InputsOf(models, conns, c, StrB, states)
  }

  /** FMU c reads the given states, has extra assignments made to it, and steps. */
  function Advance<S>(models: seq<Simulator<S>>, conns: seq<Conn>, c: nat, states: seq<S>, extra: seq<Assign>,
                      t: real, dt: real): S
    requires |states| == |models| && Wired(conns, |models|) && c < |models|
  {
    models[c].step(SetAll(models[c], SetAll(models[c], states[c], Inputs(models, conns, c, states)), extra), t, dt)
  }

  datatype Batch = Batch(ids: set<int>, extra: seq<seq<Assign>>)

  /** All members of a batch advance at once, each from the states before the batch. */
  function BatchStep<S>(models: seq<Simulator<S>>, conns: seq<Conn>, states: seq<S>, b: Batch, t: real,
                        dt: real): (r: seq<S>)
    requires |states| == |models| == |b.extra| && Wired(conns, |models|)
    ensures |r| == |states|
  {
    seq(|states|, c requires 0 <= c < |states| =>
      if c in b.ids then Advance(models, conns, c, states, b.extra[c], t, dt) else states[c])
  }

  /** No assignments besides the connected inputs. */
  function Nothing(n: nat): (r: seq<seq<Assign>>)
    ensures |r| == n
  {
    seq(n, _ => [])
  }

  predicate Sized(bs: seq<Batch>, n: nat) {
    forall i | 0 <= i < |bs| :: |bs[i].extra| == n
  }

  function RunBatches<S>(models: seq<Simulator<S>>, conns: seq<Conn>, states: seq<S>, bs: seq<Batch>, t: real,
                         dt: real): (r: seq<S>)
    requires |states| == |models| && Wired(conns, |models|) && Sized(bs, |models|)
    ensures |r| == |states|
  {
    if bs == [] then states
    else BatchStep(models, conns, RunBatches(models, conns, states, bs[..|bs| - 1], t, dt), bs[|bs| - 1], t, dt)
  }

  // ---- The plain loop over fresh caches computes the reference inputs ------------------------------

  /** The cached value that connection w reads is the output in the given states. */
  ghost predicate Fresh<S>(models: seq<Simulator<S>>, w: Conn, cache: seq<Cache>, states: seq<S>)
    requires |cache| == |states| == |models| && w.src < |models|
  {
    w.Source() in cache[w.src] && cache[w.src][w.Source()] == Output(models[w.src], states[w.src], w.Source())
  }

  ghost predicate AllFresh<S>(models: seq<Simulator<S>>, conns: seq<Conn>, ids: set<int>, cache: seq<Cache>,
                              states: seq<S>)
    requires |cache| == |states| == |models| && Wired(conns, |models|)
  {
    forall i | 0 <= i < |conns| && conns[i].dst in ids :: Fresh(models, conns[i], cache, states)
  }

  predicate AllConvertible(conns: seq<Conn>, ids: set<int>) {
    forall i | 0 <= i < |conns| && conns[i].dst in ids :: Convertible(conns[i])
  }

  /** The lists match type by type. */
  ghost predicate Matches<S>(x: SetX, models: seq<Simulator<S>>, conns: seq<Conn>, c: nat, states: seq<S>)
    requires |states| == |models| && Wired(conns, |models|)
  {
    && |x.realVrs| == |x.reals| && RealAssigns(x.realVrs, x.reals) == InputsOf(models, conns, c, RealB, states)
    && IntAssigns(x.ints) == InputsOf(models, conns, c, IntB, states)
    && BoolAssigns(x.bools) == InputsOf(models, conns, c, BoolB, states)
    && StringAssigns(x.strings) == InputsOf(models, conns, c, StrB, states)
  }

  lemma PushedAssigns(x: SetX, w: Conn, v: Val)
    requires |x.realVrs| == |x.reals| && HasType(v, w.toType) && w.toType != EnumB
    ensures var y, a := Pushed(x, w.toVR, v), [Assign(w.Target(), v)];
            && |y.realVrs| == |y.reals|
            && RealAssigns(y.realVrs, y.reals) == RealAssigns(x.realVrs, x.reals)
                + (if w.toType == RealB then a else [])
            && IntAssigns(y.ints) == IntAssigns(x.ints) + (if w.toType == IntB then a else [])
            && BoolAssigns(y.bools) == BoolAssigns(x.bools) + (if w.toType == BoolB then a else [])
            && StringAssigns(y.strings) == StringAssigns(x.strings) + (if w.toType == StrB then a else [])
  {
  }

  lemma {:induction false} CollectMatches<S>(models: seq<Simulator<S>>, conns: seq<Conn>, c: nat, cache: seq<Cache>,
                                             states: seq<S>)
    requires |cache| == |states| == |models| && Wired(conns, |models|) && AllFresh(models, conns, {c}, cache, states)
    requires AllConvertible(conns, {c})
    ensures Collect(conns, c, cache, NOTHING).Ok?
    ensures Matches(Collect(conns, c, cache, NOTHING).value, models, conns, c, states)
  {
    if conns != [] {
      var w, init := conns[|conns| - 1], conns[..|conns| - 1];
      CollectMatches(models, init, c, cache, states);
      if w.dst == c {
        assert Fresh(models, w, cache, states) && Convertible(w);
        ConvertedType(w, cache[w.src][w.Source()]);
        PushedAssigns(Collect(init, c, cache, NOTHING).value, w, Convert(w, cache).value);
      }
    }
  }

  /** A connection that cannot be converted stops the loop. */
  lemma {:induction false} CollectConvertible(conns: seq<Conn>, c: nat, cache: seq<Cache>)
    requires Wired(conns, |cache|) && Collect(conns, c, cache, NOTHING).Ok? && Typed(cache)
    ensures AllConvertible(conns, {c})
  {
    if conns != [] {
      var w, init := conns[|conns| - 1], conns[..|conns| - 1];
      CollectConvertible(init, c, cache);
      if w.dst == c { ConvertedType(w, cache[w.src][w.Source()]); }
    }
  }

  // ---- Requests ------------------------------------------------------------------------------------

  function OfType(vars: set<Var>, ty: Base): set<Var> {
    set v | v in vars && v.ty == ty
  }

  predicate NoEnum(vars: set<Var>) {
    forall v | v in vars :: v.ty != EnumB
  }

  function Ask(vars: set<Var>, ty: Base): seq<Message> {
    if OfType(vars, ty) == {} then [] else [Get(ty, OfType(vars, ty))]
  }

  /** One get request per type that has something to ask for. */
  function Request(vars: set<Var>): seq<Message> {
    Ask(vars, RealB) + Ask(vars, IntB) + Ask(vars, BoolB) + Ask(vars, StrB)
  }

  lemma RequestEmpty(vars: set<Var>)
    requires NoEnum(vars)
    ensures Request(vars) == [] <==> vars == {}
  {
    if vars != {} {
      var v :| v in vars;
      assert v in OfType(vars, v.ty);
      assert Ask(vars, v.ty) != [];
    }
  }

  lemma AskLess(vars: set<Var>, ty: Base, other: Base)
    ensures Ask(vars - OfType(vars, ty), other) == if other == ty then [] else Ask(vars, other)
  {
    assert OfType(vars - OfType(vars, ty), other) == if other == ty then {} else OfType(vars, other);
  }

  /** The requests after the first are those for the variables left. */
  lemma RequestNext(vars: set<Var>)
    requires Request(vars) != []
    ensures var g := Request(vars)[0];
            && g.Get? && g.vars == OfType(vars, g.ty) && g.vars != {}
            && Request(vars - OfType(vars, g.ty)) == Request(vars)[1..]
  {
    var ty := Request(vars)[0].ty;
    AskLess(vars, ty, RealB);
    AskLess(vars, ty, IntB);
    AskLess(vars, ty, BoolB);
    AskLess(vars, ty, StrB);
  }

  /** The reply to a get request. */
  function Answers<S>(m: Simulator<S>, s: S, vars: set<Var>): Cache {
    map v | v in vars :: Output(m, s, v)
  }

  lemma AnswersMore<S>(m: Simulator<S>, s: S, cache: Cache, a: set<Var>, b: set<Var>)
    ensures cache + Answers(m, s, a) + Answers(m, s, b) == cache + Answers(m, s, a + b)
    ensures cache + Answers(m, s, {}) == cache
  {
  }

  predicate NoGets(msgs: seq<Message>) {
    forall i | 0 <= i < |msgs| :: !msgs[i].Get?
  }

  function Setting(assigns: seq<Assign>): seq<Message> {
    if assigns == [] then [] else [Set(assigns)]
  }

  lemma SettingAll<S>(m: Simulator<S>, s: S, a: seq<Assign>, b: seq<Assign>, c: seq<Assign>, d: seq<Assign>)
    ensures NoGets(Setting(a) + Setting(b) + Setting(c) + Setting(d))
    ensures HandleAll(m, s, Setting(a) + Setting(b) + Setting(c) + Setting(d)) == SetAll(m, s, a + b + c + d)
  {
    HandleConcat(m, s, Setting(a) + Setting(b) + Setting(c), Setting(d));
    HandleConcat(m, s, Setting(a) + Setting(b), Setting(c));
    HandleConcat(m, s, Setting(a), Setting(b));
    SetAllConcat(m, s, a + b + c, d);
    SetAllConcat(m, s, a + b, c);
    SetAllConcat(m, s, a, b);
  }

  lemma SettingOne<S>(m: Simulator<S>, s: S, a: seq<Assign>)
    ensures NoGets(Setting(a)) && [] + Setting(a) == Setting(a)
    ensures HandleAll(m, s, Setting(a)) == SetAll(m, s, a)
  {
  }

  // ---- The pipelined implementation ------------------------------------------------------------

  class Net<S(!new)> {
    const models: seq<Simulator<S>>
    const conns: seq<Conn>
    const strong: seq<seq<int>>  // real outputs of kinematic connectors, per client
    const debug: bool            // debug build: cached values are not requested again, and are deleted when stale
    const table: RefTable        // simple and complex connections, and the lists of inputs

    var fmus: seq<S>             // the FMU states behind the servers
    var queue: seq<seq<Message>> // sent at the next wait()
    var cache: seq<Cache>
    var outgoing: seq<set<Var>>

    ghost predicate Shaped()
      reads this
    {
      && |fmus| == |queue| == |cache| == |outgoing| == |strong| == |models|
      && Wired(conns, |models|)
      && forall c | 0 <= c < |models| :: NoEnum(outgoing[c])
    }

    ghost predicate TableValid()
      reads table
    {
      table.Valid() && table.conns == conns && table.n == |models|
    }

    /** The FMU states once everything queued has been handled. */
    ghost function States(): (r: seq<S>)
      requires Shaped()
      reads this
      ensures |r| == |models|
    {
      seq(|models|, c requires 0 <= c < |models|
          && |fmus| == |queue| == |models| reads this => HandleAll(models[c], fmus[c], queue[c]))
    }

    /** In the debug build every cached value is the current output; no request is left in a queue. */
    ghost predicate Valid()
      reads this, table
    {
      && Shaped() && TableValid() && Typed(cache)
      && (forall c | 0 <= c < |models| :: NoGets(queue[c]))
      && (debug ==> forall c, v | 0 <= c < |models| && v in cache[c] ::
          cache[c][v] == Output(models[c], States()[c], v))
    }

    /** The FMUs obey the law of assignment, and no simple connection is hidden by a complex one before it. */
    ghost predicate Faithful() {
      forall c: nat | c < |models| :: Lawful(models[c]) && SplitSafe(conns, c)
    }

    constructor (models: seq<Simulator<S>>, conns: seq<Conn>, strong: seq<seq<int>>, debug: bool, fmus: seq<S>)
      requires |fmus| == |models| == |strong| && Wired(conns, |models|)
      ensures this.models == models && this.conns == conns && this.strong == strong && this.debug == debug
      ensures Valid() && States() == fmus && fresh(table)
    {
      this.models, this.conns, this.strong, this.debug, this.fmus := models, conns, strong, debug, fmus;
      table := new RefTable(conns, |models|);
      queue := seq(|models|, _ => []);
      cache := seq(|models|, _ => map[]);
      outgoing := seq(|models|, _ => {});
    }

    /** Client::queueReals and its siblings, in both build modes. */
    method QueueVars(c: nat, ty: Base, vrs: seq<int>)
      requires Shaped() && c < |models| && ty != EnumB
      modifies this`outgoing
      ensures Shaped() && old(outgoing)[c] <= outgoing[c]
      ensures forall d | 0 <= d < |models| && d != c :: outgoing[d] == old(outgoing)[d]
      ensures forall vr | vr in vrs :: Var(ty, vr) in outgoing[c] || (debug && Var(ty, vr) in cache[c])
    {
      var i := 0;
      while i < |vrs|
        invariant 0 <= i <= |vrs| && Shaped() && old(outgoing)[c] <= outgoing[c]
        invariant forall d | 0 <= d < |models| && d != c :: outgoing[d] == old(outgoing)[d]
        invariant forall j | 0 <= j < i :: Var(ty, vrs[j]) in outgoing[c] || (debug && Var(ty, vrs[j]) in cache[c])
      {
        if !debug || Var(ty, vrs[i]) !in cache[c] {
          outgoing := outgoing[c := outgoing[c] + {Var(ty, vrs[i])}];
        }
        i := i + 1;
      }
    }

    /** The value a connection needs is requested or, in the debug build, known. */
    ghost predicate Wanted(w: Conn)
      requires Shaped() && w.src < |models|
      reads this
    {
      w.Source() in outgoing[w.src] || (debug && w.Source() in cache[w.src])
    }

    /** Every value the given FMUs read is requested or known. */
    ghost predicate AllWanted(ids: set<int>)
      requires Shaped()
      reads this
    {
      forall i | 0 <= i < |conns| && conns[i].dst in ids :: Wanted(conns[i])
    }

    /** Requests what the given FMUs are about to read; stops at an enumeration. */
    method RequestInputs(ids: set<int>) returns (ok: bool)
      requires Shaped()
      modifies this`outgoing
      ensures Shaped()
      ensures !ok ==> !AllConvertible(conns, ids)
      ensures ok ==> AllWanted(ids)
    {
      var i := 0;
      while i < |conns|
        invariant 0 <= i <= |conns| && Shaped()
        invariant forall j | 0 <= j < i && conns[j].dst in ids :: Wanted(conns[j])
      {
        var w := conns[i];
        if w.dst in ids {
          if w.fromType == EnumB {
            assert !Convertible(conns[i]);
            return false;
          }
          QueueVars(w.src, w.fromType, [w.fromVR]);
          assert w.fromVR in [w.fromVR];
        }
        i := i + 1;
      }
      return true;
    }

    method RequestStrong(ids: set<int>)
      requires Shaped()
      modifies this`outgoing
      ensures Shaped()
      ensures forall c | 0 <= c < |models| :: old(outgoing)[c] <= outgoing[c]
    {
      for c := 0 to |models|
        invariant Shaped() && forall d | 0 <= d < |models| :: old(outgoing)[d] <= outgoing[d]
      {
        if c in ids {
          QueueVars(c, RealB, strong[c]);
        }
      }
    }

    /** The connected outputs and, for a kinematic step, the connectors' own values. */
    method RequestAll(ids: set<int>, alsoStrong: bool) returns (ok: bool)
      requires Shaped()
      modifies this`outgoing
      ensures Shaped()
      ensures !ok ==> !AllConvertible(conns, ids)
      ensures ok ==> AllWanted(ids)
    {
      ok := RequestInputs(ids);
      if ok && alsoStrong {
        ghost var asked := outgoing;
        RequestStrong(ids);
        forall i | 0 <= i < |conns| && conns[i].dst in ids ensures Wanted(conns[i]) {
          assert conns[i].Source() in asked[conns[i].src] ==> conns[i].Source() in outgoing[conns[i].src];
        }
      }
    }

    /** One get request per client and type that has something to ask for. */
    method QueueValueRequests()
      requires Shaped()
      modifies this`queue
      ensures Shaped()
      ensures forall c | 0 <= c < |models| :: queue[c] == old(queue)[c] + Request(outgoing[c])
    {
      for c := 0 to |models|
        invariant Shaped()
        invariant forall d | 0 <= d < c :: queue[d] == old(queue)[d] + Request(outgoing[d])
        invariant forall d | c <= d < |models| :: queue[d] == old(queue)[d]
      {
        QueueOne(c, RealB);
        QueueOne(c, IntB);
        QueueOne(c, BoolB);
        QueueOne(c, StrB);
      }
    }

    method QueueOne(c: nat, ty: Base)
      requires Shaped() && c < |models|
      modifies this`queue
      ensures Shaped() && queue == old(queue)[c := old(queue)[c] + Ask(outgoing[c], ty)]
    {
      if OfType(outgoing[c], ty) != {} {
        queue := queue[c := queue[c] + [Get(ty, OfType(outgoing[c], ty))]];
      } else {
        assert queue[c] + [] == queue[c];
      }
    }

    /** Handles the replies to the requests at the end of one client's queue. */
    method ReadReplies(c: nat)
      requires Shaped() && c < |models| && queue[c] == Request(outgoing[c])
      modifies this`queue, this`cache, this`outgoing
      ensures Shaped()
      ensures queue == old(queue)[c := []] && outgoing == old(outgoing)[c := {}]
      ensures cache == old(cache)[c := old(cache)[c] + Answers(models[c], fmus[c], old(outgoing)[c])]
    {
      ghost var asked := outgoing[c];
      AnswersMore(models[c], fmus[c], cache[c], {}, {});
      RequestEmpty(outgoing[c]);
      while queue[c] != []
        invariant Shaped() && outgoing[c] <= asked && queue[c] == Request(outgoing[c])
        invariant queue == old(queue)[c := queue[c]] && outgoing == old(outgoing)[c := outgoing[c]]
        invariant cache == old(cache)[c := old(cache)[c] + Answers(models[c], fmus[c], asked - outgoing[c])]
        decreases |queue[c]|
      {
        RequestNext(outgoing[c]);
        var msg := queue[c][0];
        AnswersMore(models[c], fmus[c], old(cache)[c], asked - outgoing[c], msg.vars);
        assert asked - outgoing[c] + msg.vars == asked - (outgoing[c] - msg.vars);
        cache := cache[c := cache[c] + Answers(models[c], fmus[c], msg.vars)];
        outgoing := outgoing[c := outgoing[c] - OfType(outgoing[c], msg.ty)];
        queue := queue[c := queue[c][1..]];
      }
      RequestEmpty(outgoing[c]);
      assert asked - {} == asked;
    }

    /** The server handles the sets and steps at the front of one client's queue. */
    method Deliver(c: nat, ghost before: seq<Message>)
      requires Shaped() && c < |models|
      requires NoGets(before) && queue[c] == before + Request(outgoing[c])
      modifies this`fmus, this`queue
      ensures Shaped()
      ensures fmus == old(fmus)[c := HandleAll(models[c], old(fmus)[c], before)]
      ensures queue == old(queue)[c := Request(outgoing[c])]
    {
      ghost var left, asked := before, Request(outgoing[c]);
      OnlyGets(outgoing[c]);
      while queue[c] != [] && !queue[c][0].Get?
        invariant Shaped() && NoGets(left)
        invariant queue == old(queue)[c := left + asked] && fmus == old(fmus)[c := fmus[c]]
        invariant HandleAll(models[c], fmus[c], left) == HandleAll(models[c], old(fmus)[c], before)
        decreases |queue[c]|
      {
        NextLeft(left, asked);
        fmus := fmus[c := Handle(models[c], fmus[c], queue[c][0])];
        queue := queue[c := queue[c][1..]];
        left := left[1..];
      }
      LeftGets(left, asked);
      assert left + asked == asked;
    }

    /** Sends one client's queue and handles the replies in order. */
    method Flush(c: nat, ghost before: seq<Message>)
      requires Shaped() && c < |models|
      requires NoGets(before) && queue[c] == before + Request(outgoing[c])
      modifies this`fmus, this`queue, this`cache, this`outgoing
      ensures Shaped()
      ensures fmus == old(fmus)[c := HandleAll(models[c], old(fmus)[c], before)]
      ensures queue == old(queue)[c := []] && outgoing == old(outgoing)[c := {}]
      ensures cache == old(cache)[c := old(cache)[c] + Answers(models[c], fmus[c], old(outgoing)[c])]
    {
      Deliver(c, before);
      ReadReplies(c);
    }

    /** BaseMaster::wait: every queue is sent and every reply handled. */
    method Wait(ghost before: seq<seq<Message>>)
      requires Shaped() && |before| == |models|
      requires forall c | 0 <= c < |models| :: NoGets(before[c]) && queue[c] == before[c] + Request(outgoing[c])
      modifies this`fmus, this`queue, this`cache, this`outgoing
      ensures Shaped()
      ensures forall c | 0 <= c < |models| :: fmus[c] == HandleAll(models[c], old(fmus)[c], before[c])
      ensures forall c | 0 <= c < |models| :: queue[c] == [] && outgoing[c] == {}
      ensures forall c | 0 <= c < |models| ::
                cache[c] == old(cache)[c] + Answers(models[c], fmus[c], old(outgoing)[c])
    {
      for c := 0 to |models|
        invariant Shaped()
        invariant forall d | 0 <= d < c :: fmus[d] == HandleAll(models[d], old(fmus)[d], before[d])
        invariant forall d | 0 <= d < c :: queue[d] == [] && outgoing[d] == {}
        invariant forall d | 0 <= d < c ::
                    cache[d] == old(cache)[d] + Answers(models[d], fmus[d], old(outgoing)[d])
        invariant forall d | c <= d < |models| ::
                    && fmus[d] == old(fmus)[d] && queue[d] == old(queue)[d]
                    && cache[d] == old(cache)[d] && outgoing[d] == old(outgoing)[d]
      {
        Flush(c, before[c]);
      }
    }

    /** Every cached value is the current output. */
    ghost predicate Current()
      requires |cache| == |fmus| == |models|
      reads this
    {
      forall c, v | 0 <= c < |models| && v in cache[c] :: cache[c][v] == Output(models[c], fmus[c], v)
    }

    /** A wanted value is fresh once the reply is in. */
    method Await(ids: set<int>)
      requires Valid() && AllWanted(ids)
      modifies this`fmus, this`queue, this`cache, this`outgoing
      ensures Shaped() && Typed(cache) && fmus == old(States())
      ensures forall c | 0 <= c < |models| :: queue[c] == [] && outgoing[c] == {}
      ensures debug ==> Current()
      ensures AllFresh(models, conns, ids, cache, fmus)
    {
      QueueValueRequests();
      Wait(old(queue));
      forall i | 0 <= i < |conns| && conns[i].dst in ids
        ensures Fresh(models, conns[i], cache, fmus)
      {
        var w := conns[i];
        assert w.Source() in old(outgoing)[w.src] || (debug && w.Source() in old(cache)[w.src]);
      }
    }

    /** Requests, sends and awaits everything the given FMUs read. */
    method Fetch(ids: set<int>, alsoStrong: bool) returns (ok: bool)
      requires Valid()
      modifies this`fmus, this`queue, this`cache, this`outgoing
      ensures !ok ==> !AllConvertible(conns, ids)
      ensures ok ==> Shaped() && Typed(cache) && fmus == old(States()) && AllFresh(models, conns, ids, cache, fmus)
      ensures ok ==> forall c | 0 <= c < |models| :: queue[c] == [] && outgoing[c] == {}
      ensures ok && debug ==> Current()
    {
      ok := RequestAll(ids, alsoStrong);
      if !ok { return; }
      assert States() == old(States());
      Await(ids);
    }

    /** initRefValues and the complex connections: what the batch is about to be sent. */
    method CollectInputs(ids: set<int>) returns (ok: bool)
      requires Shaped() && TableValid() && Typed(cache) && AllFresh(models, conns, ids, cache, fmus)
      modifies this`cache, table
      ensures cache == old(cache) && TableValid()
      ensures ok <==> AllConvertible(conns, ids)
      ensures ok ==> forall c: nat | c < |models| && c in ids :: |table.refs[c].realVrs| == |table.refs[c].reals|
      ensures ok && Faithful() ==> forall c: nat | c < |models| && c in ids ::
                SetAll(models[c], fmus[c], Assigns(table.refs[c]))
                    == SetAll(models[c], fmus[c], Inputs(models, conns, c, fmus))
    {
      AllCachedWhenFresh(models, conns, ids, cache, fmus);
      ok, cache := table.Refresh(ids, cache);
      forall c: nat | c < |models| && c in ids
        ensures Collect(conns, c, cache, NOTHING).Ok? <==> AllConvertible(conns, {c})
        ensures ok && Faithful() ==>
                  SetAll(models[c], fmus[c], Assigns(table.refs[c]))
                      == SetAll(models[c], fmus[c], Inputs(models, conns, c, fmus))
      {
        if Collect(conns, c, cache, NOTHING).Ok? { CollectConvertible(conns, c, cache); }
        if AllConvertible(conns, {c}) {
          CollectMatches(models, conns, c, cache, fmus);
          if ok && Faithful() {
            SameEffectSameState(models[c], fmus[c], table.refs[c], Collect(conns, c, cache, NOTHING).value);
          }
        }
      }
      assert AllConvertible(conns, ids) <==> forall c: nat | c < |models| && c in ids :: AllConvertible(conns, {c});
    }

    method Send(c: nat, assigns: seq<Assign>)
      requires Shaped() && c < |models|
      modifies this`queue
      ensures Shaped() && queue == old(queue)[c := old(queue)[c] + Setting(assigns)]
    {
      if assigns != [] {
        queue := queue[c := queue[c] + [Set(assigns)]];
      } else {
        assert queue[c] + [] == queue[c];
      }
    }

    /** FMIClient::sendSetX: one message per type that has inputs. */
    method SendInputs(c: nat)
      requires Shaped() && TableValid() && c < |models| && queue[c] == []
      modifies this`queue
      ensures Shaped() && queue == old(queue)[c := queue[c]] && NoGets(queue[c])
      ensures |table.refs[c].realVrs| == |table.refs[c].reals|
      ensures HandleAll(models[c], fmus[c], queue[c]) == SetAll(models[c], fmus[c], Assigns(table.refs[c]))
    {
      var x := table.refs[c];
      assert Leftover(x, table.simpleVrs[c], table.conns, c);
      SettingAll(models[c], fmus[c], RealAssigns(x.realVrs, x.reals), IntAssigns(x.ints), BoolAssigns(x.bools),
          StringAssigns(x.strings));
      SendFour(c, RealAssigns(x.realVrs, x.reals), IntAssigns(x.ints), BoolAssigns(x.bools), StringAssigns(x.strings));
    }

    method SendFour(c: nat, reals: seq<Assign>, ints: seq<Assign>, bools: seq<Assign>, strs: seq<Assign>)
      requires Shaped() && c < |models| && queue[c] == []
      modifies this`queue
      ensures queue == old(queue)[c := Setting(reals) + Setting(ints) + Setting(bools) + Setting(strs)]
    {
      assert [] + Setting(reals) == Setting(reals);
      Send(c, reals);
      Send(c, ints);
      Send(c, bools);
      Send(c, strs);
    }

    /** The state to which the inputs in the table take FMU c. */
    ghost function WithInputs(c: nat): S
      requires Shaped() && c < |models| && c < |table.refs| && |table.refs[c].realVrs| == |table.refs[c].reals|
      reads this, table
    {
      SetAll(models[c], fmus[c], Assigns(table.refs[c]))
    }

    /** The lists in the table can be sent. */
    ghost predicate Sendable()
      reads table
    {
      |table.refs| == |models| && forall c: nat | c < |models| :: |table.refs[c].realVrs| == |table.refs[c].reals|
    }

    /** The queues once the inputs, and a step if wanted, went to those of the first n FMUs that are in ids. */
    ghost predicate Distributed(n: nat, ids: set<int>, step: bool, t: real, dt: real)
      requires Shaped() && n <= |models| && Sendable()
      reads this, table
    {
      && (forall c: nat | c < n :: NoGets(queue[c]))
      && (forall c: nat | c < n ::
            HandleAll(models[c], fmus[c], queue[c])
            == if c !in ids then fmus[c] else if step then models[c].step(WithInputs(c), t, dt) else WithInputs(c))
      && forall c: nat | n <= c < |models| :: queue[c] == []
    }

    /** Inputs, and in crankIt the step, to every FMU of the batch. */
    method Distribute(ids: set<int>, step: bool, t: real, dt: real)
      requires Shaped() && TableValid() && Sendable() && forall c: nat | c < |models| :: queue[c] == []
      modifies this`queue
      ensures Shaped() && Distributed(|models|, ids, step, t, dt)
    {
      for c := 0 to |models|
        invariant Shaped() && Distributed(c, ids, step, t, dt)
      {
        if c in ids {
          SendInputs(c);
          if step {
            HandleStep(models[c], fmus[c], queue[c], t, dt);
            queue := queue[c := queue[c] + [Step(t, dt)]];
          }
        }
      }
    }

    lemma TableSendable()
      requires TableValid()
      ensures Sendable()
    {
      forall c: nat | c < |models| ensures |table.refs[c].realVrs| == |table.refs[c].reals| {
        assert Leftover(table.refs[c], table.simpleVrs[c], table.conns, c);
      }
    }

    /** deleteCachedValues: the stepped FMUs' cached values are stale. */
    method Forget(ids: set<int>)
      requires Shaped()
      modifies this`cache
      ensures Shaped()
      ensures debug ==> forall c | 0 <= c < |models| :: cache[c] == if c in ids then map[] else old(cache)[c]
      ensures !debug ==> cache == old(cache)
    {
      if debug {
        for c := 0 to |models|
          invariant Shaped()
          invariant forall d | 0 <= d < c :: cache[d] == if d in ids then map[] else old(cache)[d]
          invariant forall d | c <= d < |models| :: cache[d] == old(cache)[d]
        {
          if c in ids {
            cache := cache[c := map[]];
          }
        }
      }
    }

    /**
     * The part of crankIt that moves data: fetch, distribute inputs, step, forget. It stops
     * exactly if a connection of the batch cannot be converted.
     */
    method Crank(ids: set<int>, t: real, dt: real) returns (ok: bool)
      requires Valid()
      modifies this`fmus, this`queue, this`cache, this`outgoing, table
      ensures ok <==> AllConvertible(conns, ids)
      ensures ok ==> Valid()
      ensures ok && Faithful() ==>
              States() == BatchStep(models, conns, old(States()), Batch(ids, Nothing(|models|)), t, dt)
    {
      ok := Fetch(ids, false);
      if !ok { return; }
      ghost var states := fmus;
      ok := CollectInputs(ids);
      if !ok { return; }
      TableSendable();
      Distribute(ids, true, t, dt);
      if Faithful() {
        assert States() == BatchStep(models, conns, states, Batch(ids, Nothing(|models|)), t, dt);
      }
      Forget(ids);
    }

    /**
     * The kinematic request. Its look-ahead is rolled back by the server, so that setting the
     * inputs is its only lasting effect.
     */
    method LookAhead(ids: set<int>) returns (ok: bool)
      requires Valid()
      modifies this`fmus, this`queue, this`cache, this`outgoing, table
      ensures ok <==> AllConvertible(conns, ids)
      ensures ok ==> Shaped() && TableValid() && Typed(cache)
      ensures ok ==> forall c | 0 <= c < |models| :: queue[c] == []
      ensures ok && Faithful() ==> forall c | 0 <= c < |models| && c in ids ::
                fmus[c] == SetAll(models[c], old(States())[c], Inputs(models, conns, c, old(States())))
      ensures ok ==> forall c | 0 <= c < |models| && c !in ids :: fmus[c] == old(States())[c]
      ensures ok && debug ==> forall c, v | 0 <= c < |models| && c !in ids && v in cache[c] ::
                cache[c][v] == Output(models[c], fmus[c], v)
    {
      ok := Fetch(ids, true);
      if !ok { return; }
      ghost var states, k := fmus, cache;
      ok := CollectInputs(ids);
      if !ok { return; }
      TableSendable();
      Distribute(ids, false, 0.0, 0.0);
      NothingAsked();
      Wait(queue);
      forall c | 0 <= c < |models|
        ensures cache[c] == k[c]
      {
        AnswersMore(models[c], fmus[c], k[c], {}, {});
      }
    }

    lemma NothingAsked()
      requires Shaped() && forall c | 0 <= c < |models| :: outgoing[c] == {}
      ensures forall c | 0 <= c < |models| :: queue[c] + Request(outgoing[c]) == queue[c]
    {
      RequestEmpty({});
    }

    /** Forces and the step command for one FMU. */
    method SendForces(c: nat, force: seq<Assign>, t: real, dt: real)
      requires Shaped() && c < |models| && queue[c] == []
      modifies this`queue
      ensures Shaped() && queue == old(queue)[c := queue[c]] && NoGets(queue[c])
      ensures HandleAll(models[c], fmus[c], queue[c]) == models[c].step(SetAll(models[c], fmus[c], force), t, dt)
    {
      SettingOne(models[c], fmus[c], force);
      Send(c, force);
      HandleStep(models[c], fmus[c], queue[c], t, dt);
      queue := queue[c := queue[c] + [Step(t, dt)]];
    }

    /** The queues after the forces are sent, for the first n FMUs. */
    ghost predicate Driven(n: nat, ids: set<int>, forces: seq<seq<Assign>>, t: real, dt: real)
      requires Shaped() && n <= |models| == |forces|
      reads this
    {
      && (forall c | 0 <= c < n :: NoGets(queue[c]))
      && (forall c | 0 <= c < n ::
            HandleAll(models[c], fmus[c], queue[c])
            == if c in ids then models[c].step(SetAll(models[c], fmus[c], forces[c]), t, dt) else fmus[c])
      && forall c | n <= c < |models| :: queue[c] == []
    }

    method SendAllForces(ids: set<int>, forces: seq<seq<Assign>>, t: real, dt: real)
      requires Shaped() && |forces| == |models| && forall c | 0 <= c < |models| :: queue[c] == []
      modifies this`queue
      ensures Shaped() && Driven(|models|, ids, forces, t, dt)
    {
      for c := 0 to |models|
        invariant Shaped() && Driven(c, ids, forces, t, dt)
      {
        if c in ids {
          SendForces(c, forces[c], t, dt);
        }
      }
    }

    /** The part of stepKinematicFmus that moves data; the forces are whatever the solver found. */
    method StepKinematic(ids: set<int>, forces: seq<seq<Assign>>, t: real, dt: real) returns (ok: bool)
      requires Valid() && |forces| == |models|
      modifies this`fmus, this`queue, this`cache, this`outgoing, table
      ensures ok <==> AllConvertible(conns, ids)
      ensures ok ==> Valid()
      ensures ok && Faithful() ==> States() == BatchStep(models, conns, old(States()), Batch(ids, forces), t, dt)
    {
      ghost var states := States();
      ok := LookAhead(ids);
      if !ok { return; }
      SendAllForces(ids, forces, t, dt);
      if Faithful() {
        assert States() == BatchStep(models, conns, states, Batch(ids, forces), t, dt);
      }
      Forget(ids);
    }

    /** The end of runIteration: ask early for what the next step reads first. */
    method Prefetch(first: set<int>, all: set<int>) returns (ok: bool)
      requires Valid()
      modifies this`outgoing
      ensures Valid() && States() == old(States())
      ensures !ok ==> !AllConvertible(conns, first)
    {
      ok := RequestInputs(first);
      if ok { RequestStrong(all); }
    }
  }

  lemma OnlyGets(vars: set<Var>)
    ensures forall i | 0 <= i < |Request(vars)| :: Request(vars)[i].Get?
  {
  }

  lemma NextLeft(left: seq<Message>, asked: seq<Message>)
    requires (forall i | 0 <= i < |asked| :: asked[i].Get?) && left + asked != [] && !(left + asked)[0].Get?
    ensures left != [] && (left + asked)[0] == left[0] && (left + asked)[1..] == left[1..] + asked
  {
    assert left == [] ==> left + asked == asked;
  }

  lemma LeftGets(left: seq<Message>, requests: seq<Message>)
    requires NoGets(left) && (left + requests != [] ==> (left + requests)[0].Get?)
    ensures left == []
  {
  }

  lemma AllCachedWhenFresh<S>(models: seq<Simulator<S>>, conns: seq<Conn>, ids: set<int>, cache: seq<Cache>,
                              states: seq<S>)
    requires |cache| == |states| == |models| && Wired(conns, |models|) && AllFresh(models, conns, ids, cache, states)
    ensures BatchCached(conns, ids, |models|, cache)
  {
  }
}
