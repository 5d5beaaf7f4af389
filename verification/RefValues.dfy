/** Turning cached outputs into inputs: the plain loop, and the split into simple and complex connections. */
module RefValues {
  import opened Options
  import opened Wiring

  /** SendSetXType: what is about to be set on one client, in sending order. */
  datatype SetX = SetX(realVrs: seq<int>, reals: seq<real>, ints: seq<(int, int)>, bools: seq<(int, bool)>,
      strings: seq<(int, string)>)

  const NOTHING := SetX([], [], [], [], [])

  lemma ConvertType(w: Conn, caches: seq<Cache>)
    requires w.src < |caches| && Convert(w, caches).Ok?
    ensures HasType(Convert(w, caches).value, w.toType) && w.toType != EnumB
  {
    ConvertedType(w, caches[w.src][w.Source()]);
  }

  function Pushed(x: SetX, vr: int, v: Val): SetX {
    match v
    case RealV(r) => x.(realVrs := x.realVrs + [vr], reals := x.reals + [r])
    case IntV(i) => x.(ints := x.ints + [(vr, i)])
    case BoolV(b) => x.(bools := x.bools + [(vr, b)])
    case StrV(s) => x.(strings := x.strings + [(vr, s)])
  }

  /** x followed by what the connections deliver to client c, in list order. */
  function Collect(conns: seq<Conn>, c: nat, caches: seq<Cache>, x: SetX): Outcome<SetX>
    requires Wired(conns, |caches|)
  {
    if conns == [] then Ok(x)
    else
      Delivery(Collect(conns[..|conns| - 1], c, caches, x), conns[|conns| - 1], c, caches)
  }

  /** What connection w adds, if it leads to client c. */
  function Delivery(before: Outcome<SetX>, w: Conn, c: nat, caches: seq<Cache>): Outcome<SetX>
    requires w.src < |caches|
  {
    if before.Stop? || w.dst != c then before
    else
      var v := Convert(w, caches);
      if v.Stop? then Stop else Ok(Pushed(before.value, w.toVR, v.value))
  }

  /** getInputWeakRefsAndValues_inner: appends to the lists of the clients in cset. */
  method AppendInputs(conns: seq<Conn>, cset: set<int>, caches: seq<Cache>,
                      refs: seq<SetX>) returns (r: Outcome<seq<SetX>>)
    requires Wired(conns, |caches|) && |refs| == |caches|
    ensures r.Ok? <==> forall c | 0 <= c < |refs| && c in cset :: Collect(conns, c, caches, refs[c]).Ok?
    ensures r.Ok? ==> |r.value| == |refs|
    ensures r.Ok? ==> forall c | 0 <= c < |refs| ::
                        r.value[c] == if c in cset then Collect(conns, c, caches, refs[c]).value else refs[c]
  {
    var out, i := refs, 0;
    while i < |conns|
      invariant 0 <= i <= |conns| && |out| == |refs|
      invariant forall c | 0 <= c < |refs| && c in cset ::
                  Collect(conns[..i], c, caches, refs[c]) == Ok(out[c])
      invariant forall c | 0 <= c < |refs| && c !in cset :: out[c] == refs[c]
    {
      var w := conns[i];
      assert conns[..i + 1][..i] == conns[..i];
      if w.dst in cset {
        var v := Convert(w, caches);
        if v.Stop? {
          CollectStops(conns, i + 1, w.dst, caches, refs[w.dst]);
          return Stop;
        }
        out := out[w.dst := Pushed(out[w.dst], w.toVR, v.value)];
      }
      i := i + 1;
    }
    assert conns[..i] == conns;
    return Ok(out);
  }

  lemma {:induction false} CollectStops(conns: seq<Conn>, k: nat, c: nat, caches: seq<Cache>, x: SetX)
    requires Wired(conns, |caches|) && k <= |conns| && Collect(conns[..k], c, caches, x).Stop?
    ensures Collect(conns, c, caches, x).Stop?
    decreases |conns|
  {
    if k < |conns| {
      assert conns[..|conns| - 1][..k] == conns[..k];
      CollectStops(conns[..|conns| - 1], k, c, caches, x);
    } else {
      assert conns[..k] == conns;
    }
  }

  // ---- The split ------------------------------------------------------------------------------------

  predicate IsSimple(w: Conn) {
    w.fromType == RealB && w.toType == RealB && w.slope == 1.0 && w.intercept == 0.0
  }

  function SimpleOf(conns: seq<Conn>, c: nat): (r: seq<Conn>) {
    if conns == [] then []
    else
      var w := conns[|conns| - 1];
      SimpleOf(conns[..|conns| - 1], c) + if IsSimple(w) && w.dst == c then [w] else []
  }

  function ComplexOf(conns: seq<Conn>): seq<Conn> {
    if conns == [] then []
    else
      var w := conns[|conns| - 1];
      ComplexOf(conns[..|conns| - 1]) + if IsSimple(w) then [] else [w]
  }

  /** What the last write to vr leaves there. */
  function LastWrite(vrs: seq<int>, values: seq<real>, vr: int): Option<real>
    requires |vrs| == |values|
  {
    if vrs == [] then None
    else if vrs[|vrs| - 1] == vr then Some(values[|vrs| - 1])
    else LastWrite(vrs[..|vrs| - 1], values[..|vrs| - 1], vr)
  }

  /** The same assignments in effect: equal lists, except that only the last write to a real counts. */
  ghost predicate SameEffect(x: SetX, y: SetX) {
    && x.ints == y.ints && x.bools == y.bools && x.strings == y.strings
    && |x.realVrs| == |x.reals| && |y.realVrs| == |y.reals|
    && forall vr :: LastWrite(x.realVrs, x.reals, vr) == LastWrite(y.realVrs, y.reals, vr)
  }

  /** The last connection to real input vr of client c. */
  function LastTo(conns: seq<Conn>, c: nat, vr: int): Option<Conn> {
    if conns == [] then None
    else
      var w := conns[|conns| - 1];
      if w.dst == c && w.toType == RealB && w.toVR == vr then Some(w) else LastTo(conns[..|conns| - 1], c, vr)
  }

  lemma {:induction false} LastToIsMember(conns: seq<Conn>, c: nat, vr: int)
    requires LastTo(conns, c, vr).Some?
    ensures var w := LastTo(conns, c, vr).value; w in conns && w.dst == c && w.toType == RealB && w.toVR == vr
  {
    var w := conns[|conns| - 1];
    if w.dst != c || w.toType != RealB || w.toVR != vr { LastToIsMember(conns[..|conns| - 1], c, vr); }
  }

  /** The real that w delivers, if it does deliver one. */
  function Delivered(w: Conn, caches: seq<Cache>): real
    requires w.src < |caches|
  {
    var v := Convert(w, caches);
    if v.Ok? && v.value.RealV? then v.value.r else 0.0
  }

  /** The last connection to an input decides it; without any, what was in x does. */
  lemma {:induction false} CollectLast(conns: seq<Conn>, c: nat, caches: seq<Cache>, x: SetX, vr: int)
    requires Wired(conns, |caches|) && |x.realVrs| == |x.reals| && Collect(conns, c, caches, x).Ok?
    ensures var y := Collect(conns, c, caches, x).value; |y.realVrs| == |y.reals|
    ensures var y, l := Collect(conns, c, caches, x).value, LastTo(conns, c, vr);
            if l.Some? then l.value.src < |caches|
                && LastWrite(y.realVrs, y.reals, vr) == Some(Delivered(l.value, caches))
            else LastWrite(y.realVrs, y.reals, vr) == LastWrite(x.realVrs, x.reals, vr)
  {
    if conns != [] {
      var w, init := conns[|conns| - 1], conns[..|conns| - 1];
      CollectLast(init, c, caches, x, vr);
      if w.dst == c {
        ConvertType(w, caches);
        var b, y := Collect(init, c, caches, x).value, Collect(conns, c, caches, x).value;
        if w.toType == RealB {
          assert y.realVrs[..|y.realVrs| - 1] == b.realVrs && y.reals[..|y.realVrs| - 1] == b.reals;
        }
      }
    }
  }

  /** A real is cached for the source of w. */
  predicate Cached(w: Conn, caches: seq<Cache>)
    requires w.src < |caches|
  {
    w.Source() in caches[w.src] && caches[w.src][w.Source()].RealV?
  }

  /** Every simple connection to client c has its source cached. */
  predicate SimpleCached(conns: seq<Conn>, c: nat, caches: seq<Cache>)
    requires Wired(conns, |caches|)
  {
    forall i | 0 <= i < |conns| && conns[i].dst == c && IsSimple(conns[i]) :: Cached(conns[i], caches)
  }

  /** Both stopped, or both went on with the same integers, booleans and strings. */
  predicate SameButReals(a: Outcome<SetX>, b: Outcome<SetX>) {
    if a.Stop? then b.Stop?
    else b.Ok? && a.value.ints == b.value.ints && a.value.bools == b.value.bools && a.value.strings == b.value.strings
  }

  lemma DeliverySame(a: Outcome<SetX>, b: Outcome<SetX>, w: Conn, c: nat, caches: seq<Cache>)
    requires w.src < |caches| && SameButReals(a, b)
    ensures SameButReals(Delivery(a, w, c, caches), Delivery(b, w, c, caches))
    ensures IsSimple(w) && (w.dst == c ==> Cached(w, caches)) ==> SameButReals(a, Delivery(b, w, c, caches))
  {
  }

  /** Leaving out the simple connections changes neither the other types nor whether it stops. */
  lemma {:induction false} CollectComplex(conns: seq<Conn>, c: nat, caches: seq<Cache>, x: SetX, y: SetX)
    requires Wired(conns, |caches|) && Wired(ComplexOf(conns), |caches|) && SameButReals(Ok(x), Ok(y))
    requires SimpleCached(conns, c, caches)
    ensures SameButReals(Collect(ComplexOf(conns), c, caches, x), Collect(conns, c, caches, y))
  {
    if conns != [] {
      var w, init := conns[|conns| - 1], conns[..|conns| - 1];
      SplitWired(init, c, |caches|);
      CollectComplex(init, c, caches, x, y);
      DeliverySame(Collect(ComplexOf(init), c, caches, x), Collect(init, c, caches, y), w, c, caches);
      if IsSimple(w) {
        assert ComplexOf(conns) == ComplexOf(init);
      } else {
        assert ComplexOf(conns)[..|ComplexOf(init)|] == ComplexOf(init);
      }
    }
  }

  lemma {:induction false} SplitWired(conns: seq<Conn>, c: nat, n: nat)
    requires Wired(conns, n)
    ensures Wired(ComplexOf(conns), n) && Wired(SimpleOf(conns, c), n)
  {
    if conns != [] { SplitWired(conns[..|conns| - 1], c, n); }
  }

  lemma {:induction false} SplitMembers(conns: seq<Conn>, c: nat)
    ensures forall w | w in ComplexOf(conns) :: w in conns && !IsSimple(w)
    ensures forall w | w in SimpleOf(conns, c) :: w in conns && IsSimple(w) && w.dst == c
  {
    if conns != [] { SplitMembers(conns[..|conns| - 1], c); }
  }

  /** The last connection to an input is the last of its own kind. */
  lemma {:induction false} LastOfSplit(conns: seq<Conn>, c: nat, vr: int)
    ensures var l := LastTo(conns, c, vr);
            && (l.Some? ==> l == LastTo(if IsSimple(l.value) then SimpleOf(conns, c) else ComplexOf(conns), c, vr))
            && (l.None? ==> LastTo(SimpleOf(conns, c), c, vr).None? && LastTo(ComplexOf(conns), c, vr).None?)
  {
    if conns != [] {
      var w, init := conns[|conns| - 1], conns[..|conns| - 1];
      LastOfSplit(init, c, vr);
      if IsSimple(w) {
        assert ComplexOf(conns) == ComplexOf(init);
        if w.dst == c {
          assert SimpleOf(conns, c)[..|SimpleOf(init, c)|] == SimpleOf(init, c);
        } else {
          assert SimpleOf(conns, c) == SimpleOf(init, c);
        }
      } else {
        assert ComplexOf(conns)[..|ComplexOf(init)|] == ComplexOf(init);
        assert SimpleOf(conns, c) == SimpleOf(init, c);
      }
    }
  }

  /** An input that a complex connection is wired to has a complex one as its last. */
  ghost predicate SplitSafe(conns: seq<Conn>, c: nat) {
    forall vr | LastTo(ComplexOf(conns), c, vr).Some? ::
        LastTo(conns, c, vr).Some? && !IsSimple(LastTo(conns, c, vr).value)
  }

  /** No two connections to the same input. */
  predicate DistinctTargets(conns: seq<Conn>) {
    forall i, j | 0 <= i < j < |conns| && conns[i].dst == conns[j].dst
        && conns[i].toType == conns[j].toType :: conns[i].toVR != conns[j].toVR
  }

  lemma DistinctIsSafe(conns: seq<Conn>, c: nat)
    requires DistinctTargets(conns)
    ensures SplitSafe(conns, c)
  {
    forall vr | LastTo(ComplexOf(conns), c, vr).Some?
      ensures LastTo(conns, c, vr).Some? && !IsSimple(LastTo(conns, c, vr).value)
    {
      LastOfSplit(conns, c, vr);
      LastToIsMember(conns, c, vr);
      LastToIsMember(ComplexOf(conns), c, vr);
      SplitMembers(conns, c);
      SameTarget(conns, LastTo(conns, c, vr).value, LastTo(ComplexOf(conns), c, vr).value);
    }
  }

  lemma SameTarget(conns: seq<Conn>, a: Conn, b: Conn)
    requires DistinctTargets(conns) && a in conns && b in conns
    requires a.dst == b.dst && a.toType == b.toType && a.toVR == b.toVR
    ensures a == b
  {
    var i :| 0 <= i < |conns| && conns[i] == a;
    var j :| 0 <= j < |conns| && conns[j] == b;
  }

  function Targets(ss: seq<Conn>): seq<int> {
    seq(|ss|, i requires 0 <= i < |ss| => ss[i].toVR)
  }

  /** Reading the cache without a check: an absent value reads as 0. */
  function Lookup(w: Conn, caches: seq<Cache>): real
    requires w.src < |caches|
  {
    if Cached(w, caches) then caches[w.src][w.Source()].r else 0.0
  }

  function Lookups(ss: seq<Conn>, caches: seq<Cache>): seq<real>
    requires Wired(ss, |caches|)
  {
    seq(|ss|, i requires 0 <= i < |ss| => Lookup(ss[i], caches))
  }

  lemma {:induction false} LookupsLast(ss: seq<Conn>, c: nat, caches: seq<Cache>, vr: int)
    requires Wired(ss, |caches|)
    requires forall i | 0 <= i < |ss| :: IsSimple(ss[i]) && ss[i].dst == c && Cached(ss[i], caches)
    ensures var l, w := LastTo(ss, c, vr), LastWrite(Targets(ss), Lookups(ss, caches), vr);
            if l.Some? then l.value.src < |caches| && w == Some(Delivered(l.value, caches)) else w == None
  {
    if ss != [] {
      var init := ss[..|ss| - 1];
      LookupsLast(init, c, caches, vr);
      assert Targets(ss)[..|init|] == Targets(init) && Lookups(ss, caches)[..|init|] == Lookups(init, caches);
    }
  }

  lemma {:induction false} NotWritten(vrs: seq<int>, values: seq<real>, vr: int)
    requires |vrs| == |values| && vr !in vrs
    ensures LastWrite(vrs, values, vr) == None
  {
    if vrs != [] { NotWritten(vrs[..|vrs| - 1], values[..|vrs| - 1], vr); }
  }

  /** What initRefValues leaves for a client of the batch: its simple inputs, or leftovers that will be overwritten. */
  ghost predicate Begun(x: SetX, conns: seq<Conn>, c: nat, caches: seq<Cache>)
    requires Wired(conns, |caches|) && Wired(SimpleOf(conns, c), |caches|)
  {
    && x.ints == [] && x.bools == [] && x.strings == [] && |x.realVrs| == |x.reals|
    && if SimpleOf(conns, c) != [] then x.realVrs == Targets(SimpleOf(conns, c))
        && x.reals == Lookups(SimpleOf(conns, c), caches)
       else forall vr | vr in x.realVrs :: LastTo(ComplexOf(conns), c, vr).Some?
  }

  lemma BegunLast(x: SetX, conns: seq<Conn>, c: nat, caches: seq<Cache>, vr: int)
    requires Wired(conns, |caches|) && Wired(SimpleOf(conns, c), |caches|) && SimpleCached(conns, c, caches)
    requires Begun(x, conns, c, caches) && LastTo(ComplexOf(conns), c, vr).None?
    ensures var l, w := LastTo(SimpleOf(conns, c), c, vr), LastWrite(x.realVrs, x.reals, vr);
            if l.Some? then l.value.src < |caches| && w == Some(Delivered(l.value, caches)) else w == None
  {
    var ss := SimpleOf(conns, c);
    if ss != [] {
      SplitMembers(conns, c);
      forall i | 0 <= i < |ss| ensures IsSimple(ss[i]) && ss[i].dst == c && Cached(ss[i], caches) {
        assert ss[i] in ss;
      }
      LookupsLast(ss, c, caches, vr);
    } else {
      NotWritten(x.realVrs, x.reals, vr);
    }
  }

  /** What the split leaves in a real input: the last complex connection's value, else the last simple one's. */
  lemma SplitReal(x: SetX, conns: seq<Conn>, c: nat, caches: seq<Cache>, vr: int)
    requires Wired(conns, |caches|) && Wired(SimpleOf(conns, c), |caches|) && Wired(ComplexOf(conns), |caches|)
    requires SimpleCached(conns, c, caches) && Begun(x, conns, c, caches)
    requires Collect(ComplexOf(conns), c, caches, x).Ok?
    ensures var y := Collect(ComplexOf(conns), c, caches, x).value;
            var m := LastTo(ComplexOf(conns), c, vr);
            var l := if m.Some? then m else LastTo(SimpleOf(conns, c), c, vr);
            && |y.realVrs| == |y.reals|
            && if l.Some? then l.value.src < |caches|
                && LastWrite(y.realVrs, y.reals, vr) == Some(Delivered(l.value, caches))
               else LastWrite(y.realVrs, y.reals, vr) == None
  {
    CollectLast(ComplexOf(conns), c, caches, x, vr);
    if LastTo(ComplexOf(conns), c, vr).None? { BegunLast(x, conns, c, caches, vr); }
  }

  /** The split and the plain loop agree, for every client whose wiring is SplitSafe. */
  lemma SplitAgrees(x: SetX, conns: seq<Conn>, c: nat, caches: seq<Cache>)
    requires Wired(conns, |caches|) && Wired(SimpleOf(conns, c), |caches|) && Wired(ComplexOf(conns), |caches|)
    requires SimpleCached(conns, c, caches) && Begun(x, conns, c, caches) && SplitSafe(conns, c)
    ensures Collect(ComplexOf(conns), c, caches, x).Ok? <==> Collect(conns, c, caches, NOTHING).Ok?
    ensures Collect(conns, c, caches, NOTHING).Ok? ==>
              SameEffect(Collect(ComplexOf(conns), c, caches, x).value, Collect(conns, c, caches, NOTHING).value)
  {
    CollectComplex(conns, c, caches, x, NOTHING);
    if Collect(conns, c, caches, NOTHING).Ok? {
      var y, z := Collect(ComplexOf(conns), c, caches, x).value, Collect(conns, c, caches, NOTHING).value;
      CollectLast(conns, c, caches, NOTHING, 0);
      SplitReal(x, conns, c, caches, 0);
      forall vr ensures LastWrite(y.realVrs, y.reals, vr) == LastWrite(z.realVrs, z.reals, vr) {
        CollectLast(conns, c, caches, NOTHING, vr);
        SplitReal(x, conns, c, caches, vr);
        LastOfSplit(conns, c, vr);
      }
    }
  }

  // ---- The condition is needed ----------------------------------------------------------------------

  function Sources(conns: seq<Conn>): set<Var> {
    set w | w in conns :: w.Source()
  }

  /** Caches in which every real is t. */
  function Uniform(conns: seq<Conn>, n: nat, t: real): seq<Cache> {
    var vars := Sources(conns);
    seq(n, _ => map v | v in vars :: Plainly(v.ty, t))
  }

  function Plainly(ty: Base, t: real): Val {
    match ty
    case RealB => RealV(t)
    case IntB => IntV(0)
    case BoolB => BoolV(false)
    case StrB => StrV("")
    case EnumB => IntV(0)
  }

  lemma UniformDelivers(conns: seq<Conn>, n: nat, t: real, w: Conn)
    requires w in conns && w.src < n && Convertible(w)
    ensures Convert(w, Uniform(conns, n, t)).Ok?
    ensures w.fromType == RealB ==> Cached(w, Uniform(conns, n, t))
    ensures w.toType == RealB ==>
              Delivered(w, Uniform(conns, n, t)) == (if w.fromType == RealB then t else 0.0) * w.slope + w.intercept
  {
    ConvertedType(w, Plainly(w.fromType, t));
  }

  lemma {:induction false} CollectOk(conns: seq<Conn>, c: nat, caches: seq<Cache>, x: SetX)
    requires Wired(conns, |caches|)
    requires forall w | w in conns && w.dst == c :: w.src < |caches| && Convert(w, caches).Ok?
    ensures Collect(conns, c, caches, x).Ok?
  {
    if conns != [] { CollectOk(conns[..|conns| - 1], c, caches, x); }
  }

  /** A real that a complex connection does not map to itself. */
  function NotFixed(w: Conn): (t: real)
    requires !IsSimple(w) && Convertible(w) && w.toType == RealB
    ensures (if w.fromType == RealB then t else 0.0) * w.slope + w.intercept != t
  {
    if w.fromType != RealB then w.intercept + 1.0 else if w.intercept != 0.0 then 0.0 else 1.0
  }

  /** Caches on which a complex and a simple connection deliver different values. */
  lemma UniformSeparates(conns: seq<Conn>, c: nat, n: nat, m: Conn, s: Conn) returns (caches: seq<Cache>)
    requires Wired(conns, n) && forall w | w in conns && w.dst == c :: Convertible(w)
    requires m in conns && s in conns && m.dst == s.dst == c && m.toType == RealB && !IsSimple(m) && IsSimple(s)
    ensures |caches| == n && SimpleCached(conns, c, caches) && Delivered(m, caches) != Delivered(s, caches)
    ensures forall w | w in conns && w.dst == c :: w.src < n && Convert(w, caches).Ok?
  {
    var t := NotFixed(m);
    caches := Uniform(conns, n, t);
    forall w | w in conns && w.dst == c
      ensures w.src < n && Convert(w, caches).Ok? && (w.fromType == RealB ==> Cached(w, caches))
    {
      UniformDelivers(conns, n, t, w);
    }
    UniformDelivers(conns, n, t, m);
    UniformDelivers(conns, n, t, s);
  }

  lemma SplitDiffers(x: SetX, conns: seq<Conn>, c: nat, caches: seq<Cache>, vr: int)
    requires Wired(conns, |caches|) && Wired(SimpleOf(conns, c), |caches|) && Wired(ComplexOf(conns), |caches|)
    requires SimpleCached(conns, c, caches) && Begun(x, conns, c, caches)
    requires Collect(ComplexOf(conns), c, caches, x).Ok? && Collect(conns, c, caches, NOTHING).Ok?
    requires var m, l := LastTo(ComplexOf(conns), c, vr), LastTo(conns, c, vr);
             m.Some? && l.Some? && m.value.src < |caches| && l.value.src < |caches|
                 && Delivered(m.value, caches) != Delivered(l.value, caches)
    ensures !SameEffect(Collect(ComplexOf(conns), c, caches, x).value, Collect(conns, c, caches, NOTHING).value)
  {
    SplitReal(x, conns, c, caches, vr);
    CollectLast(conns, c, caches, NOTHING, vr);
  }

  /** Where the wiring is not SplitSafe, there are caches on which the split sets another value than the plain loop. */
  lemma SplitUnsafe(conns: seq<Conn>, c: nat, n: nat) returns (caches: seq<Cache>)
    requires Wired(conns, n) && (forall w | w in conns && w.dst == c :: Convertible(w)) && !SplitSafe(conns, c)
    ensures |caches| == n && Wired(SimpleOf(conns, c), n) && Wired(ComplexOf(conns), n)
            && SimpleCached(conns, c, caches)
    ensures Collect(conns, c, caches, NOTHING).Ok?
    ensures forall x | Begun(x, conns, c, caches) ::
              && Collect(ComplexOf(conns), c, caches, x).Ok?
              && !SameEffect(Collect(ComplexOf(conns), c, caches, x).value, Collect(conns, c, caches, NOTHING).value)
  {
    var vr :| LastTo(ComplexOf(conns), c, vr).Some?
        && !(LastTo(conns, c, vr).Some? && !IsSimple(LastTo(conns, c, vr).value));
    LastOfSplit(conns, c, vr);
    var m, l := LastTo(ComplexOf(conns), c, vr).value, LastTo(conns, c, vr).value;
    LastToIsMember(ComplexOf(conns), c, vr);
    LastToIsMember(conns, c, vr);
    SplitMembers(conns, c);
    SplitWired(conns, c, n);
    caches := UniformSeparates(conns, c, n, m, l);
    CollectOk(conns, c, caches, NOTHING);
    forall x | Begun(x, conns, c, caches)
      ensures Collect(ComplexOf(conns), c, caches, x).Ok?
      ensures !SameEffect(Collect(ComplexOf(conns), c, caches, x).value, Collect(conns, c, caches, NOTHING).value)
    {
      CollectOk(ComplexOf(conns), c, caches, x);
      SplitDiffers(x, conns, c, caches, vr);
    }
  }

  // ---- The table kept between batches ---------------------------------------------------------------

  /** Leftovers of an earlier batch: nothing, or the simple targets followed by complex ones. */
  ghost predicate Leftover(x: SetX, simpleVrs: seq<int>, conns: seq<Conn>, c: nat) {
    && |x.realVrs| == |x.reals|
    && (x.realVrs == [] || simpleVrs <= x.realVrs)
    && forall i | |simpleVrs| <= i < |x.realVrs| :: LastTo(ComplexOf(conns), c, x.realVrs[i]).Some?
  }

  lemma {:induction false} CollectKeepsLeftover(x: SetX, conns: seq<Conn>, c: nat, caches: seq<Cache>, k: nat)
    requires Wired(ComplexOf(conns), |caches|) && k <= |ComplexOf(conns)|
             && Collect(ComplexOf(conns)[..k], c, caches, x).Ok?
    requires Wired(SimpleOf(conns, c), |caches|) && Leftover(x, Targets(SimpleOf(conns, c)), conns, c)
    requires x.realVrs == [] ==> SimpleOf(conns, c) == []
    ensures Leftover(Collect(ComplexOf(conns)[..k], c, caches, x).value, Targets(SimpleOf(conns, c)), conns, c)
    ensures Collect(ComplexOf(conns)[..k], c, caches, x).value.realVrs == [] ==> SimpleOf(conns, c) == []
  {
    if k > 0 {
      var cs := ComplexOf(conns);
      assert cs[..k][..k - 1] == cs[..k - 1];
      CollectKeepsLeftover(x, conns, c, caches, k - 1);
      if cs[k - 1].dst == c {
        ConvertType(cs[k - 1], caches);
        WiredTo(cs, k - 1, c, cs[k - 1].toVR);
      }
    }
  }

  lemma AllKeepLeftover(x: SetX, conns: seq<Conn>, c: nat, caches: seq<Cache>)
    requires Wired(ComplexOf(conns), |caches|) && Collect(ComplexOf(conns), c, caches, x).Ok?
    requires Wired(SimpleOf(conns, c), |caches|) && Leftover(x, Targets(SimpleOf(conns, c)), conns, c)
    requires x.realVrs == [] ==> SimpleOf(conns, c) == []
    ensures Leftover(Collect(ComplexOf(conns), c, caches, x).value, Targets(SimpleOf(conns, c)), conns, c)
  {
    assert ComplexOf(conns)[..|ComplexOf(conns)|] == ComplexOf(conns);
    CollectKeepsLeftover(x, conns, c, caches, |ComplexOf(conns)|);
  }

  lemma LeftoverIsBegun(x: SetX, conns: seq<Conn>, c: nat, caches: seq<Cache>)
    requires Wired(conns, |caches|) && Wired(SimpleOf(conns, c), |caches|)
    requires Leftover(x, Targets(SimpleOf(conns, c)), conns, c) && x.ints == [] && x.bools == [] && x.strings == []
    requires SimpleOf(conns, c) != [] ==>
             x.realVrs == Targets(SimpleOf(conns, c)) && x.reals == Lookups(SimpleOf(conns, c), caches)
    ensures Begun(x, conns, c, caches)
  {
    if SimpleOf(conns, c) == [] {
      forall vr | vr in x.realVrs ensures LastTo(ComplexOf(conns), c, vr).Some? {
        var i :| 0 <= i < |x.realVrs| && x.realVrs[i] == vr;
      }
    }
  }

  lemma {:induction false} WiredTo(conns: seq<Conn>, k: nat, c: nat, vr: int)
    requires k < |conns| && conns[k].dst == c && conns[k].toVR == vr
    ensures conns[k].toType == RealB ==> LastTo(conns, c, vr).Some?
  {
    if k < |conns| - 1 { WiredTo(conns[..|conns| - 1], k, c, vr); }
  }

  class RefTable {
    ghost const conns: seq<Conn>
    const n: nat
    const simple: seq<seq<Conn>>
    const simpleVrs: seq<seq<int>>
    const complexOnes: seq<Conn>
    var refs: seq<SetX>

    ghost predicate Valid()
      reads this
    {
      && Wired(conns, n) && |simple| == |simpleVrs| == |refs| == n
      && complexOnes == ComplexOf(conns)
      && (forall c: nat | c < n :: simple[c] == SimpleOf(conns, c) && simpleVrs[c] == Targets(simple[c]))
      && forall c: nat | c < n :: Leftover(refs[c], simpleVrs[c], conns, c)
    }

    /** The end of the StrongMaster constructor. */
    constructor (conns: seq<Conn>, n: nat)
      requires Wired(conns, n)
      ensures Valid() && this.conns == conns && this.n == n
    {
      var s, v, m := seq(n, _ => []), seq(n, _ => []), [];
      var i := 0;
      while i < |conns|
        invariant 0 <= i <= |conns| && |s| == |v| == n && m == ComplexOf(conns[..i])
        invariant forall c: nat | c < n :: s[c] == SimpleOf(conns[..i], c) && v[c] == Targets(s[c])
      {
        var w := conns[i];
        assert conns[..i + 1][..i] == conns[..i];
        if IsSimple(w) {
          assert Targets(s[w.dst] + [w]) == v[w.dst] + [w.toVR];
          s, v := s[w.dst := s[w.dst] + [w]], v[w.dst := v[w.dst] + [w.toVR]];
        } else {
          m := m + [w];
        }
        i := i + 1;
      }
      assert conns[..i] == conns;
      this.conns, this.n := conns, n;
      simple, simpleVrs, complexOnes := s, v, m;
      refs := seq(n, _ => NOTHING);
    }

    /** What initRefValues makes of the entry of client c. */
    ghost function Cleared(x: SetX, c: nat, cset: set<int>, caches: seq<Cache>): SetX
      requires |simple| == |simpleVrs| == n == |caches| && c < n && Wired(simple[c], n)
    {
      if c !in cset then NOTHING
      else if simple[c] == [] then SetX(x.realVrs, x.reals, [], [], [])
      else SetX(simpleVrs[c], Lookups(simple[c], caches), [], [], [])
    }

    /** initRefValues for one client of the batch. Reading an absent value inserts a 0. */
    method InitOne(x: SetX, c: nat, caches: seq<Cache>) returns (y: SetX, filled: seq<Cache>)
      requires Valid() && c < n && |caches| == n && Typed(caches) && simple[c] != [] && Wired(simple[c], n)
      requires Leftover(x, simpleVrs[c], conns, c)
      ensures y == x.(realVrs := simpleVrs[c], reals := Lookups(simple[c], caches))
      ensures ZeroFilled(caches, filled) && Typed(filled) && SimpleCached(conns, c, filled)
      ensures SimpleCached(conns, c, caches) ==> filled == caches
    {
      var vrs := if |x.realVrs| == 0 then simpleVrs[c] else x.realVrs[..|simple[c]|];
      SimpleList(conns, c);
      var reals;
      reals, filled := ReadSimple(simple[c], caches);
      ListCached(conns, c, caches);
      ListCached(conns, c, filled);
      return x.(realVrs := vrs, reals := reals), filled;
    }

    /** What clearing leaves of an entry: the reals of clients in cset stay. */
    ghost function Emptied(x: SetX, c: nat, cset: set<int>): SetX {
      if c in cset then SetX(x.realVrs, x.reals, [], [], []) else NOTHING
    }

    /** The first loop of initRefValues. */
    method ClearOld(cset: set<int>)
      requires Valid()
      modifies this
      ensures Valid() && forall c: nat | c < n :: refs[c] == Emptied(old(refs)[c], c, cset)
    {
      var c := 0;
      while c < n
        invariant 0 <= c <= n && Valid()
        invariant forall d: nat | d < c :: refs[d] == Emptied(old(refs)[d], d, cset)
        invariant forall d: nat | c <= d < n :: refs[d] == old(refs)[d]
      {
        var x := refs[c];
        refs := refs[c := if c in cset then SetX(x.realVrs, x.reals, [], [], []) else NOTHING];
        c := c + 1;
      }
    }

    /** What the second loop makes of an entry. */
    ghost function Filled(x: SetX, c: nat, cset: set<int>, caches: seq<Cache>): SetX
      requires |simple| == |simpleVrs| == n == |caches| && c < n && Wired(simple[c], n)
    {
      if c in cset && simple[c] != [] then x.(realVrs := simpleVrs[c], reals := Lookups(simple[c], caches)) else x
    }

    /** The second loop. */
    method FillSimple(cset: set<int>, caches: seq<Cache>) returns (filled: seq<Cache>)
      requires Valid() && |caches| == n && Typed(caches) && forall c: nat | c < n :: Wired(simple[c], n)
      modifies this
      ensures Valid()
      ensures forall c: nat | c < n :: refs[c] == Filled(old(refs)[c], c, cset, caches)
      ensures ZeroFilled(caches, filled) && Typed(filled) && BatchCached(conns, cset, n, filled)
      ensures BatchCached(conns, cset, n, caches) ==> filled == caches
    {
      var c := 0;
      filled := caches;
      while c < n
        invariant 0 <= c <= n && Valid()
        invariant forall d: nat | d < c :: refs[d] == Filled(old(refs)[d], d, cset, caches)
        invariant forall d: nat | c <= d < n :: refs[d] == old(refs)[d]
        invariant ZeroFilled(caches, filled) && Typed(filled) && BatchCached(conns, cset, c, filled)
        invariant BatchCached(conns, cset, n, caches) ==> filled == caches
      {
        filled := FillClient(c, cset, caches, filled);
        c := c + 1;
      }
    }

    /** The body of the second loop. */
    method FillClient(c: nat, cset: set<int>, ghost caches: seq<Cache>, filled: seq<Cache>) returns (more: seq<Cache>)
      requires Valid() && c < n && |caches| == n && Typed(caches) && Wired(simple[c], n)
      requires ZeroFilled(caches, filled) && Typed(filled) && BatchCached(conns, cset, c, filled)
      modifies this
      ensures Valid() && refs == old(refs)[c := Filled(old(refs)[c], c, cset, caches)]
      ensures ZeroFilled(caches, more) && Typed(more) && BatchCached(conns, cset, c + 1, more)
      ensures c !in cset || SimpleCached(conns, c, filled) ==> more == filled
    {
      more := filled;
      if c in cset && simple[c] != [] {
        var y;
        SimpleList(conns, c);
        LookupsFilled(simple[c], caches, filled);
        y, more := InitOne(refs[c], c, filled);
        refs := refs[c := y];
      } else {
        ListCached(conns, c, filled);
      }
      NextCached(conns, cset, c, caches, filled, more);
    }

    method InitRefValues(cset: set<int>, caches: seq<Cache>) returns (filled: seq<Cache>)
      requires Valid() && |caches| == n && Typed(caches)
      modifies this
      ensures Valid()
      ensures forall c: nat | c < n :: Wired(simple[c], n) && refs[c] == Cleared(old(refs)[c], c, cset, caches)
      ensures ZeroFilled(caches, filled) && Typed(filled)
      ensures BatchCached(conns, cset, n, filled)
      ensures BatchCached(conns, cset, n, caches) ==> filled == caches
    {
      forall c: nat | c < n ensures Wired(simple[c], n) { SplitWired(conns, c, n); }
      ClearOld(cset);
      filled := FillSimple(cset, caches);
    }

    /**
     * The inputs of one batch: initRefValues, then the complex connections appended. They have
     * the effect of the plain loop over the caches, in which the absent source of a simple
     * connection has become a 0.
     */
    method Refresh(cset: set<int>, caches: seq<Cache>) returns (ok: bool, filled: seq<Cache>)
      requires Valid() && |caches| == n && Typed(caches)
      modifies this
      ensures Valid() && ZeroFilled(caches, filled) && Typed(filled)
      ensures BatchCached(conns, cset, n, caches) ==> filled == caches
      ensures ok <==> forall c: nat | c < n && c in cset :: Collect(conns, c, filled, NOTHING).Ok?
      ensures ok ==> forall c: nat | c < n && c in cset && SplitSafe(conns, c) ::
              SameEffect(refs[c], Collect(conns, c, filled, NOTHING).value)
      ensures ok ==> forall c: nat | c < n && c !in cset :: refs[c] == NOTHING
    {
      filled := InitRefValues(cset, caches);
      ghost var begun := refs;
      SplitWired(conns, 0, n);
      var r := AppendInputs(complexOnes, cset, filled, refs);
      forall c: nat | c < n && c in cset
        ensures Collect(complexOnes, c, filled, begun[c]).Ok? <==> Collect(conns, c, filled, NOTHING).Ok?
        ensures SplitSafe(conns, c) && Collect(conns, c, filled, NOTHING).Ok? ==>
                  SameEffect(Collect(complexOnes, c, filled, begun[c]).value, Collect(conns, c, filled, NOTHING).value)
      {
        SplitWired(conns, c, n);
        Started(begun[c], conns, c, caches, filled);
      }
      match r {
        case Stop =>
          return false, filled;
        case Ok(out) =>
          forall c: nat | c < n ensures Leftover(out[c], simpleVrs[c], conns, c) {
            if c in cset { AllKeepLeftover(begun[c], conns, c, filled); }
          }
          refs := out;
          return true, filled;
      }
    }
  }

  // ---- Absent values --------------------------------------------------------------------------------

  /** Values have the types of their variables. */
  ghost predicate Typed(caches: seq<Cache>) {
    forall c, v | 0 <= c < |caches| && v in caches[c] :: HasType(caches[c][v], v.ty)
  }

  /** f has all that caches has, and otherwise only zeros. */
  ghost predicate ZeroFilled(caches: seq<Cache>, f: seq<Cache>) {
    && |f| == |caches|
    && (forall c, v | 0 <= c < |caches| && v in caches[c] :: v in f[c] && f[c][v] == caches[c][v])
    && forall c, v | 0 <= c < |caches| && v in f[c] && v !in caches[c] :: f[c][v] == RealV(0.0)
  }

  /** operator[] of the cache of reals. */
  function Fill(w: Conn, caches: seq<Cache>): seq<Cache>
    requires w.src < |caches|
  {
    if w.Source() in caches[w.src] then caches else caches[w.src := caches[w.src][w.Source() := RealV(0.0)]]
  }

  lemma Filling(w: Conn, f: seq<Cache>, caches: seq<Cache>)
    requires w.src < |f| && IsSimple(w) && Typed(f) && ZeroFilled(caches, f)
    ensures ZeroFilled(caches, Fill(w, f)) && Typed(Fill(w, f)) && Cached(w, Fill(w, f))
    ensures forall v: Conn | v.src < |f| && Cached(v, f) :: Cached(v, Fill(w, f))
    ensures Cached(w, f) ==> Fill(w, f) == f
  {
  }

  lemma LookupFilled(w: Conn, caches: seq<Cache>, f: seq<Cache>)
    requires w.src < |caches| && ZeroFilled(caches, f) && Typed(caches) && IsSimple(w)
    ensures Lookup(w, f) == Lookup(w, caches)
  {
  }

  lemma LookupsFilled(ss: seq<Conn>, caches: seq<Cache>, f: seq<Cache>)
    requires Wired(ss, |caches|) && ZeroFilled(caches, f) && Typed(caches)
             && forall i | 0 <= i < |ss| :: IsSimple(ss[i])
    ensures Lookups(ss, f) == Lookups(ss, caches)
  {
    forall i | 0 <= i < |ss| ensures Lookup(ss[i], f) == Lookup(ss[i], caches) {
      LookupFilled(ss[i], caches, f);
    }
  }

  /** The simple connections to c are exactly those in its list. */
  lemma {:induction false} AllSimple(conns: seq<Conn>, c: nat)
    ensures forall w | w in conns && IsSimple(w) && w.dst == c :: w in SimpleOf(conns, c)
  {
    if conns != [] {
      AllSimple(conns[..|conns| - 1], c);
      assert conns == conns[..|conns| - 1] + [conns[|conns| - 1]];
    }
  }

  lemma SimpleList(conns: seq<Conn>, c: nat)
    ensures forall i | 0 <= i < |SimpleOf(conns, c)| :: IsSimple(SimpleOf(conns, c)[i])
  {
    SplitMembers(conns, c);
    forall i | 0 <= i < |SimpleOf(conns, c)| ensures IsSimple(SimpleOf(conns, c)[i]) {
      assert SimpleOf(conns, c)[i] in SimpleOf(conns, c);
    }
  }

  predicate AllCached(ss: seq<Conn>, caches: seq<Cache>)
    requires Wired(ss, |caches|)
  {
    forall i | 0 <= i < |ss| :: Cached(ss[i], caches)
  }

  lemma ListCached(conns: seq<Conn>, c: nat, caches: seq<Cache>)
    requires Wired(conns, |caches|) && Wired(SimpleOf(conns, c), |caches|)
    ensures SimpleCached(conns, c, caches) <==> AllCached(SimpleOf(conns, c), caches)
  {
    var ss := SimpleOf(conns, c);
    SplitMembers(conns, c);
    AllSimple(conns, c);
    if SimpleCached(conns, c, caches) {
      forall i | 0 <= i < |ss| ensures Cached(ss[i], caches) {
        assert ss[i] in ss;
      }
    }
    if AllCached(ss, caches) {
      forall i | 0 <= i < |conns| && conns[i].dst == c && IsSimple(conns[i]) ensures Cached(conns[i], caches) {
        assert conns[i] in conns;
        var k :| 0 <= k < |ss| && ss[k] == conns[i];
      }
    }
  }

  /** Reading the sources of simple connections one by one. */
  method ReadSimple(ss: seq<Conn>, caches: seq<Cache>) returns (reals: seq<real>, filled: seq<Cache>)
    requires Wired(ss, |caches|) && Typed(caches) && forall i | 0 <= i < |ss| :: IsSimple(ss[i])
    ensures reals == Lookups(ss, caches)
    ensures ZeroFilled(caches, filled) && Typed(filled) && AllCached(ss, filled)
    ensures AllCached(ss, caches) ==> filled == caches
  {
    reals, filled := [], caches;
    for i := 0 to |ss|
      invariant |reals| == i && forall j | 0 <= j < i :: reals[j] == Lookup(ss[j], caches)
      invariant ZeroFilled(caches, filled) && Typed(filled)
      invariant forall j | 0 <= j < i :: Cached(ss[j], filled)
      invariant AllCached(ss, caches) ==> filled == caches
    {
      LookupFilled(ss[i], caches, filled);
      reals := reals + [Lookup(ss[i], filled)];
      Filling(ss[i], filled, caches);
      filled := Fill(ss[i], filled);
    }
  }

  /** The sources of all simple connections to clients of the batch, up to n, are cached. */
  predicate BatchCached(conns: seq<Conn>, cset: set<int>, n: nat, caches: seq<Cache>)
    requires Wired(conns, |caches|)
  {
    forall c: nat | c < n && c in cset :: SimpleCached(conns, c, caches)
  }

  lemma NextCached(conns: seq<Conn>, cset: set<int>, c: nat, caches: seq<Cache>, f: seq<Cache>, g: seq<Cache>)
    requires Wired(conns, |f|) && ZeroFilled(caches, f) && (f == g || ZeroFilled(f, g))
    requires BatchCached(conns, cset, c, f) && (c in cset ==> SimpleCached(conns, c, g))
    ensures ZeroFilled(caches, g) && BatchCached(conns, cset, c + 1, g)
  {
  }

  /** What initRefValues left, followed by the complex connections. */
  lemma Started(x: SetX, conns: seq<Conn>, c: nat, caches: seq<Cache>, filled: seq<Cache>)
    requires Wired(conns, |caches|) && Typed(caches) && ZeroFilled(caches, filled) && SimpleCached(conns, c, filled)
    requires Wired(SimpleOf(conns, c), |caches|) && Wired(ComplexOf(conns), |caches|)
    requires Leftover(x, Targets(SimpleOf(conns, c)), conns, c) && x.ints == [] && x.bools == [] && x.strings == []
    requires SimpleOf(conns, c) != [] ==>
             x.realVrs == Targets(SimpleOf(conns, c)) && x.reals == Lookups(SimpleOf(conns, c), caches)
    ensures Collect(ComplexOf(conns), c, filled, x).Ok? <==> Collect(conns, c, filled, NOTHING).Ok?
    ensures SplitSafe(conns, c) && Collect(conns, c, filled, NOTHING).Ok? ==>
              SameEffect(Collect(ComplexOf(conns), c, filled, x).value, Collect(conns, c, filled, NOTHING).value)
  {
    SimpleList(conns, c);
    LookupsFilled(SimpleOf(conns, c), caches, filled);
    LeftoverIsBegun(x, conns, c, filled);
    CollectComplex(conns, c, filled, x, NOTHING);
    if SplitSafe(conns, c) { SplitAgrees(x, conns, c, filled); }
  }
}
