/** The execution order as the user writes it: alternating parallel and serial groups. */
module OrderTree {

  /** FMUs and serial groups that may all run at the same time. */
  datatype Parallel = Parallel(fmus: set<int>, serials: seq<Serial>)

  /** Elements that run one after another. */
  datatype Serial = Serial(elements: seq<Element>)

  datatype Element = Group(group: Parallel) | Fmu(id: int)

  // ---- The FMUs of each kind of node -------------------------------------------------

  function Leaves(p: Parallel): set<int>
    decreases p
  {
    p.fmus + LeavesOfSerials(p.serials)
  }

  function LeavesOfSerials(ss: seq<Serial>): set<int>
    decreases ss
  {
    if ss == [] then {} else LeavesOfElements(ss[0].elements) + LeavesOfSerials(ss[1..])
  }

  function LeavesOfElements(es: seq<Element>): set<int>
    decreases es
  {
    if es == [] then {} else LeavesOf(es[0]) + LeavesOfElements(es[1..])
  }

  function LeavesOf(e: Element): set<int>
    decreases e
  {
    match e
    case Fmu(id) => {id}
    case Group(p) => Leaves(p)
  }

  // ---- The order the tree asks for ---------------------------------------------------

  /** u stands in an earlier element than v of some serial group inside p. */
  predicate Precedes(p: Parallel, u: int, v: int)
    decreases p
  {
    PrecedesInSerials(p.serials, u, v)
  }

  predicate PrecedesInSerials(ss: seq<Serial>, u: int, v: int)
    decreases ss
  {
    ss != [] && (PrecedesInElements(ss[0].elements, u, v) || PrecedesInSerials(ss[1..], u, v))
  }

  predicate PrecedesInElements(es: seq<Element>, u: int, v: int)
    decreases es
  {
    es != [] &&
    (|| PrecedesIn(es[0], u, v)
     || PrecedesInElements(es[1..], u, v)
     || (u in LeavesOf(es[0]) && v in LeavesOfElements(es[1..])))
  }

  predicate PrecedesIn(e: Element, u: int, v: int)
    decreases e
  {
    e.Group? && Precedes(e.group, u, v)
  }

  // ---- Conditions a user can check on the tree before running it -----------------------

  /** Every serial group has at least two elements; the compiler stops otherwise. */
  predicate LongSerials(p: Parallel)
    decreases p
  {
    LongSerialsAll(p.serials)
  }

  predicate LongSerialsAll(ss: seq<Serial>)
    decreases ss
  {
    ss != [] ==> |ss[0].elements| >= 2 && LongSerialsIn(ss[0].elements) && LongSerialsAll(ss[1..])
  }

  predicate LongSerialsIn(es: seq<Element>)
    decreases es
  {
    es != [] ==> LongSerialsOf(es[0]) && LongSerialsIn(es[1..])
  }

  predicate LongSerialsOf(e: Element)
    decreases e
  {
    e.Group? ==> LongSerials(e.group)
  }

  /** No FMU is written twice. */
  predicate Distinct(p: Parallel)
    decreases p
  {
    p.fmus !! LeavesOfSerials(p.serials) && DistinctSerials(p.serials)
  }

  predicate DistinctSerials(ss: seq<Serial>)
    decreases ss
  {
    ss != [] ==>
      && LeavesOfElements(ss[0].elements) !! LeavesOfSerials(ss[1..])
      && DistinctElements(ss[0].elements)
      && DistinctSerials(ss[1..])
  }

  predicate DistinctElements(es: seq<Element>)
    decreases es
  {
    es != [] ==>
      && LeavesOf(es[0]) !! LeavesOfElements(es[1..])
      && DistinctElement(es[0])
      && DistinctElements(es[1..])
  }

  predicate DistinctElement(e: Element)
    decreases e
  {
    e.Group? ==> Distinct(e.group)
  }

  /** No parallel group inside p, nor p itself, is empty. */
  predicate NoEmptyGroup(p: Parallel)
    decreases p
  {
    (p.fmus != {} || p.serials != []) && NoEmptyGroupAll(p.serials)
  }

  predicate NoEmptyGroupAll(ss: seq<Serial>)
    decreases ss
  {
    ss != [] ==> NoEmptyGroupIn(ss[0].elements) && NoEmptyGroupAll(ss[1..])
  }

  predicate NoEmptyGroupIn(es: seq<Element>)
    decreases es
  {
    es != [] ==> NoEmptyGroupOf(es[0]) && NoEmptyGroupIn(es[1..])
  }

  predicate NoEmptyGroupOf(e: Element)
    decreases e
  {
    e.Group? ==> NoEmptyGroup(e.group)
  }

  /** No serial group ends in a parallel group that itself holds a serial group. */
  predicate PlainEndings(p: Parallel)
    decreases p
  {
    PlainEndingsAll(p.serials)
  }

  predicate PlainEndingsAll(ss: seq<Serial>)
    decreases ss
  {
    ss != [] ==> PlainEndingsIn(ss[0].elements) && PlainEndingsAll(ss[1..])
  }

  predicate PlainEndingsIn(es: seq<Element>)
    decreases es
  {
    es != [] ==>
      && PlainEndingsOf(es[0])
      && PlainEndingsIn(es[1..])
      && (|es| == 1 && es[0].Group? ==> es[0].group.serials == [])
  }

  predicate PlainEndingsOf(e: Element)
    decreases e
  {
    e.Group? ==> PlainEndings(e.group)
  }

  /**
   * Leafless groups inside serial groups hide nothing: wherever FMUs stand on both sides of
   * a serial boundary, all of the earlier side is awaited and all of the later side is held.
   */
  predicate Sealed(p: Parallel)
    decreases p
  {
    SealedSerials(p.serials)
  }

  predicate SealedSerials(ss: seq<Serial>)
    decreases ss
  {
    ss != [] ==> SealedElements(ss[0].elements) && SealedSerials(ss[1..])
  }

  predicate SealedElements(es: seq<Element>)
    decreases es
  {
    es != [] ==>
      && SealedElement(es[0])
      && SealedElements(es[1..])
      && (LeavesOf(es[0]) != {} && LeavesOfElements(es[1..]) != {} ==> TailSealed(es[0]) && HeadSealedElements(es[1..]))
  }

  predicate SealedElement(e: Element)
    decreases e
  {
    e.Group? ==> Sealed(e.group)
  }

  /** Whoever waits for the end of e waits for all of e: no serial group in it ends leafless. */
  predicate TailSealed(e: Element)
    decreases e
  {
    e.Group? ==> TailSealedSerials(e.group.serials)
  }

  predicate TailSealedSerials(ss: seq<Serial>)
    decreases ss
  {
    ss != [] ==> TailSealedElements(ss[0].elements) && TailSealedSerials(ss[1..])
  }

  predicate TailSealedElements(es: seq<Element>)
    decreases es
  {
    LeavesOfElements(es) != {} ==>
      if |es| == 1 then TailSealed(es[0]) else LeavesOfElements(es[1..]) != {} && TailSealedElements(es[1..])
  }

  /** Whoever opens e opens all of e: no serial group in it begins leafless. */
  predicate HeadSealed(e: Element)
    decreases e
  {
    e.Group? ==> HeadSealedSerials(e.group.serials)
  }

  predicate HeadSealedSerials(ss: seq<Serial>)
    decreases ss
  {
    ss != [] ==> HeadSealedElements(ss[0].elements) && HeadSealedSerials(ss[1..])
  }

  predicate HeadSealedElements(es: seq<Element>)
    decreases es
  {
    LeavesOfElements(es) != {} ==> LeavesOf(es[0]) != {} && HeadSealed(es[0])
  }

  // ---- Facts about trees ------------------------------------------------------------------

  lemma {:induction false} PrecedesLeavesSerials(ss: seq<Serial>, u: int, v: int)
    requires PrecedesInSerials(ss, u, v)
    ensures u in LeavesOfSerials(ss) && v in LeavesOfSerials(ss)
    decreases ss
  {
    if PrecedesInElements(ss[0].elements, u, v) {
      PrecedesLeavesElements(ss[0].elements, u, v);
    } else {
      PrecedesLeavesSerials(ss[1..], u, v);
    }
  }

  lemma {:induction false} PrecedesLeavesElements(es: seq<Element>, u: int, v: int)
    requires PrecedesInElements(es, u, v)
    ensures u in LeavesOfElements(es) && v in LeavesOfElements(es)
    decreases es
  {
    if PrecedesIn(es[0], u, v) {
      PrecedesLeaves(es[0], u, v);
    } else if PrecedesInElements(es[1..], u, v) {
      PrecedesLeavesElements(es[1..], u, v);
    }
  }

  lemma {:induction false} PrecedesLeaves(e: Element, u: int, v: int)
    requires PrecedesIn(e, u, v)
    ensures u in LeavesOf(e) && v in LeavesOf(e)
    decreases e
  {
    PrecedesLeavesSerials(e.group.serials, u, v);
  }

  lemma {:induction false} TransitiveSerials(ss: seq<Serial>, u: int, v: int, w: int)
    requires DistinctSerials(ss) && PrecedesInSerials(ss, u, v) && PrecedesInSerials(ss, v, w)
    ensures PrecedesInSerials(ss, u, w)
    decreases ss
  {
    var es := ss[0].elements;
    if PrecedesInElements(es, u, v) { PrecedesLeavesElements(es, u, v); } else { PrecedesLeavesSerials(ss[1..], u, v); }
    if PrecedesInElements(es, v, w) {
      PrecedesLeavesElements(es, v, w);
      TransitiveElements(es, u, v, w);
    } else {
      PrecedesLeavesSerials(ss[1..], v, w);
      TransitiveSerials(ss[1..], u, v, w);
    }
  }

  lemma {:induction false} TransitiveElements(es: seq<Element>, u: int, v: int, w: int)
    requires DistinctElements(es) && PrecedesInElements(es, u, v) && PrecedesInElements(es, v, w)
    ensures PrecedesInElements(es, u, w)
    decreases es
  {
    if PrecedesIn(es[0], u, v) { PrecedesLeaves(es[0], u, v); }
    if PrecedesIn(es[0], v, w) { PrecedesLeaves(es[0], v, w); }
    if PrecedesInElements(es[1..], u, v) { PrecedesLeavesElements(es[1..], u, v); }
    if PrecedesInElements(es[1..], v, w) { PrecedesLeavesElements(es[1..], v, w); }
    if PrecedesIn(es[0], u, v) && PrecedesIn(es[0], v, w) {
      TransitiveElement(es[0], u, v, w);
    } else if PrecedesInElements(es[1..], u, v) && PrecedesInElements(es[1..], v, w) {
      TransitiveElements(es[1..], u, v, w);
    }
  }

  lemma {:induction false} TransitiveElement(e: Element, u: int, v: int, w: int)
    requires DistinctElement(e) && PrecedesIn(e, u, v) && PrecedesIn(e, v, w)
    ensures PrecedesIn(e, u, w)
    decreases e
  {
    assert Distinct(e.group);
    TransitiveSerials(e.group.serials, u, v, w);
  }

  lemma {:induction false} NoEmptyElements(es: seq<Element>)
    requires NoEmptyGroupIn(es) && LongSerialsIn(es)
    ensures SealedElements(es) && TailSealedElements(es) && HeadSealedElements(es)
    ensures es != [] ==> LeavesOfElements(es) != {}
    decreases es
  {
    if es != [] {
      NoEmptyElement(es[0]);
      NoEmptyElements(es[1..]);
      assert LeavesOf(es[0]) <= LeavesOfElements(es);
    }
  }

  lemma {:induction false} NoEmptyElement(e: Element)
    requires NoEmptyGroupOf(e) && LongSerialsOf(e)
    ensures SealedElement(e) && TailSealed(e) && HeadSealed(e) && LeavesOf(e) != {}
    decreases e
  {
    match e {
      case Fmu(id) => assert id in LeavesOf(e);
      case Group(p) =>
        NoEmptySerials(p.serials);
        assert p.fmus <= Leaves(p) && LeavesOfSerials(p.serials) <= Leaves(p);
    }
  }

  lemma {:induction false} NoEmptySerials(ss: seq<Serial>)
    requires NoEmptyGroupAll(ss) && LongSerialsAll(ss)
    ensures SealedSerials(ss) && TailSealedSerials(ss) && HeadSealedSerials(ss)
    ensures ss != [] ==> LeavesOfSerials(ss) != {}
    decreases ss
  {
    if ss != [] {
      NoEmptyElements(ss[0].elements);
      NoEmptySerials(ss[1..]);
      assert LeavesOfElements(ss[0].elements) <= LeavesOfSerials(ss);
    }
  }
}
