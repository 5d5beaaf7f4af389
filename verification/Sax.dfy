/** Reading the execution order: the handlers that expat calls for every tag and piece of text. */
module Sax {
  import opened IntSets
  import opened OrderTree
  import opened Options

  const MAX_DEPTH := 256

  datatype Event = Start(name: string) | Text(chunk: string) | End(name: string)

  /** A node that a pointer of the stack may designate. */
  datatype Node = PNode(p: Parallel) | SNode(s: Serial)

  /** A pointer into the tree under construction: the way down from the root, or NULL. */
  datatype Pointer = Null | To(path: seq<nat>)

  /** ParserStruct. */
  datatype Parser = Parser(root: Parallel, depth: nat, text: string, pointers: seq<Pointer>)

  // ---- Nodes by path --------------------------------------------------------------------------------

  predicate SameKind(a: Node, b: Node) {
    a.PNode? <==> b.PNode?
  }

  predicate HasChild(n: Node, i: nat) {
    match n
    case PNode(p) => i < |p.serials|
    case SNode(s) => i < |s.elements| && s.elements[i].Group?
  }

  function Child(n: Node, i: nat): (c: Node)
    requires HasChild(n, i)
    ensures c.PNode? <==> n.SNode?
  {
    match n
    case PNode(p) => SNode(p.serials[i])
    case SNode(s) => PNode(s.elements[i].group)
  }

  function WithChild(n: Node, i: nat, c: Node): (r: Node)
    requires HasChild(n, i) && !SameKind(n, c)
    ensures SameKind(r, n) && HasChild(r, i) && Child(r, i) == c
    ensures forall j: nat :: HasChild(r, j) <==> HasChild(n, j)
  {
    match n
    case PNode(p) => PNode(p.(serials := p.serials[i := c.s]))
    case SNode(s) => SNode(s.(elements := s.elements[i := Group(c.p)]))
  }

  predicate Leads(n: Node, path: seq<nat>)
    decreases |path|
  {
    path == [] || (HasChild(n, path[0]) && Leads(Child(n, path[0]), path[1..]))
  }

  function Get(n: Node, path: seq<nat>): Node
    requires Leads(n, path)
    decreases |path|
  {
    if path == [] then n else Get(Child(n, path[0]), path[1..])
  }

  function Put(n: Node, path: seq<nat>, m: Node): (r: Node)
    requires Leads(n, path) && SameKind(m, Get(n, path))
    ensures SameKind(r, n)
    decreases |path|
  {
    if path == [] then m else WithChild(n, path[0], Put(Child(n, path[0]), path[1..], m))
  }

  lemma {:induction false} GetPut(n: Node, path: seq<nat>, m: Node)
    requires Leads(n, path) && SameKind(m, Get(n, path))
    ensures Leads(Put(n, path, m), path) && Get(Put(n, path, m), path) == m
    decreases |path|
  {
    if path != [] { GetPut(Child(n, path[0]), path[1..], m); }
  }

  lemma {:induction false} PutPut(n: Node, path: seq<nat>, m: Node, k: Node)
    requires Leads(n, path) && SameKind(m, Get(n, path)) && SameKind(k, m)
    ensures Leads(Put(n, path, m), path) && Get(Put(n, path, m), path) == m
    ensures Put(Put(n, path, m), path, k) == Put(n, path, k)
    decreases |path|
  {
    GetPut(n, path, m);
    if path != [] { PutPut(Child(n, path[0]), path[1..], m, k); }
  }

  lemma {:induction false} PutGet(n: Node, path: seq<nat>)
    requires Leads(n, path)
    ensures Put(n, path, Get(n, path)) == n
    decreases |path|
  {
    if path != [] { PutGet(Child(n, path[0]), path[1..]); }
  }

  /** The kind of a node is the parity of its depth. */
  lemma {:induction false} KindByDepth(n: Node, path: seq<nat>)
    requires Leads(n, path)
    ensures Get(n, path).PNode? <==> (n.PNode? <==> |path| % 2 == 0)
    decreases |path|
  {
    if path != [] { KindByDepth(Child(n, path[0]), path[1..]); }
  }

  lemma {:induction false} LeadsFurther(n: Node, path: seq<nat>, i: nat)
    requires Leads(n, path)
    ensures Leads(n, path + [i]) <==> HasChild(Get(n, path), i)
    ensures Leads(n, path + [i]) ==> Get(n, path + [i]) == Child(Get(n, path), i)
    decreases |path|
  {
    if path == [] {
      assert path + [i] == [i] && [i][1..] == [];
    } else {
      assert (path + [i])[1..] == path[1..] + [i];
      LeadsFurther(Child(n, path[0]), path[1..], i);
    }
  }

  /** Changing a child is changing its parent there. */
  lemma {:induction false} PutFurther(n: Node, path: seq<nat>, i: nat, c: Node)
    requires Leads(n, path) && HasChild(Get(n, path), i) && SameKind(c, Child(Get(n, path), i))
    ensures Leads(n, path + [i]) && SameKind(c, Get(n, path + [i]))
    ensures Put(n, path + [i], c) == Put(n, path, WithChild(Get(n, path), i, c))
    decreases |path|
  {
    LeadsFurther(n, path, i);
    if path == [] {
      assert path + [i] == [i] && [i][1..] == [];
    } else {
      assert (path + [i])[1..] == path[1..] + [i];
      PutFurther(Child(n, path[0]), path[1..], i, c);
    }
  }

  /** Prefixes of a path lead somewhere, also after a change at its end that keeps the children there. */
  lemma {:induction false} LeadsEarlier(n: Node, path: seq<nat>, k: nat, m: Node)
    requires Leads(n, path) && k <= |path| && SameKind(m, Get(n, path))
    ensures Leads(n, path[..k]) && Leads(Put(n, path, m), path[..k])
    decreases |path|
  {
    if k > 0 {
      assert path[..k][1..] == path[1..][..k - 1];
      LeadsEarlier(Child(n, path[0]), path[1..], k - 1, m);
    }
  }

  // ---- The handlers ---------------------------------------------------------------------------------

  const NAMESPACE := "http://umit.math.umu.se/FmiGo.xsd"

  predicate TagMatches(tag: string, expected: string) {
    tag == expected || tag == NAMESPACE + ":" + expected
  }

  const EMPTY := Parallel({}, [])

  const BEGIN := Parser(EMPTY, 0, "", [To([])] + seq(MAX_DEPTH - 1, _ => Null))

  /** Pointer ptr designates a node of the wanted kind. */
  predicate Designates(root: Parallel, ptr: Pointer, parallel: bool) {
    ptr.To? && Leads(PNode(root), ptr.path) && Get(PNode(root), ptr.path).PNode? == parallel
  }

  /** The node one level up in the stack gets a new last child, open at this level; or an FMU. */
  function Grown(n: Node): Node {
    match n
    case PNode(p) => PNode(p.(serials := p.serials + [Serial([])]))
    case SNode(s) => SNode(s.(elements := s.elements + [Group(EMPTY)]))
  }

  function Width(n: Node): nat {
    match n
    case PNode(p) => |p.serials|
    case SNode(s) => |s.elements|
  }

  function WithFmu(n: Node, f: int): Node {
    match n
    case PNode(p) => PNode(p.(fmus := p.fmus + {f}))
    case SNode(s) => SNode(s.(elements := s.elements + [Fmu(f)]))
  }

  /** depth++ with the depth check, and the text dropped. */
  function Deeper(root: Parallel, depth: nat, pointers: seq<Pointer>): Outcome<Parser> {
    if depth + 1 >= MAX_DEPTH then Stop else Ok(Parser(root, depth + 1, "", pointers))
  }

  /** startElement. Following a pointer that designates no node of the right kind counts as stopping. */
  function Started(st: Parser, name: string): Outcome<Parser>
    requires st.depth < |st.pointers|
  {
    var d := st.depth;
    if TagMatches(name, "f") then Deeper(st.root, d, st.pointers[d := Null])
    else if !TagMatches(name, if d % 2 == 0 then "p" else "s") then Stop
    else if d == 0 then Deeper(st.root, d, st.pointers)
    else if !Designates(st.root, st.pointers[d - 1], d % 2 == 1) then Stop
    else
      var path := st.pointers[d - 1].path;
      var n := Get(PNode(st.root), path);
      Deeper(Put(PNode(st.root), path, Grown(n)).p, d, st.pointers[d := To(path + [Width(n)])])
  }

  /** endElement. */
  function Ended(st: Parser, name: string): Outcome<Parser>
    requires st.depth < |st.pointers|
  {
    if st.depth == 0 then Stop
    else
      var d := st.depth - 1;
      if !TagMatches(name, "f") then Ok(Parser(st.root, d, "", st.pointers))
      else if st.text == "" || d == 0 || !Designates(st.root, st.pointers[d - 1], d % 2 == 1) then Stop
      else
        var path := st.pointers[d - 1].path;
        var n := Get(PNode(st.root), path);
        Ok(Parser(Put(PNode(st.root), path, WithFmu(n, Atoi(st.text))).p, d, "", st.pointers))
  }

  function Handled(st: Parser, e: Event): Outcome<Parser>
    requires st.depth < |st.pointers|
  {
    match e
    case Start(name) => Started(st, name)
    case Text(chunk) => Ok(st.(text := st.text + chunk))
    case End(name) => Ended(st, name)
  }

  // ---- Numbers --------------------------------------------------------------------------------------

  predicate IsDigit(c: char) {
    '0' <= c <= '9'
  }

  function ValueOf(c: char): nat
    requires IsDigit(c)
  {
    (c - '0') as nat
  }

  predicate IsSpace(c: char) {
    c == ' ' || '\t' <= c <= '\r'
  }

  /** The digits s begins with, read after the number n. */
  function Digits(s: string, n: nat): nat {
    if s == "" || !IsDigit(s[0]) then n else Digits(s[1..], 10 * n + ValueOf(s[0]))
  }

  /** atoi: spaces, a sign, digits; whatever follows is ignored. */
  function Atoi(s: string): int {
    if s == "" then 0
    else if IsSpace(s[0]) then Atoi(s[1..])
    else if s[0] == '-' then 0 - Digits(s[1..], 0)
    else if s[0] == '+' then Digits(s[1..], 0)
    else Digits(s, 0)
  }

  function Decimal(n: nat): (s: string)
    ensures s != "" && forall i | 0 <= i < |s| :: IsDigit(s[i])
  {
    var digit := ('0' as int + n % 10) as char;
    if n < 10 then [digit] else Decimal(n / 10) + [digit]
  }

  lemma {:induction false} DigitsAppend(s: string, c: char, n: nat)
    requires IsDigit(c) && forall i | 0 <= i < |s| :: IsDigit(s[i])
    ensures Digits(s + [c], n) == 10 * Digits(s, n) + ValueOf(c)
    decreases |s|
  {
    if s == "" {
      assert s + [c] == [c] && [c][1..] == "";
    } else {
      assert (s + [c])[1..] == s[1..] + [c];
      DigitsAppend(s[1..], c, 10 * n + ValueOf(s[0]));
    }
  }

  lemma {:induction false} DigitsDecimal(n: nat)
    ensures Digits(Decimal(n), 0) == n
  {
    var digit := ('0' as int + n % 10) as char;
    if n < 10 {
      assert [digit][1..] == "";
    } else {
      DigitsDecimal(n / 10);
      DigitsAppend(Decimal(n / 10), digit, 0);
    }
  }

  /** A written id is read back. */
  lemma AtoiDecimal(n: nat)
    ensures Atoi(Decimal(n)) == n
  {
    DigitsDecimal(n);
    assert IsDigit(Decimal(n)[0]);
  }

  // ---- The pointer stack ----------------------------------------------------------------------------

  /** How many of the d open elements are nodes: all, but for any <f> on top. */
  function OpenNodes(pointers: seq<Pointer>, d: nat): (n: nat)
    requires d <= |pointers|
    ensures n <= d && (n > 0 ==> pointers[n - 1].To?)
  {
    if d == 0 || pointers[d - 1].To? then d else OpenNodes(pointers, d - 1)
  }

  /** The stack designates the open nodes: each pointer leads to a child of the node below it in the stack. */
  ghost predicate StackOpen(st: Parser) {
    && |st.pointers| == MAX_DEPTH && st.depth < MAX_DEPTH
    && st.pointers[0] in {Null, To([])}
    && (OpenNodes(st.pointers, st.depth) > 0 ==> Chain(st.root, st.pointers, OpenNodes(st.pointers, st.depth)))
  }

  ghost predicate Chain(root: Parallel, pointers: seq<Pointer>, n: nat)
    requires 0 < n <= |pointers|
  {
    var top := pointers[n - 1];
    && top.To? && |top.path| == n - 1 && Leads(PNode(root), top.path)
    && forall k | 0 <= k < n :: pointers[k] == To(top.path[..k])
  }

  lemma ChainEarlier(root: Parallel, pointers: seq<Pointer>, n: nat, k: nat)
    requires 0 < k <= n <= |pointers| && Chain(root, pointers, n)
    ensures Chain(root, pointers, k)
  {
    var top := pointers[n - 1].path;
    LeadsEarlier(PNode(root), top, k - 1, Get(PNode(root), top));
    assert forall j | 0 <= j < k :: top[..k - 1][..j] == top[..j];
  }

  lemma {:induction false} OpenNodesSame(a: seq<Pointer>, b: seq<Pointer>, d: nat)
    requires d <= |a| && d <= |b| && a[..d] == b[..d]
    ensures OpenNodes(a, d) == OpenNodes(b, d)
  {
    if d > 0 {
      assert a[..d][..d - 1] == a[..d - 1] && b[..d][..d - 1] == b[..d - 1];
      assert a[..d][d - 1] == a[d - 1] && b[..d][d - 1] == b[d - 1];
      OpenNodesSame(a, b, d - 1);
    }
  }

  lemma {:induction false} OpenNodesEarlier(pointers: seq<Pointer>, c: nat, d: nat)
    requires c <= d <= |pointers|
    ensures OpenNodes(pointers, c) <= OpenNodes(pointers, d)
  {
    if c < d { OpenNodesEarlier(pointers, c, d - 1); }
  }

  /** Closing elements leaves a stack of fewer open nodes. */
  lemma Popped(st: Parser, d: nat)
    requires StackOpen(st) && d <= st.depth
    ensures StackOpen(st.(depth := d, text := ""))
  {
    OpenNodesEarlier(st.pointers, d, st.depth);
    if OpenNodes(st.pointers, d) > 0 {
      ChainEarlier(st.root, st.pointers, OpenNodes(st.pointers, st.depth), OpenNodes(st.pointers, d));
    }
  }

  lemma ChainGrows(root: Parallel, root': Parallel, pointers: seq<Pointer>, d: nat, w: nat)
    requires 0 < d < |pointers| && Chain(root, pointers, d) && Leads(PNode(root'), pointers[d - 1].path + [w])
    ensures Chain(root', pointers[d := To(pointers[d - 1].path + [w])], d + 1)
  {
    var path := pointers[d - 1].path;
    forall k | 0 <= k < d ensures (path + [w])[..k] == path[..k] {
    }
    assert (path + [w])[..d] == path + [w];
  }

  lemma NewChildLeads(root: Parallel, path: seq<nat>)
    requires Leads(PNode(root), path)
    ensures var n := Get(PNode(root), path);
            Leads(Put(PNode(root), path, Grown(n)), path + [Width(n)])
  {
    var n := Get(PNode(root), path);
    GetPut(PNode(root), path, Grown(n));
    LeadsFurther(Put(PNode(root), path, Grown(n)), path, Width(n));
  }

  lemma StartedKeepsStack(st: Parser, name: string)
    requires StackOpen(st) && Started(st, name).Ok?
    ensures StackOpen(Started(st, name).value)
  {
    var st', d := Started(st, name).value, st.depth;
    if TagMatches(name, "f") {
      OpenNodesSame(st.pointers, st'.pointers, d);
    } else if d > 0 {
      var path := st.pointers[d - 1].path;
      NewChildLeads(st.root, path);
      ChainGrows(st.root, st'.root, st.pointers, d, Width(Get(PNode(st.root), path)));
    }
  }

  lemma EndedKeepsStack(st: Parser, name: string)
    requires StackOpen(st) && Ended(st, name).Ok?
    ensures StackOpen(Ended(st, name).value)
  {
    var st', d := Ended(st, name).value, st.depth - 1;
    Popped(st, d);
    if TagMatches(name, "f") {
      var path := st.pointers[d - 1].path;
      GetPut(PNode(st.root), path, WithFmu(Get(PNode(st.root), path), Atoi(st.text)));
    }
  }

  /** Whatever events arrive, as long as the parser goes on its stack designates the open nodes. */
  lemma HandledKeepsStack(st: Parser, e: Event)
    requires StackOpen(st) && Handled(st, e).Ok?
    ensures StackOpen(Handled(st, e).value)
  {
    match e
    case Text(_) =>
    case Start(name) => StartedKeepsStack(st, name);
    case End(name) => EndedKeepsStack(st, name);
  }

  /** For every sequence of events, as long as the parser goes on its stack designates the open nodes. */
  lemma {:induction false} RunKeepsStack(st: Parser, es: seq<Event>)
    requires StackOpen(st) && Run(st, es).Ok?
    ensures StackOpen(Run(st, es).value)
  {
    if es != [] {
      RunKeepsStack(st, es[..|es| - 1]);
      HandledKeepsStack(Run(st, es[..|es| - 1]).value, es[|es| - 1]);
    }
  }

  // ---- Documents ------------------------------------------------------------------------------------

  /** What stands inside a <p> or <s>: <f> with its text, blanks between tags, or a group of the other kind. */
  datatype Doc = Leaf(prefixed: bool, chunks: seq<string>) | Blank(chunk: string) | Sub(prefixed: bool, kids: seq<Doc>)

  function Tag(prefixed: bool, name: string): string {
    if prefixed then NAMESPACE + ":" + name else name
  }

  lemma TagsTell(prefixed: bool, name: string, other: string)
    requires |name| == |other| == 1
    ensures TagMatches(Tag(prefixed, name), other) <==> name == other
  {
    var long := NAMESPACE + ":" + name;
    assert long[|NAMESPACE| + 1] == name[0] && |long| == |NAMESPACE| + 2 && |NAMESPACE| == 33;
    assert (NAMESPACE + ":" + other)[|NAMESPACE| + 1] == other[0];
    assert name == other <==> name[0] == other[0];
  }

  function Concat(chunks: seq<string>): string {
    if chunks == [] then "" else Concat(chunks[..|chunks| - 1]) + chunks[|chunks| - 1]
  }

  function Texts(chunks: seq<string>): seq<Event> {
    seq(|chunks|, i requires 0 <= i < |chunks| => Text(chunks[i]))
  }

  function Fresh(parallel: bool): Node {
    if parallel then PNode(EMPTY) else SNode(Serial([]))
  }

  /** n with c as a new last child. */
  function WithLast(n: Node, c: Node): (r: Node)
    requires !SameKind(n, c)
    ensures SameKind(r, n)
  {
    match n
    case PNode(p) => PNode(p.(serials := p.serials + [c.s]))
    case SNode(s) => SNode(s.(elements := s.elements + [Group(c.p)]))
  }

  /** n with what the document adds to it: the tree that is meant. */
  function Filled(n: Node, kids: seq<Doc>): (r: Node)
    ensures SameKind(r, n)
    decreases kids
  {
    if kids == [] then n else Extended(Filled(n, kids[..|kids| - 1]), kids[|kids| - 1])
  }

  function Extended(n: Node, kid: Doc): (r: Node)
    ensures SameKind(r, n)
    decreases kid
  {
    match kid
    case Blank(_) => n
    case Leaf(_, chunks) => WithFmu(n, Atoi(Concat(chunks)))
    case Sub(_, kids) => WithLast(n, Filled(Fresh(!n.PNode?), kids))
  }

  /** The tag of a group inside a parallel or serial one. */
  function GroupTag(parallel: bool, prefixed: bool): string {
    Tag(prefixed, if parallel then "s" else "p")
  }

  function Events(parallel: bool, kids: seq<Doc>): seq<Event>
    decreases kids
  {
    if kids == [] then [] else Events(parallel, kids[..|kids| - 1]) + EventsOf(parallel, kids[|kids| - 1])
  }

  function EventsOf(parallel: bool, kid: Doc): seq<Event>
    decreases kid
  {
    match kid
    case Blank(chunk) => [Text(chunk)]
    case Leaf(prefixed, chunks) => [Start(Tag(prefixed, "f"))] + (Texts(chunks) + [End(Tag(prefixed, "f"))])
    case Sub(prefixed, kids) =>
      var tag := GroupTag(parallel, prefixed);
      [Start(tag)] + (Events(!parallel, kids) + [End(tag)])
  }

  /** No <f> is empty, and nothing is nested too deeply, below depth d. */
  predicate Fits(kids: seq<Doc>, d: nat)
    decreases kids
  {
    kids == [] || (Fits(kids[..|kids| - 1], d) && FitsOne(kids[|kids| - 1], d))
  }

  predicate FitsOne(kid: Doc, d: nat)
    decreases kid
  {
    match kid
    case Blank(_) => true
    case Leaf(_, chunks) => d + 1 < MAX_DEPTH && Concat(chunks) != ""
    case Sub(_, kids) => d + 1 < MAX_DEPTH && Fits(kids, d + 1)
  }

  // ---- Running the handlers over a document ---------------------------------------------------------

  function Run(st: Parser, es: seq<Event>): (r: Outcome<Parser>)
    requires |st.pointers| == MAX_DEPTH && st.depth < MAX_DEPTH
    ensures r.Ok? ==> |r.value.pointers| == MAX_DEPTH && r.value.depth < MAX_DEPTH
  {
    if es == [] then Ok(st)
    else
      var before := Run(st, es[..|es| - 1]);
      if before.Stop? then Stop else Handled(before.value, es[|es| - 1])
  }

  lemma {:induction false} RunAppend(st: Parser, a: seq<Event>, b: seq<Event>)
    requires |st.pointers| == MAX_DEPTH && st.depth < MAX_DEPTH
    ensures Run(st, a + b) == if Run(st, a).Stop? then Stop else Run(Run(st, a).value, b)
  {
    if b == [] {
      assert a + b == a;
    } else {
      RunAppend(st, a, b[..|b| - 1]);
      assert (a + b)[..|a + b| - 1] == a + b[..|b| - 1];
    }
  }

  lemma RunOne(st: Parser, e: Event)
    requires |st.pointers| == MAX_DEPTH && st.depth < MAX_DEPTH
    ensures Run(st, [e]) == Handled(st, e)
  {
    assert [e][..0] == [];
  }

  lemma {:induction false} RunTexts(st: Parser, chunks: seq<string>)
    requires |st.pointers| == MAX_DEPTH && st.depth < MAX_DEPTH
    ensures Run(st, Texts(chunks)) == Ok(st.(text := st.text + Concat(chunks)))
  {
    if chunks == [] {
      assert st.text + "" == st.text;
    } else {
      var init := chunks[..|chunks| - 1];
      RunTexts(st, init);
      assert Texts(chunks)[..|init|] == Texts(init);
      assert st.text + Concat(init) + chunks[|init|] == st.text + Concat(chunks);
    }
  }

  /** Inside an open group: the pointer below the current depth designates a node of the kind due there. */
  ghost predicate Inside(st: Parser) {
    && |st.pointers| == MAX_DEPTH && 0 < st.depth < MAX_DEPTH
    && Designates(st.root, st.pointers[st.depth - 1], st.depth % 2 == 1)
  }

  function Here(st: Parser): Node
    requires Inside(st)
  {
    Get(PNode(st.root), st.pointers[st.depth - 1].path)
  }

  /** st' is st with the open group replaced by n, and the same elements open. */
  ghost predicate Replaced(st: Parser, st': Parser, n: Node)
    requires Inside(st) && SameKind(n, Here(st))
  {
    && |st'.pointers| == MAX_DEPTH && st'.depth == st.depth && st'.pointers[..st.depth] == st.pointers[..st.depth]
    && PNode(st'.root) == Put(PNode(st.root), st.pointers[st.depth - 1].path, n)
  }

  lemma ReplacedInside(st: Parser, st': Parser, n: Node)
    requires Inside(st) && SameKind(n, Here(st)) && Replaced(st, st', n)
    ensures Inside(st') && Here(st') == n
  {
    GetPut(PNode(st.root), st.pointers[st.depth - 1].path, n);
    assert st'.pointers[..st.depth][st.depth - 1] == st.pointers[..st.depth][st.depth - 1];
  }

  lemma ReplacedTwice(st: Parser, st1: Parser, n1: Node, st2: Parser, n2: Node)
    requires Inside(st) && SameKind(n1, Here(st)) && Replaced(st, st1, n1)
    requires Inside(st1) && SameKind(n2, Here(st1)) && Replaced(st1, st2, n2) && SameKind(n2, n1)
    ensures Replaced(st, st2, n2)
  {
    PutPut(PNode(st.root), st.pointers[st.depth - 1].path, n1, n2);
    assert st1.pointers[..st.depth][st.depth - 1] == st.pointers[..st.depth][st.depth - 1];
  }

  /** </f>: the text read so far becomes an FMU of the group around it. */
  lemma LeafEnds(st: Parser, text: string, name: string)
    requires Inside(st) && st.depth + 1 < MAX_DEPTH && TagMatches(name, "f")
    ensures var st2 := Parser(st.root, st.depth + 1, text, st.pointers[st.depth := Null]);
            if text == "" then Ended(st2, name).Stop?
            else Ended(st2, name).Ok? && Replaced(st, Ended(st2, name).value, WithFmu(Here(st), Atoi(text)))
  {
  }

  /** <f> and its text. */
  lemma LeafRead(st: Parser, name: string, chunks: seq<string>)
    requires Inside(st) && TagMatches(name, "f")
    ensures Run(st, [Start(name)] + Texts(chunks))
            == if st.depth + 1 < MAX_DEPTH
               then Ok(Parser(st.root, st.depth + 1, Concat(chunks), st.pointers[st.depth := Null])) else Stop
  {
    RunAppend(st, [Start(name)], Texts(chunks));
    RunOne(st, Start(name));
    if st.depth + 1 < MAX_DEPTH {
      RunTexts(Parser(st.root, st.depth + 1, "", st.pointers[st.depth := Null]), chunks);
      assert "" + Concat(chunks) == Concat(chunks);
    }
  }

  lemma LeafRun(st: Parser, prefixed: bool, chunks: seq<string>)
    requires Inside(st)
    ensures var kid := Leaf(prefixed, chunks);
            var r := Run(st, EventsOf(st.depth % 2 == 1, kid));
            if FitsOne(kid, st.depth) then r.Ok? && Replaced(st, r.value, Extended(Here(st), kid)) else r.Stop?
  {
    var tag := Tag(prefixed, "f");
    TagsTell(prefixed, "f", "f");
    var most := [Start(tag)] + Texts(chunks);
    assert EventsOf(st.depth % 2 == 1, Leaf(prefixed, chunks)) == most + [End(tag)];
    RunAppend(st, most, [End(tag)]);
    LeafRead(st, tag, chunks);
    if st.depth + 1 < MAX_DEPTH {
      RunOne(Run(st, most).value, End(tag));
      LeafEnds(st, Concat(chunks), tag);
    }
  }

  predicate OpensGroup(st: Parser, tag: string) {
    !TagMatches(tag, "f") && TagMatches(tag, if st.depth % 2 == 0 then "p" else "s")
  }

  /** Opening a group inside a group of the other kind. */
  lemma Opened(st: Parser, tag: string)
    requires Inside(st) && OpensGroup(st, tag)
    ensures if st.depth + 1 >= MAX_DEPTH then Started(st, tag).Stop?
            else
              && Started(st, tag).Ok?
              && var st1 := Started(st, tag).value;
                 && st1.depth == st.depth + 1 && Inside(st1) && Here(st1) == Fresh(!Here(st).PNode?)
                 && Replaced(st, st1.(depth := st.depth), Grown(Here(st)))
                 && st1.pointers[st.depth] == To(st.pointers[st.depth - 1].path + [Width(Here(st))])
  {
    if st.depth + 1 < MAX_DEPTH {
      var path, n := st.pointers[st.depth - 1].path, Here(st);
      GetPut(PNode(st.root), path, Grown(n));
      LeadsFurther(Put(PNode(st.root), path, Grown(n)), path, Width(n));
    }
  }

  /** The group filled through its own pointer is the new last child of the group around it. */
  lemma Closed(st: Parser, st1: Parser, st2: Parser, c: Node)
    requires Inside(st) && st.depth + 1 < MAX_DEPTH && st1.depth == st.depth + 1 && Inside(st1)
    requires Replaced(st, st1.(depth := st.depth), Grown(Here(st)))
    requires st1.pointers[st.depth] == To(st.pointers[st.depth - 1].path + [Width(Here(st))])
    requires SameKind(c, Here(st1)) && Replaced(st1, st2, c) && !SameKind(c, Here(st))
    ensures Replaced(st, st2.(depth := st.depth, text := ""), WithLast(Here(st), c))
  {
    var path, n, r := st.pointers[st.depth - 1].path, Here(st), PNode(st.root);
    var r1 := Put(r, path, Grown(n));
    GetPut(r, path, Grown(n));
    PutFurther(r1, path, Width(n), c);
    PutPut(r, path, Grown(n), WithChild(Grown(n), Width(n), c));
    assert WithChild(Grown(n), Width(n), c) == WithLast(n, c);
    assert st2.pointers[..st.depth] == st2.pointers[..st.depth + 1][..st.depth]
           == st1.pointers[..st.depth + 1][..st.depth];
  }

  lemma GroupTagFits(st: Parser, prefixed: bool)
    ensures OpensGroup(st, GroupTag(st.depth % 2 == 1, prefixed))
  {
    var name := if st.depth % 2 == 1 then "s" else "p";
    TagsTell(prefixed, name, "f");
    TagsTell(prefixed, name, name);
  }

  lemma {:induction false} KidRun(st: Parser, kid: Doc)
    requires Inside(st)
    ensures var r := Run(st, EventsOf(st.depth % 2 == 1, kid));
            if FitsOne(kid, st.depth) then r.Ok? && Replaced(st, r.value, Extended(Here(st), kid)) else r.Stop?
    decreases kid
  {
    match kid
    case Blank(chunk) =>
      RunOne(st, Text(chunk));
      PutGet(PNode(st.root), st.pointers[st.depth - 1].path);
    case Leaf(prefixed, chunks) =>
      LeafRun(st, prefixed, chunks);
    case Sub(prefixed, kids) =>
      SubRun(st, prefixed, kids);
  }

  lemma {:induction false} SubRun(st: Parser, prefixed: bool, kids: seq<Doc>)
    requires Inside(st)
    ensures var kid := Sub(prefixed, kids);
            var r := Run(st, EventsOf(st.depth % 2 == 1, kid));
            if FitsOne(kid, st.depth) then r.Ok? && Replaced(st, r.value, Extended(Here(st), kid)) else r.Stop?
    decreases kids, 3
  {
    GroupTagFits(st, prefixed);
    TaggedRun(st, GroupTag(st.depth % 2 == 1, prefixed), kids);
  }

  lemma {:induction false} TaggedRun(st: Parser, tag: string, kids: seq<Doc>)
    requires Inside(st) && OpensGroup(st, tag)
    ensures var r := Run(st, [Start(tag)] + (Events(st.depth % 2 == 0, kids) + [End(tag)]));
            var c := Filled(Fresh(!Here(st).PNode?), kids);
            if st.depth + 1 < MAX_DEPTH && Fits(kids, st.depth + 1)
            then r.Ok? && Replaced(st, r.value, WithLast(Here(st), c))
            else r.Stop?
    decreases kids, 2
  {
    InsideRun(st, tag, kids);
    var c := Filled(Fresh(!Here(st).PNode?), kids);
    GroupRun(st, tag, Events(st.depth % 2 == 0, kids), c, Fits(kids, st.depth + 1));
  }

  /** A start tag and what is inside. */
  lemma {:induction false} InsideRun(st: Parser, tag: string, kids: seq<Doc>)
    requires Inside(st) && OpensGroup(st, tag)
    ensures st.depth + 1 < MAX_DEPTH ==>
              && Started(st, tag).Ok?
              && var st1, es := Started(st, tag).value, Events(st.depth % 2 == 0, kids);
                 && Inside(st1) && Here(st1) == Fresh(!Here(st).PNode?)
                 && if Fits(kids, st.depth + 1)
                    then Run(st1, es).Ok? && Replaced(st1, Run(st1, es).value, Filled(Here(st1), kids))
                    else Run(st1, es).Stop?
    decreases kids, 1
  {
    Opened(st, tag);
    if st.depth + 1 < MAX_DEPTH { KidsRun(Started(st, tag).value, kids); }
  }

  /** A group whose inside is read as c if it fits. */
  lemma GroupRun(st: Parser, tag: string, es: seq<Event>, c: Node, fits: bool)
    requires Inside(st) && SameKind(c, Fresh(!Here(st).PNode?))
    requires OpensGroup(st, tag)
    requires st.depth + 1 < MAX_DEPTH ==>
               && Started(st, tag).Ok?
               && var st1 := Started(st, tag).value;
                  && Inside(st1) && SameKind(c, Here(st1))
                  && if fits then Run(st1, es).Ok? && Replaced(st1, Run(st1, es).value, c) else Run(st1, es).Stop?
    ensures var r := Run(st, [Start(tag)] + (es + [End(tag)]));
            if st.depth + 1 < MAX_DEPTH && fits then r.Ok? && Replaced(st, r.value, WithLast(Here(st), c))
            else r.Stop?
  {
    Bracketed(st, tag, es);
    Opened(st, tag);
    if st.depth + 1 < MAX_DEPTH && fits {
      var st1 := Started(st, tag).value;
      Closed(st, st1, Run(st1, es).value, c);
    }
  }

  /** A start tag, what is inside, and the end tag. */
  lemma Bracketed(st: Parser, tag: string, es: seq<Event>)
    requires |st.pointers| == MAX_DEPTH && st.depth < MAX_DEPTH
    ensures Run(st, [Start(tag)] + (es + [End(tag)]))
            == var st1 := Started(st, tag);
               if st1.Stop? then Stop
               else
                 var st2 := Run(st1.value, es);
                 if st2.Stop? then Stop else Ended(st2.value, tag)
  {
    RunAppend(st, [Start(tag)], es + [End(tag)]);
    RunOne(st, Start(tag));
    if Started(st, tag).Ok? {
      var st1 := Started(st, tag).value;
      RunAppend(st1, es, [End(tag)]);
      if Run(st1, es).Ok? { RunOne(Run(st1, es).value, End(tag)); }
    }
  }

  lemma {:induction false} KidsRun(st: Parser, kids: seq<Doc>)
    requires Inside(st)
    ensures var r := Run(st, Events(st.depth % 2 == 1, kids));
            if Fits(kids, st.depth) then r.Ok? && Replaced(st, r.value, Filled(Here(st), kids)) else r.Stop?
    decreases kids, 0
  {
    if kids == [] {
      PutGet(PNode(st.root), st.pointers[st.depth - 1].path);
    } else {
      var init, kid := kids[..|kids| - 1], kids[|kids| - 1];
      KidsRun(st, init);
      RunAppend(st, Events(st.depth % 2 == 1, init), EventsOf(st.depth % 2 == 1, kid));
      if Fits(init, st.depth) {
        var st1 := Run(st, Events(st.depth % 2 == 1, init)).value;
        ReplacedInside(st, st1, Filled(Here(st), init));
        KidRun(st1, kid);
        if FitsOne(kid, st.depth) {
          var st2 := Run(st1, EventsOf(st.depth % 2 == 1, kid)).value;
          ReplacedTwice(st, st1, Filled(Here(st), init), st2, Filled(Here(st), kids));
        }
      }
    }
  }

  function Document(prefixed: bool, kids: seq<Doc>): seq<Event> {
    var tag := Tag(prefixed, "p");
    [Start(tag)] + (Events(true, kids) + [End(tag)])
  }

  /** The handlers build exactly the tree the document means, and stop exactly if it does not fit. */
  lemma DocumentRun(prefixed: bool, kids: seq<Doc>)
    ensures var r := Run(BEGIN, Document(prefixed, kids));
            if Fits(kids, 1) then r.Ok? && r.value.depth == 0
                && PNode(r.value.root) == Filled(PNode(EMPTY), kids) else r.Stop?
  {
    var tag := Tag(prefixed, "p");
    TagsTell(prefixed, "p", "f");
    TagsTell(prefixed, "p", "p");
    RunAppend(BEGIN, [Start(tag)], Events(true, kids) + [End(tag)]);
    RunOne(BEGIN, Start(tag));
    var st1 := Started(BEGIN, tag).value;
    assert Inside(st1) && Here(st1) == PNode(EMPTY);
    RunAppend(st1, Events(true, kids), [End(tag)]);
    KidsRun(st1, kids);
    if Fits(kids, 1) { RunOne(Run(st1, Events(true, kids)).value, End(tag)); }
  }

  /** How many elements are nested in each other. */
  function Height(kids: seq<Doc>): nat
    decreases kids
  {
    if kids == [] then 0
    else
      var a, b := Height(kids[..|kids| - 1]), HeightOf(kids[|kids| - 1]);
      if a < b then b else a
  }

  function HeightOf(kid: Doc): nat
    decreases kid
  {
    match kid
    case Blank(_) => 0
    case Leaf(_, _) => 1
    case Sub(_, kids) => 1 + Height(kids)
  }

  predicate NoEmptyLeaf(kids: seq<Doc>)
    decreases kids
  {
    kids == [] || (NoEmptyLeaf(kids[..|kids| - 1]) && NoEmptyLeafIn(kids[|kids| - 1]))
  }

  predicate NoEmptyLeafIn(kid: Doc)
    decreases kid
  {
    match kid
    case Blank(_) => true
    case Leaf(_, chunks) => Concat(chunks) != ""
    case Sub(_, kids) => NoEmptyLeaf(kids)
  }

  lemma {:induction false} FitsIff(kids: seq<Doc>, d: nat)
    requires d < MAX_DEPTH
    ensures Fits(kids, d) <==> NoEmptyLeaf(kids) && d + Height(kids) < MAX_DEPTH
    decreases kids
  {
    if kids != [] {
      FitsIff(kids[..|kids| - 1], d);
      var kid := kids[|kids| - 1];
      assert FitsOne(kid, d) <==> NoEmptyLeafIn(kid) && d + HeightOf(kid) < MAX_DEPTH by {
        if kid.Sub? && d + 1 < MAX_DEPTH { FitsIff(kid.kids, d + 1); }
      }
    }
  }

  // ---- Every tree can be written, and in any interleaving -------------------------------------------

  /** Inside a parallel group, where a leaf stands among the serial groups does not matter. */
  lemma LeavesCommute(p: Parallel, leaf: Doc, sub: Doc)
    requires leaf.Leaf? && sub.Sub?
    ensures Extended(Extended(PNode(p), leaf), sub) == Extended(Extended(PNode(p), sub), leaf)
  {
  }

  lemma {:induction false} FilledAppend(n: Node, a: seq<Doc>, b: seq<Doc>)
    ensures Filled(n, a + b) == Filled(Filled(n, a), b)
  {
    if b == [] {
      assert a + b == a;
    } else {
      FilledAppend(n, a, b[..|b| - 1]);
      assert (a + b)[..|a + b| - 1] == a + b[..|b| - 1];
    }
  }

  lemma FilledOne(n: Node, kid: Doc)
    ensures Filled(n, [kid]) == Extended(n, kid)
  {
    assert [kid][..0] == [];
  }

  lemma {:induction false} FullAppend(a: seq<Doc>, b: seq<Doc>)
    ensures NoEmptyLeaf(a + b) <==> NoEmptyLeaf(a) && NoEmptyLeaf(b)
  {
    if b == [] {
      assert a + b == a;
    } else {
      FullAppend(a, b[..|b| - 1]);
      assert (a + b)[..|a + b| - 1] == a + b[..|b| - 1];
    }
  }

  lemma FullOne(kid: Doc)
    ensures NoEmptyLeaf([kid]) <==> NoEmptyLeafIn(kid)
  {
    assert [kid][..0] == [];
  }

  predicate NoNegatives(s: set<int>) {
    forall x | x in s :: x >= 0
  }

  lemma {:induction false} WriteFmus(p: Parallel, s: set<int>) returns (kids: seq<Doc>)
    requires NoNegatives(s)
    ensures Filled(PNode(p), kids) == PNode(p.(fmus := p.fmus + s)) && NoEmptyLeaf(kids)
    decreases s
  {
    if s == {} {
      SameByElements(p.fmus + s, p.fmus);
      kids := [];
    } else {
      var x := PickOne(s);
      var before := WriteFmus(p, s - {x});
      var leaf := Leaf(false, [Decimal(x)]);
      AtoiDecimal(x);
      assert [Decimal(x)][..0] == [] && Concat([Decimal(x)]) == "" + Decimal(x);
      assert "" + Decimal(x) == Decimal(x);
      FullAppend(before, [leaf]);
      FullOne(leaf);
      FilledAppend(PNode(p), before, [leaf]);
      FilledOne(Filled(PNode(p), before), leaf);
      SameByElements(p.fmus + (s - {x}) + {x}, p.fmus + s);
      kids := before + [leaf];
    }
  }

  lemma {:induction false} WriteElements(es: seq<Element>) returns (kids: seq<Doc>)
    requires NoNegatives(LeavesOfElements(es))
    ensures Filled(SNode(Serial([])), kids) == SNode(Serial(es)) && NoEmptyLeaf(kids)
    decreases es, 1
  {
    kids := WriteElementsAfter([], es);
    assert [] + es == es;
  }

  lemma {:induction false} WriteElement(e: Element) returns (kid: Doc)
    requires NoNegatives(LeavesOf(e))
    ensures forall done: seq<Element> :: Extended(SNode(Serial(done)), kid) == SNode(Serial(done + [e]))
    ensures NoEmptyLeafIn(kid)
    decreases e
  {
    match e {
      case Fmu(id) =>
        kid := Leaf(false, [Decimal(id)]);
        AtoiDecimal(id);
        assert [Decimal(id)][..0] == [] && Concat([Decimal(id)]) == "" + Decimal(id);
        assert "" + Decimal(id) == Decimal(id);
      case Group(p) =>
        var ks := WriteParallel(p);
        kid := Sub(false, ks);
    }
  }

  lemma {:induction false} WriteElementsAfter(done: seq<Element>, es: seq<Element>) returns (kids: seq<Doc>)
    requires NoNegatives(LeavesOfElements(es))
    ensures Filled(SNode(Serial(done)), kids) == SNode(Serial(done + es)) && NoEmptyLeaf(kids)
    decreases es, 0
  {
    if es == [] {
      assert done + es == done;
      kids := [];
    } else {
      var kid := WriteElement(es[0]);
      var rest := WriteElementsAfter(done + [es[0]], es[1..]);
      FullAppend([kid], rest);
      FullOne(kid);
      FilledAppend(SNode(Serial(done)), [kid], rest);
      FilledOne(SNode(Serial(done)), kid);
      assert done + [es[0]] + es[1..] == done + es;
      kids := [kid] + rest;
    }
  }

  lemma {:induction false} WriteSerials(p: Parallel, ss: seq<Serial>) returns (kids: seq<Doc>)
    requires NoNegatives(LeavesOfSerials(ss))
    ensures Filled(PNode(p), kids) == PNode(p.(serials := p.serials + ss)) && NoEmptyLeaf(kids)
    decreases ss
  {
    if ss == [] {
      assert p.serials + ss == p.serials;
      kids := [];
    } else {
      var ks := WriteElements(ss[0].elements);
      var p' := p.(serials := p.serials + [ss[0]]);
      var rest := WriteSerials(p', ss[1..]);
      FullAppend([Sub(false, ks)], rest);
      FullOne(Sub(false, ks));
      FilledAppend(PNode(p), [Sub(false, ks)], rest);
      FilledOne(PNode(p), Sub(false, ks));
      assert p.serials + [ss[0]] + ss[1..] == p.serials + ss;
      kids := [Sub(false, ks)] + rest;
    }
  }

  /** Every tree of FMU ids is the meaning of some document. */
  lemma {:induction false} WriteParallel(p: Parallel) returns (kids: seq<Doc>)
    requires NoNegatives(Leaves(p))
    ensures Filled(PNode(EMPTY), kids) == PNode(p) && NoEmptyLeaf(kids)
    decreases p
  {
    var a := WriteFmus(EMPTY, p.fmus);
    var b := WriteSerials(Parallel({} + p.fmus, []), p.serials);
    FullAppend(a, b);
    FilledAppend(PNode(EMPTY), a, b);
    assert [] + p.serials == p.serials;
    SameByElements({} + p.fmus, p.fmus);
    kids := a + b;
  }

  // ---- How deep a tree is ---------------------------------------------------------------------------

  function Max(a: nat, b: nat): nat {
    if a < b then b else a
  }

  /** How many elements are nested in each other inside the group, when it is written. */
  function Nesting(p: Parallel): nat
    decreases p
  {
    Max(if p.fmus == {} then 0 else 1, NestingSerials(p.serials))
  }

  function NestingSerials(ss: seq<Serial>): nat
    decreases ss
  {
    if ss == [] then 0 else Max(1 + NestingElements(ss[0].elements), NestingSerials(ss[1..]))
  }

  function NestingElements(es: seq<Element>): nat
    decreases es
  {
    if es == [] then 0 else Max(NestingElement(es[0]), NestingElements(es[1..]))
  }

  function NestingElement(e: Element): nat
    decreases e
  {
    match e
    case Fmu(_) => 1
    case Group(p) => 1 + Nesting(p)
  }

  function NestingOf(n: Node): nat {
    match n
    case PNode(p) => Nesting(p)
    case SNode(s) => NestingElements(s.elements)
  }

  lemma {:induction false} NestingSerialsAppend(ss: seq<Serial>, s: Serial)
    ensures NestingSerials(ss + [s]) == Max(NestingSerials(ss), 1 + NestingElements(s.elements))
  {
    if ss == [] {
      assert ss + [s] == [s] && [s][1..] == [];
    } else {
      NestingSerialsAppend(ss[1..], s);
      assert (ss + [s])[1..] == ss[1..] + [s];
    }
  }

  lemma {:induction false} NestingElementsAppend(es: seq<Element>, e: Element)
    ensures NestingElements(es + [e]) == Max(NestingElements(es), NestingElement(e))
  {
    if es == [] {
      assert es + [e] == [e] && [e][1..] == [];
    } else {
      NestingElementsAppend(es[1..], e);
      assert (es + [e])[1..] == es[1..] + [e];
    }
  }

  /** A document nests exactly as deep as the tree that it means. */
  lemma {:induction false} HeightIsNesting(n: Node, kids: seq<Doc>)
    ensures NestingOf(Filled(n, kids)) == Max(NestingOf(n), Height(kids))
    decreases kids
  {
    if kids != [] {
      HeightIsNesting(n, kids[..|kids| - 1]);
      HeightIsNestingOne(Filled(n, kids[..|kids| - 1]), kids[|kids| - 1]);
    }
  }

  lemma {:induction false} HeightIsNestingOne(n: Node, kid: Doc)
    ensures NestingOf(Extended(n, kid)) == Max(NestingOf(n), HeightOf(kid))
    decreases kid
  {
    match kid
    case Blank(_) =>
    case Leaf(_, chunks) =>
      var f := Atoi(Concat(chunks));
      match n {
        case PNode(p) => assert f in p.fmus + {f};
        case SNode(s) => NestingElementsAppend(s.elements, Fmu(f));
      }
    case Sub(_, kids) =>
      var c := Filled(Fresh(!n.PNode?), kids);
      HeightIsNesting(Fresh(!n.PNode?), kids);
      match n {
        case PNode(p) => NestingSerialsAppend(p.serials, c.s);
        case SNode(s) => NestingElementsAppend(s.elements, Group(c.p));
      }
  }

  /** Every tree of ids can be written, and is read back if and only if it nests fewer than 256 elements. */
  lemma TreeReadBack(p: Parallel) returns (kids: seq<Doc>)
    requires NoNegatives(Leaves(p))
    ensures Filled(PNode(EMPTY), kids) == PNode(p)
    ensures var read := Run(BEGIN, Document(false, kids));
            if Nesting(p) < MAX_DEPTH - 1 then read.Ok? && read.value.root == p else read.Stop?
  {
    kids := WriteParallel(p);
    HeightIsNesting(PNode(EMPTY), kids);
    FitsIff(kids, 1);
    DocumentRun(false, kids);
  }

  // ---- The parser object ----------------------------------------------------------------------------

  class ParserStruct {
    var root: Parallel
    var depth: nat
    var text: string
    var pointers: array<Pointer>

    ghost function Now(): Parser
      reads this, pointers
    {
      Parser(root, depth, text, pointers[..])
    }

    constructor ()
      ensures Now() == BEGIN && fresh(pointers)
    {
      root, depth, text := EMPTY, 0, "";
      pointers := new Pointer[MAX_DEPTH](i => if i == 0 then To([]) else Null);
    }

    method StartElement(name: string) returns (ok: bool)
      requires StackOpen(Now())
      modifies this, pointers
      ensures pointers == old(pointers)
      ensures ok == Started(old(Now()), name).Ok?
      ensures ok ==> Ok(Now()) == Started(old(Now()), name) && StackOpen(Now())
    {
      ghost var was := Now();
      if TagMatches(name, "f") {
        pointers[depth] := Null;
      } else {
        if depth % 2 == 0 {
          if !TagMatches(name, "p") { return false; }
        } else {
          if !TagMatches(name, "s") { return false; }
        }
        if depth > 0 {
          if !Designates(root, pointers[depth - 1], depth % 2 == 1) { return false; }
          var path := pointers[depth - 1].path;
          var n := Get(PNode(root), path);
          root := Put(PNode(root), path, Grown(n)).p;
          pointers[depth] := To(path + [Width(n)]);
        }
      }
      depth := depth + 1;
      if depth >= MAX_DEPTH { return false; }
      text := "";
      StartedKeepsStack(was, name);
      return true;
    }

    method CharacterDataHandler(chunk: string)
      requires StackOpen(Now())
      modifies this`text
      ensures Now() == old(Now()).(text := old(text) + chunk) && StackOpen(Now())
    {
      HandledKeepsStack(Now(), Text(chunk));
      text := text + chunk;
    }

    method EndElement(name: string) returns (ok: bool)
      requires StackOpen(Now())
      modifies this
      ensures pointers == old(pointers)
      ensures ok == Ended(old(Now()), name).Ok?
      ensures ok ==> Ok(Now()) == Ended(old(Now()), name) && StackOpen(Now())
    {
      ghost var was := Now();
      if depth == 0 { return false; }
      depth := depth - 1;
      if TagMatches(name, "f") {
        if |text| == 0 { return false; }
        if depth == 0 || !Designates(root, pointers[depth - 1], depth % 2 == 1) { return false; }
        var path := pointers[depth - 1].path;
        root := Put(PNode(root), path, WithFmu(Get(PNode(root), path), Atoi(text))).p;
      }
      text := "";
      EndedKeepsStack(was, name);
      return true;
    }

    /** All events of an input, as expat delivers them. */
    method Parse(es: seq<Event>) returns (ok: bool)
      requires StackOpen(Now())
      modifies this, pointers
      ensures ok == Run(old(Now()), es).Ok?
      ensures ok ==> Ok(Now()) == Run(old(Now()), es) && StackOpen(Now())
    {
      ghost var was := Now();
      var i := 0;
      while i < |es|
        invariant 0 <= i <= |es| && pointers == old(pointers) && StackOpen(Now())
        invariant Run(was, es[..i]) == Ok(Now())
      {
        assert es[..i + 1][..i] == es[..i];
        match es[i] {
          case Start(name) => ok := StartElement(name);
          case End(name) => ok := EndElement(name);
          case Text(chunk) => CharacterDataHandler(chunk); ok := true;
        }
        if !ok {
          RunStops(was, es, i + 1);
          return;
        }
        i := i + 1;
      }
      assert es[..i] == es;
      return true;
    }
  }

  lemma {:induction false} RunStops(st: Parser, es: seq<Event>, k: nat)
    requires |st.pointers| == MAX_DEPTH && st.depth < MAX_DEPTH && k <= |es| && Run(st, es[..k]).Stop?
    ensures Run(st, es).Stop?
  {
    assert es[..k] + es[k..] == es;
    RunAppend(st, es[..k], es[k..]);
  }

  /** Reading a whole document from the start. */
  method ReadDocument(prefixed: bool, kids: seq<Doc>) returns (r: Outcome<Parallel>)
    ensures r.Ok? <==> NoEmptyLeaf(kids) && Height(kids) < MAX_DEPTH - 1
    ensures r.Ok? ==> PNode(r.value) == Filled(PNode(EMPTY), kids)
  {
    var state := new ParserStruct();
    var ok := state.Parse(Document(prefixed, kids));
    DocumentRun(prefixed, kids);
    FitsIff(kids, 1);
    return if ok then Ok(state.root) else Stop;
  }
}
