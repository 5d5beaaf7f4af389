/** Request counting and the wait() barrier over pipelined, ordered channels. */
module Protocol {
  /**
   * One client and its server. Requests are queued, sent as one message, handled in order, and
   * answered by one message with a reply packet for each request that has a reply; a reply is
   * represented by the request it answers. `issued`, `handled` and `read` are the whole history.
   */
  datatype Link<R> = Link(queue: seq<R>, wire: seq<seq<R>>, back: seq<seq<R>>,
                          issued: seq<R>, handled: seq<R>, read: seq<R>)

  function Flat<R>(ms: seq<seq<R>>): seq<R> {
    if ms == [] then [] else ms[0] + Flat(ms[1..])
  }

  lemma {:induction false} FlatSnoc<R>(ms: seq<seq<R>>, m: seq<R>)
    ensures Flat(ms + [m]) == Flat(ms) + m
  {
    if ms == [] {
      assert ms + [m] == [m];
      assert Flat([m]) == m + [];
    } else {
      assert (ms + [m])[1..] == ms[1..] + [m];
      FlatSnoc(ms[1..], m);
    }
  }

  /** The requests among rs that get a reply, in order. */
  function Answered<R(!new)>(rs: seq<R>, replies: R -> bool): (a: seq<R>)
    ensures |a| <= |rs|
  {
    if rs == [] then []
    else Answered(rs[..|rs| - 1], replies) + if replies(rs[|rs| - 1]) then [rs[|rs| - 1]] else []
  }

  lemma {:induction false} AnsweredConcat<R(!new)>(a: seq<R>, b: seq<R>, replies: R -> bool)
    ensures Answered(a + b, replies) == Answered(a, replies) + Answered(b, replies)
  {
    if b == [] {
      assert a + b == a;
    } else {
      assert (a + b)[..|a + b| - 1] == a + b[..|b| - 1];
      AnsweredConcat(a, b[..|b| - 1], replies);
    }
  }

  /** Everything issued is handled, on the wire or queued; everything answered is read or on its way. */
  ghost predicate Ordered<R(!new)>(l: Link<R>, replies: R -> bool) {
    && l.issued == l.handled + Flat(l.wire) + l.queue
    && l.read + Flat(l.back) == Answered(l.handled, replies)
    && forall i | 0 <= i < |l.wire| :: l.wire[i] != []
  }

  /** Requests whose reply the master has not read, including those that will never be answered. */
  function Load<R(!new)>(l: Link<R>): int {
    |l.issued| - |l.read|
  }

  function Total<R(!new)>(links: seq<Link<R>>): int {
    if links == [] then 0 else Load(links[0]) + Total(links[1..])
  }

  lemma {:induction false} TotalUpdate<R(!new)>(links: seq<Link<R>>, c: nat, l: Link<R>)
    requires c < |links|
    ensures Total(links[c := l]) == Total(links) - Load(links[c]) + Load(l)
  {
    if c == 0 {
      assert links[c := l][1..] == links[1..];
    } else {
      assert links[c := l][1..] == links[1..][c - 1 := l];
      TotalUpdate(links[1..], c - 1, l);
    }
  }

  lemma LoadParts<R(!new)>(l: Link<R>, replies: R -> bool)
    requires Ordered(l, replies)
    ensures Load(l) == |l.queue| + |Flat(l.wire)| + |Flat(l.back)| + (|l.handled| - |Answered(l.handled, replies)|)
    ensures Load(l) >= 0
  {
    assert |l.read + Flat(l.back)| == |Answered(l.handled, replies)|;
  }

  lemma {:induction false} TotalZero<R(!new)>(links: seq<Link<R>>, replies: R -> bool, c: nat)
    requires (forall i | 0 <= i < |links| :: Ordered(links[i], replies)) && c < |links|
    ensures Total(links) >= Load(links[c]) >= 0
    decreases |links|
  {
    LoadParts(links[c], replies);
    TotalNonNegative(links[1..], replies);
    if c > 0 {
      LoadParts(links[0], replies);
      TotalZero(links[1..], replies, c - 1);
    }
  }

  lemma {:induction false} TotalNonNegative<R(!new)>(links: seq<Link<R>>, replies: R -> bool)
    requires forall i | 0 <= i < |links| :: Ordered(links[i], replies)
    ensures Total(links) >= 0
  {
    if links != [] {
      LoadParts(links[0], replies);
      TotalNonNegative(links[1..], replies);
    }
  }

  lemma FlatEmpty<R>(ms: seq<seq<R>>)
    requires Flat(ms) == [] && forall i | 0 <= i < |ms| :: ms[i] != []
    ensures ms == []
  {
  }

  /** A request that was issued, handled, answered and whose reply was read. */
  ghost predicate Settled<R(!new)>(l: Link<R>, replies: R -> bool) {
    && l.queue == [] && l.wire == [] && Flat(l.back) == []
    && l.handled == l.issued == l.read
    && Answered(l.handled, replies) == l.handled
  }

  lemma {:induction false} AllAnswered<R(!new)>(rs: seq<R>, replies: R -> bool)
    requires |Answered(rs, replies)| == |rs|
    ensures Answered(rs, replies) == rs
  {
    if rs != [] {
      AllAnswered(rs[..|rs| - 1], replies);
      assert rs == rs[..|rs| - 1] + [rs[|rs| - 1]];
    }
  }

  lemma ZeroIsSettled<R(!new)>(l: Link<R>, replies: R -> bool)
    requires Ordered(l, replies) && Load(l) == 0
    ensures Settled(l, replies)
  {
    LoadParts(l, replies);
    FlatEmpty(l.wire);
    AllAnswered(l.handled, replies);
    assert l.issued == l.handled + [] + [];
    assert l.read == l.read + Flat(l.back);
  }

  lemma ServedOrdered<R(!new)>(l: Link<R>, next: Link<R>, msg: seq<R>, response: seq<R>, replies: R -> bool)
    requires Ordered(l, replies) && l.wire != [] && msg == l.wire[0] && response == Answered(msg, replies)
    requires next == l.(wire := l.wire[1..], handled := l.handled + msg, back := l.back + [response])
    ensures Ordered(next, replies)
  {
    AnsweredConcat(l.handled, msg, replies);
    FlatSnoc(l.back, response);
    Regroup(l.handled, msg, Flat(next.wire), l.queue);
    Regroup([], l.read, Flat(l.back), response);
    assert forall i | 0 <= i < |next.wire| :: next.wire[i] == l.wire[i + 1];
  }

  lemma Regroup<R>(a: seq<R>, b: seq<R>, c: seq<R>, d: seq<R>)
    ensures a + (b + c) + d == a + b + c + d && b + (c + d) == b + c + d
  {
  }

  lemma SentOrdered<R(!new)>(l: Link<R>, next: Link<R>, replies: R -> bool)
    requires Ordered(l, replies) && l.queue != [] && next == l.(queue := [], wire := l.wire + [l.queue])
    ensures Ordered(next, replies)
  {
    FlatSnoc(l.wire, l.queue);
    assert next.issued == l.handled + Flat(next.wire) + [];
  }

  lemma ReceivedOrdered<R(!new)>(l: Link<R>, next: Link<R>, replies: R -> bool)
    requires Ordered(l, replies) && l.back != [] && next == l.(back := l.back[1..], read := l.read + l.back[0])
    ensures Ordered(next, replies)
  {
    assert next.read + Flat(next.back) == l.read + Flat(l.back);
  }

  class Exchange<R(!new)> {
    const replies: R -> bool
    var links: seq<Link<R>>
    var pending: int

    /** The pending counter is the number of requests still queued, in flight, unread or unanswered. */
    ghost predicate Valid()
      reads this
    {
      && (forall i | 0 <= i < |links| :: Ordered(links[i], replies))
      && pending == Total(links)
    }

    constructor (replies: R -> bool, n: nat)
      ensures Valid() && |links| == n && pending == 0
    {
      this.replies := replies;
      links := seq(n, _ => Link([], [], [], [], [], []));
      pending := 0;
      new;
      ZeroTotal(links);
    }

    /** Client::queueMessage */
    method QueueMessage(c: nat, r: R)
      requires Valid() && c < |links|
      modifies this
      ensures Valid() && pending == old(pending) + 1
      ensures |links| == |old(links)| && links == old(links)[c := links[c]]
      ensures var l := old(links)[c]; links[c] == l.(queue := l.queue + [r], issued := l.issued + [r])
    {
      var l := links[c];
      var next := l.(queue := l.queue + [r], issued := l.issued + [r]);
      TotalUpdate(links, c, next);
      assert next.issued == l.handled + Flat(l.wire) + next.queue;
      links := links[c := next];
      pending := pending + 1;
    }

    /** Client::sendQueuedMessages */
    method SendQueued(c: nat)
      requires Valid() && c < |links|
      modifies this`links
      ensures Valid() && |links| == |old(links)|
      ensures var l := old(links)[c];
              links == old(links)[c := l.(queue := [], wire := l.wire + if l.queue == [] then [] else [l.queue])]
    {
      var l := links[c];
      if l.queue == [] {
        assert l.wire + [] == l.wire;
        return;
      }
      var next := l.(queue := [], wire := l.wire + [l.queue]);
      TotalUpdate(links, c, next);
      SentOrdered(l, next, replies);
      links := links[c := next];
    }

    /** Server::clientData: handles one message, request by request, and sends the replies back. */
    method Serve(c: nat)
      requires Valid() && c < |links|
      modifies this`links
      ensures Valid() && |links| == |old(links)|
      ensures var l := old(links)[c];
              links == if l.wire == [] then old(links)
                       else old(links)[c := l.(wire := l.wire[1..], handled := l.handled + l.wire[0],
                                               back := l.back + [Answered(l.wire[0], replies)])]
    {
      var l := links[c];
      if l.wire == [] { return; }
      var msg, response, i := l.wire[0], [], 0;
      while i < |msg|
        invariant 0 <= i <= |msg| && response == Answered(msg[..i], replies)
      {
        assert msg[..i + 1][..i] == msg[..i];
        if replies(msg[i]) { response := response + [msg[i]]; }
        i := i + 1;
      }
      assert msg[..i] == msg;
      var next := l.(wire := l.wire[1..], handled := l.handled + msg, back := l.back + [response]);
      TotalUpdate(links, c, next);
      ServedOrdered(l, next, msg, response, replies);
      links := links[c := next];
    }

    /** Client::clientData: reads one message of replies; stops if it did not expect one. */
    method Receive(c: nat) returns (ok: bool)
      requires Valid() && c < |links|
      modifies this
      ensures ok && Valid() && |links| == |old(links)|
      ensures var l := old(links)[c];
              if l.back == [] then links == old(links) && pending == old(pending)
              else
                && links == old(links)[c := l.(back := l.back[1..], read := l.read + l.back[0])]
                && pending == old(pending) - |l.back[0]|
    {
      ok := true;
      var l := links[c];
      if l.back == [] { return; }
      var msg, i := l.back[0], 0;
      var next := l.(back := l.back[1..], read := l.read + msg);
      TotalUpdate(links, c, next);
      ReceivedOrdered(l, next, replies);
      ghost var after := links[c := next];
      TotalZero(after, replies, c);
      while i < |msg|
        invariant 0 <= i <= |msg| && ok && links == old(links) && pending == old(pending) - i
      {
        if pending == 0 { return false; }
        pending := pending - 1;
        i := i + 1;
      }
      links := links[c := next];
    }

    /**
     * BaseMaster::wait: sends everything and polls until no reply is outstanding; gives up after
     * as many polls that leave something pending as there were requests, plus 60. Whatever the servers do meanwhile,
     * once it returns every request issued before the call was handled and answered, in order.
     */
    method Wait() returns (ok: bool)
      requires Valid()
      modifies this
      ensures Valid() && |links| == |old(links)|
      ensures forall c | 0 <= c < |links| :: links[c].issued == old(links)[c].issued
      ensures ok ==> pending == 0 && forall c | 0 <= c < |links| :: Settled(links[c], replies)
    {
      var maxPolls, numPolls := pending + 60, 0;
      if pending > 0 {
        for c := 0 to |links|
          invariant Valid() && |links| == |old(links)|
          invariant forall d | 0 <= d < |links| :: links[d].issued == old(links)[d].issued
        {
          SendQueued(c);
        }
      }
      while pending > 0
        invariant Valid() && |links| == |old(links)|
        invariant forall d | 0 <= d < |links| :: links[d].issued == old(links)[d].issued
        invariant pending > 0 ==> numPolls < maxPolls
        decreases if pending > 0 then 1 + maxPolls - numPolls else 0
      {
        ServersRun();
        ok := Poll();
        if !ok { return false; }
        if pending > 0 {
          numPolls := numPolls + 1;
          if numPolls >= maxPolls { return false; }
        }
      }
      forall c | 0 <= c < |links|
        ensures Settled(links[c], replies)
      {
        TotalZero(links, replies, c);
        ZeroIsSettled(links[c], replies);
      }
      TotalNonNegative(links, replies);
      return true;
    }

    /** Any servers handle any number of messages. */
    method ServersRun()
      requires Valid()
      modifies this`links
      ensures Valid() && |links| == |old(links)|
      ensures forall d | 0 <= d < |links| :: links[d].issued == old(links)[d].issued
    {
      var steps: nat := *;
      while steps > 0
        invariant Valid() && |links| == |old(links)|
        invariant forall d | 0 <= d < |links| :: links[d].issued == old(links)[d].issued
      {
        var c: int := *;
        if 0 <= c < |links| { Serve(c); }
        steps := steps - 1;
      }
    }

    /** One pass over the clients: some of those with a message waiting receive it. */
    method Poll() returns (ok: bool)
      requires Valid()
      modifies this
      ensures ok && Valid() && |links| == |old(links)|
      ensures forall d | 0 <= d < |links| :: links[d].issued == old(links)[d].issued
    {
      ok := true;
      for c := 0 to |links|
        invariant ok && Valid() && |links| == |old(links)|
        invariant forall d | 0 <= d < |links| :: links[d].issued == old(links)[d].issued
      {
        var ready: bool := *;
        if ready { ok := Receive(c); }
      }
    }
  }

  lemma {:induction false} ZeroTotal<R(!new)>(links: seq<Link<R>>)
    requires forall i | 0 <= i < |links| :: Load(links[i]) == 0
    ensures Total(links) == 0
  {
    if links != [] { ZeroTotal(links[1..]); }
  }
}
