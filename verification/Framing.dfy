/** The byte level of the protocol: framed packets and the hand-written encodings. */
module Framing {
  import opened Options

  type byte = x: int | 0 <= x < 256

  function Pow256(k: nat): (r: int)
    ensures r > 0
  {
    if k == 0 then 1 else 256 * Pow256(k - 1)
  }

  /** k bytes, least significant first; negative numbers come out in two's complement. */
  function Le(n: int, k: nat): (r: seq<byte>)
    ensures |r| == k
    decreases k
  {
    if k == 0 then [] else [n % 256] + Le(n / 256, k - 1)
  }

  function FromLe(bytes: seq<byte>): nat {
    if bytes == [] then 0 else bytes[0] + 256 * FromLe(bytes[1..])
  }

  lemma {:induction false} LeRoundTrip(n: int, k: nat)
    ensures FromLe(Le(n, k)) == n % Pow256(k)
    decreases k
  {
    if k > 0 {
      LeRoundTrip(n / 256, k - 1);
      ModStep(n, Pow256(k - 1));
      assert Le(n, k)[1..] == Le(n / 256, k - 1);
    }
  }

  lemma ModStep(n: int, m: int)
    requires m > 0
    ensures n % (256 * m) == n % 256 + 256 * (n / 256 % m)
  {
    var q, r := n / 256 / m, n / 256 % m;
    assert n / 256 == m * q + r;
    assert n == 256 * (n / 256) + n % 256;
    var low := n % 256 + 256 * r;
    assert 0 <= low < 256 * m;
    assert n == (256 * m) * q + low by {
      assert 256 * (m * q) == (256 * m) * q;
    }
    ModUnique(n, 256 * m, q, low);
  }

  lemma ModUnique(n: int, m: int, q: int, r: int)
    requires m > 0 && 0 <= r < m && n == m * q + r
    ensures n % m == r
  {
    var d := n / m - q;
    assert m * d == r - n % m;
    Multiples(m, d);
  }

  lemma Multiples(m: int, d: int)
    requires m > 0
    ensures (d >= 1 ==> m * d >= m) && (d <= -1 ==> m * d <= -m)
  {
  }

  // ---- Packets -----------------------------------------------------------------------------------

  const MAX_SIZE: int := 0xFFFF_FFFF
  const SIGN_BIT: int := 0x8000_0000
  const WORD: int := 0x1_0000_0000
  const SIZE_T: int := 0x1_0000_0000_0000_0000

  lemma Pow256Of4()
    ensures Pow256(4) == WORD
  {
    assert Pow256(1) == 256 && Pow256(2) == 65536 && Pow256(3) == 16777216;
  }

  function Frame(packet: seq<byte>): seq<byte> {
    Le(|packet|, 4) + packet
  }

  function Frames(packets: seq<seq<byte>>): seq<byte> {
    if packets == [] then [] else Frame(packets[0]) + Frames(packets[1..])
  }

  /** packIntoCharVector: appends one frame; exits for sizes that do not fit. */
  method PackIntoCharVector(vec: seq<byte>, packet: seq<byte>) returns (r: Outcome<seq<byte>>)
    ensures r == if |packet| <= MAX_SIZE then Ok(vec + Frame(packet)) else Stop
  {
    var sz := |packet|;
    if sz > MAX_SIZE { return Stop; }
    var szStr: seq<byte> := [sz % 256, sz / 256 % 256, sz / 256 / 256 % 256, sz / 256 / 256 / 256 % 256];
    assert szStr == Le(sz, 4) by {
      assert Le(sz / 256 / 256 / 256, 1) == [sz / 256 / 256 / 256 % 256];
      assert Le(sz / 256 / 256, 2) == [sz / 256 / 256 % 256, sz / 256 / 256 / 256 % 256];
    }
    assert vec + szStr + packet == vec + Frame(packet);
    return Ok(vec + szStr + packet);
  }

  /**
   * parseSize: the fourth byte is shifted as a signed 32-bit int, so that its top bit makes the
   * result wrap around in the 64-bit size.
   */
  function ParseSize(data: seq<byte>): nat
    requires |data| >= 4
  {
    var n := FromLe(data[..4]);
    if data[3] < 128 then n else n - WORD + SIZE_T
  }

  lemma ParseFramed(packet: seq<byte>, rest: seq<byte>)
    requires |packet| <= MAX_SIZE
    ensures ParseSize(Frame(packet) + rest) == if |packet| < SIGN_BIT then |packet| else |packet| - WORD + SIZE_T
  {
    var data, n := Frame(packet) + rest, |packet|;
    assert data[..4] == Le(n, 4);
    LeRoundTrip(n, 4);
    Pow256Of4();
    ModUnique(n, WORD, 0, n);
    FourthByte(n);
    assert data[3] == data[..4][3];
  }

  lemma FourthByte(n: nat)
    ensures Le(n, 4)[3] == n / 256 / 256 / 256 % 256
  {
    assert Le(n, 4)[1..] == Le(n / 256, 3) && Le(n / 256, 3)[1..] == Le(n / 256 / 256, 2);
    assert Le(n / 256 / 256, 2)[1..] == Le(n / 256 / 256 / 256, 1);
  }

  /** What the clientData loop makes of a received buffer. */
  function Split(data: seq<byte>): Outcome<seq<seq<byte>>> {
    if data == [] then Ok([])
    else if |data| < 4 then Stop
    else
      var size := ParseSize(data);
      if size > |data| - 4 then Stop
      else
        var rest := Split(data[4 + size..]);
        if rest.Stop? then Stop else Ok([data[4..4 + size]] + rest.value)
  }

  method ClientData(data: seq<byte>) returns (r: Outcome<seq<seq<byte>>>)
    ensures r == Split(data)
  {
    var packets, pos := [], 0;
    assert data[0..] == data;
    ghost var all := Split(data);
    if all.Ok? { assert packets + all.value == all.value; }
    while pos < |data|
      invariant 0 <= pos <= |data|
      invariant Split(data) == var rest := Split(data[pos..]); if rest.Stop? then Stop else Ok(packets + rest.value)
    {
      if |data| - pos < 4 { return Stop; }
      var packetSize := ParseSize(data[pos..]);
      if packetSize > |data| - pos - 4 { return Stop; }
      var packet := data[pos + 4..pos + 4 + packetSize];
      assert data[pos..][4..4 + packetSize] == packet;
      assert data[pos..][4 + packetSize..] == data[pos + 4 + packetSize..];
      ghost var more := Split(data[pos + 4 + packetSize..]);
      if more.Ok? { assert packets + ([packet] + more.value) == packets + [packet] + more.value; }
      packets := packets + [packet];
      pos := pos + 4 + packetSize;
    }
    assert packets + [] == packets;
    return Ok(packets);
  }

  /** Splitting what was packed gives the packets back exactly if each is shorter than 2^31 bytes. */
  lemma {:induction false} FramingRoundTrip(packets: seq<seq<byte>>)
    requires forall p | p in packets :: |p| <= MAX_SIZE
    requires |Frames(packets)| < SIZE_T / 2
    ensures Split(Frames(packets)) == if forall p | p in packets :: |p| < SIGN_BIT then Ok(packets) else Stop
  {
    if packets != [] {
      var p, rest := packets[0], packets[1..];
      var data := Frame(p) + Frames(rest);
      assert packets == [p] + rest;
      ParseFramed(p, Frames(rest));
      FramingRoundTrip(rest);
      if |p| < SIGN_BIT {
        assert data[4 + |p|..] == Frames(rest);
        assert data[4..4 + |p|] == p;
      }
    }
  }

  // ---- Value requests and assignments ---------------------------------------------------------------

  const GET_REAL_REQ: int := 319
  const GET_REAL_RES: int := 320
  const SET_REAL_REQ: int := 327

  /** Numbers of `width` bytes each, one after another. */
  function Packed(ns: seq<int>, width: nat): (r: seq<byte>)
    ensures |r| == |ns| * width
  {
    if ns == [] then [] else Le(ns[0], width) + Packed(ns[1..], width)
  }

  function Unpacked(bytes: seq<byte>, n: nat, width: nat): (r: seq<int>)
    requires |bytes| >= n * width
    ensures |r| == n
  {
    if n == 0 then []
    else
      assert n * width == width + (n - 1) * width;
      [FromLe(bytes[..width])] + Unpacked(bytes[width..], n - 1, width)
  }

  lemma {:induction false} PackedConcat(a: seq<int>, b: seq<int>, width: nat)
    ensures Packed(a + b, width) == Packed(a, width) + Packed(b, width)
  {
    if a == [] {
      assert a + b == b;
    } else {
      assert (a + b)[1..] == a[1..] + b;
      PackedConcat(a[1..], b, width);
    }
  }

  lemma {:induction false} UnpackPacked(ns: seq<int>, width: nat, more: seq<byte>)
    ensures |Packed(ns, width) + more| >= |ns| * width
    ensures forall i | 0 <= i < |ns| :: Unpacked(Packed(ns, width) + more, |ns|, width)[i] == ns[i] % Pow256(width)
  {
    if ns != [] {
      var bytes := Packed(ns, width) + more;
      assert bytes[..width] == Le(ns[0], width);
      assert bytes[width..] == Packed(ns[1..], width) + more;
      LeRoundTrip(ns[0], width);
      UnpackPacked(ns[1..], width, more);
    }
  }

  /** fmi2_import_get_real: a request for the given value references. */
  function GetReal(vrs: seq<int>): seq<byte> {
    Le(GET_REAL_REQ, 2) + Packed(vrs, 4)
  }

  /** Overwrites part of a buffer. */
  function Written(buffer: seq<byte>, at: nat, bytes: seq<byte>): (r: seq<byte>)
    requires at + |bytes| <= |buffer|
    ensures |r| == |buffer| && r[..at] == buffer[..at] && r[..at + |bytes|] == buffer[..at] + bytes
  {
    buffer[..at] + bytes + buffer[at + |bytes|..]
  }

  /** fmi2_import_get_real_fast: grows the buffer once and writes size, type and references in place. */
  method GetRealFast(buffer: seq<byte>, vrs: seq<int>) returns (r: seq<byte>)
    ensures r == buffer + Frame(GetReal(vrs))
  {
    var bofs, sz := |buffer|, 2 + |vrs| * 4;
    r := buffer + seq(4 + sz, _ => 0);
    assert r[..bofs] == buffer;
    r := Written(r, bofs, Le(sz, 4));
    r := Written(r, bofs + 4, Le(GET_REAL_REQ, 2));
    ghost var head := buffer + Le(sz, 4) + Le(GET_REAL_REQ, 2);
    assert r[..bofs + 6] == head;
    r := WriteRefs(r, bofs + 6, vrs);
    FrameInPieces(buffer, Le(GET_REAL_REQ, 2), Packed(vrs, 4), sz);
  }

  lemma FrameInPieces(buffer: seq<byte>, head: seq<byte>, body: seq<byte>, n: nat)
    requires n == |head + body|
    ensures buffer + Le(n, 4) + head + body == buffer + Frame(head + body)
  {
    Reassociate(buffer, Le(n, 4), head, body);
  }

  lemma Reassociate<T>(a: seq<T>, b: seq<T>, c: seq<T>, d: seq<T>)
    ensures a + b + c + d == a + (b + (c + d))
  {
  }

  /** The loop that fills in the value references at the end of the buffer. */
  method WriteRefs(buffer: seq<byte>, start: nat, vrs: seq<int>) returns (r: seq<byte>)
    requires |buffer| == start + |vrs| * 4
    ensures r == buffer[..start] + Packed(vrs, 4)
  {
    r := buffer;
    var ofs := 0;
    assert vrs[..0] == [];
    while ofs < |vrs|
      invariant 0 <= ofs <= |vrs| && |r| == |buffer|
      invariant r[..start + ofs * 4] == buffer[..start] + Packed(vrs[..ofs], 4)
    {
      r := Written(r, start + ofs * 4, Le(vrs[ofs], 4));
      PackedSnoc(vrs, ofs, 4);
      ofs := ofs + 1;
    }
    assert vrs[..ofs] == vrs && r[..start + ofs * 4] == r;
  }

  lemma PackedSnoc(ns: seq<int>, i: nat, width: nat)
    requires i < |ns|
    ensures Packed(ns[..i + 1], width) == Packed(ns[..i], width) + Le(ns[i], width)
  {
    PackedConcat(ns[..i], [ns[i]], width);
    assert ns[..i + 1] == ns[..i] + [ns[i]];
    assert [ns[i]][1..] == [];
    assert Packed([ns[i]], width) == Le(ns[i], width) + [];
  }

  /** fmi2_import_set_real; doubles are their 64-bit patterns. */
  function SetRealBytes(vrs: seq<int>, values: seq<int>): seq<byte> {
    Le(SET_REAL_REQ, 2) + (Packed(vrs, 4) + Packed(values, 8))
  }

  function EncodeSetReal(vrs: seq<int>, values: seq<int>): Outcome<seq<byte>> {
    if |vrs| != |values| then Stop else Ok(SetRealBytes(vrs, values))
  }

  /** The server's reading of a set_real request, type bytes already removed. */
  function ReadSetReal(data: seq<byte>): (seq<int>, seq<int>) {
    var n := |data| / 12;
    assert n * 4 + n * 8 == n * 12 <= |data|;
    (Unpacked(data, n, 4), Unpacked(data[n * 4..], n, 8))
  }

  lemma UnpackExact(ns: seq<int>, width: nat, more: seq<byte>)
    requires forall i | 0 <= i < |ns| :: 0 <= ns[i] < Pow256(width)
    ensures |Packed(ns, width) + more| >= |ns| * width
    ensures Unpacked(Packed(ns, width) + more, |ns|, width) == ns
  {
    UnpackPacked(ns, width, more);
    forall i | 0 <= i < |ns|
      ensures ns[i] % Pow256(width) == ns[i]
    {
      ModUnique(ns[i], Pow256(width), 0, ns[i]);
    }
  }

  lemma ReadBack(vrs: seq<int>, values: seq<int>, data: seq<byte>)
    requires |vrs| == |values| && data == Packed(vrs, 4) + Packed(values, 8)
    requires forall i | 0 <= i < |vrs| :: 0 <= vrs[i] < Pow256(4)
    requires forall i | 0 <= i < |values| :: 0 <= values[i] < Pow256(8)
    ensures ReadSetReal(data) == (vrs, values)
  {
    var n := |vrs|;
    UnpackExact(vrs, 4, Packed(values, 8));
    UnpackExact(values, 8, []);
    assert data[n * 4..] == Packed(values, 8) + [];
    assert |data| / 12 == n;
  }

  lemma DropPrefix(a: seq<byte>, b: seq<byte>)
    ensures (a + b)[|a|..] == b
  {
  }

  /** What the server reads from a set_real request is what the client put in. */
  lemma SetRealRoundTrip(vrs: seq<int>, values: seq<int>)
    requires forall i | 0 <= i < |vrs| :: 0 <= vrs[i] < Pow256(4)
    requires forall i | 0 <= i < |values| :: 0 <= values[i] < Pow256(8)
    ensures EncodeSetReal(vrs, values).Ok? <==> |vrs| == |values|
    ensures EncodeSetReal(vrs, values).Ok? ==>
              && |EncodeSetReal(vrs, values).value| >= 2
              && ReadSetReal(EncodeSetReal(vrs, values).value[2..]) == (vrs, values)
  {
    if |vrs| == |values| {
      DropPrefix(Le(SET_REAL_REQ, 2), Packed(vrs, 4) + Packed(values, 8));
      ReadBack(vrs, values, Packed(vrs, 4) + Packed(values, 8));
    }
  }

  // ---- A value request and its reply -----------------------------------------------------------------

  function Looked(vrs: seq<int>, value: int -> int): (r: seq<int>)
    ensures |r| == |vrs| && forall i | 0 <= i < |vrs| :: r[i] == value(vrs[i])
  {
    seq(|vrs|, i requires 0 <= i < |vrs| => value(vrs[i]))
  }

  /** The server's get_real reply to a request, type bytes of the request already removed. */
  function GetRealReply(data: seq<byte>, value: int -> int): seq<byte> {
    Le(GET_REAL_RES, 2) + ([0] + Packed(Looked(Unpacked(data, |data| / 4, 4), value), 8))
  }

  /** The cache after values[i] was stored for vrs[i], in order. */
  function Stored(reals: map<int, int>, vrs: seq<int>, values: seq<int>): map<int, int>
    requires |vrs| == |values|
  {
    if vrs == [] then reals
    else Stored(reals, vrs[..|vrs| - 1], values[..|vrs| - 1])[vrs[|vrs| - 1] := values[|vrs| - 1]]
  }

  /**
   * The client's handling of a get_real reply, type bytes already removed. `outgoing` are the
   * requested references in the iteration order of the set; stops on a bad status or length.
   */
  method HandleGetReal(data: seq<byte>, outgoing: seq<int>, reals: map<int, int>) returns (r: Outcome<map<int, int>>)
    requires data != []
    ensures r.Ok? <==> data[0] == 0 && (|data| - 1) / 8 == |outgoing|
    ensures r.Ok? ==> r.value == Stored(reals, outgoing, Unpacked(data[1..], |outgoing|, 8))
  {
    if data[0] != 0 { return Stop; }
    if (|data| - 1) / 8 != |outgoing| { return Stop; }
    var values := Unpacked(data[1..], |outgoing|, 8);
    var m, x := reals, 0;
    while x < |outgoing|
      invariant 0 <= x <= |outgoing| && m == Stored(reals, outgoing[..x], values[..x])
    {
      m := m[outgoing[x] := values[x]];
      assert outgoing[..x + 1][..x] == outgoing[..x] && values[..x + 1][..x] == values[..x];
      x := x + 1;
    }
    assert outgoing[..x] == outgoing && values[..x] == values;
    return Ok(m);
  }

  lemma {:induction false} StoredAt(reals: map<int, int>, vrs: seq<int>, value: int -> int, vr: int)
    ensures var m := Stored(reals, vrs, Looked(vrs, value));
            && (vr in vrs ==> vr in m && m[vr] == value(vr))
            && (vr !in vrs ==> (vr in m <==> vr in reals) && (vr in m ==> m[vr] == reals[vr]))
  {
    if vrs != [] {
      var n := |vrs| - 1;
      assert Looked(vrs, value)[..n] == Looked(vrs[..n], value);
      StoredAt(reals, vrs[..n], value, vr);
      assert vrs == vrs[..n] + [vrs[n]];
    }
  }

  lemma ReplyOf(vrs: seq<int>, value: int -> int)
    requires forall i | 0 <= i < |vrs| :: 0 <= vrs[i] < Pow256(4) && 0 <= value(vrs[i]) < Pow256(8)
    ensures GetReal(vrs)[2..] == Packed(vrs, 4)
    ensures GetRealReply(GetReal(vrs)[2..], value)[2..] == [0] + Packed(Looked(vrs, value), 8)
    ensures |Packed(Looked(vrs, value), 8)| == |vrs| * 8
    ensures Unpacked(Packed(Looked(vrs, value), 8), |vrs|, 8) == Looked(vrs, value)
  {
    DropPrefix(Le(GET_REAL_REQ, 2), Packed(vrs, 4));
    var data := Packed(vrs, 4);
    UnpackExact(vrs, 4, []);
    assert data + [] == data && |data| / 4 == |vrs|;
    var values := Looked(vrs, value);
    DropPrefix(Le(GET_REAL_RES, 2), [0] + Packed(values, 8));
    UnpackExact(values, 8, []);
    assert Packed(values, 8) + [] == Packed(values, 8);
  }

  /**
   * A get_real request, answered and handled: every requested reference ends up with the FMU's
   * value for it, whatever order the set is iterated in, and no other cached value changes.
   */
  method RequestReals(outgoing: seq<int>, value: int -> int, reals: map<int, int>) returns (r: Outcome<map<int, int>>)
    requires forall i | 0 <= i < |outgoing| :: 0 <= outgoing[i] < Pow256(4) && 0 <= value(outgoing[i]) < Pow256(8)
    ensures r.Ok?
    ensures forall vr | vr in outgoing :: vr in r.value && r.value[vr] == value(vr)
    ensures forall vr | vr !in outgoing ::
            (vr in r.value <==> vr in reals) && (vr in reals ==> r.value[vr] == reals[vr])
  {
    ReplyOf(outgoing, value);
    var request := GetReal(outgoing);
    var reply := GetRealReply(request[2..], value);
    var data := reply[2..];
    assert data[1..] == Packed(Looked(outgoing, value), 8);
    r := HandleGetReal(data, outgoing, reals);
    forall vr
      ensures vr in outgoing ==> vr in r.value && r.value[vr] == value(vr)
      ensures vr !in outgoing ==> (vr in r.value <==> vr in reals) && (vr in reals ==> r.value[vr] == reals[vr])
    {
      StoredAt(reals, outgoing, value, vr);
    }
  }
}
