/** The model-exchange storage: one buffer per quantity, a slice of it per client, and a backup of everything. */
module Storage {

  datatype Kind = States | Indicators | Derivatives | Nominals

  type Data = seq<real>

  /** One buffer of each kind. */
  datatype Buffers = Buffers(states: Data, indicators: Data, derivatives: Data, nominals: Data) {
    function Of(k: Kind): Data {
      match k
      case States => states
      case Indicators => indicators
      case Derivatives => derivatives
      case Nominals => nominals
    }

    function With(k: Kind, d: Data): (r: Buffers)
      ensures r.Of(k) == d && forall l | l != k :: r.Of(l) == Of(l)
    {
      match k
      case States => this.(states := d)
      case Indicators => this.(indicators := d)
      case Derivatives => this.(derivatives := d)
      case Nominals => this.(nominals := d)
    }
  }

  datatype Bounds = Bounds(first: nat, second: nat)

  /** Slices one after another from 0 to total, without gaps or overlaps. */
  predicate Tiles(b: seq<Bounds>, total: nat) {
    if b == [] then total == 0
    else b[|b| - 1].first <= b[|b| - 1].second == total && Tiles(b[..|b| - 1], b[|b| - 1].first)
  }

  lemma {:induction false} TilesWithin(b: seq<Bounds>, total: nat, i: nat)
    requires Tiles(b, total) && i < |b|
    ensures b[i].first <= b[i].second <= total
  {
    if i < |b| - 1 { TilesWithin(b[..|b| - 1], b[|b| - 1].first, i); }
  }

  lemma {:induction false} TilesOrdered(b: seq<Bounds>, total: nat, i: nat, j: nat)
    requires Tiles(b, total) && i < j < |b|
    ensures b[i].second <= b[j].first
  {
    if j == |b| - 1 {
      TilesWithin(b[..|b| - 1], b[|b| - 1].first, i);
    } else {
      TilesOrdered(b[..|b| - 1], b[|b| - 1].first, i, j);
    }
  }

  /** Every position of the buffer lies in one client's slice, and in no other's. */
  lemma {:induction false} TilesOwner(b: seq<Bounds>, total: nat, k: nat) returns (owner: nat)
    requires Tiles(b, total) && k < total
    ensures owner < |b|
    ensures forall i | 0 <= i < |b| :: b[i].first <= k < b[i].second <==> i == owner
  {
    var n := |b| - 1;
    if b[n].first <= k {
      owner := n;
      forall i | 0 <= i < n ensures b[i].second <= k { TilesOrdered(b, total, i, n); }
    } else {
      owner := TilesOwner(b[..n], b[n].first, k);
      assert forall i | 0 <= i < n :: b[..n][i] == b[i];
    }
  }

  function Sum(sizes: seq<nat>): nat {
    if sizes == [] then 0 else Sum(sizes[..|sizes| - 1]) + sizes[|sizes| - 1]
  }

  function Overwritten(d: Data, at: nat, vec: Data): (r: Data)
    requires at + |vec| <= |d|
    ensures |r| == |d|
  {
    d[..at] + vec + d[at + |vec|..]
  }

  lemma OverwrittenOutside(d: Data, at: nat, vec: Data, lo: nat, hi: nat)
    requires at + |vec| <= |d| && lo <= hi <= |d| && (hi <= at || at + |vec| <= lo)
    ensures Overwritten(d, at, vec)[lo..hi] == d[lo..hi]
  {
    var r := Overwritten(d, at, vec);
    forall k | lo <= k < hi ensures r[k] == d[k] {
    }
  }

  /** Overwriting one slice leaves every other as it was. */
  lemma OverwrittenSlices(b: seq<Bounds>, d: Data, i: nat, vec: Data, j: nat)
    requires Tiles(b, |d|) && i < |b| && j < |b|
    requires b[i].first <= b[i].second <= |d| && b[j].first <= b[j].second <= |d| && |vec| == b[i].second - b[i].first
    ensures Overwritten(d, b[i].first, vec)[b[j].first..b[j].second] == if j == i then vec
            else d[b[j].first..b[j].second]
  {
    if i != j {
      if i < j {
        TilesOrdered(b, |d|, i, j);
      } else {
        TilesOrdered(b, |d|, j, i);
      }
      OverwrittenOutside(d, b[i].first, vec, b[j].first, b[j].second);
    }
  }

  predicate Negative(x: real) {
    x < 0.0
  }

  class FmigoStorage {
    var bounds: seq<Bounds>
    var boundsI: seq<Bounds>
    var current: Buffers
    var backup: Buffers

    function BoundsOf(k: Kind): seq<Bounds>
      reads this
    {
      if k == Indicators then boundsI else bounds
    }

    /** Each buffer and its backup are tiled by the slices of its kind. */
    ghost predicate Valid()
      reads this
    {
      forall k: Kind :: |current.Of(k)| == |backup.Of(k)| && Tiles(BoundsOf(k), |current.Of(k)|)
    }

    ghost function Slice(k: Kind, id: nat): (d: Data)
      requires Valid() && id < |BoundsOf(k)|
      reads this
      ensures |d| == BoundsOf(k)[id].second - BoundsOf(k)[id].first
    {
      TilesWithin(BoundsOf(k), |current.Of(k)|, id);
      current.Of(k)[BoundsOf(k)[id].first..BoundsOf(k)[id].second]
    }

    /** allocate_storage_states for one kind. */
    method Allocate(sizes: seq<nat>, k: Kind)
      modifies this
      ensures Tiles(BoundsOf(k), Sum(sizes)) && |BoundsOf(k)| == |sizes|
      ensures forall i | 0 <= i < |sizes| :: BoundsOf(k)[i].second - BoundsOf(k)[i].first == sizes[i]
      ensures BoundsOf(k) == Offsets(sizes)
      ensures current == old(current).With(k, Zeros(Sum(sizes))) && backup == old(backup).With(k, Zeros(Sum(sizes)))
      ensures k == Indicators ==> bounds == old(bounds)
      ensures k != Indicators ==> boundsI == old(boundsI)
    {
      var total, first, b: seq<Bounds> := 0, 0, [];
      for i := 0 to |sizes|
        invariant total == first == Sum(sizes[..i]) && b == Offsets(sizes[..i])
      {
        assert sizes[..i + 1][..i] == sizes[..i];
        total := total + sizes[i];
        b := b + [Bounds(first, first + sizes[i])];
        first := first + sizes[i];
      }
      assert sizes[..|sizes|] == sizes;
      if k == Indicators { boundsI := b; } else { bounds := b; }
      current := current.With(k, Zeros(total));
      backup := backup.With(k, Zeros(total));
      OffsetsTile(sizes);
    }

    constructor (numberOfStates: seq<nat>, numberOfIndicators: seq<nat>)
      ensures Valid() && bounds == Offsets(numberOfStates) && boundsI == Offsets(numberOfIndicators)
              && current == backup
    {
      bounds, boundsI := [], [];
      current := Buffers([], [], [], []);
      backup := Buffers([], [], [], []);
      new;
      Allocate(numberOfStates, States);
      Allocate(numberOfStates, Derivatives);
      Allocate(numberOfIndicators, Indicators);
      Allocate(numberOfStates, Nominals);
      OffsetsTile(numberOfStates);
      OffsetsTile(numberOfIndicators);
      forall k: Kind ensures |current.Of(k)| == |backup.Of(k)| && Tiles(BoundsOf(k), |current.Of(k)|) {
      }
    }

    /** push_to with a vector: exits unless it has the size of the slice. */
    method PushTo(id: nat, k: Kind, vec: Data) returns (ok: bool)
      requires Valid()
      modifies this`current
      ensures Valid()
      ensures ok <==> id < |BoundsOf(k)| && |vec| == BoundsOf(k)[id].second - BoundsOf(k)[id].first
      ensures !ok ==> current == old(current)
      ensures ok ==> forall l: Kind, j: nat | j < |BoundsOf(l)| ::
                       Slice(l, j) == if l == k && j == id then vec else old(Slice(l, j))
    {
      if id >= |BoundsOf(k)| { return false; }
      var b := BoundsOf(k)[id];
      TilesWithin(BoundsOf(k), |current.Of(k)|, id);
      if |vec| != b.second - b.first { return false; }
      ghost var was := current;
      current := current.With(k, Overwritten(current.Of(k), b.first, vec));
      assert Valid();
      forall l: Kind, j: nat | j < |BoundsOf(l)|
        ensures Valid() && Slice(l, j) == if l == k && j == id then vec else old(Slice(l, j))
      {
        TilesWithin(BoundsOf(l), |was.Of(l)|, j);
        if l == k { OverwrittenSlices(BoundsOf(k), was.Of(k), id, vec, j); }
      }
      return true;
    }

    /** cycle: current and backup change places. */
    method Cycle()
      requires Valid()
      modifies this`current, this`backup
      ensures Valid() && current == old(backup) && backup == old(current)
    {
      current, backup := backup, current;
    }

    /** sync: the backup becomes a copy of the current data. */
    method Sync()
      requires Valid()
      modifies this`backup
      ensures Valid() && backup == current
    {
      backup := current;
    }

    /** Has an indicator of the client changed sign since the backup? */
    method PastEvent(id: nat) returns (r: bool)
      requires Valid() && id < |boundsI|
      ensures r <==> exists k ::
              boundsI[id].first <= k < boundsI[id].second <= |current.indicators| == |backup.indicators|
                                 && Negative(current.indicators[k]) != Negative(backup.indicators[k])
    {
      assert BoundsOf(Indicators) == boundsI && current.Of(Indicators) == current.indicators
             && backup.Of(Indicators) == backup.indicators;
      TilesWithin(boundsI, |current.indicators|, id);
      var index := boundsI[id].first;
      while index < boundsI[id].second
        invariant boundsI[id].first <= index <= boundsI[id].second
        invariant forall k | boundsI[id].first <= k < index ::
                  Negative(current.indicators[k]) == Negative(backup.indicators[k])
      {
        if Negative(current.indicators[index]) != Negative(backup.indicators[index]) { return true; }
        index := index + 1;
      }
      return false;
    }

    /** get_current_states: the slice of one client into its place in ret. */
    method CopyStates(ret: array<real>, id: nat)
      requires Valid() && id < |bounds| && ret.Length == |current.states|
      modifies ret
      ensures bounds[id].first <= bounds[id].second <= ret.Length
      ensures forall k | 0 <= k < ret.Length ::
                ret[k] == if bounds[id].first <= k < bounds[id].second then current.states[k] else old(ret[k])
    {
      assert BoundsOf(States) == bounds && current.Of(States) == current.states;
      TilesWithin(bounds, |current.states|, id);
      forall k | bounds[id].first <= k < bounds[id].second { ret[k] := current.states[k]; }
    }

    /** The slices of all clients together are the whole buffer. */
    method CopyAllStates(ret: array<real>)
      requires Valid() && ret.Length == |current.states|
      modifies ret
      ensures ret[..] == current.states
    {
      assert BoundsOf(States) == bounds && current.Of(States) == current.states;
      for id := 0 to |bounds|
        invariant forall k | 0 <= k < Reach(bounds, id) <= ret.Length :: ret[k] == current.states[k]
      {
        ReachNext(bounds, |current.states|, id);
        CopyStates(ret, id);
      }
      assert Reach(bounds, |bounds|) == ret.Length;
    }
  }

  /** Where the first n slices end. */
  function Reach(b: seq<Bounds>, n: nat): nat
    requires n <= |b|
  {
    if n == 0 then 0 else b[n - 1].second
  }

  lemma {:induction false} ReachNext(b: seq<Bounds>, total: nat, n: nat)
    requires Tiles(b, total) && n < |b|
    ensures Reach(b, n) == b[n].first <= b[n].second == Reach(b, n + 1) <= total
  {
    TilesWithin(b, total, n);
    if n < |b| - 1 {
      ReachNext(b[..|b| - 1], b[|b| - 1].first, n);
    } else if n > 0 {
      ReachNext(b[..|b| - 1], b[|b| - 1].first, n - 1);
    }
  }

  function Zeros(n: nat): Data {
    seq(n, _ => 0.0)
  }

  function Offsets(sizes: seq<nat>): seq<Bounds> {
    if sizes == [] then []
    else
      var n := |sizes| - 1;
      Offsets(sizes[..n]) + [Bounds(Sum(sizes[..n]), Sum(sizes[..n]) + sizes[n])]
  }

  lemma {:induction false} OffsetsTile(sizes: seq<nat>)
    ensures Tiles(Offsets(sizes), Sum(sizes)) && |Offsets(sizes)| == |sizes|
    ensures forall i | 0 <= i < |sizes| :: Offsets(sizes)[i].second - Offsets(sizes)[i].first == sizes[i]
  {
    if sizes != [] {
      var n := |sizes| - 1;
      OffsetsTile(sizes[..n]);
      assert Offsets(sizes)[..n] == Offsets(sizes[..n]);
    }
  }

  /** The first n reported vectors have the sizes of their slices. */
  predicate Sized(reported: seq<Data>, b: seq<Bounds>, n: nat)
    requires n <= |reported| == |b|
  {
    forall i | 0 <= i < n :: |reported[i]| == b[i].second - b[i].first
  }

  // ---- Storing and restoring a simulation -----------------------------------------------------------

  /** All that a restart before an event needs. */
  datatype Snapshot = Snapshot(x: Data, dydt: Data, t: real, h: real, failedSteps: nat)

  class ModelExchangeStepper {
    const storage: FmigoStorage
    const x: array<real>
    const dydt: array<real>
    const backupDydt: array<real>
    var t: real
    var h: real
    var failedSteps: nat
    var backupT: real
    var backupH: real
    var backupFailedSteps: nat

    ghost predicate Valid()
      reads this, storage
    {
      && storage.Valid() && x.Length == dydt.Length == backupDydt.Length == |storage.current.states|
          == |storage.backup.states|
      && x != dydt && dydt != backupDydt && x != backupDydt
    }

    /** What the simulation now is. */
    ghost function Now(): Snapshot
      reads this, x, dydt
    {
      Snapshot(x[..], dydt[..], t, h, failedSteps)
    }

    /** What a restore would bring back. */
    ghost function Kept(): Snapshot
      reads this, storage, backupDydt
    {
      Snapshot(storage.backup.states, backupDydt[..], backupT, backupH, backupFailedSteps)
    }

    constructor (storage: FmigoStorage, t: real, h: real)
      requires storage.Valid()
      ensures Valid() && this.storage == storage && fresh(x) && fresh(dydt) && fresh(backupDydt)
    {
      assert storage.current.Of(States) == storage.current.states && storage.backup.Of(States) == storage.backup.states;
      var n := |storage.current.states|;
      this.storage := storage;
      x := new real[n](_ => 0.0);
      dydt := new real[n](_ => 0.0);
      backupDydt := new real[n](_ => 0.0);
      this.t, this.h, failedSteps := t, h, 0;
      backupT, backupH, backupFailedSteps := t, h, 0;
    }

    /** The states that the FMUs report, each into its client's slice. */
    method ReceiveStates(reported: seq<Data>) returns (ok: bool)
      requires Valid() && |reported| == |storage.bounds|
      modifies storage`current
      ensures Valid()
      ensures ok <==> Sized(reported, storage.bounds, |reported|)
      ensures ok ==> forall id: nat | id < |reported| :: storage.Slice(States, id) == reported[id]
    {
      assert storage.BoundsOf(States) == storage.bounds;
      var id := 0;
      while id < |reported|
        invariant 0 <= id <= |reported| && Valid() && storage.bounds == old(storage.bounds)
        invariant Sized(reported, storage.bounds, id)
        invariant forall j: nat | j < id :: storage.Slice(States, j) == reported[j]
      {
        ok := storage.PushTo(id, States, reported[id]);
        if !ok {
          SameLength();
          return;
        }
        SameLength();
        id := id + 1;
      }
      return true;
    }

    lemma SameLength()
      requires storage.Valid() && x.Length == |storage.backup.states|
      ensures |storage.current.states| == x.Length
    {
      assert |storage.current.Of(States)| == |storage.backup.Of(States)|;
    }

    /** storeStates. */
    method StoreStates(reported: seq<Data>) returns (ok: bool)
      requires Valid() && |reported| == |storage.bounds|
      modifies this, x, backupDydt, storage`current, storage`backup
      ensures Valid()
      ensures ok <==> Sized(reported, storage.bounds, |reported|)
      ensures ok ==> Kept() == Now() && storage.backup == storage.current
      ensures ok ==> dydt[..] == old(dydt[..]) && t == old(t) && h == old(h) && failedSteps == old(failedSteps)
      ensures ok ==> forall id: nat | id < |reported| :: storage.Slice(States, id) == reported[id]
    {
      backupFailedSteps, backupT, backupH := failedSteps, t, h;
      forall k | 0 <= k < dydt.Length { backupDydt[k] := dydt[k]; }
      ok := ReceiveStates(reported);
      if !ok { return; }
      storage.CopyAllStates(x);
      storage.Sync();
    }

    /** restoreStates: back to the last store, whatever the simulation and the FMUs did since. */
    method RestoreStates()
      requires Valid()
      modifies this, x, dydt, storage`current, storage`backup
      ensures Valid() && Now() == old(Kept()) && Kept() == old(Kept())
      ensures storage.current == storage.backup == old(storage.backup)
    {
      storage.Cycle();
      storage.Sync();
      storage.CopyAllStates(x);
      forall k | 0 <= k < dydt.Length { dydt[k] := backupDydt[k]; }
      failedSteps, t, h := backupFailedSteps, backupT, backupH;
    }

    /** Anything that happens between a store and a restore. */
    method Move(m: Move) returns (ok: bool)
      requires Valid()
      modifies this`t, this`h, this`failedSteps, x, dydt, storage`current
      ensures Valid() && Kept() == old(Kept()) && storage.backup == old(storage.backup)
      ensures ok <==> Fits(m, storage.bounds, storage.boundsI)
    {
      ok := true;
      match m {
        case Push(id, k, vec) =>
          ok := storage.PushTo(id, k, vec);
          SameLength();
        case Integrate(to) =>
          forall k | 0 <= k < x.Length { x[k] := if k < |to.x| then to.x[k] else 0.0; }
          forall k | 0 <= k < dydt.Length { dydt[k] := if k < |to.dydt| then to.dydt[k] else 0.0; }
          t, h, failedSteps := to.t, to.h, to.failedSteps;
      }
    }

    /** After any mix of pushes and integration, a restore returns to the store, and again if repeated. */
    method Retry(reported: seq<Data>, moves: seq<Move>, again: nat) returns (ok: bool)
      requires Valid() && |reported| == |storage.bounds|
      modifies this, x, dydt, backupDydt, storage`current, storage`backup
      ensures Valid()
      ensures ok <==> Sized(reported, storage.bounds, |reported|) && forall m | m in moves ::
              Fits(m, storage.bounds, storage.boundsI)
      ensures ok ==> Now() == Kept() && dydt[..] == old(dydt[..])
      ensures ok ==> t == old(t) && h == old(h) && failedSteps == old(failedSteps)
      ensures ok ==> forall id: nat | id < |reported| :: storage.Slice(States, id) == reported[id]
      ensures ok ==> storage.current == storage.backup
    {
      ok := StoreStates(reported);
      if !ok { return; }
      ghost var kept, stored := Kept(), storage.current;
      for i := 0 to |moves|
        invariant Valid() && Kept() == kept && storage.backup == stored
        invariant forall j | 0 <= j < i :: Fits(moves[j], storage.bounds, storage.boundsI)
      {
        ok := Move(moves[i]);
        if !ok { return; }
      }
      RestoreStates();
      for i := 0 to again
        invariant Valid() && Now() == kept && Kept() == kept && storage.current == storage.backup == stored
      {
        RestoreStates();
      }
    }

    /** Right after a restore no client is past an event. */
    method RestoredBeforeEvent(id: nat) returns (past: bool)
      requires Valid() && id < |storage.boundsI|
      modifies this, x, dydt, storage`current, storage`backup
      ensures Valid() && Now() == old(Kept()) && !past
    {
      RestoreStates();
      past := storage.PastEvent(id);
    }
  }

  datatype Move = Push(id: nat, kind: Kind, vec: Data) | Integrate(to: Snapshot)

  /** A push to an existing slice, of its size. */
  predicate Fits(m: Move, bounds: seq<Bounds>, boundsI: seq<Bounds>) {
    m.Push? ==>
      var b := if m.kind == Indicators then boundsI else bounds;
      m.id < |b| && |m.vec| == b[m.id].second - b[m.id].first
  }
}
