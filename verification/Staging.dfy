/**
 A push in progress: the staging buffer, its received and declared bitmaps and
 the counters the server keeps beside them.
 */
module Staging {
  import opened Bytes
  import opened Bitmaps

  /** (device_id, game_id, slot, card_version): what a transfer is filed under. */
  datatype Key = Key(deviceId: u64, gameId: string, slot: nat, transferId: u32)

  /** What a staging buffer means: its bytes, and which chunks arrived and were promised. */
  datatype Transfer = Transfer(
    key: Key,
    parent: nat,
    isDelta: bool,
    data: seq<byte>,
    received: set<nat>,
    declared: set<nat>,
    lastChunkAt: real)
  {
    function Expected(): nat {
      ChunkCount(|data|)
    }

    ghost predicate Valid() {
      && (forall i | i in received :: i < Expected())
      && (forall i | i in declared :: i < Expected())
    }

    /** Chunks still owed: on a delta, only what was declared is ever in flight. */
    ghost function Missing(): set<nat> {
      set i: nat | i < Expected() && (isDelta ==> i in declared) && i !in received
    }

    ghost predicate Complete() {
      Missing() == {}
    }

    function Declare(sequence: nat): (Transfer, bool)
    {
      if sequence >= Expected() then (this, false) else (this.(declared := declared + {sequence}), true)
    }

    /** Declarations go in ascending order and stop at the first index past the end. */
    ghost function DeclareAll(indices: set<nat>): Transfer
    {
      this.(declared := declared + set i | i in indices && i < Expected())
    }

    function StoreChunk(sequence: nat, offset: nat, payload: seq<byte>, now: real): (Transfer, bool)
    {
      if sequence >= Expected() || offset + |payload| > |data| then (this, false)
      else
        (this.(data := Splice(data, offset, payload), received := received + {sequence}, lastChunkAt := now), true)
    }
  }

  // ----- cardinalities behind the counters

  ghost function UpTo(n: nat): (s: set<nat>)
    ensures forall i: nat :: i in s <==> i < n
    ensures |s| == n
  {
    if n == 0 then {} else UpTo(n - 1) + {n - 1}
  }

  lemma {:induction false} SubsetSize(a: set<nat>, b: set<nat>)
    requires a <= b
    ensures |a| <= |b|
    ensures |a| == |b| ==> a == b
  {
    assert b == a + (b - a);
    assert |b| == |a| + |b - a|;
  }

  /** A set of chunk indices that is as large as the card is the whole card. */
  lemma FullMeansAll(s: set<nat>, n: nat)
    requires s <= UpTo(n)
    ensures |s| >= n <==> s == UpTo(n)
  {
    SubsetSize(s, UpTo(n));
  }

  /** How the number of chunks owed moves when chunk `x` is declared. */
  lemma DeclarationOwes(declared: set<nat>, received: set<nat>, x: nat)
    requires x !in declared
    ensures |declared + {x} - received| == |declared - received| + if x in received then 0 else 1
  {
    if x in received {
      assert declared + {x} - received == declared - received;
    } else {
      assert declared + {x} - received == (declared - received) + {x};
    }
  }

  /** How it moves when chunk `x` arrives. */
  lemma ArrivalSettles(declared: set<nat>, received: set<nat>, x: nat)
    requires x !in received
    ensures |received + {x}| == |received| + 1
    ensures |declared - (received + {x})| == |declared - received| - if x in declared then 1 else 0
  {
    if x in declared {
      assert declared - (received + {x}) == (declared - received) - {x};
    } else {
      assert declared - (received + {x}) == declared - received;
    }
  }

  // ----- the buffer itself

  class Buffer {
    const key: Key
    const parent: nat
    const isDelta: bool
    const expected: nat
    const data: array<byte>
    const received: array<byte>
    const declared: array<byte>
    var receivedCount: int
    var outstanding: int
    var lastChunkAt: real

    ghost function Repr(): set<object> {
      {this, data, received, declared}
    }

    ghost function View(): (t: Transfer)
      reads this, data, received, declared
      ensures t.key == key && t.parent == parent && t.isDelta == isDelta
      ensures t.data == data[..] && t.lastChunkAt == lastChunkAt
    {
      Transfer(key, parent, isDelta, data[..], Marked(received[..], 0), Marked(declared[..], 0), lastChunkAt)
    }

    ghost function Received(): set<nat>
      reads received
    {
      Marked(received[..], 0)
    }

    ghost function Declared(): set<nat>
      reads declared
    {
      Marked(declared[..], 0)
    }

    ghost predicate Shaped()
      reads received, declared
    {
      && data != received && data != declared && received != declared
      && expected == ChunkCount(data.Length)
      && received.Length == BytesFor(expected) && declared.Length == BytesFor(expected)
      && (forall i | i in Received() :: i < expected)
      && (forall i | i in Declared() :: i < expected)
    }

    /** The counters always equal what the bitmaps say. */
    ghost predicate Valid()
      reads this, data, received, declared
    {
      && Shaped()
      && receivedCount == |Received()|
      && (isDelta ==> outstanding == |Declared() - Received()|)
    }

    lemma ValidView()
      requires Valid()
      ensures View().Valid() && View().Expected() == expected
    {
      assert View().received == Received() && View().declared == Declared();
    }

    constructor (key: Key, parent: nat, isDelta: bool, seed: seq<byte>, now: real)
      ensures Valid() && fresh(Repr())
      ensures View() == Transfer(key, parent, isDelta, seed, {}, {}, now)
    {
      var count := ChunkCount(|seed|);
      this.key, this.parent, this.isDelta, this.expected := key, parent, isDelta, count;
      data := new byte[|seed|](i requires 0 <= i < |seed| => seed[i]);
      received := new byte[BytesFor(count)](_ => 0);
      declared := new byte[BytesFor(count)](_ => 0);
      receivedCount, outstanding, lastChunkAt := 0, 0, now;
      new;
      assert data[..] == seed;
      assert received[..] == Zeros(BytesFor(count)) && declared[..] == Zeros(BytesFor(count));
      ZerosMarkNothing(BytesFor(count), 0);
    }

    predicate Flagged(bitmap: array<byte>, sequence: nat)
      reads bitmap
      ensures Flagged(bitmap, sequence) <==> sequence in Marked(bitmap[..], 0)
    {
      MarkedIsTest(bitmap[..], 0, sequence);
      Test(bitmap[..], 0, sequence)
    }

    method Complete() returns (complete: bool)
      requires Valid()
      ensures complete <==> View().Complete()
    {
      if isDelta {
        complete := outstanding == 0;
        assert View().Missing() == Declared() - Received();
        assert |Declared() - Received()| == 0 <==> Declared() - Received() == {};
      } else {
        complete := receivedCount >= expected;
        assert View().Missing() == UpTo(expected) - Received();
        FullMeansAll(Received(), expected);
      }
    }

    method Declare(sequence: nat) returns (ok: bool)
      requires Valid()
      modifies this`outstanding, declared
      ensures Valid()
      ensures (View(), ok) == old(View()).Declare(sequence)
    {
      if sequence >= expected {
        return false;
      }
      ok := true;
      ghost var was := Declared();
      if Flagged(declared, sequence) {
        assert was + {sequence} == was;
        return;
      }
      DeclarationOwes(was, Received(), sequence);
      MarkInPlace(declared, 0, sequence);
      assert Declared() == was + {sequence};
      assert Received() == old(Received());
      if !Flagged(received, sequence) {
        outstanding := outstanding + 1;
      }
    }

    /** Declare indices in order, stopping at the first one past the end. */
    method DeclareEach(indices: seq<nat>) returns (n: nat)
      requires Valid()
      modifies this`outstanding, declared
      ensures Valid() && n <= |indices|
      ensures forall m | 0 <= m < n :: indices[m] < expected
      ensures n < |indices| ==> indices[n] >= expected
      ensures View() == old(View()).(declared := old(View()).declared + Elements(indices[..n]))
    {
      hide Valid, View;
      n := 0;
      while n < |indices|
        invariant 0 <= n <= |indices|
        invariant forall m | 0 <= m < n :: indices[m] < expected
        invariant Valid() && View() == old(View()).(declared := old(View()).declared + Elements(indices[..n]))
      {
        ValidView();
        var ok := Declare(indices[n]);
        if !ok {
          return;
        }
        assert indices[..n + 1] == indices[..n] + [indices[n]];
        assert Elements(indices[..n + 1]) == Elements(indices[..n]) + {indices[n]};
        n := n + 1;
      }
    }

    /** One PUSH_DELTA bitmap. */
    method DeclareBitmap(base: nat, bitmap: seq<byte>, now: real) returns (ok: bool)
      requires Valid()
      modifies this`outstanding, this`lastChunkAt, declared
      ensures Valid()
      ensures ok <==> forall i | i in Marked(bitmap, base) :: i < expected
      ensures var t := old(View()).DeclareAll(Marked(bitmap, base));
              View() == if ok then t.(lastChunkAt := now) else t
    {
      hide Valid, View, Marked;
      ValidView();
      var indices := UnpackBitmap(bitmap, base);
      var n := DeclareEach(indices);
      DeclaredUpTo(old(View()), indices, n, Marked(bitmap, base));
      ok := n == |indices|;
      if ok {
        Touch(now);
      }
    }

    method Touch(now: real)
      requires Valid()
      modifies this`lastChunkAt
      ensures Valid() && View() == old(View()).(lastChunkAt := now)
    {
      lastChunkAt := now;
    }

    /** Write the chunk's bytes where its offset says. */
    method Write(offset: nat, payload: seq<byte>)
      requires offset + |payload| <= data.Length
      modifies data
      ensures data[..] == Splice(old(data[..]), offset, payload)
    {
      forall i | 0 <= i < |payload| {
        data[offset + i] := payload[i];
      }
    }

    method FlagReceived(sequence: nat)
      requires Shaped() && sequence < expected
      modifies received
      ensures Shaped() && Received() == old(Received()) + {sequence} && Declared() == old(Declared())
    {
      hide Marked;
      assert sequence < 8 * received.Length;
      MarkInPlace(received, 0, sequence);
      assert Received() == old(Received()) + {sequence};
      assert Declared() == old(Declared());
    }

    /** Note that chunk `sequence` is here, settling a declaration of it. */
    method Settle(sequence: nat)
      requires Valid() && sequence < expected
      modifies this`receivedCount, this`outstanding, received
      ensures Valid() && Received() == old(Received()) + {sequence}
    {
      hide Shaped, Received, Declared;
      ghost var was := Received();
      SeesFlags(sequence);
      if Flagged(received, sequence) {
        assert was + {sequence} == was;
        return;
      }
      ArrivalSettles(Declared(), was, sequence);
      FlagReceived(sequence);
      receivedCount := receivedCount + 1;
      SeesFlags(sequence);
      if isDelta && Flagged(declared, sequence) {
        outstanding := outstanding - 1;
      }
    }

    lemma SeesFlags(sequence: nat)
      ensures Flagged(received, sequence) <==> sequence in Received()
      ensures Flagged(declared, sequence) <==> sequence in Declared()
    {
    }

    method StoreChunk(sequence: nat, offset: nat, payload: seq<byte>, now: real) returns (ok: bool)
      requires Valid()
      modifies Repr()
      ensures Valid()
      ensures (View(), ok) == old(View()).StoreChunk(sequence, offset, payload, now)
    {
      if sequence >= expected {
        return false;
      }
      if offset + |payload| > data.Length {
        return false;
      }
      Write(offset, payload);
      assert Received() == old(Received()) && Declared() == old(Declared());
      Settle(sequence);
      assert Declared() == old(Declared());
      lastChunkAt := now;
      ok := true;
    }

    /** `missing()`, in chunk order. */
    method Missing() returns (out: seq<nat>)
      requires Valid()
      ensures Ascending(out) && Elements(out) == View().Missing()
    {
      out := [];
      var index := 0;
      while index < expected
        invariant 0 <= index <= expected
        invariant Ascending(out)
        invariant Elements(out) == set i | i in View().Missing() && i < index
      {
        MarkedIsTest(declared[..], 0, index);
        MarkedIsTest(received[..], 0, index);
        if (!isDelta || Flagged(declared, index)) && !Flagged(received, index) {
          forall i | 0 <= i < |out| ensures out[i] < index { assert out[i] in Elements(out); }
          ghost var before := out;
          out := out + [index];
          assert Elements(out) == Elements(before) + {index};
        }
        index := index + 1;
      }
    }
  }

  /** What declaring up to the first index past the end comes to. */
  lemma DeclaredUpTo(t: Transfer, indices: seq<nat>, n: nat, named: set<nat>)
    requires Ascending(indices) && Elements(indices) == named && n <= |indices|
    requires forall m | 0 <= m < n :: indices[m] < t.Expected()
    requires n < |indices| ==> indices[n] >= t.Expected()
    ensures t.(declared := t.declared + Elements(indices[..n])) == t.DeclareAll(named)
    ensures n < |indices| <==> exists i :: i in named && i >= t.Expected()
  {
    forall i ensures i in indices[..n] <==> i in named && i < t.Expected() {
      if i in named {
        var m :| 0 <= m < |indices| && indices[m] == i;
        assert m >= n ==> indices[n] <= i;
      }
    }
    if n < |indices| {
      assert indices[n] in Elements(indices);
    } else {
      assert indices[..n] == indices;
    }
  }

  // ----- arrivals commute

  /** The bytes an honest client sends as chunk `index` of `image`. */
  function ChunkOf(image: seq<byte>, index: nat): seq<byte>
    requires index < ChunkCount(|image|)
  {
    image[MAX_PAYLOAD * index..MAX_PAYLOAD * index + ChunkLen(|image|, index)]
  }

  datatype Arrival = Declaration(sequence: nat) | Chunk(sequence: nat, at: real)

  /** One delivered datagram of a push of `image`. */
  function Deliver(t: Transfer, image: seq<byte>, a: Arrival): Transfer
    requires a.sequence < ChunkCount(|image|)
  {
    match a
    case Declaration(sequence) => t.Declare(sequence).0
    case Chunk(sequence, at) => t.StoreChunk(sequence, MAX_PAYLOAD * sequence, ChunkOf(image, sequence), at).0
  }

  ghost predicate Honest(image: seq<byte>, arrivals: seq<Arrival>) {
    forall a | a in arrivals :: a.sequence < ChunkCount(|image|)
  }

  function DeliverAll(t: Transfer, image: seq<byte>, arrivals: seq<Arrival>): Transfer
    requires forall a | a in arrivals :: a.sequence < ChunkCount(|image|)
  {
    if arrivals == [] then t
    else
      var before := arrivals[..|arrivals| - 1];
      Deliver(DeliverAll(t, image, before), image, arrivals[|arrivals| - 1])
  }

  ghost function ChunksIn(arrivals: seq<Arrival>): set<nat> {
    set a | a in arrivals && a.Chunk? :: a.sequence
  }

  ghost function DeclarationsIn(arrivals: seq<Arrival>): set<nat> {
    set a | a in arrivals && a.Declaration? :: a.sequence
  }

  /** `base` with the chunks in `from` replaced by the image's. */
  ghost function Overlay(base: seq<byte>, image: seq<byte>, from: set<nat>): (r: seq<byte>)
    requires |base| == |image|
    ensures |r| == |base|
    ensures forall i | 0 <= i < |r| :: r[i] == if i / MAX_PAYLOAD in from then image[i] else base[i]
  {
    seq(|base|, i requires 0 <= i < |base| => if i / MAX_PAYLOAD in from then image[i] else base[i])
  }

  lemma SpliceIsOverlay(base: seq<byte>, image: seq<byte>, from: set<nat>, index: nat)
    requires |base| == |image| && index < ChunkCount(|image|)
    ensures Splice(Overlay(base, image, from), MAX_PAYLOAD * index, ChunkOf(image, index))
         == Overlay(base, image, from + {index})
  {
    var at, len := MAX_PAYLOAD * index, ChunkLen(|image|, index);
    forall i | 0 <= i < |image|
      ensures at <= i < at + len <==> i / MAX_PAYLOAD == index
    {
    }
    var l, r := Splice(Overlay(base, image, from), at, ChunkOf(image, index)), Overlay(base, image, from + {index});
    forall i | 0 <= i < |image| ensures l[i] == r[i] {
      assert at <= i < at + len <==> i / MAX_PAYLOAD == index;
    }
    assert l == r;
  }

  /** A buffer after any deliveries, in closed form. */
  lemma {:induction false} DeliveredIs(t: Transfer, image: seq<byte>, arrivals: seq<Arrival>)
    requires |t.data| == |image| && Honest(image, arrivals)
    ensures var r := DeliverAll(t, image, arrivals);
            && r.data == Overlay(t.data, image, ChunksIn(arrivals))
            && r.received == t.received + ChunksIn(arrivals)
            && r.declared == t.declared + DeclarationsIn(arrivals)
            && r.key == t.key && r.parent == t.parent && r.isDelta == t.isDelta
  {
    if arrivals == [] {
      assert t.data == Overlay(t.data, image, {});
    } else {
      var n := |arrivals| - 1;
      var before, a := arrivals[..n], arrivals[n];
      assert arrivals == before + [a];
      DeliveredIs(t, image, before);
      assert forall x :: x in arrivals <==> x in before || x == a;
      match a
      case Declaration(s) =>
        assert ChunksIn(arrivals) == ChunksIn(before);
        assert DeclarationsIn(arrivals) == DeclarationsIn(before) + {s};
      case Chunk(s, at) =>
        assert ChunksIn(arrivals) == ChunksIn(before) + {s};
        assert DeclarationsIn(arrivals) == DeclarationsIn(before);
        SpliceIsOverlay(t.data, image, ChunksIn(before), s);
    }
  }

  /** Order and repetition do not matter: only the set of deliveries does. */
  lemma StagingIsConfluent(t: Transfer, image: seq<byte>, a: seq<Arrival>, b: seq<Arrival>)
    requires |t.data| == |image| && Honest(image, a) && Honest(image, b)
    requires ChunksIn(a) == ChunksIn(b) && DeclarationsIn(a) == DeclarationsIn(b)
    ensures DeliverAll(t, image, a).(lastChunkAt := 0.0) == DeliverAll(t, image, b).(lastChunkAt := 0.0)
    ensures DeliverAll(t, image, a).Missing() == DeliverAll(t, image, b).Missing()
  {
    DeliveredIs(t, image, a);
    DeliveredIs(t, image, b);
  }

  /**
   What a complete buffer holds: on a whole-card push the image itself, on a
   delta the image wherever it was declared or sent and the seed elsewhere.
   */
  lemma CompleteHolds(seed: Transfer, image: seq<byte>, arrivals: seq<Arrival>)
    requires |seed.data| == |image| && seed.received == {} && seed.declared == {} && Honest(image, arrivals)
    requires DeliverAll(seed, image, arrivals).Complete()
    ensures !seed.isDelta ==> DeliverAll(seed, image, arrivals).data == image
    ensures seed.isDelta ==>
              && DeclarationsIn(arrivals) <= ChunksIn(arrivals)
              && DeliverAll(seed, image, arrivals).data == Overlay(seed.data, image, ChunksIn(arrivals))
  {
    DeliveredIs(seed, image, arrivals);
    var r := DeliverAll(seed, image, arrivals);
    if seed.isDelta {
      forall i | i in DeclarationsIn(arrivals) ensures i in ChunksIn(arrivals) {
        assert i < r.Expected();
        assert i !in r.Missing();
      }
    } else {
      forall i | 0 <= i < |image| ensures r.data[i] == image[i] {
        assert i / MAX_PAYLOAD !in r.Missing();
      }
    }
  }
}
