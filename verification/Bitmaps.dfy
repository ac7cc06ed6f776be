/**
 Chunk bitmaps: LSB-first, based at a chunk index carried in `sequence`, and
 split into windows of 8184 chunks when a NACK has to name many gaps.
 */
module Bitmaps {
  import opened Bytes

  const MAX_PAYLOAD := 1024
  const MAX_BITMAP_BYTES := MAX_PAYLOAD - 1
  const BITMAP_WINDOW := MAX_BITMAP_BYTES * 8

  function ChunkCount(totalSize: nat): nat
  {
    (totalSize + MAX_PAYLOAD - 1) / MAX_PAYLOAD
  }

  /** Bytes a bitmap of `count` bits takes. */
  function BytesFor(count: nat): nat
  {
    (count + 7) / 8
  }

  /** The bytes chunk `index` of a card of `totalSize` bytes covers. */
  function ChunkLen(totalSize: nat, index: nat): (len: nat)
    requires index < ChunkCount(totalSize)
    ensures 0 < len <= MAX_PAYLOAD && MAX_PAYLOAD * index + len <= totalSize
  {
    if totalSize - MAX_PAYLOAD * index < MAX_PAYLOAD then totalSize - MAX_PAYLOAD * index else MAX_PAYLOAD
  }

  /** `ss_bitmap_test`. */
  predicate Test(bitmap: seq<byte>, base: nat, index: nat)
  {
    base <= index && (index - base) / 8 < |bitmap| && Bit(bitmap[(index - base) / 8], (index - base) % 8)
  }

  /** The chunk indices a bitmap names. */
  ghost function Marked(bitmap: seq<byte>, base: nat): set<nat>
  {
    set i: nat | base <= i < base + 8 * |bitmap| && Test(bitmap, base, i)
  }

  lemma MarkedIsTest(bitmap: seq<byte>, base: nat, index: nat)
    ensures index in Marked(bitmap, base) <==> Test(bitmap, base, index)
  {
  }

  /** Two bitmaps of one length that name the same chunks are the same bytes. */
  lemma MarkedDetermines(a: seq<byte>, b: seq<byte>, base: nat)
    requires |a| == |b| && Marked(a, base) == Marked(b, base)
    ensures a == b
  {
    forall j | 0 <= j < |a| ensures a[j] == b[j] {
      forall k: nat | k < 8 ensures Bit(a[j], k) == Bit(b[j], k) {
        var i := base + 8 * j + k;
        assert (i - base) / 8 == j && (i - base) % 8 == k;
        MarkedIsTest(a, base, i);
        MarkedIsTest(b, base, i);
      }
      ByteIsItsBits(a[j], b[j]);
    }
  }

  lemma ZerosMarkNothing(n: nat, base: nat)
    ensures Marked(Zeros(n), base) == {}
  {
    forall k: nat ensures !Bit(0, k) { ZeroHasNoBits(k); }
  }

  lemma {:induction false} ZeroHasNoBits(k: nat)
    ensures !Bit(0, k)
  {
    if k != 0 { ZeroHasNoBits(k - 1); }
  }

  // ----- setting a bit in place

  /** A bitmap with one more chunk named; indices outside it change nothing. */
  function Mark(bitmap: seq<byte>, base: nat, index: nat): (r: seq<byte>)
    ensures |r| == |bitmap|
  {
    if base <= index && (index - base) / 8 < |bitmap| then
      var at := (index - base) / 8;
      bitmap[at := SetBit(bitmap[at], (index - base) % 8)]
    else bitmap
  }

  lemma MarkAdds(bitmap: seq<byte>, base: nat, index: nat)
    ensures Marked(Mark(bitmap, base, index), base)
         == if base <= index < base + 8 * |bitmap| then Marked(bitmap, base) + {index} else Marked(bitmap, base)
  {
    var r := Mark(bitmap, base, index);
    if base <= index < base + 8 * |bitmap| {
      forall i: nat ensures i in Marked(r, base) <==> i in Marked(bitmap, base) + {index} {
        if base <= i < base + 8 * |bitmap| {
          var at, k := (index - base) / 8, (index - base) % 8;
          OrBitAt(bitmap[at], k, (i - base) % 8);
          assert i - base == 8 * ((i - base) / 8) + (i - base) % 8;
        }
      }
    }
  }

  /** `ss_bitmap_set`. */
  method MarkInPlace(bitmap: array<byte>, base: nat, index: nat)
    modifies bitmap
    ensures bitmap[..] == Mark(old(bitmap[..]), base, index)
    ensures Marked(bitmap[..], base)
         == if base <= index < base + 8 * bitmap.Length then Marked(old(bitmap[..]), base) + {index}
            else Marked(old(bitmap[..]), base)
  {
    MarkAdds(bitmap[..], base, index);
    if index < base || bitmap.Length <= (index - base) / 8 {
      return;
    }
    var at := (index - base) / 8;
    bitmap[at] := SetBit(bitmap[at], (index - base) % 8);
    assert bitmap[..] == Mark(old(bitmap[..]), base, index);
  }

  // ----- packing

  /** The bitmap of `bytes` bytes that names exactly the part of `s` it covers. */
  ghost function Pack(s: set<nat>, base: nat, bytes: nat): (r: seq<byte>)
    ensures |r| == bytes
    ensures Marked(r, base) == set i | i in s && base <= i < base + 8 * bytes
  {
    var r := seq(bytes, j requires 0 <= j => ByteOf(seq(8, k requires 0 <= k => (base + 8 * j + k) in s)));
    assert Marked(r, base) == set i | i in s && base <= i < base + 8 * bytes by {
      forall i: nat | base <= i < base + 8 * bytes ensures i in Marked(r, base) <==> i in s {
        var j, k := (i - base) / 8, (i - base) % 8;
        var bits := seq(8, n requires 0 <= n => (base + 8 * j + n) in s);
        FromBitsAt(bits, k);
        assert r[j] == ByteOf(bits);
        assert bits[k] == (i in s);
        MarkedIsTest(r, base, i);
      }
    }
    r
  }

  /** Packing what a bitmap names gives the bitmap back. */
  lemma PackUndoesMarked(bitmap: seq<byte>, base: nat)
    ensures Pack(Marked(bitmap, base), base, |bitmap|) == bitmap
  {
    MarkedDetermines(Pack(Marked(bitmap, base), base, |bitmap|), bitmap, base);
  }

  ghost function Elements(s: seq<nat>): set<nat> {
    set i | i in s
  }

  method PackBitmap(indices: seq<nat>, base: nat, count: nat) returns (bitmap: seq<byte>)
    ensures |bitmap| == BytesFor(count)
    ensures Marked(bitmap, base) == set i | i in indices && base <= i < base + count
  {
    var bytes := new byte[BytesFor(count)](_ => 0);
    assert bytes[..] == Zeros(BytesFor(count));
    ZerosMarkNothing(BytesFor(count), base);
    var n := 0;
    while n < |indices|
      invariant 0 <= n <= |indices|
      invariant Marked(bytes[..], base) == set i | i in indices[..n] && base <= i < base + count
    {
      var index := indices[n];
      ghost var before := Marked(bytes[..], base);
      if base <= index < base + count {
        MarkInPlace(bytes, base, index);
      }
      assert indices[..n + 1] == indices[..n] + [index];
      n := n + 1;
    }
    assert indices[..n] == indices;
    bitmap := bytes[..];
  }

  ghost predicate Ascending(s: seq<nat>) {
    forall i, j | 0 <= i < j < |s| :: s[i] < s[j]
  }

  /** `unpack_bitmap`: the named indices, in order. */
  method UnpackBitmap(bitmap: seq<byte>, base: nat) returns (out: seq<nat>)
    ensures Ascending(out)
    ensures Elements(out) == Marked(bitmap, base)
  {
    out := [];
    var at := 0;
    while at < |bitmap|
      invariant 0 <= at <= |bitmap|
      invariant Ascending(out)
      invariant Elements(out) == set i | i in Marked(bitmap, base) && i < base + 8 * at
    {
      if bitmap[at] == 0 {
        forall i: nat | base + 8 * at <= i < base + 8 * (at + 1) ensures i !in Marked(bitmap, base) {
          assert (i - base) / 8 == at;
          ZeroHasNoBits((i - base) % 8);
        }
      } else {
        var bit := 0;
        while bit < 8
          invariant 0 <= bit <= 8
          invariant Ascending(out)
          invariant Elements(out) == set i | i in Marked(bitmap, base) && i < base + 8 * at + bit
        {
          var index := base + at * 8 + bit;
          assert (index - base) / 8 == at && (index - base) % 8 == bit;
          MarkedIsTest(bitmap, base, index);
          ghost var before := out;
          if Bit(bitmap[at], bit) {
            forall i | 0 <= i < |out| ensures out[i] < index { assert out[i] in Elements(out); }
            out := out + [index];
            assert Elements(out) == Elements(before) + {index};
          }
          bit := bit + 1;
        }
      }
      at := at + 1;
    }
  }

  // ----- windows

  datatype Window = Window(base: nat, bitmap: seq<byte>)

  ghost predicate Touches(s: set<nat>, q: nat) {
    exists i :: i in s && q * BITMAP_WINDOW <= i < (q + 1) * BITMAP_WINDOW
  }

  /** One NACK bitmap per window of `s` that holds anything, in order, for windows below `q`. */
  ghost function WindowsBelow(s: set<nat>, q: nat): seq<Window>
  {
    if q == 0 then []
    else
      WindowsBelow(s, q - 1) +
      if Touches(s, q - 1) then
        [Window((q - 1) * BITMAP_WINDOW, Pack(s, (q - 1) * BITMAP_WINDOW, MAX_BITMAP_BYTES))]
      else []
  }

  /** What a list of windows names, whatever its order or repetitions. */
  ghost function Named(windows: seq<Window>): set<nat>
  {
    set w, i | w in windows && i in Marked(w.bitmap, w.base) :: i
  }

  lemma NamedAppend(windows: seq<Window>, w: Window)
    ensures Named(windows + [w]) == Named(windows) + Marked(w.bitmap, w.base)
  {
    assert forall x :: x in windows + [w] <==> x in windows || x == w;
  }

  /** The windows name exactly the indices, each is aligned, full-sized and not empty. */
  lemma {:induction false} WindowsBelowName(s: set<nat>, q: nat)
    ensures Named(WindowsBelow(s, q)) == set i | i in s && i < q * BITMAP_WINDOW
    ensures forall w | w in WindowsBelow(s, q) :: ProperWindow(w, q)
  {
    if q != 0 {
      WindowsBelowName(s, q - 1);
      var prior, here := WindowsBelow(s, q - 1), (q - 1) * BITMAP_WINDOW;
      var w := Window(here, Pack(s, here, MAX_BITMAP_BYTES));
      assert Marked(w.bitmap, w.base) == set i | i in s && here <= i < here + BITMAP_WINDOW;
      assert here + BITMAP_WINDOW == q * BITMAP_WINDOW;
      if Touches(s, q - 1) {
        var i :| i in s && here <= i < q * BITMAP_WINDOW;
        assert i in Marked(w.bitmap, w.base);
        NamedAppend(prior, w);
      } else {
        assert forall i | i in s :: !((q - 1) * BITMAP_WINDOW <= i < q * BITMAP_WINDOW);
        assert WindowsBelow(s, q) == prior;
      }
    } else {
      assert forall i | i in s :: i >= 0;
    }
  }

  ghost predicate ProperWindow(w: Window, q: nat) {
    && (exists p: nat :: p < q && w.base == p * BITMAP_WINDOW)
    && |w.bitmap| == MAX_BITMAP_BYTES
    && Marked(w.bitmap, w.base) != {}
  }

  lemma {:induction false} EmptyWindowsAddNothing(s: set<nat>, p: nat, q: nat)
    requires p <= q
    requires forall i | i in s :: !(p * BITMAP_WINDOW <= i < q * BITMAP_WINDOW)
    ensures WindowsBelow(s, p) == WindowsBelow(s, q)
  {
    if p < q {
      EmptyWindowsAddNothing(s, p, q - 1);
    }
  }

  ghost predicate InOrder(s: seq<nat>) {
    forall i, j | 0 <= i < j < |s| :: s[i] <= s[j]
  }

  function Insert(x: nat, s: seq<nat>): seq<nat>
  {
    if s == [] || x <= s[0] then [x] + s else [s[0]] + Insert(x, s[1..])
  }

  lemma {:induction false} InsertIsMember(x: nat, s: seq<nat>, y: nat)
    ensures y in Insert(x, s) <==> y == x || y in s
  {
    if s != [] && x > s[0] {
      InsertIsMember(x, s[1..], y);
      assert s == [s[0]] + s[1..];
    }
  }

  lemma {:induction false} InsertKeepsOrder(x: nat, s: seq<nat>)
    requires InOrder(s)
    ensures InOrder(Insert(x, s))
  {
    if s != [] && x > s[0] {
      InsertKeepsOrder(x, s[1..]);
      var t := Insert(x, s[1..]);
      forall j | 0 <= j < |t| ensures s[0] <= t[j] {
        InsertIsMember(x, s[1..], t[j]);
      }
      PrependInOrder(s[0], t);
    } else {
      PrependInOrder(x, s);
    }
  }

  lemma PrependInOrder(x: nat, s: seq<nat>)
    requires InOrder(s) && forall j | 0 <= j < |s| :: x <= s[j]
    ensures InOrder([x] + s)
  {
  }

  /** `sorted(indices)`. */
  function Sorted(s: seq<nat>): seq<nat>
  {
    if s == [] then [] else Insert(s[0], Sorted(s[1..]))
  }

  lemma {:induction false} SortedIsSorted(s: seq<nat>)
    ensures InOrder(Sorted(s))
    ensures Elements(Sorted(s)) == Elements(s)
  {
    if s != [] {
      SortedIsSorted(s[1..]);
      InsertKeepsOrder(s[0], Sorted(s[1..]));
      forall y ensures y in Sorted(s) <==> y in s {
        InsertIsMember(s[0], Sorted(s[1..]), y);
        assert y in Elements(Sorted(s[1..])) <==> y in Elements(s[1..]);
        assert s == [s[0]] + s[1..];
      }
    }
  }

  /** Everything in `ordered` from `start` on is in window `q` or later; everything before is earlier. */
  ghost predicate SplitAt(ordered: seq<nat>, start: nat, q: nat) {
    && start <= |ordered|
    && (forall n | 0 <= n < start :: ordered[n] < q * BITMAP_WINDOW)
    && (forall n | start <= n < |ordered| :: q * BITMAP_WINDOW <= ordered[n])
  }

  /** Windows past the last index add nothing, so any bound past it gives the same list. */
  lemma AnyBoundWillDo(s: set<nat>, p: nat, q: nat)
    requires forall i | i in s :: i < p * BITMAP_WINDOW && i < q * BITMAP_WINDOW
    ensures WindowsBelow(s, p) == WindowsBelow(s, q)
  {
    if p <= q {
      EmptyWindowsAddNothing(s, p, q);
    } else {
      EmptyWindowsAddNothing(s, q, p);
    }
  }

  /** `bitmap_windows`: what it names, and for any bound past the last index, exactly those windows. */
  method BitmapWindows(indices: seq<nat>) returns (windows: seq<Window>)
    ensures Named(windows) == Elements(indices)
    ensures forall p: nat | forall i | i in indices :: i < p * BITMAP_WINDOW ::
              windows == WindowsBelow(Elements(indices), p)
  {
    ghost var q: nat;
    windows, q := CollectWindows(indices);
    WindowsBelowName(Elements(indices), q);
    forall p: nat | forall i | i in indices :: i < p * BITMAP_WINDOW
      ensures windows == WindowsBelow(Elements(indices), p)
    {
      AnyBoundWillDo(Elements(indices), p, q);
    }
  }

  /** The loop; `q` counts the windows up to the last one used. */
  method CollectWindows(indices: seq<nat>) returns (windows: seq<Window>, ghost q: nat)
    ensures forall i | i in indices :: i < q * BITMAP_WINDOW
    ensures windows == WindowsBelow(Elements(indices), q)
  {
    var ordered := Sorted(indices);
    SortedIsSorted(indices);
    windows := [];
    q := 0;
    var start := 0;
    while start < |ordered|
      invariant SplitAt(ordered, start, q)
      invariant windows == WindowsBelow(Elements(ordered), q)
    {
      var w := ordered[start] / BITMAP_WINDOW;
      var base := w * BITMAP_WINDOW;
      var end := TakeBelow(ordered, start, base + BITMAP_WINDOW);
      var bitmap := PackBitmap(ordered[start..end], base, BITMAP_WINDOW);
      SplitMoves(ordered, start, end, w);
      WindowStep(ordered, start, end, q, w, bitmap);
      windows := windows + [Window(base, bitmap)];
      start, q := end, w + 1;
    }
    forall i | i in indices ensures i < q * BITMAP_WINDOW {
      assert i in Elements(indices);
      assert i in ordered;
    }
  }

  /** The run of indices below `limit` that starts at `start`. */
  method TakeBelow(ordered: seq<nat>, start: nat, limit: nat) returns (end: nat)
    requires InOrder(ordered) && start < |ordered| && ordered[start] < limit
    ensures start < end <= |ordered|
    ensures forall n | start <= n < end :: ordered[n] < limit
    ensures forall n | end <= n < |ordered| :: limit <= ordered[n]
  {
    end := start;
    while end < |ordered| && ordered[end] < limit
      invariant start <= end <= |ordered|
      invariant forall n | start <= n < end :: ordered[n] < limit
      invariant end == start ==> ordered[start] < limit
    {
      end := end + 1;
    }
  }

  lemma SplitMoves(ordered: seq<nat>, start: nat, end: nat, w: nat)
    requires InOrder(ordered) && start < end <= |ordered|
    requires forall n | start <= n < end :: ordered[n] < w * BITMAP_WINDOW + BITMAP_WINDOW
    requires forall n | end <= n < |ordered| :: w * BITMAP_WINDOW + BITMAP_WINDOW <= ordered[n]
    ensures SplitAt(ordered, end, w + 1)
  {
    assert (w + 1) * BITMAP_WINDOW == w * BITMAP_WINDOW + BITMAP_WINDOW;
    forall n | 0 <= n < end ensures ordered[n] < (w + 1) * BITMAP_WINDOW {
      assert n < start ==> ordered[n] <= ordered[start];
    }
  }

  lemma NothingBetween(ordered: seq<nat>, start: nat, q: nat, w: nat)
    requires InOrder(ordered) && start < |ordered| && SplitAt(ordered, start, q)
    requires w * BITMAP_WINDOW <= ordered[start] < w * BITMAP_WINDOW + BITMAP_WINDOW
    ensures q <= w
    ensures forall i | i in Elements(ordered) :: !(q * BITMAP_WINDOW <= i < w * BITMAP_WINDOW)
  {
    assert q * BITMAP_WINDOW <= ordered[start];
    forall i | i in Elements(ordered) ensures !(q * BITMAP_WINDOW <= i < w * BITMAP_WINDOW) {
      var n :| 0 <= n < |ordered| && ordered[n] == i;
      assert n >= start ==> ordered[start] <= ordered[n];
    }
  }

  lemma WindowStep(ordered: seq<nat>, start: nat, end: nat, q: nat, w: nat, bitmap: seq<byte>)
    requires InOrder(ordered) && start < end <= |ordered|
    requires w * BITMAP_WINDOW <= ordered[start] < w * BITMAP_WINDOW + BITMAP_WINDOW
    requires SplitAt(ordered, start, q) && SplitAt(ordered, end, w + 1)
    requires |bitmap| == MAX_BITMAP_BYTES
    requires Marked(bitmap, w * BITMAP_WINDOW)
          == set i | i in ordered[start..end] && w * BITMAP_WINDOW <= i < w * BITMAP_WINDOW + BITMAP_WINDOW
    ensures WindowsBelow(Elements(ordered), w + 1)
         == WindowsBelow(Elements(ordered), q) + [Window(w * BITMAP_WINDOW, bitmap)]
  {
    var s, base := Elements(ordered), w * BITMAP_WINDOW;
    NothingBetween(ordered, start, q, w);
    EmptyWindowsAddNothing(s, q, w);
    assert (w + 1) * BITMAP_WINDOW == base + BITMAP_WINDOW;
    assert ordered[start] in s;
    assert Touches(s, w);
    var packed := Pack(s, base, MAX_BITMAP_BYTES);
    forall i | base <= i < base + BITMAP_WINDOW ensures i in s <==> i in ordered[start..end] {
      if i in s {
        var n :| 0 <= n < |ordered| && ordered[n] == i;
        assert q * BITMAP_WINDOW <= base;
        assert start <= n < end;
        assert ordered[start..end][n - start] == i;
      }
    }
    assert Marked(bitmap, base) == Marked(packed, base);
    MarkedDetermines(bitmap, packed, base);
  }

  // ----- the client's side of a gap report

  const WORD := 0x1_0000_0000

  /** What one NACK bitmap adds to the client's resend set; indices are 32 bits wide. */
  ghost function Wanted(bitmap: seq<byte>, base: nat, chunks: nat): set<nat>
  {
    set i | i in Marked(bitmap, base) && i % WORD < chunks :: i % WORD
  }

  /** Within 32 bits, that is what the bitmap names, cut off at the end of the card. */
  lemma WantedIsNamed(bitmap: seq<byte>, base: nat, chunks: nat)
    requires base + 8 * |bitmap| <= WORD
    ensures Wanted(bitmap, base, chunks) == set i | i in Marked(bitmap, base) && i < chunks
  {
    forall i | i in Marked(bitmap, base) ensures i % WORD == i {
    }
  }

  /**
   The client's decode loop over one gap datagram: byte 0 is the error code, and
   bit `b` of byte `i` names chunk `base + (i-1)*8 + b`.
   */
  method DecodeGaps(payload: seq<byte>, base: nat, chunks: nat, bitmap: array<byte>)
    requires |payload| >= 1 && chunks <= 8 * bitmap.Length
    modifies bitmap
    ensures Marked(bitmap[..], 0) == Marked(old(bitmap[..]), 0) + Wanted(payload[1..], base, chunks)
  {
    hide Marked, WantedBelow, Wanted, Mark;
    ghost var bits, was := payload[1..], Marked(bitmap[..], 0);
    NothingWantedYet(bits, base, chunks);
    var i := 1;
    while i < |payload|
      invariant 1 <= i <= |payload|
      invariant Marked(bitmap[..], 0) == was + WantedBelow(bits, base, chunks, base + 8 * (i - 1))
    {
      var bit := 0;
      while bit < 8
        invariant 0 <= bit <= 8
        invariant Marked(bitmap[..], 0) == was + WantedBelow(bits, base, chunks, base + 8 * (i - 1) + bit)
      {
        var index := (base + (i - 1) * 8 + bit) % WORD;
        WantedNext(bits, base, chunks, i - 1, bit);
        if Bit(payload[i], bit) && index < chunks {
          MarkInPlace(bitmap, 0, index);
        }
        bit := bit + 1;
      }
      i := i + 1;
    }
    AllWanted(bits, base, chunks);
  }

  /** The part of the resend set found below position `upTo`. */
  ghost function WantedBelow(bitmap: seq<byte>, base: nat, chunks: nat, upTo: nat): set<nat>
  {
    set i | i in Marked(bitmap, base) && i < upTo && i % WORD < chunks :: i % WORD
  }

  lemma NothingWantedYet(bitmap: seq<byte>, base: nat, chunks: nat)
    ensures WantedBelow(bitmap, base, chunks, base) == {}
  {
  }

  lemma AllWanted(bitmap: seq<byte>, base: nat, chunks: nat)
    ensures WantedBelow(bitmap, base, chunks, base + 8 * |bitmap|) == Wanted(bitmap, base, chunks)
  {
  }

  lemma WantedNext(bitmap: seq<byte>, base: nat, chunks: nat, j: nat, k: nat)
    requires j < |bitmap| && k < 8
    ensures var at := base + 8 * j + k;
            WantedBelow(bitmap, base, chunks, at + 1) == WantedBelow(bitmap, base, chunks, at)
            + if Bit(bitmap[j], k) && at % WORD < chunks then {at % WORD} else {}
  {
    var at := base + 8 * j + k;
    assert (at - base) / 8 == j && (at - base) % 8 == k;
    MarkedIsTest(bitmap, base, at);
    var l, r := WantedBelow(bitmap, base, chunks, at + 1), WantedBelow(bitmap, base, chunks, at);
    forall x | x in l ensures x in r || (at in Marked(bitmap, base) && x == at % WORD && x < chunks) {
      var i :| i in Marked(bitmap, base) && i < at + 1 && i % WORD < chunks && i % WORD == x;
    }
    if at in Marked(bitmap, base) && at % WORD < chunks {
      assert at % WORD in l;
    }
  }
}
