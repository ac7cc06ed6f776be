/** Per-block fingerprints: FNV-1a, and the scan that turns a table into a dirty bitmap. */
module Fingerprint {
  import opened Bytes
  import opened Bitmaps
  import opened Staging

  const BLOCK_SIZE := 8192
  const CHUNKS_PER_BLOCK := 8

  const FNV_BASIS: u32 := 2166136261
  const FNV_PRIME := 16777619
  /** The prime's inverse modulo 2^32. */
  const FNV_INVERSE := 899433627

  lemma WordIsExp2()
    ensures Exp2(32) == WORD
  {
    assert Exp2(8) == 0x100 by { assert Exp2(4) == 16; }
    assert Exp2(16) == 0x1_0000 by { assert Exp2(12) == 0x1000; }
    assert Exp2(24) == 0x100_0000 by { assert Exp2(20) == 0x10_0000; }
    assert Exp2(28) == 0x1000_0000;
  }

  /** One round: xor the byte in, multiply by the prime, keep 32 bits. */
  function FnvStep(hash: u32, b: byte): u32
  {
    Xor(hash, b, 32) * FNV_PRIME % WORD
  }

  function Fnv(data: seq<byte>): u32
  {
    if data == [] then FNV_BASIS else FnvStep(Fnv(data[..|data| - 1]), data[|data| - 1])
  }

  /** `ss_fp_hash`. */
  method Hash(data: seq<byte>) returns (hash: u32)
    ensures hash == Fnv(data)
  {
    hash := FNV_BASIS;
    var i := 0;
    while i < |data|
      invariant 0 <= i <= |data| && hash == Fnv(data[..i])
    {
      assert data[..i + 1][..i] == data[..i];
      hash := FnvStep(hash, data[i]);
      i := i + 1;
    }
    assert data[..i] == data;
  }

  // ----- no single changed byte goes unnoticed

  /** Multiplying by the prime loses nothing modulo 2^32. */
  lemma MultiplyIsInjective(x: u32, y: u32)
    requires x * FNV_PRIME % WORD == y * FNV_PRIME % WORD
    ensures x == y
  {
    var p, q := x * FNV_PRIME / WORD, y * FNV_PRIME / WORD;
    assert FNV_PRIME * FNV_INVERSE == 1 + 3513497 * WORD;
    assert (x - y) * FNV_PRIME == (p - q) * WORD;
    var k := (p - q) * FNV_INVERSE - (x - y) * 3513497;
    assert x - y == k * WORD;
  }

  lemma StepIsInjective(g: u32, h: u32, a: byte, b: byte)
    requires FnvStep(g, a) == FnvStep(h, b)
    ensures a == b ==> g == h
    ensures g == h ==> a == b
  {
    WordIsExp2();
    MultiplyIsInjective(Xor(g, a, 32), Xor(h, b, 32));
    XorCancels(g, a, 32);
    XorCancels(h, b, 32);
    XorCommutes(g, a, 32);
    XorCommutes(h, b, 32);
    XorCancels(a, g, 32);
    XorCancels(b, h, 32);
  }

  /** Two buffers of one length that differ in exactly one byte have different fingerprints. */
  lemma {:induction false} OneByteChangesFnv(a: seq<byte>, b: seq<byte>, i: nat)
    requires |a| == |b| && i < |a| && a[i] != b[i]
    requires forall j | 0 <= j < |a| && j != i :: a[j] == b[j]
    ensures Fnv(a) != Fnv(b)
  {
    var n := |a| - 1;
    if i == n {
      assert a[..n] == b[..n];
    } else {
      OneByteChangesFnv(a[..n], b[..n], i);
    }
    if Fnv(a) == Fnv(b) {
      StepIsInjective(Fnv(a[..n]), Fnv(b[..n]), a[n], b[n]);
    }
  }

  // ----- blocks and the table

  function Blocks(size: nat): nat {
    (size + BLOCK_SIZE - 1) / BLOCK_SIZE
  }

  function BlockOf(card: seq<byte>, block: nat): seq<byte>
    requires block < Blocks(|card|)
  {
    var end := BLOCK_SIZE * block + BLOCK_SIZE;
    card[BLOCK_SIZE * block..if end < |card| then end else |card|]
  }

  /** The fingerprint table that describes `card`. */
  function Table(card: seq<byte>): (t: seq<u32>)
    ensures |t| == Blocks(|card|)
  {
    seq(Blocks(|card|), block requires 0 <= block < Blocks(|card|) => Fnv(BlockOf(card, block)))
  }

  /** Blocks of `card` the table no longer describes. */
  ghost function Stale(card: seq<byte>, fp: seq<u32>): set<nat>
    requires Blocks(|card|) <= |fp|
  {
    set block: nat | block < Blocks(|card|) && Fnv(BlockOf(card, block)) != fp[block]
  }

  /** Every chunk of every stale block. */
  ghost function DirtyChunks(card: seq<byte>, fp: seq<u32>): set<nat>
    requires Blocks(|card|) <= |fp|
  {
    set chunk: nat | chunk < ChunkCount(|card|) && chunk / CHUNKS_PER_BLOCK in Stale(card, fp)
  }

  /** The bits below `limit` are `s`; anything past it in a larger buffer is not the scan's. */
  ghost predicate SameBits(bitmap: seq<byte>, limit: nat, s: set<nat>) {
    forall i: nat | i < limit :: i in Marked(bitmap, 0) <==> i in s
  }

  /** The part of the dirty set the scan has reached: blocks below `block`, or chunks below `chunk`. */
  ghost function DirtyBelow(card: seq<byte>, fp: seq<u32>, chunk: nat): set<nat>
    requires Blocks(|card|) <= |fp|
  {
    set c | c in DirtyChunks(card, fp) && c < chunk
  }

  lemma ChunkBlockBounds(size: nat)
    ensures forall chunk: nat | chunk < ChunkCount(size) :: chunk / CHUNKS_PER_BLOCK < Blocks(size)
    ensures ChunkCount(size) <= CHUNKS_PER_BLOCK * Blocks(size)
  {
  }

  /** The bits of one stale block, `chunk` up to its last. */
  method MarkBlock(block: nat, chunks: nat, dirty: array<byte>) returns (marked: nat)
    requires chunks <= 8 * dirty.Length
    modifies dirty
    ensures Marked(dirty[..], 0) == Marked(old(dirty[..]), 0) + Members(block, chunks)
    ensures marked == |Members(block, chunks)|
  {
    hide Marked, Mark, Members;
    var first := CHUNKS_PER_BLOCK * block;
    var chunk := first;
    marked := 0;
    ghost var done: set<nat> := {};
    while chunk < first + CHUNKS_PER_BLOCK && chunk < chunks
      invariant first <= chunk <= first + CHUNKS_PER_BLOCK
      invariant chunk <= chunks || chunk == first
      invariant forall i: nat :: i in done <==> first <= i < chunk
      invariant marked == |done|
      invariant Marked(dirty[..], 0) == Marked(old(dirty[..]), 0) + done
    {
      MarkInPlace(dirty, 0, chunk);
      done := done + {chunk};
      marked := marked + 1;
      chunk := chunk + 1;
    }
    assert done == Members(block, chunks);
  }

  /** The chunks of one block that are on the card. */
  ghost function Members(block: nat, chunks: nat): (s: set<nat>)
    ensures forall i: nat :: i in s <==> i < chunks && CHUNKS_PER_BLOCK * block <= i < CHUNKS_PER_BLOCK * (block + 1)
  {
    set i: nat | i < chunks && i / CHUNKS_PER_BLOCK == block
  }

  lemma BlockJoins(card: seq<byte>, fp: seq<u32>, block: nat)
    requires Blocks(|card|) <= |fp| && block < Blocks(|card|)
    ensures var here := Members(block, ChunkCount(|card|));
            var upTo := DirtyBelow(card, fp, CHUNKS_PER_BLOCK * block);
            && DirtyBelow(card, fp, CHUNKS_PER_BLOCK * (block + 1))
               == (if block in Stale(card, fp) then upTo + here else upTo)
            && |upTo + here| == |upTo| + |here|
  {
    hide Members, Stale, ChunkCount, Blocks;
    var here := Members(block, ChunkCount(|card|));
    var upTo := DirtyBelow(card, fp, CHUNKS_PER_BLOCK * block);
    var next := DirtyBelow(card, fp, CHUNKS_PER_BLOCK * (block + 1));
    assert upTo !! here;
    forall i: nat ensures i in next <==> i in upTo || (block in Stale(card, fp) && i in here) {
      BlockOfChunk(i, block);
    }
  }

  lemma BlockOfChunk(i: nat, block: nat)
    ensures CHUNKS_PER_BLOCK * block <= i < CHUNKS_PER_BLOCK * (block + 1) <==> i / CHUNKS_PER_BLOCK == block
  {
  }

  /** The scan's progress: blocks below `block` are settled, the rest untouched. */
  ghost predicate Scanned(card: seq<byte>, was: seq<u32>, fp: seq<u32>, bits: seq<byte>, marked: int, block: nat) {
    && |fp| == |was| >= Blocks(|card|) && block <= Blocks(|card|)
    && (forall b: nat | b < block :: fp[b] == Fnv(BlockOf(card, b)))
    && (forall b: nat | block <= b < |fp| :: fp[b] == was[b])
    && SameBits(bits, 8 * BytesFor(ChunkCount(|card|)), DirtyBelow(card, was, CHUNKS_PER_BLOCK * block))
    && marked == |DirtyBelow(card, was, CHUNKS_PER_BLOCK * block)|
  }

  /** One block: compare, and if it changed re-fingerprint it and flag its chunks. */
  method ScanBlock(card: seq<byte>, fp: array<u32>, dirty: array<byte>, block: nat) returns (n: nat)
    requires block < Blocks(|card|) <= fp.Length && ChunkCount(|card|) <= 8 * dirty.Length
    modifies fp, dirty
    ensures BlockEffect(card, old(fp[..]), fp[..], old(dirty[..]), dirty[..], n, block)
  {
    var hash := Hash(BlockOf(card, block));
    n := 0;
    if hash != fp[block] {
      fp[block] := hash;
      n := MarkBlock(block, ChunkCount(|card|), dirty);
    }
  }

  ghost predicate BlockEffect(card: seq<byte>, fp: seq<u32>, fp': seq<u32>, bits: seq<byte>, bits': seq<byte>, n: nat,
                              block: nat)
    requires block < Blocks(|card|) <= |fp|
  {
    var hash, here := Fnv(BlockOf(card, block)), Members(block, ChunkCount(|card|));
    if hash == fp[block] then fp' == fp && bits' == bits && n == 0
    else fp' == fp[block := hash] && Marked(bits', 0) == Marked(bits, 0) + here && n == |here|
  }

  lemma ScannedNone(card: seq<byte>, was: seq<u32>, bits: seq<byte>)
    requires Blocks(|card|) <= |was| && SameBits(bits, 8 * BytesFor(ChunkCount(|card|)), {})
    ensures Scanned(card, was, was, bits, 0, 0)
  {
    assert DirtyBelow(card, was, CHUNKS_PER_BLOCK * 0) == {};
  }

  lemma ScannedNext(card: seq<byte>, was: seq<u32>, fp: seq<u32>, fp': seq<u32>, bits: seq<byte>, bits': seq<byte>,
                    marked: int, n: nat, block: nat)
    requires Scanned(card, was, fp, bits, marked, block) && block < Blocks(|card|)
    requires BlockEffect(card, fp, fp', bits, bits', n, block)
    ensures Scanned(card, was, fp', bits', marked + n, block + 1)
  {
    hide Marked, BlockOf, Members, DirtyBelow;
    BlockJoins(card, was, block);
    assert block in Stale(card, was) <==> Fnv(BlockOf(card, block)) != fp[block];
  }

  lemma ScannedAll(card: seq<byte>, was: seq<u32>, fp: seq<u32>, bits: seq<byte>, marked: int)
    requires Scanned(card, was, fp, bits, marked, Blocks(|card|))
    ensures fp == Table(card) + was[Blocks(|card|)..]
    ensures SameBits(bits, 8 * BytesFor(ChunkCount(|card|)), DirtyChunks(card, was))
    ensures marked == |DirtyChunks(card, was)|
  {
    ChunkBlockBounds(|card|);
    assert DirtyBelow(card, was, CHUNKS_PER_BLOCK * Blocks(|card|)) == DirtyChunks(card, was);
  }

  /**
   `ss_fp_scan`. Fails when the caller's buffers are too small for this card and
   then touches nothing; otherwise the table afterwards describes `card`, the
   bitmap names every chunk of every changed block and nothing past the card, and
   the result is the number of bits set.
   */
  method Scan(card: seq<byte>, fp: array<u32>, dirty: array<byte>) returns (marked: int)
    modifies fp, dirty
    ensures marked == -1 <==>
              card == [] || Blocks(|card|) > fp.Length || dirty.Length < BytesFor(ChunkCount(|card|))
    ensures marked == -1 ==> fp[..] == old(fp[..]) && dirty[..] == old(dirty[..])
    ensures marked != -1 ==>
              && fp[..] == Table(card) + old(fp[..])[Blocks(|card|)..]
              && SameBits(dirty[..], 8 * BytesFor(ChunkCount(|card|)), DirtyChunks(card, old(fp[..])))
              && marked == |DirtyChunks(card, old(fp[..]))|
  {
    hide DirtyChunks, SameBits, Table;
    if |card| == 0 {
      return -1;
    }
    if Blocks(|card|) > fp.Length || dirty.Length < BytesFor(ChunkCount(|card|)) {
      return -1;
    }
    marked := ScanBlocks(card, fp, dirty);
  }

  /** The scan proper: clear the bitmap, then every block in turn. */
  method ScanBlocks(card: seq<byte>, fp: array<u32>, dirty: array<byte>) returns (marked: int)
    requires Blocks(|card|) <= fp.Length && BytesFor(ChunkCount(|card|)) <= dirty.Length
    modifies fp, dirty
    ensures fp[..] == Table(card) + old(fp[..])[Blocks(|card|)..]
    ensures SameBits(dirty[..], 8 * BytesFor(ChunkCount(|card|)), DirtyChunks(card, old(fp[..])))
    ensures marked == |DirtyChunks(card, old(fp[..]))|
  {
    hide DirtyBelow, DirtyChunks, SameBits, Scanned, BlockEffect, Table;
    ghost var was := fp[..];
    Clear(dirty, BytesFor(ChunkCount(|card|)));
    marked := 0;
    ScannedNone(card, was, dirty[..]);
    var block := 0;
    while block < Blocks(|card|)
      invariant 0 <= block <= Blocks(|card|)
      invariant Scanned(card, was, fp[..], dirty[..], marked, block)
    {
      ghost var fp0, dirty0, marked0 := fp[..], dirty[..], marked;
      var n := ScanBlock(card, fp, dirty, block);
      marked := marked + n;
      ScannedNext(card, was, fp0, fp[..], dirty0, dirty[..], marked0, n, block);
      block := block + 1;
    }
    ScannedAll(card, was, fp[..], dirty[..], marked);
  }

  /** `memset(bitmap, 0, needed)`. */
  method Clear(bitmap: array<byte>, needed: nat)
    requires needed <= bitmap.Length
    modifies bitmap
    ensures SameBits(bitmap[..], 8 * needed, {})
  {
    forall i | 0 <= i < needed {
      bitmap[i] := 0;
    }
    ClearedBits(bitmap[..], needed);
  }

  lemma ClearedBits(bitmap: seq<byte>, bytes: nat)
    requires bytes <= |bitmap| && forall i | 0 <= i < bytes :: bitmap[i] == 0
    ensures SameBits(bitmap, 8 * bytes, {})
  {
    forall i: nat | i < 8 * bytes ensures i !in Marked(bitmap, 0) {
      ZeroHasNoBits(i % 8);
    }
  }

  /** Half the card or more is not worth a delta. */
  predicate Worthwhile(marked: nat, chunks: nat) {
    chunks > 0 && marked * 2 < chunks
  }

  // ----- what the scan misses, and what it cannot

  /** No changed block has the fingerprint of the block it replaced. */
  ghost predicate NoCollision(card: seq<byte>, parent: seq<byte>)
    requires |card| == |parent|
  {
    forall block: nat | block < Blocks(|card|) ::
      Fnv(BlockOf(card, block)) == Fnv(BlockOf(parent, block)) ==> BlockOf(card, block) == BlockOf(parent, block)
  }

  /** A table of the parent and no collision: the parent overlaid with the dirty chunks is the card. */
  lemma DirtyChunksRebuildCard(card: seq<byte>, parent: seq<byte>)
    requires |card| == |parent| && NoCollision(card, parent)
    ensures Overlay(parent, card, DirtyChunks(card, Table(parent))) == card
  {
    var dirty := DirtyChunks(card, Table(parent));
    forall i | 0 <= i < |card| && i / MAX_PAYLOAD !in dirty ensures parent[i] == card[i] {
      var chunk, block := i / MAX_PAYLOAD, i / BLOCK_SIZE;
      assert chunk < ChunkCount(|card|) && chunk / CHUNKS_PER_BLOCK == block && block < Blocks(|card|);
      assert block !in Stale(card, Table(parent));
      assert BlockOf(card, block) == BlockOf(parent, block);
      assert card[i] == BlockOf(card, block)[i - BLOCK_SIZE * block];
      assert parent[i] == BlockOf(parent, block)[i - BLOCK_SIZE * block];
    }
  }

  /** And only then: a collision in a changed block leaves the old bytes in place. */
  lemma CollisionIsMissed(card: seq<byte>, parent: seq<byte>)
    requires |card| == |parent| && !NoCollision(card, parent)
    ensures Overlay(parent, card, DirtyChunks(card, Table(parent))) != card
  {
    var block: nat :| block < Blocks(|card|)
      && Fnv(BlockOf(card, block)) == Fnv(BlockOf(parent, block)) && BlockOf(card, block) != BlockOf(parent, block);
    var n: nat :| n < |BlockOf(card, block)| && BlockOf(card, block)[n] != BlockOf(parent, block)[n];
    var i := BLOCK_SIZE * block + n;
    assert card[i] != parent[i];
    assert n < BLOCK_SIZE;
    assert i / MAX_PAYLOAD / CHUNKS_PER_BLOCK == block;
    assert block !in Stale(card, Table(parent));
    assert i / MAX_PAYLOAD !in DirtyChunks(card, Table(parent));
  }

  /** A block changed in a single byte is always sent. */
  lemma OneByteIsAlwaysSent(card: seq<byte>, parent: seq<byte>, i: nat)
    requires |card| == |parent| && i < |card| && card[i] != parent[i]
    requires forall j | 0 <= j < |card| && j != i && j / BLOCK_SIZE == i / BLOCK_SIZE :: card[j] == parent[j]
    ensures forall chunk: nat | chunk < ChunkCount(|card|) && chunk / CHUNKS_PER_BLOCK == i / BLOCK_SIZE ::
              chunk in DirtyChunks(card, Table(parent))
  {
    var block := i / BLOCK_SIZE;
    var a, b := BlockOf(card, block), BlockOf(parent, block);
    forall n | 0 <= n < |a| && n != i - BLOCK_SIZE * block ensures a[n] == b[n] {
      assert (BLOCK_SIZE * block + n) / BLOCK_SIZE == block;
    }
    OneByteChangesFnv(a, b, i - BLOCK_SIZE * block);
    assert block in Stale(card, Table(parent));
  }
}
