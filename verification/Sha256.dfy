/**
 Streaming SHA-256 and HMAC over an uninterpreted block function: however the
 message is cut up, what is hashed is the padded whole.
 */
module Sha256 {
  import opened Bytes

  const BLOCK := 64
  const DIGEST := 32

  type Words = s: seq<u32> | |s| == 8 witness [0, 0, 0, 0, 0, 0, 0, 0]
  type Block = s: seq<byte> | |s| == BLOCK witness Zeros(BLOCK)

  /** `sha256_block`: one block into the state. */
  type Compress = (Words, Block) -> Words

  const IV: Words := [0x6a09e667, 0xbb67ae85, 0x3c6ef372, 0xa54ff53a, 0x510e527f, 0x9b05688c, 0x1f83d9ab, 0x5be0cd19]

  // ----- the standard

  /** The state after whole blocks. */
  function Fold(f: Compress, h: Words, s: seq<byte>): Words
    requires |s| % BLOCK == 0
    decreases |s|
  {
    if s == [] then h else Fold(f, f(h, s[..BLOCK]), s[BLOCK..])
  }

  /** Zero bytes between the 1 bit and the length, section 5.1.1 of FIPS 180-4. */
  function PadZeros(len: nat): (k: nat)
    ensures k < BLOCK && (len + 1 + k) % BLOCK == BLOCK - 8
  {
    (2 * BLOCK - 9 - len % BLOCK) % BLOCK
  }

  const BITS := 0x1_0000_0000_0000_0000

  lemma EightMore(n: nat)
    requires n % BLOCK == BLOCK - 8
    ensures (n + 8) % BLOCK == 0
  {
  }

  /** The padded message; the length field holds 64 bits. */
  function Pad(m: seq<byte>): (s: seq<byte>)
    ensures |s| % BLOCK == 0
  {
    EightMore(|m| + 1 + PadZeros(|m|));
    m + [0x80] + Zeros(PadZeros(|m|)) + PutU64(8 * |m| % BITS)
  }

  function WordsOut(h: seq<u32>): (s: seq<byte>)
    ensures |s| == 4 * |h|
  {
    if h == [] then [] else WordsOut(h[..|h| - 1]) + PutU32(h[|h| - 1])
  }

  function Hash(f: Compress, m: seq<byte>): (d: seq<byte>)
    ensures |d| == DIGEST
  {
    WordsOut(Fold(f, IV, Pad(m)))
  }

  /** The key as one block, and the two keyed hashes: section 2 of RFC 2104. */
  function KeyBlock(f: Compress, key: seq<byte>): Block
  {
    if |key| > BLOCK then Hash(f, key) + Zeros(BLOCK - DIGEST) else key + Zeros(BLOCK - |key|)
  }

  function XorAll(s: seq<byte>, b: byte): (r: seq<byte>)
    ensures |r| == |s|
  {
    seq(|s|, i requires 0 <= i < |s| => XorByte(s[i], b))
  }

  function Hmac(f: Compress, key: seq<byte>, text: seq<byte>): seq<byte>
  {
    var k := KeyBlock(f, key);
    Hash(f, XorAll(k, 0x5c) + Hash(f, XorAll(k, 0x36) + text))
  }

  // ----- about the standard's functions

  lemma {:induction false} FoldAppend(f: Compress, h: Words, a: seq<byte>, b: seq<byte>)
    requires |a| % BLOCK == 0 && |b| % BLOCK == 0
    ensures Fold(f, h, a + b) == Fold(f, Fold(f, h, a), b)
    decreases |a|
  {
    if a == [] {
      assert a + b == b;
    } else {
      assert (a + b)[..BLOCK] == a[..BLOCK] && (a + b)[BLOCK..] == a[BLOCK..] + b;
      FoldAppend(f, f(h, a[..BLOCK]), a[BLOCK..], b);
    }
  }

  lemma FoldOne(f: Compress, h: Words, b: Block)
    ensures Fold(f, h, b) == f(h, b)
  {
    assert b[..BLOCK] == b && b[BLOCK..] == [];
  }

  /** Padding never makes two messages the same: below 2^61 bytes the length field tells them apart. */
  lemma PadIsInjective(a: seq<byte>, b: seq<byte>)
    requires Pad(a) == Pad(b) && |a| < 0x2000_0000_0000_0000 && |b| < 0x2000_0000_0000_0000
    ensures a == b
  {
    hide Pad, PutU64;
    PadKeeps(a);
    PadKeeps(b);
    U64IsInjective(8 * |a|, 8 * |b|);
  }

  lemma PadKeeps(m: seq<byte>)
    ensures var p := Pad(m); |p| >= |m| + 9 && p[..|m|] == m && p[|p| - 8..] == PutU64(8 * |m| % BITS)
  {
    hide PutU64, PadZeros;
    var front := m + [0x80] + Zeros(PadZeros(|m|));
    assert Pad(m) == front + PutU64(8 * |m| % BITS);
  }

  lemma U64IsInjective(v: u64, w: u64)
    requires PutU64(v) == PutU64(w)
    ensures v == w
  {
    var hi, lo := PutU32(v / 0x1_0000_0000), PutU32(w / 0x1_0000_0000);
    assert PutU64(v)[..4] == hi && PutU64(w)[..4] == lo;
    assert PutU64(v)[4..] == PutU32(v % 0x1_0000_0000) && PutU64(w)[4..] == PutU32(w % 0x1_0000_0000);
    assert GetU32(hi) == v / 0x1_0000_0000 && GetU32(lo) == w / 0x1_0000_0000;
  }

  // ----- the context

  /** The part of a message in whole blocks. */
  function Full(m: seq<byte>): (n: nat)
    ensures n <= |m| && n % BLOCK == 0 && |m| - n < BLOCK
  {
    |m| - |m| % BLOCK
  }

  lemma BitsAdd(a: nat, b: nat)
    ensures (8 * a % BITS + 8 * b) % BITS == 8 * (a + b) % BITS
  {
  }

  /** One whole block more. */
  lemma OneMore(f: Compress, m: seq<byte>, b: Block)
    requires |m| % BLOCK == 0
    ensures Full(m) == |m| && Full(m + b) == |m + b|
    ensures Fold(f, IV, (m + b)[..Full(m + b)]) == f(Fold(f, IV, m[..Full(m)]), b)
  {
    hide Fold;
    FoldAppend(f, IV, m, b);
    FoldOne(f, Fold(f, IV, m), b);
    assert (m + b)[..|m + b|] == m + b && m[..|m|] == m;
  }

  /** Bytes that do not complete a block only extend its tail. */
  lemma TailGrows(m: seq<byte>, tail: seq<byte>)
    requires |m| % BLOCK + |tail| < BLOCK
    ensures Full(m + tail) == Full(m) && (m + tail)[..Full(m)] == m[..Full(m)]
    ensures (m + tail)[Full(m)..] == m[Full(m)..] + tail
  {
    assert (|m| + |tail|) % BLOCK == |m| % BLOCK + |tail|;
  }

  /** Bytes that complete the block in progress. */
  lemma TailFills(f: Compress, m: seq<byte>, tail: seq<byte>)
    requires |m| % BLOCK + |tail| == BLOCK
    ensures Full(m + tail) == |m + tail|
    ensures Fold(f, IV, (m + tail)[..Full(m + tail)]) == f(Fold(f, IV, m[..Full(m)]), m[Full(m)..] + tail)
  {
    hide Fold;
    var front, b := m[..Full(m)], m[Full(m)..] + tail;
    assert m + tail == front + b;
    OneMore(f, front, b);
    assert front[..|front|] == front;
  }

  /** The last one or two blocks a message ends in. */
  lemma PadEnds(m: seq<byte>)
    ensures var (r, len) := (m[Full(m)..], PutU64(8 * |m| % BITS));
            Pad(m) == m[..Full(m)] +
              if |r| < BLOCK - 8 then r + [0x80] + Zeros(BLOCK - 9 - |r|) + len
              else r + [0x80] + Zeros(BLOCK - 1 - |r|) + (Zeros(BLOCK - 8) + len)
  {
    var r := m[Full(m)..];
    assert |r| == |m| % BLOCK;
    assert m == m[..Full(m)] + r;
    if |r| < BLOCK - 8 {
      assert PadZeros(|m|) == BLOCK - 9 - |r|;
    } else {
      assert PadZeros(|m|) == BLOCK - 1 - |r| + BLOCK - 8;
      assert Zeros(PadZeros(|m|)) == Zeros(BLOCK - 1 - |r|) + Zeros(BLOCK - 8);
    }
  }

  lemma Regroup(a: seq<byte>, b: seq<byte>, c: seq<byte>)
    ensures a + b + c == a + (b + c)
  {
  }

  class Context {
    const compress: Compress
    var state: Words
    var bitLength: u64
    const buffer: array<byte>
    var buffered: nat
    /** Everything fed in so far. */
    ghost var text: seq<byte>

    /** The state is the fold over whole blocks of `m`, the buffer its remainder. */
    ghost predicate Holding(m: seq<byte>)
      reads this, buffer
    {
      && buffer.Length == BLOCK
      && buffered == |m| - Full(m)
      && buffer[..buffered] == m[Full(m)..]
      && state == Fold(compress, IV, m[..Full(m)])
    }

    ghost predicate Valid()
      reads this, buffer
    {
      Holding(text) && bitLength == 8 * |text| % BITS
    }

    constructor (compress: Compress)
      ensures Valid() && fresh(buffer) && this.compress == compress && text == []
    {
      this.compress := compress;
      state, bitLength, buffered, text := IV, 0, 0, [];
      buffer := new byte[BLOCK](_ => 0);
      new;
      assert text[..0] == [] && buffer[..0] == text[0..];
    }

    method Append(piece: seq<byte>)
      requires buffer.Length == BLOCK && buffered + |piece| <= BLOCK
      modifies this`buffered, buffer
      ensures buffered == old(buffered) + |piece|
      ensures buffer[..buffered] == old(buffer[..buffered]) + piece
    {
      forall i | 0 <= i < |piece| {
        buffer[buffered + i] := piece[i];
      }
      buffered := buffered + |piece|;
    }

    /** Fill the block in progress, as far as `piece` goes. */
    method TopUp(piece: seq<byte>, ghost done: seq<byte>)
      requires Holding(done) && |piece| <= BLOCK - buffered
      modifies this`state, this`buffered, buffer
      ensures Holding(done + piece)
      ensures buffered == if old(buffered) + |piece| == BLOCK then 0 else old(buffered) + |piece|
    {
      hide Fold;
      Append(piece);
      if buffered == BLOCK {
        TailFills(compress, done, piece);
        assert buffer[..] == done[Full(done)..] + piece;
        state := compress(state, buffer[..]);
        buffered := 0;
      } else {
        TailGrows(done, piece);
      }
    }

    /** `sha256_update`: top up the buffer, take whole blocks straight, keep the rest. */
    method Update(data: seq<byte>)
      requires Valid()
      modifies this, buffer
      ensures Valid() && text == old(text) + data
    {
      hide Fold, Full;
      BitsAdd(|text|, |data|);
      bitLength := (bitLength + 8 * |data|) % BITS;
      var all, done := TopUpFirst(data);
      while |all| >= BLOCK
        invariant Holding(done) && done + all == old(text) + data
        invariant buffered == 0 || all == []
        invariant text == old(text) && bitLength == 8 * |text + data| % BITS
        decreases |all|
      {
        WholeSoFar(done);
        OneMore(compress, done, all[..BLOCK]);
        state := compress(state, all[..BLOCK]);
        assert buffer[..0] == [];
        done := done + all[..BLOCK];
        all := all[BLOCK..];
      }
      if |all| > 0 {
        WholeSoFar(done);
        TailGrows(done, all);
        assert buffer[..0] == [];
        Append(all);
        done := done + all;
      }
      assert done == text + data;
      text := text + data;
    }

    lemma WholeSoFar(m: seq<byte>)
      requires Holding(m) && buffered == 0
      ensures |m| % BLOCK == 0
    {
    }

    /** The bytes that go to a block already begun; what is left of `data`. */
    method TopUpFirst(data: seq<byte>) returns (rest: seq<byte>, ghost done: seq<byte>)
      requires Holding(text)
      modifies this`state, this`buffered, buffer
      ensures Holding(done) && done + rest == text + data
      ensures buffered == 0 || rest == []
    {
      hide Fold, Full;
      rest, done := data, text;
      if buffered > 0 {
        var want := BLOCK - buffered;
        var take := if |data| < want then |data| else want;
        TopUp(data[..take], text);
        rest, done := data[take..], text + data[..take];
      }
    }

    /** Zero the buffer from `buffered` up to `end`. */
    method Clear(end: nat)
      requires buffer.Length == BLOCK && buffered <= end <= BLOCK
      modifies buffer
      ensures buffer[..end] == old(buffer[..buffered]) + Zeros(end - buffered)
    {
      forall i | buffered <= i < end {
        buffer[i] := 0;
      }
    }

    /** The 1 bit and the zeros up to the length field, spilling into one more block if they must. */
    method Terminate() returns (ghost front: seq<byte>)
      requires Valid()
      modifies this`state, this`buffered, buffer
      ensures |front| % BLOCK == 0 && state == Fold(compress, IV, front)
      ensures front + (buffer[..BLOCK - 8] + PutU64(bitLength)) == Pad(text)
    {
      hide Fold, Pad, Full, PutU64, Zeros;
      PadEnds(text);
      ghost var tail := text[Full(text)..];
      front := text[..Full(text)];
      Append([0x80]);
      if buffered > BLOCK - 8 {
        Clear(BLOCK);
        assert buffer[..] == tail + [0x80] + Zeros(BLOCK - 1 - |tail|);
        ghost var spill := buffer[..];
        Consume(front);
        front := front + spill;
        buffered := 0;
        assert buffer[..0] == [];
        Clear(BLOCK - 8);
        assert buffer[..BLOCK - 8] == Zeros(BLOCK - 8);
        Regroup(text[..Full(text)], spill, Zeros(BLOCK - 8) + PutU64(bitLength));
      } else {
        Clear(BLOCK - 8);
      }
    }

    /** `sha256_final`: the digest of everything fed in. */
    method Final() returns (out: seq<byte>)
      requires Valid()
      modifies this, buffer
      ensures out == Hash(compress, old(text))
    {
      hide Fold, Pad, Full, PutU64;
      ghost var whole := Pad(text);
      ghost var front := Terminate();
      PutLength();
      assert front + buffer[..] == whole;
      Consume(front);
      out := WordsOut(state);
    }

    /** The bit length in the last eight bytes, big-endian. */
    method PutLength()
      requires buffer.Length == BLOCK
      modifies buffer
      ensures buffer[..] == old(buffer[..BLOCK - 8]) + PutU64(bitLength)
    {
      hide PutU64;
      var length := PutU64(bitLength);
      forall i | 0 <= i < 8 {
        buffer[BLOCK - 8 + i] := length[i];
      }
    }

    /** The buffer, full, goes into the state. */
    method Consume(ghost before: seq<byte>)
      requires buffer.Length == BLOCK && |before| % BLOCK == 0 && state == Fold(compress, IV, before)
      modifies this`state
      ensures |before + buffer[..]| % BLOCK == 0 && state == Fold(compress, IV, before + buffer[..])
    {
      hide Fold;
      FoldAppend(compress, IV, before, buffer[..]);
      FoldOne(compress, state, buffer[..]);
      state := compress(state, buffer[..]);
    }
  }

  /** `sha256`. */
  method OneShot(compress: Compress, data: seq<byte>) returns (out: seq<byte>)
    ensures out == Hash(compress, data)
  {
    var ctx := new Context(compress);
    ctx.Update(data);
    assert [] + data == data;
    out := ctx.Final();
  }

  class HmacContext {
    const inner: Context
    const outer: Context
    ghost const key: seq<byte>
    ghost var message: seq<byte>

    ghost function Repr(): set<object> {
      {this, inner, outer, inner.buffer, outer.buffer}
    }

    ghost predicate Valid()
      reads this, inner, outer, inner.buffer, outer.buffer
    {
      && inner != outer && inner.buffer != outer.buffer && inner.compress == outer.compress
      && inner.Valid() && outer.Valid()
      && inner.text == XorAll(KeyBlock(inner.compress, key), 0x36) + message
      && outer.text == XorAll(KeyBlock(inner.compress, key), 0x5c)
    }

    /** `hmac_sha256_init`: keys of any length. */
    constructor (compress: Compress, key: seq<byte>)
      ensures Valid() && fresh(Repr()) && inner.compress == compress && this.key == key && message == []
    {
      hide Hash;
      var padded := key;
      if |key| > BLOCK {
        padded := OneShot(compress, key);
      }
      var zeros := Zeros(BLOCK - |padded|);
      var k := padded + zeros;
      assert k == KeyBlock(compress, key);
      var a := new Context(compress);
      var ipad := XorAll(k, 0x36);
      a.Update(ipad);
      assert [] + ipad == ipad + [];
      var b := new Context(compress);
      var opad := XorAll(k, 0x5c);
      b.Update(opad);
      assert [] + opad == opad;
      inner, outer, this.key, message := a, b, key, [];
    }

    method Update(data: seq<byte>)
      requires Valid()
      modifies this, inner, inner.buffer
      ensures Valid() && message == old(message) + data
    {
      hide Context.Holding, KeyBlock;
      inner.Update(data);
      message := message + data;
      assert inner.text == XorAll(KeyBlock(inner.compress, key), 0x36) + message;
    }

    /** `hmac_sha256_final`: the keyed hash of everything fed in, as RFC 2104 defines it. */
    method Final() returns (out: seq<byte>)
      requires Valid()
      modifies inner, inner.buffer, outer, outer.buffer
      ensures out == Hmac(inner.compress, key, message)
    {
      hide Context.Holding, KeyBlock, Hash;
      var digest := inner.Final();
      outer.Update(digest);
      out := outer.Final();
    }
  }
}
