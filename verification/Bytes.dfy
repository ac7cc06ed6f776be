/** Bytes, bits and the big-endian fields of the wire format. */
module Bytes {
  type byte = b: int | 0 <= b < 0x100
  type u16 = v: int | 0 <= v < 0x1_0000
  type u32 = v: int | 0 <= v < 0x1_0000_0000
  type u64 = v: int | 0 <= v < 0x1_0000_0000_0000_0000

  // ----- bits, LSB first

  function Exp2(w: nat): (p: nat)
    ensures p >= 1
  {
    if w == 0 then 1 else 2 * Exp2(w - 1)
  }

  /** `b & (1 << k) != 0`. */
  predicate Bit(b: nat, k: nat)
  {
    if k == 0 then b % 2 == 1 else Bit(b / 2, k - 1)
  }

  /** `b | (1 << k)`. */
  function OrBit(b: nat, k: nat): nat
  {
    if k == 0 then b - b % 2 + 1 else 2 * OrBit(b / 2, k - 1) + b % 2
  }

  lemma {:induction false} OrBitFits(b: nat, k: nat, w: nat)
    requires b < Exp2(w) && k < w
    ensures OrBit(b, k) < Exp2(w)
  {
    if k != 0 {
      assert b / 2 < Exp2(w - 1) by { assert Exp2(w) == 2 * Exp2(w - 1); }
      OrBitFits(b / 2, k - 1, w - 1);
      assert OrBit(b, k) <= 2 * (Exp2(w - 1) - 1) + 1;
    }
  }

  function SetBit(b: byte, k: nat): byte
    requires k < 8
  {
    assert Exp2(8) == 0x100 by { assert Exp2(4) == 16; }
    OrBitFits(b, k, 8);
    OrBit(b, k)
  }

  /** Setting one bit changes that bit and no other. */
  lemma {:induction false} OrBitAt(b: nat, k: nat, j: nat)
    ensures Bit(OrBit(b, k), j) <==> j == k || Bit(b, j)
  {
    if k != 0 && j != 0 {
      OrBitAt(b / 2, k - 1, j - 1);
    }
  }

  /** The number whose bits are `bits`, least significant first. */
  function FromBits(bits: seq<bool>): nat
  {
    if bits == [] then 0 else (if bits[0] then 1 else 0) + 2 * FromBits(bits[1..])
  }

  lemma {:induction false} FromBitsFits(bits: seq<bool>)
    ensures FromBits(bits) < Exp2(|bits|)
  {
    if bits != [] {
      FromBitsFits(bits[1..]);
    }
  }

  function ByteOf(bits: seq<bool>): byte
    requires |bits| == 8
  {
    assert Exp2(8) == 0x100 by { assert Exp2(4) == 16; }
    FromBitsFits(bits);
    FromBits(bits)
  }

  lemma {:induction false} FromBitsAt(bits: seq<bool>, k: nat)
    requires k < |bits|
    ensures Bit(FromBits(bits), k) == bits[k]
  {
    if k != 0 {
      FromBitsAt(bits[1..], k - 1);
    }
  }

  /** A number below `2^w` is its `w` low bits. */
  lemma {:induction false} NumberIsItsBits(a: nat, b: nat, w: nat)
    requires a < Exp2(w) && b < Exp2(w)
    requires forall k: nat | k < w :: Bit(a, k) == Bit(b, k)
    ensures a == b
  {
    if w != 0 {
      assert Bit(a, 0) == Bit(b, 0);
      forall k: nat | k < w - 1 ensures Bit(a / 2, k) == Bit(b / 2, k) {
        assert Bit(a, k + 1) == Bit(b, k + 1);
      }
      NumberIsItsBits(a / 2, b / 2, w - 1);
    }
  }

  /** A byte is its eight bits. */
  lemma ByteIsItsBits(a: byte, b: byte)
    requires forall k: nat | k < 8 :: Bit(a, k) == Bit(b, k)
    ensures a == b
  {
    assert Exp2(8) == 0x100 by { assert Exp2(4) == 16; }
    NumberIsItsBits(a, b, 8);
  }

  /** Exclusive or of the low `w` bits. */
  function Xor(a: nat, b: nat, w: nat): (r: nat)
    ensures r < Exp2(w)
  {
    if w == 0 then 0 else 2 * Xor(a / 2, b / 2, w - 1) + (a + b) % 2
  }

  function XorByte(a: byte, b: byte): byte
  {
    assert Exp2(8) == 0x100 by { assert Exp2(4) == 16; }
    Xor(a, b, 8)
  }

  lemma ParityCancels(a: nat, b: nat, rest: nat)
    ensures var n := 2 * rest + (a + b) % 2; n / 2 == rest && (n + b) % 2 == a % 2
  {
    assert (a + b) % 2 == (a % 2 + b % 2) % 2;
  }

  /** Xor with a fixed number can be undone. */
  lemma {:induction false} XorCancels(a: nat, b: nat, w: nat)
    requires a < Exp2(w)
    ensures Xor(Xor(a, b, w), b, w) == a
  {
    if w != 0 {
      var rest, bit := Xor(a / 2, b / 2, w - 1), (a + b) % 2;
      assert a / 2 < Exp2(w - 1) by { assert Exp2(w) == 2 * Exp2(w - 1); }
      XorCancels(a / 2, b / 2, w - 1);
      ParityCancels(a, b, rest);
    }
  }

  lemma {:induction false} XorCommutes(a: nat, b: nat, w: nat)
    ensures Xor(a, b, w) == Xor(b, a, w)
  {
    if w != 0 {
      XorCommutes(a / 2, b / 2, w - 1);
    }
  }

  // ----- big-endian integers

  function PutU16(v: u16): (s: seq<byte>)
    ensures |s| == 2 && GetU16(s) == v
  {
    [v / 0x100, v % 0x100]
  }

  function GetU16(s: seq<byte>): u16
    requires |s| >= 2
  {
    0x100 * s[0] as int + s[1] as int
  }

  function PutU32(v: u32): (s: seq<byte>)
    ensures |s| == 4 && GetU32(s) == v
  {
    var hi, lo := PutU16(v / 0x1_0000), PutU16(v % 0x1_0000);
    assert (hi + lo)[2..] == lo;
    hi + lo
  }

  function GetU32(s: seq<byte>): u32
    requires |s| >= 4
  {
    0x1_0000 * GetU16(s) as int + GetU16(s[2..]) as int
  }

  lemma PutGetU16(s: seq<byte>)
    requires |s| == 2
    ensures PutU16(GetU16(s)) == s
  {
  }

  lemma PutGetU32(s: seq<byte>)
    requires |s| == 4
    ensures PutU32(GetU32(s)) == s
  {
    var hi: int, lo: int := GetU16(s[..2]), GetU16(s[2..]);
    PutGetU16(s[..2]);
    PutGetU16(s[2..]);
    assert GetU32(s) == 0x1_0000 * hi + lo;
    assert GetU32(s) / 0x1_0000 == hi && GetU32(s) % 0x1_0000 == lo;
    assert s == s[..2] + s[2..];
  }

  function PutU64(v: u64): (s: seq<byte>)
    ensures |s| == 8
  {
    PutU32(v / 0x1_0000_0000) + PutU32(v % 0x1_0000_0000)
  }

  /** Zero-filled buffer. */
  function Zeros(n: nat): (s: seq<byte>)
    ensures |s| == n && forall i | 0 <= i < n :: s[i] == 0
  {
    seq(n, _ => 0)
  }

  /** `data[at..at+|piece|] = piece` on a byte buffer. */
  function Splice(data: seq<byte>, at: nat, piece: seq<byte>): (r: seq<byte>)
    requires at + |piece| <= |data|
    ensures |r| == |data|
    ensures forall i | 0 <= i < |data| ::
              r[i] == if at <= i < at + |piece| then piece[i - at] else data[i]
  {
    data[..at] + piece + data[at + |piece|..]
  }
}
