/**
 The datagram: a 96-byte header, its signature and a payload, as the console
 writes and reads it and as the server does.
 */
module Wire {
  import opened Bytes
  import opened Bitmaps
  import Sha256
  import Store

  const HEADER_SIZE := 96
  const HMAC_OFFSET := 64
  const HMAC_SIZE := 32
  const NONCE_SIZE := 16
  const MAGIC: seq<byte> := [0x53, 0x4C, 0x4F, 0x54]
  const VERSION: byte := 1

  type GameId = s: seq<byte> | |s| == 6 witness [0, 0, 0, 0, 0, 0]
  type Nonce = s: seq<byte> | |s| == NONCE_SIZE witness Zeros(NONCE_SIZE)

  datatype Header = Header(
    version: byte,
    msgType: byte,
    flags: u16,
    deviceId: u64,
    gameId: GameId,
    slot: byte,
    cardVersion: u32,
    parentVersion: u32,
    offset: u32,
    totalSize: u32,
    sequence: u32,
    nonce: Nonce)

  datatype Refusal = Short | Long | BadMagic | BadVersion | BadHmac | BadLength | BadSlot

  datatype Parsed = Message(header: Header, payload: seq<byte>) | Refused(why: Refusal)

  function GetU64(s: seq<byte>): u64
    requires |s| >= 8
  {
    0x1_0000_0000 * GetU32(s[..4]) + GetU32(s[4..8])
  }

  /** Everything before the signature; `reserved` is the one byte no field owns. */
  function Front(h: Header, length: u32, reserved: byte): (s: seq<byte>)
    ensures |s| == HMAC_OFFSET
  {
    MAGIC + [h.version, h.msgType] + PutU16(h.flags) + PutU64(h.deviceId) + h.gameId + [h.slot, reserved]
    + PutU32(h.cardVersion) + PutU32(h.parentVersion) + PutU32(h.offset) + PutU32(length)
    + PutU32(h.totalSize) + PutU32(h.sequence) + h.nonce
  }

  /** The signature: over the header with its own field zeroed, then the payload. */
  function Sign(f: Sha256.Compress, key: seq<byte>, front: seq<byte>, payload: seq<byte>): (tag: seq<byte>)
    ensures |tag| == HMAC_SIZE
  {
    Sha256.Hmac(f, key, front + Zeros(HMAC_SIZE) + payload)
  }

  /** `ss_pack` and `pack`: nothing when the payload is too large. */
  function Pack(f: Sha256.Compress, key: seq<byte>, h: Header, payload: seq<byte>): seq<byte>
  {
    if |payload| > MAX_PAYLOAD then []
    else
      var front := Front(h, |payload|, 0);
      front + Sign(f, key, front, payload) + payload
  }

  /** The fields of a header, wherever it came from. */
  function Fields(front: seq<byte>): Header
    requires |front| == HMAC_OFFSET
  {
    Header(front[4], front[5], GetU16(front[6..8]), GetU64(front[8..16]), front[16..22], front[22],
           GetU32(front[24..28]), GetU32(front[28..32]), GetU32(front[32..36]),
           GetU32(front[40..44]), GetU32(front[44..48]), front[48..64])
  }

  /** `ss_unpack`: no header field is trusted before the signature has been checked. */
  function Unpack(f: Sha256.Compress, key: seq<byte>, d: seq<byte>): Parsed
  {
    if |d| < HEADER_SIZE || |d| > HEADER_SIZE + MAX_PAYLOAD then Refused(Short)
    else if d[..4] != MAGIC then Refused(BadMagic)
    else if d[4] != VERSION then Refused(BadVersion)
    else
      var front, payload := d[..HMAC_OFFSET], d[HEADER_SIZE..];
      if Sign(f, key, front, payload) != d[HMAC_OFFSET..HEADER_SIZE] then Refused(BadHmac)
      else if GetU32(front[36..40]) != |payload| then Refused(BadLength)
      else Message(Fields(front), payload)
  }

  /** The server's message: every field as sent, but the name decoded and stripped. */
  datatype ServerParsed = ServerMessage(header: Header, name: string, payload: seq<byte>) | ServerRefused(why: Refusal)

  /** `decode("ascii", errors="replace")`: every byte past 0x7F becomes the replacement character. */
  function AsciiDecoded(s: seq<byte>): (t: string)
    ensures |t| == |s|
  {
    seq(|s|, i requires 0 <= i < |s| => if s[i] < 0x80 then s[i] as char else '\U{FFFD}')
  }

  /** The name a server files a datagram's card under, before it is normalised. */
  function ServerName(id: GameId): string
  {
    Store.Trim(AsciiDecoded(id))
  }

  /** The server's `unpack`: its own code for an oversized datagram, slots A and B only, and the name decoded. */
  function ServerUnpack(f: Sha256.Compress, key: seq<byte>, d: seq<byte>): ServerParsed
  {
    if |d| > HEADER_SIZE + MAX_PAYLOAD then ServerRefused(Long)
    else
      match Unpack(f, key, d)
      case Refused(why) => ServerRefused(why)
      case Message(h, payload) =>
        if h.slot > 1 then ServerRefused(BadSlot) else ServerMessage(h, ServerName(h.gameId), payload)
  }

  // ----- round trips

  lemma U64RoundTrip(v: u64)
    ensures GetU64(PutU64(v)) == v
  {
    var s := PutU64(v);
    assert s[..4] == PutU32(v / 0x1_0000_0000) && s[4..8] == PutU32(v % 0x1_0000_0000);
  }

  lemma PutGetU64(s: seq<byte>)
    requires |s| == 8
    ensures PutU64(GetU64(s)) == s
  {
    var hi: int, lo: int := GetU32(s[..4]), GetU32(s[4..8]);
    PutGetU32(s[..4]);
    PutGetU32(s[4..8]);
    assert GetU64(s) == 0x1_0000_0000 * hi + lo;
    assert GetU64(s) / 0x1_0000_0000 == hi && GetU64(s) % 0x1_0000_0000 == lo;
    assert s == s[..4] + s[4..8];
  }

  /** A header's bytes, cut at the fields. */
  lemma FrontFields(h: Header, length: u32, reserved: byte)
    ensures var s := Front(h, length, reserved);
            s[..4] == MAGIC && s[4] == h.version && s[23] == reserved && Fields(s) == h && GetU32(s[36..40]) == length
  {
    var s := Front(h, length, reserved);
    hide PutU64, PutU32, PutU16, GetU64, GetU32, GetU16;
    U64RoundTrip(h.deviceId);
    assert s[6..8] == PutU16(h.flags);
    assert s[8..16] == PutU64(h.deviceId);
    assert s[16..22] == h.gameId;
    assert s[24..28] == PutU32(h.cardVersion);
    assert s[28..32] == PutU32(h.parentVersion);
    assert s[32..36] == PutU32(h.offset);
    assert s[36..40] == PutU32(length);
    assert s[40..44] == PutU32(h.totalSize);
    assert s[44..48] == PutU32(h.sequence);
    assert s[48..64] == h.nonce;
  }

  /** And put back together. */
  lemma FieldsFront(s: seq<byte>)
    requires |s| == HMAC_OFFSET && s[..4] == MAGIC
    ensures Front(Fields(s), GetU32(s[36..40]), s[23]) == s
  {
    PutGetU16(s[6..8]);
    PutGetU64(s[8..16]);
    PutGetU32(s[24..28]);
    PutGetU32(s[28..32]);
    PutGetU32(s[32..36]);
    PutGetU32(s[36..40]);
    PutGetU32(s[40..44]);
    PutGetU32(s[44..48]);
    assert s == s[..4] + [s[4], s[5]] + s[6..8] + s[8..16] + s[16..22] + [s[22], s[23]] + s[24..28] + s[28..32]
             + s[32..36] + s[36..40] + s[40..44] + s[44..48] + s[48..64];
  }

  /** The six bytes a name of up to six characters is sent as. */
  function PaddedName(name: string): GameId
    requires |name| <= 6 && forall i | 0 <= i < |name| :: name[i] < '\U{80}'
  {
    seq(6, i requires 0 <= i < 6 => if i < |name| then name[i] as int else 0x20)
  }

  /** A name with no blank or NUL at either end comes back from its padding as it was. */
  lemma NameRoundTrip(name: string)
    requires 0 < |name| <= 6 && forall i | 0 <= i < |name| :: name[i] < '\U{80}'
    requires var (a, z) := (name[0], name[|name| - 1]);
             !Store.IsSpace(a) && a != '\0' && !Store.IsSpace(z) && z != '\0'
    ensures ServerName(PaddedName(name)) == name
  {
    var t := AsciiDecoded(PaddedName(name));
    assert t[..|name|] == name;
    assert forall i | |name| <= i < 6 :: t[i] == ' ';
    assert t == name + t[|name|..];
    StripsTail(name, t[|name|..]);
  }

  lemma {:induction false} StripsTail(name: string, tail: string)
    requires name != [] && !Store.IsSpace(name[0]) && !Store.IsSpace(name[|name| - 1])
    requires forall i | 0 <= i < |tail| :: Store.IsSpace(tail[i])
    ensures Store.Strip(name + tail, Store.IsSpace) == name
  {
    if tail == [] {
      assert name + tail == name;
    } else {
      var s := name + tail;
      assert s[..|s| - 1] == name + tail[..|tail| - 1];
      StripsTail(name, tail[..|tail| - 1]);
    }
  }

  /** What either side packs is read back field for field; the server's name is the decoded, stripped one. */
  lemma UnpackUndoesPack(f: Sha256.Compress, key: seq<byte>, h: Header, payload: seq<byte>)
    requires |payload| <= MAX_PAYLOAD && h.version == VERSION
    ensures Unpack(f, key, Pack(f, key, h, payload)) == Message(h, payload)
    ensures h.slot <= 1 ==>
              ServerUnpack(f, key, Pack(f, key, h, payload)) == ServerMessage(h, ServerName(h.gameId), payload)
  {
    hide Front, Sign, Fields;
    var front := Front(h, |payload|, 0);
    var tag, d := Sign(f, key, front, payload), Pack(f, key, h, payload);
    FrontFields(h, |payload|, 0);
    assert d == front + tag + payload;
    assert d[..HMAC_OFFSET] == front && d[HMAC_OFFSET..HEADER_SIZE] == tag && d[HEADER_SIZE..] == payload;
    assert d[..4] == front[..4] && d[4] == front[4];
  }

  /**
   Only genuine datagrams parse. What is accepted is, byte for byte, what packing its
   fields under the key produces, but for the reserved byte, which is signed all the same.
   */
  lemma AcceptedIsPacked(f: Sha256.Compress, key: seq<byte>, d: seq<byte>)
    requires Unpack(f, key, d).Message?
    ensures var m := Unpack(f, key, d);
            var front := Front(m.header, |m.payload|, d[23]);
            && |m.payload| <= MAX_PAYLOAD && m.header.version == VERSION
            && d == front + Sign(f, key, front, m.payload) + m.payload
            && (d[23] == 0 <==> Pack(f, key, m.header, m.payload) == d)
  {
    hide Front, Sign, Fields;
    var front, payload := d[..HMAC_OFFSET], d[HEADER_SIZE..];
    var m := Unpack(f, key, d);
    FieldsFront(front);
    assert front[..4] == d[..4] && front[23] == d[23];
    assert d == front + d[HMAC_OFFSET..HEADER_SIZE] + payload;
    assert front == Front(m.header, |m.payload|, d[23]);
    assert m.header.version == front[4] by { FrontFields(m.header, |m.payload|, d[23]); }
    if Pack(f, key, m.header, m.payload) == d {
      FrontFields(m.header, |m.payload|, 0);
      assert d[..HMAC_OFFSET] == Front(m.header, |m.payload|, 0);
    }
  }

  /** The server accepts what the console accepts, but for slots that do not exist, and reads the same fields. */
  lemma BothSidesAgree(f: Sha256.Compress, key: seq<byte>, d: seq<byte>)
    ensures ServerUnpack(f, key, d).ServerMessage? <==>
              Unpack(f, key, d).Message? && Unpack(f, key, d).header.slot <= 1
    ensures ServerUnpack(f, key, d).ServerMessage? ==>
              var (a, b) := (ServerUnpack(f, key, d), Unpack(f, key, d));
              a.header == b.header && a.payload == b.payload && a.name == ServerName(b.header.gameId)
  {
    hide Sign, Fields;
  }

  /** A datagram altered in its signed bytes is only accepted if its tag is the tag of what it became. */
  lemma TamperingNeedsTheTag(f: Sha256.Compress, key: seq<byte>, a: seq<byte>, b: seq<byte>)
    requires Unpack(f, key, a).Message? && Unpack(f, key, b).Message? && a != b
    requires a[HMAC_OFFSET..HEADER_SIZE] == b[HMAC_OFFSET..HEADER_SIZE]
    ensures SignedText(a) != SignedText(b)
    ensures Sha256.Hmac(f, key, SignedText(a)) == Sha256.Hmac(f, key, SignedText(b))
  {
    hide Sha256.Hmac, Fields;
    if SignedText(a) == SignedText(b) {
      SignedTextDetermines(a, b);
    }
  }

  /** What the signature covers. */
  function SignedText(d: seq<byte>): seq<byte>
    requires |d| >= HEADER_SIZE
  {
    d[..HMAC_OFFSET] + Zeros(HMAC_SIZE) + d[HEADER_SIZE..]
  }

  lemma SignedTextDetermines(a: seq<byte>, b: seq<byte>)
    requires |a| >= HEADER_SIZE && |b| >= HEADER_SIZE && SignedText(a) == SignedText(b)
    requires a[HMAC_OFFSET..HEADER_SIZE] == b[HMAC_OFFSET..HEADER_SIZE]
    ensures a == b
  {
    var s, t := SignedText(a), SignedText(b);
    assert a[..HMAC_OFFSET] == s[..HMAC_OFFSET] && b[..HMAC_OFFSET] == t[..HMAC_OFFSET];
    assert a[HEADER_SIZE..] == s[HEADER_SIZE..] && b[HEADER_SIZE..] == t[HEADER_SIZE..];
    assert a == a[..HMAC_OFFSET] + a[HMAC_OFFSET..HEADER_SIZE] + a[HEADER_SIZE..];
    assert b == b[..HMAC_OFFSET] + b[HMAC_OFFSET..HEADER_SIZE] + b[HEADER_SIZE..];
  }

  // ----- the console's buffers

  /** The streaming signature: the zeroed header, then the payload. */
  method Tag(f: Sha256.Compress, key: seq<byte>, front: seq<byte>, payload: seq<byte>) returns (tag: seq<byte>)
    ensures tag == Sign(f, key, front, payload)
  {
    hide Sha256.Hmac, Sha256.HmacContext.Valid;
    var mac := new Sha256.HmacContext(f, key);
    var header := front + Zeros(HMAC_SIZE);
    mac.Update(header);
    assert [] + header == header;
    mac.Update(payload);
    tag := mac.Final();
  }

  /** `ss_pack`: -1, and nothing written, when the payload or the buffer is too small or large. */
  method SsPack(out: array<byte>, f: Sha256.Compress, key: seq<byte>, h: Header, payload: seq<byte>) returns (len: int)
    modifies out
    ensures var fits := |payload| <= MAX_PAYLOAD && HEADER_SIZE + |payload| <= out.Length;
            len == if fits then HEADER_SIZE + |payload| else -1
    ensures len == -1 ==> out[..] == old(out[..])
    ensures len != -1 ==> out[..] == Pack(f, key, h, payload) + old(out[..])[len..]
  {
    hide Sign, Front;
    if |payload| > MAX_PAYLOAD || out.Length < HEADER_SIZE + |payload| {
      return -1;
    }
    var front := Front(h, |payload|, 0);
    var tag := Tag(f, key, front, payload);
    var d := front + tag + payload;
    forall i | 0 <= i < |d| {
      out[i] := d[i];
    }
    len := HEADER_SIZE + |payload|;
  }

  /** `ss_unpack`. */
  method SsUnpack(f: Sha256.Compress, key: seq<byte>, d: seq<byte>) returns (r: Parsed)
    ensures r == Unpack(f, key, d)
  {
    hide Sign, Fields;
    if |d| < HEADER_SIZE || |d| > HEADER_SIZE + MAX_PAYLOAD {
      return Refused(Short);
    }
    if d[..4] != MAGIC {
      return Refused(BadMagic);
    }
    if d[4] != VERSION {
      return Refused(BadVersion);
    }
    var front, payload := d[..HMAC_OFFSET], d[HEADER_SIZE..];
    var expected := Tag(f, key, front, payload);
    if expected != d[HMAC_OFFSET..HEADER_SIZE] {
      return Refused(BadHmac);
    }
    if GetU32(front[36..40]) != |payload| {
      return Refused(BadLength);
    }
    r := Message(Fields(front), payload);
  }
}
