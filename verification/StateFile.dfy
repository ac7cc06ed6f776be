/** The launcher's state.txt as the launcher prints it and as the kernel reads it. */
module StateFile {
  import opened Bytes
  import opened Store

  const ID_LEN := 6
  const SHA_LEN := 32
  const U32 := 0x1_0000_0000
  const U64 := 0x1_0000_0000_0000_0000

  /** One tracked card. */
  datatype Entry = Entry(gameId: string, slot: byte, version: u32, sha: seq<byte>)
  {
    /** Six letters or digits, and a whole digest: what `wii_state_get` lets in. */
    predicate Proper() {
      |gameId| == ID_LEN && (forall i | 0 <= i < ID_LEN :: IsAlnum(gameId[i])) && |sha| == SHA_LEN
    }
  }

  predicate IsAlnum(c: char) {
    '0' <= c <= '9' || 'A' <= c <= 'Z' || 'a' <= c <= 'z'
  }

  // ----- the printer

  function Digit(n: nat): (c: char)
    requires n < 10
  {
    '0' + n as char
  }

  /** `%u`. */
  function Decimal(n: nat): (s: string)
    ensures |s| > 0 && forall i | 0 <= i < |s| :: '0' <= s[i] <= '9'
    ensures s[0] == '0' ==> n == 0 && s == "0"
  {
    if n < 10 then [Digit(n)]
    else
      var front := Decimal(n / 10);
      assert front[0] != '0';
      front + [Digit(n % 10)]
  }

  function HexDigit(n: nat): (c: char)
    requires n < 16
    ensures HexValue(c) == n
  {
    if n < 10 then '0' + n as char else 'a' + (n - 10) as char
  }

  /** `%02x` of every byte. */
  function Hex(s: seq<byte>): (t: string)
    ensures |t| == 2 * |s| && forall i | 0 <= i < |t| :: HexValue(t[i]) >= 0
  {
    if s == [] then ""
    else Hex(s[..|s| - 1]) + [HexDigit(s[|s| - 1] / 16), HexDigit(s[|s| - 1] % 16)]
  }

  function Line(e: Entry): string
  {
    e.gameId + " " + Decimal(e.slot) + " " + Decimal(e.version) + " " + Hex(e.sha) + "\n"
  }

  /** `wii_state_save`. */
  function Print(es: seq<Entry>): string
  {
    if es == [] then "" else Line(es[0]) + Print(es[1..])
  }

  // ----- the parser, on the text from a cursor on

  predicate IsBlank(c: char) {
    c == ' ' || c == '\t'
  }

  predicate IsSpace(c: char) {
    IsBlank(c) || c == '\r' || c == '\n'
  }

  /** `ssl_hex`. */
  function HexValue(c: char): (v: int)
    ensures -1 <= v < 16
  {
    if '0' <= c <= '9' then c as int - '0' as int
    else if 'a' <= c <= 'f' then c as int - 'a' as int + 10
    else if 'A' <= c <= 'F' then c as int - 'A' as int + 10
    else -1
  }

  function SkipBlanks(s: string): (r: string)
    ensures |r| <= |s|
  {
    if s != "" && IsBlank(s[0]) then SkipBlanks(s[1..]) else s
  }

  /** A digit of the base in force, or -1. */
  function DigitIn(c: char, base: nat): int {
    if base == 16 || '0' <= c <= '9' then HexValue(c) else -1
  }

  function ParseFrom(value: nat, base: nat, s: string): (r: (nat, string))
    ensures |r.1| <= |s| && r.0 < U64
    decreases |s|
  {
    if s == "" || DigitIn(s[0], base) < 0 then (value % U64, s)
    else ParseFrom((value * base + DigitIn(s[0], base)) % U64, base, s[1..])
  }

  /** `ssl_parse_u64`. */
  function ParseU64(s: string): (r: (nat, string))
    ensures |r.1| <= |s| && r.0 < U64
  {
    var t := SkipBlanks(s);
    if |t| >= 2 && t[0] == '0' && (t[1] == 'x' || t[1] == 'X') then ParseFrom(0, 16, t[2..]) else ParseFrom(0, 10, t)
  }

  /** `ssl_next_line`. */
  function NextLine(s: string): (r: string)
    ensures |r| <= |s| && (s != "" ==> |r| < |s|)
  {
    if s == "" then "" else if s[0] == '\n' then s[1..] else NextLine(s[1..])
  }

  /** The digest field: 64 hex digits, or zeros. */
  function DigestField(s: string): (d: seq<byte>)
    ensures |d| == SHA_LEN
  {
    if |s| >= 2 * SHA_LEN && forall i | 0 <= i < 2 * SHA_LEN :: HexValue(s[i]) >= 0 then
      seq(SHA_LEN, i requires 0 <= i < SHA_LEN => (16 * HexValue(s[2 * i]) + HexValue(s[2 * i + 1])) as byte)
    else Zeros(SHA_LEN)
  }

  /** Whether the line at the cursor is for this card, and the text after the name and slot. */
  function MatchLine(s: string, gameId: string, slot: byte): Option<string>
    requires |gameId| == ID_LEN
  {
    var t := SkipBlanks(s);
    if |t| <= ID_LEN || t[..ID_LEN] != gameId || !IsSpace(t[ID_LEN]) then None
    else
      var (n, rest) := ParseU64(t[ID_LEN..]);
      if n % 0x100 != slot then None else Some(rest)
  }

  datatype Found = Found(version: u32, sha: seq<byte>)

  /** `ssl_state_find`. */
  function Find(s: string, gameId: string, slot: byte): Option<Found>
    requires |gameId| == ID_LEN
    decreases |s|
  {
    if s == "" then None
    else
      match MatchLine(s, gameId, slot)
      case None => Find(NextLine(s), gameId, slot)
      case Some(rest) =>
        var (version, after) := ParseU64(rest);
        Some(Found(version % U32, DigestField(SkipBlanks(after))))
  }

  // ----- the round trip

  /** The first entry for a card. */
  function Lookup(es: seq<Entry>, gameId: string, slot: byte): Option<Found>
  {
    if es == [] then None
    else if es[0].gameId == gameId && es[0].slot == slot then Some(Found(es[0].version, es[0].sha))
    else Lookup(es[1..], gameId, slot)
  }

  /** Reading a printed number gives the number. */
  lemma {:induction false} ParseReadsDecimal(n: nat, rest: string)
    requires n < U64
    ensures ParseFrom(0, 10, Decimal(n) + rest) == ParseFrom(n, 10, rest)
  {
    hide ParseFrom;
    if n < 10 {
      ParseDigit(0, n, rest);
    } else {
      var last := [Digit(n % 10)];
      ParseReadsDecimal(n / 10, last + rest);
      assert Decimal(n) + rest == Decimal(n / 10) + (last + rest);
      ParseDigit(n / 10, n % 10, rest);
    }
  }

  lemma ParseDigit(value: nat, d: nat, rest: string)
    requires d < 10 && value * 10 + d < U64
    ensures ParseFrom(value, 10, [Digit(d)] + rest) == ParseFrom(value * 10 + d, 10, rest)
  {
    assert ([Digit(d)] + rest)[1..] == rest;
    assert HexValue(Digit(d)) == d;
  }

  lemma ParseStops(n: nat, rest: string)
    requires n < U64 && rest != "" && DigitIn(rest[0], 10) < 0
    ensures ParseFrom(n, 10, rest) == (n, rest)
  {
  }

  lemma ParseReadsField(n: nat, rest: string)
    requires n < U64 && rest != "" && DigitIn(rest[0], 10) < 0 && rest[0] != 'x' && rest[0] != 'X'
    ensures ParseU64(" " + Decimal(n) + rest) == (n, rest)
  {
    hide ParseFrom, Decimal;
    var s, d := " " + Decimal(n) + rest, Decimal(n);
    assert s[1..] == d + rest;
    assert SkipBlanks(d + rest) == d + rest;
    ParseStops(n, rest);
    ParseReadsDecimal(n, rest);
    if d[0] == '0' {
      assert (d + rest)[1] == rest[0];
    }
  }

  lemma {:induction false} HexAt(s: seq<byte>, i: nat)
    requires i < |s|
    ensures HexValue(Hex(s)[2 * i]) == s[i] / 16 && HexValue(Hex(s)[2 * i + 1]) == s[i] % 16
  {
    var n := |s| - 1;
    if i < n {
      HexAt(s[..n], i);
    }
  }

  lemma DigestReadsHex(sha: seq<byte>, rest: string)
    requires |sha| == SHA_LEN
    ensures DigestField(Hex(sha) + rest) == sha
  {
    var t := Hex(sha) + rest;
    forall i | 0 <= i < SHA_LEN ensures DigestField(t)[i] == sha[i] {
      HexAt(sha, i);
    }
  }

  lemma {:induction false} NextLineSkips(a: string, rest: string)
    requires forall i | 0 <= i < |a| :: a[i] != '\n'
    ensures NextLine(a + "\n" + rest) == rest
  {
    var s := a + "\n" + rest;
    if a == "" {
      assert s[1..] == rest;
    } else {
      assert s[1..] == a[1..] + "\n" + rest;
      NextLineSkips(a[1..], rest);
    }
  }

  /** The tail of a printed line once the slot has been read. */
  function AfterSlot(e: Entry): string
  {
    " " + Decimal(e.version) + " " + Hex(e.sha) + "\n"
  }

  lemma LineMatches(e: Entry, rest: string, gameId: string, slot: byte)
    requires e.Proper() && |gameId| == ID_LEN
    ensures MatchLine(Line(e) + rest, gameId, slot)
         == if e.gameId == gameId && e.slot == slot then Some(AfterSlot(e) + rest) else None
  {
    hide Decimal, Hex, ParseU64;
    var s, field := Line(e) + rest, " " + Decimal(e.slot) + (AfterSlot(e) + rest);
    assert s == e.gameId + field;
    assert IsAlnum(s[0]);
    assert SkipBlanks(s) == s;
    assert s[..ID_LEN] == e.gameId && s[ID_LEN..] == field && s[ID_LEN] == ' ';
    assert (AfterSlot(e) + rest)[0] == ' ';
    ParseReadsField(e.slot, AfterSlot(e) + rest);
  }

  lemma VersionReads(e: Entry, rest: string)
    requires e.Proper()
    ensures ParseU64(AfterSlot(e) + rest) == (e.version, " " + Hex(e.sha) + "\n" + rest)
    ensures DigestField(SkipBlanks(" " + Hex(e.sha) + "\n" + rest)) == e.sha
  {
    hide Decimal, ParseU64, DigestField;
    var tail, digits := " " + Hex(e.sha) + "\n" + rest, Hex(e.sha) + ("\n" + rest);
    assert AfterSlot(e) + rest == " " + Decimal(e.version) + tail;
    ParseReadsField(e.version, tail);
    assert tail[1..] == digits;
    assert SkipBlanks(tail) == SkipBlanks(digits);
    assert HexValue(digits[0]) >= 0;
    assert SkipBlanks(digits) == digits;
    DigestReadsHex(e.sha, "\n" + rest);
  }

  lemma LineEndsOnce(e: Entry, rest: string)
    requires e.Proper()
    ensures NextLine(Line(e) + rest) == rest
  {
    hide Decimal, Hex, NextLine;
    var a := e.gameId + " " + Decimal(e.slot) + " " + Decimal(e.version) + " " + Hex(e.sha);
    assert Line(e) == a + "\n";
    forall i | 0 <= i < |a| ensures a[i] != '\n' {
      LineParts(e, i);
    }
    NextLineSkips(a, rest);
  }

  lemma LineParts(e: Entry, i: nat)
    requires e.Proper()
    requires i < |e.gameId + " " + Decimal(e.slot) + " " + Decimal(e.version) + " " + Hex(e.sha)|
    ensures (e.gameId + " " + Decimal(e.slot) + " " + Decimal(e.version) + " " + Hex(e.sha))[i] != '\n'
  {
    hide Decimal, Hex;
    var h := Hex(e.sha);
    assert forall k | 0 <= k < |h| :: HexValue(h[k]) >= 0;
    assert HexValue('\n') < 0;
  }

  /**
   The two programs agree: on whatever the launcher printed, the kernel finds exactly
   the first entry for the card, version and digest, and nothing for a card not there.
   */
  lemma {:induction false} FindReadsPrint(es: seq<Entry>, gameId: string, slot: byte)
    requires (forall e | e in es :: e.Proper()) && |gameId| == ID_LEN
    ensures Find(Print(es), gameId, slot) == Lookup(es, gameId, slot)
    decreases |es|
  {
    hide MatchLine, NextLine, ParseU64, SkipBlanks, DigestField;
    if es != [] {
      var e, rest := es[0], Print(es[1..]);
      LineMatches(e, rest, gameId, slot);
      assert Print(es) == Line(e) + rest != "";
      if e.gameId == gameId && e.slot == slot {
        VersionReads(e, rest);
      } else {
        LineEndsOnce(e, rest);
        FindReadsPrint(es[1..], gameId, slot);
      }
    }
  }

  /** With one entry per card, that entry is the one returned, wherever in the file it is. */
  lemma {:induction false} UniqueEntryIsFound(es: seq<Entry>, k: nat)
    requires k < |es| && forall i, j | 0 <= i < j < |es| :: !(es[i].gameId == es[j].gameId && es[i].slot == es[j].slot)
    ensures Lookup(es, es[k].gameId, es[k].slot) == Some(Found(es[k].version, es[k].sha))
  {
    if k != 0 {
      UniqueEntryIsFound(es[1..], k - 1);
    }
  }

  // ----- the loops

  /** `%02x` over the digest. */
  method PrintHex(sha: seq<byte>) returns (hex: string)
    ensures hex == Hex(sha)
  {
    hex := "";
    var b := 0;
    while b < |sha|
      invariant 0 <= b <= |sha| && hex == Hex(sha[..b])
    {
      assert sha[..b + 1][..b] == sha[..b];
      hex := hex + [HexDigit(sha[b] / 16), HexDigit(sha[b] % 16)];
      b := b + 1;
    }
    assert sha[..b] == sha;
  }

  /** `wii_state_save`, line by line. */
  method Save(es: seq<Entry>) returns (text: string)
    ensures text == Print(es)
  {
    hide Decimal, Hex;
    text := "";
    var i := 0;
    while i < |es|
      invariant 0 <= i <= |es|
      invariant text + Print(es[i..]) == Print(es)
    {
      var e := es[i];
      var hex := PrintHex(e.sha);
      var line := e.gameId + " " + Decimal(e.slot) + " " + Decimal(e.version) + " " + hex + "\n";
      PrintNext(es, i);
      assert text + (line + Print(es[i + 1..])) == text + line + Print(es[i + 1..]);
      text := text + line;
      i := i + 1;
    }
  }

  lemma PrintNext(es: seq<Entry>, i: nat)
    requires i < |es|
    ensures Print(es[i..]) == Line(es[i]) + Print(es[i + 1..])
  {
    assert es[i..][1..] == es[i + 1..];
  }

  /** Past the blanks at `at`. */
  method BlanksEnd(s: string, at: nat) returns (end: nat)
    requires at <= |s|
    ensures at <= end <= |s| && s[end..] == SkipBlanks(s[at..])
  {
    end := at;
    while end < |s| && IsBlank(s[end])
      invariant at <= end <= |s| && SkipBlanks(s[end..]) == SkipBlanks(s[at..])
    {
      assert s[end..][1..] == s[end + 1..];
      end := end + 1;
    }
  }

  method ParseNumber(s: string, at: nat) returns (value: nat, end: nat)
    requires at <= |s|
    ensures at <= end <= |s| && (value, s[end..]) == ParseU64(s[at..])
  {
    hide SkipBlanks;
    var base := 10;
    end := BlanksEnd(s, at);
    value := 0;
    ghost var t := s[end..];
    if end + 1 < |s| && s[end] == '0' && (s[end + 1] == 'x' || s[end + 1] == 'X') {
      assert t[2..] == s[end + 2..];
      base, end := 16, end + 2;
    }
    assert ParseU64(s[at..]) == ParseFrom(value, base, s[end..]);
    while end < |s| && DigitIn(s[end], base) >= 0
      invariant at <= end <= |s| && value < U64
      invariant ParseU64(s[at..]) == ParseFrom(value, base, s[end..])
    {
      assert s[end..][1..] == s[end + 1..];
      value := (value * base + DigitIn(s[end], base)) % U64;
      end := end + 1;
    }
  }

  method LineEnd(s: string, at: nat) returns (end: nat)
    requires at <= |s|
    ensures at <= end <= |s| && s[end..] == NextLine(s[at..])
    ensures at < |s| ==> at < end
  {
    end := at;
    while end < |s| && s[end] != '\n'
      invariant at <= end <= |s| && NextLine(s[end..]) == NextLine(s[at..])
    {
      assert s[end..][1..] == s[end + 1..];
      end := end + 1;
    }
    if end < |s| {
      assert s[end..][1..] == s[end + 1..];
      end := end + 1;
    }
  }

  /** The name and slot of the line at `at`; the cursor after them when they are this card's. */
  method Match(s: string, at: nat, gameId: string, slot: byte) returns (next: Option<nat>)
    requires at <= |s| && |gameId| == ID_LEN
    ensures match MatchLine(s[at..], gameId, slot)
            case None => next == None
            case Some(rest) => next.Some? && next.value <= |s| && s[next.value..] == rest
  {
    hide SkipBlanks, ParseU64;
    var cursor := BlanksEnd(s, at);
    ghost var t := s[cursor..];
    var i := 0;
    while i < ID_LEN && cursor + i < |s| && s[cursor + i] == gameId[i]
      invariant 0 <= i <= ID_LEN && cursor + i <= |s| && t[..i] == gameId[..i]
    {
      assert t[..i + 1] == t[..i] + [s[cursor + i]];
      i := i + 1;
    }
    if i < ID_LEN {
      assert |t| > ID_LEN ==> t[..ID_LEN][i] == t[i] != gameId[i];
      return None;
    }
    assert t[..ID_LEN] == gameId;
    if cursor + ID_LEN >= |s| || !IsSpace(s[cursor + ID_LEN]) {
      return None;
    }
    assert t[ID_LEN..] == s[cursor + ID_LEN..];
    var lineSlot, end := ParseNumber(s, cursor + ID_LEN);
    next := if lineSlot % 0x100 != slot then None else Some(end);
  }

  /** The digest at `at`: a short or malformed field leaves it zeroed. */
  method ReadDigest(s: string, at: nat) returns (sha: seq<byte>)
    requires at <= |s|
    ensures sha == DigestField(s[at..])
  {
    ghost var t := s[at..];
    sha := [];
    while |sha| < SHA_LEN
      invariant |sha| <= SHA_LEN && at + 2 * |sha| <= |s|
      invariant forall j | 0 <= j < 2 * |sha| :: HexValue(t[j]) >= 0
      invariant forall j | 0 <= j < |sha| :: sha[j] == 16 * HexValue(t[2 * j]) + HexValue(t[2 * j + 1])
      decreases SHA_LEN - |sha|
    {
      var k := at + 2 * |sha|;
      if k + 1 >= |s| || HexValue(s[k]) < 0 || HexValue(s[k + 1]) < 0 {
        assert k + 1 < |s| ==> HexValue(t[2 * |sha|]) < 0 || HexValue(t[2 * |sha| + 1]) < 0;
        return Zeros(SHA_LEN);
      }
      assert t[2 * |sha|] == s[k] && t[2 * |sha| + 1] == s[k + 1];
      sha := sha + [16 * HexValue(s[k]) + HexValue(s[k + 1])];
    }
    assert sha == DigestField(t);
  }

  method StateFind(s: string, gameId: string, slot: byte) returns (found: Option<Found>)
    requires |gameId| == ID_LEN
    ensures found == Find(s, gameId, slot)
  {
    hide MatchLine, NextLine, ParseU64, SkipBlanks, DigestField;
    var p := 0;
    assert s[0..] == s;
    while p < |s|
      invariant 0 <= p <= |s| && Find(s, gameId, slot) == Find(s[p..], gameId, slot)
    {
      var next := Match(s, p, gameId, slot);
      if next.Some? {
        var version, cursor := ParseNumber(s, next.value);
        cursor := BlanksEnd(s, cursor);
        var sha := ReadDigest(s, cursor);
        return Some(Found(version % U32, sha));
      }
      p := LineEnd(s, p);
    }
    found := None;
  }
}
