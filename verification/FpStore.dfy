/**
 The fingerprint store file: an association list in bytes, rewritten by the
 launcher, read whole by the launcher and in 512-byte slices by the kernel.
 */
module FpStore {
  import opened Bytes
  import opened Bitmaps
  import opened Fingerprint
  import opened Store

  const HEADER_SIZE := 16
  const RECORD_SIZE := 56
  const ID_LEN := 6
  const DIGEST_SIZE := 32
  const SLICE := 512
  const MAGIC: seq<byte> := [0x53, 0x53, 0x46, 0x50]
  const FORMAT: byte := 1
  const SPACE: byte := 0x20

  /** `char game_id[7]`: six bytes, a shorter name ending in NUL. */
  type Id = s: seq<byte> | |s| == ID_LEN witness [0, 0, 0, 0, 0, 0]
  type Sha = s: seq<byte> | |s| == DIGEST_SIZE witness seq(DIGEST_SIZE, _ => 0)

  datatype Record = Record(gameId: Id, slot: byte, version: u32, size: u32, blocks: u32, sha: Sha)

  /** A record and its encoded fingerprints. */
  datatype Entry = Entry(rec: Record, values: seq<byte>)

  /** `ss_fp_blocks`, wrap-around included. */
  function FpBlocks(size: u32): (blocks: u32)
    ensures blocks <= WORD / BLOCK_SIZE
  {
    if size == 0 then 0 else (size + BLOCK_SIZE - 1) % WORD / BLOCK_SIZE
  }

  // ----- names

  predicate NoNul(s: seq<byte>) {
    forall k | 0 <= k < |s| :: s[k] != 0
  }

  /** `strncmp(a, b, 6) == 0`. */
  predicate SameName(a: Id, b: Id) {
    forall k | 0 <= k < ID_LEN :: NoNul(a[..k]) ==> a[k] == b[k]
  }

  predicate SameKey(r: Record, gameId: Id, slot: byte) {
    r.slot == slot && SameName(r.gameId, gameId)
  }

  /** The name as a record stores it: blanks once the name has ended. */
  function Padded(id: Id): Id {
    seq(ID_LEN, k requires 0 <= k < ID_LEN => if NoNul(id[..k + 1]) then id[k] else SPACE)
  }

  lemma PaddedHasNoNul(id: Id)
    ensures NoNul(Padded(id))
    ensures NoNul(id) ==> Padded(id) == id
  {
    forall k | 0 <= k < ID_LEN ensures Padded(id)[k] != 0 {
      if NoNul(id[..k + 1]) {
        assert id[..k + 1][k] != 0;
      }
    }
  }

  /** Between full-length names, `strncmp` and `memcmp` agree, whatever the file holds. */
  lemma FullNamesCompare(a: Id, b: Id)
    requires NoNul(b)
    ensures SameName(a, b) <==> a == b
    ensures SameName(b, a) <==> a == b
  {
    if SameName(a, b) {
      NamesAgree(a, b, ID_LEN);
    }
    if SameName(b, a) {
      forall k | 0 <= k < ID_LEN ensures b[k] == a[k] {
        assert NoNul(b[..k]);
      }
    }
  }

  lemma {:induction false} NamesAgree(a: Id, b: Id, n: nat)
    requires NoNul(b) && SameName(a, b) && n <= ID_LEN
    ensures a[..n] == b[..n]
  {
    if n != 0 {
      NamesAgree(a, b, n - 1);
      assert NoNul(a[..n - 1]);
    }
  }

  // ----- bytes

  function PutHeader(records: u16): (s: seq<byte>)
    ensures |s| == HEADER_SIZE
  {
    MAGIC + [FORMAT, 0] + PutU16(records) + PutU32(BLOCK_SIZE) + Zeros(4)
  }

  function PutRecord(r: Record): (s: seq<byte>)
    ensures |s| == RECORD_SIZE
  {
    Padded(r.gameId) + [r.slot, 0] + PutU32(r.version) + PutU32(r.size) + PutU32(r.blocks) + r.sha + Zeros(4)
  }

  /** `ss_fp_store_count`; -1 for anything that is not a store at this block size. */
  function Count(store: seq<byte>): (n: int)
    ensures -1 <= n < 0x1_0000
    ensures n != -1 ==> |store| >= HEADER_SIZE
  {
    if |store| < HEADER_SIZE then -1
    else if store[..4] != MAGIC then -1
    else if store[4] != FORMAT then -1
    else if GetU32(store[8..12]) != BLOCK_SIZE then -1
    else GetU16(store[6..8])
  }

  /** `ss_fp_get_record`. */
  function GetRecord(s: seq<byte>): Option<Record>
    requires |s| == RECORD_SIZE
  {
    var size, blocks := GetU32(s[12..16]), GetU32(s[16..20]);
    if blocks == 0 || blocks != FpBlocks(size) then None
    else Some(Record(s[..ID_LEN], s[6], GetU32(s[8..12]), size, blocks, s[20..52]))
  }

  /** Decoding a fingerprint table. */
  function Values(s: seq<byte>): seq<u32>
  {
    seq(|s| / 4, i requires 0 <= i < |s| / 4 => GetU32(s[4 * i..4 * i + 4]))
  }

  function PutValues(fp: seq<u32>): (s: seq<byte>)
    ensures |s| == 4 * |fp|
  {
    if fp == [] then [] else PutValues(fp[..|fp| - 1]) + PutU32(fp[|fp| - 1])
  }

  lemma HeaderRoundTrip(records: u16, rest: seq<byte>)
    ensures Count(PutHeader(records) + rest) == records
  {
    var h := PutHeader(records);
    var s := h + rest;
    assert s[..4] == MAGIC && s[4] == FORMAT;
    assert s[8..12] == PutU32(BLOCK_SIZE);
    assert s[6..8] == PutU16(records);
  }

  /** A record survives its encoding except that a short name comes back padded. */
  lemma RecordRoundTrip(r: Record)
    requires r.blocks != 0 && r.blocks == FpBlocks(r.size)
    ensures GetRecord(PutRecord(r)) == Some(r.(gameId := Padded(r.gameId)))
  {
    var s := PutRecord(r);
    assert s[..ID_LEN] == Padded(r.gameId) && s[6] == r.slot;
    assert s[8..12] == PutU32(r.version);
    assert s[12..16] == PutU32(r.size);
    assert s[16..20] == PutU32(r.blocks);
    assert s[20..52] == r.sha;
  }

  lemma {:induction false} ValuesRoundTrip(fp: seq<u32>)
    ensures Values(PutValues(fp)) == fp
  {
    if fp != [] {
      var n := |fp| - 1;
      ValuesRoundTrip(fp[..n]);
      ValuesAppend(PutValues(fp[..n]), fp[n]);
      assert fp == fp[..n] + [fp[n]];
    }
  }

  lemma ValuesAppend(s: seq<byte>, v: u32)
    requires |s| % 4 == 0
    ensures Values(s + PutU32(v)) == Values(s) + [v]
  {
    var t, n := s + PutU32(v), |s| / 4;
    forall i | 0 <= i < n ensures Values(t)[i] == Values(s)[i] {
      assert t[4 * i..4 * i + 4] == s[4 * i..4 * i + 4];
    }
    assert t[4 * n..4 * n + 4] == PutU32(v);
  }

  // ----- the walk

  /** The entry at `at`, if a whole and consistent one is there. */
  function EntryAt(store: seq<byte>, at: nat): (e: Option<Entry>)
    ensures e.Some? ==>
              && |e.value.values| == 4 * e.value.rec.blocks
              && at + RECORD_SIZE + |e.value.values| <= |store|
              && e.value.rec.blocks == FpBlocks(e.value.rec.size) != 0
  {
    if |store| < at + RECORD_SIZE then None
    else
      var from := at + RECORD_SIZE;
      match GetRecord(store[at..from])
      case None => None
      case Some(rec) =>
        if rec.blocks > (|store| - from) % WORD / 4 then None
        else
          assert 4 * rec.blocks <= |store| - from;
          Some(Entry(rec, store[from..from + 4 * rec.blocks]))
  }

  /** Everything a walk from `at` yields before it ends or fails. */
  function Walk(store: seq<byte>, at: nat): (es: seq<Entry>)
    decreases |store| - at
  {
    match EntryAt(store, at)
    case None => []
    case Some(e) => [e] + Walk(store, at + RECORD_SIZE + |e.values|)
  }

  function Entries(store: seq<byte>): seq<Entry>
  {
    if Count(store) < 0 then [] else Walk(store, HEADER_SIZE)
  }

  function PutEntry(e: Entry): seq<byte>
  {
    PutRecord(e.rec) + e.values
  }

  function Body(es: seq<Entry>): seq<byte>
  {
    if es == [] then [] else PutEntry(es[0]) + Body(es[1..])
  }

  /** A whole file; the count is 16 bits wide. */
  function Encode(es: seq<Entry>): seq<byte>
  {
    PutHeader(|es| % 0x1_0000) + Body(es)
  }

  predicate ProperEntry(e: Entry) {
    e.rec.blocks == FpBlocks(e.rec.size) != 0 && |e.values| == 4 * e.rec.blocks
  }

  predicate Proper(es: seq<Entry>) {
    forall e | e in es :: ProperEntry(e)
  }

  function Pad(e: Entry): Entry {
    e.(rec := e.rec.(gameId := Padded(e.rec.gameId)))
  }

  function PadAll(es: seq<Entry>): (r: seq<Entry>)
    ensures |r| == |es|
  {
    seq(|es|, i requires 0 <= i < |es| => Pad(es[i]))
  }

  lemma {:induction false} WalkIsProper(store: seq<byte>, at: nat)
    ensures Proper(Walk(store, at))
    decreases |store| - at
  {
    match EntryAt(store, at)
    case None =>
    case Some(e) => WalkIsProper(store, at + RECORD_SIZE + |e.values|);
  }

  lemma EntryReads(prefix: seq<byte>, e: Entry, rest: seq<byte>)
    requires ProperEntry(e) && |prefix + PutEntry(e) + rest| < WORD
    ensures EntryAt(prefix + PutEntry(e) + rest, |prefix|) == Some(Pad(e))
  {
    hide FpBlocks, PutRecord;
    var s, at, from := prefix + PutEntry(e) + rest, |prefix|, |prefix| + RECORD_SIZE;
    assert s == prefix + PutRecord(e.rec) + e.values + rest;
    SliceIs(prefix, PutRecord(e.rec), e.values + rest, s);
    RecordRoundTrip(e.rec);
    SliceIs(prefix + PutRecord(e.rec), e.values, rest, s);
  }

  lemma SliceIs(a: seq<byte>, b: seq<byte>, c: seq<byte>, s: seq<byte>)
    requires s == a + b + c
    ensures |s| >= |a| + |b| && s[|a|..|a| + |b|] == b
  {
  }

  /** Reading back what was written: every entry, in order, short names padded, ending exactly at the end. */
  lemma {:induction false} WalkReads(prefix: seq<byte>, es: seq<Entry>)
    requires Proper(es) && |prefix + Body(es)| < WORD
    ensures Walk(prefix + Body(es), |prefix|) == PadAll(es)
    decreases |es|
  {
    hide PutEntry, Pad;
    var s := prefix + Body(es);
    if es == [] {
      assert EntryAt(s, |prefix|) == None;
    } else {
      var e, rest := es[0], es[1..];
      assert s == prefix + PutEntry(e) + Body(rest);
      EntryReads(prefix, e, Body(rest));
      var next := prefix + PutEntry(e);
      assert s == next + Body(rest);
      WalkReads(next, rest);
      EntrySize(e);
      assert PadAll(es) == [Pad(e)] + PadAll(rest);
    }
  }

  lemma EntrySize(e: Entry)
    ensures |PutEntry(e)| == RECORD_SIZE + |e.values| && |Pad(e).values| == |e.values|
  {
  }

  lemma FileRoundTrip(es: seq<Entry>)
    requires Proper(es) && |Encode(es)| < WORD
    ensures Entries(Encode(es)) == PadAll(es) && Count(Encode(es)) == |es| % 0x1_0000
  {
    HeaderRoundTrip(|es| % 0x1_0000, Body(es));
    WalkReads(PutHeader(|es| % 0x1_0000), es);
  }

  // ----- lookup

  /** The first entry for a card. */
  function Lookup(es: seq<Entry>, gameId: Id, slot: byte): Option<Entry>
  {
    if es == [] then None
    else if SameKey(es[0].rec, gameId, slot) then Some(es[0])
    else Lookup(es[1..], gameId, slot)
  }

  /** The entries a reader that stops at the header's count sees. */
  function Counted(store: seq<byte>): seq<Entry>
  {
    var es, n := Entries(store), Count(store);
    if 0 <= n < |es| then es[..n] else es
  }

  /** What a reader with room for `room` fingerprints finds. */
  function Found(store: seq<byte>, gameId: Id, slot: byte, room: nat): Option<Entry>
  {
    match Lookup(Counted(store), gameId, slot)
    case None => None
    case Some(e) => if e.rec.blocks > room then None else Some(e)
  }

  // ----- put, on entries

  /** Every entry but the one being replaced. */
  function Others(es: seq<Entry>, gameId: Id, slot: byte): (r: seq<Entry>)
    ensures |r| <= |es|
    ensures forall e | e in r :: e in es && !SameKey(e.rec, gameId, slot)
  {
    if es == [] then []
    else (if SameKey(es[0].rec, gameId, slot) then [] else [es[0]]) + Others(es[1..], gameId, slot)
  }

  function PutEntries(es: seq<Entry>, e: Entry): seq<Entry>
  {
    [e] + Others(es, e.rec.gameId, e.rec.slot)
  }

  /** `wii_fp_store_put` on the file's bytes; a missing file is an empty store. */
  function PutFile(file: Option<seq<byte>>, e: Entry): Option<seq<byte>>
  {
    if !ProperEntry(e) then file
    else Some(Encode(PutEntries(if file.None? then [] else Entries(file.value), e)))
  }

  /** A name with neither NUL nor blank, which padding therefore cannot make up. */
  predicate Solid(id: Id) {
    forall k | 0 <= k < ID_LEN :: id[k] != 0 && id[k] != SPACE
  }

  lemma PaddingKeepsSolidNames(a: Id, id: Id)
    requires Solid(id)
    ensures SameName(Padded(a), id) <==> SameName(a, id)
  {
    PaddedHasNoNul(a);
    FullNamesCompare(Padded(a), id);
    FullNamesCompare(a, id);
    if !NoNul(a) {
      var k :| 0 <= k < ID_LEN && a[k] == 0;
      assert !NoNul(a[..k + 1]) by { assert a[..k + 1][k] == 0; }
      assert Padded(a)[k] == SPACE;
    }
  }

  lemma {:induction false} LookupPadded(es: seq<Entry>, gameId: Id, slot: byte)
    requires Solid(gameId)
    ensures Lookup(PadAll(es), gameId, slot) == Lookup(es, gameId, slot)
  {
    if es != [] {
      LookupPadded(es[1..], gameId, slot);
      PaddingKeepsSolidNames(es[0].rec.gameId, gameId);
      assert PadAll(es)[1..] == PadAll(es[1..]);
      if SameName(es[0].rec.gameId, gameId) {
        FullNamesCompare(es[0].rec.gameId, gameId);
        PaddedHasNoNul(gameId);
      }
    }
  }

  /** A record filed under one card is never another card's. */
  lemma OneCardEach(r: Record, gameId: Id, slot: byte, id: Id, s: byte)
    requires Solid(id) && !(slot == s && SameName(gameId, id)) && SameKey(r, gameId, slot)
    ensures !SameKey(r, id, s)
  {
    hide SameName;
    FullNamesCompare(r.gameId, id);
    FullNamesCompare(gameId, id);
  }

  /** Dropping one card's entries does not disturb another's. */
  lemma {:induction false} LookupOthers(es: seq<Entry>, gameId: Id, slot: byte, id: Id, s: byte)
    requires Solid(id) && !(slot == s && SameName(gameId, id))
    ensures Lookup(Others(es, gameId, slot), id, s) == Lookup(es, id, s)
  {
    hide SameName, SameKey, Solid;
    if es != [] {
      LookupOthers(es[1..], gameId, slot, id, s);
      if SameKey(es[0].rec, gameId, slot) {
        OneCardEach(es[0].rec, gameId, slot, id, s);
        assert [] + Others(es[1..], gameId, slot) == Others(es[1..], gameId, slot);
      } else {
        assert ([es[0]] + Others(es[1..], gameId, slot))[1..] == Others(es[1..], gameId, slot);
      }
    }
  }

  // ----- a put, seen from the reader

  /** The entries a put starts from. */
  function Held(file: Option<seq<byte>>): seq<Entry>
  {
    if file.None? then [] else Entries(file.value)
  }

  lemma HeldIsProper(file: Option<seq<byte>>)
    ensures Proper(Held(file))
  {
    if file.Some? {
      WalkIsProper(file.value, HEADER_SIZE);
    }
  }

  lemma PutReads(file: Option<seq<byte>>, e: Entry)
    requires ProperEntry(e) && |PutFile(file, e).value| < WORD
    ensures var out := PutFile(file, e).value;
            Entries(out) == PadAll(PutEntries(Held(file), e)) && Count(out) == |Entries(out)| % 0x1_0000
  {
    HeldIsProper(file);
    FileRoundTrip(PutEntries(Held(file), e));
  }

  lemma {:induction false} NulNamesAreNotFound(es: seq<Entry>, gameId: Id, slot: byte)
    requires !NoNul(gameId) && forall e | e in es :: NoNul(e.rec.gameId)
    ensures Lookup(es, gameId, slot) == None
  {
    if es != [] {
      NulNamesAreNotFound(es[1..], gameId, slot);
      var k :| 0 <= k < ID_LEN && gameId[k] == 0;
      assert es[0] in es;
      assert NoNul(es[0].rec.gameId[..k]);
      assert es[0].rec.gameId[k] != 0;
    }
  }

  lemma CountedPut(file: Option<seq<byte>>, e: Entry)
    requires ProperEntry(e) && |PutFile(file, e).value| < WORD
    ensures var (out, es) := (PutFile(file, e).value, PadAll(PutEntries(Held(file), e)));
            Counted(out) == es[..|es| % 0x1_0000]
  {
    hide Entries, Count, PadAll, PutFile, PutEntries, Held;
    PutReads(file, e);
    var es := PadAll(PutEntries(Held(file), e));
    if |es| % 0x1_0000 == |es| {
      assert es[..|es|] == es;
    }
  }

  /**
   Put, then find: the new record and table come back exactly when the name fills
   all six bytes, the 16-bit count has not wrapped to zero, and the reader has room.
   A shorter name is stored padded, and no longer equals itself.
   */
  lemma PutThenFind(file: Option<seq<byte>>, e: Entry, room: nat)
    requires ProperEntry(e) && |PutFile(file, e).value| < WORD
    ensures Found(PutFile(file, e).value, e.rec.gameId, e.rec.slot, room)
         == if NoNul(e.rec.gameId) && |PutEntries(Held(file), e)| % 0x1_0000 != 0 && e.rec.blocks <= room
            then Some(e) else None
  {
    var all := PutEntries(Held(file), e);
    var es := PadAll(all);
    var seen := es[..|es| % 0x1_0000];
    CountedPut(file, e);
    if NoNul(e.rec.gameId) {
      PaddedHasNoNul(e.rec.gameId);
      if seen != [] {
        assert seen[0] == e;
        assert SameName(e.rec.gameId, e.rec.gameId);
      }
    } else {
      forall x | x in seen ensures NoNul(x.rec.gameId) {
        var i :| 0 <= i < |seen| && seen[i] == x;
        PaddedHasNoNul(all[i].rec.gameId);
      }
      NulNamesAreNotFound(seen, e.rec.gameId, e.rec.slot);
    }
  }

  /** A file whose header does not hide entries that are there. */
  predicate Tidy(file: Option<seq<byte>>) {
    file.Some? ==> |Entries(file.value)| <= Count(file.value) || Count(file.value) < 0
  }

  function FoundIn(file: Option<seq<byte>>, gameId: Id, slot: byte, room: nat): Option<Entry>
  {
    if file.None? then None else Found(file.value, gameId, slot, room)
  }

  /** Every other card's lookup is unchanged, and the file stays tidy. */
  lemma PutKeepsOthers(file: Option<seq<byte>>, e: Entry, gameId: Id, slot: byte, room: nat)
    requires ProperEntry(e) && |PutFile(file, e).value| < WORD && |PutEntries(Held(file), e)| < 0x1_0000
    requires Tidy(file) && Solid(gameId) && !(slot == e.rec.slot && SameName(e.rec.gameId, gameId))
    ensures FoundIn(PutFile(file, e), gameId, slot, room) == FoundIn(file, gameId, slot, room)
    ensures Tidy(PutFile(file, e))
  {
    hide SameName, Solid, Entries, PadAll, Encode, PutFile, Others;
    var all := PutEntries(Held(file), e);
    PutReads(file, e);
    CountedPut(file, e);
    PutGives(file, e);
    assert PadAll(all)[..|all|] == PadAll(all);
    LookupPadded(all, gameId, slot);
    LookupOthers(Held(file), e.rec.gameId, e.rec.slot, gameId, slot);
    assert all[1..] == Others(Held(file), e.rec.gameId, e.rec.slot);
    if file.Some? {
      TidySeesAll(file);
    }
  }

  lemma TidySeesAll(file: Option<seq<byte>>)
    requires Tidy(file) && file.Some?
    ensures Counted(file.value) == Held(file)
  {
    var es := Entries(file.value);
    assert es[..|es|] == es;
  }

  // ----- merging the kernel's file

  /** `wii_fp_merge_runtime`: one put for every entry of the incoming file, in order. */
  function MergeFile(file: Option<seq<byte>>, incoming: seq<Entry>): Option<seq<byte>>
  {
    if incoming == [] then file
    else
      var n := |incoming| - 1;
      PutFile(MergeFile(file, incoming[..n]), incoming[n])
  }

  /** The last entry for a card. */
  function Latest(es: seq<Entry>, gameId: Id, slot: byte): Option<Entry>
  {
    if es == [] then None
    else
      var n := |es| - 1;
      if SameKey(es[n].rec, gameId, slot) then Some(es[n]) else Latest(es[..n], gameId, slot)
  }

  function SizeOf(file: Option<seq<byte>>): nat {
    if file.None? then HEADER_SIZE else if |file.value| < HEADER_SIZE then HEADER_SIZE else |file.value|
  }

  lemma {:induction false} WalkFits(store: seq<byte>, at: nat)
    requires at <= |store|
    ensures |Body(Walk(store, at))| <= |store| - at
    decreases |store| - at
  {
    hide GetRecord;
    match EntryAt(store, at)
    case None =>
    case Some(e) => WalkFits(store, at + RECORD_SIZE + |e.values|);
  }

  lemma {:induction false} OthersFit(es: seq<Entry>, gameId: Id, slot: byte)
    ensures |Body(Others(es, gameId, slot))| <= |Body(es)|
  {
    hide SameKey, PutEntry;
    if es != [] {
      OthersFit(es[1..], gameId, slot);
      var r := Others(es[1..], gameId, slot);
      if SameKey(es[0].rec, gameId, slot) {
        assert [] + r == r;
      } else {
        assert ([es[0]] + r)[1..] == r;
      }
    }
  }

  /** A put grows the file by the new entry at most, in bytes and in records. */
  lemma PutGrows(file: Option<seq<byte>>, e: Entry)
    requires ProperEntry(e)
    ensures SizeOf(PutFile(file, e)) <= SizeOf(file) + |PutEntry(e)|
    ensures |PutEntries(Held(file), e)| <= |Held(file)| + 1
  {
    hide EntryAt;
    if file.Some? && Count(file.value) >= 0 {
      WalkFits(file.value, HEADER_SIZE);
    }
    var all := PutEntries(Held(file), e);
    OthersFit(Held(file), e.rec.gameId, e.rec.slot);
    assert all[1..] == Others(Held(file), e.rec.gameId, e.rec.slot);
  }

  lemma {:induction false} BodyAppend(es: seq<Entry>, e: Entry)
    ensures |Body(es + [e])| == |Body(es)| + |PutEntry(e)|
  {
    if es == [] {
      assert [e][1..] == [];
    } else {
      assert (es + [e])[1..] == es[1..] + [e];
      BodyAppend(es[1..], e);
    }
  }

  /** Sizes along a merge. */
  lemma {:induction false} MergeGrows(file: Option<seq<byte>>, incoming: seq<Entry>)
    requires Proper(incoming) && SizeOf(file) + |Body(incoming)| < WORD
    ensures SizeOf(MergeFile(file, incoming)) <= SizeOf(file) + |Body(incoming)|
    ensures |Held(MergeFile(file, incoming))| <= |Held(file)| + |incoming|
  {
    hide PutFile;
    if incoming != [] {
      var n := |incoming| - 1;
      BodyAppend(incoming[..n], incoming[n]);
      assert incoming[..n] + [incoming[n]] == incoming;
      MergeGrows(file, incoming[..n]);
      var before := MergeFile(file, incoming[..n]);
      PutGrows(before, incoming[n]);
      PutGives(before, incoming[n]);
      PutReads(before, incoming[n]);
    }
  }

  lemma PutGives(file: Option<seq<byte>>, e: Entry)
    requires ProperEntry(e)
    ensures PutFile(file, e).Some?
  {
  }

  /**
   After a merge a card's lookup is its last entry in the incoming file, or, when
   it has none there, what it was before.
   */
  lemma {:induction false} MergeThenFind(file: Option<seq<byte>>, incoming: seq<Entry>, gameId: Id, slot: byte,
                                         room: nat)
    requires Proper(incoming) && Tidy(file) && Solid(gameId)
    requires SizeOf(file) + |Body(incoming)| < WORD && |Held(file)| + |incoming| < 0x1_0000
    ensures Tidy(MergeFile(file, incoming))
    ensures FoundIn(MergeFile(file, incoming), gameId, slot, room)
         == match Latest(incoming, gameId, slot)
            case None => FoundIn(file, gameId, slot, room)
            case Some(e) => if e.rec.blocks <= room then Some(e) else None
  {
    hide PutFile, FoundIn, Tidy, PutEntries, SameKey, Held, Body, PutEntry;
    if incoming != [] {
      var n := |incoming| - 1;
      var before, e := MergeFile(file, incoming[..n]), incoming[n];
      BodyAppend(incoming[..n], e);
      assert incoming[..n] + [e] == incoming;
      MergeThenFind(file, incoming[..n], gameId, slot, room);
      MergeGrows(file, incoming[..n]);
      PutGrows(before, e);
      PutGives(before, e);
      PutStep(before, e, gameId, slot, room);
    }
  }

  /** One put, for any full name. */
  lemma PutStep(file: Option<seq<byte>>, e: Entry, gameId: Id, slot: byte, room: nat)
    requires ProperEntry(e) && Tidy(file) && Solid(gameId)
    requires SizeOf(PutFile(file, e)) < WORD && |PutEntries(Held(file), e)| < 0x1_0000
    ensures Tidy(PutFile(file, e))
    ensures FoundIn(PutFile(file, e), gameId, slot, room)
         == if !SameKey(e.rec, gameId, slot) then FoundIn(file, gameId, slot, room)
            else if e.rec.blocks <= room then Some(e) else None
  {
    hide PutFile, PutEntries, Held, Found, Tidy, Solid;
    PutGives(file, e);
    if SameKey(e.rec, gameId, slot) {
      SolidIsFull(e.rec.gameId, gameId);
      PutThenFind(file, e, room);
      PutIsTidy(file, e);
    } else {
      PutKeepsOthers(file, e, gameId, slot, room);
    }
  }

  lemma SolidIsFull(a: Id, id: Id)
    requires Solid(id) && SameName(a, id)
    ensures a == id && NoNul(id)
  {
    FullNamesCompare(a, id);
  }

  lemma PutIsTidy(file: Option<seq<byte>>, e: Entry)
    requires ProperEntry(e) && |PutFile(file, e).value| < WORD && |PutEntries(Held(file), e)| < 0x1_0000
    ensures Tidy(PutFile(file, e)) && |PutEntries(Held(file), e)| != 0
  {
    hide Entries, Count, PutFile, Held, PadAll;
    PutGives(file, e);
    PutReads(file, e);
  }

  // ----- the readers and the writer

  /** The entries within the first `n` a walk from `at` yields. */
  function Ahead(store: seq<byte>, at: nat, n: nat): seq<Entry>
    decreases n
  {
    if n == 0 then []
    else
      match EntryAt(store, at)
      case None => []
      case Some(e) => [e] + Ahead(store, at + RECORD_SIZE + |e.values|, n - 1)
  }

  lemma {:induction false} AheadIsWalk(store: seq<byte>, at: nat, n: nat)
    ensures var es := Walk(store, at); Ahead(store, at, n) == if n < |es| then es[..n] else es
    decreases n
  {
    hide EntryAt;
    if n != 0 {
      match EntryAt(store, at)
      case None =>
      case Some(e) => AheadIsWalk(store, at + RECORD_SIZE + |e.values|, n - 1);
    }
  }

  lemma LookupAhead(store: seq<byte>, at: nat, n: nat, gameId: Id, slot: byte)
    requires n > 0
    ensures Lookup(Ahead(store, at, n), gameId, slot) ==
            match EntryAt(store, at)
            case None => None
            case Some(e) => if SameKey(e.rec, gameId, slot) then Some(e)
                            else Lookup(Ahead(store, at + RECORD_SIZE + |e.values|, n - 1), gameId, slot)
  {
    hide EntryAt, SameKey;
    match EntryAt(store, at)
    case None =>
    case Some(e) =>
      assert Ahead(store, at, n)[1..] == Ahead(store, at + RECORD_SIZE + |e.values|, n - 1);
  }

  datatype Next = End | Bad | Got(rec: Record, values: nat, cursor: nat)

  function Start(cursor: nat): nat {
    if cursor == 0 then HEADER_SIZE else cursor
  }

  /** `ss_fp_store_next`: on any bytes it stays in bounds and yields exactly the entry that is there. */
  method StoreNext(store: seq<byte>, cursor: nat) returns (n: Next)
    ensures n == if cursor == 0 && Count(store) < 0 then Bad
                 else
                   match EntryAt(store, Start(cursor))
                   case None => if |store| == Start(cursor) then End else Bad
                   case Some(e) => Got(e.rec, Start(cursor) + RECORD_SIZE, Start(cursor) + RECORD_SIZE + |e.values|)
    ensures n.Got? ==>
              n.values <= n.cursor <= |store| && EntryAt(store, Start(cursor)).value.values == store[n.values..n.cursor]
  {
    var offset := cursor;
    if offset == 0 {
      if Count(store) < 0 {
        return Bad;
      }
      offset := HEADER_SIZE;
    }
    if |store| < offset || |store| - offset < RECORD_SIZE {
      return if |store| == offset then End else Bad;
    }
    var rec := GetRecord(store[offset..offset + RECORD_SIZE]);
    if rec.None? {
      return Bad;
    }
    offset := offset + RECORD_SIZE;
    if rec.value.blocks > (|store| - offset) % WORD / 4 {
      return Bad;
    }
    n := Got(rec.value, offset, offset + 4 * rec.value.blocks);
  }

  /** `ss_fp_get_values` into a table, from `at` on. */
  method GetValues(fp: array<u32>, at: nat, s: seq<byte>)
    requires at + |s| / 4 <= fp.Length
    modifies fp
    ensures fp[..] == old(fp[..at]) + Values(s) + old(fp[at + |s| / 4..])
  {
    hide Values;
    ghost var all := Values(s);
    ValuesLen(s);
    var i := 0;
    while i < |s| / 4
      invariant 0 <= i <= |s| / 4
      invariant forall j | 0 <= j < i :: fp[at + j] == all[j]
      invariant forall j | 0 <= j < fp.Length && !(at <= j < at + i) :: fp[j] == old(fp[j])
    {
      fp[at + i] := GetU32(s[4 * i..4 * i + 4]);
      i := i + 1;
    }
  }

  lemma ValuesLen(s: seq<byte>)
    ensures |Values(s)| == |s| / 4 && forall i | 0 <= i < |s| / 4 :: Values(s)[i] == GetU32(s[4 * i..4 * i + 4])
  {
  }

  /** `ss_fp_store_find`: the lookup, and the table copied out only when it succeeds. */
  method FindInStore(store: seq<byte>, gameId: Id, slot: byte, fp: array<u32>) returns (r: Option<Record>)
    modifies fp
    ensures match Found(store, gameId, slot, fp.Length)
            case None => r == None && fp[..] == old(fp[..])
            case Some(e) => r == Some(e.rec) && e.rec.blocks <= fp.Length
                            && fp[..] == Values(e.values) + old(fp[e.rec.blocks..])
  {
    hide SameKey, EntryAt, Values, Count, Counted;
    CountedIsAhead(store);
    var records := Count(store);
    if records < 0 {
      return None;
    }
    var cursor, i := 0, 0;
    while i < records
      invariant 0 <= i <= records && fp[..] == old(fp[..])
      invariant cursor == 0 ==> i == 0
      invariant Lookup(Counted(store), gameId, slot) == Lookup(Ahead(store, Start(cursor), records - i), gameId, slot)
    {
      LookupAhead(store, Start(cursor), records - i, gameId, slot);
      var n := StoreNext(store, cursor);
      if !n.Got? {
        return None;
      }
      if SameKey(n.rec, gameId, slot) {
        if n.rec.blocks > fp.Length {
          return None;
        }
        CopyOut(store, cursor, n, fp);
        return Some(n.rec);
      }
      cursor := n.cursor;
      i := i + 1;
    }
    r := None;
  }

  method CopyOut(store: seq<byte>, cursor: nat, n: Next, fp: array<u32>)
    requires n.Got? && n.rec.blocks <= fp.Length && n.values <= n.cursor <= |store|
    requires EntryAt(store, Start(cursor)) == Some(Entry(n.rec, store[n.values..n.cursor]))
    modifies fp
    ensures fp[..] == Values(store[n.values..n.cursor]) + old(fp[n.rec.blocks..])
  {
    GetValues(fp, 0, store[n.values..n.cursor]);
  }

  // ----- the writer

  lemma {:induction false} PutValuesAppend(a: seq<u32>, b: seq<u32>)
    ensures PutValues(a + b) == PutValues(a) + PutValues(b)
  {
    if b == [] {
      assert a + b == a;
    } else {
      var n := |b| - 1;
      assert (a + b)[..|a + b| - 1] == a + b[..n];
      PutValuesAppend(a, b[..n]);
    }
  }

  /** Decoding then encoding a table gives the same bytes. */
  lemma {:induction false} PutValuesUndoes(s: seq<byte>)
    requires |s| % 4 == 0
    ensures PutValues(Values(s)) == s
  {
    if s != [] {
      var n := |s| - 4;
      var front := s[..n];
      PutValuesUndoes(front);
      assert s == front + s[n..];
      PutGetU32(s[n..]);
      ValuesAppend(front, GetU32(s[n..]));
    }
  }

  /** `write_record` for our own table, 128 fingerprints at a time. */
  method WriteRecord(file: seq<byte>, rec: Record, fp: seq<u32>) returns (r: seq<byte>)
    requires rec.blocks <= |fp|
    ensures r == file + PutEntry(Entry(rec, PutValues(fp[..rec.blocks])))
  {
    hide PutValues, PutRecord;
    r := file + PutRecord(rec);
    var left, at := rec.blocks as int, 0;
    NoValues();
    assert fp[..0] == [];
    while left > 0
      invariant 0 <= at && 0 <= left && at + left == rec.blocks
      invariant r == file + PutRecord(rec) + PutValues(fp[..at])
    {
      var take := if left < SLICE / 4 then left else SLICE / 4;
      PutValuesAppend(fp[..at], fp[at..at + take]);
      assert fp[..at] + fp[at..at + take] == fp[..at + take];
      r := r + PutValues(fp[at..at + take]);
      at, left := at + take, left - take;
    }
  }

  lemma NoValues()
    ensures PutValues([]) == []
  {
  }

  lemma OthersNext(e: Entry, rest: seq<Entry>, gameId: Id, slot: byte)
    ensures Others([e] + rest, gameId, slot)
         == (if SameKey(e.rec, gameId, slot) then [] else [e]) + Others(rest, gameId, slot)
  {
    assert ([e] + rest)[1..] == rest;
  }

  /** What a walk from the cursor still has to give. */
  function Rest(store: seq<byte>, cursor: nat): seq<Entry>
  {
    if cursor == 0 then Entries(store) else Walk(store, cursor)
  }

  lemma RestNext(store: seq<byte>, cursor: nat, n: Next)
    requires n == if cursor == 0 && Count(store) < 0 then Bad
                  else
                    match EntryAt(store, Start(cursor))
                    case None => if |store| == Start(cursor) then End else Bad
                    case Some(e) => Got(e.rec, Start(cursor) + RECORD_SIZE, Start(cursor) + RECORD_SIZE + |e.values|)
    ensures !n.Got? ==> Rest(store, cursor) == []
    ensures n.Got? ==> n.values <= n.cursor <= |store|
                       && Rest(store, cursor) == [Entry(n.rec, store[n.values..n.cursor])] + Rest(store, n.cursor)
                       && n.cursor != 0
  {
    hide GetRecord;
  }

  /** `n` is what a walk at the cursor yields next. */
  ghost predicate Facing(store: seq<byte>, cursor: nat, n: Next) {
    if !n.Got? then Rest(store, cursor) == []
    else
      && n.values <= n.cursor <= |store| && cursor < n.cursor && n.cursor - n.values == 4 * n.rec.blocks
      && Rest(store, cursor) == [Entry(n.rec, store[n.values..n.cursor])] + Rest(store, n.cursor)
  }

  method NextEntry(store: seq<byte>, cursor: nat) returns (n: Next)
    ensures Facing(store, cursor, n)
  {
    hide GetRecord, Rest;
    n := StoreNext(store, cursor);
    RestNext(store, cursor, n);
  }

  /** `count_after_put`. */
  method CountAfterPut(store: seq<byte>, rec: Record) returns (count: nat)
    ensures count == 1 + |Others(Entries(store), rec.gameId, rec.slot)|
  {
    hide SameKey, EntryAt, Entries, Rest, Count;
    count := 1;
    var cursor := 0;
    RestStart(store);
    var n := NextEntry(store, cursor);
    while n.Got?
      invariant count + |Others(Rest(store, cursor), rec.gameId, rec.slot)|
                == 1 + |Others(Entries(store), rec.gameId, rec.slot)|
      invariant Facing(store, cursor, n)
      decreases |store| - cursor
    {
      OthersNext(Entry(n.rec, store[n.values..n.cursor]), Rest(store, n.cursor), rec.gameId, rec.slot);
      if !SameKey(n.rec, rec.gameId, rec.slot) {
        count := count + 1;
      }
      cursor := n.cursor;
      n := NextEntry(store, cursor);
    }
  }

  lemma RestStart(store: seq<byte>)
    ensures Rest(store, 0) == Entries(store)
  {
  }

  lemma {:induction false} BodyConcat(a: seq<Entry>, b: seq<Entry>)
    ensures Body(a + b) == Body(a) + Body(b)
  {
    hide PutEntry;
    if a == [] {
      assert a + b == b;
    } else {
      assert (a + b)[1..] == a[1..] + b;
      BodyConcat(a[1..], b);
    }
  }

  /** Copying every other card's record across, its table as the bytes it already is. */
  method CopyOthers(file: seq<byte>, store: seq<byte>, rec: Record) returns (r: seq<byte>)
    ensures r == file + Body(Others(Entries(store), rec.gameId, rec.slot))
  {
    hide SameKey, EntryAt, Entries, Rest, PutRecord, Others, Body;
    r := file;
    var cursor := 0;
    ghost var done: seq<Entry> := [];
    RestStart(store);
    EmptyBody();
    var n := NextEntry(store, cursor);
    assert done + Others(Rest(store, cursor), rec.gameId, rec.slot) == Others(Entries(store), rec.gameId, rec.slot);
    while n.Got?
      invariant r == file + Body(done)
      invariant done + Others(Rest(store, cursor), rec.gameId, rec.slot) == Others(Entries(store), rec.gameId, rec.slot)
      invariant Facing(store, cursor, n)
      decreases |store| - cursor
    {
      ghost var e := Entry(n.rec, store[n.values..n.cursor]);
      OthersNext(e, Rest(store, n.cursor), rec.gameId, rec.slot);
      if !SameKey(n.rec, rec.gameId, rec.slot) {
        r := r + (PutRecord(n.rec) + store[n.values..n.cursor]);
        BodyOne(done, e);
        done := done + [e];
      }
      cursor := n.cursor;
      n := NextEntry(store, cursor);
    }
    NoOthers(rec.gameId, rec.slot);
    assert done + [] == done;
  }

  lemma EmptyBody()
    ensures Body([]) == []
  {
  }

  lemma BodyOne(es: seq<Entry>, e: Entry)
    ensures Body(es + [e]) == Body(es) + PutEntry(e)
  {
    BodyConcat(es, [e]);
    assert [e][1..] == [];
  }

  lemma NoOthers(gameId: Id, slot: byte)
    ensures Others([], gameId, slot) == []
  {
  }

  /** `wii_fp_store_put`: our record first, every other card's after it, the header counting both. */
  method StorePut(file: Option<seq<byte>>, rec: Record, fp: seq<u32>) returns (ok: bool, file': Option<seq<byte>>)
    requires rec.blocks <= |fp|
    ensures ok <==> rec.blocks != 0 && rec.blocks == FpBlocks(rec.size)
    ensures file' == PutFile(file, Entry(rec, PutValues(fp[..rec.blocks])))
  {
    hide PutHeader, Others, Body, Entries, PutEntry;
    if rec.blocks == 0 || rec.blocks != FpBlocks(rec.size) {
      return false, file;
    }
    var store: seq<byte> := if file.Some? then file.value else [];
    NoEntries();
    var records := CountAfterPut(store, rec);
    var bytes := PutHeader(records % 0x1_0000);
    bytes := WriteRecord(bytes, rec, fp);
    ghost var e, others := Entry(rec, PutValues(fp[..rec.blocks])), Others(Entries(store), rec.gameId, rec.slot);
    bytes := CopyOthers(bytes, store, rec);
    BodyHead(e, others);
    assert bytes == PutHeader(records % 0x1_0000) + Body([e] + others);
    return true, Some(bytes);
  }

  lemma BodyHead(e: Entry, es: seq<Entry>)
    ensures Body([e] + es) == PutEntry(e) + Body(es)
  {
    assert ([e] + es)[1..] == es;
  }

  lemma NoEntries()
    ensures Entries([]) == []
  {
  }

  /** `wii_fp_merge_runtime`: -1 when there is nothing to merge, else how many records moved across. */
  method MergeRuntime(file: Option<seq<byte>>, incoming: Option<seq<byte>>)
    returns (merged: int, file': Option<seq<byte>>)
    ensures file' == MergeFile(file, Held(incoming))
    ensures merged == if incoming.None? || |incoming.value| < HEADER_SIZE then -1 else |Held(incoming)|
  {
    hide EntryAt, Entries, Rest, PutFile, FpBlocks, MergeFile, Start, Count;
    file' := file;
    MergeNothing(file);
    if incoming.None? || |incoming.value| < HEADER_SIZE {
      ShortIsEmpty(incoming);
      return -1, file;
    }
    var store := incoming.value;
    var cursor := 0;
    merged := 0;
    ghost var done: seq<Entry> := [];
    RestStart(store);
    var n := NextEntry(store, cursor);
    while n.Got?
      invariant file' == MergeFile(file, done) && merged == |done|
      invariant done + Rest(store, cursor) == Entries(store)
      invariant Facing(store, cursor, n)
      decreases |store| - cursor
    {
      ghost var e := Entry(n.rec, store[n.values..n.cursor]);
      file' := MergeOne(file', n.rec, store[n.values..n.cursor]);
      MergeNext(file, done, e);
      assert done + ([e] + Rest(store, n.cursor)) == done + [e] + Rest(store, n.cursor);
      done := done + [e];
      merged := merged + 1;
      cursor := n.cursor;
      n := NextEntry(store, cursor);
    }
    assert done + [] == done;
  }

  /** One record of the incoming file, decoded and put. */
  method MergeOne(file: Option<seq<byte>>, rec: Record, values: seq<byte>) returns (file': Option<seq<byte>>)
    requires |values| == 4 * rec.blocks
    ensures file' == PutFile(file, Entry(rec, values))
  {
    PutValuesUndoes(values);
    var fp := Values(values);
    assert fp[..rec.blocks] == fp;
    var _, out := StorePut(file, rec, fp);
    file' := out;
  }

  lemma MergeNext(file: Option<seq<byte>>, done: seq<Entry>, e: Entry)
    ensures MergeFile(file, done + [e]) == PutFile(MergeFile(file, done), e)
  {
    assert (done + [e])[..|done|] == done;
  }

  lemma MergeNothing(file: Option<seq<byte>>)
    ensures MergeFile(file, []) == file
  {
  }

  lemma ShortIsEmpty(file: Option<seq<byte>>)
    requires file.None? || |file.value| < HEADER_SIZE
    ensures Held(file) == []
  {
  }

  // ----- the kernel's reader

  /** An open file, read forward only. */
  class Reader {
    const data: seq<byte>
    var pos: nat

    constructor (data: seq<byte>)
      ensures this.data == data && pos == 0
    {
      this.data, pos := data, 0;
    }

    /** `ss_fp_read`: a short read is a failure. */
    method Read(want: nat, buf: array<byte>) returns (ok: bool)
      requires want <= buf.Length && pos <= |data|
      modifies this`pos, buf
      ensures pos <= |data|
      ensures ok <==> old(pos) + want <= |data|
      ensures ok ==> pos == old(pos) + want && buf[..want] == data[old(pos)..pos]
    {
      ok := pos + want <= |data|;
      var got := if ok then want else |data| - pos;
      forall i | 0 <= i < got {
        buf[i] := data[pos + i];
      }
      pos := pos + got;
    }

    /** `ss_fp_skip`: past a record's table, a slice at a time. */
    method Skip(bytes: nat, buf: array<byte>) returns (ok: bool)
      requires buf.Length == SLICE && pos <= |data|
      modifies this`pos, buf
      ensures pos <= |data|
      ensures ok <==> old(pos) + bytes <= |data|
      ensures ok ==> pos == old(pos) + bytes
    {
      var left: nat := bytes;
      while left > 0
        invariant pos + left == old(pos) + bytes && pos <= |data|
      {
        var take := if left < SLICE then left else SLICE;
        ok := Read(take, buf);
        if !ok {
          return;
        }
        left := left - take;
      }
      ok := true;
    }

    /** One slice of the table, decoded into `table` from `at` on. */
    method ReadSlice(take: nat, buf: array<byte>, table: array<u32>, at: nat) returns (ok: bool)
      requires 4 * take <= buf.Length && at + take <= table.Length && pos <= |data|
      modifies this`pos, buf, table
      ensures pos <= |data| && (ok <==> old(pos) + 4 * take <= |data|)
      ensures !ok ==> table[..] == old(table[..])
      ensures ok ==> pos == old(pos) + 4 * take
                     && table[..] == old(table[..at]) + Values(data[old(pos)..pos]) + old(table[at + take..])
    {
      hide Values;
      ok := Read(4 * take, buf);
      if ok {
        GetValues(table, at, buf[..4 * take]);
      }
    }

    /** The table, in slices of 128 fingerprints, into `table` from `base` on. */
    method ReadTable(blocks: nat, buf: array<byte>, table: array<u32>, base: nat) returns (ok: bool)
      requires buf.Length == SLICE && base + blocks <= table.Length && pos <= |data|
      modifies this`pos, buf, table
      ensures pos <= |data|
      ensures ok <==> old(pos) + 4 * blocks <= |data|
      ensures table[..base] == old(table[..base]) && table[base + blocks..] == old(table[base + blocks..])
      ensures ok ==> table[base..base + blocks] == Values(data[old(pos)..old(pos) + 4 * blocks])
    {
      hide Loaded, Values;
      var left: nat, at: nat := blocks, 0;
      ghost var was, from := table[..], pos;
      NothingLoaded(was, base, data, from);
      while left > 0
        invariant left + at == blocks && pos == from + 4 * at <= |data|
        invariant Loaded(was, table[..], base, data, from, at)
      {
        var take := if left < SLICE / 4 then left else SLICE / 4;
        ghost var now := table[..];
        ok := ReadSlice(take, buf, table, base + at);
        if !ok {
          LoadedShape(was, now, base, data, from, at, blocks);
          return;
        }
        LoadedMore(was, now, table[..], base, data, from, at, take);
        at, left := at + take, left - take;
      }
      LoadedShape(was, table[..], base, data, from, at, blocks);
      ok := true;
    }
  }

  /** `n` fingerprints decoded from `data` at `from` sit in the table at `base`, the rest of it untouched. */
  ghost predicate Loaded(was: seq<u32>, now: seq<u32>, base: nat, data: seq<byte>, from: nat, n: nat) {
    && base + n <= |was| && from + 4 * n <= |data|
    && now == was[..base] + Values(data[from..from + 4 * n]) + was[base + n..]
  }

  lemma NothingLoaded(was: seq<u32>, base: nat, data: seq<byte>, from: nat)
    requires base <= |was| && from <= |data|
    ensures Loaded(was, was, base, data, from, 0)
  {
  }

  lemma LoadedMore(was: seq<u32>, now: seq<u32>, next: seq<u32>, base: nat, data: seq<byte>, from: nat, n: nat,
                   take: nat)
    requires Loaded(was, now, base, data, from, n) && base + n + take <= |was| && from + 4 * (n + take) <= |data|
    requires |now| == |was|
    requires next == now[..base + n] + Values(data[from + 4 * n..from + 4 * (n + take)]) + now[base + n + take..]
    ensures Loaded(was, next, base, data, from, n + take) && |next| == |was|
  {
    hide Values;
    var a, b := data[from..from + 4 * n], data[from + 4 * n..from + 4 * (n + take)];
    ValuesLen(a);
    ValuesLen(b);
    ValuesConcat(a, b);
    assert a + b == data[from..from + 4 * (n + take)];
    assert now[..base + n] == was[..base] + Values(a);
    assert now[base + n + take..] == was[base + n + take..];
  }

  lemma LoadedShape(was: seq<u32>, now: seq<u32>, base: nat, data: seq<byte>, from: nat, n: nat, blocks: nat)
    requires Loaded(was, now, base, data, from, n) && n <= blocks && base + blocks <= |was|
    ensures |now| == |was| && now[..base] == was[..base] && now[base + blocks..] == was[base + blocks..]
    ensures n == blocks ==> now[base..base + blocks] == Values(data[from..from + 4 * blocks])
  {
    hide Values;
    ValuesLen(data[from..from + 4 * n]);
  }

  lemma ValuesConcat(a: seq<byte>, b: seq<byte>)
    requires |a| % 4 == 0
    ensures Values(a + b) == Values(a) + Values(b)
  {
    var n := |a| / 4;
    forall i | 0 <= i < |a + b| / 4 ensures Values(a + b)[i] == (Values(a) + Values(b))[i] {
      if i < n {
        assert (a + b)[4 * i..4 * i + 4] == a[4 * i..4 * i + 4];
      } else {
        assert (a + b)[4 * i..4 * i + 4] == b[4 * (i - n)..4 * (i - n) + 4];
      }
    }
  }

  predicate AllZero(s: seq<byte>) {
    forall i | 0 <= i < |s| :: s[i] == 0
  }

  /** Which record the kernel accepts for a card whose server version is `parent`. */
  predicate Trusted(r: Record, parent: u32, size: u32, sha: Sha) {
    r.version == parent && r.size == size && (AllZero(sha) || r.sha == sha)
  }

  /** What the kernel should load: what the whole-file lookup finds, if it is for these very bytes. */
  function Loadable(file: Option<seq<byte>>, gameId: Id, slot: byte, parent: u32, size: u32, sha: Sha, share: nat)
    : Option<Entry>
  {
    if parent == 0 || size == 0 then None
    else
      match FoundIn(file, gameId, slot, share)
      case None => None
      case Some(e) => if Trusted(e.rec, parent, size, sha) then Some(e) else None
  }

  /**
   `ss_load_fingerprints`: reading 512 bytes at a time, it accepts exactly what the
   whole-file lookup finds and the version, size and digest checks allow, loads
   that table, and never touches another slot's share. Any bytes a FAT file can hold.
   */
  method LoadFingerprints(file: Option<Reader>, slot: byte, gameId: Id, parent: u32, size: u32, sha: Sha,
                          fingerprints: array<u32>, share: nat) returns (found: bool)
    requires NoNul(gameId) && fingerprints.Length >= share * (slot + 1)
    requires file.Some? ==> file.value.pos == 0 && |file.value.data| < WORD
    modifies if file.Some? then {file.value} else {}, fingerprints
    ensures var bytes := if file.None? then None else Some(file.value.data);
            var want := Loadable(bytes, gameId, slot, parent, size, sha, share);
            && (found <==> want.Some?)
            && (found ==> want.value.rec.blocks <= share
                          && fingerprints[share * slot..share * slot + want.value.rec.blocks]
                             == Values(want.value.values))
    ensures fingerprints[..share * slot] == old(fingerprints[..share * slot])
    ensures fingerprints[share * slot + share..] == old(fingerprints[share * slot + share..])
  {
    hide Counted, Values, Count, Ahead, Trusted, EntryAt;
    if parent == 0 || size == 0 || file.None? {
      return false;
    }
    var fd := file.value;
    var buf := new byte[SLICE](_ => 0);
    var ok := fd.Read(HEADER_SIZE, buf);
    HeaderDecides(fd.data);
    CountedIsAhead(fd.data);
    if !ok {
      return false;
    }
    var records := Count(buf[..HEADER_SIZE]);
    if records < 0 {
      return false;
    }
    var ours := Seek(fd, records, gameId, slot, buf);
    if ours.None? {
      return false;
    }
    found := LoadOurs(fd, ours.value, buf, parent, size, sha, fingerprints, share * slot, share);
  }

  /** Forward to our record, past every other card's table; the file is left at the start of ours. */
  method Seek(fd: Reader, records: nat, gameId: Id, slot: byte, buf: array<byte>) returns (r: Option<Record>)
    requires buf.Length == SLICE && fd.pos == HEADER_SIZE <= |fd.data| < WORD && NoNul(gameId)
    modifies fd`pos, buf
    ensures fd.pos <= |fd.data|
    ensures match Lookup(Ahead(fd.data, HEADER_SIZE, records), gameId, slot)
            case None => r.None? || fd.pos + 4 * r.value.blocks > |fd.data|
            case Some(e) => r == Some(e.rec) && fd.pos + 4 * e.rec.blocks <= |fd.data|
                            && e.values == fd.data[fd.pos..fd.pos + 4 * e.rec.blocks]
  {
    hide SameName, EntryAt, GetRecord;
    var i := 0;
    while i < records
      invariant 0 <= i <= records && fd.pos <= |fd.data|
      invariant Lookup(Ahead(fd.data, HEADER_SIZE, records), gameId, slot)
                == Lookup(Ahead(fd.data, fd.pos, records - i), gameId, slot)
    {
      LookupAhead(fd.data, fd.pos, records - i, gameId, slot);
      EntryAtSteps(fd.data, fd.pos);
      var ok := fd.Read(RECORD_SIZE, buf);
      if !ok {
        return None;
      }
      r := GetRecord(buf[..RECORD_SIZE]);
      if r.None? {
        return;
      }
      FullNamesCompare(r.value.gameId, gameId);
      if r.value.slot == slot && r.value.gameId == gameId {
        return;
      }
      ok := fd.Skip(4 * r.value.blocks, buf);
      if !ok {
        return None;
      }
      i := i + 1;
    }
    r := None;
  }

  /** Our record: every check, then the table. */
  method LoadOurs(fd: Reader, r: Record, buf: array<byte>, parent: u32, size: u32, sha: Sha,
                  fingerprints: array<u32>, base: nat, share: nat) returns (found: bool)
    requires buf.Length == SLICE && fingerprints.Length >= base + share && fd.pos <= |fd.data|
    modifies fd`pos, buf, fingerprints
    ensures fingerprints[..base] == old(fingerprints[..base]) &&
            fingerprints[base + share..] == old(fingerprints[base + share..])
    ensures found <==> Trusted(r, parent, size, sha) && r.blocks <= share && old(fd.pos) + 4 * r.blocks <= |fd.data|
    ensures found ==> fingerprints[base..base + r.blocks] == Values(fd.data[old(fd.pos)..old(fd.pos) + 4 * r.blocks])
  {
    hide Values;
    if r.version != parent || r.size != size || r.blocks > share {
      return false;
    }
    if !AllZero(sha) && r.sha != sha {
      return false;
    }
    ghost var was := fingerprints[..];
    found := fd.ReadTable(r.blocks, buf, fingerprints, base);
    assert fingerprints[base + share..] == fingerprints[base + r.blocks..][share - r.blocks..];
    assert was[base + share..] == was[base + r.blocks..][share - r.blocks..];
  }

  lemma CountedIsAhead(store: seq<byte>)
    ensures Counted(store) == if Count(store) < 0 then [] else Ahead(store, HEADER_SIZE, Count(store))
  {
    if Count(store) >= 0 {
      AheadIsWalk(store, HEADER_SIZE, Count(store));
    }
  }

  /** The header alone decides whether a file is a store. */
  lemma HeaderDecides(store: seq<byte>)
    ensures |store| < HEADER_SIZE ==> Count(store) < 0
    ensures |store| >= HEADER_SIZE ==> Count(store[..HEADER_SIZE]) == Count(store)
  {
    if |store| >= HEADER_SIZE {
      var h := store[..HEADER_SIZE];
      assert h[..4] == store[..4] && h[8..12] == store[8..12] && h[6..8] == store[6..8];
    }
  }

  /** An entry, read in the order the kernel reads it. */
  lemma EntryAtSteps(store: seq<byte>, at: nat)
    requires at <= |store| < WORD
    ensures |store| < at + RECORD_SIZE ==> EntryAt(store, at) == None
    ensures |store| >= at + RECORD_SIZE ==>
              var (from, rec) := (at + RECORD_SIZE, GetRecord(store[at..at + RECORD_SIZE]));
              EntryAt(store, at) == if rec.None? || from + 4 * rec.value.blocks > |store| then None
                                    else Some(Entry(rec.value, store[from..from + 4 * rec.value.blocks]))
  {
  }
}
