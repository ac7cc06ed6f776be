/**
 Memory card structure: the checksum pair, block chains in the allocation table,
 and a save's comment read back through its chain.
 */
module Memcard {
  import opened Bytes
  import opened Store

  const BLOCK := 0x2000
  const FST_BLOCKS := 5
  const BAT_MAP_ENTRIES := 0xFFB
  const BAT_MAP_OFF := 0x000A
  const END_OF_CHAIN := 0xFFFF
  const COMMENT := 64
  const U16 := 0x1_0000

  // ----- checksums

  /** The big-endian words of an even-length range. */
  function Words(data: seq<byte>): (w: seq<u16>)
    requires |data| % 2 == 0
    ensures |w| == |data| / 2
  {
    seq(|data| / 2, i requires 0 <= i < |data| / 2 => GetU16(data[2 * i..2 * i + 2]))
  }

  function Sum(w: seq<u16>): nat
  {
    if w == [] then 0 else Sum(w[..|w| - 1]) + w[|w| - 1]
  }

  /** A sum of 0xFFFF is stored as 0. */
  function Normal(v: nat): nat
  {
    if v == 0xFFFF then 0 else v
  }

  /** The pair: the sum of the words, and the sum of their complements. */
  function Pair(w: seq<u16>): (nat, nat)
  {
    (Normal(Sum(w) % U16), Normal((0xFFFF * |w| - Sum(w)) % U16))
  }

  lemma {:induction false} SumBound(w: seq<u16>)
    ensures Sum(w) <= 0xFFFF * |w|
  {
    if w != [] {
      SumBound(w[..|w| - 1]);
    }
  }

  /** `checksums`; None is the ValueError for an odd range. */
  method Checksums(data: seq<byte>) returns (r: Option<(nat, nat)>)
    ensures r == if |data| % 2 == 0 then Some(Pair(Words(data))) else None
  {
    if |data| % 2 != 0 {
      return None;
    }
    ghost var w := Words(data);
    var total, inverse := 0, 0;
    var i := 0;
    while i < |data| / 2
      invariant 0 <= i <= |data| / 2
      invariant total == Sum(w[..i]) && inverse == 0xFFFF * i - total
    {
      var word: u16 := GetU16(data[2 * i..2 * i + 2]);
      assert w[..i + 1][..i] == w[..i];
      total := total + word;
      inverse := inverse + (0xFFFF - word);
      i := i + 1;
    }
    assert w[..i] == w;
    r := Some((Normal(total % U16), Normal(inverse % U16)));
  }

  lemma {:induction false} OneWordMovesSum(a: seq<u16>, b: seq<u16>, i: nat)
    requires |a| == |b| && i < |a| && forall j | 0 <= j < |a| && j != i :: a[j] == b[j]
    ensures Sum(b) == Sum(a) - a[i] + b[i]
  {
    var n := |a| - 1;
    if i == n {
      assert a[..n] == b[..n];
    } else {
      OneWordMovesSum(a[..n], b[..n], i);
    }
  }

  /** The complement sum, from the sum and the word count. */
  lemma InverseOf(n: nat, total: nat)
    requires total <= 0xFFFF * n
    ensures (0xFFFF * n - total) % U16 == (2 * U16 - n % U16 - total % U16) % U16
  {
    var q, r := n / U16, n % U16;
    var p, t := total / U16, total % U16;
    assert 0xFFFF * n - total == U16 * (n - p) - n - t;
    assert 0xFFFF * n - total == U16 * (n - p - q - 2) + (2 * U16 - r - t);
    ModShift(2 * U16 - r - t, n - p - q - 2);
  }

  lemma ModShift(x: int, k: int)
    ensures (U16 * k + x) % U16 == x % U16
  {
  }

  /**
   Exactly when a single corrupted word slips through both sums: the word count is 1
   modulo 65536, and the sum moved between 0 and 0xFFFF, which are both stored as 0.
   */
  lemma SingleWordCorruption(a: seq<u16>, b: seq<u16>, i: nat)
    requires |a| == |b| && i < |a| && a[i] != b[i] && forall j | 0 <= j < |a| && j != i :: a[j] == b[j]
    ensures Pair(a) == Pair(b) <==>
              |a| % U16 == 1 && {Sum(a) % U16, Sum(b) % U16} == {0, 0xFFFF}
  {
    var n, x, y := |a|, Sum(a), Sum(b);
    OneWordMovesSum(a, b, i);
    SumBound(a);
    SumBound(b);
    InverseOf(n, x);
    InverseOf(n, y);
    var s, t, r := x % U16, y % U16, n % U16;
    SumsDiffer(x, y, a[i], b[i]);
    var u, v := (2 * U16 - r - s) % U16, (2 * U16 - r - t) % U16;
    PairsCollide(s, t, r, u, v);
    SetOfTwo(s, t);
  }

  lemma SetOfTwo(s: nat, t: nat)
    ensures {s, t} == {0, 0xFFFF} <==> (s == 0 && t == 0xFFFF) || (s == 0xFFFF && t == 0)
  {
    assert s in {s, t} && t in {s, t};
    if {s, t} == {0, 0xFFFF} {
      assert s in {0, 0xFFFF} && t in {0, 0xFFFF} && 0 in {s, t} && 0xFFFF in {s, t};
    }
  }

  lemma SumsDiffer(x: nat, y: nat, v: u16, w: u16)
    requires y == x - v + w && v != w
    ensures x % U16 != y % U16
  {
    assert w - v == U16 * (y / U16 - x / U16) + (y % U16 - x % U16);
  }

  lemma PairsCollide(s: nat, t: nat, r: nat, u: nat, v: nat)
    requires s < U16 && t < U16 && r < U16 && s != t
    requires u == (2 * U16 - r - s) % U16 && v == (2 * U16 - r - t) % U16
    ensures Normal(s) == Normal(t) && Normal(u) == Normal(v) <==>
              r == 1 && ((s == 0 && t == 0xFFFF) || (s == 0xFFFF && t == 0))
  {
  }

  /** A structured block: the range its checksum covers, and where the pair is stored. */
  datatype Layout = Layout(from: nat, to: nat, at: nat)

  const HEADER := Layout(0, 0x01FC, 0x01FC)
  const DIRECTORY := Layout(0, 0x1FFC, 0x1FFC)
  const BAT := Layout(4, 0x2000, 0)

  predicate IsLayout(l: Layout) {
    l == HEADER || l == DIRECTORY || l == BAT
  }

  /** `header_checksum_ok`, `directory_checksum_ok` and `bat_checksum_ok`. */
  predicate ChecksumOk(l: Layout, block: seq<byte>)
    requires IsLayout(l) && |block| == BLOCK
  {
    Pair(Words(block[l.from..l.to])) == (GetU16(block[l.at..l.at + 2]) as int, GetU16(block[l.at + 2..l.at + 4]) as int)
  }

  /** One aligned word of a block changed, in the covered range or in the stored pair: never both intact. */
  lemma CorruptionIsCaught(l: Layout, a: seq<byte>, b: seq<byte>, k: nat)
    requires IsLayout(l) && |a| == |b| == BLOCK && 2 * k + 2 <= BLOCK
    requires l.from <= 2 * k < l.to || l.at <= 2 * k < l.at + 4
    requires a[2 * k..2 * k + 2] != b[2 * k..2 * k + 2]
    requires forall j | 0 <= j < BLOCK && j / 2 != k :: a[j] == b[j]
    ensures !(ChecksumOk(l, a) && ChecksumOk(l, b))
  {
    hide Pair, Words;
    PutGetU16(a[2 * k..2 * k + 2]);
    PutGetU16(b[2 * k..2 * k + 2]);
    SameWord(a, b, k, l.at);
    SameWord(a, b, k, l.at + 2);
    if l.from <= 2 * k < l.to {
      CoveredWord(l.from, l.to, a, b, k);
    } else {
      assert a[l.from..l.to] == b[l.from..l.to];
    }
  }

  /** A word changed in the covered range changes the pair. */
  lemma CoveredWord(from: nat, to: nat, a: seq<byte>, b: seq<byte>, k: nat)
    requires |a| == |b| && from % 2 == to % 2 == 0 && from <= 2 * k < to <= |a| && to - from < 2 * U16 && to - from != 2
    requires a[2 * k..2 * k + 2] != b[2 * k..2 * k + 2]
    requires forall j | 0 <= j < |a| && j / 2 != k :: a[j] == b[j]
    ensures Pair(Words(a[from..to])) != Pair(Words(b[from..to]))
  {
    hide Pair, Words;
    var wa, wb, i := Words(a[from..to]), Words(b[from..to]), k - from / 2;
    forall j | 0 <= j < |wa| && j != i ensures wa[j] == wb[j] {
      SameWord(a, b, k, from + 2 * j);
      WordAt(a, from, to, j);
      WordAt(b, from, to, j);
    }
    WordAt(a, from, to, i);
    WordAt(b, from, to, i);
    PutGetU16(a[2 * k..2 * k + 2]);
    PutGetU16(b[2 * k..2 * k + 2]);
    SingleWordCorruption(wa, wb, i);
  }

  lemma WordAt(s: seq<byte>, from: nat, to: nat, j: nat)
    requires from % 2 == to % 2 == 0 && from + 2 * j < to <= |s|
    ensures Words(s[from..to])[j] == GetU16(s[from + 2 * j..from + 2 * j + 2])
  {
    var t := s[from..to];
    assert t[2 * j..2 * j + 2] == [t[2 * j], t[2 * j + 1]];
    assert s[from + 2 * j..from + 2 * j + 2] == [t[2 * j], t[2 * j + 1]];
  }

  lemma SameWord(a: seq<byte>, b: seq<byte>, k: nat, at: nat)
    requires |a| == |b| && at % 2 == 0 && at + 2 <= |a| && forall j | 0 <= j < |a| && j / 2 != k :: a[j] == b[j]
    ensures at != 2 * k ==> a[at..at + 2] == b[at..at + 2]
  {
  }

  // ----- choosing between a block and its backup

  function BlockAt(image: seq<byte>, index: nat): (s: seq<byte>)
    requires BLOCK * (index + 1) <= |image|
    ensures |s| == BLOCK
  {
    image[BLOCK * index..BLOCK * (index + 1)]
  }

  /** A 16-bit field read as signed. */
  function Signed(v: u16): int {
    if v < 0x8000 then v else v - U16
  }

  /** Which of a block and its backup is read. */
  function PickedCopy(image: seq<byte>, first: nat, l: Layout, counterAt: nat): Option<seq<byte>>
    requires IsLayout(l) && BLOCK * (first + 2) <= |image| && counterAt + 2 <= BLOCK
  {
    var primary, backup := BlockAt(image, first), BlockAt(image, first + 1);
    if !ChecksumOk(l, primary) && !ChecksumOk(l, backup) then None
    else if !ChecksumOk(l, backup) then Some(primary)
    else if !ChecksumOk(l, primary) then Some(backup)
    else if Signed(GetU16(primary[counterAt..counterAt + 2])) < Signed(GetU16(backup[counterAt..counterAt + 2])) then
      Some(backup)
    else Some(primary)
  }

  /**
   `_pick_copy`: reject only when both copies are bad; of two good ones the higher update counter,
   ties to the primary.
   */
  method PickCopy(image: seq<byte>, first: nat, l: Layout, counterAt: nat) returns (r: Option<(seq<byte>, nat)>)
    requires IsLayout(l) && BLOCK * (first + 2) <= |image| && counterAt + 2 <= BLOCK
    ensures PickedCopy(image, first, l, counterAt) == if r.None? then None else Some(r.value.0)
    ensures r.None? <==> !ChecksumOk(l, BlockAt(image, first)) && !ChecksumOk(l, BlockAt(image, first + 1))
    ensures r.Some? ==> r.value.1 <= 1 && r.value.0 == BlockAt(image, first + r.value.1) && ChecksumOk(l, r.value.0)
    ensures r.Some? && ChecksumOk(l, BlockAt(image, first)) && ChecksumOk(l, BlockAt(image, first + 1)) ==>
              (r.value.1 == 1 <==> Signed(GetU16(BlockAt(image, first)[counterAt..counterAt + 2]))
                                   < Signed(GetU16(BlockAt(image, first + 1)[counterAt..counterAt + 2])))
  {
    hide ChecksumOk;
    var primary, backup := BlockAt(image, first), BlockAt(image, first + 1);
    var primaryOk, backupOk := ChecksumOk(l, primary), ChecksumOk(l, backup);
    if !primaryOk && !backupOk {
      return None;
    }
    if primaryOk && !backupOk {
      return Some((primary, 0));
    }
    if backupOk && !primaryOk {
      return Some((backup, 1));
    }
    if Signed(GetU16(primary[counterAt..counterAt + 2])) >= Signed(GetU16(backup[counterAt..counterAt + 2])) {
      return Some((primary, 0));
    }
    r := Some((backup, 1));
  }

  // ----- block chains

  /** The map entry of a block the table has one for. */
  function MapAt(bat: seq<byte>, block: nat): nat
    requires |bat| == BLOCK
  {
    var at := BAT_MAP_OFF + 2 * (block - FST_BLOCKS);
    if FST_BLOCKS <= block < FST_BLOCKS + BAT_MAP_ENTRIES then GetU16(bat[at..at + 2]) else 0
  }

  /** The blocks met following the map from `block`. */
  function Follow(bat: seq<byte>, block: nat, count: nat): (s: seq<nat>)
    requires |bat| == BLOCK
    ensures |s| == count
    decreases count
  {
    if count == 0 then [] else [block] + Follow(bat, MapAt(bat, block), count - 1)
  }

  predicate OnCard(block: nat, blockMax: nat) {
    FST_BLOCKS <= block < blockMax && block < FST_BLOCKS + BAT_MAP_ENTRIES
  }

  ghost predicate Distinct(s: seq<nat>) {
    forall i, j | 0 <= i < j < |s| :: s[i] != s[j]
  }

  ghost predicate Sound(s: seq<nat>, blockMax: nat) {
    (forall i | 0 <= i < |s| :: OnCard(s[i], blockMax)) && Distinct(s)
  }

  lemma {:induction false} FollowNext(bat: seq<byte>, block: nat, count: nat, i: nat)
    requires |bat| == BLOCK && i + 1 < count
    ensures Follow(bat, block, count)[i + 1] == MapAt(bat, Follow(bat, block, count)[i])
    decreases count
  {
    if i == 0 {
      assert Follow(bat, block, count)[1] == Follow(bat, MapAt(bat, block), count - 1)[0];
    } else {
      FollowNext(bat, MapAt(bat, block), count - 1, i - 1);
    }
  }

  /** `_walk_chain`: the chain exactly when every block met is on the card and none is met twice. */
  method WalkChain(bat: seq<byte>, first: nat, count: nat, blockMax: nat) returns (chain: Option<seq<nat>>)
    requires |bat| == BLOCK
    ensures Sound(Follow(bat, first, count), blockMax) <==> chain.Some?
    ensures chain.Some? ==> chain.value == Follow(bat, first, count)
  {
    hide Follow, MapAt;
    ghost var all := Follow(bat, first, count);
    var out: seq<nat> := [];
    var seen: set<nat> := {};
    var block := first;
    if count > 0 {
      FirstOf(bat, first, count);
    }
    while |out| < count
      invariant |out| <= count && out == all[..|out|]
      invariant |out| < count ==> block == all[|out|]
      invariant Sound(out, blockMax) && seen == set i | 0 <= i < |out| :: out[i]
      decreases count - |out|
    {
      if block == END_OF_CHAIN || block == 0 || block < FST_BLOCKS || block >= blockMax || block in seen
         || block - FST_BLOCKS >= BAT_MAP_ENTRIES {
        assert !Sound(all, blockMax) by {
          if block in seen {
            var i :| 0 <= i < |out| && out[i] == block;
            assert all[i] == all[|out|];
          } else {
            assert !OnCard(all[|out|], blockMax);
          }
        }
        return None;
      }
      if |out| + 1 < count {
        FollowNext(bat, first, count, |out|);
      }
      seen := seen + {block};
      out := out + [block];
      block := MapAt(bat, block);
    }
    assert all[..count] == all;
    chain := Some(out);
  }

  lemma FirstOf(bat: seq<byte>, block: nat, count: nat)
    requires |bat| == BLOCK && count > 0
    ensures Follow(bat, block, count)[0] == block
  {
  }

  // ----- laying saves out

  /** One save to write: what its directory entry says, its size in blocks, and its comment's 64 bytes and place. */
  datatype SaveSpec = SaveSpec(
    code: seq<byte>,
    maker: seq<byte>,
    name: seq<byte>,
    blocks: nat,
    address: u32,
    comment: seq<byte>)
  {
    /** Every text is padded to its field. */
    predicate Padded() {
      |code| == 4 && |maker| == 2 && |name| == 32 && |comment| == COMMENT
    }
  }

  /** `range(from, to)`. */
  function Range(from: nat, to: nat): (s: seq<nat>)
    ensures |s| == if from <= to then to - from else 0
    ensures forall i | 0 <= i < |s| :: s[i] == from + i
  {
    if from <= to then seq(to - from, i requires 0 <= i => from + i) else []
  }

  /** `s[first::2]`. */
  function EveryOther(s: seq<nat>, first: nat): (r: seq<nat>)
    ensures forall i | 0 <= i < |r| :: first + 2 * i < |s| && r[i] == s[first + 2 * i]
    ensures first <= |s| ==> |r| == (|s| - first + 1) / 2
  {
    var n := if first <= |s| then (|s| - first + 1) / 2 else 0;
    seq(n, i requires 0 <= i < n => s[first + 2 * i])
  }

  /** The order blocks are handed out in; `fragment` interleaves so that no run is contiguous. */
  function FreeList(dataBlocks: nat, fragment: bool): seq<nat>
  {
    hide Range, EveryOther;
    var all := Range(FST_BLOCKS, FST_BLOCKS + dataBlocks);
    if fragment && all != [] then EveryOther(all, 0) + EveryOther(all, 1) else all
  }

  lemma FreeListIsSound(dataBlocks: nat, fragment: bool)
    requires dataBlocks <= BAT_MAP_ENTRIES
    ensures |FreeList(dataBlocks, fragment)| == dataBlocks
    ensures Sound(FreeList(dataBlocks, fragment), FST_BLOCKS + dataBlocks)
  {
    hide Range, EveryOther;
    if fragment && dataBlocks > 0 {
      InterleavedIsSound(Range(FST_BLOCKS, FST_BLOCKS + dataBlocks), FST_BLOCKS);
    }
  }

  /** A range taken in two strides is each of its members once. */
  lemma InterleavedIsSound(all: seq<nat>, base: nat)
    requires base >= FST_BLOCKS && forall i | 0 <= i < |all| :: all[i] == base + i
    requires all != [] && base + |all| <= FST_BLOCKS + BAT_MAP_ENTRIES
    ensures var list := EveryOther(all, 0) + EveryOther(all, 1); |list| == |all| && Sound(list, base + |all|)
  {
    hide EveryOther;
    var even, odd := EveryOther(all, 0), EveryOther(all, 1);
    assert |even| == (|all| + 1) / 2 && |odd| == |all| / 2;
    forall i, j | 0 <= i < |even| && 0 <= j < |odd| ensures even[i] != odd[j] {
      assert even[i] == base + 2 * i && odd[j] == base + 1 + 2 * j;
    }
    forall x | x in even || x in odd ensures base <= x < base + |all| {
    }
    var list := even + odd;
    forall i, j | 0 <= i < j < |list| ensures list[i] != list[j] {
      if j < |even| {
        assert list[i] == base + 2 * i && list[j] == base + 2 * j;
      } else if i >= |even| {
        assert list[i] == base + 1 + 2 * (i - |even|) && list[j] == base + 1 + 2 * (j - |even|);
      }
    }
  }

  function Needed(saves: seq<SaveSpec>): nat
  {
    if saves == [] then 0 else Needed(saves[..|saves| - 1]) + saves[|saves| - 1].blocks
  }

  /** Each save's chain: the next `blocks` of the free list. */
  function Chain(free: seq<nat>, saves: seq<SaveSpec>, k: nat): seq<nat>
    requires k < |saves| && Needed(saves) <= |free|
  {
    NeededGrows(saves, k);
    free[Needed(saves[..k])..Needed(saves[..k]) + saves[k].blocks]
  }

  lemma {:induction false} NeededGrows(saves: seq<SaveSpec>, k: nat)
    requires k < |saves|
    ensures Needed(saves[..k]) + saves[k].blocks == Needed(saves[..k + 1]) <= Needed(saves)
  {
    assert saves[..k + 1][..k] == saves[..k];
    if k + 1 < |saves| {
      var front := saves[..|saves| - 1];
      assert front[..k] == saves[..k] && front[..k + 1] == saves[..k + 1];
      NeededGrows(front, k);
    } else {
      assert saves[..k + 1] == saves;
    }
  }

  lemma {:induction false} NeededOrdered(saves: seq<SaveSpec>, j: nat, k: nat)
    requires j < k <= |saves|
    ensures Needed(saves[..j + 1]) <= Needed(saves[..k])
    decreases k - j
  {
    if j + 1 < k {
      NeededOrdered(saves, j, k - 1);
      NeededGrows(saves, k - 1);
    }
  }

  /** Chains are sound and never share a block. */
  lemma ChainsAreDisjoint(free: seq<nat>, saves: seq<SaveSpec>, blockMax: nat, j: nat, k: nat)
    requires Sound(free, blockMax) && Needed(saves) <= |free| && j < k < |saves|
    ensures Sound(Chain(free, saves, j), blockMax) && Sound(Chain(free, saves, k), blockMax)
    ensures forall a, b | 0 <= a < |Chain(free, saves, j)| && 0 <= b < |Chain(free, saves, k)| ::
              Chain(free, saves, j)[a] != Chain(free, saves, k)[b]
  {
    NeededGrows(saves, j);
    NeededGrows(saves, k);
    NeededOrdered(saves, j, k);
    var x, y := Needed(saves[..j]), Needed(saves[..k]);
    forall a, b | 0 <= a < |Chain(free, saves, j)| && 0 <= b < |Chain(free, saves, k)|
      ensures Chain(free, saves, j)[a] != Chain(free, saves, k)[b]
    {
      assert free[x + a] != free[y + b];
    }
  }

  // ----- the allocation table

  /** The map links the blocks of `chain` in order and ends it. */
  ghost predicate Linked(bat: seq<byte>, chain: seq<nat>)
    requires |bat| == BLOCK
  {
    forall i | 0 <= i < |chain| :: MapAt(bat, chain[i]) == if i + 1 < |chain| then chain[i + 1] else END_OF_CHAIN
  }

  /** Following a linked chain from its first block gives the chain. */
  lemma {:induction false} LinkedIsFollowed(bat: seq<byte>, chain: seq<nat>)
    requires |bat| == BLOCK && chain != [] && Linked(bat, chain)
    ensures Follow(bat, chain[0], |chain|) == chain
  {
    hide MapAt;
    if |chain| > 1 {
      forall i | 0 <= i < |chain[1..]|
        ensures MapAt(bat, chain[1..][i]) == if i + 1 < |chain[1..]| then chain[1..][i + 1] else END_OF_CHAIN
      {
        assert chain[1..][i] == chain[i + 1];
        assert MapAt(bat, chain[i + 1]) == if i + 2 < |chain| then chain[i + 2] else END_OF_CHAIN;
        assert i + 2 < |chain| ==> chain[1..][i + 1] == chain[i + 2];
      }
      LinkedIsFollowed(bat, chain[1..]);
      assert MapAt(bat, chain[0]) == chain[1];
    } else {
      assert Follow(bat, chain[0], 1) == [chain[0]] + Follow(bat, MapAt(bat, chain[0]), 0);
    }
  }

  /** Set one map entry. */
  method SetMap(bat: array<byte>, block: nat, v: u16)
    requires bat.Length == BLOCK && FST_BLOCKS <= block < FST_BLOCKS + BAT_MAP_ENTRIES
    modifies bat
    ensures MapAt(bat[..], block) == v
    ensures forall other: nat | other != block :: MapAt(bat[..], other) == MapAt(old(bat[..]), other)
    ensures bat[..BAT_MAP_OFF] == old(bat[..BAT_MAP_OFF])
  {
    var at, bytes := BAT_MAP_OFF + 2 * (block - FST_BLOCKS), PutU16(v);
    bat[at], bat[at + 1] := bytes[0], bytes[1];
    assert bat[..][at..at + 2] == bytes;
    forall other: nat | other != block ensures MapAt(bat[..], other) == MapAt(old(bat[..]), other) {
      if FST_BLOCKS <= other < FST_BLOCKS + BAT_MAP_ENTRIES {
        var o := BAT_MAP_OFF + 2 * (other - FST_BLOCKS);
        assert bat[..][o..o + 2] == old(bat[..])[o..o + 2];
      }
    }
  }

  /** Link one chain; blocks of no chain keep their entries. */
  method LinkChain(bat: array<byte>, chain: seq<nat>, ghost blockMax: nat)
    requires bat.Length == BLOCK && Sound(chain, blockMax) && blockMax <= END_OF_CHAIN
    modifies bat
    ensures Linked(bat[..], chain)
    ensures forall other: nat | other !in chain :: MapAt(bat[..], other) == MapAt(old(bat[..]), other)
    ensures bat[..BAT_MAP_OFF] == old(bat[..BAT_MAP_OFF])
  {
    hide MapAt;
    var i := 0;
    while i < |chain|
      invariant 0 <= i <= |chain|
      invariant forall j | 0 <= j < i ::
                  MapAt(bat[..], chain[j]) == if j + 1 < |chain| then chain[j + 1] else END_OF_CHAIN
      invariant forall other: nat | other !in chain :: MapAt(bat[..], other) == MapAt(old(bat[..]), other)
      invariant bat[..BAT_MAP_OFF] == old(bat[..BAT_MAP_OFF])
    {
      assert OnCard(chain[i], blockMax);
      assert i + 1 < |chain| ==> OnCard(chain[i + 1], blockMax);
      SetMap(bat, chain[i], if i + 1 < |chain| then chain[i + 1] else END_OF_CHAIN);
      i := i + 1;
    }
  }

  /** Every save's chain, one after another: all of them linked at the end. */
  method LinkAll(bat: array<byte>, free: seq<nat>, saves: seq<SaveSpec>, ghost blockMax: nat)
    requires bat.Length == BLOCK && Sound(free, blockMax) && blockMax <= END_OF_CHAIN && Needed(saves) <= |free|
    modifies bat
    ensures forall k | 0 <= k < |saves| :: Linked(bat[..], Chain(free, saves, k))
  {
    hide MapAt, Chain, Sound;
    var k := 0;
    while k < |saves|
      invariant 0 <= k <= |saves|
      invariant forall j | 0 <= j < k :: Linked(bat[..], Chain(free, saves, j))
    {
      ghost var was := bat[..];
      ChainIsSound(free, saves, blockMax, k);
      LinkChain(bat, Chain(free, saves, k), blockMax);
      forall j | 0 <= j < k ensures Linked(bat[..], Chain(free, saves, j)) {
        ChainsAreDisjoint(free, saves, blockMax, j, k);
      }
      k := k + 1;
    }
  }

  lemma ChainIsSound(free: seq<nat>, saves: seq<SaveSpec>, blockMax: nat, k: nat)
    requires Sound(free, blockMax) && Needed(saves) <= |free| && k < |saves|
    ensures Sound(Chain(free, saves, k), blockMax) && |Chain(free, saves, k)| == saves[k].blocks
  {
    NeededGrows(saves, k);
  }

  // ----- the data

  /** A save's own stream: its blocks concatenated in chain order. */
  function Stream(image: seq<byte>, chain: seq<nat>): (s: seq<byte>)
    requires forall i | 0 <= i < |chain| :: BLOCK * (chain[i] + 1) <= |image|
    ensures |s| == BLOCK * |chain|
  {
    if chain == [] then [] else Stream(image, chain[..|chain| - 1]) + BlockAt(image, chain[|chain| - 1])
  }

  lemma {:induction false} StreamAt(image: seq<byte>, chain: seq<nat>, i: nat)
    requires forall j | 0 <= j < |chain| :: BLOCK * (chain[j] + 1) <= |image|
    requires i < |chain|
    ensures Stream(image, chain)[BLOCK * i..BLOCK * (i + 1)] == BlockAt(image, chain[i])
  {
    hide BlockAt;
    var n := |chain| - 1;
    var front, last := Stream(image, chain[..n]), BlockAt(image, chain[n]);
    if i < n {
      StreamAt(image, chain[..n], i);
      assert (front + last)[BLOCK * i..BLOCK * (i + 1)] == front[BLOCK * i..BLOCK * (i + 1)];
    } else {
      assert |last| == BLOCK;
    }
  }

  /** What the bytes of a card of `blockMax` blocks must be able to hold. */
  predicate CardSized(image: seq<byte>, blockMax: nat) {
    |image| == BLOCK * blockMax
  }

  lemma OnCardFits(image: seq<byte>, blockMax: nat, block: nat)
    requires CardSized(image, blockMax) && OnCard(block, blockMax)
    ensures BLOCK * (block + 1) <= |image|
  {
  }

  /**
   `_read_comments` up to text decoding: nothing when the address or the chain is
   bad, else exactly the 64 bytes at `address` in the save's own stream, even when
   they straddle two blocks that are nowhere near each other on the card.
   */
  method ReadComments(bat: seq<byte>, image: seq<byte>, first: nat, count: nat, address: u32, blockMax: nat)
    returns (out: Option<seq<byte>>)
    requires |bat| == BLOCK && CardSized(image, blockMax)
    ensures var chain := Follow(bat, first, count);
            && (out.Some? <==> address != 0xFFFF_FFFF && address + COMMENT <= BLOCK * count && Sound(chain, blockMax))
            && (out.Some? ==> (forall i | 0 <= i < |chain| :: BLOCK * (chain[i] + 1) <= |image|)
                              && out.value == Stream(image, chain)[address..address + COMMENT])
  {
    hide Follow, Stream, BlockAt;
    if address == 0xFFFF_FFFF || address + COMMENT > BLOCK * count {
      return None;
    }
    var walked := WalkChain(bat, first, count, blockMax);
    if walked.None? {
      return None;
    }
    var chain := walked.value;
    forall i | 0 <= i < |chain| ensures BLOCK * (chain[i] + 1) <= |image| {
      OnCardFits(image, blockMax, chain[i]);
    }
    var index, offset := address / BLOCK, address % BLOCK;
    var wanted, bytes: seq<byte> := COMMENT, [];
    ghost var stream := Stream(image, chain);
    while wanted > 0 && index < |chain|
      invariant 0 <= wanted <= COMMENT && |bytes| == COMMENT - wanted && 0 <= offset < BLOCK
      invariant wanted > 0 ==> BLOCK * index + offset == address + |bytes|
      invariant bytes == stream[address..address + |bytes|]
      decreases wanted
    {
      var take := if wanted < BLOCK - offset then wanted else BLOCK - offset;
      StreamAt(image, chain, index);
      Slices(stream, BLOCK * index, BLOCK * (index + 1), offset, offset + take);
      ghost var was := |bytes|;
      bytes := bytes + BlockAt(image, chain[index])[offset..offset + take];
      assert stream[address..address + was] + stream[address + was..address + was + take]
             == stream[address..address + was + take];
      wanted, index, offset := wanted - take, index + 1, 0;
    }
    out := Some(bytes);
  }

  lemma Slices(s: seq<byte>, a: nat, b: nat, c: nat, d: nat)
    requires a <= b <= |s| && c <= d <= b - a
    ensures s[a..b][c..d] == s[a + c..a + d]
  {
    var l, r := s[a..b][c..d], s[a + c..a + d];
    forall i | 0 <= i < |l| ensures l[i] == r[i] {
      assert l[i] == s[a..b][c + i];
    }
  }

  /** Python's `buf[at:at + len(piece)] = piece`, which grows the buffer past its end. */
  function PySplice(buf: seq<byte>, at: nat, piece: seq<byte>): (r: seq<byte>)
    ensures |r| >= |buf|
    ensures at + |piece| <= |buf| ==> r == Splice(buf, at, piece)
  {
    if at >= |buf| then buf + piece
    else if at + |piece| >= |buf| then buf[..at] + piece
    else Splice(buf, at, piece)
  }

  /** A save's bytes: zeros with the two 32-byte strings written in. */
  function Payload(spec: SaveSpec): (s: seq<byte>)
    requires |spec.comment| == COMMENT
    ensures |s| >= BLOCK * spec.blocks
  {
    var half := COMMENT / 2;
    var front := PySplice(Zeros(BLOCK * spec.blocks), spec.address, spec.comment[..half]);
    PySplice(front, spec.address + half, spec.comment[half..])
  }

  lemma PayloadHolds(spec: SaveSpec)
    requires |spec.comment| == COMMENT && spec.address + COMMENT <= BLOCK * spec.blocks
    ensures |Payload(spec)| == BLOCK * spec.blocks &&
            Payload(spec)[spec.address..spec.address + COMMENT] == spec.comment
  {
    hide Splice;
    var half, size := COMMENT / 2, BLOCK * spec.blocks;
    var first := Splice(Zeros(size), spec.address, spec.comment[..half]);
    assert PySplice(Zeros(size), spec.address, spec.comment[..half]) == first;
    var p := Splice(first, spec.address + half, spec.comment[half..]);
    assert PySplice(first, spec.address + half, spec.comment[half..]) == p;
    var got := p[spec.address..spec.address + COMMENT];
    forall i | 0 <= i < COMMENT ensures got[i] == spec.comment[i] {
      assert got[i] == p[spec.address + i];
    }
    assert got == spec.comment;
  }

  /** Scatter a payload over its chain; every other block of the card keeps its bytes. */
  method Scatter(image: array<byte>, chain: seq<nat>, payload: seq<byte>, ghost blockMax: nat)
    requires image.Length == BLOCK * blockMax && Sound(chain, blockMax) && |payload| >= BLOCK * |chain|
    modifies image
    ensures forall i | 0 <= i < |chain| :: BLOCK * (chain[i] + 1) <= image.Length
    ensures Stream(image[..], chain) == payload[..BLOCK * |chain|]
    ensures forall other: nat | other !in chain && BLOCK * (other + 1) <= image.Length ::
              BlockAt(image[..], other) == BlockAt(old(image[..]), other)
  {
    hide Stream, BlockAt;
    forall i | 0 <= i < |chain| ensures BLOCK * (chain[i] + 1) <= image.Length {
      OnCardFits(image[..], blockMax, chain[i]);
    }
    var i := 0;
    EmptyStream(image[..]);
    assert chain[..0] == [] && payload[..0] == [];
    while i < |chain|
      invariant 0 <= i <= |chain|
      invariant Stream(image[..], chain[..i]) == payload[..BLOCK * i]
      invariant forall other: nat | other !in chain && BLOCK * (other + 1) <= image.Length ::
                  BlockAt(image[..], other) == BlockAt(old(image[..]), other)
    {
      ghost var was := image[..];
      WriteBlock(image, chain[i], payload[BLOCK * i..BLOCK * (i + 1)]);
      forall j | 0 <= j < i ensures BlockAt(image[..], chain[j]) == BlockAt(was, chain[j]) {
      }
      SameStream(was, image[..], chain[..i]);
      StreamNext(image[..], chain, i);
      assert payload[..BLOCK * i] + payload[BLOCK * i..BLOCK * (i + 1)] == payload[..BLOCK * (i + 1)];
      i := i + 1;
    }
    assert chain[..i] == chain;
  }

  method WriteBlock(image: array<byte>, index: nat, bytes: seq<byte>)
    requires BLOCK * (index + 1) <= image.Length && |bytes| == BLOCK
    modifies image
    ensures BlockAt(image[..], index) == bytes
    ensures forall other: nat | other != index && BLOCK * (other + 1) <= image.Length ::
              BlockAt(image[..], other) == BlockAt(old(image[..]), other)
  {
    var at := BLOCK * index;
    forall i | 0 <= i < BLOCK {
      image[at + i] := bytes[i];
    }
    forall other: nat | other != index && BLOCK * (other + 1) <= image.Length
      ensures BlockAt(image[..], other) == BlockAt(old(image[..]), other)
    {
      Apart(index, other);
    }
  }

  lemma Apart(a: nat, b: nat)
    requires a != b
    ensures BLOCK * (a + 1) <= BLOCK * b || BLOCK * (b + 1) <= BLOCK * a
  {
  }

  lemma EmptyStream(image: seq<byte>)
    ensures Stream(image, []) == []
  {
  }

  lemma StreamNext(image: seq<byte>, chain: seq<nat>, i: nat)
    requires i < |chain| && forall j | 0 <= j < |chain| :: BLOCK * (chain[j] + 1) <= |image|
    ensures Stream(image, chain[..i + 1]) == Stream(image, chain[..i]) + BlockAt(image, chain[i])
  {
    assert chain[..i + 1][..i] == chain[..i];
  }

  lemma {:induction false} SameStream(a: seq<byte>, b: seq<byte>, chain: seq<nat>)
    requires |a| == |b|
    requires forall j | 0 <= j < |chain| ::
               BLOCK * (chain[j] + 1) <= |a| && BlockAt(a, chain[j]) == BlockAt(b, chain[j])
    ensures Stream(a, chain) == Stream(b, chain)
  {
    hide BlockAt;
    if chain != [] {
      SameStream(a, b, chain[..|chain| - 1]);
    }
  }

  /** Every save's stream on the card is its payload. */
  ghost predicate Written(image: seq<byte>, free: seq<nat>, saves: seq<SaveSpec>, k: nat)
    requires k < |saves| && Needed(saves) <= |free| && |saves[k].comment| == COMMENT
  {
    var chain := Chain(free, saves, k);
    && (forall i | 0 <= i < |chain| :: BLOCK * (chain[i] + 1) <= |image|)
    && Stream(image, chain) == Payload(saves[k])[..BLOCK * saves[k].blocks]
  }

  /** A sound chain has no block of the file system's own. */
  lemma DataOnly(chain: seq<nat>, blockMax: nat)
    requires Sound(chain, blockMax)
    ensures forall b: nat | b < FST_BLOCKS :: b !in chain
  {
  }

  method ScatterAll(image: array<byte>, free: seq<nat>, saves: seq<SaveSpec>, ghost blockMax: nat)
    requires image.Length == BLOCK * blockMax && Sound(free, blockMax) && Needed(saves) <= |free|
    requires forall k | 0 <= k < |saves| :: |saves[k].comment| == COMMENT
    modifies image
    ensures forall k | 0 <= k < |saves| :: Written(image[..], free, saves, k)
    ensures forall b: nat | b < FST_BLOCKS && BLOCK * (b + 1) <= image.Length ::
              BlockAt(image[..], b) == BlockAt(old(image[..]), b)
  {
    hide Chain, Sound, Stream, BlockAt, Payload;
    var k := 0;
    while k < |saves|
      invariant 0 <= k <= |saves|
      invariant forall b: nat | b < FST_BLOCKS && BLOCK * (b + 1) <= image.Length ::
                  BlockAt(image[..], b) == BlockAt(old(image[..]), b)
      invariant forall j | 0 <= j < k :: Written(image[..], free, saves, j)
    {
      ghost var was := image[..];
      ChainIsSound(free, saves, blockMax, k);
      DataOnly(Chain(free, saves, k), blockMax);
      Scatter(image, Chain(free, saves, k), Payload(saves[k]), blockMax);
      forall j | 0 <= j < k ensures Written(image[..], free, saves, j) {
        ChainsAreDisjoint(free, saves, blockMax, j, k);
        assert Written(was, free, saves, j);
        SameStream(was, image[..], Chain(free, saves, j));
      }
      k := k + 1;
    }
  }

  /**
   The fixture builder against the parser: for any saves that fit, fragmented or not,
   the walk recovers save `k`'s chain exactly and its comment reads back byte for byte
   whenever its address leaves room for it, and is refused otherwise.
   */
  method CommentRoundTrip(dataBlocks: nat, fragment: bool, saves: seq<SaveSpec>, k: nat)
    returns (chain: Option<seq<nat>>, comment: Option<seq<byte>>)
    requires dataBlocks <= BAT_MAP_ENTRIES && Needed(saves) <= dataBlocks
    requires k < |saves| && saves[k].blocks > 0 && saves[k].address < 0xFFFF_FFFF
    requires forall j | 0 <= j < |saves| :: |saves[j].comment| == COMMENT
    ensures |FreeList(dataBlocks, fragment)| == dataBlocks
    ensures chain == Some(Chain(FreeList(dataBlocks, fragment), saves, k))
    ensures comment == if saves[k].address + COMMENT <= BLOCK * saves[k].blocks then Some(saves[k].comment) else None
  {
    hide Follow, Linked, FreeList, Chain, Sound, Stream, Payload, Needed;
    ghost var blockMax := FST_BLOCKS + dataBlocks;
    var free := FreeList(dataBlocks, fragment);
    FreeListIsSound(dataBlocks, fragment);
    var bat := new byte[BLOCK](_ => 0);
    LinkAll(bat, free, saves, blockMax);
    var image := new byte[BLOCK * (FST_BLOCKS + dataBlocks)](_ => 0xFF);
    ScatterAll(image, free, saves, blockMax);
    var spec, laid := saves[k], Chain(free, saves, k);
    ChainIsSound(free, saves, blockMax, k);
    LinkedIsFollowed(bat[..], laid);
    chain := WalkChain(bat[..], laid[0], spec.blocks, FST_BLOCKS + dataBlocks);
    comment := ReadComments(bat[..], image[..], laid[0], spec.blocks, spec.address, FST_BLOCKS + dataBlocks);
    assert Written(image[..], free, saves, k);
    if comment.Some? {
      PayloadHolds(spec);
      var p := Payload(spec);
      assert p[..BLOCK * spec.blocks] == p;
    }
  }

  // ----- parsing a card

  const DIR_ENTRIES := 127
  const DENTRY := 0x40
  const MBIT_BLOCKS := 16

  predicate IsMbit(mbit: nat) {
    mbit == 4 || mbit == 8 || mbit == 16 || mbit == 32 || mbit == 64 || mbit == 128
  }

  /** `_validate_size`: the card size a file of this length is. */
  function MbitOf(size: nat): Option<nat>
  {
    var mbit := size / (MBIT_BLOCKS * BLOCK);
    if IsMbit(mbit) && size == mbit * MBIT_BLOCKS * BLOCK then Some(mbit) else None
  }

  /** A directory entry as the parser reports it. */
  datatype Save = Save(
    index: nat,
    code: seq<byte>,
    maker: seq<byte>,
    name: seq<byte>,
    first: nat,
    blocks: nat,
    address: nat,
    comment: Option<seq<byte>>)

  datatype CardInfo = CardInfo(mbit: nat, encoding: nat, deviceId: nat, freeBlocks: nat, saves: seq<Save>)

  /** An empty slot of the directory. */
  predicate Unused(code: seq<byte>) {
    code == [0xFF, 0xFF, 0xFF, 0xFF] || code == [0, 0, 0, 0]
  }

  /** `_read_comments` as a function. */
  ghost function CommentOf(bat: seq<byte>, image: seq<byte>, first: nat, count: nat, address: nat, blockMax: nat)
    : Option<seq<byte>>
    requires |bat| == BLOCK && CardSized(image, blockMax)
  {
    var chain := Follow(bat, first, count);
    if address == 0xFFFF_FFFF || address + COMMENT > BLOCK * count || !Sound(chain, blockMax) then None
    else Some(Stream(image, chain)[address..address + COMMENT])
  }

  function Entry(directory: seq<byte>, index: nat): (e: seq<byte>)
    requires |directory| == BLOCK && index < DIR_ENTRIES
    ensures |e| == DENTRY
  {
    directory[DENTRY * index..DENTRY * (index + 1)]
  }

  /** What one directory entry yields: nothing when it is empty or does not fit the card. */
  ghost function SaveOf(entry: seq<byte>, index: nat, bat: seq<byte>, image: seq<byte>, dataBlocks: nat): Option<Save>
    requires |entry| == DENTRY && |bat| == BLOCK && CardSized(image, FST_BLOCKS + dataBlocks)
  {
    var first, count := GetU16(entry[0x36..0x38]), GetU16(entry[0x38..0x3A]);
    var address, blockMax := GetU32(entry[0x3C..0x40]), FST_BLOCKS + dataBlocks;
    if Unused(entry[..4]) || count == 0xFFFF || !(1 <= count <= dataBlocks) || first < FST_BLOCKS || first >= blockMax
    then None
    else
      Some(Save(index, entry[..4], entry[4..6], entry[8..0x28], first, count, address,
                CommentOf(bat, image, first, count, address, blockMax)))
  }

  /** The saves of the first `n` entries, in order. */
  ghost function SavesOf(directory: seq<byte>, bat: seq<byte>, image: seq<byte>, dataBlocks: nat, n: nat): seq<Save>
    requires |directory| == |bat| == BLOCK && CardSized(image, FST_BLOCKS + dataBlocks) && n <= DIR_ENTRIES
  {
    if n == 0 then []
    else
      var found := SaveOf(Entry(directory, n - 1), n - 1, bat, image, dataBlocks);
      SavesOf(directory, bat, image, dataBlocks, n - 1) + if found.Some? then [found.value] else []
  }

  /** `parse`: None is a card that is refused. */
  ghost function Parsed(image: seq<byte>): Option<CardInfo>
  {
    match MbitOf(|image|)
    case None => None
    case Some(mbit) =>
      var header := BlockAt(image, 0);
      var directory, bat := PickedCopy(image, 1, DIRECTORY, 0x1FFA), PickedCopy(image, 3, BAT, 4);
      if !ChecksumOk(HEADER, header) || directory.None? || bat.None? then None
      else
        var dataBlocks := mbit * MBIT_BLOCKS - FST_BLOCKS;
        Some(CardInfo(mbit, GetU16(header[0x24..0x26]), GetU16(header[0x20..0x22]), GetU16(bat.value[6..8]),
                      SavesOf(directory.value, bat.value, image, dataBlocks, DIR_ENTRIES)))
  }

  /** One entry of the directory walk. */
  method ParseEntry(entry: seq<byte>, index: nat, bat: seq<byte>, image: seq<byte>, dataBlocks: nat)
    returns (r: Option<Save>)
    requires |entry| == DENTRY && |bat| == BLOCK && CardSized(image, FST_BLOCKS + dataBlocks)
    ensures r == SaveOf(entry, index, bat, image, dataBlocks)
  {
    hide Follow, Stream, Sound;
    var code := entry[..4];
    if code == [0xFF, 0xFF, 0xFF, 0xFF] || code == [0, 0, 0, 0] {
      return None;
    }
    var first, count := GetU16(entry[0x36..0x38]), GetU16(entry[0x38..0x3A]);
    var blockMax := FST_BLOCKS + dataBlocks;
    if count == 0xFFFF || !(1 <= count <= dataBlocks) || first < FST_BLOCKS || first >= blockMax {
      return None;
    }
    var address := GetU32(entry[0x3C..0x40]);
    var comment := ReadComments(bat, image, first, count, address, blockMax);
    r := Some(Save(index, code, entry[4..6], entry[8..0x28], first, count, address, comment));
  }

  /** `parse`, with the directory walk. */
  method Parse(image: seq<byte>) returns (r: Option<CardInfo>)
    ensures r == Parsed(image)
  {
    hide SaveOf, PickedCopy, ChecksumOk, BlockAt;
    var size := MbitOf(|image|);
    if size.None? {
      return None;
    }
    var dataBlocks := size.value * MBIT_BLOCKS - FST_BLOCKS;
    var header := BlockAt(image, 0);
    if !ChecksumOk(HEADER, header) {
      return None;
    }
    var directory := PickCopy(image, 1, DIRECTORY, 0x1FFA);
    if directory.None? {
      return None;
    }
    var bat := PickCopy(image, 3, BAT, 4);
    if bat.None? {
      return None;
    }
    var saves: seq<Save> := [];
    var index := 0;
    while index < DIR_ENTRIES
      invariant 0 <= index <= DIR_ENTRIES
      invariant saves == SavesOf(directory.value.0, bat.value.0, image, dataBlocks, index)
    {
      var found := ParseEntry(Entry(directory.value.0, index), index, bat.value.0, image, dataBlocks);
      if found.Some? {
        saves := saves + [found.value];
      }
      index := index + 1;
    }
    r := Some(CardInfo(size.value, GetU16(header[0x24..0x26]), GetU16(header[0x20..0x22]), GetU16(bat.value.0[6..8]),
                       saves));
  }

  // ----- building a card

  /** Store the checksum pair of a block where its layout puts it. */
  method Seal(block: array<byte>, l: Layout)
    requires IsLayout(l) && block.Length == BLOCK
    modifies block
    ensures ChecksumOk(l, block[..])
    ensures forall i | 0 <= i < BLOCK && !(l.at <= i < l.at + 4) :: block[i] == old(block[i])
  {
    hide Pair, Words;
    ghost var was := block[l.from..l.to];
    var r := Checksums(block[l.from..l.to]);
    var (sum, inverse) := r.value;
    PairFits(Words(was));
    PutField(block, l.at, PutU16(sum));
    PutField(block, l.at + 2, PutU16(inverse));
    assert l.to <= l.at || l.at + 4 <= l.from;
    assert block[l.from..l.to] == was;
    assert block[..][l.from..l.to] == was;
    assert block[..][l.at..l.at + 2] == block[l.at..l.at + 2] &&
           block[..][l.at + 2..l.at + 4] == block[l.at + 2..l.at + 4];
  }

  lemma PairFits(w: seq<u16>)
    ensures Pair(w).0 < U16 && Pair(w).1 < U16
  {
  }

  /** `struct.pack_into`, or a slice assigned: bytes at an offset, the rest as it was. */
  method PutField(block: array<byte>, at: nat, bytes: seq<byte>)
    requires at + |bytes| <= block.Length
    modifies block
    ensures block[at..at + |bytes|] == bytes
    ensures forall i | 0 <= i < block.Length && !(at <= i < at + |bytes|) :: block[i] == old(block[i])
  {
    forall i | 0 <= i < |bytes| {
      block[at + i] := bytes[i];
    }
  }

  method BuildHeader(mbit: u16, deviceId: u16, encoding: u16) returns (header: array<byte>)
    ensures fresh(header) && header.Length == BLOCK && ChecksumOk(HEADER, header[..])
    ensures GetU16(header[0x20..0x22]) == deviceId && GetU16(header[0x24..0x26]) == encoding
  {
    hide ChecksumOk;
    header := new byte[BLOCK](_ => 0xFF);
    PutField(header, 0, seq(12, i requires 0 <= i < 12 => i as byte));
    PutField(header, 0x0C, [0, 0, 0, 1, 0, 0, 0, 0]);
    PutField(header, 0x14, Zeros(12));
    PutField(header, 0x20, PutU16(deviceId));
    PutField(header, 0x22, PutU16(mbit));
    PutField(header, 0x24, PutU16(encoding));
    PutField(header, 0x1FA, PutU16(0));
    assert header[0x20..0x22] == PutU16(deviceId) && header[0x24..0x26] == PutU16(encoding);
    ghost var was := header[0x20..0x26];
    Seal(header, HEADER);
    assert header[0x20..0x26] == was;
    assert header[0x20..0x22] == was[..2] && header[0x24..0x26] == was[4..];
  }

  /** The 64 bytes of a save's directory entry. */
  function EntryBytes(spec: SaveSpec, first: u16): (e: seq<byte>)
    requires spec.Padded() && spec.blocks < U16
    ensures |e| == DENTRY
  {
    EntryFront(spec) + PutU16(first) + PutU16(spec.blocks) + [0xFF, 0xFF] + PutU32(spec.address)
  }

  /** As far as the icon, the permissions and the copy counter. */
  function EntryFront(spec: SaveSpec): (e: seq<byte>)
    requires spec.Padded()
    ensures |e| == 0x36 && e[..4] == spec.code && e[4..6] == spec.maker && e[8..0x28] == spec.name
  {
    var e := spec.code + spec.maker + [0xFF, 0x02] + spec.name + PutU32(300_000_000) + PutU32(0)
             + [0, 0, 0, 0] + [0x04, 0];
    assert e[..4] == spec.code && e[4..6] == spec.maker && e[8..0x28] == spec.name;
    e
  }

  /** They say what they were made from. */
  lemma EntryReads(spec: SaveSpec, first: u16)
    requires spec.Padded() && spec.blocks < U16
    ensures var e := EntryBytes(spec, first);
            && e[..4] == spec.code && e[4..6] == spec.maker && e[8..0x28] == spec.name
            && GetU16(e[0x36..0x38]) == first && GetU16(e[0x38..0x3A]) == spec.blocks
            && GetU32(e[0x3C..0x40]) == spec.address
  {
    hide EntryFront;
    var e := EntryBytes(spec, first);
    assert e[..0x36] == EntryFront(spec);
    assert e[..4] == e[..0x36][..4] && e[4..6] == e[..0x36][4..6] && e[8..0x28] == e[..0x36][8..0x28];
    assert e[0x36..0x38] == PutU16(first) && e[0x38..0x3A] == PutU16(spec.blocks);
    assert e[0x3C..0x40] == PutU32(spec.address);
  }

  /** The saves a directory can hold on a card of this many data blocks. */
  predicate Fitting(saves: seq<SaveSpec>, dataBlocks: nat) {
    && |saves| <= DIR_ENTRIES && Needed(saves) <= dataBlocks
    && forall k | 0 <= k < |saves| :: saves[k].Padded() && 1 <= saves[k].blocks <= dataBlocks
  }

  /** The directory says where each save is, and no more. */
  ghost predicate Listed(directory: seq<byte>, free: seq<nat>, saves: seq<SaveSpec>, blockMax: nat)
    requires |directory| == BLOCK && Sound(free, blockMax) && blockMax <= END_OF_CHAIN && Needed(saves) <= |free|
    requires |saves| <= DIR_ENTRIES
    requires forall k | 0 <= k < |saves| :: saves[k].Padded() && 1 <= saves[k].blocks < U16
  {
    && (forall k | 0 <= k < |saves| ::
          Entry(directory, k) == EntryBytes(saves[k], ChainStart(free, saves, blockMax, k)))
    && forall k | |saves| <= k < DIR_ENTRIES :: Entry(directory, k)[..4] == [0xFF, 0xFF, 0xFF, 0xFF]
  }

  function ChainStart(free: seq<nat>, saves: seq<SaveSpec>, ghost blockMax: nat, k: nat): u16
    requires Sound(free, blockMax) && blockMax <= END_OF_CHAIN && Needed(saves) <= |free|
    requires k < |saves| && saves[k].blocks >= 1
  {
    hide Chain, Sound;
    ChainIsSound(free, saves, blockMax, k);
    FirstOnCard(Chain(free, saves, k), blockMax);
    Chain(free, saves, k)[0]
  }

  lemma FirstOnCard(chain: seq<nat>, blockMax: nat)
    requires Sound(chain, blockMax) && chain != []
    ensures FST_BLOCKS <= chain[0] < blockMax
  {
    assert OnCard(chain[0], blockMax);
  }

  method BuildDirectory(free: seq<nat>, saves: seq<SaveSpec>, counter: int, ghost blockMax: nat)
    returns (directory: array<byte>)
    requires Sound(free, blockMax) && blockMax <= END_OF_CHAIN && Needed(saves) <= |free|
    requires |saves| <= DIR_ENTRIES && -0x8000 <= counter < 0x8000
    requires forall k | 0 <= k < |saves| :: saves[k].Padded() && 1 <= saves[k].blocks < U16
    ensures fresh(directory) && directory.Length == BLOCK && ChecksumOk(DIRECTORY, directory[..])
    ensures Listed(directory[..], free, saves, blockMax)
  {
    hide Sound, ChecksumOk, Entry, EntryBytes, ChainStart, Needed;
    directory := new byte[BLOCK](_ => 0xFF);
    WriteEntries(directory, free, saves, blockMax);
    ghost var was := directory[..];
    PutField(directory, 0x1FC0, seq(0x3A, _ => 0xFF));
    PutField(directory, 0x1FFA, PutU16(if counter < 0 then counter + U16 else counter));
    Seal(directory, DIRECTORY);
    forall j: nat | j < DIR_ENTRIES ensures Entry(directory[..], j) == Entry(was, j) {
      SameEntry(was, directory[..], j);
    }
  }

  lemma SameEntry(a: seq<byte>, b: seq<byte>, j: nat)
    requires |a| == |b| == BLOCK && j < DIR_ENTRIES
    requires forall i | DENTRY * j <= i < DENTRY * (j + 1) :: a[i] == b[i]
    ensures Entry(a, j) == Entry(b, j)
  {
  }

  /** One entry a save, in an otherwise empty directory. */
  method WriteEntries(directory: array<byte>, free: seq<nat>, saves: seq<SaveSpec>, ghost blockMax: nat)
    requires directory.Length == BLOCK && forall i | 0 <= i < BLOCK :: directory[i] == 0xFF
    requires Sound(free, blockMax) && blockMax <= END_OF_CHAIN && Needed(saves) <= |free| && |saves| <= DIR_ENTRIES
    requires forall k | 0 <= k < |saves| :: saves[k].Padded() && 1 <= saves[k].blocks < U16
    modifies directory
    ensures Listed(directory[..], free, saves, blockMax)
  {
    hide Sound, Entry, EntryBytes, ChainStart, Needed;
    var k := 0;
    while k < |saves|
      invariant 0 <= k <= |saves|
      invariant forall j | 0 <= j < k ::
                  Entry(directory[..], j) == EntryBytes(saves[j], ChainStart(free, saves, blockMax, j))
      invariant forall i | DENTRY * k <= i < BLOCK :: directory[i] == 0xFF
    {
      ghost var was := directory[..];
      var bytes := EntryBytes(saves[k], ChainStart(free, saves, blockMax, k));
      PutField(directory, DENTRY * k, bytes);
      EntryPut(directory[..], k, bytes);
      forall j | 0 <= j < k ensures Entry(directory[..], j) == Entry(was, j) {
        SameEntry(was, directory[..], j);
      }
      k := k + 1;
    }
    forall j | |saves| <= j < DIR_ENTRIES ensures Entry(directory[..], j)[..4] == [0xFF, 0xFF, 0xFF, 0xFF] {
      EmptyEntry(directory[..], j);
    }
  }

  lemma EntryPut(directory: seq<byte>, k: nat, bytes: seq<byte>)
    requires |directory| == BLOCK && k < DIR_ENTRIES && |bytes| == DENTRY
    requires directory[DENTRY * k..DENTRY * k + DENTRY] == bytes
    ensures Entry(directory, k) == bytes
  {
  }

  lemma EmptyEntry(directory: seq<byte>, j: nat)
    requires |directory| == BLOCK && j < DIR_ENTRIES
    requires forall i | DENTRY * j <= i < DENTRY * (j + 1) :: directory[i] == 0xFF
    ensures Entry(directory, j)[..4] == [0xFF, 0xFF, 0xFF, 0xFF]
  {
  }

  /** The highest block any chain has, or the last of the file system's own. */
  method LastAllocated(free: seq<nat>, used: nat) returns (last: nat)
    requires used <= |free|
    ensures last == FST_BLOCKS - 1 || last in free[..used]
    ensures forall i | 0 <= i < used :: free[i] <= last
  {
    last := FST_BLOCKS - 1;
    var i := 0;
    while i < used
      invariant 0 <= i <= used && (last == FST_BLOCKS - 1 || last in free[..i])
      invariant forall j | 0 <= j < i :: free[j] <= last
    {
      if free[i] > last {
        last := free[i];
      }
      i := i + 1;
    }
  }

  /** The map starts past the table's own fields. */
  lemma MapIsPastFields(a: seq<byte>, b: seq<byte>, block: nat)
    requires |a| == |b| == BLOCK && a[BAT_MAP_OFF..] == b[BAT_MAP_OFF..]
    ensures MapAt(a, block) == MapAt(b, block)
  {
    if FST_BLOCKS <= block < FST_BLOCKS + BAT_MAP_ENTRIES {
      var at := BAT_MAP_OFF + 2 * (block - FST_BLOCKS);
      assert a[at..at + 2] == a[BAT_MAP_OFF..][at - BAT_MAP_OFF..at + 2 - BAT_MAP_OFF];
      assert b[at..at + 2] == b[BAT_MAP_OFF..][at - BAT_MAP_OFF..at + 2 - BAT_MAP_OFF];
    }
  }

  method BuildBat(free: seq<nat>, saves: seq<SaveSpec>, counter: int, ghost blockMax: nat) returns (bat: array<byte>)
    requires Sound(free, blockMax) && blockMax <= END_OF_CHAIN && Needed(saves) <= |free| < U16
    requires -0x8000 <= counter < 0x8000
    ensures fresh(bat) && bat.Length == BLOCK && ChecksumOk(BAT, bat[..])
    ensures forall k | 0 <= k < |saves| :: Linked(bat[..], Chain(free, saves, k))
    ensures GetU16(bat[6..8]) == |free| - Needed(saves)
  {
    hide Chain, ChecksumOk, MapAt, Needed;
    bat := new byte[BLOCK](_ => 0);
    LinkAll(bat, free, saves, blockMax);
    ghost var was := bat[..];
    var used := Needed(saves);
    var last := LastAllocated(free, used);
    LastFits(free, used, last, blockMax);
    PutField(bat, 4, PutU16(if counter < 0 then counter + U16 else counter));
    PutField(bat, 6, PutU16(|free| - used));
    assert bat[6..8] == PutU16(|free| - used);
    ghost var count := bat[6..8];
    PutField(bat, 8, PutU16(last));
    Seal(bat, BAT);
    assert bat[6..8] == count;
    assert bat[..][BAT_MAP_OFF..] == was[BAT_MAP_OFF..];
    forall k | 0 <= k < |saves| ensures Linked(bat[..], Chain(free, saves, k)) {
      assert Linked(was, Chain(free, saves, k));
      forall block: nat ensures MapAt(bat[..], block) == MapAt(was, block) {
        MapIsPastFields(bat[..], was, block);
      }
    }
  }

  lemma LastFits(free: seq<nat>, used: nat, last: nat, blockMax: nat)
    requires Sound(free, blockMax) && blockMax <= END_OF_CHAIN && used <= |free|
    requires last == FST_BLOCKS - 1 || last in free[..used]
    ensures last < U16
  {
    if last in free[..used] {
      var i :| 0 <= i < used && free[i] == last;
      assert OnCard(free[i], blockMax);
    }
  }

  /** What a built card should be found to hold: its saves in order, but for any whose code marks an empty slot. */
  ghost function Expected(free: seq<nat>, saves: seq<SaveSpec>, n: nat): seq<Save>
    requires n <= |saves| && Needed(saves) <= |free| && forall k | 0 <= k < |saves| :: 1 <= saves[k].blocks
  {
    if n == 0 then []
    else
      var spec := saves[n - 1];
      NeededGrows(saves, n - 1);
      var save := Save(n - 1, spec.code, spec.maker, spec.name, Chain(free, saves, n - 1)[0], spec.blocks, spec.address,
                       if spec.address + COMMENT <= BLOCK * spec.blocks then Some(spec.comment) else None);
      Expected(free, saves, n - 1) + if Unused(spec.code) then [] else [save]
  }

  /** The comment of save `k` is found where it was put, or refused for want of room. */
  lemma CommentFound(bat: seq<byte>, image: seq<byte>, free: seq<nat>, saves: seq<SaveSpec>, blockMax: nat, k: nat)
    requires |bat| == BLOCK && CardSized(image, blockMax) && Sound(free, blockMax) && Needed(saves) <= |free|
    requires k < |saves| && saves[k].Padded() && saves[k].blocks >= 1 && BLOCK * saves[k].blocks < 0xFFFF_FFFF
    requires Linked(bat, Chain(free, saves, k)) && Written(image, free, saves, k)
    ensures CommentOf(bat, image, Chain(free, saves, k)[0], saves[k].blocks, saves[k].address, blockMax)
         == if saves[k].address + COMMENT <= BLOCK * saves[k].blocks then Some(saves[k].comment) else None
  {
    hide Chain, Linked, Sound, Stream, Payload, Follow;
    var spec, chain := saves[k], Chain(free, saves, k);
    ChainIsSound(free, saves, blockMax, k);
    LinkedIsFollowed(bat, chain);
    if spec.address + COMMENT <= BLOCK * spec.blocks {
      PayloadHolds(spec);
      var p := Payload(spec);
      assert p[..BLOCK * spec.blocks] == p;
    }
  }

  /** So the directory walk finds exactly the saves, in order. */
  lemma {:induction false} WalkFinds(directory: seq<byte>, bat: seq<byte>, image: seq<byte>, free: seq<nat>,
                                     saves: seq<SaveSpec>, dataBlocks: nat, n: nat)
    requires |directory| == |bat| == BLOCK && CardSized(image, FST_BLOCKS + dataBlocks) && n <= DIR_ENTRIES
    requires Sound(free, FST_BLOCKS + dataBlocks) && FST_BLOCKS + dataBlocks <= 0x800 && |free| == dataBlocks
    requires Fitting(saves, dataBlocks) && Listed(directory, free, saves, FST_BLOCKS + dataBlocks)
    requires forall k | 0 <= k < |saves| :: Linked(bat, Chain(free, saves, k)) && Written(image, free, saves, k)
    ensures SavesOf(directory, bat, image, dataBlocks, n)
         == Expected(free, saves, if n <= |saves| then n else |saves|)
  {
    hide Chain, Linked, Sound, Written, EntryBytes, CommentOf, Entry, Needed;
    if n > 0 {
      WalkFinds(directory, bat, image, free, saves, dataBlocks, n - 1);
      var k, blockMax := n - 1, FST_BLOCKS + dataBlocks;
      if k < |saves| {
        var first := ChainStart(free, saves, blockMax, k);
        EntryReads(saves[k], first);
        ChainIsSound(free, saves, blockMax, k);
        FirstOnCard(Chain(free, saves, k), blockMax);
        CommentFound(bat, image, free, saves, blockMax, k);
      }
    }
  }

  /**
   The fixture builder against the whole parser. Any saves that fit a card, fragmented or not: every
   checksum `build_card` writes passes, both copies are the one written, and parsing finds the
   card's fields, its free blocks and exactly the saves, in order, with their comments.
   */
  method BuildCard(mbit: nat, saves: seq<SaveSpec>, deviceId: u16, encoding: u16, fragment: bool, dirCounter: int,
                   batCounter: int)
    returns (r: Option<array<byte>>)
    requires -0x8000 <= dirCounter < 0x8000 && -0x8000 <= batCounter < 0x8000
    requires |saves| <= DIR_ENTRIES && forall k | 0 <= k < |saves| :: saves[k].Padded()
    ensures r.Some? <==> IsMbit(mbit) && Fitting(saves, mbit * MBIT_BLOCKS - FST_BLOCKS)
    ensures r.Some? ==>
              var dataBlocks := mbit * MBIT_BLOCKS - FST_BLOCKS;
              var free := FreeList(dataBlocks, fragment);
              && |free| == dataBlocks && fresh(r.value)
              && Parsed(r.value[..])
                 == Some(CardInfo(mbit, encoding, deviceId, dataBlocks - Needed(saves), Expected(free, saves, |saves|)))
  {
    hide FreeList, Chain, Linked, Sound, Needed, ChecksumOk, Listed, Written, Entry, SavesOf, Expected;
    if !IsMbit(mbit) {
      return None;
    }
    var dataBlocks := mbit * MBIT_BLOCKS - FST_BLOCKS;
    if Needed(saves) > dataBlocks || exists k :: 0 <= k < |saves| && saves[k].blocks == 0 {
      return None;
    }
    SizesFit(saves, dataBlocks);
    var free := FreeList(dataBlocks, fragment);
    FreeListIsSound(dataBlocks, fragment);
    ghost var blockMax := FST_BLOCKS + dataBlocks;
    var image := new byte[mbit * MBIT_BLOCKS * BLOCK](_ => 0xFF);
    var header := BuildHeader(mbit, deviceId, encoding);
    var directory := BuildDirectory(free, saves, dirCounter, blockMax);
    var bat := BuildBat(free, saves, batCounter, blockMax);
    LayDown(image, header[..], directory[..], bat[..]);
    ScatterAll(image, free, saves, blockMax);
    r := Some(image);
    PartsParse(image[..], mbit, header[..], directory[..], bat[..], free, saves);
    assert header[0x20..0x22] == header[..][0x20..0x22] && header[0x24..0x26] == header[..][0x24..0x26];
    assert bat[6..8] == bat[..][6..8];
  }

  lemma {:induction false} SizesFit(saves: seq<SaveSpec>, dataBlocks: nat)
    requires Needed(saves) <= dataBlocks
    ensures forall k | 0 <= k < |saves| :: saves[k].blocks <= dataBlocks
  {
    forall k | 0 <= k < |saves| ensures saves[k].blocks <= dataBlocks {
      NeededGrows(saves, k);
    }
  }

  /** Header, directory and allocation table, the last two twice. */
  method LayDown(image: array<byte>, header: seq<byte>, directory: seq<byte>, bat: seq<byte>)
    requires image.Length >= BLOCK * FST_BLOCKS && |header| == |directory| == |bat| == BLOCK
    modifies image
    ensures BlockAt(image[..], 0) == header && BlockAt(image[..], 1) == BlockAt(image[..], 2) == directory
    ensures BlockAt(image[..], 3) == BlockAt(image[..], 4) == bat
  {
    hide BlockAt;
    WriteBlock(image, 0, header);
    WriteBlock(image, 1, directory);
    WriteBlock(image, 2, directory);
    WriteBlock(image, 3, bat);
    WriteBlock(image, 4, bat);
  }

  /** A card whose parts are as built parses to what it was built from. */
  lemma PartsParse(image: seq<byte>, mbit: nat, header: seq<byte>, directory: seq<byte>, bat: seq<byte>, free: seq<nat>,
                   saves: seq<SaveSpec>)
    requires IsMbit(mbit) && |image| == mbit * MBIT_BLOCKS * BLOCK && |header| == |directory| == |bat| == BLOCK
    requires BlockAt(image, 0) == header && BlockAt(image, 1) == BlockAt(image, 2) == directory
    requires BlockAt(image, 3) == BlockAt(image, 4) == bat
    requires ChecksumOk(HEADER, header) && ChecksumOk(DIRECTORY, directory) && ChecksumOk(BAT, bat)
    requires var dataBlocks := mbit * MBIT_BLOCKS - FST_BLOCKS;
             && |free| == dataBlocks && Sound(free, FST_BLOCKS + dataBlocks) && Fitting(saves, dataBlocks)
             && Listed(directory, free, saves, FST_BLOCKS + dataBlocks)
    requires forall k | 0 <= k < |saves| :: Linked(bat, Chain(free, saves, k)) && Written(image, free, saves, k)
    ensures Parsed(image)
         == Some(CardInfo(mbit, GetU16(header[0x24..0x26]), GetU16(header[0x20..0x22]), GetU16(bat[6..8]),
                          Expected(free, saves, |saves|)))
  {
    hide Chain, Linked, Sound, Needed, ChecksumOk, Listed, Written, SavesOf, Expected, BlockAt;
    assert MbitOf(|image|) == Some(mbit);
    WalkFinds(directory, bat, image, free, saves, mbit * MBIT_BLOCKS - FST_BLOCKS, DIR_ENTRIES);
  }
}
