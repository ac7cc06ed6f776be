/**
 The version store: append-only lineages, one compare-parent-with-head rule, and
 content-addressed blobs. SHA-256 and the card parser are parameters.
 */
module Store {
  import opened Bytes

  type Digest = seq<byte>
  type Image = seq<byte>

  /** What the store is built on. `hash` is uninterpreted; `valid` is the parser's verdict. */
  datatype Config = Config(hash: Image -> Digest, valid: Image -> bool, maxCardBytes: nat)

  datatype Card = Card(gameId: string, slot: nat)

  /** The primary key of `versions`. */
  datatype Row = Row(card: Card, number: nat)

  /** A row of `versions`. `parent` 0 stands for the NULL a first version carries. */
  datatype Version = Version(parent: nat, sha256: Digest, size: nat)

  datatype PushOutcome =
    | Created(version: nat)
    | Unchanged(version: nat)
    | Conflict(head: nat)
    | TooLarge
    | Invalid
    | NotFound

  // ----- names

  /** ASCII characters Python's `strip` takes off. */
  predicate IsSpace(c: char) {
    '\t' <= c <= '\r' || '\U{1c}' <= c <= ' '
  }

  /** `s.strip(chars)`. */
  function Strip(s: string, chars: char -> bool): (r: string)
    ensures |r| <= |s|
    ensures s != [] && !chars(s[0]) && !chars(s[|s| - 1]) ==> r == s
  {
    if s == [] then []
    else if chars(s[0]) then Strip(s[1..], chars)
    else if chars(s[|s| - 1]) then Strip(s[..|s| - 1], chars)
    else s
  }

  /** Blank and NUL padding off both ends, in the source's three passes. */
  function Trim(s: string): string
  {
    Strip(Strip(Strip(s, IsSpace), c => c == '\0'), IsSpace)
  }

  function Upper(c: char): char {
    if 'a' <= c <= 'z' then c - 'a' + 'A' else c
  }

  function UpperAll(s: string): string {
    seq(|s|, i requires 0 <= i < |s| => Upper(s[i]))
  }

  predicate IsNameChar(c: char) {
    'A' <= c <= 'Z' || '0' <= c <= '9'
  }

  predicate IsGameId(s: string) {
    1 <= |s| <= 6 && forall i | 0 <= i < |s| :: IsNameChar(s[i])
  }

  datatype Option<+T> = None | Some(value: T)

  /** `normalise_game_id` and `normalise_slot` together; None is ValidationError. */
  function Normalise(gameId: string, slot: nat): (r: Option<Card>)
    ensures r.Some? ==> IsGameId(r.value.gameId) && r.value.slot <= 1
  {
    var id := UpperAll(Trim(gameId));
    if IsGameId(id) && slot <= 1 then Some(Card(id, slot)) else None
  }

  /** A canonical name is its own canonical form, so naming a card by what came back works. */
  lemma NormaliseIsStable(gameId: string, slot: nat)
    requires Normalise(gameId, slot).Some?
    ensures var c := Normalise(gameId, slot).value; Normalise(c.gameId, c.slot) == Some(c)
  {
    var c := Normalise(gameId, slot).value;
    assert IsNameChar(c.gameId[0]) && IsNameChar(c.gameId[|c.gameId| - 1]);
    assert Trim(c.gameId) == c.gameId;
    assert UpperAll(c.gameId) == c.gameId;
  }

  // ----- the database

  datatype State = State(
    versions: map<Row, Version>,
    heads: map<Card, nat>,
    blobs: map<Digest, Image>)
  {
    /** `_head`: the version row the cards table points at, by number. */
    function Head(card: Card): (v: nat) {
      if card in heads && Row(card, heads[card]) in versions then heads[card] else 0
    }

    function Get(card: Card, version: nat): Option<Version> {
      if Row(card, version) in versions then Some(versions[Row(card, version)]) else None
    }

    /** `get_version` then `read_image`, the two ways a seed or a pull can fail included. */
    function Read(card: Card, version: nat): Option<Image> {
      match Get(card, version)
      case None => None
      case Some(v) => if v.sha256 in blobs then Some(blobs[v.sha256]) else None
    }

    function Append(card: Card, v: Version): State {
      this.(versions := versions[Row(card, v.parent + 1) := v], heads := heads[card := v.parent + 1])
    }
  }

  const EMPTY: State := State(map[], map[], map[])

  /** `BlobStore.put`: a digest already filed keeps the bytes it has. */
  function WithBlob(c: Config, s: State, data: Image): State
  {
    if c.hash(data) in s.blobs then s else s.(blobs := s.blobs[c.hash(data) := data])
  }

  /** The push rule on a card name already normalised. */
  function PushCard(c: Config, s: State, card: Card, data: Image, parent: int): (State, PushOutcome)
  {
    if data == [] then (s, Invalid)
    else if |data| > c.maxCardBytes then (s, TooLarge)
    else if parent < 0 then (s, Invalid)
    else if !c.valid(data) then (s, Invalid)
    else
      var digest, head := c.hash(data), s.Head(card);
      if head != 0 && s.versions[Row(card, head)].sha256 == digest then (s, Unchanged(head))
      else if parent != head then (s, Conflict(head))
      else
        (WithBlob(c, s, data).Append(card, Version(head, digest, |data|)), Created(head + 1))
  }

  /** `Store.push`. */
  function PushNamed(c: Config, s: State, gameId: string, slot: nat, data: Image, parent: int): (State, PushOutcome)
  {
    match Normalise(gameId, slot)
    case None => (s, Invalid)
    case Some(card) => PushCard(c, s, card, data, parent)
  }

  function RollbackCard(s: State, card: Card, to: nat): (State, PushOutcome)
  {
    if Row(card, to) !in s.versions then (s, NotFound)
    else
      var target, head := s.versions[Row(card, to)], s.Head(card);
      if head != 0 && s.versions[Row(card, head)].sha256 == target.sha256 then (s, Unchanged(head))
      else (s.Append(card, Version(head, target.sha256, target.size)), Created(head + 1))
  }

  /** `Store.rollback`. */
  function RollbackNamed(s: State, gameId: string, slot: nat, to: nat): (State, PushOutcome)
  {
    match Normalise(gameId, slot)
    case None => (s, Invalid)
    case Some(card) => RollbackCard(s, card, to)
  }

  // ----- what every reachable state keeps

  /** Each card's versions are exactly 1..head, and version v descends from v-1. */
  ghost predicate Numbered(s: State) {
    && (forall k | k in s.versions ::
          k.card in s.heads && 1 <= k.number <= s.heads[k.card] && s.versions[k].parent == k.number - 1)
    && (forall card, v: nat | card in s.heads && 1 <= v <= s.heads[card] :: Row(card, v) in s.versions)
    && (forall card | card in s.heads :: 1 <= s.heads[card])
  }

  /** Every version's image is stored, under its own digest. */
  ghost predicate Stored(c: Config, s: State) {
    && (forall k | k in s.versions :: s.versions[k].sha256 in s.blobs)
    && (forall d | d in s.blobs :: c.hash(s.blobs[d]) == d && s.blobs[d] != [])
  }

  ghost predicate Lineage(c: Config, s: State) {
    Numbered(s) && Stored(c, s)
  }

  /** History only grows: no recorded version or stored blob ever changes. */
  ghost predicate Extends(s: State, t: State) {
    && (forall k | k in s.versions :: k in t.versions && t.versions[k] == s.versions[k])
    && (forall d | d in s.blobs :: d in t.blobs && t.blobs[d] == s.blobs[d])
    && (forall card | card in s.heads :: card in t.heads && s.heads[card] <= t.heads[card])
  }

  /** Under the lineage invariant `_head` is the newest version, and 0 means none. */
  lemma HeadIsNewest(c: Config, s: State, card: Card)
    requires Lineage(c, s)
    ensures s.Head(card) == if card in s.heads then s.heads[card] else 0
    ensures forall v: nat :: Row(card, v) in s.versions <==> 1 <= v <= s.Head(card)
  {
  }

  lemma AppendNumbers(s: State, card: Card, v: Version)
    requires Numbered(s) && v.parent == s.Head(card)
    ensures var t := s.Append(card, v); Numbered(t) && Extends(s, t) && t.Head(card) == v.parent + 1
    ensures Row(card, v.parent + 1) !in s.versions
  {
    var t, row := s.Append(card, v), Row(card, v.parent + 1);
    assert row !in s.versions;
    forall other, n: nat | other in t.heads && 1 <= n <= t.heads[other] ensures Row(other, n) in t.versions {
      if other == card && n != v.parent + 1 {
        assert card in s.heads && n <= s.heads[card];
        assert Row(card, n) in s.versions;
      }
    }
    assert Numbered(t);
    assert forall k | k in s.versions :: k in t.versions && k != row;
  }

  /** Appending the next version to a lineage, with its image stored, keeps everything. */
  lemma AppendKeeps(c: Config, s: State, card: Card, v: Version)
    requires Lineage(c, s) && v.parent == s.Head(card) && v.sha256 in s.blobs
    ensures var t := s.Append(card, v); Lineage(c, t) && Extends(s, t) && t.Head(card) == v.parent + 1
    ensures Row(card, v.parent + 1) !in s.versions
  {
    AppendNumbers(s, card, v);
  }

  lemma WithBlobKeeps(c: Config, s: State, data: Image)
    requires Lineage(c, s) && data != []
    ensures var t := WithBlob(c, s, data);
            && Lineage(c, t) && Extends(s, t) && c.hash(data) in t.blobs
            && t.versions == s.versions && t.heads == s.heads
  {
    var t := WithBlob(c, s, data);
    SameNumbers(s, t);
    WithBlobStored(c, s, data);
    hide Numbered, Stored;
  }

  lemma WithBlobStored(c: Config, s: State, data: Image)
    requires Stored(c, s) && data != []
    ensures Stored(c, WithBlob(c, s, data)) && c.hash(data) in WithBlob(c, s, data).blobs
  {
  }

  lemma SameNumbers(s: State, t: State)
    requires Numbered(s) && t.versions == s.versions && t.heads == s.heads
    ensures Numbered(t)
  {
  }

  lemma ExtendsChains(s: State, t: State, u: State)
    requires Extends(s, t) && Extends(t, u)
    ensures Extends(s, u)
  {
  }

  lemma CreatedShape(c: Config, s: State, card: Card, data: Image, parent: int)
    requires PushCard(c, s, card, data, parent).1.Created?
    ensures parent == s.Head(card) && data != []
    ensures PushCard(c, s, card, data, parent)
         == (WithBlob(c, s, data).Append(card, Version(parent, c.hash(data), |data|)), Created(parent + 1))
  {
  }

  /** A push that creates a version: it named head, and the new head carries its digest. */
  lemma PushCreates(c: Config, s: State, card: Card, data: Image, parent: int)
    requires Lineage(c, s) && PushCard(c, s, card, data, parent).1.Created?
    ensures parent == s.Head(card) && PushCard(c, s, card, data, parent).1 == Created(parent + 1)
    ensures var t := PushCard(c, s, card, data, parent).0;
            && Lineage(c, t) && Extends(s, t) && t.Head(card) == parent + 1
            && Row(card, parent + 1) !in s.versions
            && t.Get(card, parent + 1) == Some(Version(parent, c.hash(data), |data|))
  {
    CreatedShape(c, s, card, data, parent);
    var stored, v := WithBlob(c, s, data), Version(parent, c.hash(data), |data|);
    WithBlobKeeps(c, s, data);
    AppendKeeps(c, stored, card, v);
    ExtendsChains(s, stored, stored.Append(card, v));
  }

  /**
   A push moves head exactly when it names head as its parent and is not already
   there; everything else leaves the database untouched.
   */
  lemma PushRule(c: Config, s: State, card: Card, data: Image, parent: int)
    requires Lineage(c, s)
    ensures var (t, o) := PushCard(c, s, card, data, parent);
            && (!o.Created? ==> t == s)
            && (o.Unchanged? ==>
                  && o.version == s.Head(card) != 0
                  && Row(card, o.version) in s.versions && s.versions[Row(card, o.version)].sha256 == c.hash(data))
            && (o.Conflict? ==> o.head == s.Head(card) != parent)
            && (o.Created? <==>
                  && data != [] && |data| <= c.maxCardBytes && c.valid(data) && parent == s.Head(card)
                  && !(s.Get(card, s.Head(card)).Some? && s.Get(card, s.Head(card)).value.sha256 == c.hash(data)))
  {
    HeadIsNewest(c, s, card);
  }

  /** Whatever a push is answered with as its version is on record with the pushed digest. */
  lemma PushRecords(c: Config, s: State, card: Card, data: Image, parent: int)
    requires Lineage(c, s)
    ensures var (t, o) := PushCard(c, s, card, data, parent);
            && Lineage(c, t) && Extends(s, t)
            && (o.Created? || o.Unchanged? ==>
                  Row(card, o.version) in t.versions && t.versions[Row(card, o.version)].sha256 == c.hash(data))
  {
    PushRule(c, s, card, data, parent);
    if PushCard(c, s, card, data, parent).1.Created? {
      PushCreates(c, s, card, data, parent);
    }
  }

  /** With no digest collision in play, what was pushed is what is read back. */
  lemma PushedReadsBack(c: Config, s: State, card: Card, data: Image, parent: int)
    requires Lineage(c, s)
    requires forall a, b :: c.hash(a) == c.hash(b) ==> a == b
    requires PushCard(c, s, card, data, parent).1.Created?
    ensures var (t, o) := PushCard(c, s, card, data, parent); t.Read(card, o.version) == Some(data)
  {
    PushCreates(c, s, card, data, parent);
  }

  /** A rollback appends the old version's digest under a new number, or is already there. */
  lemma RollbackRule(c: Config, s: State, card: Card, to: nat)
    requires Lineage(c, s)
    ensures var (t, o) := RollbackCard(s, card, to);
            && Lineage(c, t) && Extends(s, t)
            && (!o.Created? ==> t == s)
            && (o.NotFound? <==> !(1 <= to <= s.Head(card)))
            && (!o.NotFound? ==>
                  && (o.Created? || o.Unchanged?)
                  && Row(card, o.version) in t.versions && Row(card, to) in s.versions
                  && o.version == t.Head(card)
                  && t.versions[Row(card, o.version)].sha256 == s.versions[Row(card, to)].sha256)
            && (o.Created? ==> o.version == s.Head(card) + 1)
  {
    HeadIsNewest(c, s, card);
    if Row(card, to) in s.versions {
      var target := s.versions[Row(card, to)];
      AppendKeeps(c, s, card, Version(s.Head(card), target.sha256, target.size));
    }
  }

  // ----- whole runs of the store

  datatype Op =
    | DoPush(gameId: string, slot: nat, data: Image, parent: int)
    | DoRollback(gameId: string, slot: nat, to: nat)

  function Do(c: Config, s: State, op: Op): (State, PushOutcome)
  {
    match op
    case DoPush(gameId, slot, data, parent) => PushNamed(c, s, gameId, slot, data, parent)
    case DoRollback(gameId, slot, to) => RollbackNamed(s, gameId, slot, to)
  }

  function DoAll(c: Config, s: State, ops: seq<Op>): State
    decreases |ops|
  {
    if ops == [] then s else DoAll(c, Do(c, s, ops[0]).0, ops[1..])
  }

  /** How many pushes over a run created a version of `card` naming `parent`. */
  function CreatedOn(c: Config, s: State, ops: seq<Op>, card: Card, parent: int): nat
    decreases |ops|
  {
    if ops == [] then 0
    else
      CreatedOn(c, Do(c, s, ops[0]).0, ops[1..], card, parent)
      + if CreatesOn(c, s, ops[0], card, parent) then 1 else 0
  }

  lemma DoKeeps(c: Config, s: State, op: Op)
    requires Lineage(c, s)
    ensures var (t, o) := Do(c, s, op); Lineage(c, t) && Extends(s, t) && (!o.Created? ==> t == s)
  {
    match Normalise(op.gameId, op.slot)
    case None =>
    case Some(card) =>
      match op
      case DoPush(_, _, data, parent) =>
        PushRule(c, s, card, data, parent);
        if PushCard(c, s, card, data, parent).1.Created? {
          PushCreates(c, s, card, data, parent);
        }
      case DoRollback(_, _, to) => RollbackRule(c, s, card, to);
  }

  /** Whether `op` is a push of `card` naming `parent` that the store accepted as a new version. */
  predicate CreatesOn(c: Config, s: State, op: Op, card: Card, parent: int)
  {
    op.DoPush? && op.parent == parent && Normalise(op.gameId, op.slot) == Some(card) && Do(c, s, op).1.Created?
  }

  lemma CreatedMovesHead(c: Config, s: State, op: Op, card: Card, parent: int)
    requires Lineage(c, s)
    ensures s.Head(card) <= Do(c, s, op).0.Head(card)
    ensures CreatesOn(c, s, op, card, parent) ==> parent == s.Head(card) < Do(c, s, op).0.Head(card)
  {
    DoKeeps(c, s, op);
    HeadIsNewest(c, s, card);
    HeadIsNewest(c, Do(c, s, op).0, card);
    if CreatesOn(c, s, op, card, parent) {
      PushCreates(c, s, card, op.data, parent);
    }
  }

  /** Every run keeps the lineage and only ever adds history. */
  lemma {:induction false} RunsKeepLineage(c: Config, s: State, ops: seq<Op>)
    requires Lineage(c, s)
    ensures Lineage(c, DoAll(c, s, ops)) && Extends(s, DoAll(c, s, ops))
    decreases |ops|
  {
    if ops != [] {
      DoKeeps(c, s, ops[0]);
      RunsKeepLineage(c, Do(c, s, ops[0]).0, ops[1..]);
      ExtendsChains(s, Do(c, s, ops[0]).0, DoAll(c, s, ops));
    }
  }

  /** Over any run, at most one push is ever created on a given parent of a card: no save is overwritten twice over. */
  lemma {:induction false} OnePushPerParent(c: Config, s: State, ops: seq<Op>, card: Card, parent: int)
    requires Lineage(c, s)
    ensures CreatedOn(c, s, ops, card, parent) <= 1
    ensures parent < s.Head(card) ==> CreatedOn(c, s, ops, card, parent) == 0
    decreases |ops|
  {
    if ops != [] {
      DoKeeps(c, s, ops[0]);
      CreatedMovesHead(c, s, ops[0], card, parent);
      OnePushPerParent(c, Do(c, s, ops[0]).0, ops[1..], card, parent);
    }
  }

  // ----- the store the server holds

  class Database {
    const config: Config
    var versions: map<Row, Version>
    var heads: map<Card, nat>
    var blobs: map<Digest, Image>

    ghost function View(): State
      reads this
    {
      State(versions, heads, blobs)
    }

    constructor (config: Config)
      ensures this.config == config && View() == EMPTY
    {
      this.config := config;
      versions, heads, blobs := map[], map[], map[];
    }

    method Head(card: Card) returns (version: nat)
      ensures version == View().Head(card)
    {
      version := if card in heads && Row(card, heads[card]) in versions then heads[card] else 0;
    }

    /** The row and the moved head pointer, in one transaction. */
    method InsertVersion(card: Card, version: Version)
      modifies this`versions, this`heads
      ensures View() == old(View()).Append(card, version)
    {
      versions := versions[Row(card, version.parent + 1) := version];
      heads := heads[card := version.parent + 1];
    }

    method Push(gameId: string, slot: nat, data: Image, parent: int) returns (outcome: PushOutcome)
      modifies this`versions, this`heads, this`blobs
      ensures (View(), outcome) == PushNamed(config, old(View()), gameId, slot, data, parent)
    {
      var name := Normalise(gameId, slot);
      if name.None? {
        return Invalid;
      }
      var card := name.value;
      if data == [] {
        return Invalid;
      }
      if |data| > config.maxCardBytes {
        return TooLarge;
      }
      if parent < 0 || !config.valid(data) {
        return Invalid;
      }
      var digest := config.hash(data);
      var head := Head(card);
      if head != 0 && versions[Row(card, head)].sha256 == digest {
        return Unchanged(head);
      }
      if parent != head {
        return Conflict(head);
      }
      if digest !in blobs {
        blobs := blobs[digest := data];
      }
      InsertVersion(card, Version(head, digest, |data|));
      outcome := Created(head + 1);
    }

    method Rollback(gameId: string, slot: nat, to: nat) returns (outcome: PushOutcome)
      modifies this`versions, this`heads
      ensures (View(), outcome) == RollbackNamed(old(View()), gameId, slot, to)
    {
      var name := Normalise(gameId, slot);
      if name.None? {
        return Invalid;
      }
      var card := name.value;
      if Row(card, to) !in versions {
        return NotFound;
      }
      var target := versions[Row(card, to)];
      var head := Head(card);
      if head != 0 && versions[Row(card, head)].sha256 == target.sha256 {
        return Unchanged(head);
      }
      InsertVersion(card, Version(head, target.sha256, target.size));
      outcome := Created(head + 1);
    }

    /** `get_version` and `read_image`. */
    method Read(card: Card, version: nat) returns (image: Option<Image>)
      ensures image == View().Read(card, version)
    {
      if Row(card, version) !in versions {
        return None;
      }
      var sha := versions[Row(card, version)].sha256;
      image := if sha in blobs then Some(blobs[sha]) else None;
    }
  }
}
