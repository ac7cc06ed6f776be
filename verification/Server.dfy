/**
 The push side of the UDP listener: staging buffers, remembered verdicts, and
 the one decision each transfer gets. Handlers are atomic here.
 */
module Server {
  import opened Bytes
  import opened Bitmaps
  import opened Staging
  import opened Store

  datatype ServerConfig = ServerConfig(store: Config, maxStaging: nat, stagingTtl: real)

  datatype Error =
    | MalformedHeader
    | ConflictCode
    | ChecksumMismatch
    | FailedValidation
    | TooLargeCode
    | RateLimited
    | StagingExpired
    | DeltaUnavailable
    | UnknownCard

  /** A reply datagram; `version` is the header's card_version, echoed unless a handler overrides it. */
  datatype Reply =
    | Ack(version: nat)
    | Nack(code: Error, version: nat)
    | Gaps(window: Window)
    /** A PULL_CHUNK. Its first byte is all that a push ever looks at. */
    | CardData(first: byte)

  datatype Settled = Settled(reply: Reply, at: real)

  datatype ServerState = ServerState(staging: map<Key, Transfer>, settled: map<Key, Settled>, store: State)

  const IDLE: ServerState := ServerState(map[], map[], Store.EMPTY)

  /** Everything that can reach the server: datagrams, the sweep timer, and the HTTP side of the store. */
  datatype Event =
    | Begin(key: Key, totalSize: nat, parent: nat, isDelta: bool, now: real)
    | Delta(key: Key, base: nat, bitmap: seq<byte>, now: real)
    | PushChunk(key: Key, sequence: nat, offset: nat, payload: seq<byte>, now: real)
    | End(key: Key, digest: Digest, now: real)
    | Sweep(now: real)
    | Http(op: Op)

  // ----- the handlers as functions of the state

  /** `_seed_from_parent`: v0, an unknown version, a missing blob or a changed size cannot seed. */
  function SeedFromParent(s: State, key: Key, totalSize: nat, parent: nat): Option<Image>
  {
    if parent == 0 then None
    else
      match Normalise(key.gameId, key.slot)
      case None => None
      case Some(card) =>
        match s.Read(card, parent)
        case None => None
        case Some(image) => if |image| == totalSize then Some(image) else None
  }

  function OnBegin(c: ServerConfig, s: ServerState, key: Key, totalSize: nat, parent: nat, isDelta: bool, now: real)
    : (ServerState, seq<Reply>)
  {
    if totalSize > c.store.maxCardBytes then (s, [Nack(TooLargeCode, key.transferId)])
    else if totalSize == 0 then (s, [Nack(MalformedHeader, key.transferId)])
    else if key !in s.staging && |s.staging| >= c.maxStaging then (s, [Nack(RateLimited, key.transferId)])
    else
      match if isDelta then SeedFromParent(s.store, key, totalSize, parent) else Some(Zeros(totalSize))
      case None => (s, [Nack(DeltaUnavailable, key.transferId)])
      case Some(seed) =>
        (s.(settled := s.settled - {key},
            staging := s.staging[key := Transfer(key, parent, isDelta, seed, {}, {}, now)]),
         [Ack(key.transferId)])
  }

  ghost function OnDelta(s: ServerState, key: Key, base: nat, bitmap: seq<byte>, now: real): (ServerState, seq<Reply>)
  {
    if key !in s.staging then (s, [Nack(StagingExpired, key.transferId)])
    else if !s.staging[key].isDelta then (s, [Nack(MalformedHeader, key.transferId)])
    else
      var t := s.staging[key].DeclareAll(Marked(bitmap, base));
      if exists i :: i in Marked(bitmap, base) && i >= s.staging[key].Expected() then
        (s.(staging := s.staging[key := t]), [Nack(MalformedHeader, key.transferId)])
      else
        (s.(staging := s.staging[key := t.(lastChunkAt := now)]), [Ack(key.transferId)])
  }

  function OnChunk(s: ServerState, key: Key, sequence: nat, offset: nat, payload: seq<byte>, now: real)
    : (ServerState, seq<Reply>)
  {
    if key !in s.staging then (s, [Nack(StagingExpired, key.transferId)])
    else
      var (t, ok) := s.staging[key].StoreChunk(sequence, offset, payload, now);
      (s.(staging := s.staging[key := t]), if ok then [] else [Nack(MalformedHeader, key.transferId)])
  }

  /** The answer a finished transfer earns. */
  function VerdictOf(outcome: PushOutcome): Reply
  {
    match outcome
    case Created(v) => Ack(v)
    case Unchanged(v) => Ack(v)
    case Conflict(head) => Nack(ConflictCode, head)
    case TooLarge => Nack(TooLargeCode, 0)
    case Invalid => Nack(FailedValidation, 0)
    case NotFound => Nack(FailedValidation, 0)
  }

  /** One NACK per window of gaps, enough windows to reach the end of the card. */
  ghost function GapReplies(t: Transfer): seq<Reply>
  {
    var windows := WindowsBelow(t.Missing(), t.Expected() / BITMAP_WINDOW + 1);
    seq(|windows|, i requires 0 <= i < |windows| => Gaps(windows[i]))
  }

  /** Drop the buffer, remember the reply, send it. */
  function Settle(s: ServerState, key: Key, reply: Reply, now: real): (ServerState, seq<Reply>)
  {
    (s.(staging := s.staging - {key}, settled := s.settled[key := Settled(reply, now)]), [reply])
  }

  ghost function OnEnd(c: ServerConfig, s: ServerState, key: Key, digest: Digest, now: real): (ServerState, seq<Reply>)
  {
    if key !in s.staging then
      (s, [if key in s.settled then s.settled[key].reply else Nack(StagingExpired, key.transferId)])
    else
      var t := s.staging[key];
      if !t.Complete() then (s, GapReplies(t))
      else if c.store.hash(t.data) != digest then Settle(s, key, Nack(ChecksumMismatch, 0), now)
      else
        var (store, outcome) := PushNamed(c.store, s.store, t.key.gameId, t.key.slot, t.data, t.parent);
        Settle(s.(store := store), key, VerdictOf(outcome), now)
  }

  function OnSweep(c: ServerConfig, s: ServerState, now: real): ServerState
  {
    s.(staging := map k | k in s.staging && now - s.staging[k].lastChunkAt <= c.stagingTtl :: s.staging[k],
       settled := map k | k in s.settled && now - s.settled[k].at <= c.stagingTtl :: s.settled[k])
  }

  ghost function Step(c: ServerConfig, s: ServerState, e: Event): (ServerState, seq<Reply>)
  {
    match e
    case Begin(key, totalSize, parent, isDelta, now) => OnBegin(c, s, key, totalSize, parent, isDelta, now)
    case Delta(key, base, bitmap, now) => OnDelta(s, key, base, bitmap, now)
    case PushChunk(key, sequence, offset, payload, now) => OnChunk(s, key, sequence, offset, payload, now)
    case End(key, digest, now) => OnEnd(c, s, key, digest, now)
    case Sweep(now) => (OnSweep(c, s, now), [])
    case Http(op) => (s.(store := Do(c.store, s.store, op).0), [])
  }

  ghost function Run(c: ServerConfig, s: ServerState, es: seq<Event>): ServerState
    decreases |es|
  {
    if es == [] then s else Run(c, Step(c, s, es[0]).0, es[1..])
  }

  // ----- what every state keeps

  ghost predicate Inv(c: ServerConfig, s: ServerState) {
    && Lineage(c.store, s.store)
    && s.staging.Keys !! s.settled.Keys
    && |s.staging| <= c.maxStaging
    && (forall k | k in s.staging ::
          s.staging[k].key == k && s.staging[k].Valid() && 0 < |s.staging[k].data| <= c.store.maxCardBytes)
  }

  lemma ReplacingKeepsSize<K, V>(m: map<K, V>, k: K, v: V)
    ensures |m[k := v]| == if k in m then |m| else |m| + 1
  {
    assert m[k := v].Keys == m.Keys + {k};
  }

  lemma RestrictingShrinks<K, V>(m: map<K, V>, r: map<K, V>)
    requires r.Keys <= m.Keys
    ensures |r| <= |m|
  {
    assert m.Keys == r.Keys + (m.Keys - r.Keys);
    assert |m.Keys| == |r.Keys| + |m.Keys - r.Keys|;
  }

  lemma SeedFits(s: State, key: Key, totalSize: nat, parent: nat)
    ensures var seed := SeedFromParent(s, key, totalSize, parent); seed.Some? ==> |seed.value| == totalSize
  {
  }

  lemma ZerosFit(n: nat)
    ensures |Zeros(n)| == n
  {
  }

  lemma BeginKeeps(c: ServerConfig, s: ServerState, key: Key, totalSize: nat, parent: nat, isDelta: bool, now: real)
    requires Inv(c, s)
    ensures var t := OnBegin(c, s, key, totalSize, parent, isDelta, now).0; Inv(c, t) && t.store == s.store
  {
    hide Inv, SeedFromParent, Zeros;
    SeedFits(s.store, key, totalSize, parent);
    ZerosFit(totalSize);
    var (t, replies) := OnBegin(c, s, key, totalSize, parent, isDelta, now);
    if replies == [Ack(key.transferId)] {
      OpenKeeps(c, s, key, t.staging[key]);
    }
  }

  lemma OpenKeeps(c: ServerConfig, s: ServerState, key: Key, t: Transfer)
    requires Inv(c, s) && (key in s.staging || |s.staging| < c.maxStaging)
    requires t.key == key && t.Valid() && 0 < |t.data| <= c.store.maxCardBytes
    ensures Inv(c, s.(settled := s.settled - {key}, staging := s.staging[key := t]))
  {
    hide Lineage, Transfer.Valid;
    ReplacingKeepsSize(s.staging, key, t);
  }

  lemma UpdateKeeps(c: ServerConfig, s: ServerState, key: Key, t: Transfer)
    requires Inv(c, s) && key in s.staging
    requires t.key == key && t.Valid() && |t.data| == |s.staging[key].data|
    ensures Inv(c, s.(staging := s.staging[key := t]))
  {
    ReplacingKeepsSize(s.staging, key, t);
  }

  lemma SettleKeeps(c: ServerConfig, s: ServerState, key: Key, reply: Reply, now: real)
    requires Inv(c, s)
    ensures Inv(c, Settle(s, key, reply, now).0)
  {
    RestrictingShrinks(s.staging, s.staging - {key});
  }

  lemma EndKeeps(c: ServerConfig, s: ServerState, key: Key, digest: Digest, now: real)
    requires Inv(c, s)
    ensures Inv(c, OnEnd(c, s, key, digest, now).0)
    ensures Extends(s.store, OnEnd(c, s, key, digest, now).0.store)
  {
    if key in s.staging && s.staging[key].Complete() {
      var t := s.staging[key];
      if c.store.hash(t.data) != digest {
        SettleKeeps(c, s, key, Nack(ChecksumMismatch, 0), now);
      } else {
        var op := DoPush(t.key.gameId, t.key.slot, t.data, t.parent);
        DoKeeps(c.store, s.store, op);
        var (store, outcome) := Do(c.store, s.store, op);
        SettleKeeps(c, s.(store := store), key, VerdictOf(outcome), now);
      }
    }
  }

  lemma DeltaKeeps(c: ServerConfig, s: ServerState, key: Key, base: nat, bitmap: seq<byte>, now: real)
    requires Inv(c, s)
    ensures Inv(c, OnDelta(s, key, base, bitmap, now).0) && OnDelta(s, key, base, bitmap, now).0.store == s.store
  {
    if key in s.staging && s.staging[key].isDelta {
      var t := s.staging[key].DeclareAll(Marked(bitmap, base));
      UpdateKeeps(c, s, key, t);
      UpdateKeeps(c, s, key, t.(lastChunkAt := now));
    }
  }

  lemma ChunkKeeps(c: ServerConfig, s: ServerState, key: Key, sequence: nat, offset: nat, payload: seq<byte>, now: real)
    requires Inv(c, s)
    ensures var t := OnChunk(s, key, sequence, offset, payload, now).0; Inv(c, t) && t.store == s.store
  {
    if key in s.staging {
      UpdateKeeps(c, s, key, s.staging[key].StoreChunk(sequence, offset, payload, now).0);
    }
  }

  lemma SweepKeeps(c: ServerConfig, s: ServerState, now: real)
    requires Inv(c, s)
    ensures Inv(c, OnSweep(c, s, now)) && OnSweep(c, s, now).store == s.store
  {
    RestrictingShrinks(s.staging, OnSweep(c, s, now).staging);
  }

  /** Every step keeps the invariant, so every run does, and history only grows. */
  lemma StepKeeps(c: ServerConfig, s: ServerState, e: Event)
    requires Inv(c, s)
    ensures Inv(c, Step(c, s, e).0)
    ensures Extends(s.store, Step(c, s, e).0.store)
  {
    if e.Begin? {
      BeginKeeps(c, s, e.key, e.totalSize, e.parent, e.isDelta, e.now);
    } else if e.Delta? {
      DeltaKeeps(c, s, e.key, e.base, e.bitmap, e.now);
    } else if e.PushChunk? {
      ChunkKeeps(c, s, e.key, e.sequence, e.offset, e.payload, e.now);
    } else if e.End? {
      EndKeeps(c, s, e.key, e.digest, e.now);
    } else if e.Sweep? {
      SweepKeeps(c, s, e.now);
    } else {
      DoKeeps(c.store, s.store, e.op);
    }
  }

  lemma {:induction false} RunKeeps(c: ServerConfig, s: ServerState, es: seq<Event>)
    requires Inv(c, s)
    ensures Inv(c, Run(c, s, es)) && Extends(s.store, Run(c, s, es).store)
    decreases |es|
  {
    if es != [] {
      var t := Step(c, s, es[0]).0;
      StepKeeps(c, s, es[0]);
      RunKeeps(c, t, es[1..]);
      ExtendsChains(s.store, t.store, Run(c, s, es).store);
    }
  }
}
