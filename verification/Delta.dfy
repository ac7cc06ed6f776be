/**
 The delta pipeline end to end: windowed declarations on the client, unpacking on
 the server, chunks in any order, and the digest that decides.
 */
module Delta {
  import opened Bytes
  import opened Bitmaps
  import opened Staging
  import opened Store
  import opened Server
  import opened Fingerprint

  /** Chunks one PUSH_DELTA covers. */
  const DELTA_WINDOW := MAX_PAYLOAD * 8

  // ----- the client's declarations

  /** A run of bytes cut out of a bitmap names the same chunks, from its own base. */
  lemma SliceNames(bitmap: seq<byte>, from: nat, len: nat, i: nat)
    requires from + len <= |bitmap|
    ensures i in Marked(bitmap[from..from + len], 8 * from)
       <==> 8 * from <= i < 8 * (from + len) && i in Marked(bitmap, 0)
  {
    if 8 * from <= i < 8 * (from + len) {
      assert (i - 8 * from) / 8 == i / 8 - from && (i - 8 * from) % 8 == i % 8;
      MarkedIsTest(bitmap[from..from + len], 8 * from, i);
      MarkedIsTest(bitmap, 0, i);
    }
  }

  /** Bytes without their trailing zeros. */
  function Trimmed(bytes: seq<byte>): seq<byte>
  {
    if bytes == [] || bytes[|bytes| - 1] != 0 then bytes else Trimmed(bytes[..|bytes| - 1])
  }

  /** What is cut off names nothing. */
  lemma {:induction false} TrimmedNames(bytes: seq<byte>, base: nat)
    ensures |Trimmed(bytes)| <= |bytes| && Trimmed(bytes) == bytes[..|Trimmed(bytes)|]
    ensures Marked(Trimmed(bytes), base) == Marked(bytes, base)
    decreases |bytes|
  {
    if bytes != [] && bytes[|bytes| - 1] == 0 {
      var front := bytes[..|bytes| - 1];
      TrimmedNames(front, base);
      forall i: nat ensures i in Marked(front, base) <==> i in Marked(bytes, base) {
        MarkedIsTest(front, base, i);
        MarkedIsTest(bytes, base, i);
        ZeroHasNoBits((i - base) % 8);
      }
    }
  }

  /** `declare_window`: the caller's own bytes, without the trailing zeros that declare nothing. */
  method TrimWindow(dirty: seq<byte>, base: nat, len: nat) returns (payload: seq<byte>)
    requires base % 8 == 0 && base / 8 + len <= |dirty|
    ensures payload == Trimmed(dirty[base / 8..base / 8 + len])
    ensures |payload| <= len && (payload != [] ==> payload[|payload| - 1] != 0)
    ensures forall i: nat :: i in Marked(payload, base) <==> base <= i < base + 8 * len && i in Marked(dirty, 0)
  {
    var n, from := len, base / 8;
    while n > 0 && dirty[from + n - 1] == 0
      invariant 0 <= n <= len
      invariant Trimmed(dirty[from..from + n]) == Trimmed(dirty[from..from + len])
    {
      assert dirty[from..from + n][..n - 1] == dirty[from..from + n - 1];
      n := n - 1;
    }
    payload := dirty[from..from + n];
    forall i: nat ensures i in Marked(payload, base) <==> base <= i < base + 8 * len && i in Marked(dirty, 0) {
      WindowNames(dirty, base, len, i);
    }
  }

  /** So a window of the bitmap names what the bitmap does there. */
  lemma WindowNames(dirty: seq<byte>, base: nat, len: nat, i: nat)
    requires base % 8 == 0 && base / 8 + len <= |dirty|
    ensures i in Marked(Trimmed(dirty[base / 8..base / 8 + len]), base)
       <==> base <= i < base + 8 * len && i in Marked(dirty, 0)
  {
    hide Marked;
    var from := base / 8;
    assert base == 8 * from;
    TrimmedNames(dirty[from..from + len], base);
    SliceNames(dirty, from, len, i);
  }

  /** A declaration that fits one datagram and starts where a window does. */
  predicate IsDeclaration(w: Window) {
    w.base % DELTA_WINDOW == 0 && 0 < |w.bitmap| <= MAX_PAYLOAD
  }

  /** The bytes of the window from `base`, or of what is left of it. */
  function WindowBytes(chunks: nat, base: nat): nat
    requires base <= chunks
  {
    BytesFor(if chunks - base < DELTA_WINDOW then chunks - base else DELTA_WINDOW)
  }

  /** The windows sent from the w-th on, in order. */
  function WindowsFrom(dirty: seq<byte>, chunks: nat, w: nat): seq<Window>
    requires BytesFor(chunks) <= |dirty|
    decreases chunks - DELTA_WINDOW * w
  {
    var base := DELTA_WINDOW * w;
    if base >= chunks then []
    else
      WindowInside(chunks, base, w);
      var payload := Trimmed(dirty[base / 8..base / 8 + WindowBytes(chunks, base)]);
      (if payload == [] then [] else [Window(base, payload)]) + WindowsFrom(dirty, chunks, w + 1)
  }

  /** They name exactly what the bitmap names from there on, each in one datagram. */
  lemma {:induction false} WindowsFromName(dirty: seq<byte>, chunks: nat, w: nat)
    requires BytesFor(chunks) <= |dirty|
    ensures forall x | x in WindowsFrom(dirty, chunks, w) :: IsDeclaration(x)
    ensures forall i: nat :: i in Named(WindowsFrom(dirty, chunks, w)) <==>
              DELTA_WINDOW * w <= i < 8 * BytesFor(chunks) && i in Marked(dirty, 0)
    decreases chunks - DELTA_WINDOW * w
  {
    hide Marked, Named, BytesFor, Trimmed;
    var base := DELTA_WINDOW * w;
    NothingNamed();
    if base >= chunks {
      BaseCovers(chunks, base, w);
    } else {
      var len := WindowBytes(chunks, base);
      WindowInside(chunks, base, w);
      TrimmedNames(dirty[base / 8..base / 8 + len], base);
      WindowsFromName(dirty, chunks, w + 1);
      var payload, rest := Trimmed(dirty[base / 8..base / 8 + len]), WindowsFrom(dirty, chunks, w + 1);
      if payload != [] {
        NamedPrepend(Window(base, payload), rest);
      }
      assert [] + rest == rest;
      forall i: nat ensures i in Named(WindowsFrom(dirty, chunks, w)) <==>
          base <= i < 8 * BytesFor(chunks) && i in Marked(dirty, 0)
      {
        WindowReach(chunks, base, w, i);
        EmptyNamesNothing(base, i);
        WindowNames(dirty, base, len, i);
        assert base + DELTA_WINDOW == DELTA_WINDOW * (w + 1);
      }
    }
  }

  lemma NamedPrepend(w: Window, rest: seq<Window>)
    ensures Named([w] + rest) == Marked(w.bitmap, w.base) + Named(rest)
  {
    hide Marked;
    assert forall x :: x in [w] + rest <==> x == w || x in rest;
  }

  /** `declare_delta`: the windows that are sent, in order; all-zero windows are not. */
  method DeclareDelta(dirty: seq<byte>, chunks: nat) returns (windows: seq<Window>)
    requires BytesFor(chunks) <= |dirty|
    ensures windows == WindowsFrom(dirty, chunks, 0)
    ensures forall w | w in windows :: IsDeclaration(w)
    ensures forall i: nat :: i in Named(windows) <==> i < 8 * BytesFor(chunks) && i in Marked(dirty, 0)
  {
    hide Marked, Named, BytesFor, Trimmed;
    windows := [];
    var base := 0;
    ghost var w := 0;
    while base < chunks
      invariant base == DELTA_WINDOW * w
      invariant windows + WindowsFrom(dirty, chunks, w) == WindowsFrom(dirty, chunks, 0)
    {
      var left := chunks - base;
      var len := BytesFor(if left < DELTA_WINDOW then left else DELTA_WINDOW);
      WindowInside(chunks, base, w);
      var payload := TrimWindow(dirty, base, len);
      if payload != [] {
        windows := windows + [Window(base, payload)];
      }
      base, w := base + DELTA_WINDOW, w + 1;
    }
    WindowsFromName(dirty, chunks, 0);
  }

  lemma NothingNamed()
    ensures Named([]) == {}
  {
  }

  lemma EmptyNamesNothing(base: nat, i: nat)
    ensures i !in Marked([], base)
  {
  }

  /** A window's bytes lie inside the bitmap and inside a datagram. */
  lemma WindowInside(chunks: nat, base: nat, w: nat)
    requires base < chunks && base == DELTA_WINDOW * w
    ensures var len := WindowBytes(chunks, base);
            base % 8 == 0 && base / 8 + len <= BytesFor(chunks) && len <= MAX_PAYLOAD
    ensures base % DELTA_WINDOW == 0
  {
    hide BytesFor;
    WholeBytes(base, w);
    BytesPast(chunks, base, w);
    var left := chunks - base;
    BytesMonotone(if left < DELTA_WINDOW then left else DELTA_WINDOW, left);
    EighthsFit(if left < DELTA_WINDOW then left else DELTA_WINDOW, MAX_PAYLOAD);
  }

  lemma WholeBytes(base: nat, w: nat)
    requires base == DELTA_WINDOW * w
    ensures base % 8 == 0 && base / 8 == MAX_PAYLOAD * w && base % DELTA_WINDOW == 0
  {
    assert base == 8 * (MAX_PAYLOAD * w);
  }

  lemma BytesMonotone(m: nat, n: nat)
    requires m <= n
    ensures BytesFor(m) <= BytesFor(n)
  {
  }

  lemma WindowReach(chunks: nat, base: nat, w: nat, i: nat)
    requires base < chunks && base == DELTA_WINDOW * w
    ensures var len := WindowBytes(chunks, base);
            i < base + 8 * len <==> i < base + DELTA_WINDOW && i < 8 * BytesFor(chunks)
  {
    BytesPast(chunks, base, w);
  }

  /** Whole windows come off a byte count exactly. */
  lemma BytesPast(chunks: nat, base: nat, w: nat)
    requires base <= chunks && base == DELTA_WINDOW * w
    ensures 8 * BytesFor(chunks - base) + base == 8 * BytesFor(chunks)
  {
    var q, r := (chunks + 7) / 8, (chunks + 7) % 8;
    assert chunks - base + 7 == 8 * (q - MAX_PAYLOAD * w) + r;
  }

  lemma BaseCovers(chunks: nat, base: nat, w: nat)
    requires chunks <= base && base == DELTA_WINDOW * w
    ensures 8 * BytesFor(chunks) <= base
  {
    EighthsFit(chunks, MAX_PAYLOAD * w);
  }

  lemma EighthsFit(n: nat, k: nat)
    requires n <= 8 * k
    ensures BytesFor(n) <= k
  {
  }

  /** `declares_past_the_end`: a bit in the last byte past the last chunk. */
  method DeclaresPastTheEnd(dirty: seq<byte>, chunks: nat) returns (past: bool)
    requires BytesFor(chunks) <= |dirty|
    ensures past <==> exists i: nat :: chunks <= i < 8 * BytesFor(chunks) && i in Marked(dirty, 0)
  {
    var bit := chunks;
    while bit % 8 != 0
      invariant chunks <= bit <= 8 * BytesFor(chunks)
      invariant forall i: nat | chunks <= i < bit :: i !in Marked(dirty, 0)
      decreases 8 * BytesFor(chunks) - bit
    {
      MarkedIsTest(dirty, 0, bit);
      if Bit(dirty[bit / 8], bit % 8) {
        return true;
      }
      bit := bit + 1;
    }
    assert bit == 8 * BytesFor(chunks);
    past := false;
  }

  // ----- the server's side

  /** Chunks and declarations of an honest push of `image` under `key`; anything else is free. */
  ghost predicate Honest(e: Event, key: Key, image: Image) {
    match e
    case PushChunk(k, sequence, offset, payload, _) =>
      k == key ==>
        && sequence < ChunkCount(|image|) && offset == MAX_PAYLOAD * sequence
        && payload == ChunkOf(image, sequence)
    case Delta(k, base, bitmap, _) =>
      k == key ==> forall i | i in Marked(bitmap, base) :: i < ChunkCount(|image|)
    case _ => true
  }

  ghost predicate AllHonest(es: seq<Event>, key: Key, image: Image) {
    forall e | e in es :: Honest(e, key, image)
  }

  /**
   An event that leaves the open buffer of `key` open: no PUSH_BEGIN of it is accepted, no
   PUSH_END finds it complete, and a sweep comes within the time-to-live of its last chunk.
   */
  ghost predicate Undisturbed(c: ServerConfig, s: ServerState, e: Event, key: Key) {
    match e
    case Begin(k, _, _, _, _) => k == key ==> Step(c, s, e).0 == s
    case End(k, _, _) => k == key && key in s.staging ==> !s.staging[key].Complete()
    case Sweep(now) => key in s.staging ==> now - s.staging[key].lastChunkAt <= c.stagingTtl
    case _ => true
  }

  /** So along a whole run. */
  ghost predicate Calm(c: ServerConfig, s: ServerState, es: seq<Event>, key: Key)
    decreases |es|
  {
    es == [] || (Undisturbed(c, s, es[0], key) && Calm(c, Step(c, s, es[0]).0, es[1..], key))
  }

  /** A run of nothing but chunks and declarations disturbs no buffer. */
  lemma {:induction false} ChunksAreCalm(c: ServerConfig, s: ServerState, es: seq<Event>, key: Key)
    requires forall e | e in es :: e.PushChunk? || e.Delta?
    ensures Calm(c, s, es, key)
    decreases |es|
  {
    hide Step;
    if es != [] {
      assert es[0] in es && forall e | e in es[1..] :: e in es;
      ChunksAreCalm(c, Step(c, s, es[0]).0, es[1..], key);
    }
  }

  /** The chunks of `key` a run delivers. */
  ghost function Sent(es: seq<Event>, key: Key): set<nat> {
    set e | e in es && e.PushChunk? && e.key == key :: e.sequence
  }

  /** The chunks of `key` a run declares. */
  ghost function Declared(es: seq<Event>, key: Key): set<nat> {
    set e, i | e in es && e.Delta? && e.key == key && i in Marked(e.bitmap, e.base) :: i
  }

  /** `t` further along the same push: its bytes, arrivals and promises in closed form. */
  ghost predicate Advanced(t: Transfer, u: Transfer, image: Image, sent: set<nat>, declared: set<nat>) {
    && |t.data| == |image|
    && u.data == Overlay(t.data, image, sent)
    && u.received == t.received + sent && u.declared == t.declared + declared
    && u.key == t.key && u.parent == t.parent && u.isDelta == t.isDelta
  }

  lemma AdvancedChains(t: Transfer, u: Transfer, v: Transfer, image: Image, sent: set<nat>, declared: set<nat>,
                       sent': set<nat>, declared': set<nat>)
    requires Advanced(t, u, image, sent, declared) && Advanced(u, v, image, sent', declared')
    ensures Advanced(t, v, image, sent + sent', declared + declared')
  {
    assert v.data == Overlay(t.data, image, sent + sent');
  }

  lemma OneHonestStep(c: ServerConfig, s: ServerState, e: Event, key: Key, image: Image)
    requires Honest(e, key, image) && Undisturbed(c, s, e, key)
    requires key in s.staging && |s.staging[key].data| == |image|
    requires s.staging[key].isDelta || Declared([e], key) == {}
    ensures var t := Step(c, s, e).0;
            key in t.staging && Advanced(s.staging[key], t.staging[key], image, Sent([e], key), Declared([e], key))
  {
    var t := Step(c, s, e).0;
    var was := s.staging[key];
    if e.PushChunk? && e.key == key {
      assert was.data == Overlay(was.data, image, {});
      SpliceIsOverlay(was.data, image, {}, e.sequence);
      assert {} + {e.sequence} == {e.sequence} == Sent([e], key);
    } else if e.Delta? && e.key == key {
      assert Declared([e], key) == Marked(e.bitmap, e.base);
      assert was.data == Overlay(was.data, image, {});
    } else {
      assert t.staging[key] == was;
      assert was.data == Overlay(was.data, image, {});
      assert Sent([e], key) == {} && Declared([e], key) == {};
    }
  }

  /**
   Any honest run, through sweeps, gap reports and whatever concerns other keys, leaves
   the buffer holding the seed overlaid with what was sent.
   */
  lemma {:induction false} HonestRun(c: ServerConfig, s: ServerState, es: seq<Event>, key: Key, image: Image)
    requires AllHonest(es, key, image) && Calm(c, s, es, key)
    requires key in s.staging && |s.staging[key].data| == |image|
    requires s.staging[key].isDelta || Declared(es, key) == {}
    ensures key in Run(c, s, es).staging
    ensures Advanced(s.staging[key], Run(c, s, es).staging[key], image, Sent(es, key), Declared(es, key))
    decreases |es|
  {
    hide Step, Honest, Undisturbed;
    if es == [] {
      assert s.staging[key].data == Overlay(s.staging[key].data, image, {});
    } else {
      var e, rest := es[0], es[1..];
      var t := Step(c, s, e).0;
      assert forall x :: x in es <==> x == e || x in rest;
      assert Sent(es, key) == Sent([e], key) + Sent(rest, key);
      assert Declared(es, key) == Declared([e], key) + Declared(rest, key);
      OneHonestStep(c, s, e, key, image);
      HonestRun(c, t, rest, key, image);
      AdvancedChains(s.staging[key], t.staging[key], Run(c, s, es).staging[key], image,
                     Sent([e], key), Declared([e], key), Sent(rest, key), Declared(rest, key));
    }
  }

  /** Sending more than the dirty chunks does no harm: the rebuilt card is still the card. */
  lemma MoreIsStillTheCard(parent: Image, card: Image, dirty: set<nat>, sent: set<nat>)
    requires |parent| == |card| && dirty <= sent && Overlay(parent, card, dirty) == card
    ensures Overlay(parent, card, sent) == card
  {
    forall i | 0 <= i < |card| ensures Overlay(parent, card, sent)[i] == card[i] {
      assert Overlay(parent, card, dirty)[i] == card[i];
    }
  }

  /**
   The pipeline preserves meaning. A delta opened on the parent the table was
   taken from, declaring exactly the scanned chunks, every declared chunk landing
   at least once in any order among anything else: the transfer is complete, the
   buffer is the client's card byte for byte, and PUSH_END puts exactly that card
   to the store.
   */
  lemma DeltaPreservesMeaning(c: ServerConfig, s: ServerState, es: seq<Event>, key: Key, card: Image,
                              parentImage: Image, parent: nat, at: real, now: real)
    requires key in s.staging && s.staging[key] == Transfer(key, parent, true, parentImage, {}, {}, at)
    requires |card| == |parentImage| && NoCollision(card, parentImage)
    requires AllHonest(es, key, card) && Calm(c, s, es, key)
    requires Declared(es, key) == DirtyChunks(card, Table(parentImage)) <= Sent(es, key)
    ensures var t := Run(c, s, es);
            && key in t.staging && t.staging[key].Complete() && t.staging[key].data == card
            && var (store, outcome) := PushNamed(c.store, t.store, key.gameId, key.slot, card, parent);
               && OnEnd(c, t, key, c.store.hash(card), now).1 == [VerdictOf(outcome)]
               && OnEnd(c, t, key, c.store.hash(card), now).0.store == store
  {
    HonestRun(c, s, es, key, card);
    var u := Run(c, s, es).staging[key];
    DirtyChunksRebuildCard(card, parentImage);
    MoreIsStillTheCard(parentImage, card, DirtyChunks(card, Table(parentImage)), Sent(es, key));
    assert u.Missing() == {};
  }

  /**
   The same for a whole-card push: opened empty, every chunk landing at least once
   in any order, PUSH_END puts exactly the client's card to the store.
   */
  lemma WholePushPreservesMeaning(c: ServerConfig, s: ServerState, es: seq<Event>, key: Key, card: Image, parent: nat,
                                  at: real, now: real)
    requires key in s.staging && s.staging[key] == Transfer(key, parent, false, Zeros(|card|), {}, {}, at)
    requires AllHonest(es, key, card) && Calm(c, s, es, key) && Declared(es, key) == {}
    requires forall i: nat | i < ChunkCount(|card|) :: i in Sent(es, key)
    ensures var t := Run(c, s, es);
            && key in t.staging && t.staging[key].Complete() && t.staging[key].data == card
            && var (store, outcome) := PushNamed(c.store, t.store, key.gameId, key.slot, card, parent);
               && OnEnd(c, t, key, c.store.hash(card), now).1 == [VerdictOf(outcome)]
               && OnEnd(c, t, key, c.store.hash(card), now).0.store == store
  {
    HonestRun(c, s, es, key, card);
    var u := Run(c, s, es).staging[key];
    forall i | 0 <= i < |card| ensures u.data[i] == card[i] {
      assert i / MAX_PAYLOAD in Sent(es, key);
    }
    assert u.Missing() == {};
  }

  /**
   Without any hypothesis on the table or the seed. A delta opened on any image at all,
   any honest run in which whatever was declared lands: PUSH_END puts an image with the
   card's own digest to the store, or answers CHECKSUM, drops the buffer and stores nothing.
   */
  lemma DeltaIsNeverTrusted(c: ServerConfig, s: ServerState, es: seq<Event>, key: Key, card: Image, seed: Image,
                            parent: nat, at: real, now: real)
    requires key in s.staging && s.staging[key] == Transfer(key, parent, true, seed, {}, {}, at)
    requires |card| == |seed| && AllHonest(es, key, card) && Calm(c, s, es, key)
    requires Declared(es, key) <= Sent(es, key)
    ensures var t := Run(c, s, es);
            var (u, replies) := OnEnd(c, t, key, c.store.hash(card), now);
            var data := Overlay(seed, card, Sent(es, key));
            && key in t.staging && t.staging[key].data == data
            && if c.store.hash(data) == c.store.hash(card) then
                 var (store, outcome) := PushNamed(c.store, t.store, key.gameId, key.slot, data, parent);
                 replies == [VerdictOf(outcome)] && u.store == store
               else
                 && replies == [Nack(ChecksumMismatch, 0)] && u.store == t.store
                 && u.staging == t.staging - {key}
  {
    HonestRun(c, s, es, key, card);
    assert Run(c, s, es).staging[key].Missing() == {};
  }

  /**
   And after a CHECKSUM the whole-card push that follows is accepted at once, and ends in
   the store's verdict on exactly the client's card, whatever the delta was built on.
   */
  lemma RefusedDeltaThenWholeCard(c: ServerConfig, s: ServerState, es: seq<Event>, key: Key, card: Image, seed: Image,
                                  parent: nat, at: real, now: real, again: real, es': seq<Event>, now': real)
    requires Inv(c, s) && key in s.staging && s.staging[key] == Transfer(key, parent, true, seed, {}, {}, at)
    requires |card| == |seed| && AllHonest(es, key, card) && Calm(c, s, es, key)
    requires Declared(es, key) <= Sent(es, key)
    requires c.store.hash(Overlay(seed, card, Sent(es, key))) != c.store.hash(card)
    requires AllHonest(es', key, card) && Declared(es', key) == {}
    requires forall i: nat | i < ChunkCount(|card|) :: i in Sent(es', key)
    requires Calm(c, Retried(c, s, es, key, card, parent, now, again).0, es', key)
    ensures Retried(c, s, es, key, card, parent, now, again).1 == [Ack(key.transferId)]
    ensures var v := Run(c, Retried(c, s, es, key, card, parent, now, again).0, es');
            var (store, outcome) := PushNamed(c.store, v.store, key.gameId, key.slot, card, parent);
            && OnEnd(c, v, key, c.store.hash(card), now').1 == [VerdictOf(outcome)]
            && OnEnd(c, v, key, c.store.hash(card), now').0.store == store
  {
    hide Run, OnEnd, PushNamed, VerdictOf, Calm;
    DeltaIsNeverTrusted(c, s, es, key, card, seed, parent, at, now);
    var t := Run(c, s, es);
    RunKeeps(c, s, es);
    var u := OnEnd(c, t, key, c.store.hash(card), now).0;
    RoomAfterDrop(c, t, u, key);
    assert 0 < |t.staging[key].data| <= c.store.maxCardBytes;
    var v := OnBegin(c, u, key, |card|, parent, false, again);
    assert v.1 == [Ack(key.transferId)];
    assert Retried(c, s, es, key, card, parent, now, again) == v;
    WholePushPreservesMeaning(c, v.0, es', key, card, parent, again, now');
  }

  /** The delta's run, its PUSH_END, and the PUSH_BEGIN of the whole card. */
  ghost function Retried(c: ServerConfig, s: ServerState, es: seq<Event>, key: Key, card: Image, parent: nat,
                         now: real, again: real): (ServerState, seq<Reply>)
  {
    Step(c, OnEnd(c, Run(c, s, es), key, c.store.hash(card), now).0, Begin(key, |card|, parent, false, again))
  }

  /** Dropping a buffer makes room for one. */
  lemma RoomAfterDrop(c: ServerConfig, t: ServerState, u: ServerState, key: Key)
    requires Inv(c, t) && key in t.staging && u.staging == t.staging - {key}
    ensures |u.staging| < c.maxStaging
  {
    assert t.staging.Keys == u.staging.Keys + {key};
    assert |t.staging.Keys| == |u.staging.Keys| + 1;
  }
}
