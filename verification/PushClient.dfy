/**
 The console's side of a push as it runs: loops over a link to the listener object,
 proved to do exactly what the functions of `Push` say.
 */
module PushClient {
  import opened Bytes
  import opened Bitmaps
  import opened Staging
  import opened Store
  import opened Server
  import opened Fingerprint
  import opened Delta
  import opened Listener
  import opened Push

  class Link {
    const server: Protocol
    const key: Key
    /** The adversary's plan. Once it runs out, every wait times out. */
    var script: seq<Moment>
    var outbox: seq<Event>
    var inbox: seq<Tagged>

    ghost predicate Valid()
      reads this, server, server.store, server.owner.Keys
    {
      server.Valid() && this !in server.owner
    }

    ghost function View(): World
      reads this, server, server.store
    {
      World(server.View(), outbox, inbox, script)
    }

    constructor (server: Protocol, key: Key, script: seq<Moment>)
      requires server.Valid()
      ensures Valid() && this.server == server && this.key == key
      ensures View() == World(server.View(), [], [], script)
    {
      this.server, this.key, this.script := server, key, script;
      outbox, inbox := [], [];
    }

    method Emit(e: Event)
      requires Valid()
      modifies this`outbox
      ensures Valid() && View() == old(View()).(outbox := old(outbox) + [e])
    {
      outbox := outbox + [e];
    }

    /** One datagram reaches the server, and its replies join whatever is on its way back. */
    method Bring(e: Event, origin: Origin)
      requires Valid()
      modifies this`inbox, server`staging, server`settled, server`transfers, server`owner, server.store,
               server.owner.Keys
      ensures Valid() && forall o | o in server.owner && o !in old(server.owner) :: fresh(o)
      ensures View() == Arrive(server.config, old(View()), e, origin)
    {
      hide Protocol.Valid, Step;
      var replies := server.Handle(e);
      inbox := inbox + Answers(replies, origin);
    }

    /** One act of the network. */
    method Do(act: Act)
      requires Valid()
      modifies this`inbox, server`staging, server`settled, server`transfers, server`owner, server.store,
               server.owner.Keys
      ensures Valid() && forall o | o in server.owner && o !in old(server.owner) :: fresh(o)
      ensures View() == Done(server.config, old(View()), act)
    {
      hide Protocol.Valid, Step;
      match act
      case Deliver(which, at) =>
        if which < |outbox| {
          Bring(Stamped(outbox[which], at), Mine(Stamped(outbox[which], at)));
        }
      case Beside(event) => Bring(event, Besides(event));
      case Elsewhere(event) => var _ := server.Handle(event);
      case Stray(reply) => inbox := inbox + [Tagged(reply, Unrelated)];
    }

    /** `await_reply`: the network does as it pleases, then hands over one authenticated datagram or nothing. */
    method Await() returns (got: Option<Tagged>)
      requires Valid()
      modifies this`inbox, this`script, server`staging, server`settled, server`transfers, server`owner, server.store,
               server.owner.Keys
      ensures Valid() && forall o | o in server.owner && o !in old(server.owner) :: fresh(o)
      ensures (View(), got) == Awaited(server.config, old(View()))
    {
      hide Protocol.Valid, Done;
      if script == [] {
        return None;
      }
      var moment := script[0];
      script := script[1..];
      var n := 0;
      assert moment.acts[0..] == moment.acts;
      while n < |moment.acts|
        invariant 0 <= n <= |moment.acts| && Valid()
        invariant forall o | o in server.owner && o !in old(server.owner) :: fresh(o)
        invariant AllDone(server.config, View(), moment.acts[n..])
               == AllDone(server.config, old(View()).(script := old(script)[1..]), moment.acts)
        decreases |moment.acts| - n
      {
        assert moment.acts[n..][0] == moment.acts[n] && moment.acts[n..][1..] == moment.acts[n + 1..];
        Do(moment.acts[n]);
        n := n + 1;
      }
      got := Picked(inbox, moment.pick);
    }
  }

  /** `control_exchange`: send until something answers, `maxRounds` times at most. */
  method ControlExchange(link: Link, e: Event, maxRounds: nat) returns (got: Option<Tagged>)
    requires link.Valid()
    modifies link`outbox, link`inbox, link`script
    modifies link.server`staging, link.server`settled, link.server`transfers, link.server`owner, link.server.store,
             link.server.owner.Keys
    ensures link.Valid() && forall o | o in link.server.owner && o !in old(link.server.owner) :: fresh(o)
    ensures (link.View(), got) == Exchange(link.server.config, old(link.View()), e, maxRounds)
  {
    hide Link.Valid, Awaited;
    var attempt := 0;
    while attempt < maxRounds
      invariant link.Valid() && forall o | o in link.server.owner && o !in old(link.server.owner) :: fresh(o)
      invariant 0 <= attempt <= maxRounds
      invariant Exchange(link.server.config, link.View(), e, maxRounds - attempt)
             == Exchange(link.server.config, old(link.View()), e, maxRounds)
    {
      link.Emit(e);
      got := link.Await();
      if got.Some? {
        return;
      }
      attempt := attempt + 1;
    }
    got := None;
  }

  /** `send_chunks`. */
  method SendChunks(link: Link, image: Image, bitmap: array<byte>)
    requires link.Valid()
    modifies link`outbox
    ensures link.Valid()
    ensures link.View() == old(link.View()).(outbox :=
              old(link.outbox) + ChunkRound(link.key, image, Marked(bitmap[..], 0), ChunkCount(|image|)))
  {
    hide Link.Valid, Marked;
    var chunks := ChunkCount(|image|);
    var index := 0;
    assert link.outbox == old(link.outbox) + ChunkRound(link.key, image, Marked(bitmap[..], 0), 0);
    while index < chunks
      invariant 0 <= index <= chunks && link.Valid()
      invariant link.View() == old(link.View()).(outbox :=
                  old(link.outbox) + ChunkRound(link.key, image, Marked(bitmap[..], 0), index))
    {
      SeesMark(bitmap[..], index);
      if Test(bitmap[..], 0, index) {
        link.Emit(ChunkEvent(link.key, image, index));
      }
      index := index + 1;
    }
  }

  lemma SeesMark(bitmap: seq<byte>, index: nat)
    ensures Test(bitmap, 0, index) <==> index in Marked(bitmap, 0)
  {
  }

  /** The client's bitmap below the card's end is exactly `s`. */
  method LoadBitmap(bitmap: array<byte>, chunks: nat, dirty: Option<seq<byte>>)
    requires BytesFor(chunks) <= bitmap.Length && (dirty.Some? ==> BytesFor(chunks) <= |dirty.value|)
    modifies bitmap
    ensures SameBits(bitmap[..], chunks, if dirty.Some? then Marked(dirty.value, 0) else UpTo(chunks))
  {
    var needed := BytesFor(chunks);
    Clear(bitmap, needed);
    match dirty
    case Some(bits) =>
      forall i | 0 <= i < needed {
        bitmap[i] := bits[i];
      }
      forall i: nat | i < chunks ensures i in Marked(bitmap[..], 0) <==> i in Marked(bits, 0) {
        MarkedIsTest(bitmap[..], 0, i);
        MarkedIsTest(bits, 0, i);
      }
    case None =>
      var i := 0;
      while i < chunks
        invariant 0 <= i <= chunks
        invariant forall n: nat | n < chunks :: n in Marked(bitmap[..], 0) <==> n < i
      {
        MarkInPlace(bitmap, 0, i);
        i := i + 1;
      }
  }

  /**
   Collect gap windows until nothing more comes. What the client will resend is
   then exactly what the windows it heard name.
   */
  method GatherGaps(link: Link, first: Tagged, chunks: nat, bitmap: array<byte>)
    returns (ended: Option<Outcome>, ghost heard: seq<Window>)
    requires link.Valid() && BytesFor(chunks) <= bitmap.Length && bitmap !in link.server.owner && first.reply.Gaps?
    modifies link`inbox, link`script, bitmap
    modifies link.server`staging, link.server`settled, link.server`transfers, link.server`owner, link.server.store,
             link.server.owner.Keys
    ensures link.Valid() && forall o | o in link.server.owner && o !in old(link.server.owner) :: fresh(o)
    ensures (link.View(), ended, heard) == Gathering(link.server.config, old(link.View()), [first.reply.window])
    ensures ended.None? ==> SameBits(bitmap[..], chunks, Resend(heard, chunks))
  {
    hide Link.Valid, Resend, Wanted, Awaited;
    Clear(bitmap, BytesFor(chunks));
    heard := [];
    var t := first;
    EmptyResend(chunks);
    assert [] + [first.reply.window] == [first.reply.window];
    while true
      invariant link.Valid() && bitmap !in link.server.owner
      invariant forall o | o in link.server.owner && o !in old(link.server.owner) :: fresh(o)
      invariant t.reply.Gaps? && SameBits(bitmap[..], chunks, Resend(heard, chunks))
      invariant Gathering(link.server.config, link.View(), heard + [t.reply.window])
             == Gathering(link.server.config, old(link.View()), [first.reply.window])
      decreases |link.script|
    {
      ghost var before, was := bitmap[..], link.View();
      var window := t.reply.window;
      DecodeGaps([6] + window.bitmap, window.base, chunks, bitmap);
      assert ([6] + window.bitmap)[1..] == window.bitmap;
      ResendMore(heard, window, chunks, before, bitmap[..]);
      heard := heard + [window];
      AwaitedShrinks(link.server.config, was);
      var got := link.Await();
      if got.None? {
        return None, heard;
      }
      if !got.value.reply.Gaps? {
        return Some(InterpretLate(got.value)), heard;
      }
      t := got.value;
    }
  }

  lemma EmptyResend(chunks: nat)
    ensures Resend([], chunks) == {}
  {
  }

  lemma ResendMore(heard: seq<Window>, w: Window, chunks: nat, before: seq<byte>, after: seq<byte>)
    requires SameBits(before, chunks, Resend(heard, chunks))
    requires Marked(after, 0) == Marked(before, 0) + Wanted(w.bitmap, w.base, chunks)
    ensures SameBits(after, chunks, Resend(heard + [w], chunks))
  {
    hide Marked;
    assert forall x :: x in heard + [w] <==> x in heard || x == w;
    assert Resend(heard + [w], chunks) == Resend(heard, chunks) + Wanted(w.bitmap, w.base, chunks);
  }

  /** PUSH_BEGIN, falling back once from a delta the server cannot seed. */
  method Open(link: Link, size: nat, parent: nat, delta: bool, maxRounds: nat) returns (begun: Opened)
    requires link.Valid()
    modifies link`outbox, link`inbox, link`script
    modifies link.server`staging, link.server`settled, link.server`transfers, link.server`owner, link.server.store,
             link.server.owner.Keys
    ensures link.Valid() && forall o | o in link.server.owner && o !in old(link.server.owner) :: fresh(o)
    ensures (link.View(), begun)
         == Opening(link.server.config, old(link.View()), link.key, size, parent, delta, maxRounds)
  {
    hide Link.Valid, Exchange;
    var isDelta, attempt := delta, 0;
    while attempt < 2
      invariant link.Valid() && 0 <= attempt <= 2 && (attempt == 0 ==> isDelta == delta) && (attempt > 0 ==> !isDelta)
      invariant forall o | o in link.server.owner && o !in old(link.server.owner) :: fresh(o)
      invariant attempt < 2 && Opening(link.server.config, link.View(), link.key, size, parent, isDelta, maxRounds)
                            == Opening(link.server.config, old(link.View()), link.key, size, parent, delta, maxRounds)
    {
      var got := ControlExchange(link, Begin(link.key, size, parent, isDelta, 0.0), maxRounds);
      if got.Some? && got.value.reply.Ack? {
        return Going(isDelta);
      }
      if !(isDelta && got.Some? && Refuses(got.value.reply, DeltaUnavailable)) {
        return Stopped(Unanswered(got));
      }
      isDelta := false;
      attempt := attempt + 1;
    }
    assert false;
  }

  /** Every declaration window, each sent until acknowledged. */
  method Declare(link: Link, dirty: seq<byte>, chunks: nat, maxRounds: nat) returns (ended: Option<Outcome>)
    requires link.Valid() && BytesFor(chunks) <= |dirty|
    modifies link`outbox, link`inbox, link`script
    modifies link.server`staging, link.server`settled, link.server`transfers, link.server`owner, link.server.store,
             link.server.owner.Keys
    ensures link.Valid() && forall o | o in link.server.owner && o !in old(link.server.owner) :: fresh(o)
    ensures (link.View(), ended)
         == Declaring(link.server.config, old(link.View()), link.key, WindowsFrom(dirty, chunks, 0), maxRounds)
  {
    hide Link.Valid, Exchange;
    var windows := DeclareDelta(dirty, chunks);
    var n := 0;
    assert windows[0..] == windows;
    while n < |windows|
      invariant 0 <= n <= |windows| && link.Valid()
      invariant forall o | o in link.server.owner && o !in old(link.server.owner) :: fresh(o)
      invariant Declaring(link.server.config, link.View(), link.key, windows[n..], maxRounds)
             == Declaring(link.server.config, old(link.View()), link.key, windows, maxRounds)
    {
      assert windows[n..][0] == windows[n] && windows[n..][1..] == windows[n + 1..];
      var got := ControlExchange(link, DeclareEvent(link.key, windows[n], 0.0), maxRounds);
      if !(got.Some? && got.value.reply.Ack?) {
        return Some(Unanswered(got));
      }
      n := n + 1;
    }
    ended := None;
  }

  /** Chunks past the card's end are never sent, whatever the bitmap has there. */
  lemma {:induction false} SameRound(key: Key, image: Image, a: set<nat>, b: set<nat>, upTo: nat)
    requires upTo <= ChunkCount(|image|) && forall i: nat | i < upTo :: i in a <==> i in b
    ensures ChunkRound(key, image, a, upTo) == ChunkRound(key, image, b, upTo)
  {
    if upTo != 0 {
      SameRound(key, image, a, b, upTo - 1);
    }
  }

  /** One round: the chunks the bitmap names, then PUSH_END. */
  method SendRound(link: Link, image: Image, bitmap: array<byte>, digest: Digest, ghost want: set<nat>)
    requires link.Valid() && SameBits(bitmap[..], ChunkCount(|image|), want)
    modifies link`outbox
    ensures link.Valid()
    ensures link.View() == old(link.View()).(outbox := old(link.outbox) + RoundSent(link.key, image, digest, want))
  {
    hide Link.Valid, Marked, ChunkRound;
    SendChunks(link, image, bitmap);
    SameRound(link.key, image, Marked(bitmap[..], 0), want, ChunkCount(|image|));
    link.Emit(End(link.key, digest, 0.0));
    assert link.outbox == old(link.outbox) + RoundSent(link.key, image, digest, want);
  }

  /** Rounds of chunks until a verdict, resending what the gap reports name. */
  method RunRounds(link: Link, image: Image, bitmap: array<byte>, digest: Digest, maxRounds: nat, ghost first: set<nat>)
    returns (o: Outcome)
    requires link.Valid() && bitmap !in link.server.owner
    requires BytesFor(ChunkCount(|image|)) <= bitmap.Length && SameBits(bitmap[..], ChunkCount(|image|), first)
    modifies link`outbox, link`inbox, link`script, bitmap
    modifies link.server`staging, link.server`settled, link.server`transfers, link.server`owner, link.server.store,
             link.server.owner.Keys
    ensures link.Valid() && forall o | o in link.server.owner && o !in old(link.server.owner) :: fresh(o)
    ensures (link.View(), o) == Rounds(link.server.config, old(link.View()), link.key, image, digest, first, maxRounds)
  {
    hide Link.Valid, SameBits, Awaited, Gathering, RoundSent, Resend;
    var chunks := ChunkCount(|image|);
    var round := 0;
    ghost var want := first;
    while round < maxRounds
      invariant link.Valid() && bitmap !in link.server.owner && 0 <= round <= maxRounds
      invariant forall o | o in link.server.owner && o !in old(link.server.owner) :: fresh(o)
      invariant SameBits(bitmap[..], chunks, want)
      invariant Rounds(link.server.config, link.View(), link.key, image, digest, want, maxRounds - round)
             == Rounds(link.server.config, old(link.View()), link.key, image, digest, first, maxRounds)
    {
      round := round + 1;
      SendRound(link, image, bitmap, digest, want);
      var got := link.Await();
      if got.None? {
        continue;
      }
      if !got.value.reply.Gaps? {
        return Interpret(got.value);
      }
      var ended;
      ghost var heard;
      ended, heard := GatherGaps(link, got.value, chunks, bitmap);
      if ended.Some? {
        return ended.value;
      }
      want := Resend(heard, chunks);
    }
    o := Outcome(ErrGaveUp, None);
  }

  /** The exchange itself: open, declare, rounds. */
  method OpenAndSend(link: Link, image: Image, parent: nat, dirty: Option<seq<byte>>, bitmap: array<byte>,
                     maxRounds: nat)
    returns (o: Outcome)
    requires link.Valid() && bitmap !in link.server.owner && BytesFor(ChunkCount(|image|)) <= bitmap.Length
    requires Job(link.key, image, parent, dirty, maxRounds).Covers()
    modifies link`outbox, link`inbox, link`script, bitmap
    modifies link.server`staging, link.server`settled, link.server`transfers, link.server`owner, link.server.store,
             link.server.owner.Keys
    ensures link.Valid() && forall o | o in link.server.owner && o !in old(link.server.owner) :: fresh(o)
    ensures (link.View(), o)
         == Attempt(link.server.config, old(link.View()), Job(link.key, image, parent, dirty, maxRounds))
  {
    hide Link.Valid, SameBits, Opening, Declaring, Rounds, Marked, BytesFor, ChunkCount;
    ghost var j := Job(link.key, image, parent, dirty, maxRounds);
    var begun := Open(link, |image|, parent, dirty.Some?, maxRounds);
    if begun.Stopped? {
      return begun.o;
    }
    DeltaWasAsked(link.server.config, old(link.View()), j);
    if begun.delta {
      var ended := Declare(link, dirty.value, ChunkCount(|image|), maxRounds);
      if ended.Some? {
        return ended.value;
      }
    }
    LoadBitmap(bitmap, ChunkCount(|image|), if begun.delta then dirty else None);
    o := RunRounds(link, image, bitmap, link.server.config.store.hash(image), maxRounds, j.First(begun.delta));
  }

  /** A push goes on as a delta only if it was asked to. */
  lemma DeltaWasAsked(c: ServerConfig, w: World, j: Job)
    ensures var begun := Opening(c, w, j.key, |j.image|, j.parent, j.dirty.Some?, j.maxRounds).1;
            begun.Going? && begun.delta ==> j.dirty.Some?
  {
    var _ := OpeningSends(c, w, j.key, |j.image|, j.parent, j.dirty.Some?, j.maxRounds, c.store.hash([]));
  }

  /** `push_once`. */
  method PushOnce(link: Link, image: Image, parent: nat, dirty: Option<seq<byte>>, bitmap: array<byte>, maxRounds: nat)
    returns (o: Outcome)
    requires link.Valid() && bitmap !in link.server.owner
    requires Job(link.key, image, parent, dirty, maxRounds).Covers()
    modifies link`outbox, link`inbox, link`script, bitmap
    modifies link.server`staging, link.server`settled, link.server`transfers, link.server`owner, link.server.store,
             link.server.owner.Keys
    ensures link.Valid() && forall o | o in link.server.owner && o !in old(link.server.owner) :: fresh(o)
    ensures (link.View(), o)
         == Once(link.server.config, old(link.View()), Job(link.key, image, parent, dirty, maxRounds), bitmap.Length)
  {
    hide Link.Valid, Attempt, Marked, BytesFor, ChunkCount;
    var chunks := ChunkCount(|image|);
    if image == [] {
      return Outcome(ErrProtocol, None);
    }
    if bitmap.Length < BytesFor(chunks) {
      return Outcome(ErrTooBig, None);
    }
    if dirty.Some? {
      var past := DeclaresPastTheEnd(dirty.value, chunks);
      if past {
        return Outcome(ErrProtocol, None);
      }
    }
    o := OpenAndSend(link, image, parent, dirty, bitmap, maxRounds);
  }

  /**
   `ss_push_delta`, against any loss, delay, reordering and repetition, and whatever else this
   console is being told meanwhile. It does exactly what `Pushed` says; so what it sends is
   `Push.PushedIsInOrder`'s, and success that answers its own PUSH_END is on record.
   */
  method PushDelta(link: Link, image: Image, parent: nat, dirty: Option<seq<byte>>, bitmap: array<byte>, maxRounds: nat)
    returns (o: Outcome, ghost a: Trace, ghost b: Option<Trace>)
    requires link.Valid() && bitmap !in link.server.owner
    requires Job(link.key, image, parent, dirty, maxRounds).Covers()
    modifies link`outbox, link`inbox, link`script, bitmap
    modifies link.server`staging, link.server`settled, link.server`transfers, link.server`owner, link.server.store,
             link.server.owner.Keys
    ensures link.Valid() && forall o | o in link.server.owner && o !in old(link.server.owner) :: fresh(o)
    ensures var (c, j) := (link.server.config, Job(link.key, image, parent, dirty, maxRounds));
            && (link.View(), o) == Pushed(c, old(link.View()), j, bitmap.Length)
            && (b.Some? <==> dirty.Some? && Once(c, old(link.View()), j, bitmap.Length).1.Checksum())
            && link.outbox == old(link.outbox) + Emitted(link.key, image, parent, c.store.hash(image), a)
                              + (if b.Some? then Emitted(link.key, image, parent, c.store.hash(image), b.value) else [])
            && (b.Some? ==> Push.InOrder(link.inbox, j.(dirty := None), b.value))
            && (b.None? ==> Push.InOrder(link.inbox, j, a))
            && Answered(link.inbox, o)
            && (Sound(c, old(link.View()), link.key, c.store.hash(image)) ==>
                  TrulyPushed(link.server.View().store, link.key, c.store.hash(image), o))
  {
    hide Link.Valid, Once, Emitted, Push.InOrder, Answered, TrulyPushed, Sound, Outcome.Checksum, BytesFor, ChunkCount,
         Follows;
    ghost var j := Job(link.key, image, parent, dirty, maxRounds);
    a, b := PushedIsInOrder(link.server.config, link.View(), j, bitmap.Length);
    o := PushOnce(link, image, parent, dirty, bitmap, maxRounds);
    if dirty.Some? && o.Checksum() {
      o := PushOnce(link, image, parent, None, bitmap, maxRounds);
    }
  }
}
