/**
 The console's side of a push as functions of the console, the listener and a
 network that may lose, delay, reorder and repeat whatever it carries, and what
 holds of every run of it.
 */
module Push {
  import opened Bytes
  import opened Bitmaps
  import opened Staging
  import opened Store
  import opened Server
  import opened Attempts
  import opened Fingerprint
  import opened Delta

  // ----- gap reports, as the client reads them

  /** The resend set after decoding a list of gap datagrams. */
  ghost function Resend(windows: seq<Window>, chunks: nat): set<nat>
  {
    set w, i | w in windows && i in Wanted(w.bitmap, w.base, chunks) :: i
  }

  lemma ReportNames(t: Transfer, w: Window)
    ensures Gaps(w) in GapReplies(t) <==> w in WindowsBelow(t.Missing(), t.Expected() / BITMAP_WINDOW + 1)
  {
    var windows := WindowsBelow(t.Missing(), t.Expected() / BITMAP_WINDOW + 1);
    if w in windows {
      var i :| 0 <= i < |windows| && windows[i] == w;
      assert GapReplies(t)[i] == Gaps(w);
    }
  }

  /** Windows that end within 32 bits are decoded for what they name, up to the card's end. */
  lemma ResendIsNamed(windows: seq<Window>, chunks: nat)
    requires forall w | w in windows :: w.base + 8 * |w.bitmap| <= WORD
    ensures Resend(windows, chunks) == set i | i in Named(windows) && i < chunks
  {
    hide Marked, Wanted;
    forall w | w in windows
      ensures Wanted(w.bitmap, w.base, chunks) == set i | i in Marked(w.bitmap, w.base) && i < chunks
    {
      WantedIsNamed(w.bitmap, w.base, chunks);
    }
    forall i: nat ensures i in Resend(windows, chunks) <==> i in Named(windows) && i < chunks {
      if i in Named(windows) && i < chunks {
        var w :| w in windows && i in Marked(w.bitmap, w.base);
        assert i in Wanted(w.bitmap, w.base, chunks);
      }
    }
  }

  /** If every window of a report arrives, in any order and however often, the resend set is what is missing. */
  lemma GapReportIsExact(t: Transfer, arrived: seq<Window>)
    requires t.Valid() && t.Expected() + BITMAP_WINDOW <= WORD
    requires forall w :: Gaps(w) in GapReplies(t) <==> w in arrived
    ensures Resend(arrived, t.Expected()) == t.Missing()
  {
    hide Marked, Resend, GapReplies, WindowsBelow;
    var q := t.Expected() / BITMAP_WINDOW + 1;
    var windows := WindowsBelow(t.Missing(), q);
    WindowsBelowName(t.Missing(), q);
    forall w ensures w in windows <==> w in arrived {
      ReportNames(t, w);
    }
    forall w | w in arrived ensures w.base + 8 * |w.bitmap| <= WORD {
      assert ProperWindow(w, q);
    }
    ResendIsNamed(arrived, t.Expected());
    assert Named(windows) == Named(arrived);
  }

  /** A report always says something: an unfinished transfer draws at least one gap datagram. */
  lemma EndAlwaysAnswers(c: ServerConfig, s: ServerState, key: Key, d: Digest, now: real)
    requires Inv(c, s)
    ensures OnEnd(c, s, key, d, now).1 != []
  {
    if key in s.staging && !s.staging[key].Complete() {
      var t := s.staging[key];
      var i :| i in t.Missing();
      var q := t.Expected() / BITMAP_WINDOW + 1;
      WindowsBelowName(t.Missing(), q);
      assert i < q * BITMAP_WINDOW;
      assert i in Named(WindowsBelow(t.Missing(), q));
      assert WindowsBelow(t.Missing(), q) != [];
    }
  }

  /** Chunks only ever pay off what is owed, and a round in which every owed chunk lands ends the asking. */
  lemma RoundPaysOff(t: Transfer, u: Transfer, image: Image, sent: set<nat>)
    requires Advanced(t, u, image, sent, {})
    ensures u.Missing() == t.Missing() - sent
    ensures t.Missing() <= sent ==> u.Complete()
  {
  }

  lemma CompleteDrawsVerdict(c: ServerConfig, s: ServerState, key: Key, d: Digest, now: real)
    requires Inv(c, s) && key in s.staging && s.staging[key].Complete()
    ensures var replies := OnEnd(c, s, key, d, now).1; |replies| == 1 && IsVerdict(replies[0])
  {
    DecisionIsTrue(c, s, key, d, now);
  }

  // ----- what reaches the console

  /**
   What a datagram that comes in answers: one of this push, another transfer of this console, or
   something else it asked.
   */
  datatype Origin =
    | Mine(event: Event)
    | Besides(event: Event)
    | Unrelated  // HELLO, a head query, a pull

  datatype Tagged = Tagged(reply: Reply, origin: Origin)
  {
    /** It answers a PUSH_END of this push. */
    predicate OfEnd() {
      origin.Mine? && origin.event.End?
    }
  }

  datatype Act =
    | Deliver(which: nat, at: real)  // a datagram of this push reaches the server, perhaps again
    | Beside(event: Event)           // a datagram of another transfer of this console does
    | Elsewhere(event: Event)        // something happens that is not this console's
    | Stray(reply: Reply)            // the reply to something else this console asked gets here

  /** What the network does while the client waits once, and which reply, if any, it then hands over. */
  datatype Moment = Moment(acts: seq<Act>, pick: int)

  /** Once the script, the adversary's plan, runs out, every wait times out. */
  datatype World = World(server: ServerState, outbox: seq<Event>, inbox: seq<Tagged>, script: seq<Moment>)

  function Stamped(e: Event, at: real): Event
  {
    match e
    case Begin(key, totalSize, parent, isDelta, _) => Begin(key, totalSize, parent, isDelta, at)
    case Delta(key, base, bitmap, _) => Delta(key, base, bitmap, at)
    case PushChunk(key, sequence, offset, payload, _) => PushChunk(key, sequence, offset, payload, at)
    case End(key, digest, _) => End(key, digest, at)
    case Sweep(_) => Sweep(at)
    case Http(op) => Http(op)
  }

  /** Not a datagram of transfer `key`. */
  predicate Foreign(e: Event, key: Key) {
    e.Sweep? || e.Http? || e.key != key
  }

  /** A datagram this push may send: its own key, and only its own digest. */
  predicate Ours(e: Event, key: Key, d: Digest) {
    !e.Sweep? && !e.Http? && e.key == key && (e.End? ==> e.digest == d)
  }

  /** Truth of the remembered verdict survives any step that is ours or foreign. */
  lemma StepKeepsTruth(c: ServerConfig, s: ServerState, e: Event, key: Key, d: Digest)
    requires Inv(c, s) && Truthful(s, key, d) && (Ours(e, key, d) || Foreign(e, key))
    ensures var (t, replies) := Step(c, s, e);
            && Inv(c, t) && Truthful(t, key, d) && Extends(s.store, t.store)
            && (e.End? && e.key == key ==> forall r | r in replies && r.Ack? :: Recorded(t.store, key, r.version, d))
            && (Ours(e, key, d) && !e.End? ==> forall r | r in replies && r.Ack? :: r.version == key.transferId)
  {
    hide Step, Inv, Recorded, Extends, IsVerdict;
    StepKeeps(c, s, e);
    OtherAcksEcho(c, s, e);
    if Opens(c, s, e, key) {
      BeginClears(c, s, e, key);
    } else {
      StepOfAttempt(c, s, e, key, d);
      if e.End? && e.key == key {
        EndAcksAreTrue(c, s, key, d, e.now);
        EndIsOnEnd(c, s, e);
      }
    }
  }

  lemma EndIsOnEnd(c: ServerConfig, s: ServerState, e: Event)
    requires e.End?
    ensures Step(c, s, e) == OnEnd(c, s, e.key, e.digest, e.now)
  {
  }

  /** Only PUSH_END is ever acknowledged with anything but the transfer's own id. */
  lemma OtherAcksEcho(c: ServerConfig, s: ServerState, e: Event)
    ensures !e.End? ==>
              forall r | r in Step(c, s, e).1 && r.Ack? :: !e.Sweep? && !e.Http? && r.version == e.key.transferId
  {
  }

  lemma EndAcksAreTrue(c: ServerConfig, s: ServerState, key: Key, d: Digest, now: real)
    requires Inv(c, s) && Truthful(s, key, d)
    ensures var (t, replies) := OnEnd(c, s, key, d, now);
            forall r | r in replies && r.Ack? :: Recorded(t.store, key, r.version, d)
  {
    if key in s.staging {
      if s.staging[key].Complete() {
        DecisionIsTrue(c, s, key, d, now);
      } else {
        GapsAreNotVerdicts(s.staging[key]);
      }
    }
  }

  // ----- the network at work

  /** One datagram reaches the server; its replies come back as answers to `origin`. */
  ghost function Arrive(c: ServerConfig, w: World, e: Event, origin: Origin): World
  {
    var (s, replies) := Step(c, w.server, e);
    w.(server := s, inbox := w.inbox + Answers(replies, origin))
  }

  function Answers(replies: seq<Reply>, origin: Origin): seq<Tagged>
  {
    seq(|replies|, i requires 0 <= i < |replies| => Tagged(replies[i], origin))
  }

  ghost function Done(c: ServerConfig, w: World, act: Act): World
  {
    match act
    case Deliver(which, at) =>
      if which < |w.outbox| then Arrive(c, w, Stamped(w.outbox[which], at), Mine(Stamped(w.outbox[which], at))) else w
    case Beside(e) => Arrive(c, w, e, Besides(e))
    case Elsewhere(e) => w.(server := Step(c, w.server, e).0)
    case Stray(reply) => w.(inbox := w.inbox + [Tagged(reply, Unrelated)])
  }

  ghost function AllDone(c: ServerConfig, w: World, acts: seq<Act>): World
    decreases |acts|
  {
    if acts == [] then w else AllDone(c, Done(c, w, acts[0]), acts[1..])
  }

  function Picked(inbox: seq<Tagged>, pick: int): Option<Tagged>
  {
    if 0 <= pick < |inbox| then Some(inbox[pick]) else None
  }

  /** `await_reply`: the network does as it pleases, then hands over one authenticated datagram or nothing. */
  ghost function Awaited(c: ServerConfig, w: World): (World, Option<Tagged>)
  {
    if w.script == [] then (w, None)
    else
      var v := AllDone(c, w.(script := w.script[1..]), w.script[0].acts);
      (v, Picked(v.inbox, w.script[0].pick))
  }

  // ----- the client

  datatype Rc = Ok | ErrTimeout | ErrTransport | ErrProtocol | ErrServer | ErrConflict | ErrTooBig | ErrGaveUp

  const CONFLICT_BYTE: byte := 5
  const CHECKSUM_BYTE: byte := 7

  /** The reply's code byte is that of `code`, as far as `note_nack` can tell. */
  predicate Reads(r: Reply, code: Error, first: byte) {
    (r.Nack? && r.code == code) || (r.CardData? && r.first == first)
  }

  /** A NACK with this code. */
  predicate Refuses(r: Reply, code: Error) {
    r.Nack? && r.code == code
  }

  /** How a push ended; `answer` is the datagram that ended it, when one did. */
  datatype Outcome = Outcome(rc: Rc, answer: Option<Tagged>)
  {
    /** The version the caller is told. */
    function Version(): nat
      requires rc.Ok? && answer.Some? && answer.value.reply.Ack?
    {
      answer.value.reply.version
    }

    predicate Checksum() {
      rc.ErrServer? && answer.Some? && Reads(answer.value.reply, ChecksumMismatch, CHECKSUM_BYTE)
    }
  }

  /** `note_nack`: a conflict is its own result, every other refusal is the server's. */
  function NoteNack(t: Tagged): Outcome
  {
    Outcome(if Reads(t.reply, ConflictCode, CONFLICT_BYTE) then ErrConflict else ErrServer, Some(t))
  }

  /** After the first gap report any ACK is taken for the commit, and anything else is looked at as a NACK. */
  function InterpretLate(t: Tagged): Outcome
  {
    if t.reply.Ack? then Outcome(Ok, Some(t)) else NoteNack(t)
  }

  /** Before it, a datagram that is neither is no answer at all. */
  function Interpret(t: Tagged): Outcome
  {
    if t.reply.CardData? then Outcome(ErrProtocol, Some(t)) else InterpretLate(t)
  }

  /** `control_exchange`: send until something answers, `rounds` times at most. */
  ghost function Exchange(c: ServerConfig, w: World, e: Event, rounds: nat): (World, Option<Tagged>)
    decreases rounds
  {
    if rounds == 0 then (w, None)
    else
      var (v, got) := Awaited(c, w.(outbox := w.outbox + [e]));
      if got.Some? then (v, got) else Exchange(c, v, e, rounds - 1)
  }

  /** What an exchange that draws no ACK comes to. */
  function Unanswered(got: Option<Tagged>): Outcome
  {
    if got.None? then Outcome(ErrTimeout, None) else Interpret(got.value)
  }

  /**
   PUSH_BEGIN, falling back once from a delta the server cannot seed. Whether it began as a delta,
   or how it ended.
   */
  datatype Opened = Going(delta: bool) | Stopped(o: Outcome)

  ghost function Opening(c: ServerConfig, w: World, key: Key, size: nat, parent: nat, delta: bool, rounds: nat)
    : (World, Opened)
    decreases delta
  {
    var (v, got) := Exchange(c, w, Begin(key, size, parent, delta, 0.0), rounds);
    if got.Some? && got.value.reply.Ack? then (v, Going(delta))
    else if delta && got.Some? && Refuses(got.value.reply, DeltaUnavailable) then
      Opening(c, v, key, size, parent, false, rounds)
    else (v, Stopped(Unanswered(got)))
  }

  /** Every declaration window, each sent until acknowledged. */
  ghost function Declaring(c: ServerConfig, w: World, key: Key, windows: seq<Window>, rounds: nat)
    : (World, Option<Outcome>)
    decreases |windows|
  {
    if windows == [] then (w, None)
    else
      var (v, got) := Exchange(c, w, DeclareEvent(key, windows[0], 0.0), rounds);
      if got.Some? && got.value.reply.Ack? then Declaring(c, v, key, windows[1..], rounds)
      else (v, Some(Unanswered(got)))
  }

  lemma AwaitedShrinks(c: ServerConfig, w: World)
    ensures var (v, got) := Awaited(c, w);
            && |v.script| <= |w.script| && (got.Some? ==> |v.script| < |w.script| && got.value in v.inbox)
            && v.outbox == w.outbox && Grows(w.inbox, v.inbox)
  {
    if w.script != [] {
      AllDoneGrows(c, w.(script := w.script[1..]), w.script[0].acts);
    }
  }

  lemma {:induction false} AllDoneGrows(c: ServerConfig, w: World, acts: seq<Act>)
    ensures var v := AllDone(c, w, acts);
            v.script == w.script && v.outbox == w.outbox && Grows(w.inbox, v.inbox)
    decreases |acts|
  {
    hide Step;
    if acts != [] {
      var u := Done(c, w, acts[0]);
      AllDoneGrows(c, u, acts[1..]);
      GrowsChain(w.inbox, u.inbox, AllDone(c, w, acts).inbox);
    }
  }

  /** Gap windows until nothing more comes: how that ended, if it ended the push, and the windows heard. */
  ghost function Gathering(c: ServerConfig, w: World, heard: seq<Window>): (World, Option<Outcome>, seq<Window>)
    decreases |w.script|
  {
    var (v, got) := Awaited(c, w);
    AwaitedShrinks(c, w);
    if got.None? then (v, None, heard)
    else if got.value.reply.Gaps? then Gathering(c, v, heard + [got.value.reply.window])
    else (v, Some(InterpretLate(got.value)), heard)
  }

  /** A round: the chunks it names, then a PUSH_END. */
  ghost function RoundSent(key: Key, image: Image, digest: Digest, want: set<nat>): seq<Event>
  {
    ChunkRound(key, image, want, ChunkCount(|image|)) + [End(key, digest, 0.0)]
  }

  /** Rounds until a verdict, each later one sending what the gap reports heard name. */
  ghost function Rounds(c: ServerConfig, w: World, key: Key, image: Image, digest: Digest, want: set<nat>, rounds: nat)
    : (World, Outcome)
    decreases rounds
  {
    if rounds == 0 then (w, Outcome(ErrGaveUp, None))
    else
      var (v, got) := Awaited(c, w.(outbox := w.outbox + RoundSent(key, image, digest, want)));
      if got.None? then Rounds(c, v, key, image, digest, want, rounds - 1)
      else if !got.value.reply.Gaps? then (v, Interpret(got.value))
      else
        var (u, ended, heard) := Gathering(c, v, [got.value.reply.window]);
        if ended.Some? then (u, ended.value)
        else Rounds(c, u, key, image, digest, Resend(heard, ChunkCount(|image|)), rounds - 1)
  }

  /** What a caller asks for: a card, its parent, and the changed chunks if it is to go as a delta. */
  datatype Job = Job(key: Key, image: Image, parent: nat, dirty: Option<seq<byte>>, maxRounds: nat)
  {
    function Chunks(): nat {
      ChunkCount(|image|)
    }

    function Begin(at: real): Event {
      Event.Begin(key, |image|, parent, dirty.Some?, at)
    }

    /** The caller's bitmap covers the card. */
    predicate Covers() {
      dirty.Some? ==> BytesFor(Chunks()) <= |dirty.value|
    }

    /** What the first round must send: the dirty chunks of a delta, else the whole card. */
    ghost function First(delta: bool): set<nat>
    {
      if delta && dirty.Some? then Marked(dirty.value, 0) else UpTo(Chunks())
    }

    /** What is refused before anything is sent, given room for a bitmap of `room` bytes. */
    ghost function Refusal(room: nat): Option<Rc>
    {
      if image == [] then Some(ErrProtocol)
      else if room < BytesFor(Chunks()) then Some(ErrTooBig)
      else if dirty.Some? && exists i: nat :: Chunks() <= i < 8 * BytesFor(Chunks()) && i in Marked(dirty.value, 0) then
        Some(ErrProtocol)
      else None
    }
  }

  /** The declarations of a delta. */
  function Windows(j: Job): seq<Window>
    requires j.Covers()
  {
    if j.dirty.Some? then WindowsFrom(j.dirty.value, j.Chunks(), 0) else []
  }

  /** `push_once` past its checks: open, declare, rounds. */
  ghost function Attempt(c: ServerConfig, w: World, j: Job): (World, Outcome)
    requires j.Covers()
  {
    var (v, begun) := Opening(c, w, j.key, |j.image|, j.parent, j.dirty.Some?, j.maxRounds);
    if begun.Stopped? then (v, begun.o)
    else
      var (u, ended) := if begun.delta then Declaring(c, v, j.key, Windows(j), j.maxRounds) else (v, None);
      if ended.Some? then (u, ended.value)
      else Rounds(c, u, j.key, j.image, c.store.hash(j.image), j.First(begun.delta), j.maxRounds)
  }

  /** `push_once`. */
  ghost function Once(c: ServerConfig, w: World, j: Job, room: nat): (World, Outcome)
    requires j.Covers()
  {
    if j.Refusal(room).Some? then (w, Outcome(j.Refusal(room).value, None)) else Attempt(c, w, j)
  }

  /** `ss_push_delta`: after a refused digest the whole card, once. */
  ghost function Pushed(c: ServerConfig, w: World, j: Job, room: nat): (World, Outcome)
    requires j.Covers()
  {
    var (v, o) := Once(c, w, j, room);
    if j.dirty.Some? && o.Checksum() then Once(c, v, j.(dirty := None), room) else (v, o)
  }

  // ----- replies only come, never go

  /** Replies are only ever added. */
  ghost predicate Grows(was: seq<Tagged>, now: seq<Tagged>) {
    |was| <= |now| && now[..|was|] == was
  }

  lemma GrowsChain(a: seq<Tagged>, b: seq<Tagged>, c: seq<Tagged>)
    requires Grows(a, b) && Grows(b, c)
    ensures Grows(a, c)
  {
    assert c[..|a|] == c[..|b|][..|a|];
  }

  lemma GrowsKeeps(a: seq<Tagged>, b: seq<Tagged>, t: Tagged)
    requires Grows(a, b) && t in a
    ensures t in b
  {
    var i :| 0 <= i < |a| && a[i] == t;
    assert b[..|a|][i] == b[i];
  }

  // ----- what the server has said stays true

  /** Whatever this push's PUSH_ENDs have been told is on record. */
  ghost predicate AcksTrue(inbox: seq<Tagged>, s: State, key: Key, d: Digest) {
    forall t | t in inbox && t.OfEnd() && t.reply.Ack? :: Recorded(s, key, t.reply.version, d)
  }

  /** Nobody else sends datagrams of this transfer. */
  ghost predicate Apart(acts: seq<Act>, key: Key) {
    forall act | act in acts && (act.Beside? || act.Elsewhere?) :: Foreign(act.event, key)
  }

  /** All that the attempt theorem needs of the server, of what was sent and of what is still to come. */
  ghost predicate Sound(c: ServerConfig, w: World, key: Key, d: Digest) {
    && Inv(c, w.server) && Truthful(w.server, key, d)
    && (forall e | e in w.outbox :: Ours(e, key, d))
    && (forall m | m in w.script :: Apart(m.acts, key))
    && AcksTrue(w.inbox, w.server.store, key, d)
  }

  lemma DoneIsSound(c: ServerConfig, w: World, act: Act, key: Key, d: Digest)
    requires Sound(c, w, key, d) && Apart([act], key)
    ensures Sound(c, Done(c, w, act), key, d)
  {
    hide Step, Inv, Truthful, Recorded, Extends;
    assert act in [act];
    var v := Done(c, w, act);
    if act.Stray? || (act.Deliver? && act.which >= |w.outbox|) {
      assert AcksTrue(v.inbox, v.server.store, key, d);
    } else {
      assert act.Deliver? ==> w.outbox[act.which] in w.outbox;
      var e := if act.Deliver? then Stamped(w.outbox[act.which], act.at) else act.event;
      assert Ours(e, key, d) || Foreign(e, key);
      StepKeepsTruth(c, w.server, e, key, d);
      var (s, replies) := Step(c, w.server, e);
      AcksLast(w.inbox, w.server.store, s.store, key, d);
      if act.Deliver? {
        NewAcks(replies, e, s.store, key, d);
      }
    }
  }

  lemma AcksLast(inbox: seq<Tagged>, s: State, t: State, key: Key, d: Digest)
    requires AcksTrue(inbox, s, key, d) && Extends(s, t)
    ensures AcksTrue(inbox, t, key, d)
  {
  }

  lemma NewAcks(replies: seq<Reply>, e: Event, s: State, key: Key, d: Digest)
    requires e.End? ==> forall r | r in replies && r.Ack? :: Recorded(s, key, r.version, d)
    ensures AcksTrue(Answers(replies, Mine(e)), s, key, d)
  {
    hide Recorded;
    forall t | t in Answers(replies, Mine(e)) && t.OfEnd() && t.reply.Ack?
      ensures Recorded(s, key, t.reply.version, d)
    {
      assert t.reply in replies;
    }
  }

  lemma {:induction false} AllDoneIsSound(c: ServerConfig, w: World, acts: seq<Act>, key: Key, d: Digest)
    requires Sound(c, w, key, d) && Apart(acts, key)
    ensures Sound(c, AllDone(c, w, acts), key, d)
    decreases |acts|
  {
    hide Sound, Done;
    if acts != [] {
      assert Apart([acts[0]], key) && Apart(acts[1..], key);
      DoneIsSound(c, w, acts[0], key, d);
      AllDoneIsSound(c, Done(c, w, acts[0]), acts[1..], key, d);
    }
  }

  /** `v` comes after `w`: replies only added, and sound if it was. */
  ghost predicate Follows(c: ServerConfig, w: World, v: World, key: Key, d: Digest) {
    Grows(w.inbox, v.inbox) && (Sound(c, w, key, d) ==> Sound(c, v, key, d))
  }

  lemma FollowsChain(c: ServerConfig, w: World, v: World, u: World, key: Key, d: Digest)
    requires Follows(c, w, v, key, d) && Follows(c, v, u, key, d)
    ensures Follows(c, w, u, key, d)
  {
    hide Sound;
    GrowsChain(w.inbox, v.inbox, u.inbox);
  }

  lemma AwaitedFollows(c: ServerConfig, w: World, key: Key, d: Digest)
    ensures var (v, got) := Awaited(c, w);
            && Follows(c, w, v, key, d) && v.outbox == w.outbox
            && (got.Some? ==> got.value in v.inbox)
  {
    hide Inv, Truthful, AcksTrue, Apart, AllDone;
    AwaitedShrinks(c, w);
    if w.script != [] && Sound(c, w, key, d) {
      assert w.script[0] in w.script;
      AllDoneIsSound(c, w.(script := w.script[1..]), w.script[0].acts, key, d);
    }
  }

  lemma SendingFollows(c: ServerConfig, w: World, es: seq<Event>, key: Key, d: Digest)
    requires forall e | e in es :: Ours(e, key, d)
    ensures Follows(c, w, w.(outbox := w.outbox + es), key, d)
  {
    hide Inv, Truthful, AcksTrue, Apart;
  }

  lemma SameFollows(c: ServerConfig, w: World, key: Key, d: Digest)
    ensures Follows(c, w, w, key, d)
  {
  }

  // ----- what a push puts on the wire

  /** The PUSH_BEGINs sent, by their delta flag; the declarations, repeats included; the rounds of chunks. */
  datatype Trace = Trace(begins: seq<bool>, declared: seq<Window>, rounds: seq<set<nat>>)

  function Begins(key: Key, size: nat, parent: nat, flags: seq<bool>): seq<Event>
  {
    seq(|flags|, i requires 0 <= i < |flags| => Begin(key, size, parent, flags[i], 0.0))
  }

  ghost function RoundsSent(key: Key, image: Image, digest: Digest, rounds: seq<set<nat>>): seq<Event>
  {
    if rounds == [] then []
    else RoundSent(key, image, digest, rounds[0]) + RoundsSent(key, image, digest, rounds[1..])
  }

  ghost function Emitted(key: Key, image: Image, parent: nat, digest: Digest, t: Trace): seq<Event>
  {
    Begins(key, |image|, parent, t.begins) + Declarations(key, t.declared, 0.0)
      + RoundsSent(key, image, digest, t.rounds)
  }

  /** Every window of a report the client heard is one that really came in. */
  ghost predicate Reported(inbox: seq<Tagged>, windows: seq<Window>) {
    forall w | w in windows :: exists t :: t in inbox && t.reply == Gaps(w)
  }

  /** A round repeats the one before, or sends exactly what some gap report that came in names. */
  ghost predicate NextRound(inbox: seq<Tagged>, chunks: nat, was: set<nat>, now: set<nat>) {
    now == was || exists heard: seq<Window> :: heard != [] && Reported(inbox, heard) && now == Resend(heard, chunks)
  }

  /** The rounds of a push that got as far as sending chunks. */
  ghost predicate RoundsFollow(inbox: seq<Tagged>, chunks: nat, first: set<nat>, rounds: seq<set<nat>>) {
    && (rounds != [] ==> rounds[0] == first)
    && forall i | 0 < i < |rounds| :: NextRound(inbox, chunks, rounds[i - 1], rounds[i])
  }

  /**
   The order of a push: PUSH_BEGIN until accepted, as a delta only if asked for; then, if
   it was accepted as one, declarations naming exactly the dirty chunks; then rounds.
   */
  ghost predicate InOrder(inbox: seq<Tagged>, j: Job, t: Trace) {
    && (forall flag | flag in t.begins && flag :: j.dirty.Some?)
    && (t.rounds != [] ==> t.begins != [])
    && (t.begins != [] ==> t.begins[0] == j.dirty.Some?)
    && (t.rounds != [] && j.dirty.Some? && !t.begins[|t.begins| - 1] ==>
          exists r :: r in inbox && Refuses(r.reply, DeltaUnavailable))
    && (t.rounds != [] ==>
          var delta := t.begins[|t.begins| - 1];
          && (delta ==> j.dirty.Some? && forall i: nat :: i in Named(t.declared) <==>
                i < 8 * BytesFor(j.Chunks()) && i in Marked(j.dirty.value, 0))
          && (!delta ==> t.declared == [])
          && RoundsFollow(inbox, j.Chunks(), j.First(delta), t.rounds))
  }

  /** A result is read off a datagram that came, or is the client's own: success and conflict never are. */
  ghost predicate Answered(inbox: seq<Tagged>, o: Outcome) {
    match o.answer
    case Some(t) => t in inbox && (o == Interpret(t) || o == InterpretLate(t))
    case None => o.rc.ErrTimeout? || o.rc.ErrProtocol? || o.rc.ErrTooBig? || o.rc.ErrGaveUp?
  }

  /** A push that ends before its first round: no answer, or a refusal. */
  ghost predicate Early(inbox: seq<Tagged>, o: Outcome) {
    Answered(inbox, o) && !o.rc.Ok? && !o.rc.ErrGaveUp? && !o.rc.ErrTooBig?
  }

  function Repeated(e: Event, n: nat): seq<Event>
  {
    seq(n, _ => e)
  }

  lemma {:induction false} ExchangeSends(c: ServerConfig, w: World, e: Event, rounds: nat, key: Key, d: Digest)
    returns (sent: nat)
    requires Ours(e, key, d)
    ensures var (v, got) := Exchange(c, w, e, rounds);
            && Follows(c, w, v, key, d) && v.outbox == w.outbox + Repeated(e, sent)
            && (got.Some? ==> got.value in v.inbox && 0 < sent <= rounds)
            && (got.None? ==> sent == rounds)
    decreases rounds
  {
    hide Awaited, Follows;
    if rounds == 0 {
      SameFollows(c, w, key, d);
      assert w.outbox == w.outbox + Repeated(e, 0);
      return 0;
    }
    var w' := w.(outbox := w.outbox + [e]);
    var (v, got) := Awaited(c, w');
    SendingFollows(c, w, [e], key, d);
    AwaitedFollows(c, w', key, d);
    FollowsChain(c, w, w', v, key, d);
    if got.Some? {
      assert Repeated(e, 1) == [e];
      return 1;
    }
    var more := ExchangeSends(c, v, e, rounds - 1, key, d);
    FollowsChain(c, w, v, Exchange(c, w, e, rounds).0, key, d);
    assert Repeated(e, more + 1) == [e] + Repeated(e, more);
    sent := more + 1;
  }

  function Flags(flag: bool, n: nat): seq<bool> {
    seq(n, _ => flag)
  }

  /** What goes out is PUSH_BEGINs alone, as a delta only while asked for and not refused. */
  lemma {:induction false} OpeningSends(c: ServerConfig, w: World, key: Key, size: nat, parent: nat, delta: bool,
                                        rounds: nat, d: Digest)
    returns (begins: seq<bool>)
    ensures var (v, begun) := Opening(c, w, key, size, parent, delta, rounds);
            && Follows(c, w, v, key, d) && v.outbox == w.outbox + Begins(key, size, parent, begins)
            && (forall flag | flag in begins && flag :: delta)
            && (begins != [] ==> begins[0] == delta)
            && (begun.Stopped? ==> Early(v.inbox, begun.o))
            && (begun.Going? ==> begins != [] && begins[|begins| - 1] == begun.delta && (begun.delta ==> delta))
            && (begun.Going? && delta && !begun.delta ==>
                 exists r :: r in v.inbox && Refuses(r.reply, DeltaUnavailable))
    decreases delta
  {
    hide Exchange, Follows, Grows;
    var e := Begin(key, size, parent, delta, 0.0);
    var (v, got) := Exchange(c, w, e, rounds);
    var sent := ExchangeSends(c, w, e, rounds, key, d);
    begins := Flags(delta, sent);
    assert Begins(key, size, parent, begins) == Repeated(e, sent);
    if delta && got.Some? && Refuses(got.value.reply, DeltaUnavailable) {
      var u := Opening(c, v, key, size, parent, false, rounds).0;
      var more := OpeningSends(c, v, key, size, parent, false, rounds, d);
      FollowsChain(c, w, v, u, key, d);
      StillIn(c, v, u, key, d, got.value);
      begins := begins + more;
      assert Begins(key, size, parent, begins) == Repeated(e, sent) + Begins(key, size, parent, more);
    }
  }

  lemma StillIn(c: ServerConfig, w: World, v: World, key: Key, d: Digest, t: Tagged)
    requires Follows(c, w, v, key, d) && t in w.inbox
    ensures t in v.inbox
  {
    GrowsKeeps(w.inbox, v.inbox, t);
  }

  function Again(w: Window, n: nat): seq<Window> {
    seq(n, _ => w)
  }

  /** What goes out is declarations alone; if the push goes on, they name what the windows name. */
  lemma {:induction false} DeclaringSends(c: ServerConfig, w: World, key: Key, windows: seq<Window>, rounds: nat,
                                          d: Digest)
    returns (declared: seq<Window>)
    ensures var (v, ended) := Declaring(c, w, key, windows, rounds);
            && Follows(c, w, v, key, d) && v.outbox == w.outbox + Declarations(key, declared, 0.0)
            && (ended.Some? ==> Early(v.inbox, ended.value))
            && (ended.None? ==> Named(declared) == Named(windows))
    decreases |windows|
  {
    hide Exchange, Follows, Named, Marked;
    if windows == [] {
      SameFollows(c, w, key, d);
      return [];
    }
    var e := DeclareEvent(key, windows[0], 0.0);
    var (v, got) := Exchange(c, w, e, rounds);
    var sent := ExchangeSends(c, w, e, rounds, key, d);
    declared := Again(windows[0], sent);
    assert Declarations(key, declared, 0.0) == Repeated(e, sent);
    if got.Some? && got.value.reply.Ack? {
      var more := DeclaringSends(c, v, key, windows[1..], rounds, d);
      FollowsChain(c, w, v, Declaring(c, v, key, windows[1..], rounds).0, key, d);
      assert Declarations(key, declared + more, 0.0) == Declarations(key, declared, 0.0) + Declarations(key, more, 0.0);
      NamedAgain(windows[0], sent, more, windows[1..]);
      assert windows == [windows[0]] + windows[1..];
      declared := declared + more;
    }
  }

  lemma NamedAgain(w: Window, n: nat, a: seq<Window>, b: seq<Window>)
    requires n > 0
    ensures Named(a) == Named(b) ==> Named(Again(w, n) + a) == Named([w] + b)
  {
    hide Marked;
    assert Again(w, n)[0] == w;
    assert forall x :: x in Again(w, n) + a <==> x == w || x in a;
    assert Named(Again(w, n) + a) == Marked(w.bitmap, w.base) + Named(a);
    NamedPrepend(w, b);
  }

  /** What was heard was reported, and nothing is sent meanwhile. */
  lemma {:induction false} GatheringHears(c: ServerConfig, w: World, heard: seq<Window>, key: Key, d: Digest)
    requires Reported(w.inbox, heard)
    ensures var (v, ended, all) := Gathering(c, w, heard);
            && Follows(c, w, v, key, d) && v.outbox == w.outbox
            && Reported(v.inbox, all) && (heard != [] ==> all != [])
            && (ended.Some? ==> Answered(v.inbox, ended.value) && ended.value.answer.Some?)
    decreases |w.script|
  {
    hide Awaited, Follows, Reported;
    var (v, got) := Awaited(c, w);
    AwaitedShrinks(c, w);
    AwaitedFollows(c, w, key, d);
    ReportedLater(w.inbox, v.inbox, heard);
    if got.Some? && got.value.reply.Gaps? {
      ReportedMore(v.inbox, heard, got.value);
      GatheringHears(c, v, heard + [got.value.reply.window], key, d);
      FollowsChain(c, w, v, Gathering(c, w, heard).0, key, d);
    }
  }

  lemma ReportedLater(a: seq<Tagged>, b: seq<Tagged>, windows: seq<Window>)
    requires Grows(a, b) && Reported(a, windows)
    ensures Reported(b, windows)
  {
    hide Grows;
    forall w | w in windows ensures exists t :: t in b && t.reply == Gaps(w) {
      var t :| t in a && t.reply == Gaps(w);
      GrowsKeeps(a, b, t);
    }
  }

  lemma ReportedMore(inbox: seq<Tagged>, windows: seq<Window>, t: Tagged)
    requires Reported(inbox, windows) && t in inbox && t.reply.Gaps?
    ensures Reported(inbox, windows + [t.reply.window])
  {
  }

  lemma RoundIsOurs(key: Key, image: Image, digest: Digest, want: set<nat>)
    ensures forall e | e in RoundSent(key, image, digest, want) :: Ours(e, key, digest)
  {
    OnlyChunks(key, image, want, ChunkCount(|image|));
  }

  /** A round of chunks is chunks alone. */
  lemma {:induction false} OnlyChunks(key: Key, image: Image, named: set<nat>, upTo: nat)
    requires upTo <= ChunkCount(|image|)
    ensures forall e | e in ChunkRound(key, image, named, upTo) :: e.PushChunk? && e.key == key
  {
    if upTo != 0 {
      OnlyChunks(key, image, named, upTo - 1);
    }
  }

  /** Every round sends exactly the chunks wanted and a PUSH_END. */
  lemma {:induction false} RoundsSend(c: ServerConfig, w: World, key: Key, image: Image, digest: Digest,
                                      want: set<nat>, n: nat)
    returns (rounds: seq<set<nat>>)
    ensures var (v, o) := Rounds(c, w, key, image, digest, want, n);
            && Follows(c, w, v, key, digest) && v.outbox == w.outbox + RoundsSent(key, image, digest, rounds)
            && RoundsFollow(v.inbox, ChunkCount(|image|), want, rounds) && |rounds| <= n
            && Answered(v.inbox, o) && (o.answer.Some? ==> rounds != [])
            && (o.answer.None? ==> o.rc.ErrGaveUp? && |rounds| == n)
    decreases n
  {
    hide Awaited, Gathering, Follows, Reported, Resend, RoundSent, RoundsFollow, NextRound, Grows;
    var chunks, es := ChunkCount(|image|), RoundSent(key, image, digest, want);
    if n == 0 {
      SameFollows(c, w, key, digest);
      rounds := [];
      NoRounds(w.inbox, chunks, want);
      return;
    }
    var w' := w.(outbox := w.outbox + es);
    var (v, got) := Awaited(c, w');
    RoundIsOurs(key, image, digest, want);
    SendingFollows(c, w, es, key, digest);
    AwaitedFollows(c, w', key, digest);
    FollowsChain(c, w, w', v, key, digest);
    rounds := [want];
    assert rounds[1..] == [];
    OneRound(v.inbox, chunks, want);
    if got.None? {
      var more := RoundsSend(c, v, key, image, digest, want, n - 1);
      var u := Rounds(c, v, key, image, digest, want, n - 1).0;
      FollowsChain(c, w, v, u, key, digest);
      RoundsPrepend(u.inbox, chunks, want, want, more, []);
      rounds := [want] + more;
      assert RoundsSent(key, image, digest, rounds) == es + RoundsSent(key, image, digest, more);
    } else if got.value.reply.Gaps? {
      JustReported(v.inbox, got.value);
      GatheringHears(c, v, [got.value.reply.window], key, digest);
      var (u, ended, heard) := Gathering(c, v, [got.value.reply.window]);
      FollowsChain(c, w, v, u, key, digest);
      OneRound(u.inbox, chunks, want);
      if ended.None? {
        var next := Resend(heard, chunks);
        var more := RoundsSend(c, u, key, image, digest, next, n - 1);
        var x := Rounds(c, u, key, image, digest, next, n - 1).0;
        FollowsChain(c, w, u, x, key, digest);
        FollowsGrows(c, u, x, key, digest);
        ReportedLater(u.inbox, x.inbox, heard);
        RoundsPrepend(x.inbox, chunks, want, next, more, heard);
        rounds := [want] + more;
        assert RoundsSent(key, image, digest, rounds) == es + RoundsSent(key, image, digest, more);
      }
    }
  }

  lemma FollowsGrows(c: ServerConfig, w: World, v: World, key: Key, d: Digest)
    requires Follows(c, w, v, key, d)
    ensures Grows(w.inbox, v.inbox)
  {
  }

  lemma NoRounds(inbox: seq<Tagged>, chunks: nat, first: set<nat>)
    ensures RoundsFollow(inbox, chunks, first, [])
  {
  }

  lemma OneRound(inbox: seq<Tagged>, chunks: nat, first: set<nat>)
    ensures RoundsFollow(inbox, chunks, first, [first])
  {
  }

  lemma JustReported(inbox: seq<Tagged>, t: Tagged)
    requires t in inbox && t.reply.Gaps?
    ensures Reported(inbox, [t.reply.window])
  {
  }

  lemma RoundsPrepend(inbox: seq<Tagged>, chunks: nat, want: set<nat>, next: set<nat>, more: seq<set<nat>>,
                      heard: seq<Window>)
    requires RoundsFollow(inbox, chunks, next, more)
    requires next == want || (heard != [] && Reported(inbox, heard) && next == Resend(heard, chunks))
    ensures RoundsFollow(inbox, chunks, want, [want] + more) && ([want] + more)[1..] == more
  {
    hide Reported, Resend;
    var all := [want] + more;
    forall i | 0 < i < |all| ensures NextRound(inbox, chunks, all[i - 1], all[i]) {
      if i > 1 {
        assert NextRound(inbox, chunks, more[i - 2], more[i - 1]);
      }
    }
  }

  /** Success that answers a PUSH_END of this push is a version on record with the digest. */
  ghost predicate TrulyPushed(s: State, key: Key, digest: Digest, o: Outcome) {
    o.rc.Ok? && o.answer.Some? && o.answer.value.reply.Ack? && o.answer.value.OfEnd() ==>
      Recorded(s, key, o.Version(), digest)
  }

  /**
   One attempt at a push, whatever the network does. What goes out is a push in order:
   `trace` is all of it. The result is read off a datagram that came in. And success that
   answers a PUSH_END of this push means the store holds this image's digest under the
   version reported.
   */
  lemma AttemptIsInOrder(c: ServerConfig, w: World, j: Job) returns (trace: Trace)
    requires j.Covers()
    ensures var (v, o) := Attempt(c, w, j);
            var digest := c.store.hash(j.image);
            && v.outbox == w.outbox + Emitted(j.key, j.image, j.parent, digest, trace)
            && InOrder(v.inbox, j, trace)
            && Answered(v.inbox, o) && (o.rc.Ok? ==> trace.rounds != []) && !o.rc.ErrTooBig?
            && (o.rc.ErrGaveUp? ==> |trace.rounds| == j.maxRounds)
            && Follows(c, w, v, j.key, digest)
            && (Sound(c, w, j.key, digest) ==> TrulyPushed(v.server.store, j.key, digest, o))
  {
    hide Opening, Declaring, Rounds, Follows, Marked, Named, BytesFor, ChunkCount, RoundsFollow, RoundsSent, Begins,
         Sound, Recorded, Job.First;
    var d := c.store.hash(j.image);
    var (v, begun) := Opening(c, w, j.key, |j.image|, j.parent, j.dirty.Some?, j.maxRounds);
    var begins := OpeningSends(c, w, j.key, |j.image|, j.parent, j.dirty.Some?, j.maxRounds, d);
    trace := Trace(begins, [], []);
    NothingMore(c, j);
    if begun.Going? {
      var declared: seq<Window> := [];
      var u, ended := v, None;
      SameFollows(c, v, j.key, d);
      if begun.delta {
        WindowsFromName(j.dirty.value, j.Chunks(), 0);
        declared := DeclaringSends(c, v, j.key, Windows(j), j.maxRounds, d);
        var (u', ended') := Declaring(c, v, j.key, Windows(j), j.maxRounds);
        u, ended := u', ended';
        trace := Trace(begins, declared, []);
      }
      FollowsChain(c, w, v, u, j.key, d);
      if ended.None? {
        var rounds := RoundsSend(c, u, j.key, j.image, d, j.First(begun.delta), j.maxRounds);
        var x := Rounds(c, u, j.key, j.image, d, j.First(begun.delta), j.maxRounds).0;
        FollowsChain(c, w, u, x, j.key, d);
        if begun.delta != j.dirty.Some? {
          var r :| r in v.inbox && Refuses(r.reply, DeltaUnavailable);
          StillIn(c, v, u, j.key, d, r);
          StillIn(c, u, x, j.key, d, r);
        }
        trace := Trace(begins, declared, rounds);
      }
    }
    AnswerIsTrue(c, w, Attempt(c, w, j).0, j.key, d, Attempt(c, w, j).1);
  }

  lemma NothingMore(c: ServerConfig, j: Job)
    ensures Declarations(j.key, [], 0.0) == [] && RoundsSent(j.key, j.image, c.store.hash(j.image), []) == []
  {
  }

  lemma AnswerIsTrue(c: ServerConfig, w: World, v: World, key: Key, d: Digest, o: Outcome)
    requires Follows(c, w, v, key, d) && Answered(v.inbox, o)
    ensures Sound(c, w, key, d) ==> TrulyPushed(v.server.store, key, d, o)
  {
    hide Inv, Truthful, Recorded;
  }

  /** The same of `push_once`: what is refused beforehand sends nothing. */
  lemma OnceIsInOrder(c: ServerConfig, w: World, j: Job, room: nat) returns (trace: Trace)
    requires j.Covers()
    ensures var (v, o) := Once(c, w, j, room);
            var digest := c.store.hash(j.image);
            && v.outbox == w.outbox + Emitted(j.key, j.image, j.parent, digest, trace)
            && InOrder(v.inbox, j, trace)
            && Answered(v.inbox, o) && (o.rc.Ok? ==> trace.rounds != [])
            && (o.rc.ErrGaveUp? ==> |trace.rounds| == j.maxRounds)
            && (o.rc.ErrTooBig? ==> room < BytesFor(j.Chunks()) && v == w)
            && (j.image == [] ==> o.rc.ErrProtocol? && v == w)
            && Follows(c, w, v, j.key, digest)
            && (Sound(c, w, j.key, digest) ==> TrulyPushed(v.server.store, j.key, digest, o))
  {
    hide Attempt, Follows, Emitted, InOrder, Answered, TrulyPushed, Sound;
    if j.Refusal(room).Some? {
      trace := Trace([], [], []);
      NothingSent(c, w, j);
    } else {
      trace := AttemptIsInOrder(c, w, j);
    }
  }

  lemma NothingSent(c: ServerConfig, w: World, j: Job)
    ensures var digest := c.store.hash(j.image);
            && w.outbox == w.outbox + Emitted(j.key, j.image, j.parent, digest, Trace([], [], []))
            && InOrder(w.inbox, j, Trace([], [], [])) && Follows(c, w, w, j.key, digest)
            && (forall rc: Rc | rc.ErrProtocol? || rc.ErrTooBig? ::
                  Answered(w.inbox, Outcome(rc, None)) && TrulyPushed(w.server.store, j.key, digest, Outcome(rc, None)))
  {
    hide Sound;
    NothingMore(c, j);
  }

  /**
   `ss_push_delta`: a delta the digest refuses is followed on the wire by one whole-card
   push, whose result stands; in every other case the first attempt is all there is.
   */
  lemma PushedIsInOrder(c: ServerConfig, w: World, j: Job, room: nat) returns (a: Trace, b: Option<Trace>)
    requires j.Covers()
    ensures var ((v, o), digest) := (Pushed(c, w, j, room), c.store.hash(j.image));
            && (b.Some? <==> j.dirty.Some? && Once(c, w, j, room).1.Checksum())
            && v.outbox == w.outbox + Emitted(j.key, j.image, j.parent, digest, a)
                           + (if b.Some? then Emitted(j.key, j.image, j.parent, digest, b.value) else [])
            && InOrder(Once(c, w, j, room).0.inbox, j, a)
            && (b.Some? ==> InOrder(v.inbox, j.(dirty := None), b.value))
            && Answered(v.inbox, o)
            && (o.rc.Ok? ==> if b.Some? then b.value.rounds != [] else a.rounds != [])
            && (o.rc.ErrGaveUp? ==> |if b.Some? then b.value.rounds else a.rounds| == j.maxRounds)
            && Follows(c, w, v, j.key, digest)
            && (Sound(c, w, j.key, digest) ==> TrulyPushed(v.server.store, j.key, digest, o))
  {
    hide Once, Follows, Emitted, InOrder, Answered, TrulyPushed, Outcome.Checksum;
    a := OnceIsInOrder(c, w, j, room);
    b := None;
    var (v, o) := Once(c, w, j, room);
    if j.dirty.Some? && o.Checksum() {
      var again := OnceIsInOrder(c, v, j.(dirty := None), room);
      b := Some(again);
      FollowsChain(c, w, v, Once(c, v, j.(dirty := None), room).0, j.key, c.store.hash(j.image));
      FollowsSound(c, w, v, j.key, c.store.hash(j.image));
    }
  }

  lemma FollowsSound(c: ServerConfig, w: World, v: World, key: Key, d: Digest)
    requires Follows(c, w, v, key, d)
    ensures Sound(c, w, key, d) ==> Sound(c, v, key, d)
  {
  }

  // ----- an ACK to something else

  /** A PUSH_BEGIN the server takes. */
  ghost predicate Taken(c: ServerConfig, s: ServerState, j: Job, at: real) {
    OnBegin(c, s, j.key, |j.image|, j.parent, j.dirty.Some?, at).1 == [Ack(j.key.transferId)]
  }

  /** One wait with one delivery, or one stray reply, and the pick. */
  lemma OneAct(c: ServerConfig, w: World, act: Act, pick: int, rest: seq<Moment>)
    requires w.script == [Moment([act], pick)] + rest
    ensures var v := Done(c, w.(script := rest), act); Awaited(c, w) == (v, Picked(v.inbox, pick))
  {
    hide Done;
    assert w.script[1..] == rest && [act][1..] == [];
    assert AllDone(c, w.(script := rest), [act]) == AllDone(c, Done(c, w.(script := rest), act), []);
  }

  lemma NoAct(c: ServerConfig, w: World, pick: int, rest: seq<Moment>)
    requires w.script == [Moment([], pick)] + rest
    ensures Awaited(c, w) == (w.(script := rest), Picked(w.inbox, pick))
  {
    assert w.script[1..] == rest;
  }

  /** Where a push stands once its PUSH_BEGIN, sent `sent` times, has been acknowledged. */
  ghost function Begun(c: ServerConfig, s: ServerState, j: Job, at: real, sent: nat, inbox: seq<Tagged>,
                       script: seq<Moment>)
    : World
  {
    var e := Begin(j.key, |j.image|, j.parent, j.dirty.Some?, at);
    World(Step(c, s, e).0, Repeated(Stamped(e, 0.0), sent), inbox, script)
  }

  /** The datagram that brings the PUSH_BEGIN's ACK. */
  function BeginAck(j: Job, at: real): Tagged {
    Tagged(Ack(j.key.transferId), Mine(Begin(j.key, |j.image|, j.parent, j.dirty.Some?, at)))
  }

  /** A whole card whose PUSH_BEGIN is delivered and acknowledged at once. */
  lemma BeginLands(c: ServerConfig, s: ServerState, j: Job, at: real, rest: seq<Moment>)
    requires Taken(c, s, j, at) && j.maxRounds > 0
    ensures Opening(c, World(s, [], [], [Moment([Deliver(0, at)], 0)] + rest), j.key, |j.image|, j.parent,
            j.dirty.Some?, j.maxRounds)
         == (Begun(c, s, j, at, 1, [BeginAck(j, at)], rest), Going(j.dirty.Some?))
  {
    hide OnBegin;
    var e := Begin(j.key, |j.image|, j.parent, j.dirty.Some?, 0.0);
    var w := World(s, [e], [], [Moment([Deliver(0, at)], 0)] + rest);
    assert [] + [e] == [e] == Repeated(e, 1);
    OneAct(c, w, Deliver(0, at), 0, rest);
    assert Done(c, w.(script := rest), Deliver(0, at)).inbox == [BeginAck(j, at)];
  }

  /** The same PUSH_BEGIN again starts the same transfer again. */
  lemma BeginAgain(c: ServerConfig, s: ServerState, j: Job, at: real)
    requires Taken(c, s, j, at)
    ensures var e := Begin(j.key, |j.image|, j.parent, j.dirty.Some?, at);
            Step(c, Step(c, s, e).0, e) == (Step(c, s, e).0, [Ack(j.key.transferId)])
  {
    hide OnBegin;
    var e := Begin(j.key, |j.image|, j.parent, j.dirty.Some?, at);
    var t := Step(c, s, e).0;
    TakenAgain(c, s, j, at);
    assert t.settled - {j.key} == t.settled;
    assert t.staging[j.key := t.staging[j.key]] == t.staging;
  }

  lemma TakenAgain(c: ServerConfig, s: ServerState, j: Job, at: real)
    requires Taken(c, s, j, at)
    ensures var t := OnBegin(c, s, j.key, |j.image|, j.parent, j.dirty.Some?, at).0;
            && j.key in t.staging && j.key !in t.settled
            && OnBegin(c, t, j.key, |j.image|, j.parent, j.dirty.Some?, at)
               == (t.(settled := t.settled - {j.key}, staging := t.staging[j.key := t.staging[j.key]]),
                   [Ack(j.key.transferId)])
  {
    hide Zeros, SeedFromParent;
  }

  /**
   A PUSH_BEGIN whose ACK is slow goes out twice; the first ACK to come is the answer, the second
   is still to come.
   */
  lemma ResentBeginLands(c: ServerConfig, s: ServerState, j: Job, at: real, rest: seq<Moment>)
    requires Taken(c, s, j, at) && j.maxRounds >= 2
    ensures var moments := [Moment([Deliver(0, at)], -1), Moment([Deliver(1, at)], 0)];
            && Opening(c, World(s, [], [], moments + rest), j.key, |j.image|, j.parent, j.dirty.Some?, j.maxRounds)
               == (Begun(c, s, j, at, 2, [BeginAck(j, at), BeginAck(j, at)], rest), Going(j.dirty.Some?))
  {
    hide Awaited, OnBegin;
    var e := Begin(j.key, |j.image|, j.parent, j.dirty.Some?, 0.0);
    var middle := [Moment([Deliver(1, at)], 0)] + rest;
    var w := World(s, [e], [], [Moment([Deliver(0, at)], -1)] + middle);
    assert w.script == [Moment([Deliver(0, at)], -1), Moment([Deliver(1, at)], 0)] + rest;
    assert [] + [e] == [e] == Repeated(e, 1) && [e] + [e] == [e, e] == Repeated(e, 2);
    OneAct(c, w, Deliver(0, at), -1, middle);
    var v := Begun(c, s, j, at, 1, [BeginAck(j, at)], middle);
    assert Done(c, w.(script := middle), Deliver(0, at)).inbox == [BeginAck(j, at)];
    assert Awaited(c, w) == (v, None);
    OneAct(c, v.(outbox := [e, e]), Deliver(1, at), 0, rest);
    BeginAgain(c, s, j, at);
    var u := Begun(c, s, j, at, 2, [BeginAck(j, at), BeginAck(j, at)], rest);
    assert Done(c, World(v.server, [e, e], v.inbox, rest), Deliver(1, at)).inbox == u.inbox;
    assert Awaited(c, v.(outbox := [e, e])) == (u, Some(BeginAck(j, at)));
    assert Exchange(c, v, e, j.maxRounds - 1) == (u, Some(BeginAck(j, at)));
  }

  /** At the first wait for a verdict, an ACK on its way ends the push as a success, whatever it answers. */
  lemma PendingAckIsTaken(c: ServerConfig, w: World, key: Key, image: Image, digest: Digest, want: set<nat>, n: nat,
                          t: Tagged)
    requires n > 0 && Awaited(c, w.(outbox := w.outbox + RoundSent(key, image, digest, want))).1 == Some(t) &&
             t.reply.Ack?
    ensures Rounds(c, w, key, image, digest, want, n).1 == Outcome(Ok, Some(t))
    ensures Rounds(c, w, key, image, digest, want, n).0
         == Awaited(c, w.(outbox := w.outbox + RoundSent(key, image, digest, want))).0
  {
    hide Awaited, RoundSent;
  }

  /**
   Success is not always the commit: an ACK need not be this push's. The reply to something else this console asked
   turns up at the wait for the verdict: success again, under whatever version it names. A
   HELLO's ACK names 0, a head query's the head, another card's PUSH_END that card's version.
   */
  lemma StrayAckReadsAsCommit(c: ServerConfig, s: ServerState, j: Job, room: nat, at: real, version: nat)
    requires j.dirty.None? && j.maxRounds > 0 && Taken(c, s, j, at) && room >= BytesFor(j.Chunks())
    ensures var script := [Moment([Deliver(0, at)], 0), Moment([Stray(Ack(version))], 1)];
            var (v, o) := Pushed(c, World(s, [], [], script), j, room);
            && o == Outcome(Ok, Some(Tagged(Ack(version), Unrelated))) && o.Version() == version
            && v.server.store == s.store && j.key in v.server.staging
  {
    hide RoundSent, Rounds, Opening, BytesFor, ChunkCount;
    var d := c.store.hash(j.image);
    var last := [Moment([Stray(Ack(version))], 1)];
    var w := World(s, [], [], [Moment([Deliver(0, at)], 0)] + last);
    assert w.script == [Moment([Deliver(0, at)], 0), Moment([Stray(Ack(version))], 1)];
    BeginLands(c, s, j, at, last);
    var u := Begun(c, s, j, at, 1, [BeginAck(j, at)], last);
    var es := RoundSent(j.key, j.image, d, j.First(false));
    OneAct(c, u.(outbox := u.outbox + es), Stray(Ack(version)), 1, []);
    PendingAckIsTaken(c, u, j.key, j.image, d, j.First(false), j.maxRounds, Tagged(Ack(version), Unrelated));
    assert Attempt(c, w, j) == Rounds(c, u, j.key, j.image, d, j.First(false), j.maxRounds);
  }

  // ----- when success is the commit

  /** A datagram whose ACK is no verdict. */
  predicate Control(e: Event) {
    e.Begin? || e.Delta?
  }

  /** No control datagram was sent twice; the client can tell. */
  ghost predicate SentOnce(outbox: seq<Event>) {
    forall i, k | 0 <= i < k < |outbox| && Control(outbox[i]) :: outbox[i] != outbox[k]
  }

  /** These deliveries are of datagrams not delivered before, and no reply to anything else arrives. */
  ghost predicate FreshActs(acts: seq<Act>, delivered: set<nat>)
    decreases |acts|
  {
    acts == []
    || (match acts[0]
        case Deliver(which, _) => which !in delivered && FreshActs(acts[1..], delivered + {which})
        case Elsewhere(_) => FreshActs(acts[1..], delivered)
        case _ => false)
  }

  ghost function Reached(acts: seq<Act>, delivered: set<nat>): set<nat>
    decreases |acts|
  {
    if acts == [] then delivered
    else Reached(acts[1..], if acts[0].Deliver? then delivered + {acts[0].which} else delivered)
  }

  /** The network repeats nothing, delivery or reply, and nothing else this console asks is answered meanwhile. */
  ghost predicate Unrepeated(script: seq<Moment>, delivered: set<nat>, handed: set<int>)
    decreases |script|
  {
    script == []
    || (&& FreshActs(script[0].acts, delivered)
        && (script[0].pick >= 0 ==> script[0].pick !in handed)
        && Unrepeated(script[1..], Reached(script[0].acts, delivered), handed + {script[0].pick}))
  }

  /** Everything sent has been delivered and everything that came handed over. */
  ghost predicate Spent(w: World, delivered: set<nat>, handed: set<int>) {
    && (forall i: nat | i < |w.outbox| :: i in delivered)
    && (forall i: nat | i < |w.inbox| :: i in handed)
  }

  /** As far as ACKs that are no verdicts go. */
  ghost predicate Quiet(w: World, delivered: set<nat>, handed: set<int>) {
    && (forall i: nat | i < |w.outbox| && Control(w.outbox[i]) :: i in delivered)
    && (forall i: nat | i < |w.inbox| && w.inbox[i].reply.Ack? && !w.inbox[i].OfEnd() :: i in handed)
  }

  /** One control datagram is out, the last one sent; at most its one reply is not handed over yet. */
  ghost predicate Owing(w: World, delivered: set<nat>, handed: set<int>) {
    && w.outbox != [] && Control(w.outbox[|w.outbox| - 1])
    && (forall i: nat | i < |w.outbox| - 1 :: i in delivered)
    && var came := if |w.outbox| - 1 in delivered then 1 else 0;
       forall i: nat | i < |w.inbox| - came :: i in handed
  }

  lemma OneReply(c: ServerConfig, s: ServerState, e: Event)
    ensures Control(e) ==> |Step(c, s, e).1| == 1
    ensures !Control(e) && !e.End? ==> forall r | r in Step(c, s, e).1 :: !r.Ack?
  {
  }

  lemma {:induction false} ActsOwe(c: ServerConfig, w: World, acts: seq<Act>, delivered: set<nat>, handed: set<int>)
    requires Owing(w, delivered, handed) && FreshActs(acts, delivered)
    ensures Owing(AllDone(c, w, acts), Reached(acts, delivered), handed)
    decreases |acts|
  {
    hide Step;
    if acts != [] {
      var v := Done(c, w, acts[0]);
      var delivered' := if acts[0].Deliver? then delivered + {acts[0].which} else delivered;
      if acts[0].Deliver? && acts[0].which < |w.outbox| {
        OneReply(c, w.server, Stamped(w.outbox[acts[0].which], acts[0].at));
      }
      assert Owing(v, delivered', handed);
      ActsOwe(c, v, acts[1..], delivered', handed);
    }
  }

  lemma {:induction false} ActsStayQuiet(c: ServerConfig, w: World, acts: seq<Act>, delivered: set<nat>,
                                         handed: set<int>)
    requires Quiet(w, delivered, handed) && FreshActs(acts, delivered)
    ensures Quiet(AllDone(c, w, acts), Reached(acts, delivered), handed)
    decreases |acts|
  {
    hide Step;
    if acts != [] {
      var v := Done(c, w, acts[0]);
      var delivered' := if acts[0].Deliver? then delivered + {acts[0].which} else delivered;
      if acts[0].Deliver? && acts[0].which < |w.outbox| {
        var e := Stamped(w.outbox[acts[0].which], acts[0].at);
        OneReply(c, w.server, e);
        NoNewAcks(c, w, e);
      }
      assert Quiet(v, delivered', handed);
      ActsStayQuiet(c, v, acts[1..], delivered', handed);
    }
  }

  /** Only verdicts are acknowledged, once the control datagrams are through. */
  lemma NoNewAcks(c: ServerConfig, w: World, e: Event)
    requires !Control(e)
    ensures var v := Arrive(c, w, e, Mine(e));
            forall i: nat | |w.inbox| <= i < |v.inbox| && v.inbox[i].reply.Ack? :: v.inbox[i].OfEnd()
  {
    OneReply(c, w.server, e);
    var (s, replies) := Step(c, w.server, e);
    assert forall i | 0 <= i < |replies| :: replies[i] in replies;
  }

  /** A control exchange that needed one datagram leaves nothing behind. */
  lemma ExchangeSpends(c: ServerConfig, w: World, e: Event, rounds: nat, delivered: set<nat>, handed: set<int>)
    returns (delivered': set<nat>, handed': set<int>)
    requires Control(e) && Spent(w, delivered, handed) && Unrepeated(w.script, delivered, handed)
    ensures var (v, got) := Exchange(c, w, e, rounds);
            got.Some? && SentOnce(v.outbox) ==>
              Spent(v, delivered', handed') && Unrepeated(v.script, delivered', handed')
  {
    hide AllDone, FreshActs, Reached;
    delivered', handed' := delivered, handed;
    if rounds == 0 || w.script == [] {
      NothingComes(c, w, e, rounds);
      return;
    }
    var w', m := w.(outbox := w.outbox + [e]), w.script[0];
    var (v, got) := Awaited(c, w');
    ActsOwe(c, w'.(script := w.script[1..]), m.acts, delivered, handed);
    AllDoneGrows(c, w'.(script := w.script[1..]), m.acts);
    delivered', handed' := Reached(m.acts, delivered), handed + {m.pick};
    if got.None? {
      var sent := ExchangeSends(c, v, e, rounds - 1, e.key, c.store.hash([]));
      TwiceShows(w.outbox, e, sent);
    }
  }

  /** A second datagram shows in the outbox. */
  lemma TwiceShows(was: seq<Event>, e: Event, sent: nat)
    requires Control(e)
    ensures sent > 0 ==> !SentOnce(was + [e] + Repeated(e, sent))
  {
    var all := was + [e] + Repeated(e, sent);
    if sent > 0 {
      assert all[|was|] == e == all[|was| + 1];
    }
  }

  /** Without a script every wait times out. */
  lemma {:induction false} NothingComes(c: ServerConfig, w: World, e: Event, rounds: nat)
    requires rounds == 0 || w.script == []
    ensures Exchange(c, w, e, rounds).1.None?
    decreases rounds
  {
    if rounds != 0 {
      NothingComes(c, w.(outbox := w.outbox + [e]), e, rounds - 1);
    }
  }

  lemma PrefixOnce(a: seq<Event>, b: seq<Event>)
    ensures SentOnce(a + b) ==> SentOnce(a)
  {
    if SentOnce(a + b) {
      forall i, k | 0 <= i < k < |a| && Control(a[i]) ensures a[i] != a[k] {
        assert (a + b)[i] != (a + b)[k];
      }
    }
  }

  lemma {:induction false} OpeningSpends(c: ServerConfig, w: World, key: Key, size: nat, parent: nat, delta: bool,
                                         rounds: nat, delivered: set<nat>, handed: set<int>)
    returns (delivered': set<nat>, handed': set<int>)
    requires Spent(w, delivered, handed) && Unrepeated(w.script, delivered, handed)
    ensures var (v, begun) := Opening(c, w, key, size, parent, delta, rounds);
            begun.Going? && SentOnce(v.outbox) ==>
              Spent(v, delivered', handed') && Unrepeated(v.script, delivered', handed')
    decreases delta
  {
    hide Exchange, Spent, Unrepeated, SentOnce;
    var e := Begin(key, size, parent, delta, 0.0);
    var (v, got) := Exchange(c, w, e, rounds);
    delivered', handed' := ExchangeSpends(c, w, e, rounds, delivered, handed);
    if delta && got.Some? && Refuses(got.value.reply, DeltaUnavailable) {
      var begins := OpeningSends(c, v, key, size, parent, false, rounds, c.store.hash([]));
      PrefixOnce(v.outbox, Begins(key, size, parent, begins));
      if SentOnce(v.outbox) {
        delivered', handed' := OpeningSpends(c, v, key, size, parent, false, rounds, delivered', handed');
      }
    }
  }

  lemma {:induction false} DeclaringSpends(c: ServerConfig, w: World, key: Key, windows: seq<Window>, rounds: nat,
                                           delivered: set<nat>, handed: set<int>)
    returns (delivered': set<nat>, handed': set<int>)
    requires Spent(w, delivered, handed) && Unrepeated(w.script, delivered, handed)
    ensures var (v, ended) := Declaring(c, w, key, windows, rounds);
            ended.None? && SentOnce(v.outbox) ==>
              Spent(v, delivered', handed') && Unrepeated(v.script, delivered', handed')
    decreases |windows|
  {
    hide Exchange, Spent, Unrepeated, SentOnce;
    delivered', handed' := delivered, handed;
    if windows != [] {
      var e := DeclareEvent(key, windows[0], 0.0);
      var (v, got) := Exchange(c, w, e, rounds);
      delivered', handed' := ExchangeSpends(c, w, e, rounds, delivered, handed);
      if got.Some? && got.value.reply.Ack? {
        var declared := DeclaringSends(c, v, key, windows[1..], rounds, c.store.hash([]));
        PrefixOnce(v.outbox, Declarations(key, declared, 0.0));
        if SentOnce(v.outbox) {
          delivered', handed' := DeclaringSpends(c, v, key, windows[1..], rounds, delivered', handed');
        }
      }
    }
  }

  /** A wait in a quiet world hands over no ACK but a verdict. */
  lemma AwaitedStaysQuiet(c: ServerConfig, w: World, delivered: set<nat>, handed: set<int>)
    returns (delivered': set<nat>, handed': set<int>)
    requires Quiet(w, delivered, handed) && Unrepeated(w.script, delivered, handed)
    ensures var (v, got) := Awaited(c, w);
            && Quiet(v, delivered', handed') && Unrepeated(v.script, delivered', handed')
            && (got.Some? && got.value.reply.Ack? ==> got.value.OfEnd())
  {
    hide AllDone, FreshActs, Reached;
    delivered', handed' := delivered, handed;
    if w.script != [] {
      var m := w.script[0];
      ActsStayQuiet(c, w.(script := w.script[1..]), m.acts, delivered, handed);
      AllDoneGrows(c, w.(script := w.script[1..]), m.acts);
      delivered', handed' := Reached(m.acts, delivered), handed + {m.pick};
    }
  }

  lemma {:induction false} GatheringStaysQuiet(c: ServerConfig, w: World, heard: seq<Window>, delivered: set<nat>,
                                               handed: set<int>)
    returns (delivered': set<nat>, handed': set<int>)
    requires Quiet(w, delivered, handed) && Unrepeated(w.script, delivered, handed)
    ensures var (v, ended, all) := Gathering(c, w, heard);
            && Quiet(v, delivered', handed') && Unrepeated(v.script, delivered', handed')
            && (ended.Some? && ended.value.rc.Ok? ==> ended.value.answer.Some? && ended.value.answer.value.OfEnd())
    decreases |w.script|
  {
    hide Awaited, Quiet, Unrepeated;
    AwaitedShrinks(c, w);
    var (v, got) := Awaited(c, w);
    delivered', handed' := AwaitedStaysQuiet(c, w, delivered, handed);
    if got.Some? && got.value.reply.Gaps? {
      delivered', handed' := GatheringStaysQuiet(c, v, heard + [got.value.reply.window], delivered', handed');
    }
  }

  lemma SendingStaysQuiet(w: World, es: seq<Event>, delivered: set<nat>, handed: set<int>)
    requires Quiet(w, delivered, handed) && forall e | e in es :: !Control(e)
    ensures Quiet(w.(outbox := w.outbox + es), delivered, handed)
  {
    assert forall i | 0 <= i < |es| :: es[i] in es;
  }

  lemma {:induction false} RoundsStayQuiet(c: ServerConfig, w: World, key: Key, image: Image, digest: Digest,
                                           want: set<nat>, n: nat, delivered: set<nat>, handed: set<int>)
    requires Quiet(w, delivered, handed) && Unrepeated(w.script, delivered, handed)
    ensures var o := Rounds(c, w, key, image, digest, want, n).1;
            o.rc.Ok? ==> o.answer.Some? && o.answer.value.OfEnd()
    decreases n
  {
    hide Awaited, Gathering, Quiet, Unrepeated, Resend, ChunkRound;
    if n != 0 {
      var es := RoundSent(key, image, digest, want);
      OnlyChunks(key, image, want, ChunkCount(|image|));
      SendingStaysQuiet(w, es, delivered, handed);
      var w' := w.(outbox := w.outbox + es);
      var (v, got) := Awaited(c, w');
      var delivered', handed' := AwaitedStaysQuiet(c, w', delivered, handed);
      if got.None? {
        RoundsStayQuiet(c, v, key, image, digest, want, n - 1, delivered', handed');
      } else if got.value.reply.Gaps? {
        var (u, ended, heard) := Gathering(c, v, [got.value.reply.window]);
        delivered', handed' := GatheringStaysQuiet(c, v, [got.value.reply.window], delivered', handed');
        if ended.None? {
          RoundsStayQuiet(c, u, key, image, digest, Resend(heard, ChunkCount(|image|)), n - 1, delivered', handed');
        }
      }
    }
  }

  /**
   The condition a caller can check. On a socket with nothing outstanding, so that a HELLO or a
   head query has been answered, if no PUSH_BEGIN and no declaration had to be sent twice and
   the network repeats nothing, success answers a PUSH_END of this very push: the store holds
   the image's digest under the version reported.
   */
  lemma SentOnceIsTheCommit(c: ServerConfig, w: World, j: Job, delivered: set<nat>, handed: set<int>)
    requires j.Covers() && Spent(w, delivered, handed) && Unrepeated(w.script, delivered, handed)
    ensures var (v, o) := Attempt(c, w, j);
            o.rc.Ok? && SentOnce(v.outbox) ==>
              && o.answer.Some? && o.answer.value.OfEnd()
              && (Sound(c, w, j.key, c.store.hash(j.image)) ==>
                    o.answer.value.reply.Ack? && Recorded(v.server.store, j.key, o.Version(), c.store.hash(j.image)))
  {
    hide Opening, Declaring, Rounds, Spent, Unrepeated, SentOnce, Sound, RoundsSent, Job.First, BytesFor, ChunkCount,
         Recorded, Emitted, InOrder, Follows, Early;
    var d := c.store.hash(j.image);
    var trace := AttemptIsInOrder(c, w, j);
    var (v, begun) := Opening(c, w, j.key, |j.image|, j.parent, j.dirty.Some?, j.maxRounds);
    var delivered', handed' :=
      OpeningSpends(c, w, j.key, |j.image|, j.parent, j.dirty.Some?, j.maxRounds, delivered, handed);
    var begins := OpeningSends(c, w, j.key, |j.image|, j.parent, j.dirty.Some?, j.maxRounds, d);
    if begun.Stopped? {
      EarlyFails(v.inbox, begun.o);
      return;
    }
    var u := v;
    if begun.delta {
      var (u', ended) := Declaring(c, v, j.key, Windows(j), j.maxRounds);
      var declared := DeclaringSends(c, v, j.key, Windows(j), j.maxRounds, d);
      if ended.Some? {
        EarlyFails(u'.inbox, ended.value);
        return;
      }
      PrefixOnce(v.outbox, Declarations(j.key, declared, 0.0));
      u := u';
      if SentOnce(u.outbox) {
        delivered', handed' := DeclaringSpends(c, v, j.key, Windows(j), j.maxRounds, delivered', handed');
      }
    }
    var rounds := RoundsSend(c, u, j.key, j.image, d, j.First(begun.delta), j.maxRounds);
    PrefixOnce(u.outbox, RoundsSent(j.key, j.image, d, rounds));
    if SentOnce(u.outbox) {
      SpentIsQuiet(u, delivered', handed');
      RoundsStayQuiet(c, u, j.key, j.image, d, j.First(begun.delta), j.maxRounds, delivered', handed');
    }
  }

  lemma EarlyFails(inbox: seq<Tagged>, o: Outcome)
    requires Early(inbox, o)
    ensures !o.rc.Ok?
  {
  }

  lemma SpentIsQuiet(w: World, delivered: set<nat>, handed: set<int>)
    requires Spent(w, delivered, handed)
    ensures Quiet(w, delivered, handed)
  {
  }

  // ----- a network that delivers everything once

  /** What a moment's acts bring to the server. */
  function Reaching(outbox: seq<Event>, acts: seq<Act>): seq<Event>
    decreases |acts|
  {
    if acts == [] then []
    else
      (match acts[0]
       case Deliver(which, at) => if which < |outbox| then [Stamped(outbox[which], at)] else []
       case Beside(e) => [e]
       case Elsewhere(e) => [e]
       case Stray(_) => [])
      + Reaching(outbox, acts[1..])
  }

  /** Seen from the server, a wait is a run of what reaches it. */
  lemma {:induction false} WaitIsRun(c: ServerConfig, w: World, acts: seq<Act>)
    ensures AllDone(c, w, acts).server == Run(c, w.server, Reaching(w.outbox, acts))
    decreases |acts|
  {
    hide Step, Done, Run;
    if acts == [] {
      RunNothing(c, w.server);
    } else {
      var rest := Reaching(w.outbox, acts[1..]);
      var v := Done(c, w, acts[0]);
      DoneIsRun(c, w, acts[0]);
      WaitIsRun(c, v, acts[1..]);
      var now := Reaching(w.outbox, [acts[0]]);
      assert [acts[0]][1..] == [] && Reaching(w.outbox, []) == [];
      assert Reaching(w.outbox, acts) == now + rest;
      RunAppend(c, w.server, now, rest);
    }
  }

  /** One act brings at most one datagram. */
  lemma DoneIsRun(c: ServerConfig, w: World, act: Act)
    ensures Done(c, w, act).server == Run(c, w.server, Reaching(w.outbox, [act]))
    ensures Done(c, w, act).outbox == w.outbox
  {
    hide Step;
    var es := Reaching(w.outbox, [act]);
    assert [act][1..] == [] && Reaching(w.outbox, []) == [];
    if es != [] {
      assert es == [es[0]] && es[1..] == [];
      assert Run(c, w.server, es) == Run(c, Step(c, w.server, es[0]).0, []);
    }
  }

  lemma {:induction false} AllDoneAppend(c: ServerConfig, w: World, acts: seq<Act>, last: Act)
    ensures AllDone(c, w, acts + [last]) == Done(c, AllDone(c, w, acts), last)
    decreases |acts|
  {
    hide Done;
    if acts == [] {
      assert acts + [last] == [last] && [last][1..] == [];
      assert AllDone(c, w, [last]) == AllDone(c, Done(c, w, last), []);
    } else {
      assert (acts + [last])[1..] == acts[1..] + [last];
      AllDoneAppend(c, Done(c, w, acts[0]), acts[1..], last);
    }
  }

  lemma {:induction false} RunAppend(c: ServerConfig, s: ServerState, a: seq<Event>, b: seq<Event>)
    ensures Run(c, s, a + b) == Run(c, Run(c, s, a), b)
    decreases |a|
  {
    hide Step;
    if a == [] {
      assert a + b == b;
    } else {
      assert (a + b)[1..] == a[1..] + b;
      RunAppend(c, Step(c, s, a[0]).0, a[1..], b);
    }
  }

  ghost predicate Arrives(acts: seq<Act>, which: nat) {
    exists act :: act in acts && act.Deliver? && act.which == which
  }

  /**
   The chunks of the last round, sent from outbox index `from` on, all get there among acts that
   are none of this push's.
   */
  ghost predicate AllLand(acts: seq<Act>, key: Key, from: nat, to: nat) {
    && Apart(acts, key)
    && (forall act | act in acts && act.Deliver? :: from <= act.which < to)
    && (forall i: nat | from <= i < to :: Arrives(acts, i))
  }

  lemma {:induction false} ReachingHolds(outbox: seq<Event>, acts: seq<Act>, e: Event)
    ensures e in Reaching(outbox, acts) <==>
              exists act :: act in acts
                         && ((act.Deliver? && act.which < |outbox| && e == Stamped(outbox[act.which], act.at))
                                         || ((act.Beside? || act.Elsewhere?) && act.event == e))
    decreases |acts|
  {
    if acts != [] {
      ReachingHolds(outbox, acts[1..], e);
      assert forall act :: act in acts <==> act == acts[0] || act in acts[1..];
    }
  }

  /** A round all of which lands is an honest run that sends exactly what the round names, and declares nothing. */
  lemma RoundLands(before: seq<Event>, key: Key, image: Image, digest: Digest, want: set<nat>, acts: seq<Act>)
    requires var chunks := ChunkRound(key, image, want, ChunkCount(|image|));
             AllLand(acts, key, |before|, |before| + |chunks|)
    ensures var es := Reaching(before + RoundSent(key, image, digest, want), acts);
            && AllHonest(es, key, image) && Delta.Declared(es, key) == {}
            && Sent(es, key) == set i | i in want && i < ChunkCount(|image|)
  {
    hide Delta.Honest, ChunkRound, Reaching;
    var n := ChunkCount(|image|);
    var chunks := ChunkRound(key, image, want, n);
    var outbox := before + RoundSent(key, image, digest, want);
    var es := Reaching(outbox, acts);
    ChunkRoundDelivers(key, image, want, n);
    OnlyChunks(key, image, want, n);
    assert forall i | |before| <= i < |before| + |chunks| :: outbox[i] == chunks[i - |before|] && outbox[i] in chunks;
    forall e | e in es
      ensures Delta.Honest(e, key, image)
      ensures e.Delta? ==> e.key != key
      ensures e.PushChunk? && e.key == key ==> e.sequence in Sent(chunks, key)
    {
      ReachingHolds(outbox, acts, e);
      var act :| act in acts && ((act.Deliver? && act.which < |outbox| && e == Stamped(outbox[act.which], act.at))
                              || ((act.Beside? || act.Elsewhere?) && act.event == e));
      if act.Deliver? {
        StampingIsHonest(outbox[act.which], act.at, key, image);
      } else {
        ForeignIsHonest(e, key, image);
      }
    }
    forall i | i in Sent(chunks, key) ensures i in Sent(es, key) {
      var k :| 0 <= k < |chunks| && chunks[k].PushChunk? && chunks[k].sequence == i;
      assert Arrives(acts, |before| + k);
      var act :| act in acts && act.Deliver? && act.which == |before| + k;
      ReachingHolds(outbox, acts, Stamped(outbox[act.which], act.at));
    }
  }

  lemma StampingIsHonest(e: Event, at: real, key: Key, image: Image)
    ensures Delta.Honest(e, key, image) ==> Delta.Honest(Stamped(e, at), key, image)
  {
  }

  lemma ForeignIsHonest(e: Event, key: Key, image: Image)
    requires Foreign(e, key)
    ensures Delta.Honest(e, key, image)
  {
  }

  /** The moment at which the round lands and the reply to its PUSH_END is handed over. */
  function Landing(acts: seq<Act>, end: nat, at: real, pick: int): Moment {
    Moment(acts + [Deliver(end, at)], pick)
  }

  /** If the PUSH_END draws one verdict, that is how the push ends. */
  lemma LastRound(c: ServerConfig, w: World, key: Key, image: Image, digest: Digest, want: set<nat>, n: nat,
                  acts: seq<Act>, at: real, pick: int, reply: Reply)
    requires n > 0 && (reply.Ack? || reply.Nack?)
    requires var outbox := w.outbox + RoundSent(key, image, digest, want);
             var v := AllDone(c, World(w.server, outbox, w.inbox, []), acts);
             && w.script == [Landing(acts, |outbox| - 1, at, pick)] && pick == |v.inbox|
             && OnEnd(c, v.server, key, digest, at).1 == [reply]
    ensures var outbox := w.outbox + RoundSent(key, image, digest, want);
            var t := Run(c, w.server, Reaching(outbox, acts));
            var (v, o) := Rounds(c, w, key, image, digest, want, n);
            && o == Interpret(Tagged(reply, Mine(End(key, digest, at))))
            && v.server == OnEnd(c, t, key, digest, at).0
  {
    hide OnEnd, ChunkRound, Reaching;
    var outbox := w.outbox + RoundSent(key, image, digest, want);
    var w' := World(w.server, outbox, w.inbox, []);
    assert w.script[1..] == [];
    WaitIsRun(c, w', acts);
    AllDoneGrows(c, w', acts);
    AllDoneAppend(c, w', acts, Deliver(|outbox| - 1, at));
    var v := AllDone(c, w', acts);
    assert outbox[|outbox| - 1] == End(key, digest, 0.0);
    assert Done(c, v, Deliver(|outbox| - 1, at)).inbox == v.inbox + [Tagged(reply, Mine(End(key, digest, at)))];
  }

  /** What an accepted PUSH_BEGIN stages. */
  lemma BeginStages(c: ServerConfig, s: ServerState, j: Job, at: real, seed: Image)
    requires Taken(c, s, j, at)
    requires if j.dirty.None? then seed == Zeros(|j.image|)
             else SeedFromParent(s.store, j.key, |j.image|, j.parent) == Some(seed)
    ensures var t := Step(c, s, j.Begin(at)).0;
            && j.key in t.staging
            && t.staging[j.key] == Transfer(j.key, j.parent, j.dirty.Some?, seed, {}, {}, at)
            && |seed| == |j.image|
  {
    hide Zeros;
  }

  lemma VerdictsDecide(outcome: PushOutcome)
    ensures VerdictOf(outcome).Ack? || VerdictOf(outcome).Nack?
    ensures !(VerdictOf(outcome).Nack? && VerdictOf(outcome).code == ChecksumMismatch)
  {
  }

  /** One moment a declaration: it gets there, and its ACK gets back. */
  function Acknowledging(windows: seq<Window>, outbox: nat, inbox: nat, at: real): seq<Moment>
    decreases |windows|
  {
    if windows == [] then []
    else [Moment([Deliver(outbox, at)], inbox)] + Acknowledging(windows[1..], outbox + 1, inbox + 1, at)
  }

  function DeclareAck(key: Key, w: Window, at: real): Tagged {
    Tagged(Ack(key.transferId), Mine(DeclareEvent(key, w, at)))
  }

  function DeclareAcks(key: Key, windows: seq<Window>, at: real): seq<Tagged> {
    seq(|windows|, i requires 0 <= i < |windows| => DeclareAck(key, windows[i], at))
  }

  /** A declaration that stays on the card is acknowledged, and moves nothing but what is declared. */
  lemma DeclarationLands(c: ServerConfig, s: ServerState, key: Key, w: Window, at: real)
    requires key in s.staging && s.staging[key].isDelta
    requires forall i | i in Marked(w.bitmap, w.base) :: i < s.staging[key].Expected()
    ensures var (t, replies) := Step(c, s, DeclareEvent(key, w, at));
            && replies == [Ack(key.transferId)]
            && key in t.staging && t.staging[key].isDelta && t.staging[key].Expected() == s.staging[key].Expected()
  {
  }

  /** Its datagram gets there and the ACK gets back. */
  lemma DeclarationExchanged(c: ServerConfig, w: World, key: Key, x: Window, rounds: nat, at: real, rest: seq<Moment>)
    requires rounds > 0 && w.script == [Moment([Deliver(|w.outbox|, at)], |w.inbox|)] + rest
    requires Step(c, w.server, DeclareEvent(key, x, at)).1 == [Ack(key.transferId)]
    ensures Exchange(c, w, DeclareEvent(key, x, 0.0), rounds)
         == (World(Step(c, w.server, DeclareEvent(key, x, at)).0, w.outbox + [DeclareEvent(key, x, 0.0)],
                   w.inbox + [DeclareAck(key, x, at)], rest),
             Some(DeclareAck(key, x, at)))
  {
    hide Step;
    var w' := w.(outbox := w.outbox + [DeclareEvent(key, x, 0.0)]);
    OneAct(c, w', Deliver(|w.outbox|, at), |w.inbox|, rest);
    var v := Done(c, w'.(script := rest), Deliver(|w.outbox|, at));
    assert v.inbox == w.inbox + [DeclareAck(key, x, at)];
    assert Picked(v.inbox, |w.inbox|) == Some(DeclareAck(key, x, at));
  }

  /** Declarations that stay on the card are acknowledged one by one. */
  lemma {:induction false} DeclarationsLand(c: ServerConfig, w: World, key: Key, windows: seq<Window>, rounds: nat,
                                            at: real, rest: seq<Moment>)
    requires rounds > 0 && w.script == Acknowledging(windows, |w.outbox|, |w.inbox|, at) + rest
    requires key in w.server.staging && w.server.staging[key].isDelta
    requires forall i | i in Named(windows) :: i < w.server.staging[key].Expected()
    ensures var (v, ended) := Declaring(c, w, key, windows, rounds);
            && ended.None? && v.server == Run(c, w.server, Declarations(key, windows, at))
            && v.outbox == w.outbox + Declarations(key, windows, 0.0)
            && v.inbox == w.inbox + DeclareAcks(key, windows, at) && v.script == rest
    decreases |windows|
  {
    hide Marked, Step, Exchange, Named, Transfer.Expected;
    if windows == [] {
      assert Acknowledging(windows, |w.outbox|, |w.inbox|, at) + rest == rest;
      assert w.outbox == w.outbox + Declarations(key, windows, 0.0);
      assert w.inbox == w.inbox + DeclareAcks(key, windows, at);
    } else {
      var x, e := windows[0], DeclareEvent(key, windows[0], 0.0);
      var more := Acknowledging(windows[1..], |w.outbox| + 1, |w.inbox| + 1, at) + rest;
      assert w.script == [Moment([Deliver(|w.outbox|, at)], |w.inbox|)] + more;
      assert windows == [x] + windows[1..];
      NamedPrepend(x, windows[1..]);
      DeclarationLands(c, w.server, key, x, at);
      DeclarationExchanged(c, w, key, x, rounds, at, more);
      DeclarationsLand(c, Exchange(c, w, e, rounds).0, key, windows[1..], rounds, at, rest);
      assert Declarations(key, windows, at) == [DeclareEvent(key, x, at)] + Declarations(key, windows[1..], at);
      assert DeclareAcks(key, windows, at) == [DeclareAck(key, x, at)] + DeclareAcks(key, windows[1..], at);
      assert Declarations(key, windows, 0.0) == [e] + Declarations(key, windows[1..], 0.0);
    }
  }

  // ----- a control datagram sent twice

  /** A run of declarations leaves the store and the set of buffers alone. */
  lemma {:induction false} DeclarationsLeaveStore(c: ServerConfig, s: ServerState, es: seq<Event>)
    requires forall e | e in es :: e.Delta?
    ensures Run(c, s, es).store == s.store && Run(c, s, es).staging.Keys == s.staging.Keys
    decreases |es|
  {
    hide Marked;
    if es != [] {
      assert es[0] in es && forall e | e in es[1..] :: e in es;
      DeclarationsLeaveStore(c, Step(c, s, es[0]).0, es[1..]);
    }
  }

  /** What a job that is not refused declares is on the card. */
  lemma WindowsOnCard(j: Job, room: nat)
    requires j.Covers() && j.Refusal(room).None?
    ensures forall i | i in Named(Windows(j)) :: i < j.Chunks()
  {
    hide Marked, Named, BytesFor;
    if j.dirty.Some? {
      WindowsFromName(j.dirty.value, j.Chunks(), 0);
    } else {
      NothingNamed();
    }
  }

  /**
   Once begun, a push whose `windows` are acknowledged at once gets to its first round with an
   older ACK still to come.
   */
  lemma RestDeclared(c: ServerConfig, u: World, key: Key, windows: seq<Window>, rounds: nat, at: real,
                     last: seq<Moment>)
    requires rounds > 0 && u.script == Acknowledging(windows, |u.outbox|, |u.inbox|, at) + last
    requires key in u.server.staging && u.server.staging[key].isDelta
    requires forall i | i in Named(windows) :: i < u.server.staging[key].Expected()
    ensures var (v, ended) := Declaring(c, u, key, windows, rounds);
            && ended.None? && v.script == last && Grows(u.inbox, v.inbox)
            && v.server.store == u.server.store && key in v.server.staging
  {
    hide Declaring, Named, Run;
    DeclarationsLand(c, u, key, windows, rounds, at, last);
    DeclarationsLeaveStore(c, u.server, Declarations(key, windows, at));
  }

  /** At the first wait for a verdict that older ACK is handed over, and nothing else happens. */
  lemma OldAckIsTaken(c: ServerConfig, w: World, j: Job, room: nat, v: World, late: nat)
    requires j.Covers() && j.Refusal(room).None? && j.maxRounds > 0
    requires late < |v.inbox| && v.inbox[late].reply.Ack? && v.script == [Moment([], late)]
    requires Attempt(c, w, j)
          == Rounds(c, v, j.key, j.image, c.store.hash(j.image), j.First(j.dirty.Some?), j.maxRounds)
    ensures var (x, o) := Pushed(c, w, j, room);
            o == Outcome(Ok, Some(v.inbox[late])) && x.server == v.server
  {
    hide RoundSent, Rounds, Attempt, Awaited, Job.First, Job.Refusal;
    var d := c.store.hash(j.image);
    var u := v.(outbox := v.outbox + RoundSent(j.key, j.image, d, j.First(j.dirty.Some?)));
    NoAct(c, u, late, []);
    PendingAckIsTaken(c, v, j.key, j.image, d, j.First(j.dirty.Some?), j.maxRounds, v.inbox[late]);
  }

  /**
   Nor is it enough that it is this push's. The first PUSH_BEGIN's ACK is slow and the
   PUSH_BEGIN goes out again; both ACKs come, every chunk and the PUSH_END are lost, and the
   second ACK is read as the answer to the PUSH_END. The push, whole card or delta, returns
   success, and nothing is stored.
   */
  lemma ResentBeginReadsAsCommit(c: ServerConfig, s: ServerState, j: Job, room: nat, seed: Image, at: real)
    requires j.Covers() && j.Refusal(room).None? && j.maxRounds >= 2 && Taken(c, s, j, at)
    requires j.dirty.Some? ==> SeedFromParent(s.store, j.key, |j.image|, j.parent) == Some(seed)
    ensures var script := [Moment([Deliver(0, at)], -1), Moment([Deliver(1, at)], 0)]
                          + (Acknowledging(Windows(j), 2, 2, at) + [Moment([], 1)]);
            var (v, o) := Pushed(c, World(s, [], [], script), j, room);
            && o == Outcome(Ok, Some(BeginAck(j, at))) && o.Version() == j.key.transferId
            && v.server.store == s.store && j.key in v.server.staging
  {
    hide Rounds, Opening, Declaring, BytesFor, ChunkCount, Awaited, Job.First, Job.Refusal, Named, OnBegin, WindowsFrom;
    var last := [Moment([], 1)];
    var rest := Acknowledging(Windows(j), 2, 2, at) + last;
    var w := World(s, [], [], [Moment([Deliver(0, at)], -1), Moment([Deliver(1, at)], 0)] + rest);
    ResentBeginLands(c, s, j, at, rest);
    var u := Begun(c, s, j, at, 2, [BeginAck(j, at), BeginAck(j, at)], rest);
    BeginStages(c, s, j, at, if j.dirty.Some? then seed else Zeros(|j.image|));
    BeginLeavesStore(c, s, j, at);
    var v := u.(script := last);
    if j.dirty.Some? {
      WindowsOnCard(j, room);
      RestDeclared(c, u, j.key, Windows(j), j.maxRounds, at, last);
      v := Declaring(c, u, j.key, Windows(j), j.maxRounds).0;
      assert v.inbox[..2] == u.inbox;
    } else {
      assert rest == last;
    }
    assert v.inbox[1] == BeginAck(j, at);
    OldAckIsTaken(c, w, j, room, v, 1);
  }

  lemma BeginLeavesStore(c: ServerConfig, s: ServerState, j: Job, at: real)
    ensures Step(c, s, j.Begin(at)).0.store == s.store
  {
    hide Zeros, SeedFromParent;
  }

  /** A declaration whose ACK is slow goes out twice, and its second ACK is still to come. */
  lemma ResentDeclarationExchanged(c: ServerConfig, w: World, key: Key, x: Window, rounds: nat, at: real,
                                   rest: seq<Moment>)
    requires rounds >= 2 && w.script == [Moment([Deliver(|w.outbox|, at)], -1),
                                         Moment([Deliver(|w.outbox| + 1, at)], |w.inbox|)] + rest
    requires var (s, replies) := Step(c, w.server, DeclareEvent(key, x, at));
             replies == [Ack(key.transferId)] && Step(c, s, DeclareEvent(key, x, at)).1 == [Ack(key.transferId)]
    ensures var (e, ack) := (DeclareEvent(key, x, 0.0), DeclareAck(key, x, at));
            var s := Step(c, Step(c, w.server, DeclareEvent(key, x, at)).0, DeclareEvent(key, x, at)).0;
            Exchange(c, w, e, rounds) == (World(s, w.outbox + [e, e], w.inbox + [ack, ack], rest), Some(ack))
  {
    hide Step, Awaited;
    var e, ack, n := DeclareEvent(key, x, 0.0), DeclareAck(key, x, at), |w.outbox|;
    var middle := [Moment([Deliver(n + 1, at)], |w.inbox|)] + rest;
    var w' := w.(outbox := w.outbox + [e]);
    assert w'.script == [Moment([Deliver(n, at)], -1)] + middle;
    OneAct(c, w', Deliver(n, at), -1, middle);
    var v := Done(c, w'.(script := middle), Deliver(n, at));
    assert v.inbox == w.inbox + [ack];
    assert Awaited(c, w') == (v, None);
    var v' := v.(outbox := v.outbox + [e]);
    assert v'.outbox == w.outbox + [e, e] && v'.outbox[n + 1] == e;
    OneAct(c, v', Deliver(n + 1, at), |w.inbox|, rest);
    var u := Done(c, v'.(script := rest), Deliver(n + 1, at));
    assert u.inbox == w.inbox + [ack, ack];
    assert Awaited(c, v') == (u, Some(ack));
    assert Exchange(c, v, e, rounds - 1) == (u, Some(ack));
  }

  /** The same with a declaration instead of the PUSH_BEGIN. */
  lemma ResentDeclarationReadsAsCommit(c: ServerConfig, s: ServerState, j: Job, room: nat, seed: Image, at: real)
    requires j.Covers() && j.dirty.Some? && j.Refusal(room).None? && j.maxRounds >= 2 && Taken(c, s, j, at)
    requires SeedFromParent(s.store, j.key, |j.image|, j.parent) == Some(seed) && Windows(j) != []
    ensures var script := [Moment([Deliver(0, at)], 0)]
                          + ([Moment([Deliver(1, at)], -1), Moment([Deliver(2, at)], 1)]
                             + (Acknowledging(Windows(j)[1..], 3, 3, at) + [Moment([], 2)]));
            var (v, o) := Pushed(c, World(s, [], [], script), j, room);
            && o == Outcome(Ok, Some(DeclareAck(j.key, Windows(j)[0], at))) && o.Version() == j.key.transferId
            && v.server.store == s.store && j.key in v.server.staging
  {
    hide Rounds, Opening, Exchange, BytesFor, ChunkCount, Awaited, Job.First, Job.Refusal, Named, OnBegin, WindowsFrom,
         Step;
    var (x, more, last) := (Windows(j)[0], Windows(j)[1..], [Moment([], 2)]);
    var rest := Acknowledging(more, 3, 3, at) + last;
    var resent := [Moment([Deliver(1, at)], -1), Moment([Deliver(2, at)], 1)] + rest;
    var w := World(s, [], [], [Moment([Deliver(0, at)], 0)] + resent);
    BeginLands(c, s, j, at, resent);
    var u := Begun(c, s, j, at, 1, [BeginAck(j, at)], resent);
    BeginStages(c, s, j, at, seed);
    BeginLeavesStore(c, s, j, at);
    WindowsOnCard(j, room);
    assert Windows(j) == [x] + more;
    NamedPrepend(x, more);
    DeclarationLands(c, u.server, j.key, x, at);
    var s1 := Step(c, u.server, DeclareEvent(j.key, x, at)).0;
    DeclarationLands(c, s1, j.key, x, at);
    ResentDeclarationExchanged(c, u, j.key, x, j.maxRounds, at, rest);
    var t := Exchange(c, u, DeclareEvent(j.key, x, 0.0), j.maxRounds).0;
    RestDeclared(c, t, j.key, more, j.maxRounds, at, last);
    var v := Declaring(c, t, j.key, more, j.maxRounds).0;
    assert v.inbox[..3] == t.inbox;
    OneDeclarationKeepsStore(c, u.server, j.key, x, at);
    OneDeclarationKeepsStore(c, s1, j.key, x, at);
    OldAckIsTaken(c, w, j, room, v, 2);
  }

  lemma OneDeclarationKeepsStore(c: ServerConfig, s: ServerState, key: Key, x: Window, at: real)
    ensures Step(c, s, DeclareEvent(key, x, at)).0.store == s.store
  {
    hide Marked;
  }

  /** Where a push stands when its first round is due, on a network that has acknowledged each datagram at once. */
  ghost function Ready(c: ServerConfig, s: ServerState, j: Job, at: real): World
    requires j.Covers()
  {
    World(Run(c, Step(c, s, j.Begin(at)).0, Declarations(j.key, Windows(j), at)),
          [j.Begin(0.0)] + Declarations(j.key, Windows(j), 0.0),
          [BeginAck(j, at)] + DeclareAcks(j.key, Windows(j), at), [])
  }

  /** And what it has sent once the round is out. */
  ghost function RoundOut(c: ServerConfig, s: ServerState, j: Job, at: real): seq<Event>
    requires j.Covers()
  {
    Ready(c, s, j, at).outbox + RoundSent(j.key, j.image, c.store.hash(j.image), j.First(j.dirty.Some?))
  }

  /** On a delta, the table is of the very image the server seeds from, and the bitmap is the scan's. */
  ghost predicate Scanned(s: State, j: Job, seed: Image) {
    j.dirty.Some? ==>
      && SeedFromParent(s, j.key, |j.image|, j.parent) == Some(seed) && NoCollision(j.image, seed)
      && SameBits(j.dirty.value, 8 * BytesFor(j.Chunks()), DirtyChunks(j.image, Table(seed)))
  }

  /** The wait that follows the round: everything the round sent lands, and nothing closes the buffer. */
  ghost predicate Lands(c: ServerConfig, s: ServerState, j: Job, begun: real, acts: seq<Act>)
    requires j.Covers()
  {
    var w, outbox := Ready(c, s, j, begun), RoundOut(c, s, j, begun);
    AllLand(acts, j.key, |w.outbox|, |outbox| - 1) && Calm(c, w.server, Reaching(outbox, acts), j.key)
  }

  /** Before the PUSH_END arrives the buffer is complete, and it is the client's card. */
  lemma ReadyThenCard(c: ServerConfig, s: ServerState, j: Job, seed: Image, begun: real, acts: seq<Act>, at: real)
    requires j.Covers() && Taken(c, s, j, begun) && Scanned(s.store, j, seed) && Lands(c, s, j, begun, acts)
    ensures var t := Run(c, Ready(c, s, j, begun).server, Reaching(RoundOut(c, s, j, begun), acts));
            var (store, outcome) := PushNamed(c.store, t.store, j.key.gameId, j.key.slot, j.image, j.parent);
            && OnEnd(c, t, j.key, c.store.hash(j.image), at).1 == [VerdictOf(outcome)]
            && OnEnd(c, t, j.key, c.store.hash(j.image), at).0.store == store
  {
    hide RoundOut, Ready, Run, OnEnd, PushNamed, VerdictOf, Reaching, Lands, Scanned;
    RoundReaches(c, s, j, begun, acts);
    if j.dirty.None? {
      ReadyThenWholeCard(c, s, j, begun, Reaching(RoundOut(c, s, j, begun), acts), at);
    } else {
      ReadyThenRebuiltCard(c, s, j, seed, begun, Reaching(RoundOut(c, s, j, begun), acts), at);
    }
  }

  /** What the round brings to the server. */
  ghost predicate Brings(c: ServerConfig, s: ServerState, j: Job, begun: real, es: seq<Event>)
    requires j.Covers()
  {
    && Calm(c, Ready(c, s, j, begun).server, es, j.key)
    && AllHonest(es, j.key, j.image) && Delta.Declared(es, j.key) == {}
    && Sent(es, j.key) == set i | i in j.First(j.dirty.Some?) && i < j.Chunks()
  }

  lemma RoundReaches(c: ServerConfig, s: ServerState, j: Job, begun: real, acts: seq<Act>)
    requires j.Covers() && Lands(c, s, j, begun, acts)
    ensures Brings(c, s, j, begun, Reaching(RoundOut(c, s, j, begun), acts))
  {
    hide Run, Calm, AllHonest, Reaching, RoundSent, Sent, Delta.Declared, AllLand, Job.First;
    var d, want := c.store.hash(j.image), j.First(j.dirty.Some?);
    RoundLength(j.key, j.image, d, want);
    RoundLands(Ready(c, s, j, begun).outbox, j.key, j.image, d, want, acts);
  }

  lemma ReadyThenWholeCard(c: ServerConfig, s: ServerState, j: Job, begun: real, es: seq<Event>, at: real)
    requires j.dirty.None? && Taken(c, s, j, begun) && Brings(c, s, j, begun, es)
    ensures var t := Run(c, Ready(c, s, j, begun).server, es);
            var (store, outcome) := PushNamed(c.store, t.store, j.key.gameId, j.key.slot, j.image, j.parent);
            && OnEnd(c, t, j.key, c.store.hash(j.image), at).1 == [VerdictOf(outcome)]
            && OnEnd(c, t, j.key, c.store.hash(j.image), at).0.store == store
  {
    hide Run, OnEnd, PushNamed, VerdictOf, Calm, AllHonest, OnBegin, Sent, Delta.Declared;
    var t := Step(c, s, j.Begin(begun)).0;
    BeginStages(c, s, j, begun, Zeros(|j.image|));
    RunNothing(c, t);
    NoDeclarations(j, begun);
    assert Ready(c, s, j, begun).server == t;
    forall i: nat | i < ChunkCount(|j.image|) ensures i in Sent(es, j.key) {
      assert i in j.First(j.dirty.Some?);
    }
    WholePushPreservesMeaning(c, t, es, j.key, j.image, j.parent, begun, at);
  }

  lemma ReadyThenRebuiltCard(c: ServerConfig, s: ServerState, j: Job, seed: Image, begun: real, es: seq<Event>,
                             at: real)
    requires j.Covers() && j.dirty.Some? && Taken(c, s, j, begun) && Scanned(s.store, j, seed) &&
             Brings(c, s, j, begun, es)
    ensures var t := Run(c, Ready(c, s, j, begun).server, es);
            var (store, outcome) := PushNamed(c.store, t.store, j.key.gameId, j.key.slot, j.image, j.parent);
            && OnEnd(c, t, j.key, c.store.hash(j.image), at).1 == [VerdictOf(outcome)]
            && OnEnd(c, t, j.key, c.store.hash(j.image), at).0.store == store
  {
    hide Run, OnEnd, PushNamed, VerdictOf, Calm, AllHonest, OnBegin, Sent, Delta.Declared, Marked, Named, Table,
         NoCollision, BytesFor, Job.First, SameBits, WindowsFrom;
    var t, a := Step(c, s, j.Begin(begun)).0, Declarations(j.key, Windows(j), begun);
    var dirty := DirtyChunks(j.image, Table(seed));
    BeginStages(c, s, j, begun, seed);
    ScanNames(j, dirty);
    DeclarationsDeclare(j.key, j.image, Windows(j), begun);
    TwoParts(a, es, j.key, j.image);
    ChunksAreCalm(c, t, a, j.key);
    CalmAppend(c, t, a, es, j.key);
    RunAppend(c, t, a, es);
    DeltaPreservesMeaning(c, t, a + es, j.key, j.image, seed, j.parent, begun, at);
  }

  lemma RunNothing(c: ServerConfig, s: ServerState)
    ensures Run(c, s, []) == s
  {
  }

  /** The windows of a scan name the dirty chunks, which are the first round. */
  lemma ScanNames(j: Job, dirty: set<nat>)
    requires j.Covers() && j.dirty.Some? && SameBits(j.dirty.value, 8 * BytesFor(j.Chunks()), dirty)
    requires forall i | i in dirty :: i < j.Chunks()
    ensures Named(Windows(j)) == dirty && forall i | i in dirty :: i in j.First(true)
  {
    hide Marked, Named;
    WindowsFromName(j.dirty.value, j.Chunks(), 0);
  }

  lemma {:induction false} CalmAppend(c: ServerConfig, s: ServerState, a: seq<Event>, b: seq<Event>, key: Key)
    requires Calm(c, s, a, key) && Calm(c, Run(c, s, a), b, key)
    ensures Calm(c, s, a + b, key)
    decreases |a|
  {
    hide Step, Undisturbed;
    if a == [] {
      assert a + b == b;
    } else {
      assert (a + b)[1..] == a[1..] + b;
      CalmAppend(c, Step(c, s, a[0]).0, a[1..], b, key);
    }
  }

  lemma RoundLength(key: Key, image: Image, d: Digest, want: set<nat>)
    ensures |RoundSent(key, image, d, want)| == |ChunkRound(key, image, want, ChunkCount(|image|))| + 1
  {
  }

  /**
   A network that delivers everything: the PUSH_BEGIN, each declaration of a delta and their
   ACKs, every chunk of the round, in any order, more than once and among anything of others
   that leaves the buffer open, then the PUSH_END and its reply. The push, whole card or
   delta, ends in the store's verdict on the image.
   */
  lemma EverythingArrives(c: ServerConfig, s: ServerState, j: Job, room: nat, seed: Image, begun: real, acts: seq<Act>,
                          at: real, pick: int)
    requires j.Covers() && j.maxRounds > 0 && j.Refusal(room).None?
    requires Taken(c, s, j, begun) && Scanned(s.store, j, seed) && Lands(c, s, j, begun, acts)
    requires pick == |AllDone(c, Ready(c, s, j, begun).(outbox := RoundOut(c, s, j, begun)), acts).inbox|
    ensures var d := c.store.hash(j.image);
            var t := Run(c, Ready(c, s, j, begun).server, Reaching(RoundOut(c, s, j, begun), acts));
            var script := [Moment([Deliver(0, begun)], 0)] + Acknowledging(Windows(j), 1, 1, begun)
                          + [Landing(acts, |RoundOut(c, s, j, begun)| - 1, at, pick)];
            var (v, o) := Pushed(c, World(s, [], [], script), j, room);
            var (store, outcome) := PushNamed(c.store, t.store, j.key.gameId, j.key.slot, j.image, j.parent);
            && o == Interpret(Tagged(VerdictOf(outcome), Mine(End(j.key, d, at))))
            && v.server.store == store
  {
    hide RoundSent, Rounds, Attempt, BytesFor, Run, OnEnd, PushNamed, VerdictOf, Lands, Scanned, Reaching, AllDone,
         Taken, Job.First, Job.Refusal;
    var d, w, outbox := c.store.hash(j.image), Ready(c, s, j, begun), RoundOut(c, s, j, begun);
    var t := Run(c, w.server, Reaching(outbox, acts));
    var last := [Landing(acts, |outbox| - 1, at, pick)];
    var script := [Moment([Deliver(0, begun)], 0)] + Acknowledging(Windows(j), 1, 1, begun) + last;
    ReadyThenCard(c, s, j, seed, begun, acts, at);
    ReadyThenRounds(c, s, j, seed, begun, last);
    WaitIsRun(c, w.(outbox := outbox), acts);
    var (store, outcome) := PushNamed(c.store, t.store, j.key.gameId, j.key.slot, j.image, j.parent);
    VerdictsDecide(outcome);
    LastRound(c, w.(script := last), j.key, j.image, d, j.First(j.dirty.Some?), j.maxRounds, acts, at, pick,
              VerdictOf(outcome));
  }

  lemma ReadyThenRounds(c: ServerConfig, s: ServerState, j: Job, seed: Image, begun: real, last: seq<Moment>)
    requires j.Covers() && j.maxRounds > 0 && Taken(c, s, j, begun) && Scanned(s.store, j, seed)
    ensures var script := [Moment([Deliver(0, begun)], 0)] + Acknowledging(Windows(j), 1, 1, begun) + last;
            && Attempt(c, World(s, [], [], script), j)
               == Rounds(c, Ready(c, s, j, begun).(script := last), j.key, j.image, c.store.hash(j.image),
                         j.First(j.dirty.Some?), j.maxRounds)
  {
    hide Rounds, Opening, Declaring, Run, Scanned, Taken;
    ReadyIsReached(c, s, j, seed, begun, last);
  }

  /** Opening and declaring lead there. */
  lemma ReadyIsReached(c: ServerConfig, s: ServerState, j: Job, seed: Image, begun: real, last: seq<Moment>)
    requires j.Covers() && j.maxRounds > 0 && Taken(c, s, j, begun) && Scanned(s.store, j, seed)
    ensures var script := [Moment([Deliver(0, begun)], 0)] + Acknowledging(Windows(j), 1, 1, begun) + last;
            var w := World(s, [], [], script);
            var (v, open) := Opening(c, w, j.key, |j.image|, j.parent, j.dirty.Some?, j.maxRounds);
            var ready := Ready(c, s, j, begun).(script := last);
            && open == Going(j.dirty.Some?)
            && (j.dirty.None? ==> v == ready)
            && (j.dirty.Some? ==> Declaring(c, v, j.key, Windows(j), j.maxRounds) == (ready, None))
  {
    hide Opening, BytesFor, Run, Declaring, OnBegin, Marked, Table, NoCollision, Named;
    var rest := Acknowledging(Windows(j), 1, 1, begun) + last;
    var script := [Moment([Deliver(0, begun)], 0)] + rest;
    assert script == [Moment([Deliver(0, begun)], 0)] + Acknowledging(Windows(j), 1, 1, begun) + last;
    BeginLands(c, s, j, begun, rest);
    var v := Begun(c, s, j, begun, 1, [BeginAck(j, begun)], rest);
    assert v.outbox == [j.Begin(0.0)];
    if j.dirty.Some? {
      BeginStages(c, s, j, begun, seed);
      ScanNames(j, DirtyChunks(j.image, Table(seed)));
      DeclarationsLand(c, v, j.key, Windows(j), j.maxRounds, begun, last);
    } else {
      RunNothing(c, v.server);
      NoDeclarations(j, begun);
      assert rest == last;
    }
  }

  lemma NoDeclarations(j: Job, at: real)
    requires j.dirty.None?
    ensures Declarations(j.key, Windows(j), at) == [] && DeclareAcks(j.key, Windows(j), at) == []
    ensures Declarations(j.key, Windows(j), 0.0) == []
  {
  }

  /**
   A whole report and a whole round give a verdict. An unfinished transfer is asked for its
   gaps; every window of the report gets to the client, in any order; every chunk the client
   then sends lands, among anything that leaves the buffer open. The next PUSH_END draws one
   verdict, and if what had arrived before was the image's it is the store's on the image.
   */
  lemma ReportAndRoundDecide(c: ServerConfig, s: ServerState, key: Key, image: Image, arrived: seq<Window>,
                             es: seq<Event>, now: real)
    requires Inv(c, s) && key in s.staging && |s.staging[key].data| == |image|
    requires ChunkCount(|image|) + BITMAP_WINDOW <= WORD
    requires forall w :: Gaps(w) in GapReplies(s.staging[key]) <==> w in arrived
    requires AllHonest(es, key, image) && Calm(c, s, es, key) && Delta.Declared(es, key) == {}
    requires Sent(ChunkRound(key, image, Resend(arrived, ChunkCount(|image|)), ChunkCount(|image|)), key)
             <= Sent(es, key)
    ensures var (t, was) := (Run(c, s, es), s.staging[key]);
            var (u, replies) := OnEnd(c, t, key, c.store.hash(image), now);
            && |replies| == 1 && IsVerdict(replies[0])
            && (Overlay(was.data, image, was.Missing()) == image ==>
                  var (store, outcome) := PushNamed(c.store, t.store, key.gameId, key.slot, image, was.parent);
                  replies == [VerdictOf(outcome)] && u.store == store)
  {
    hide Run, OnEnd, PushNamed, VerdictOf, Calm, AllHonest, GapReplies, Resend, ChunkRound;
    var t, was := Run(c, s, es), s.staging[key];
    var n := ChunkCount(|image|);
    GapReportIsExact(was, arrived);
    ChunkRoundDelivers(key, image, was.Missing(), n);
    HonestRun(c, s, es, key, image);
    RoundPaysOff(was, t.staging[key], image, Sent(es, key));
    RunKeeps(c, s, es);
    CompleteDrawsVerdict(c, t, key, c.store.hash(image), now);
    if Overlay(was.data, image, was.Missing()) == image {
      MoreIsStillTheCard(was.data, image, was.Missing(), Sent(es, key));
      CompleteIsPut(c, t, key, image, now);
    }
  }

  /** A complete buffer holding the image puts the image to the store. */
  lemma CompleteIsPut(c: ServerConfig, t: ServerState, key: Key, image: Image, now: real)
    requires Inv(c, t) && key in t.staging && t.staging[key].Complete() && t.staging[key].data == image
    ensures var (u, replies) := OnEnd(c, t, key, c.store.hash(image), now);
            var (store, outcome) := PushNamed(c.store, t.store, key.gameId, key.slot, image, t.staging[key].parent);
            replies == [VerdictOf(outcome)] && u.store == store
  {
  }

  // ----- the datagrams of a push

  /** The datagrams a round sends: one per named chunk, straight from the image. */
  ghost function ChunkRound(key: Key, image: Image, named: set<nat>, upTo: nat): seq<Event>
    requires upTo <= ChunkCount(|image|)
  {
    if upTo == 0 then []
    else
      ChunkRound(key, image, named, upTo - 1)
      + if upTo - 1 in named then [ChunkEvent(key, image, upTo - 1)] else []
  }

  function ChunkEvent(key: Key, image: Image, index: nat): Event
    requires index < ChunkCount(|image|)
  {
    PushChunk(key, index, MAX_PAYLOAD * index, ChunkOf(image, index), 0.0)
  }

  /** A round is honest and delivers exactly the named chunks. */
  lemma {:induction false} ChunkRoundDelivers(key: Key, image: Image, named: set<nat>, upTo: nat)
    requires upTo <= ChunkCount(|image|)
    ensures AllHonest(ChunkRound(key, image, named, upTo), key, image)
    ensures Sent(ChunkRound(key, image, named, upTo), key) == set i | i in named && i < upTo
  {
    if upTo != 0 {
      ChunkRoundDelivers(key, image, named, upTo - 1);
      var before, all := ChunkRound(key, image, named, upTo - 1), ChunkRound(key, image, named, upTo);
      if upTo - 1 in named {
        var e := ChunkEvent(key, image, upTo - 1);
        assert forall x :: x in all <==> x in before || x == e;
        assert Sent(all, key) == Sent(before, key) + {upTo - 1};
      } else {
        assert all == before;
      }
    }
  }

  /** The declaration datagrams of a push. */
  function Declarations(key: Key, windows: seq<Window>, at: real): seq<Event>
  {
    seq(|windows|, i requires 0 <= i < |windows| => DeclareEvent(key, windows[i], at))
  }

  function DeclareEvent(key: Key, w: Window, at: real): Event
  {
    Event.Delta(key, w.base, w.bitmap, at)
  }

  /** They declare what the windows name, and send nothing. */
  lemma {:induction false} DeclarationsDeclare(key: Key, image: Image, windows: seq<Window>, at: real)
    requires forall i | i in Named(windows) :: i < ChunkCount(|image|)
    ensures AllHonest(Declarations(key, windows, at), key, image)
    ensures Delta.Declared(Declarations(key, windows, at), key) == Named(windows)
    ensures Sent(Declarations(key, windows, at), key) == {}
  {
    hide Marked;
    if windows != [] {
      var front, w := windows[..|windows| - 1], windows[|windows| - 1];
      assert windows == front + [w];
      NamedAppend(front, w);
      DeclarationsDeclare(key, image, front, at);
      var before, all, e := Declarations(key, front, at), Declarations(key, windows, at), DeclareEvent(key, w, at);
      assert all == before + [e];
      assert forall x :: x in all <==> x in before || x == e;
      assert Delta.Declared(all, key) == Delta.Declared(before, key) + Marked(w.bitmap, w.base);
    }
  }

  /** A round of chunks declares nothing. */
  lemma {:induction false} ChunksDeclareNothing(key: Key, image: Image, named: set<nat>, upTo: nat)
    requires upTo <= ChunkCount(|image|)
    ensures Delta.Declared(ChunkRound(key, image, named, upTo), key) == {}
  {
    if upTo != 0 {
      ChunksDeclareNothing(key, image, named, upTo - 1);
      var before, all := ChunkRound(key, image, named, upTo - 1), ChunkRound(key, image, named, upTo);
      if upTo - 1 in named {
        assert forall x :: x in all <==> x in before || x == ChunkEvent(key, image, upTo - 1);
      } else {
        assert all == before;
      }
    }
  }

  /**
   The whole delta pipeline in one piece. The scan's bitmap, cut into windows as
   `DeclareDelta` cuts it, declared, the named chunks sent once, nothing lost: the
   PUSH_END is answered with the store's verdict on exactly the client's card.
   */
  lemma DeltaPushCommits(c: ServerConfig, s: ServerState, key: Key, card: Image, parentImage: Image, parent: nat,
                         dirty: seq<byte>, windows: seq<Window>, at: real, now: real)
    requires key in s.staging && s.staging[key] == Transfer(key, parent, true, parentImage, {}, {}, at)
    requires |card| == |parentImage| && NoCollision(card, parentImage)
    requires SameBits(dirty, 8 * BytesFor(ChunkCount(|card|)), DirtyChunks(card, Table(parentImage)))
    requires forall i: nat :: i in Named(windows) <==> i < 8 * BytesFor(ChunkCount(|card|)) && i in Marked(dirty, 0)
    ensures var n := ChunkCount(|card|);
            var t := Run(c, s, Declarations(key, windows, 0.0) + ChunkRound(key, card, Marked(dirty, 0), n));
            var (store, outcome) := PushNamed(c.store, t.store, key.gameId, key.slot, card, parent);
            && OnEnd(c, t, key, c.store.hash(card), now).1 == [VerdictOf(outcome)]
            && OnEnd(c, t, key, c.store.hash(card), now).0.store == store
  {
    hide Marked, Table, NoCollision, Run, OnEnd, PushNamed, VerdictOf;
    var n, wanted := ChunkCount(|card|), DirtyChunks(card, Table(parentImage));
    var a, b := Declarations(key, windows, 0.0), ChunkRound(key, card, Marked(dirty, 0), n);
    assert Named(windows) == wanted;
    DeclarationsDeclare(key, card, windows, 0.0);
    ChunkRoundDelivers(key, card, Marked(dirty, 0), n);
    ChunksDeclareNothing(key, card, Marked(dirty, 0), n);
    TwoParts(a, b, key, card);
    forall i | i in wanted ensures i in Sent(b, key) {
      assert i in Marked(dirty, 0);
    }
    OnlyChunks(key, card, Marked(dirty, 0), n);
    ChunksAreCalm(c, s, a + b, key);
    DeltaPreservesMeaning(c, s, a + b, key, card, parentImage, parent, at, now);
  }

  lemma TwoParts(a: seq<Event>, b: seq<Event>, key: Key, image: Image)
    ensures Sent(a + b, key) == Sent(a, key) + Sent(b, key)
    ensures Delta.Declared(a + b, key) == Delta.Declared(a, key) + Delta.Declared(b, key)
    ensures AllHonest(a, key, image) && AllHonest(b, key, image) ==> AllHonest(a + b, key, image)
  {
    hide Delta.Honest, Marked;
    assert forall x :: x in a + b <==> x in a || x in b;
  }
}
