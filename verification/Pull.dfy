/**
 The console's windowed pull: bursts of chunks reassembled in any order, an
 outstanding counter that ends a full window early, and a round budget.
 */
module Pull {
  import opened Bytes
  import opened Bitmaps
  import opened Staging
  import opened Store
  import opened Server
  import opened Fingerprint
  import opened Push

  const DEFAULT_WINDOW := 32
  const REQUEST_BITS := 8 * MAX_PAYLOAD

  /** A PULL_REQ: a version (0 means head), and a bitmap of chunks wanted based at `base`. */
  datatype Request = Request(want: nat, base: nat, bitmap: seq<byte>)

  /** One authenticated datagram the client takes off the network, or a broken transport. */
  datatype Incoming =
    | Broken
    | Refusal(code: Error)
    | Accept(version: nat, total: nat)
    | Piece(version: nat, total: nat, sequence: nat, offset: nat, payload: seq<byte>)
    | Other

  /** What arrives after the n-th request, until the client's receive timeout. Any function is a network. */
  type Net = (nat, Request) -> seq<Incoming>

  // ----- the server's side

  /** The requested chunks of `image` from `from` on, in order. */
  ghost function Pieces(image: Image, version: nat, r: Request, from: nat): seq<Incoming>
    decreases ChunkCount(|image|) - from
  {
    if from >= ChunkCount(|image|) then []
    else
      (if from in Marked(r.bitmap, r.base) then
         [Piece(version, |image|, from, MAX_PAYLOAD * from, ChunkOf(image, from))]
       else [])
      + Pieces(image, version, r, from + 1)
  }

  /** An ACK carrying size and version, then every wanted chunk the card has. */
  ghost function Burst(image: Image, version: nat, r: Request): seq<Incoming>
  {
    [Accept(version, |image|)] + Pieces(image, version, r, 0)
  }

  /** `_on_pull_req`, for a request that carries a bitmap. */
  ghost function Serve(s: State, gameId: string, slot: nat, r: Request): seq<Incoming>
  {
    match Normalise(gameId, slot)
    case None => [Refusal(UnknownCard)]
    case Some(card) =>
      var version := if r.want == 0 then s.Head(card) else r.want;
      match s.Read(card, version)
      case None => [Refusal(UnknownCard)]
      case Some(image) => Burst(image, version, r)
  }

  // ----- the client's intake, one datagram at a time

  /** `ss_chunk_count`, with the C addition's wrap-around. */
  function WireChunks(total: nat): nat
  {
    (total + MAX_PAYLOAD - 1) % WORD / MAX_PAYLOAD
  }

  /** The chunks of the card a request asks for. */
  ghost function Asked(r: Request, chunks: nat): set<nat>
  {
    set i: nat | i < chunks && i in Marked(r.bitmap, r.base)
  }

  /** The loop's state; `total` is 0 until a datagram has told the card's size. */
  datatype Intake = Intake(total: nat, version: nat, bits: seq<byte>, data: seq<byte>, outstanding: nat)

  datatype Progress = More | Full | Ended(rc: Rc)

  ghost function Initialise(st: Intake, r: Request, total: nat, version: nat): (Intake, Progress)
  {
    var needed := BytesFor(WireChunks(total));
    if total == 0 then (st, Ended(ErrProtocol))
    else if total > |st.data| then (st.(total := total, version := version), Ended(ErrTooBig))
    else if |st.bits| < needed then (st.(total := total, version := version), Ended(ErrTooBig))
    else (Intake(total, version, Zeros(needed) + st.bits[needed..], st.data, |Asked(r, WireChunks(total))|), More)
  }

  ghost function Place(st: Intake, r: Request, sequence: nat, offset: nat, payload: seq<byte>): (Intake, Progress)
    requires st.total <= |st.data|
  {
    if offset + |payload| > st.total then (st, More)
    else
      var st' :=
        if sequence in Marked(st.bits, 0) then st
        else
          st.(data := Splice(st.data, offset, payload),
              bits := Mark(st.bits, 0, sequence),
              outstanding := if st.outstanding > 0 && sequence in Marked(r.bitmap, r.base)
                             then st.outstanding - 1 else st.outstanding);
      (st', if st'.outstanding == 0 then Full else More)
  }

  /** What the receive loop does with one datagram. */
  ghost function Absorb(st: Intake, r: Request, x: Incoming): (Intake, Progress)
    requires st.total <= |st.data|
  {
    match x
    case Broken => (st, Ended(ErrTransport))
    case Refusal(code) => (st, Ended(if code == ConflictCode then ErrConflict else ErrServer))
    case Other => (st, More)
    case Accept(version, total) => if st.total == 0 then Initialise(st, r, total, version) else (st, More)
    case Piece(version, total, sequence, offset, payload) =>
      var (begun, p) := if st.total == 0 then Initialise(st, r, total, version) else (st, More);
      if p.Ended? then (begun, p) else Place(begun, r, sequence, offset, payload)
  }

  /** A burst, up to whatever ends it: a full window, an error, or silence. */
  ghost function AbsorbAll(st: Intake, r: Request, burst: seq<Incoming>): (Intake, Progress)
    requires st.total <= |st.data|
    decreases |burst|
  {
    if burst == [] then (st, More)
    else
      var (next, p) := Absorb(st, r, burst[0]);
      if p.More? then AbsorbAll(next, r, burst[1..]) else (next, p)
  }

  // ----- genuine datagrams reassemble one version

  /** A datagram that tells the truth about one version, or carries nothing. */
  ghost predicate Genuine(x: Incoming, image: Image, version: nat) {
    match x
    case Accept(v, total) => v == version && total == |image|
    case Piece(v, total, sequence, offset, payload) =>
      && v == version && total == |image| && sequence < ChunkCount(|image|)
      && offset == MAX_PAYLOAD * sequence && payload == ChunkOf(image, sequence)
    case _ => true
  }

  /** A card the wire format can carry and these buffers can hold. */
  predicate Fits(image: Image, out: nat, bitmap: nat) {
    0 < |image| <= out && |image| + MAX_PAYLOAD <= WORD && BytesFor(ChunkCount(|image|)) <= bitmap
  }

  /** The chunks of the card received so far. */
  ghost function Got(st: Intake, chunks: nat): set<nat> {
    set i: nat | i < chunks && i in Marked(st.bits, 0)
  }

  /** Nothing known yet, or: every received chunk is the image's, and the counter is what is still to come. */
  ghost predicate Faithful(st: Intake, r: Request, image: Image, version: nat) {
    && Fits(image, |st.data|, |st.bits|)
    && (st.total != 0 ==>
          && Holding(st, image, version)
          && st.outstanding == |Asked(r, ChunkCount(|image|)) - Got(st, ChunkCount(|image|))|)
  }

  ghost predicate Holding(st: Intake, image: Image, version: nat) {
    && st.total == |image| <= |st.data| && st.version == version
    && forall i | 0 <= i < |image| && i / MAX_PAYLOAD in Got(st, ChunkCount(|image|)) :: st.data[i] == image[i]
  }

  lemma WireChunksFit(image: Image)
    requires 0 < |image| && |image| + MAX_PAYLOAD <= WORD
    ensures WireChunks(|image|) == ChunkCount(|image|)
  {
  }

  lemma ClearedGot(needed: nat, rest: seq<byte>, st: Intake, chunks: nat)
    requires st.bits == Zeros(needed) + rest && chunks <= 8 * needed
    ensures Got(st, chunks) == {}
  {
    ClearedBits(st.bits, needed);
  }

  lemma InitialiseIsFaithful(st: Intake, r: Request, image: Image, version: nat)
    requires Faithful(st, r, image, version) && st.total == 0
    ensures var (t, p) := Initialise(st, r, |image|, version);
            p.More? && Faithful(t, r, image, version) && t.total == |image| && Got(t, ChunkCount(|image|)) == {}
            && |t.bits| == |st.bits| && t.data == st.data
  {
    WireChunksFit(image);
    var needed := BytesFor(ChunkCount(|image|));
    var t := Initialise(st, r, |image|, version).0;
    ClearedGot(needed, st.bits[needed..], t, ChunkCount(|image|));
    assert Asked(r, ChunkCount(|image|)) - {} == Asked(r, ChunkCount(|image|));
  }

  /** One more received chunk, in the sets. */
  lemma MarkIsGot(st: Intake, t: Intake, sequence: nat, chunks: nat)
    requires t.bits == Mark(st.bits, 0, sequence) && sequence < chunks && BytesFor(chunks) <= |st.bits|
    ensures Got(t, chunks) == Got(st, chunks) + {sequence}
  {
    MarkAdds(st.bits, 0, sequence);
  }

  lemma PlaceIsFaithful(st: Intake, r: Request, image: Image, version: nat, sequence: nat)
    requires Faithful(st, r, image, version) && st.total == |image| && sequence < ChunkCount(|image|)
    ensures var (t, p) := Place(st, r, sequence, MAX_PAYLOAD * sequence, ChunkOf(image, sequence));
            && Faithful(t, r, image, version) && t.total == st.total && |t.bits| == |st.bits| && |t.data| == |st.data|
            && Got(t, ChunkCount(|image|)) == Got(st, ChunkCount(|image|)) + {sequence}
            && !p.Ended?
            && (p.Full? ==> Asked(r, ChunkCount(|image|)) <= Got(t, ChunkCount(|image|)))
  {
    hide Marked, Mark;
    var chunks := ChunkCount(|image|);
    var (t, p) := Place(st, r, sequence, MAX_PAYLOAD * sequence, ChunkOf(image, sequence));
    var asked, was := Asked(r, chunks), Got(st, chunks);
    if sequence !in was {
      MarkIsGot(st, t, sequence, chunks);
      ArrivalSettles(asked, was, sequence);
      assert sequence in asked ==> asked - was != {};
      PlacedBytes(st, t, image, sequence);
    } else {
      assert was + {sequence} == was;
    }
    if p.Full? {
      assert asked - Got(t, chunks) == {};
    }
  }

  lemma PlacedBytes(st: Intake, t: Intake, image: Image, sequence: nat)
    requires sequence < ChunkCount(|image|) && |image| <= |st.data|
    requires forall i | 0 <= i < |image| && i / MAX_PAYLOAD in Got(st, ChunkCount(|image|)) :: st.data[i] == image[i]
    requires t.data == Splice(st.data, MAX_PAYLOAD * sequence, ChunkOf(image, sequence))
    requires Got(t, ChunkCount(|image|)) == Got(st, ChunkCount(|image|)) + {sequence}
    ensures forall i | 0 <= i < |image| && i / MAX_PAYLOAD in Got(t, ChunkCount(|image|)) :: t.data[i] == image[i]
  {
    hide Got;
    forall i | 0 <= i < |image| && i / MAX_PAYLOAD in Got(t, ChunkCount(|image|)) ensures t.data[i] == image[i] {
      if i / MAX_PAYLOAD == sequence {
        assert MAX_PAYLOAD * sequence <= i < MAX_PAYLOAD * sequence + ChunkLen(|image|, sequence);
      }
    }
  }

  /** The chunks of the card a burst carries. */
  ghost function Carried(burst: seq<Incoming>): set<nat> {
    set x | x in burst && x.Piece? :: x.sequence
  }

  lemma AbsorbIsFaithful(st: Intake, r: Request, x: Incoming, image: Image, version: nat)
    requires Faithful(st, r, image, version) && Genuine(x, image, version) && st.total <= |st.data|
    ensures var ((t, p), chunks) := (Absorb(st, r, x), ChunkCount(|image|));
            && Faithful(t, r, image, version) && |t.bits| == |st.bits| && |t.data| == |st.data|
            && (st.total != 0 ==> t.total != 0)
            && (x.Accept? || x.Piece? ==> !p.Ended? && t.total != 0)
            && (t.total != 0 ==> Got(t, chunks) == (if st.total == 0 then {} else Got(st, chunks)) + Carried([x]))
            && (p.Full? ==> t.total != 0 && Asked(r, chunks) <= Got(t, chunks))
            && (p.Ended? ==> Breaks(x)) && t.total <= |t.data|
  {
    hide Got, Initialise, Place, Asked, Faithful;
    CarriedOne(x);
    FaithfulSize(st, r, image, version);
    if x.Piece? || x.Accept? {
      var begun := if st.total == 0 then Initialise(st, r, x.total, x.version).0 else st;
      if st.total == 0 {
        InitialiseIsFaithful(st, r, image, version);
      }
      if x.Piece? {
        PlaceIsFaithful(begun, r, image, version, x.sequence);
      }
    }
  }

  lemma CarriedOne(x: Incoming)
    ensures Carried([x]) == if x.Piece? then {x.sequence} else {}
  {
  }

  lemma FaithfulSize(st: Intake, r: Request, image: Image, version: nat)
    requires Faithful(st, r, image, version)
    ensures 0 < |image| <= |st.data| && (st.total != 0 ==> st.total == |image|)
  {
  }

  /** A burst that broke off the pull: a refusal or a dead transport. */
  ghost predicate Breaks(x: Incoming) {
    x.Broken? || x.Refusal?
  }

  /**
   A whole genuine burst: nothing wrong is ever taken in, everything it carries
   is, unless a full window or a break comes first.
   */
  lemma {:induction false} AbsorbAllIsFaithful(st: Intake, r: Request, burst: seq<Incoming>, image: Image, version: nat)
    requires Faithful(st, r, image, version) && st.total <= |st.data|
    requires forall x | x in burst :: Genuine(x, image, version)
    ensures var ((t, p), chunks) := (AbsorbAll(st, r, burst), ChunkCount(|image|));
            && Faithful(t, r, image, version) && |t.bits| == |st.bits| && |t.data| == |st.data|
            && (st.total != 0 ==> t.total != 0 && Got(st, chunks) <= Got(t, chunks))
            && (p.Full? ==> t.total != 0 && Asked(r, chunks) <= Got(t, chunks))
            && (p.Ended? ==> exists x :: x in burst && Breaks(x))
            && (p.More? && t.total != 0 ==> Carried(burst) <= Got(t, chunks))
            && (p.More? && burst != [] && burst[0].Accept? ==> t.total != 0)
            && (t.total != 0 ==> Got(t, chunks) <= (if st.total == 0 then {} else Got(st, chunks)) + Carried(burst))
    decreases |burst|
  {
    hide Faithful, Genuine, Got, Asked, Absorb;
    if burst == [] {
      assert Carried(burst) == {};
    } else {
      var x, rest := burst[0], burst[1..];
      assert x in burst;
      AbsorbIsFaithful(st, r, x, image, version);
      var (next, p) := Absorb(st, r, x);
      assert forall y :: y in burst <==> y == x || y in rest;
      assert Carried(burst) == Carried([x]) + Carried(rest);
      if p.More? {
        AbsorbAllIsFaithful(next, r, rest, image, version);
      }
    }
  }

  /** A pull only goes on with a card its buffers hold, of the size it was truthfully told. */
  ghost predicate Roomy(st: Intake) {
    st.total <= |st.data| && (st.total != 0 ==> BytesFor(WireChunks(st.total)) <= |st.bits|)
  }

  lemma AbsorbIsRoomy(st: Intake, r: Request, x: Incoming)
    requires Roomy(st)
    ensures var (t, p) := Absorb(st, r, x);
            && (!p.Ended? ==> Roomy(t)) && |t.bits| == |st.bits| && |t.data| == |st.data|
            && (t.total == st.total || ((x.Accept? || x.Piece?) && x.total == t.total))
            && (st.total != 0 ==> t.total == st.total && t.version == st.version)
            && (p.Ended? ==> !p.rc.Ok? && !p.rc.ErrGaveUp?)
  {
    hide WireChunks, Asked;
  }

  lemma {:induction false} AbsorbAllIsRoomy(st: Intake, r: Request, burst: seq<Incoming>)
    requires Roomy(st)
    ensures var (t, p) := AbsorbAll(st, r, burst);
            && (!p.Ended? ==> Roomy(t)) && |t.bits| == |st.bits| && |t.data| == |st.data|
            && (t.total == st.total || exists x :: x in burst && (x.Accept? || x.Piece?) && x.total == t.total)
            && (st.total != 0 ==> t.total == st.total && t.version == st.version)
            && (p.Ended? ==> !p.rc.Ok? && !p.rc.ErrGaveUp?)
    decreases |burst|
  {
    hide WireChunks, Asked, Absorb;
    if burst != [] {
      AbsorbIsRoomy(st, r, burst[0]);
      var (next, p) := Absorb(st, r, burst[0]);
      if p.More? {
        AbsorbAllIsRoomy(next, r, burst[1..]);
      }
    }
  }

  // ----- the receive loop

  /** One datagram, in place. */
  method TakeOne(x: Incoming, r: Request, total: nat, version: nat, outstanding: nat, bitmap: array<byte>,
                 out: array<byte>)
    returns (total': nat, version': nat, outstanding': nat, p: Progress)
    requires bitmap != out && Roomy(Intake(total, version, bitmap[..], out[..], outstanding))
    modifies bitmap, out
    ensures (Intake(total', version', bitmap[..], out[..], outstanding'), p)
         == Absorb(old(Intake(total, version, bitmap[..], out[..], outstanding)), r, x)
  {
    total', version', outstanding', p := total, version, outstanding, More;
    match x {
      case Broken => p := Ended(ErrTransport);
      case Refusal(code) => p := Ended(if code == ConflictCode then ErrConflict else ErrServer);
      case Other =>
      case Accept(v, size) =>
        if total == 0 {
          total', version', outstanding', p := Prepare(r, v, size, outstanding, bitmap, out, version);
        }
      case Piece(v, size, sequence, offset, payload) =>
        if total == 0 {
          total', version', outstanding', p := Prepare(r, v, size, outstanding, bitmap, out, version);
        }
        if !p.Ended? {
          outstanding', p := PlaceInto(r, total', version', outstanding', sequence, offset, payload, bitmap, out);
        }
    }
  }

  method Prepare(r: Request, v: nat, size: nat, outstanding: nat, bitmap: array<byte>, out: array<byte>, version: nat)
    returns (total': nat, version': nat, outstanding': nat, p: Progress)
    requires bitmap != out
    modifies bitmap
    ensures (Intake(total', version', bitmap[..], out[..], outstanding'), p)
         == Initialise(old(Intake(0, version, bitmap[..], out[..], outstanding)), r, size, v)
  {
    if size == 0 {
      return 0, version, outstanding, Ended(ErrProtocol);
    }
    if size > out.Length {
      return size, v, outstanding, Ended(ErrTooBig);
    }
    var chunks := WireChunks(size);
    var needed := BytesFor(chunks);
    if bitmap.Length < needed {
      return size, v, outstanding, Ended(ErrTooBig);
    }
    forall i | 0 <= i < needed {
      bitmap[i] := 0;
    }
    assert bitmap[..] == Zeros(needed) + old(bitmap[..])[needed..];
    outstanding' := CountAsked(r, chunks);
    total', version', p := size, v, More;
    assert out[..] == old(out[..]);
  }

  method CountAsked(r: Request, chunks: nat) returns (n: nat)
    ensures n == |Asked(r, chunks)|
  {
    n := 0;
    ghost var seen: set<nat> := {};
    var i := 0;
    while i < chunks
      invariant 0 <= i <= chunks && n == |seen|
      invariant seen == Asked(r, i)
    {
      MarkedIsTest(r.bitmap, r.base, i);
      if Test(r.bitmap, r.base, i) {
        n := n + 1;
        seen := seen + {i};
      }
      i := i + 1;
    }
  }

  method PlaceInto(r: Request, total: nat, ghost version: nat, outstanding: nat, sequence: nat, offset: nat,
                   payload: seq<byte>, bitmap: array<byte>, out: array<byte>)
    returns (outstanding': nat, p: Progress)
    requires bitmap != out && total <= out.Length
    modifies bitmap, out
    ensures (Intake(total, version, bitmap[..], out[..], outstanding'), p)
         == Place(old(Intake(total, version, bitmap[..], out[..], outstanding)), r, sequence, offset, payload)
  {
    hide Marked, Mark;
    outstanding' := outstanding;
    if offset + |payload| > total {
      return outstanding, More;
    }
    MarkedIsTest(bitmap[..], 0, sequence);
    MarkedIsTest(r.bitmap, r.base, sequence);
    if !Test(bitmap[..], 0, sequence) {
      forall i | 0 <= i < |payload| {
        out[offset + i] := payload[i];
      }
      assert out[..] == Splice(old(out[..]), offset, payload);
      assert bitmap[..] == old(bitmap[..]);
      MarkInPlace(bitmap, 0, sequence);
      if outstanding > 0 && Test(r.bitmap, r.base, sequence) {
        outstanding' := outstanding - 1;
      }
    }
    p := if outstanding' == 0 then Full else More;
  }

  /** The receive loop: until silence, a full window, or an error. */
  method Receive(burst: seq<Incoming>, r: Request, total: nat, version: nat, outstanding: nat, bitmap: array<byte>,
                 out: array<byte>)
    returns (total': nat, version': nat, outstanding': nat, p: Progress)
    requires bitmap != out && Roomy(Intake(total, version, bitmap[..], out[..], outstanding))
    modifies bitmap, out
    ensures (Intake(total', version', bitmap[..], out[..], outstanding'), p)
         == AbsorbAll(old(Intake(total, version, bitmap[..], out[..], outstanding)), r, burst)
  {
    hide Absorb, WireChunks;
    ghost var start := Intake(total, version, bitmap[..], out[..], outstanding);
    total', version', outstanding', p := total, version, outstanding, More;
    var n := 0;
    while n < |burst|
      invariant 0 <= n <= |burst| && p.More?
      invariant Roomy(Intake(total', version', bitmap[..], out[..], outstanding'))
      invariant AbsorbAll(start, r, burst)
             == AbsorbAll(Intake(total', version', bitmap[..], out[..], outstanding'), r, burst[n..])
    {
      ghost var st := Intake(total', version', bitmap[..], out[..], outstanding');
      ghost var rest := burst[n..];
      assert rest[1..] == burst[n + 1..];
      AbsorbIsRoomy(st, r, burst[n]);
      total', version', outstanding', p := TakeOne(burst[n], r, total', version', outstanding', bitmap, out);
      if !p.More? {
        return;
      }
      n := n + 1;
    }
  }

  // ----- choosing the next window

  /** The chunks still absent, as the client's bitmap has it. */
  ghost function Absent(bits: seq<byte>, chunks: nat): set<nat> {
    set i: nat | i < chunks && i !in Marked(bits, 0)
  }

  /** `count_missing`. */
  method CountMissing(bitmap: array<byte>, chunks: nat) returns (missing: nat, first: nat)
    ensures missing == |Absent(bitmap[..], chunks)|
    ensures missing > 0 ==>
              first in Absent(bitmap[..], chunks) && forall i | i in Absent(bitmap[..], chunks) :: first <= i
  {
    hide Marked, Test;
    missing, first := 0, 0;
    ghost var seen: set<nat> := {};
    var i := 0;
    while i < chunks
      invariant 0 <= i <= chunks && missing == |seen|
      invariant seen == Absent(bitmap[..], i)
      invariant missing > 0 ==> first in seen && forall j | j in seen :: first <= j
    {
      MarkedIsTest(bitmap[..], 0, i);
      AbsentNext(bitmap[..], i);
      if !Test(bitmap[..], 0, i) {
        if missing == 0 {
          first := i;
        }
        missing := missing + 1;
        seen := seen + {i};
      }
      i := i + 1;
    }
  }

  lemma AbsentNext(bits: seq<byte>, i: nat)
    ensures Absent(bits, i + 1) == Absent(bits, i) + if i in Marked(bits, 0) then {} else {i}
  {
    hide Marked;
  }

  /** `picked` is the first `window` absent chunks from `first` on that one request can name. */
  ghost predicate IsWindow(picked: set<nat>, absent: set<nat>, first: nat, window: nat) {
    && picked <= absent && |picked| <= window && first in picked
    && (forall i | i in picked :: first <= i < first + REQUEST_BITS)
    && (forall i | i in absent - picked :: first + REQUEST_BITS <= i ||
         (|picked| == window && forall j | j in picked :: j < i))
  }

  lemma NothingPickedYet(absent: set<nat>, request: seq<byte>, first: nat)
    requires request == Zeros(|request|) && forall i | i in absent :: first <= i
    ensures Marked(request, first) == set i | i in absent && i < first
  {
    ZerosMarkNothing(|request|, first);
  }

  lemma MarkedReach(bitmap: seq<byte>, base: nat)
    ensures forall i | i in Marked(bitmap, base) :: base <= i < base + 8 * |bitmap|
  {
  }

  /** Cutting a bitmap after the byte of its highest bit loses nothing. */
  lemma TrimKeeps(bitmap: seq<byte>, base: nat, highest: nat)
    requires base <= highest < base + 8 * |bitmap|
    requires forall i | i in Marked(bitmap, base) :: i <= highest
    ensures Marked(bitmap[..(highest - base) / 8 + 1], base) == Marked(bitmap, base)
  {
  }

  /** A request for the next window; `picked` is what `outstanding` restarts at. */
  method NextRequest(version: nat, bitmap: array<byte>, chunks: nat, first: nat, window: nat)
    returns (r: Request, picked: nat)
    requires 0 < window
    requires first in Absent(bitmap[..], chunks) && forall i | i in Absent(bitmap[..], chunks) :: first <= i
    ensures r.want == version && r.base == first && 0 < |r.bitmap| <= MAX_PAYLOAD
    ensures IsWindow(Marked(r.bitmap, first), Absent(bitmap[..], chunks), first, window)
    ensures picked == |Marked(r.bitmap, first)|
  {
    hide Marked;
    ghost var absent := Absent(bitmap[..], chunks);
    var request := new byte[MAX_PAYLOAD](_ => 0);
    assert request[..] == Zeros(MAX_PAYLOAD);
    NothingPickedYet(absent, request[..], first);
    var highest := first;
    picked := 0;
    var i := first;
    while i < chunks && picked < window
      invariant first <= i <= chunks
      invariant Marked(request[..], first) == set j | j in absent && j < i
      invariant forall j | j in absent && j < i :: j <= highest
      invariant first <= highest < first + REQUEST_BITS
      invariant picked == |Marked(request[..], first)| <= window
    {
      ghost var was := Marked(request[..], first);
      MarkedIsTest(bitmap[..], 0, i);
      if !Test(bitmap[..], 0, i) {
        assert i in absent;
        if i - first >= REQUEST_BITS {
          break;
        }
        MarkInPlace(request, first, i);
        assert Marked(request[..], first) == was + {i};
        highest := i;
        picked := picked + 1;
      }
      i := i + 1;
    }
    MarkedReach(request[..], first);
    TrimKeeps(request[..], first, highest);
    r := Request(version, first, request[..(highest - first) / 8 + 1]);
  }

  // ----- where each chunk came from

  /** A piece where the protocol puts it: at its own index, and no more than a chunk. */
  predicate WellPlaced(x: Incoming) {
    x.Piece? ==> x.offset == MAX_PAYLOAD * x.sequence && 0 < |x.payload| <= MAX_PAYLOAD
  }

  /** Byte `k` of the buffer: from the piece stored for its chunk, or past that piece's end, as it was. */
  function Patch(k: nat, was: seq<byte>, from: map<nat, Incoming>): byte
    requires k < |was| && k / MAX_PAYLOAD in from && from[k / MAX_PAYLOAD].Piece?
  {
    var payload := from[k / MAX_PAYLOAD].payload;
    if k % MAX_PAYLOAD < |payload| then payload[k % MAX_PAYLOAD] else was[k]
  }

  /** `from` holds well-placed pieces, each under its own index and inside a card of `total` bytes. */
  ghost predicate Pieced(from: map<nat, Incoming>, total: nat) {
    forall i | i in from ::
      from[i].Piece? && from[i].sequence == i && WellPlaced(from[i]) && from[i].offset + |from[i].payload| <= total
  }

  /** For each chunk received, `from` holds the piece that was stored for it. */
  ghost predicate Patched(st: Intake, was: seq<byte>, from: map<nat, Incoming>) {
    && |st.data| == |was| && st.total <= |st.data| && Pieced(from, st.total)
    && (st.total == 0 ==> st.data == was)
    && (0 < st.total <= WORD - MAX_PAYLOAD ==>
          && ChunkCount(st.total) <= 8 * |st.bits|
          && (forall i: nat | i < ChunkCount(st.total) :: i in Marked(st.bits, 0) <==> i in from)
          && forall k: nat | k < st.total ::
               st.data[k] == if k / MAX_PAYLOAD in from then Patch(k, was, from) else was[k])
  }

  lemma InitialisePatches(st: Intake, r: Request, total: nat, version: nat, was: seq<byte>, from: map<nat, Incoming>)
    requires Patched(st, was, from) && st.total == 0 && !Initialise(st, r, total, version).1.Ended?
    ensures var t := Initialise(st, r, total, version).0; Patched(t, was, from) && t.total == total != 0
  {
    var needed := BytesFor(WireChunks(total));
    var t := Initialise(st, r, total, version).0;
    assert forall i | i in from :: |from[i].payload| > 0;
    assert from == map[];
    if total + MAX_PAYLOAD <= WORD {
      ClearedGot(needed, st.bits[needed..], t, ChunkCount(total));
      forall i: nat | i < ChunkCount(total) ensures i !in Marked(t.bits, 0) {
        assert i !in Got(t, ChunkCount(total));
      }
    }
  }

  /** A piece is stored as a whole, at its place, the first time its chunk comes. */
  lemma PlacePatches(st: Intake, r: Request, x: Incoming, was: seq<byte>, from: map<nat, Incoming>)
    returns (from': map<nat, Incoming>)
    requires Patched(st, was, from) && st.total != 0 && x.Piece? && WellPlaced(x)
    ensures var (t, p) := Place(st, r, x.sequence, x.offset, x.payload); Patched(t, was, from') && !p.Ended?
    ensures forall i | i in from' :: (i in from && from'[i] == from[i]) || from'[i] == x
  {
    hide Marked, Mark;
    from' := from;
    if x.offset + |x.payload| <= st.total && x.sequence !in Marked(st.bits, 0) {
      from' := from[x.sequence := x];
      StoredWhole(st, Place(st, r, x.sequence, x.offset, x.payload).0, x, was, from);
    }
  }

  lemma StoredWhole(st: Intake, t: Intake, x: Incoming, was: seq<byte>, from: map<nat, Incoming>)
    requires Patched(st, was, from) && st.total != 0 && x.Piece? && WellPlaced(x)
    requires x.offset + |x.payload| <= st.total && x.sequence !in Marked(st.bits, 0)
    requires t == st.(data := Splice(st.data, x.offset, x.payload), bits := Mark(st.bits, 0, x.sequence),
                      outstanding := t.outstanding)
    ensures Patched(t, was, from[x.sequence := x])
  {
    hide Marked, Mark;
    var from' := from[x.sequence := x];
    if st.total + MAX_PAYLOAD <= WORD {
      assert x.sequence < ChunkCount(st.total) && x.sequence !in from;
      MarkAdds(st.bits, 0, x.sequence);
      forall k: nat | k < t.total
        ensures t.data[k] == if k / MAX_PAYLOAD in from' then Patch(k, was, from') else was[k]
      {
        assert st.data[k] == if k / MAX_PAYLOAD in from then Patch(k, was, from) else was[k];
        assert k == MAX_PAYLOAD * (k / MAX_PAYLOAD) + k % MAX_PAYLOAD;
      }
    }
  }

  lemma AbsorbPatches(st: Intake, r: Request, x: Incoming, was: seq<byte>, from: map<nat, Incoming>)
    returns (from': map<nat, Incoming>)
    requires Patched(st, was, from) && st.total <= |st.data| && WellPlaced(x)
    ensures var (t, p) := Absorb(st, r, x); !p.Ended? ==> Patched(t, was, from') && t.total <= |t.data|
    ensures forall i | i in from' :: (i in from && from'[i] == from[i]) || from'[i] == x
  {
    hide Initialise, Place, Patched;
    from' := from;
    if x.Piece? || x.Accept? {
      var (begun, p) := if st.total == 0 then Initialise(st, r, x.total, x.version) else (st, More);
      if !p.Ended? {
        AbsorbFits(st, r, x);
        if st.total == 0 {
          InitialisePatches(st, r, x.total, x.version, was, from);
        }
        if x.Piece? {
          from' := PlacePatches(begun, r, x, was, from);
        }
      }
    }
  }

  lemma AbsorbFits(st: Intake, r: Request, x: Incoming)
    requires st.total <= |st.data|
    ensures var (t, p) := Absorb(st, r, x); !p.Ended? ==> t.total <= |t.data|
  {
  }

  lemma {:induction false} BurstPatches(st: Intake, r: Request, burst: seq<Incoming>, was: seq<byte>,
                                        from: map<nat, Incoming>)
    returns (from': map<nat, Incoming>)
    requires Patched(st, was, from) && st.total <= |st.data| && forall x | x in burst :: WellPlaced(x)
    ensures var (t, p) := AbsorbAll(st, r, burst); !p.Ended? ==> Patched(t, was, from')
    ensures forall i | i in from' :: (i in from && from'[i] == from[i]) || from'[i] in burst
    decreases |burst|
  {
    hide Absorb, WellPlaced, Patched;
    from' := from;
    if burst != [] {
      assert burst[0] in burst && forall x | x in burst[1..] :: x in burst;
      var now := AbsorbPatches(st, r, burst[0], was, from);
      var (next, p) := Absorb(st, r, burst[0]);
      from' := now;
      if p.More? {
        from' := BurstPatches(next, r, burst[1..], was, now);
      }
    }
  }

  /** What the client keeps as chunk `i` of a card of `size` bytes. */
  function StoredChunk(size: nat, was: seq<byte>, from: map<nat, Incoming>, i: nat): seq<byte>
    requires i in from && i < ChunkCount(size) && size <= |was| && Pieced(from, size)
  {
    var end := MAX_PAYLOAD * i + ChunkLen(size, i);
    from[i].payload + was[MAX_PAYLOAD * i + |from[i].payload|..end]
  }

  /** What a finished buffer is: every chunk the piece stored for it, over the buffer as it was. */
  ghost predicate Assembled(data: seq<byte>, was: seq<byte>, from: map<nat, Incoming>) {
    && |data| <= |was| && Pieced(from, |data|)
    && forall i: nat | i < ChunkCount(|data|) :: i in from && ChunkOf(data, i) == StoredChunk(|data|, was, from, i)
  }

  lemma NothingAbsentAssembles(st: Intake, was: seq<byte>, from: map<nat, Incoming>)
    requires Patched(st, was, from) && 0 < st.total <= WORD - MAX_PAYLOAD && Absent(st.bits, WireChunks(st.total)) == {}
    ensures Assembled(st.data[..st.total], was, from)
  {
    hide Marked;
    var data := st.data[..st.total];
    forall i: nat | i < ChunkCount(st.total)
      ensures i in from && ChunkOf(data, i) == StoredChunk(|data|, was, from, i)
    {
      assert i !in Absent(st.bits, WireChunks(st.total));
      forall j: nat | j < ChunkLen(|data|, i) ensures ChunkOf(data, i)[j] == StoredChunk(|data|, was, from, i)[j] {
        var k := MAX_PAYLOAD * i + j;
        assert k / MAX_PAYLOAD == i && k % MAX_PAYLOAD == j;
        assert st.data[k] == Patch(k, was, from);
      }
    }
  }

  /**
   So the exact condition for a finished pull to be a given image: chunk for chunk, the piece
   stored, of whatever version it was, agrees with it.
   */
  lemma AssembledIsImage(data: seq<byte>, was: seq<byte>, from: map<nat, Incoming>, image: Image)
    requires Assembled(data, was, from) && |image| == |data|
    ensures data == image <==>
              forall i: nat | i < ChunkCount(|data|) :: StoredChunk(|data|, was, from, i) == ChunkOf(image, i)
  {
    if forall i: nat | i < ChunkCount(|data|) :: StoredChunk(|data|, was, from, i) == ChunkOf(image, i) {
      forall k: nat | k < |data| ensures data[k] == image[k] {
        var i := k / MAX_PAYLOAD;
        assert ChunkOf(data, i) == ChunkOf(image, i);
        assert ChunkOf(data, i)[k - MAX_PAYLOAD * i] == ChunkOf(image, i)[k - MAX_PAYLOAD * i];
      }
    }
  }

  // ----- a network that loses nothing

  lemma {:induction false} PiecesAre(image: Image, version: nat, r: Request, from: nat)
    ensures forall x | x in Pieces(image, version, r, from) :: x.Piece? && Genuine(x, image, version)
    ensures Carried(Pieces(image, version, r, from)) == set i | i in Asked(r, ChunkCount(|image|)) && from <= i
    decreases ChunkCount(|image|) - from
  {
    hide Marked;
    if from < ChunkCount(|image|) {
      PiecesAre(image, version, r, from + 1);
      var all, later := Pieces(image, version, r, from), Pieces(image, version, r, from + 1);
      if from in Marked(r.bitmap, r.base) {
        var x := Piece(version, |image|, from, MAX_PAYLOAD * from, ChunkOf(image, from));
        assert forall y :: y in all <==> y == x || y in later;
        assert Carried(all) == {from} + Carried(later);
      } else {
        assert all == later;
      }
    }
  }

  lemma BurstIs(image: Image, version: nat, r: Request)
    ensures forall x | x in Burst(image, version, r) :: Genuine(x, image, version) && !Breaks(x)
    ensures Carried(Burst(image, version, r)) == Asked(r, ChunkCount(|image|))
  {
    PiecesAre(image, version, r, 0);
    var all, pieces := Burst(image, version, r), Pieces(image, version, r, 0);
    assert forall y :: y in all <==> y == Accept(version, |image|) || y in pieces;
    assert Carried(all) == Carried(pieces);
  }

  /** A burst that arrives whole brings exactly what was asked for. */
  lemma WholeRound(st: Intake, r: Request, image: Image, version: nat)
    requires Faithful(st, r, image, version) && st.total <= |st.data|
    ensures var ((t, p), chunks) := (AbsorbAll(st, r, Burst(image, version, r)), ChunkCount(|image|));
            && !p.Ended? && t.total != 0
            && Got(t, chunks) == (if st.total == 0 then {} else Got(st, chunks)) + Asked(r, chunks)
  {
    hide Faithful, Genuine, Got, Asked, AbsorbAll;
    BurstIs(image, version, r);
    AbsorbAllIsFaithful(st, r, Burst(image, version, r), image, version);
    GotStarts(st, r, Burst(image, version, r), image, version);
    var (t, p) := AbsorbAll(st, r, Burst(image, version, r));
    assert p.Full? || p.More?;
  }

  lemma GotStarts(st: Intake, r: Request, burst: seq<Incoming>, image: Image, version: nat)
    requires Faithful(st, r, image, version) && st.total <= |st.data|
    requires burst != [] && burst[0] == Accept(version, |image|)
    ensures var (t, p) := AbsorbAll(st, r, burst); p.More? ==> t.total != 0
  {
    if st.total == 0 {
      InitialiseIsFaithful(st, r, image, version);
    }
    AbsorbAllStays(Absorb(st, r, burst[0]).0, r, burst[1..]);
  }

  lemma {:induction false} AbsorbAllStays(st: Intake, r: Request, burst: seq<Incoming>)
    requires st.total != 0 && st.total <= |st.data|
    ensures AbsorbAll(st, r, burst).0.total == st.total
    decreases |burst|
  {
    if burst != [] {
      AbsorbAllStays(Absorb(st, r, burst[0]).0, r, burst[1..]);
    }
  }

  function Least(a: nat, b: nat): nat {
    if a <= b then a else b
  }

  ghost function Between(from: nat, to: nat): (s: set<nat>)
    ensures forall i: nat :: i in s <==> from <= i < to
    ensures from <= to ==> |s| == to - from
  {
    if from <= to then
      assert UpTo(to) == UpTo(from) + (UpTo(to) - UpTo(from));
      UpTo(to) - UpTo(from)
    else {}
  }

  /** The loss-free pull between rounds: chunks below `m` are in, the window from `m` is being asked for. */
  ghost predicate Flow(st: Intake, r: Request, m: nat, image: Image, version: nat, want: nat, window: nat) {
    var chunks := ChunkCount(|image|);
    && m < chunks
    && (m == 0 <==> st.total == 0)
    && (m > 0 ==> Got(st, chunks) == Between(0, m))
    && Asked(r, chunks) == Between(m, Least(m + window, chunks))
    && r.want == if m == 0 then want else version
  }

  lemma FlowRound(st: Intake, r: Request, t: Intake, m: nat, image: Image, version: nat, want: nat, window: nat)
    requires Flow(st, r, m, image, version, want, window)
    requires Got(t, ChunkCount(|image|)) == (if st.total == 0 then {} else Got(st, ChunkCount(|image|)))
             + Asked(r, ChunkCount(|image|))
    ensures Got(t, ChunkCount(|image|)) == Between(0, Least(m + window, ChunkCount(|image|)))
    ensures Absent(t.bits, ChunkCount(|image|)) == Between(Least(m + window, ChunkCount(|image|)), ChunkCount(|image|))
  {
    hide Between, Asked, Marked;
    var chunks := ChunkCount(|image|);
    forall i: nat | i < chunks ensures i in Absent(t.bits, chunks) <==> i !in Got(t, chunks) {
    }
  }

  /** When the absent chunks are one run to the end of the card, a window is its front. */
  lemma WindowOfRun(picked: set<nat>, first: nat, chunks: nat, window: nat)
    requires first < chunks && 0 < window <= REQUEST_BITS
    requires IsWindow(picked, Between(first, chunks), first, window)
    ensures picked == Between(first, Least(first + window, chunks))
  {
    hide Between;
    var all := Between(first, Least(first + window, chunks));
    if i :| i in all && i !in picked {
      assert i in Between(first, chunks) - picked;
      assert picked <= all - {i};
      SubsetSize(picked, all - {i});
    }
    assert all <= picked;
    SubsetSize(all, picked);
    if |all| < |picked| {
      SubsetSize(picked, Between(first, chunks));
    }
  }

  lemma FlowNext(t: Intake, r: Request, m: nat, image: Image, version: nat, want: nat, window: nat)
    requires var chunks := ChunkCount(|image|);
             && 0 < m < chunks && Got(t, chunks) == Between(0, m) && Absent(t.bits, chunks) == Between(m, chunks)
             && r.base == m && r.want == version && t.total != 0
             && IsWindow(Marked(r.bitmap, m), Absent(t.bits, chunks), m, window)
    requires 0 < window <= REQUEST_BITS
    ensures Flow(t, r, m, image, version, want, window)
  {
    hide Between, IsWindow, Marked, Got, Absent;
    WindowOfRun(Marked(r.bitmap, r.base), m, ChunkCount(|image|), window);
  }

  // ----- the pull

  /** Whatever comes in reply to the requests such a pull sends is of that version, or carries nothing. */
  ghost predicate AllGenuine(net: Net, image: Image, version: nat, want: nat) {
    forall n, r: Request, x | (r.want == want || r.want == version) && x in net(n, r) :: Genuine(x, image, version)
  }

  /** The request a pull opens with: the first window, however the version is named. */
  ghost predicate IsFirst(r: Request, want: nat, window: nat) {
    r.want == want && r.base == 0 && Marked(r.bitmap, 0) == UpTo(window)
  }

  /** To an intake that does not know the card yet, or does, one burst is as good as another. */
  ghost predicate TakenAs(burst: seq<Incoming>, r: Request, whole: seq<Incoming>, unknown: bool) {
    forall st: Intake | (st.total == 0 <==> unknown) && st.total <= |st.data| ::
      AbsorbAll(st, r, burst) == AbsorbAll(st, r, whole)
  }

  /**
   After `quiet` requests that draw nothing, every request is answered in full, as far as the
   client can tell: the first window under whatever name, the rest by number.
   */
  ghost predicate Lossless(net: Net, image: Image, version: nat, want: nat, window: nat, quiet: nat) {
    && (forall n: nat, r: Request | n < quiet && IsFirst(r, want, window) :: net(n, r) == [])
    && (forall r: Request | IsFirst(r, want, window) :: TakenAs(net(quiet, r), r, Burst(image, version, r), true))
    && (forall n: nat, r: Request | n > quiet && r.want == version && window <= r.base < ChunkCount(|image|) ::
          TakenAs(net(n, r), r, Burst(image, version, r), false))
  }

  /** The window actually used. */
  function WindowSize(pullWindow: int): (w: nat)
    ensures 0 < w <= REQUEST_BITS
  {
    if pullWindow <= 0 then DEFAULT_WINDOW else Least(pullWindow, REQUEST_BITS)
  }

  /** Four passes over the card and the caller's allowance. */
  function Budget(total: nat, window: nat, maxRounds: nat): (b: nat)
    requires window > 0
    ensures b > maxRounds && b > WireChunks(total) / window
  {
    (WireChunks(total) / window + 1) * 4 + maxRounds
  }

  method FirstRequest(want: nat, window: nat) returns (r: Request)
    requires 0 < window <= REQUEST_BITS
    ensures IsFirst(r, want, window) && 0 < |r.bitmap| <= MAX_PAYLOAD
  {
    hide Marked, Mark, UpTo;
    var request := new byte[MAX_PAYLOAD](_ => 0);
    assert request[..] == Zeros(MAX_PAYLOAD);
    ZerosMarkNothing(MAX_PAYLOAD, 0);
    var i := 0;
    assert UpTo(0) == {};
    while i < window
      invariant 0 <= i <= window && Marked(request[..], 0) == UpTo(i)
    {
      MarkInPlace(request, 0, i);
      assert UpTo(i + 1) == UpTo(i) + {i};
      i := i + 1;
    }
    TrimKeeps(request[..], 0, window - 1);
    r := Request(want, 0, request[..(window - 1) / 8 + 1]);
  }

  /** The first request of a loss-free pull. */
  lemma FlowStarts(st: Intake, r: Request, image: Image, version: nat, want: nat, window: nat)
    requires st.total == 0 && r.want == want && r.base == 0 && Marked(r.bitmap, 0) == UpTo(window)
    requires Fits(image, |st.data|, |st.bits|)
    ensures Flow(st, r, 0, image, version, want, window) && Faithful(st, r, image, version)
  {
  }

  /** A new request on the same intake: the counter restarts at what it asks for. */
  lemma NextIsFaithful(st: Intake, r: Request, r': Request, image: Image, version: nat, window: nat)
    requires Faithful(st, r, image, version) && st.total != 0
    requires IsWindow(Marked(r'.bitmap, r'.base), Absent(st.bits, ChunkCount(|image|)), r'.base, window)
    ensures Faithful(st.(outstanding := |Marked(r'.bitmap, r'.base)|), r', image, version)
  {
    var chunks := ChunkCount(|image|);
    assert Asked(r', chunks) == Marked(r'.bitmap, r'.base);
    assert Asked(r', chunks) - Got(st, chunks) == Asked(r', chunks);
  }

  lemma NothingAbsent(st: Intake, r: Request, image: Image, version: nat)
    requires Faithful(st, r, image, version) && st.total != 0 && Absent(st.bits, ChunkCount(|image|)) == {}
    ensures |image| <= |st.data| && st.data[..|image|] == image && st.version == version
  {
    forall i | 0 <= i < |image| ensures st.data[i] == image[i] {
      assert i / MAX_PAYLOAD !in Absent(st.bits, ChunkCount(|image|));
    }
  }

  lemma RoomyFits(st: Intake, image: Image)
    requires Roomy(st) && st.total == |image| != 0 && |image| + MAX_PAYLOAD <= WORD
    ensures Fits(image, |st.data|, |st.bits|) && WireChunks(|image|) == ChunkCount(|image|)
  {
    hide WireChunks;
    WireChunksFit(image);
  }

  lemma FaithfulTells(st: Intake, r: Request, image: Image, version: nat)
    requires Faithful(st, r, image, version) && st.total != 0
    ensures st.total == |image| && st.version == version && WireChunks(|image|) == ChunkCount(|image|)
  {
    hide WireChunks, Got, Asked;
    WireChunksFit(image);
  }

  /** A genuine burst on a faithful intake. */
  lemma GenuineRound(st: Intake, r: Request, burst: seq<Incoming>, image: Image, version: nat)
    requires Faithful(st, r, image, version) && st.total <= |st.data|
    requires (forall x | x in burst :: Genuine(x, image, version)) || burst == Burst(image, version, r)
    ensures Faithful(AbsorbAll(st, r, burst).0, r, image, version)
  {
    BurstIs(image, version, r);
    AbsorbAllIsFaithful(st, r, burst, image, version);
  }

  /** The windows of a loss-free pull, counted. */
  lemma WindowsCount(k: nat, m: nat, window: nat, chunks: nat)
    requires window > 0 && m == k * window && m < chunks
    ensures k <= chunks / window
    ensures chunks <= m + window ==> k + 1 == (chunks + window - 1) / window
    ensures m + window == (k + 1) * window
  {
    QuotientIs(chunks, window, k);
    if chunks <= m + window {
      var c := chunks + window - 1;
      assert c == window * (k + 1) + (chunks - m - 1);
      QuotientIs(c, window, k + 1);
    }
  }

  lemma QuotientIs(c: nat, w: nat, k: nat)
    requires w > 0 && k * w <= c
    ensures k <= c / w
    ensures c < k * w + w ==> c / w == k
  {
    var q := c / w;
    assert c == q * w + c % w;
    TimesGrows(q + 1, k, w);
    TimesGrows(k + 1, q, w);
  }

  lemma TimesGrows(a: nat, b: nat, w: nat)
    ensures a <= b ==> a * w <= b * w
  {
  }

  /** How far a pull can go before it gives up: `unknown` rounds before the size is known, `rounds` after. */
  ghost predicate Counted(sent: nat, unknown: nat, rounds: nat, stalled: nat, total: nat, budget: nat, window: nat,
                          maxRounds: nat)
    requires window > 0
  {
    && sent == unknown + rounds && stalled <= sent
    && unknown <= (if maxRounds > 0 then maxRounds - 1 else 0)
    && (if total == 0 then budget == 0 && rounds == 0 && stalled == unknown
        else budget == Budget(total, window, maxRounds) && rounds <= budget)
  }

  /** The network and the card it carries: what a pull is judged against. */
  datatype Case = Case(net: Net, image: Image, version: nat, want: nat, window: nat, quiet: nat)
  {
    ghost predicate Honest(st: Intake) {
      Fits(image, |st.data|, |st.bits|) && AllGenuine(net, image, version, want)
    }

    ghost predicate Smooth(st: Intake) {
      Fits(image, |st.data|, |st.bits|) && Lossless(net, image, version, want, window, quiet)
    }

    function Chunks(): nat {
      ChunkCount(|image|)
    }

    /** What the intake knows of the card, it knows truly. */
    predicate Told(st: Intake) {
      st.total == 0 || (st.total == |image| && st.version == version)
    }

    /** How far a loss-free pull is when request number `sent` goes out. */
    ghost predicate OnTime(r: Request, sent: nat, m: nat, previous: nat, stalled: nat) {
      && (sent <= quiet ==> m == 0 && stalled == sent && IsFirst(r, want, window))
      && (sent > quiet ==> m == (sent - quiet) * window > 0 && stalled == 0 && window <= r.base < Chunks())
      && previous == if m == 0 then WORD - 1 else Chunks() - m
    }

    /** What holds whenever request number `sent` is about to go out. */
    ghost predicate Kept(st: Intake, r: Request, sent: nat, m: nat, previous: nat, stalled: nat) {
      && (AllGenuine(net, image, version, want) ==> Told(st) && (r.want == want || r.want == version))
      && (Honest(st) || Smooth(st) ==> Faithful(st, r, image, version))
      && (Smooth(st) ==> Flow(st, r, m, image, version, want, window) && OnTime(r, sent, m, previous, stalled))
    }

    /** And once the burst it drew is in. */
    ghost predicate Landed(t: Intake, p: Progress, r: Request, sent: nat, m: nat) {
      && (AllGenuine(net, image, version, want) && !p.Ended? ==> Told(t) && (r.want == want || r.want == version))
      && (Honest(t) || Smooth(t) ==> Faithful(t, r, image, version))
      && (Smooth(t) ==>
            && !p.Ended? && (t.total == 0 <==> sent < quiet)
            && (sent >= quiet ==>
                  && m < Chunks()
                  && Got(t, Chunks()) == Between(0, Least(m + window, Chunks()))
                  && Absent(t.bits, Chunks()) == Between(Least(m + window, Chunks()), Chunks())))
    }
  }

  lemma KeptAtFirst(x: Case, st: Intake, r: Request, previous: nat)
    requires st.total == 0 && IsFirst(r, x.want, x.window) && previous == WORD - 1
    ensures x.Kept(st, r, 0, 0, previous, 0)
  {
    hide Marked, UpTo, Flow, Faithful;
    if Fits(x.image, |st.data|, |st.bits|) {
      FlowStarts(st, r, x.image, x.version, x.want, x.window);
    }
  }

  lemma KeptLands(x: Case, st: Intake, r: Request, sent: nat, m: nat, previous: nat, stalled: nat)
    requires x.Kept(st, r, sent, m, previous, stalled) && Roomy(st)
    ensures var (t, p) := AbsorbAll(st, r, x.net(sent, r)); x.Landed(t, p, r, sent, m)
  {
    hide Absorb, AbsorbAll, WireChunks, Genuine, Fits, Faithful, Got, Absent, Burst, Asked, Between, IsFirst, Lossless,
         Flow;
    var burst := x.net(sent, r);
    AbsorbAllIsRoomy(st, r, burst);
    if AllGenuine(x.net, x.image, x.version, x.want) {
      ToldTruly(x, st, r, burst);
    }
    if x.Honest(st) {
      assert forall y | y in burst :: Genuine(y, x.image, x.version);
      GenuineRound(st, r, burst, x.image, x.version);
    }
    if x.Smooth(st) {
      SmoothLands(x, st, r, sent, m, previous, stalled);
    }
  }

  /** A loss-free round, or a silent one before them. */
  lemma SmoothLands(x: Case, st: Intake, r: Request, sent: nat, m: nat, previous: nat, stalled: nat)
    requires x.Kept(st, r, sent, m, previous, stalled) && Roomy(st) && x.Smooth(st)
    ensures var (t, p) := AbsorbAll(st, r, x.net(sent, r));
            && Faithful(t, r, x.image, x.version) && !p.Ended? && (t.total == 0 <==> sent < x.quiet)
            && (sent >= x.quiet ==>
                  && m < x.Chunks()
                  && Got(t, x.Chunks()) == Between(0, Least(m + x.window, x.Chunks()))
                  && Absent(t.bits, x.Chunks()) == Between(Least(m + x.window, x.Chunks()), x.Chunks()))
  {
    hide Absorb, AbsorbAll, WireChunks, Genuine, Fits, Faithful, Got, Absent, Burst, Asked, Between, IsFirst;
    var burst, whole := x.net(sent, r), Burst(x.image, x.version, r);
    if sent < x.quiet {
      EmptyBurst(st, r);
    } else {
      assert TakenAs(burst, r, whole, sent == x.quiet);
      assert AbsorbAll(st, r, burst) == AbsorbAll(st, r, whole);
      GenuineRound(st, r, whole, x.image, x.version);
      WholeRound(st, r, x.image, x.version);
      FlowRound(st, r, AbsorbAll(st, r, whole).0, m, x.image, x.version, x.want, x.window);
    }
  }

  lemma EmptyBurst(st: Intake, r: Request)
    requires st.total <= |st.data|
    ensures AbsorbAll(st, r, []) == (st, More)
  {
  }

  lemma {:induction false} ToldTruly(x: Case, st: Intake, r: Request, burst: seq<Incoming>)
    requires st.total <= |st.data| && x.Told(st) && forall y | y in burst :: Genuine(y, x.image, x.version)
    ensures var (t, p) := AbsorbAll(st, r, burst); x.Told(t)
    decreases |burst|
  {
    hide WireChunks, Asked;
    if burst != [] {
      assert burst[0] in burst && forall y | y in burst[1..] :: y in burst;
      var (next, p) := Absorb(st, r, burst[0]);
      assert x.Told(next);
      if p.More? {
        ToldTruly(x, next, r, burst[1..]);
      }
    }
  }

  /** Nothing absent: the buffer is the card, and a loss-free pull has sent one request a window. */
  lemma LandedDone(x: Case, t: Intake, p: Progress, r: Request, sent: nat, m: nat)
    requires x.Landed(t, p, r, sent, m) && !p.Ended? && Roomy(t) && t.total != 0
    requires Absent(t.bits, WireChunks(t.total)) == {}
    requires x.Smooth(t) ==> sent >= x.quiet && m == (sent - x.quiet) * x.window && x.window > 0
    ensures (AllGenuine(x.net, x.image, x.version, x.want) && |x.image| + MAX_PAYLOAD <= WORD) || x.Smooth(t) ==>
              t.total == |x.image| && t.version == x.version && t.data[..t.total] == x.image
    ensures x.Smooth(t) ==> sent + 1 == x.quiet + (x.Chunks() + x.window - 1) / x.window
  {
    hide Genuine, Got, Absent, Asked, Faithful, WireChunks, Fits, Between, Lossless, AllGenuine, Roomy, ChunkCount;
    if AllGenuine(x.net, x.image, x.version, x.want) && |x.image| + MAX_PAYLOAD <= WORD {
      RoomyFits(t, x.image);
      NothingAbsent(t, r, x.image, x.version);
    }
    if x.Smooth(t) {
      FaithfulTells(t, r, x.image, x.version);
      NothingAbsent(t, r, x.image, x.version);
      var end := Least(m + x.window, x.Chunks());
      assert |Between(end, x.Chunks())| == 0;
      WindowsCount(sent - x.quiet, m, x.window, x.Chunks());
    }
  }

  /** Silence before anything is known: the same request goes out again. */
  lemma LandedNothing(x: Case, st: Intake, t: Intake, p: Progress, r: Request, sent: nat, m: nat, previous: nat,
                      stalled: nat)
    requires x.Kept(st, r, sent, m, previous, stalled) && x.Landed(t, p, r, sent, m) && t.total == 0
    requires st.total == 0 && |st.data| == |t.data| && |st.bits| == |t.bits|
    ensures x.Kept(t, r, sent + 1, m, previous, stalled + 1) && (x.Smooth(t) ==> sent < x.quiet && stalled == sent)
  {
    hide Genuine, Got, Absent, Asked, Faithful, Marked, Fits, Lossless, IsFirst;
  }

  /** A loss-free round is progress, and within the budget. */
  lemma LandedPays(x: Case, st: Intake, t: Intake, p: Progress, r: Request, sent: nat, m: nat, previous: nat,
                   stalled: nat)
    requires x.Kept(st, r, sent, m, previous, stalled) && x.Landed(t, p, r, sent, m) && t.total != 0 && x.window > 0
    requires |st.data| == |t.data| && |st.bits| == |t.bits|
    ensures x.Smooth(t) ==>
              && sent >= x.quiet && m == (sent - x.quiet) * x.window && (sent > x.quiet ==> stalled == 0)
              && sent - x.quiet <= WireChunks(t.total) / x.window
              && |Absent(t.bits, WireChunks(t.total))| < previous
  {
    hide Genuine, Got, Absent, Asked, Faithful, Marked, WireChunks, Flow, Lossless, IsFirst, AllGenuine, Between;
    if x.Smooth(t) {
      FaithfulTells(t, r, x.image, x.version);
      var end, k := Least(m + x.window, x.Chunks()), sent - x.quiet;
      WindowsCount(k, m, x.window, x.Chunks());
      BetweenSize(end, x.Chunks());
    }
  }

  /** Something absent: the next request keeps everything, one window further on. */
  lemma LandedNext(x: Case, t: Intake, p: Progress, r: Request, r': Request, sent: nat, m: nat, stalled: nat)
    requires x.Landed(t, p, r, sent, m) && !p.Ended? && Roomy(t) && t.total != 0 && 0 < x.window <= REQUEST_BITS
    requires r'.want == t.version && r'.base in Absent(t.bits, WireChunks(t.total))
    requires forall i | i in Absent(t.bits, WireChunks(t.total)) :: r'.base <= i
    requires IsWindow(Marked(r'.bitmap, r'.base), Absent(t.bits, WireChunks(t.total)), r'.base, x.window)
    requires x.Smooth(t) ==> sent >= x.quiet && m == (sent - x.quiet) * x.window && stalled == 0
    ensures x.Kept(t.(outstanding := |Marked(r'.bitmap, r'.base)|), r', sent + 1, m + x.window,
                   |Absent(t.bits, WireChunks(t.total))|, stalled)
  {
    hide Genuine, Got, Absent, Asked, Faithful, Marked, IsWindow, WireChunks, Fits, Lossless, IsFirst, Flow, Between,
         AllGenuine, ChunkCount;
    var t' := t.(outstanding := |Marked(r'.bitmap, r'.base)|);
    if x.Honest(t) || x.Smooth(t) {
      FaithfulTells(t, r, x.image, x.version);
      NextIsFaithful(t, r, r', x.image, x.version, x.window);
    }
    if x.Smooth(t) {
      var end, k := Least(m + x.window, x.Chunks()), sent - x.quiet;
      assert r'.base in Between(end, x.Chunks());
      WindowsCount(k, m, x.window, x.Chunks());
      assert sent + 1 - x.quiet == k + 1;
      FirstBetween(r'.base, end, x.Chunks());
      SameGot(t, t', x.Chunks());
      FlowNext(t', r', m + x.window, x.image, x.version, x.want, x.window);
    }
  }

  lemma BetweenSize(from: nat, to: nat)
    requires from <= to
    ensures |Between(from, to)| == to - from
  {
  }

  /** The least of a run is where it starts. */
  lemma FirstBetween(first: nat, from: nat, to: nat)
    requires first in Between(from, to)
    ensures from <= first < to && from in Between(from, to) && |Between(from, to)| == to - from
  {
  }

  lemma SameGot(t: Intake, t': Intake, chunks: nat)
    requires t'.bits == t.bits
    ensures Got(t', chunks) == Got(t, chunks)
  {
  }

  /** Every piece that came in reply to these requests is where the protocol puts it. */
  ghost predicate AllPlaced(net: Net, requests: seq<Request>) {
    forall n: nat, x | n < |requests| && x in net(n, requests[n]) :: WellPlaced(x)
  }

  /** Every piece stored came in reply to one of these requests. */
  ghost predicate CameIn(net: Net, requests: seq<Request>, from: map<nat, Incoming>) {
    forall i | i in from :: exists n: nat :: n < |requests| && from[i] in net(n, requests[n])
  }

  /** The n-th burst's pieces join those stored. */
  lemma BurstComesIn(net: Net, requests: seq<Request>, r: Request, st: Intake, was: seq<byte>, from: map<nat, Incoming>)
    returns (from': map<nat, Incoming>)
    requires CameIn(net, requests, from) && st.total <= |st.data|
    requires AllPlaced(net, requests) ==> Patched(st, was, from)
    ensures CameIn(net, requests + [r], from')
    ensures var (t, p) := AbsorbAll(st, r, net(|requests|, r));
            AllPlaced(net, requests + [r]) && !p.Ended? ==> Patched(t, was, from')
  {
    hide WellPlaced, Patched, AbsorbAll;
    var burst, all := net(|requests|, r), requests + [r];
    assert all[|requests|] == r && forall n | 0 <= n < |requests| :: all[n] == requests[n];
    from' := from;
    if AllPlaced(net, all) {
      assert AllPlaced(net, requests);
      from' := BurstPatches(st, r, burst, was, from);
    }
    forall i | i in from' ensures exists n: nat :: n < |all| && from'[i] in net(n, all[n]) {
      if i in from && from'[i] == from[i] {
        var n: nat :| n < |requests| && from[i] in net(n, requests[n]);
        assert from'[i] in net(n, all[n]);
      } else {
        assert from'[i] in net(|requests|, all[|requests|]);
      }
    }
  }

  /** One burst taken in, and what it means for the case at hand. */
  method Round(burst: seq<Incoming>, r: Request, size: nat, version: nat, outstanding: nat, bitmap: array<byte>,
               out: array<byte>, ghost x: Case, ghost sent: nat, ghost m: nat, ghost previous: nat, ghost stalled: nat)
    returns (size': nat, version': nat, outstanding': nat, p: Progress)
    requires bitmap != out && Roomy(Intake(size, version, bitmap[..], out[..], outstanding)) && x.window > 0
    requires burst == x.net(sent, r)
    requires x.Kept(Intake(size, version, bitmap[..], out[..], outstanding), r, sent, m, previous, stalled)
    modifies bitmap, out
    ensures size != 0 ==> size' == size && version' == version
    ensures p.Ended? ==> !p.rc.Ok? && !p.rc.ErrGaveUp?
    ensures (Intake(size', version', bitmap[..], out[..], outstanding'), p)
         == AbsorbAll(old(Intake(size, version, bitmap[..], out[..], outstanding)), r, burst)
    ensures var t := Intake(size', version', bitmap[..], out[..], outstanding');
            && (!p.Ended? ==> Roomy(t)) && x.Landed(t, p, r, sent, m)
            && (p.Ended? ==> !x.Smooth(t))
            && (size' == 0 ==> x.Kept(t, r, sent + 1, m, previous, stalled + 1))
            && (x.Smooth(t) && size' == 0 ==> sent < x.quiet && stalled == sent)
            && (x.Smooth(t) && size' != 0 ==>
                  && sent >= x.quiet && m == (sent - x.quiet) * x.window && (sent > x.quiet ==> stalled == 0)
                  && sent - x.quiet <= WireChunks(size') / x.window
                  && |Absent(bitmap[..], WireChunks(size'))| < previous)
  {
    hide AbsorbAll, WireChunks, Fits, Absent, Case.Kept, AllGenuine, Lossless, Got, Faithful;
    ghost var st := Intake(size, version, bitmap[..], out[..], outstanding);
    AbsorbAllIsRoomy(st, r, burst);
    KeptLands(x, st, r, sent, m, previous, stalled);
    size', version', outstanding', p := Receive(burst, r, size, version, outstanding, bitmap, out);
    ghost var t := Intake(size', version', bitmap[..], out[..], outstanding');
    if size' == 0 {
      LandedNothing(x, st, t, p, r, sent, m, previous, stalled);
    } else {
      LandedPays(x, st, t, p, r, sent, m, previous, stalled);
    }
  }

  lemma NothingPatched(net: Net, st: Intake)
    requires st.total == 0
    ensures CameIn(net, [], map[]) && Patched(st, st.data, map[])
  {
  }

  /** The counter plays no part. */
  lemma SamePatches(st: Intake, was: seq<byte>, from: map<nat, Incoming>)
    ensures forall outstanding: nat :: Patched(st, was, from) ==> Patched(st.(outstanding := outstanding), was, from)
  {
  }

  /**
   `ss_pull`. Bytes: if every datagram taken in is genuine, success means `out`
   holds the version byte for byte. Cost: the number of requests is bounded
   whatever the network does, and giving up takes at least `maxRounds` of them.
   Without loss, once the network speaks, it succeeds in exactly one request a window.
   */
  method Pull(net: Net, want: nat, out: array<byte>, bitmap: array<byte>, pullWindow: int, maxRounds: nat,
              ghost image: Image, ghost genuine: nat, ghost quiet: nat)
    returns (rc: Rc, size: nat, version: nat, ghost requests: seq<Request>, ghost from: map<nat, Incoming>)
    requires bitmap != out
    modifies bitmap, out
    ensures rc.Ok? ==> size <= out.Length
    ensures CameIn(net, requests, from)
    ensures rc.Ok? && AllPlaced(net, requests) && size + MAX_PAYLOAD <= WORD ==>
              Assembled(out[..size], old(out[..]), from)
    ensures rc.Ok? && AllGenuine(net, image, genuine, want) && |image| + MAX_PAYLOAD <= WORD ==>
              size == |image| && version == genuine && out[..size] == image
    ensures |requests| <= (if maxRounds > 0 then maxRounds - 1 else 0)
            + Budget(size, WindowSize(pullWindow), maxRounds) + 1
    ensures rc.ErrGaveUp? ==> |requests| >= maxRounds
    ensures Lossless(net, image, genuine, want, WindowSize(pullWindow), quiet) && (quiet == 0 || quiet < maxRounds)
            && Fits(image, out.Length, bitmap.Length) ==>
              && rc.Ok? && size == |image| && version == genuine && out[..size] == image
              && |requests| == quiet + (ChunkCount(|image|) + WindowSize(pullWindow) - 1) / WindowSize(pullWindow)
    ensures forall r | r in requests ::
              (IsFirst(r, want, WindowSize(pullWindow)) || r.want == version) && 0 < |r.bitmap| <= MAX_PAYLOAD
  {
    hide AbsorbAll, WireChunks, Fits, Absent, IsWindow, Marked, Case.Kept, Case.Landed, AllGenuine, Lossless, Budget,
         AllPlaced, CameIn, Patched, Assembled, IsFirst;
    var window := WindowSize(pullWindow);
    var r := FirstRequest(want, window);
    var outstanding: nat, previous: nat, budget: nat, rounds: nat, stalled: nat, sent: nat := 0, WORD - 1, 0, 0, 0, 0;
    ghost var unknown: nat, m: nat, x := 0, 0, Case(net, image, genuine, want, window, quiet);
    size, version, requests, from := 0, 0, [], map[];
    NothingPatched(net, Intake(size, version, bitmap[..], out[..], outstanding));
    KeptAtFirst(x, Intake(size, version, bitmap[..], out[..], outstanding), r, previous);
    while true
      invariant bitmap != out
      invariant Roomy(Intake(size, version, bitmap[..], out[..], outstanding))
      invariant sent == |requests| && Counted(sent, unknown, rounds, stalled, size, budget, window, maxRounds)
      invariant size == 0 ==> IsFirst(r, want, window)
      invariant size != 0 ==> r.want == version
      invariant x.Smooth(Intake(size, version, bitmap[..], out[..], outstanding)) ==> unknown == Least(sent, quiet)
      invariant 0 < |r.bitmap| <= MAX_PAYLOAD
      invariant forall q | q in requests ::
                  (IsFirst(q, want, window) || (size != 0 && q.want == version)) && 0 < |q.bitmap| <= MAX_PAYLOAD
      invariant x.Kept(Intake(size, version, bitmap[..], out[..], outstanding), r, sent, m, previous, stalled)
      invariant CameIn(net, requests, from)
      invariant AllPlaced(net, requests) ==>
                  Patched(Intake(size, version, bitmap[..], out[..], outstanding), old(out[..]), from)
      decreases if size == 0 then 1 else 0, if size == 0 then maxRounds - stalled else budget - rounds
    {
      var burst, p := net(sent, r), More;
      from := BurstComesIn(net, requests, r, Intake(size, version, bitmap[..], out[..], outstanding), old(out[..]),
        from);
      size, version, outstanding, p := Round(burst, r, size, version, outstanding, bitmap, out, x, sent, m, previous,
        stalled);
      requests := requests + [r];
      sent := sent + 1;
      ghost var t := Intake(size, version, bitmap[..], out[..], outstanding);
      if p.Ended? {
        return p.rc, size, version, requests, from;
      }
      if size == 0 {
        unknown := unknown + 1;
        stalled := stalled + 1;
        if stalled >= maxRounds {
          return ErrGaveUp, size, version, requests, from;
        }
        continue;
      }
      budget := Budget(size, window, maxRounds);
      rounds := rounds + 1;
      if rounds > budget {
        return ErrGaveUp, size, version, requests, from;
      }
      var chunks := WireChunks(size);
      var missing, first := CountMissing(bitmap, chunks);
      if missing == 0 {
        LandedDone(x, t, p, r, sent - 1, m);
        if AllPlaced(net, requests) && size + MAX_PAYLOAD <= WORD {
          NothingAbsentAssembles(t, old(out[..]), from);
        }
        return Ok, size, version, requests, from;
      }
      if missing < previous {
        stalled := 0;
      } else {
        stalled := stalled + 1;
        if stalled >= maxRounds {
          return ErrGaveUp, size, version, requests, from;
        }
      }
      previous := missing;
      ghost var asked := r;
      SamePatches(t, old(out[..]), from);
      r, outstanding := NextRequest(version, bitmap, chunks, first, window);
      LandedNext(x, t, p, asked, r, sent - 1, m, stalled);
      m := m + window;
    }
  }

  // ----- pulling from a store that keeps moving

  /** The store as it is when something is answered; history only grows. */
  ghost predicate Growing(s: nat -> State) {
    forall i, j | i <= j :: Extends(s(i), s(j))
  }

  /** The version a request is answered with. */
  function Chosen(s: State, card: Card, r: Request): nat {
    if r.want == 0 then s.Head(card) else r.want
  }

  /** A datagram the server once sent for this card, in answer to a request it took for version `v`. */
  ghost predicate Sent(s: nat -> State, gameId: string, slot: nat, v: nat, x: Incoming) {
    Normalise(gameId, slot).Some?
    && exists i, q :: Chosen(s(i), Normalise(gameId, slot).value, q) == v && x in Serve(s(i), gameId, slot, q)
  }

  /** A broken transport, or somebody else's datagram. */
  predicate Empty(x: Incoming) {
    x.Broken? || x.Other?
  }

  /** Whenever it was sent, an answer for version `v` is of version `v`. */
  lemma SentIsGenuine(s: nat -> State, gameId: string, slot: nat, v: nat, x: Incoming, m: nat, image: Image)
    requires Growing(s) && Sent(s, gameId, slot, v, x)
    requires s(m).Read(Normalise(gameId, slot).value, v) == Some(image)
    ensures Genuine(x, image, v)
  {
    hide Burst, Genuine;
    var card := Normalise(gameId, slot).value;
    var i, q :| Chosen(s(i), card, q) == v && x in Serve(s(i), gameId, slot, q);
    assert Extends(s(i), s(m)) || Extends(s(m), s(i));
    match s(i).Read(card, v)
    case None => RefusalIsGenuine(x, image, v);
    case Some(there) => BurstIs(there, v, q);
  }

  lemma RefusalIsGenuine(x: Incoming, image: Image, v: nat)
    ensures x.Refusal? ==> Genuine(x, image, v)
  {
  }

  /**
   When a pull cannot be given anything but version `v`: its datagrams are the server's, lost,
   delayed or repeated as they may be, each sent at any time for a request taken for `v`. For a
   pull that names its version that is every request; for a pull of head it is so exactly while
   the head stays `v` whenever a request that names none is answered.
   */
  lemma StoreAnswersAreGenuine(s: nat -> State, net: Net, gameId: string, slot: nat, want: nat, v: nat, m: nat,
                               image: Image)
    requires Growing(s) && Normalise(gameId, slot).Some? && (want == v || want == 0)
    requires s(m).Read(Normalise(gameId, slot).value, v) == Some(image)
    requires forall n, r: Request, x | (r.want == want || r.want == v) && x in net(n, r) ::
               Empty(x) || Sent(s, gameId, slot, v, x)
    ensures AllGenuine(net, image, v, want)
  {
    hide Genuine, Sent;
    forall n, r: Request, x | (r.want == want || r.want == v) && x in net(n, r) ensures Genuine(x, image, v) {
      if Empty(x) {
        EmptyIsGenuine(x, image, v);
      } else {
        SentIsGenuine(s, gameId, slot, v, x, m, image);
      }
    }
  }

  lemma EmptyIsGenuine(x: Incoming, image: Image, v: nat)
    requires Empty(x)
    ensures Genuine(x, image, v)
  {
  }

  /**
   Naming its version, a pull draws nothing but that version, whatever is asked for by whoever and
   whenever it is answered.
   */
  lemma NamedPullIsGenuine(s: nat -> State, net: Net, gameId: string, slot: nat, want: nat, m: nat, image: Image)
    requires Growing(s) && Normalise(gameId, slot).Some? && want != 0
    requires s(m).Read(Normalise(gameId, slot).value, want) == Some(image)
    requires forall n, r: Request, x | r.want == want && x in net(n, r) ::
               Empty(x) || exists i, q: Request :: q.want == want && x in Serve(s(i), gameId, slot, q)
    ensures AllGenuine(net, image, want, want)
  {
    hide Serve, Genuine;
    forall n, r: Request, x | (r.want == want || r.want == want) && x in net(n, r)
      ensures Empty(x) || Sent(s, gameId, slot, want, x)
    {
      if !Empty(x) {
        var i, q: Request :| q.want == want && x in Serve(s(i), gameId, slot, q);
        assert Chosen(s(i), Normalise(gameId, slot).value, q) == want;
      }
    }
    StoreAnswersAreGenuine(s, net, gameId, slot, want, want, m, image);
  }

  /** Whatever was asked for, a piece the server sends is a chunk of the version it names. */
  lemma ServedIsAChunk(s: nat -> State, gameId: string, slot: nat, v: nat, x: Incoming)
    requires Sent(s, gameId, slot, v, x) && x.Piece?
    ensures WellPlaced(x) && x.version == v
    ensures exists i, image :: s(i).Read(Normalise(gameId, slot).value, v) == Some(image)
                            && x.sequence < ChunkCount(|image|) && x.payload == ChunkOf(image, x.sequence)
  {
    hide Burst;
    var card := Normalise(gameId, slot).value;
    var i, q :| Chosen(s(i), card, q) == v && x in Serve(s(i), gameId, slot, q);
    match s(i).Read(card, v)
    case None =>
    case Some(image) =>
      BurstIs(image, v, q);
      assert Genuine(x, image, v);
  }

  /**
   A finished pull of head against such a store: each chunk is that of the version named by the
   piece stored for it, so pieces of one version alone make that version.
   */
  lemma OneVersionIsWhole(s: nat -> State, gameId: string, slot: nat, data: seq<byte>, was: seq<byte>,
                          from: map<nat, Incoming>, m: nat, v: nat, image: Image)
    requires Growing(s) && Assembled(data, was, from) &&
             forall i | i in from :: Sent(s, gameId, slot, from[i].version, from[i])
    requires Normalise(gameId, slot).Some? && s(m).Read(Normalise(gameId, slot).value, v) == Some(image) &&
             |image| == |data|
    requires forall i: nat | i < ChunkCount(|data|) :: from[i].version == v
    ensures data == image
  {
    hide Sent, Genuine;
    forall i: nat | i < ChunkCount(|data|) ensures StoredChunk(|data|, was, from, i) == ChunkOf(image, i) {
      SentIsGenuine(s, gameId, slot, v, from[i], m, image);
      GenuinePayload(from[i], image, v);
    }
    AssembledIsImage(data, was, from, image);
  }

  lemma GenuinePayload(x: Incoming, image: Image, v: nat)
    requires Genuine(x, image, v) && x.Piece?
    ensures x.sequence < ChunkCount(|image|) && x.payload == ChunkOf(image, x.sequence)
  {
  }

  /** Asking by number: every reply the server can give, now or later, is of that one version. */
  lemma NamedVersionIsGenuine(c: Config, s: State, t: State, gameId: string, slot: nat, r: Request)
    requires Lineage(c, s) && Extends(s, t) && r.want != 0
    requires Normalise(gameId, slot).Some? && s.Read(Normalise(gameId, slot).value, r.want).Some?
    ensures var image := s.Read(Normalise(gameId, slot).value, r.want).value;
            && Serve(t, gameId, slot, r) == Burst(image, r.want, r)
            && forall x | x in Serve(t, gameId, slot, r) :: Genuine(x, image, r.want)
  {
    var card := Normalise(gameId, slot).value;
    assert Row(card, r.want) in s.versions;
    assert t.Read(card, r.want) == s.Read(card, r.want);
    BurstIs(s.Read(card, r.want).value, r.want, r);
  }

  /**
   A pull of head against a store other clients keep pushing to: the first answer
   fixes the version, and every later request is answered from that same version.
   */
  lemma PushesDoNotSwitchThePull(c: Config, s: nat -> State, net: Net, gameId: string, slot: nat)
    requires Lineage(c, s(0)) && Growing(s)
    requires Normalise(gameId, slot).Some? && s(0).Head(Normalise(gameId, slot).value) != 0
    requires forall n, r :: net(n, r) == Serve(s(n), gameId, slot, r)
    ensures var (card, head) := (Normalise(gameId, slot).value, s(0).Head(Normalise(gameId, slot).value));
            && s(0).Read(card, head).Some? && s(0).Read(card, head).value != []
            && forall window: nat :: Lossless(net, s(0).Read(card, head).value, head, 0, window, 0)
  {
    hide Serve, Burst;
    var card := Normalise(gameId, slot).value;
    var head := s(0).Head(card);
    HeadIsNewest(c, s(0), card);
    assert Row(card, head) in s(0).versions;
    var image := s(0).Read(card, head).value;
    forall r: Request | r.want == 0 ensures net(0, r) == Burst(image, head, r) {
      ServeHead(s(0), gameId, slot, r);
    }
    forall n, r: Request | n > 0 && r.want == head ensures net(n, r) == Burst(image, head, r) {
      NamedVersionIsGenuine(c, s(0), s(n), gameId, slot, r);
    }
  }

  lemma ServeHead(s: State, gameId: string, slot: nat, r: Request)
    requires r.want == 0 && Normalise(gameId, slot).Some?
    requires var card := Normalise(gameId, slot).value; s.Read(card, s.Head(card)).Some?
    ensures var card := Normalise(gameId, slot).value;
            Serve(s, gameId, slot, r) == Burst(s.Read(card, s.Head(card)).value, s.Head(card), r)
  {
  }

  // ----- head moving under a pull

  /** One image, with another's chunks from `from` up to `to`. */
  function Mix(a: Image, b: Image, from: nat, to: nat): Image
    requires |a| == |b| && MAX_PAYLOAD * from <= Cut(a, to)
  {
    a[..MAX_PAYLOAD * from] + b[MAX_PAYLOAD * from..Cut(a, to)] + a[Cut(a, to)..]
  }

  /** Where chunk `to` begins, or the card's end. */
  function Cut(a: Image, to: nat): nat {
    Least(MAX_PAYLOAD * to, |a|)
  }

  lemma MixChunks(a: Image, b: Image, from: nat, to: nat, i: nat)
    requires |a| == |b| && MAX_PAYLOAD * from <= Cut(a, to) && i < ChunkCount(|a|)
    ensures |Mix(a, b, from, to)| == |a|
    ensures ChunkOf(Mix(a, b, from, to), i) == if from <= i < to then ChunkOf(b, i) else ChunkOf(a, i)
  {
    var m, x := Mix(a, b, from, to), if from <= i < to then b else a;
    forall k | MAX_PAYLOAD * i <= k < MAX_PAYLOAD * i + ChunkLen(|a|, i) ensures m[k] == x[k] {
      assert k / MAX_PAYLOAD == i;
    }
    assert ChunkOf(m, i) == ChunkOf(x, i);
  }

  /** When a mixture is one of the two after all. */
  lemma MixIsOne(a: Image, b: Image, from: nat, to: nat)
    requires |a| == |b| && MAX_PAYLOAD * from <= Cut(a, to)
    ensures var (m, lo, hi) := (Mix(a, b, from, to), MAX_PAYLOAD * from, Cut(a, to));
            && (m == a <==> a[lo..hi] == b[lo..hi])
            && (m == b <==> a[..lo] == b[..lo] && a[hi..] == b[hi..])
  {
    var m, lo, hi := Mix(a, b, from, to), MAX_PAYLOAD * from, Cut(a, to);
    assert a == a[..lo] + a[lo..hi] + a[hi..] && b == b[..lo] + b[lo..hi] + b[hi..];
    assert m[..lo] == a[..lo] && m[lo..hi] == b[lo..hi] && m[hi..] == a[hi..];
  }

  /** The same datagram but for the version a piece names. */
  predicate Alike(x: Incoming, y: Incoming) {
    x == y || (x.Piece? && y.Piece? && x == y.(version := x.version))
  }

  /** Once the size is known the client does not look at a piece's version. */
  lemma {:induction false} VersionsAreNotRead(st: Intake, r: Request, a: seq<Incoming>, b: seq<Incoming>)
    requires st.total != 0 && st.total <= |st.data| && |a| == |b| && forall i | 0 <= i < |a| :: Alike(a[i], b[i])
    ensures AbsorbAll(st, r, a) == AbsorbAll(st, r, b)
    decreases |a|
  {
    hide Place;
    if a != [] {
      var next := Absorb(st, r, a[0]).0;
      assert Alike(a[0], b[0]) && Absorb(st, r, a[0]) == Absorb(st, r, b[0]);
      if Absorb(st, r, a[0]).1.More? {
        PlaceStays(st, r, a[0]);
        forall i | 0 <= i < |a[1..]| ensures Alike(a[1..][i], b[1..][i]) {
          assert Alike(a[i + 1], b[i + 1]);
        }
        VersionsAreNotRead(next, r, a[1..], b[1..]);
      }
    }
  }

  lemma PlaceStays(st: Intake, r: Request, x: Incoming)
    requires st.total != 0 && st.total <= |st.data|
    ensures var t := Absorb(st, r, x).0; t.total == st.total && |t.data| == |st.data|
  {
  }

  /** So bursts alike after the same first ACK are taken in alike. */
  lemma AlikeIsTaken(a: seq<Incoming>, b: seq<Incoming>, r: Request)
    requires |a| == |b| > 0 && a[0] == b[0] && a[0].Accept? && forall i | 0 <= i < |a| :: Alike(a[i], b[i])
    ensures TakenAs(a, r, b, true)
  {
    hide Initialise;
    forall i | 0 <= i < |a[1..]| ensures Alike(a[1..][i], b[1..][i]) {
      assert Alike(a[i + 1], b[i + 1]);
    }
    forall st: Intake | st.total == 0 && st.total <= |st.data| ensures AbsorbAll(st, r, a) == AbsorbAll(st, r, b) {
      var (next, p) := Absorb(st, r, a[0]);
      InitialiseFits(st, r, a[0].total, a[0].version);
      if p.More? {
        VersionsAreNotRead(next, r, a[1..], b[1..]);
      }
    }
  }

  lemma InitialiseFits(st: Intake, r: Request, total: nat, version: nat)
    ensures var (t, p) := Initialise(st, r, total, version); p.More? ==> t.total == total != 0 && t.total <= |t.data|
    ensures !Initialise(st, r, total, version).1.Full?
  {
  }

  function PieceAt(image: Image, version: nat, i: nat): Incoming
    requires i < ChunkCount(|image|)
  {
    Piece(version, |image|, i, MAX_PAYLOAD * i, ChunkOf(image, i))
  }

  /** A request for the first `n` chunks of a card is answered with them, in order. */
  lemma {:induction false} FirstPieces(image: Image, version: nat, r: Request, n: nat, from: nat)
    requires n <= ChunkCount(|image|)
    requires forall i: nat | i < ChunkCount(|image|) :: i in Marked(r.bitmap, r.base) <==> i < n
    ensures |Pieces(image, version, r, from)| == if from <= n then n - from else 0
    ensures forall i: nat | from <= i < n :: Pieces(image, version, r, from)[i - from] == PieceAt(image, version, i)
    decreases ChunkCount(|image|) - from
  {
    hide Marked;
    if from < ChunkCount(|image|) {
      FirstPieces(image, version, r, n, from + 1);
      var all, later := Pieces(image, version, r, from), Pieces(image, version, r, from + 1);
      if from < n {
        assert all == [PieceAt(image, version, from)] + later;
        forall i: nat | from <= i < n ensures all[i - from] == PieceAt(image, version, i) {
          if i > from {
            assert all[i - from] == later[i - (from + 1)];
          }
        }
      } else {
        assert all == [] + later;
      }
    }
  }

  /** The opening request is answered with the first window of the card, or all of a smaller one. */
  lemma FirstBurst(image: Image, version: nat, r: Request, want: nat, window: nat)
    requires IsFirst(r, want, window)
    ensures var (burst, n) := (Burst(image, version, r), Least(window, ChunkCount(|image|)));
            && |burst| == 1 + n && burst[0] == Accept(version, |image|)
            && forall i: nat | i < n :: burst[1 + i] == PieceAt(image, version, i)
  {
    hide Marked, Pieces;
    var n := Least(window, ChunkCount(|image|));
    FirstPieces(image, version, r, n, 0);
    forall i: nat | i < n ensures Burst(image, version, r)[1 + i] == PieceAt(image, version, i) {
      assert Pieces(image, version, r, 0)[i - 0] == PieceAt(image, version, i);
    }
  }

  /** The front of one opening answer and the rest of another look like the mixture's, under the first one's version. */
  lemma MixedBurst(a: Image, b: Image, v: nat, w: nat, r: Request, want: nat, window: nat, cut: nat)
    requires |a| == |b| && MAX_PAYLOAD * cut <= Cut(a, window) && IsFirst(r, want, window)
    ensures |Burst(a, v, r)| == |Burst(b, w, r)| > cut
    ensures TakenAs(Burst(a, v, r)[..1 + cut] + Burst(b, w, r)[1 + cut..], r, Burst(Mix(a, b, cut, window), v, r), true)
  {
    hide Marked, Burst, TakenAs, IsFirst, Mix;
    var m, n := Mix(a, b, cut, window), Least(window, ChunkCount(|a|));
    MixSize(a, b, cut, window);
    FirstBurst(a, v, r, want, window);
    FirstBurst(b, w, r, want, window);
    FirstBurst(m, v, r, want, window);
    var burst, whole := Burst(a, v, r)[..1 + cut] + Burst(b, w, r)[1 + cut..], Burst(m, v, r);
    forall i | 0 <= i < |burst| ensures Alike(burst[i], whole[i]) {
      if i > 0 {
        MixChunks(a, b, cut, window, i - 1);
        assert whole[1 + (i - 1)] == PieceAt(m, v, i - 1);
        assert burst[i] == if i - 1 < cut then PieceAt(a, v, i - 1) else PieceAt(b, w, i - 1);
      }
    }
    AlikeIsTaken(burst, whole, r);
  }

  lemma MixSize(a: Image, b: Image, from: nat, to: nat)
    requires |a| == |b| && MAX_PAYLOAD * from <= Cut(a, to)
    ensures |Mix(a, b, from, to)| == |a| && from <= Least(to, ChunkCount(|a|))
  {
  }

  /** Past the mixed window a request of the one version is answered as the mixture's would be. */
  lemma {:induction false} LaterPieces(a: Image, m: Image, v: nat, r: Request, from: nat)
    requires |a| == |m| && forall i: nat | r.base <= i < ChunkCount(|a|) :: ChunkOf(m, i) == ChunkOf(a, i)
    ensures Pieces(a, v, r, from) == Pieces(m, v, r, from)
    decreases ChunkCount(|a|) - from
  {
    hide Marked;
    MarkedReach(r.bitmap, r.base);
    if from < ChunkCount(|a|) {
      LaterPieces(a, m, v, r, from + 1);
    }
  }

  /** From then on such a pull is loss-free for the mixture, as long as the version keeps being answered. */
  lemma MixtureIsLossless(net: Net, a: Image, b: Image, v: nat, want: nat, window: nat, from: nat, quiet: nat)
    requires |a| == |b| && MAX_PAYLOAD * from <= Cut(a, window)
    requires forall n: nat, r: Request | n < quiet && IsFirst(r, want, window) :: net(n, r) == []
    requires forall r: Request | IsFirst(r, want, window) ::
               TakenAs(net(quiet, r), r, Burst(Mix(a, b, from, window), v, r), true)
    requires forall n: nat, r: Request | n > quiet && r.want == v && window <= r.base < ChunkCount(|a|) ::
               net(n, r) == Burst(a, v, r)
    ensures Lossless(net, Mix(a, b, from, window), v, want, window, quiet)
  {
    hide TakenAs, IsFirst, Mix;
    var m := Mix(a, b, from, window);
    MixSize(a, b, from, window);
    forall n: nat, r: Request | n > quiet && r.want == v && window <= r.base < ChunkCount(|m|)
      ensures TakenAs(net(n, r), r, Burst(m, v, r), false)
    {
      forall i: nat | r.base <= i < ChunkCount(|a|) ensures ChunkOf(m, i) == ChunkOf(a, i) {
        MixChunks(a, b, from, window, i);
      }
      LaterPieces(a, m, v, r, 0);
      SameIsTaken(Burst(m, v, r), r);
    }
  }

  lemma SameIsTaken(burst: seq<Incoming>, r: Request)
    ensures TakenAs(burst, r, burst, true) && TakenAs(burst, r, burst, false)
  {
  }

  /**
   A network on which head moves under a pull. Nothing comes in time for the first request, so the
   same one goes out again. By then head has moved: the front of the late first answer comes, then
   the rest of the second. All that follows is answered in full.
   */
  ghost function HeadMoves(s: nat -> State, gameId: string, slot: nat, cut: nat, n: nat, r: Request): seq<Incoming>
  {
    if n == 0 then []
    else if n == 1 then
      var (late, second) := (Serve(s(0), gameId, slot, r), Serve(s(1), gameId, slot, r));
      if |late| > cut && |second| > cut then late[..1 + cut] + second[1 + cut..] else []
    else Serve(s(n), gameId, slot, r)
  }

  /**
   Asking for head while it moves is another matter than naming a version: a piece's version is
   never compared with the one the pull settled on. For any window, any card and any cut inside
   the window, a pull on such a network is loss-free, for the mixture, under the older version.
   */
  lemma VersionsCanMix(c: Config, s: nat -> State, net: Net, gameId: string, slot: nat, a: Image, b: Image, window: nat,
                       cut: nat)
    requires Lineage(c, s(0)) && Growing(s) && Normalise(gameId, slot).Some?
    requires var card := Normalise(gameId, slot).value;
             s(0).Read(card, s(0).Head(card)) == Some(a) && s(1).Read(card, s(1).Head(card)) == Some(b)
    requires |a| == |b| && MAX_PAYLOAD * cut <= Cut(a, window)
    requires forall n: nat, r :: net(n, r) == HeadMoves(s, gameId, slot, cut, n, r)
    ensures Lossless(net, Mix(a, b, cut, window), s(0).Head(Normalise(gameId, slot).value), 0, window, 1)
  {
    hide Serve, Burst, Mix, TakenAs;
    var card := Normalise(gameId, slot).value;
    var v, w := s(0).Head(card), s(1).Head(card);
    HeadIsNewest(c, s(0), card);
    forall r: Request | IsFirst(r, 0, window) ensures TakenAs(net(1, r), r, Burst(Mix(a, b, cut, window), v, r), true) {
      ServeHead(s(0), gameId, slot, r);
      ServeHead(s(1), gameId, slot, r);
      MixedBurst(a, b, v, w, r, 0, window, cut);
    }
    forall n: nat, r: Request | n > 1 && r.want == v && window <= r.base < ChunkCount(|a|)
      ensures net(n, r) == Burst(a, v, r)
    {
      NamedVersionIsGenuine(c, s(0), s(n), gameId, slot, r);
    }
    MixtureIsLossless(net, a, b, v, 0, window, cut, 1);
  }

  /**
   So the console's own pull ends well, with a card that never was: the mixture, whatever the
   window, reported as the older version. It is neither image whenever the two differ both inside
   and outside what was taken from the newer.
   */
  method PullWhileHeadMoves(net: Net, out: array<byte>, bitmap: array<byte>, pullWindow: int, maxRounds: nat,
                            ghost c: Config, ghost s: nat -> State, ghost gameId: string, ghost slot: nat,
                            ghost a: Image, ghost b: Image, ghost cut: nat)
    returns (rc: Rc, size: nat, version: nat)
    requires bitmap != out && maxRounds > 1 && Fits(a, out.Length, bitmap.Length)
    requires Lineage(c, s(0)) && Growing(s) && Normalise(gameId, slot).Some?
    requires var card := Normalise(gameId, slot).value;
             s(0).Read(card, s(0).Head(card)) == Some(a) && s(1).Read(card, s(1).Head(card)) == Some(b)
    requires |a| == |b| && MAX_PAYLOAD * cut <= Cut(a, WindowSize(pullWindow))
    requires forall n: nat, r :: net(n, r) == HeadMoves(s, gameId, slot, cut, n, r)
    modifies bitmap, out
    ensures rc.Ok? && size == |a| <= out.Length && version == s(0).Head(Normalise(gameId, slot).value)
    ensures out[..size] == Mix(a, b, cut, WindowSize(pullWindow))
    ensures var (lo, hi) := (MAX_PAYLOAD * cut, Cut(a, WindowSize(pullWindow)));
            && (out[..size] == a <==> a[lo..hi] == b[lo..hi])
            && (out[..size] == b <==> a[..lo] == b[..lo] && a[hi..] == b[hi..])
  {
    hide Lossless, Mix, HeadMoves;
    ghost var window := WindowSize(pullWindow);
    VersionsCanMix(c, s, net, gameId, slot, a, b, window, cut);
    MixSize(a, b, cut, window);
    MixIsOne(a, b, cut, window);
    ghost var requests, from;
    rc, size, version, requests, from :=
      Pull(net, 0, out, bitmap, pullWindow, maxRounds, Mix(a, b, cut, window),
        s(0).Head(Normalise(gameId, slot).value), 1);
  }

  // ----- ACKs to something else

  /** Once the size is known an ACK changes nothing, whatever it answers. */
  lemma {:induction false} StrayAckIsIgnored(st: Intake, r: Request, a: seq<Incoming>, b: seq<Incoming>, w: nat,
                                             total: nat)
    requires st.total != 0 && st.total <= |st.data|
    ensures AbsorbAll(st, r, a + [Accept(w, total)] + b) == AbsorbAll(st, r, a + b)
    decreases |a|
  {
    hide Place;
    var stray := Accept(w, total);
    if a == [] {
      assert a + [stray] + b == [stray] + b && ([stray] + b)[1..] == b && a + b == b;
    } else {
      assert (a + [stray] + b)[1..] == a[1..] + [stray] + b && (a + b)[1..] == a[1..] + b;
      PlaceStays(st, r, a[0]);
      if Absorb(st, r, a[0]).1.More? {
        StrayAckIsIgnored(Absorb(st, r, a[0]).0, r, a[1..], b, w, total);
      }
    }
  }

  /** Before that it names the pull: the answer that follows is taken in under its version. */
  lemma StrayAckNames(image: Image, v: nat, w: nat, r: Request)
    ensures TakenAs([Accept(w, |image|)] + Burst(image, v, r), r, Burst(image, w, r), true)
  {
    hide Initialise, Pieces;
    var stray, pieces, named := Accept(w, |image|), Pieces(image, v, r, 0), Pieces(image, w, r, 0);
    var burst := [stray] + Burst(image, v, r);
    assert burst[1..] == [Accept(v, |image|)] + pieces && Burst(image, w, r)[1..] == named;
    AlikePieces(image, v, w, r, 0);
    forall st: Intake | st.total == 0 && st.total <= |st.data|
      ensures AbsorbAll(st, r, burst) == AbsorbAll(st, r, Burst(image, w, r))
    {
      var (next, p) := Absorb(st, r, stray);
      InitialiseFits(st, r, |image|, w);
      if p.More? {
        StrayAckIsIgnored(next, r, [], pieces, v, |image|);
        assert [] + [Accept(v, |image|)] + pieces == burst[1..] && [] + pieces == pieces;
        VersionsAreNotRead(next, r, pieces, named);
      }
    }
  }

  lemma {:induction false} AlikePieces(image: Image, v: nat, w: nat, r: Request, from: nat)
    ensures |Pieces(image, v, r, from)| == |Pieces(image, w, r, from)|
    ensures forall i | 0 <= i < |Pieces(image, v, r, from)| ::
              Alike(Pieces(image, v, r, from)[i], Pieces(image, w, r, from)[i])
    decreases ChunkCount(|image|) - from
  {
    hide Marked;
    if from < ChunkCount(|image|) {
      AlikePieces(image, v, w, r, from + 1);
    }
  }

  /**
   What such a pull comes to when the stray ACK names the card's own size, as a late PUSH_BEGIN's
   does, and then nothing is lost: success under the stray version. The first window is the card's;
   the rest is that version's, so the whole is the card exactly when it fits in one window or the
   stray version agrees past it.
   */
  lemma StrayAckMixes(net: Net, image: Image, v: nat, other: Image, w: nat, want: nat, window: nat)
    requires |other| == |image|
    requires forall r: Request | IsFirst(r, want, window) :: net(0, r) == [Accept(w, |image|)] + Burst(image, v, r)
    requires forall n: nat, r: Request | n > 0 && r.want == w && window <= r.base < ChunkCount(|image|) ::
               net(n, r) == Burst(other, w, r)
    ensures Lossless(net, Mix(other, image, 0, window), w, want, window, 0)
    ensures Mix(other, image, 0, window) == image <==> other[Cut(image, window)..] == image[Cut(image, window)..]
  {
    hide Burst, TakenAs, Mix;
    MixSize(other, image, 0, window);
    MixIsOne(other, image, 0, window);
    assert other[..0] == image[..0];
    var m := Mix(other, image, 0, window);
    forall r: Request | IsFirst(r, want, window) ensures TakenAs(net(0, r), r, Burst(m, w, r), true) {
      FirstBurst(image, w, r, want, window);
      FirstBurst(m, w, r, want, window);
      forall i: nat | i < Least(window, ChunkCount(|image|)) ensures ChunkOf(m, i) == ChunkOf(image, i) {
        MixChunks(other, image, 0, window, i);
      }
      SameFirstBurst(m, image, w, r, want, window);
      StrayAckNames(image, v, w, r);
    }
    MixtureIsLossless(net, other, image, w, want, window, 0, 0);
  }

  lemma SameFirstBurst(a: Image, b: Image, w: nat, r: Request, want: nat, window: nat)
    requires IsFirst(r, want, window) && |a| == |b|
    requires forall i: nat | i < Least(window, ChunkCount(|b|)) :: ChunkOf(a, i) == ChunkOf(b, i)
    ensures Burst(a, w, r) == Burst(b, w, r)
  {
    hide Burst;
    FirstBurst(a, w, r, want, window);
    FirstBurst(b, w, r, want, window);
    var x, y := Burst(a, w, r), Burst(b, w, r);
    forall i | 0 <= i < |x| ensures x[i] == y[i] {
      if i > 0 {
        assert x[1 + (i - 1)] == PieceAt(a, w, i - 1) && y[1 + (i - 1)] == PieceAt(b, w, i - 1);
      }
    }
  }

  /**
   And when the stray version is not on record: everything that names it is refused, so a pull that
   took it only ever finishes a card of one window.
   */
  lemma StrayNameFitsAWindow(s: nat -> State, net: Net, requests: seq<Request>, from: map<nat, Incoming>,
                             data: seq<byte>,
                             was: seq<byte>, gameId: string, slot: nat, want: nat, window: nat, w: nat)
    requires Normalise(gameId, slot).Some? && w != 0 && forall i :: s(i).Read(Normalise(gameId, slot).value, w).None?
    requires CameIn(net, requests, from) && Assembled(data, was, from)
    requires forall n: nat, x | n < |requests| && x in net(n, requests[n]) && x.Piece? ::
               exists i, q: Request :: (IsFirst(q, want, window) || q.want == w) && x in Serve(s(i), gameId, slot, q)
    ensures ChunkCount(|data|) <= window
  {
    hide Serve, IsFirst, Assembled, Pieces;
    if ChunkCount(|data|) > window {
      AssembledHas(data, was, from, window);
      var n: nat :| n < |requests| && from[window] in net(n, requests[n]);
      var i, q: Request :| (IsFirst(q, want, window) || q.want == w) && from[window] in Serve(s(i), gameId, slot, q);
      ServedIsAsked(s(i), gameId, slot, q, from[window]);
      FirstAsks(q, want, window);
      assert false;
    }
  }

  lemma AssembledHas(data: seq<byte>, was: seq<byte>, from: map<nat, Incoming>, i: nat)
    requires Assembled(data, was, from) && i < ChunkCount(|data|)
    ensures i in from && from[i].Piece? && from[i].sequence == i
  {
  }

  /** A piece the server sends was asked for, of a version it has. */
  lemma ServedIsAsked(s: State, gameId: string, slot: nat, q: Request, x: Incoming)
    requires Normalise(gameId, slot).Some? && x in Serve(s, gameId, slot, q) && x.Piece?
    ensures x.sequence in Marked(q.bitmap, q.base)
    ensures s.Read(Normalise(gameId, slot).value, Chosen(s, Normalise(gameId, slot).value, q)).Some?
  {
    hide Marked, Burst;
    var card := Normalise(gameId, slot).value;
    match s.Read(card, Chosen(s, card, q))
    case None =>
    case Some(image) =>
      BurstIs(image, Chosen(s, card, q), q);
      InBurstIsCarried(Burst(image, Chosen(s, card, q), q), x);
  }

  lemma InBurstIsCarried(burst: seq<Incoming>, x: Incoming)
    requires x in burst && x.Piece?
    ensures x.sequence in Carried(burst)
  {
  }

  lemma FirstAsks(q: Request, want: nat, window: nat)
    ensures IsFirst(q, want, window) ==> forall i | i in Marked(q.bitmap, q.base) :: i < window
  {
    hide Marked;
  }
}
