/**
 The same listener with its handlers split where they await: seeding a delta and
 putting a card to the store each take a thread, and anything may happen meanwhile.
 */
module ServerAsync {
  import opened Bytes
  import opened Bitmaps
  import opened Staging
  import opened Store
  import opened Server
  import opened Attempts
  import Delta
  import Push

  /** A handler waiting for its thread, or with the thread's answer in hand. */
  datatype Task =
    | Seeding(key: Key, totalSize: nat, parent: nat)
    | Seeded(key: Key, parent: nat, seed: Option<Image>)
    | Pushing(key: Key, image: Image, parent: nat, digest: Digest)
    | Pushed(key: Key, reply: Reply)

  datatype Loop = Loop(server: ServerState, tasks: map<nat, Task>)

  datatype Happening =
    | Atomic(e: Event)           // a datagram handled without waiting, a timer, the web side
    | Start(id: nat, e: Event)   // a handler runs up to its await
    | Act(id: nat)               // its thread does the work
    | Finish(id: nat, now: real) // the handler runs on

  /** Whether the handler gets as far as its await. */
  ghost predicate Awaits(c: ServerConfig, s: ServerState, e: Event) {
    match e
    case Begin(key, totalSize, _, isDelta, _) =>
      && isDelta && 0 < totalSize <= c.store.maxCardBytes && (key in s.staging || |s.staging| < c.maxStaging)
    case End(key, digest, _) =>
      key in s.staging && s.staging[key].Complete() && c.store.hash(s.staging[key].data) == digest
    case _ => false
  }

  ghost function TaskOf(s: ServerState, e: Event): Task
    requires e.Begin? || (e.End? && e.key in s.staging)
  {
    if e.Begin? then Seeding(e.key, e.totalSize, e.parent)
    else Pushing(e.key, s.staging[e.key].data, s.staging[e.key].parent, e.digest)
  }

  /** The thread's work: a read, or one store transaction. */
  ghost function Work(c: ServerConfig, s: State, t: Task): (Task, State)
  {
    match t
    case Seeding(key, totalSize, parent) => (Seeded(key, parent, SeedFromParent(s, key, totalSize, parent)), s)
    case Pushing(key, image, parent, _) =>
      var (u, outcome) := PushNamed(c.store, s, key.gameId, key.slot, image, parent);
      (Pushed(key, VerdictOf(outcome)), u)
    case _ => (t, s)
  }

  /** The rest of the handler; a seeded buffer is stamped when it is built, which is now. */
  function Resume(s: ServerState, t: Task, now: real): (ServerState, seq<Reply>)
  {
    match t
    case Seeded(key, parent, seed) =>
      if seed.None? then (s, [Nack(DeltaUnavailable, key.transferId)])
      else
        (s.(settled := s.settled - {key},
            staging := s.staging[key := Transfer(key, parent, true, seed.value, {}, {}, now)]),
         [Ack(key.transferId)])
    case Pushed(key, reply) => Settle(s, key, reply, now)
    case _ => (s, [])
  }

  ghost function Turn(c: ServerConfig, l: Loop, h: Happening): (Loop, seq<Reply>)
  {
    match h
    case Atomic(e) =>
      if Awaits(c, l.server, e) then (l, [])
      else var (s, replies) := Step(c, l.server, e); (l.(server := s), replies)
    case Start(id, e) =>
      if id in l.tasks || !Awaits(c, l.server, e) then (l, [])
      else (l.(tasks := l.tasks[id := TaskOf(l.server, e)]), [])
    case Act(id) =>
      if id !in l.tasks then (l, [])
      else
        var (t, store) := Work(c, l.server.store, l.tasks[id]);
        (Loop(l.server.(store := store), l.tasks[id := t]), [])
    case Finish(id, now) =>
      if id !in l.tasks || l.tasks[id].Seeding? || l.tasks[id].Pushing? then (l, [])
      else
        var (s, replies) := Resume(l.server, l.tasks[id], now);
        (Loop(s, l.tasks - {id}), replies)
  }

  ghost function Turns(c: ServerConfig, l: Loop, hs: seq<Happening>): Loop
  {
    if hs == [] then l else Turn(c, Turns(c, l, hs[..|hs| - 1]), hs[|hs| - 1]).0
  }

  // ----- what survives the awaits

  /** Each key's PUSH_ENDs carry one digest. */
  type Asks = Key -> Digest

  ghost predicate Consistent(h: Happening, asks: Asks) {
    && (h.Atomic? && h.e.End? ==> h.e.digest == asks(h.e.key))
    && (h.Start? && h.e.End? ==> h.e.digest == asks(h.e.key))
  }

  /** A reply to a PUSH_END of `key` tells the truth. */
  ghost predicate Honoured(c: ServerConfig, s: State, key: Key, reply: Reply, asks: Asks) {
    reply.Ack? ==> Recorded(s, key, reply.version, asks(key))
  }

  ghost predicate TaskOk(c: ServerConfig, s: State, t: Task, asks: Asks) {
    match t
    case Seeding(_, _, _) => true
    case Seeded(_, _, _) => true
    case Pushing(key, image, _, digest) => c.store.hash(image) == digest == asks(key)
    case Pushed(key, reply) => Honoured(c, s, key, reply, asks)
  }

  /** The invariant of the split handlers: no cap on staging, but everything said is true. */
  ghost predicate LoopInv(c: ServerConfig, l: Loop, asks: Asks) {
    && Lineage(c.store, l.server.store)
    && l.server.staging.Keys !! l.server.settled.Keys
    && (forall k | k in l.server.staging :: l.server.staging[k].key == k && l.server.staging[k].Valid())
    && (forall k | k in l.server.settled :: Honoured(c, l.server.store, k, l.server.settled[k].reply, asks))
    && (forall id | id in l.tasks :: TaskOk(c, l.server.store, l.tasks[id], asks))
  }

  /** Every ACK to a PUSH_END, fresh or repeated, that a happening sends. */
  ghost predicate Answers(l: Loop, h: Happening, key: Key) {
    || (h.Atomic? && h.e.End? && h.e.key == key)
    || (h.Finish? && h.id in l.tasks && l.tasks[h.id].Pushed? && l.tasks[h.id].key == key)
  }

  lemma HonouredLasts(c: ServerConfig, s: State, t: State, key: Key, reply: Reply, asks: Asks)
    requires Extends(s, t) && Honoured(c, s, key, reply, asks)
    ensures Honoured(c, t, key, reply, asks)
  {
  }

  /** The store may move on under the loop. */
  lemma StoreMoves(c: ServerConfig, l: Loop, store: State, asks: Asks)
    requires LoopInv(c, l, asks) && Extends(l.server.store, store) && Lineage(c.store, store)
    ensures LoopInv(c, l.(server := l.server.(store := store)), asks)
  {
    hide Extends, Lineage, Honoured;
    forall k, r | Honoured(c, l.server.store, k, r, asks) ensures Honoured(c, store, k, r, asks) {
      HonouredLasts(c, l.server.store, store, k, r, asks);
    }
  }

  /** The thread's transaction records what it acknowledges. */
  lemma WorkIsTrue(c: ServerConfig, s: State, t: Task, asks: Asks)
    requires Lineage(c.store, s) && TaskOk(c, s, t, asks)
    ensures var (u, store) := Work(c, s, t); Lineage(c.store, store) && Extends(s, store) && TaskOk(c, store, u, asks)
  {
    hide Lineage, Extends, PushCard;
    SameExtends(s);
    if t.Pushing? && Normalise(t.key.gameId, t.key.slot).Some? {
      PushRecords(c.store, s, Normalise(t.key.gameId, t.key.slot).value, t.image, t.parent);
    }
  }

  lemma ActKeeps(c: ServerConfig, l: Loop, id: nat, asks: Asks)
    requires LoopInv(c, l, asks) && id in l.tasks
    ensures LoopInv(c, Turn(c, l, Act(id)).0, asks) && Extends(l.server.store, Turn(c, l, Act(id)).0.server.store)
  {
    hide Extends, Lineage, Work;
    WorkIsTrue(c, l.server.store, l.tasks[id], asks);
    StoreMoves(c, l, Work(c, l.server.store, l.tasks[id]).1, asks);
  }

  /** A buffer replaced by another valid one of its key. */
  lemma BufferMoves(c: ServerConfig, l: Loop, k: Key, t: Transfer, asks: Asks)
    requires LoopInv(c, l, asks) && t.key == k && t.Valid() && k !in l.server.settled
    ensures LoopInv(c, l.(server := l.server.(staging := l.server.staging[k := t])), asks)
  {
    hide Lineage, Honoured, TaskOk, Transfer.Valid;
  }

  lemma ForgetsVerdict(c: ServerConfig, l: Loop, k: Key, asks: Asks)
    requires LoopInv(c, l, asks)
    ensures LoopInv(c, l.(server := l.server.(settled := l.server.settled - {k})), asks)
  {
    hide Lineage, Honoured, TaskOk, Transfer.Valid;
  }

  lemma SettleHolds(c: ServerConfig, l: Loop, k: Key, reply: Reply, now: real, asks: Asks)
    requires LoopInv(c, l, asks) && Honoured(c, l.server.store, k, reply, asks)
    ensures LoopInv(c, l.(server := Settle(l.server, k, reply, now).0), asks)
  {
    hide Lineage, Honoured, TaskOk, Transfer.Valid;
  }

  lemma SweepHolds(c: ServerConfig, l: Loop, now: real, asks: Asks)
    requires LoopInv(c, l, asks)
    ensures LoopInv(c, l.(server := OnSweep(c, l.server, now)), asks)
  {
    hide Lineage, Honoured, TaskOk, Transfer.Valid;
  }

  lemma BeginHolds(c: ServerConfig, l: Loop, e: Event, asks: Asks)
    requires LoopInv(c, l, asks) && e.Begin? && !Awaits(c, l.server, e)
    ensures var s := Step(c, l.server, e).0; s.store == l.server.store && LoopInv(c, l.(server := s), asks)
  {
    hide LoopInv, Lineage, Transfer.Valid;
    var s := Step(c, l.server, e).0;
    if s != l.server {
      var t := Transfer(e.key, e.parent, e.isDelta, Zeros(e.totalSize), {}, {}, e.now);
      ForgetsVerdict(c, l, e.key, asks);
      assert t.Valid() by { FreshIsValid(t); }
      BufferMoves(c, l.(server := l.server.(settled := l.server.settled - {e.key})), e.key, t, asks);
    }
  }

  lemma FreshIsValid(t: Transfer)
    requires t.received == {} && t.declared == {}
    ensures t.Valid()
  {
  }

  lemma DeltaHolds(c: ServerConfig, l: Loop, e: Event, asks: Asks)
    requires LoopInv(c, l, asks) && e.Delta?
    ensures var s := Step(c, l.server, e).0; s.store == l.server.store && LoopInv(c, l.(server := s), asks)
  {
    hide Lineage, Honoured, TaskOk;
    if e.key in l.server.staging && l.server.staging[e.key].isDelta {
      var t := l.server.staging[e.key].DeclareAll(Marked(e.bitmap, e.base));
      BufferMoves(c, l, e.key, t, asks);
      BufferMoves(c, l, e.key, t.(lastChunkAt := e.now), asks);
    }
  }

  lemma ChunkHolds(c: ServerConfig, l: Loop, e: Event, asks: Asks)
    requires LoopInv(c, l, asks) && e.PushChunk?
    ensures var s := Step(c, l.server, e).0; s.store == l.server.store && LoopInv(c, l.(server := s), asks)
  {
    hide Lineage, Honoured, TaskOk;
    if e.key in l.server.staging {
      BufferMoves(c, l, e.key, l.server.staging[e.key].StoreChunk(e.sequence, e.offset, e.payload, e.now).0, asks);
    }
  }

  lemma EndHolds(c: ServerConfig, l: Loop, e: Event, asks: Asks)
    requires LoopInv(c, l, asks) && e.End? && !Awaits(c, l.server, e) && e.digest == asks(e.key)
    ensures var (s, replies) := Step(c, l.server, e);
            && s.store == l.server.store && LoopInv(c, l.(server := s), asks)
            && forall r | r in replies :: Honoured(c, s.store, e.key, r, asks)
  {
    hide Lineage, Recorded, TaskOk, Transfer.Valid;
    if e.key in l.server.staging {
      if l.server.staging[e.key].Complete() {
        SettleHolds(c, l, e.key, Nack(ChecksumMismatch, 0), e.now, asks);
      } else {
        GapsAreNotVerdicts(l.server.staging[e.key]);
      }
    }
  }

  /** An event handled in one piece, the web side aside. */
  lemma AtomicIsQuiet(c: ServerConfig, l: Loop, e: Event, asks: Asks)
    requires LoopInv(c, l, asks) && !Awaits(c, l.server, e) && !e.Http?
    requires e.End? ==> e.digest == asks(e.key)
    ensures var (s, replies) := Step(c, l.server, e);
            && s.store == l.server.store && LoopInv(c, l.(server := s), asks)
            && (e.End? ==> forall r | r in replies :: Honoured(c, s.store, e.key, r, asks))
  {
    hide LoopInv, Awaits, Honoured;
    match e {
      case Begin(_, _, _, _, _) => BeginHolds(c, l, e, asks);
      case Delta(_, _, _, _) => DeltaHolds(c, l, e, asks);
      case PushChunk(_, _, _, _, _) => ChunkHolds(c, l, e, asks);
      case End(_, _, _) => EndHolds(c, l, e, asks);
      case Sweep(now) => SweepHolds(c, l, now, asks);
    }
  }

  lemma HttpKeeps(c: ServerConfig, l: Loop, op: Op, asks: Asks)
    requires LoopInv(c, l, asks)
    ensures var (m, replies) := Turn(c, l, Atomic(Http(op)));
            LoopInv(c, m, asks) && Extends(l.server.store, m.server.store)
  {
    DoKeeps(c.store, l.server.store, op);
    StoreMoves(c, l, Do(c.store, l.server.store, op).0, asks);
  }

  lemma StartKeeps(c: ServerConfig, l: Loop, id: nat, e: Event, asks: Asks)
    requires LoopInv(c, l, asks) && (e.End? ==> e.digest == asks(e.key))
    ensures LoopInv(c, Turn(c, l, Start(id, e)).0, asks) && Turn(c, l, Start(id, e)).0.server == l.server
  {
    hide Lineage, Honoured;
  }

  lemma FinishKeeps(c: ServerConfig, l: Loop, id: nat, now: real, asks: Asks)
    requires LoopInv(c, l, asks)
    ensures var (m, replies) := Turn(c, l, Finish(id, now));
            && LoopInv(c, m, asks) && m.server.store == l.server.store
            && (id in l.tasks && l.tasks[id].Pushed? ==>
                  forall r | r in replies :: Honoured(c, m.server.store, l.tasks[id].key, r, asks))
  {
    hide Lineage, Recorded;
  }

  /**
   One turn. Whatever interleaves with the awaits: the staging and settled keys stay
   apart, history only grows, and an ACK to a PUSH_END, fresh or repeated, names a
   version recorded with the digest that was asked for.
   */
  lemma TurnKeeps(c: ServerConfig, l: Loop, h: Happening, asks: Asks)
    requires LoopInv(c, l, asks) && Consistent(h, asks)
    ensures var (m, replies) := Turn(c, l, h);
            && LoopInv(c, m, asks) && Extends(l.server.store, m.server.store)
            && (forall key, r | Answers(l, h, key) && r in replies :: Honoured(c, m.server.store, key, r, asks))
  {
    hide Extends, LoopInv, Work, Step, Awaits, Honoured;
    SameExtends(l.server.store);
    match h {
      case Atomic(e) =>
        if e.Http? {
          HttpKeeps(c, l, e.op, asks);
        } else if !Awaits(c, l.server, e) {
          AtomicIsQuiet(c, l, e, asks);
        }
      case Start(id, e) => StartKeeps(c, l, id, e, asks);
      case Act(id) => if id in l.tasks { ActKeeps(c, l, id, asks); }
      case Finish(id, now) => FinishKeeps(c, l, id, now, asks);
    }
  }

  lemma SameExtends(s: State)
    ensures Extends(s, s)
  {
  }

  lemma {:induction false} TurnsKeep(c: ServerConfig, l: Loop, hs: seq<Happening>, asks: Asks)
    requires LoopInv(c, l, asks) && forall h | h in hs :: Consistent(h, asks)
    ensures LoopInv(c, Turns(c, l, hs), asks) && Extends(l.server.store, Turns(c, l, hs).server.store)
  {
    hide Turn, LoopInv;
    if hs == [] {
      SameExtends(l.server.store);
    } else {
      var before := hs[..|hs| - 1];
      assert forall h | h in before :: h in hs;
      TurnsKeep(c, l, before, asks);
      TurnKeeps(c, Turns(c, l, before), hs[|hs| - 1], asks);
      ExtendsChains(l.server.store, Turns(c, l, before).server.store, Turns(c, l, hs).server.store);
    }
  }

  // ----- the store under the loop

  /** The store operation a turn amounts to: the web side's, or one put by a thread. */
  ghost function TurnOp(l: Loop, h: Happening): seq<Op>
  {
    if h.Atomic? && h.e.Http? then [h.e.op]
    else if h.Act? && h.id in l.tasks && l.tasks[h.id].Pushing? then
      var t := l.tasks[h.id];
      [DoPush(t.key.gameId, t.key.slot, t.image, t.parent)]
    else []
  }

  ghost function TurnOps(c: ServerConfig, l: Loop, hs: seq<Happening>): seq<Op>
  {
    if hs == [] then []
    else
      var before := hs[..|hs| - 1];
      TurnOps(c, l, before) + TurnOp(Turns(c, l, before), hs[|hs| - 1])
  }

  lemma TurnIsOp(c: ServerConfig, l: Loop, h: Happening)
    ensures Turn(c, l, h).0.server.store == DoAll(c.store, l.server.store, TurnOp(l, h))
  {
    hide PushNamed;
    var ops := TurnOp(l, h);
    if ops != [] {
      assert ops[1..] == [];
      assert DoAll(c.store, l.server.store, ops) == DoAll(c.store, Do(c.store, l.server.store, ops[0]).0, []);
    }
    if h.Atomic? && !h.e.Http? && !Awaits(c, l.server, h.e) {
      AtomicLeavesStore(c, l.server, h.e);
    }
  }

  lemma AtomicLeavesStore(c: ServerConfig, s: ServerState, e: Event)
    requires !e.Http? && !Awaits(c, s, e)
    ensures Step(c, s, e).0.store == s.store
  {
  }

  lemma {:induction false} TurnsAreOps(c: ServerConfig, l: Loop, hs: seq<Happening>)
    ensures Turns(c, l, hs).server.store == DoAll(c.store, l.server.store, TurnOps(c, l, hs))
  {
    hide Turn, TurnOp, DoAll;
    if hs == [] {
      EmptyDoAll(c.store, l.server.store);
    } else {
      var before := hs[..|hs| - 1];
      TurnsAreOps(c, l, before);
      TurnIsOp(c, Turns(c, l, before), hs[|hs| - 1]);
      DoAllAppend(c.store, l.server.store, TurnOps(c, l, before), TurnOp(Turns(c, l, before), hs[|hs| - 1]));
    }
  }

  /** So however the handlers interleave, at most one push is created on a given parent. */
  lemma OnePushPerParentAsync(c: ServerConfig, hs: seq<Happening>, card: Card, parent: int)
    ensures var l := Loop(IDLE, map[]); CreatedOn(c.store, IDLE.store, TurnOps(c, l, hs), card, parent) <= 1
    ensures Lineage(c.store, Turns(c, Loop(IDLE, map[]), hs).server.store)
  {
    var l := Loop(IDLE, map[]);
    assert Lineage(c.store, IDLE.store);
    OnePushPerParent(c.store, IDLE.store, TurnOps(c, l, hs), card, parent);
    TurnsAreOps(c, l, hs);
    RunsKeepLineage(c.store, IDLE.store, TurnOps(c, l, hs));
  }

  /** Some PUSH_END of `key` that reached its await asked for digest `d`. */
  ghost predicate AskedFor(hs: seq<Happening>, key: Key, d: Digest) {
    exists h :: h in hs && h.Start? && h.e.End? && h.e.key == key && h.e.digest == d
  }

  /** A thread putting an image works for a PUSH_END that asked for exactly its digest. */
  lemma {:induction false} PushingWasAsked(c: ServerConfig, hs: seq<Happening>, id: nat)
    requires var l := Turns(c, Loop(IDLE, map[]), hs); id in l.tasks && l.tasks[id].Pushing?
    ensures var t := Turns(c, Loop(IDLE, map[]), hs).tasks[id];
            c.store.hash(t.image) == t.digest && AskedFor(hs, t.key, t.digest)
  {
    hide Step, PushNamed;
    if hs != [] {
      var before, h := hs[..|hs| - 1], hs[|hs| - 1];
      var l := Turns(c, Loop(IDLE, map[]), before);
      assert forall x :: x in hs <==> x in before || x == h;
      if id in l.tasks && l.tasks[id].Pushing? {
        PushingWasAsked(c, before, id);
      } else {
        assert h.Start? && h.e.End?;
      }
    }
  }

  /**
   Nothing a thread commits is anything but an image whose digest some PUSH_END of its key
   asked for: every operation of a run is the web side's, or such a push.
   */
  lemma {:induction false} CommitMatchesDigest(c: ServerConfig, hs: seq<Happening>, op: Op)
    requires op in TurnOps(c, Loop(IDLE, map[]), hs)
    ensures Atomic(Http(op)) in hs
            || (op.DoPush? && exists key: Key :: AskedFor(hs, key, c.store.hash(op.data)) && SameCard(op, key))
  {
    hide Turn, Turns;
    if hs != [] {
      var before, h := hs[..|hs| - 1], hs[|hs| - 1];
      var l := Turns(c, Loop(IDLE, map[]), before);
      assert forall x :: x in hs <==> x in before || x == h;
      if op in TurnOps(c, Loop(IDLE, map[]), before) {
        CommitMatchesDigest(c, before, op);
        if Atomic(Http(op)) !in before {
          var key: Key :| AskedFor(before, key, c.store.hash(op.data)) && SameCard(op, key);
          AskedLater(before, hs, key, c.store.hash(op.data));
        }
      } else if h.Act? {
        PushingWasAsked(c, before, h.id);
        AskedLater(before, hs, l.tasks[h.id].key, c.store.hash(op.data));
        assert SameCard(op, l.tasks[h.id].key);
      }
    }
  }

  predicate SameCard(op: Op, key: Key) {
    op.gameId == key.gameId && op.slot == key.slot
  }

  lemma AskedLater(a: seq<Happening>, b: seq<Happening>, key: Key, d: Digest)
    requires AskedFor(a, key, d) && forall h | h in a :: h in b
    ensures AskedFor(b, key, d)
  {
  }

  // ----- the staging cap

  /** Tasks reading a seed. */
  ghost function Seeds(l: Loop): set<nat> {
    set id | id in l.tasks && (l.tasks[id].Seeding? || l.tasks[id].Seeded?)
  }

  /** Keys with a buffer, or with a seed on its way to one. */
  ghost function Claimed(l: Loop): set<Key> {
    l.server.staging.Keys + set id | id in Seeds(l) :: l.tasks[id].key
  }

  /** A PUSH_BEGIN for `key` gets past the cap check. */
  ghost predicate Admits(c: ServerConfig, l: Loop, h: Happening, key: Key) {
    || (h.Start? && h.e.Begin? && h.e.key == key && h.id !in l.tasks && Awaits(c, l.server, h.e))
    || (h.Atomic? && h.e.Begin? && h.e.key == key && Turn(c, l, h).1 == [Ack(key.transferId)])
  }

  lemma AdmittedUnderCap(c: ServerConfig, l: Loop, h: Happening, key: Key)
    requires Admits(c, l, h, key)
    ensures key in l.server.staging || |l.server.staging| < c.maxStaging
  {
  }

  /** The task `id` is a seed for `key`. */
  ghost predicate SeedFor(l: Loop, id: nat, key: Key) {
    id in l.tasks && (l.tasks[id].Seeding? || l.tasks[id].Seeded?) && l.tasks[id].key == key
  }

  lemma ClaimedIs(l: Loop, key: Key)
    ensures key in Claimed(l) <==> key in l.server.staging || exists id :: SeedFor(l, id, key)
  {
    if id :| SeedFor(l, id, key) {
      assert id in Seeds(l);
    }
    if key in Claimed(l) && key !in l.server.staging {
      var id :| id in Seeds(l) && l.tasks[id].key == key;
      assert SeedFor(l, id, key);
    }
  }

  lemma AtomicStages(c: ServerConfig, l: Loop, e: Event, key: Key)
    ensures var m := Turn(c, l, Atomic(e)).0;
            && m.tasks == l.tasks
            && (key in m.server.staging && key !in l.server.staging ==>
                  e.Begin? && key == e.key && Admits(c, l, Atomic(e), e.key))
  {
    hide PushNamed, Marked, SeedFromParent, GapReplies, Do;
  }

  lemma StartSeeds(c: ServerConfig, l: Loop, id: nat, e: Event, j: nat, key: Key)
    ensures var m := Turn(c, l, Start(id, e)).0;
            && m.server == l.server
            && (SeedFor(m, j, key) ==>
                  SeedFor(l, j, key) || (e.Begin? && key == e.key && Admits(c, l, Start(id, e), e.key)))
  {
  }

  lemma ActSeeds(c: ServerConfig, l: Loop, id: nat, j: nat, key: Key)
    ensures var m := Turn(c, l, Act(id)).0;
            m.server.staging == l.server.staging && (SeedFor(m, j, key) <==> SeedFor(l, j, key))
  {
    hide PushNamed, SeedFromParent;
  }

  lemma FinishSeeds(c: ServerConfig, l: Loop, id: nat, now: real, j: nat, key: Key)
    ensures var m := Turn(c, l, Finish(id, now)).0;
            && (SeedFor(m, j, key) ==> SeedFor(l, j, key))
            && (key in m.server.staging && key !in l.server.staging ==> SeedFor(l, id, key))
  {
  }

  /** One turn claims no key but the one it admits. */
  lemma TurnClaims(c: ServerConfig, l: Loop, h: Happening, key: Key)
    requires key in Claimed(Turn(c, l, h).0) && key !in Claimed(l)
    ensures (h.Start? || h.Atomic?) && h.e.Begin? && key == h.e.key && Admits(c, l, h, h.e.key)
  {
    hide Turn, Claimed, Admits;
    var m := Turn(c, l, h).0;
    ClaimedIs(l, key);
    ClaimedIs(m, key);
    var j: nat :| key !in m.server.staging ==> SeedFor(m, j, key);
    match h {
      case Atomic(e) =>
        AtomicStages(c, l, e, key);
        assert SeedFor(m, j, key) <==> SeedFor(l, j, key);
      case Start(id, e) => StartSeeds(c, l, id, e, j, key);
      case Act(id) => ActSeeds(c, l, id, j, key);
      case Finish(id, now) => FinishSeeds(c, l, id, now, j, key);
    }
  }

  ghost function Beginner(h: Happening): set<Key> {
    if (h.Start? || h.Atomic?) && h.e.Begin? then {h.e.key} else {}
  }

  lemma TurnClaimsAll(c: ServerConfig, l: Loop, h: Happening)
    ensures Claimed(Turn(c, l, h).0) <= Claimed(l) + Beginner(h)
    ensures (forall key | key in Beginner(h) :: !Admits(c, l, h, key)) ==> Claimed(Turn(c, l, h).0) <= Claimed(l)
  {
    hide Turn, Claimed, Admits;
    forall key | key in Claimed(Turn(c, l, h).0) && key !in Claimed(l)
      ensures key in Beginner(h) && Admits(c, l, h, key)
    {
      TurnClaims(c, l, h, key);
    }
  }

  /** Never more than `most` seeds are being read at once. */
  ghost predicate AtMost(c: ServerConfig, l: Loop, hs: seq<Happening>, most: nat) {
    |Seeds(Turns(c, l, hs))| <= most && (hs == [] || AtMost(c, l, hs[..|hs| - 1], most))
  }

  lemma SizeOfUnion<T>(a: set<T>, b: set<T>)
    ensures |a + b| <= |a| + |b|
  {
    assert a + b == a + (b - a);
    assert |a + (b - a)| == |a| + |b - a|;
    SubsetCard(b - a, b);
  }

  lemma SubsetCard<T>(a: set<T>, b: set<T>)
    requires a <= b
    ensures |a| <= |b|
  {
    assert b == a + (b - a);
    assert |b| == |a| + |b - a|;
  }

  lemma {:induction false} ImageCard(l: Loop, ids: set<nat>)
    requires forall id | id in ids :: id in l.tasks
    ensures |set id | id in ids :: l.tasks[id].key| <= |ids|
  {
    if ids != {} {
      var id :| id in ids;
      var rest := ids - {id};
      ImageCard(l, rest);
      var keys, all := set j | j in rest :: l.tasks[j].key, set j | j in ids :: l.tasks[j].key;
      assert all == keys + {l.tasks[id].key};
      SizeOfUnion(keys, {l.tasks[id].key});
    }
  }

  lemma ClaimedSize(l: Loop)
    ensures |l.server.staging| <= |Claimed(l)| <= |l.server.staging| + |Seeds(l)|
  {
    ImageCard(l, Seeds(l));
    SizeOfUnion(l.server.staging.Keys, set id | id in Seeds(l) :: l.tasks[id].key);
    SubsetCard(l.server.staging.Keys, Claimed(l));
  }

  /**
   How far the cap can be overrun: with at most `most` seeds read at once, buffers and
   seeds together never claim more than `maxStaging + most` keys.
   */
  lemma {:induction false} OverrunIsBounded(c: ServerConfig, l: Loop, hs: seq<Happening>, most: nat)
    requires |Claimed(l)| <= c.maxStaging + most && AtMost(c, l, hs, most)
    ensures |Turns(c, l, hs).server.staging| <= |Claimed(Turns(c, l, hs))| <= c.maxStaging + most
  {
    hide Turn, Claimed, Admits, Seeds;
    ClaimedSize(Turns(c, l, hs));
    if hs != [] {
      var before, h := hs[..|hs| - 1], hs[|hs| - 1];
      var m := Turns(c, l, before);
      OverrunIsBounded(c, l, before, most);
      TurnClaimsAll(c, m, h);
      var next := Turn(c, m, h).0;
      if key :| key in Beginner(h) && Admits(c, m, h, key) {
        AdmittedFits(c, m, h, key, most);
      } else {
        SubsetCard(Claimed(next), Claimed(m));
      }
    }
  }

  lemma AdmittedFits(c: ServerConfig, m: Loop, h: Happening, key: Key, most: nat)
    requires Admits(c, m, h, key) && Beginner(h) == {key}
    requires |Claimed(m)| <= c.maxStaging + most && |Seeds(m)| <= most
    requires |Seeds(Turn(c, m, h).0)| <= most
    ensures |Claimed(Turn(c, m, h).0)| <= c.maxStaging + most
  {
    hide Turn, Admits, Seeds;
    AdmittedUnderCap(c, m, h, key);
    TurnClaimsAll(c, m, h);
    ClaimedSize(m);
    var next := Turn(c, m, h).0;
    if key in m.server.staging {
      SubsetCard(Claimed(next), Claimed(m));
    } else {
      SubsetCard(Claimed(next), Claimed(m) + {key});
      SizeOfUnion(Claimed(m), {key});
    }
  }

  /** Every PUSH_BEGIN let in for a key not yet claimed leaves room for all that are. */
  ghost predicate Reserved(c: ServerConfig, l: Loop, h: Happening) {
    forall key | key in Beginner(h) && Admits(c, l, h, key) && key !in Claimed(l) :: |Claimed(l)| < c.maxStaging
  }

  ghost predicate AllReserved(c: ServerConfig, l: Loop, hs: seq<Happening>) {
    hs == [] || (AllReserved(c, l, hs[..|hs| - 1]) && Reserved(c, Turns(c, l, hs[..|hs| - 1]), hs[|hs| - 1]))
  }

  /** The cap does hold on every run that counts seeds in flight as buffers. */
  lemma {:induction false} CapHolds(c: ServerConfig, l: Loop, hs: seq<Happening>)
    requires |Claimed(l)| <= c.maxStaging && AllReserved(c, l, hs)
    ensures |Turns(c, l, hs).server.staging| <= |Claimed(Turns(c, l, hs))| <= c.maxStaging
  {
    hide Turn, Claimed, Admits, Seeds;
    ClaimedSize(Turns(c, l, hs));
    if hs != [] {
      var before, h := hs[..|hs| - 1], hs[|hs| - 1];
      var m := Turns(c, l, before);
      CapHolds(c, l, before);
      TurnClaimsAll(c, m, h);
      var next := Claimed(Turn(c, m, h).0);
      if key :| key in Beginner(h) && Admits(c, m, h, key) && key !in Claimed(m) {
        SubsetCard(next, Claimed(m) + {key});
        SizeOfUnion(Claimed(m), {key});
      } else {
        assert next <= Claimed(m);
        SubsetCard(next, Claimed(m));
      }
    }
  }

  // ----- and only then: overbooking shows

  ghost function Finishes(ids: seq<nat>, now: real): seq<Happening> {
    seq(|ids|, i requires 0 <= i < |ids| => Finish(ids[i], now))
  }

  /** All seeds in flight, each found and each for a key of its own or none yet. */
  ghost predicate Ready(l: Loop, ids: seq<nat>) {
    && (forall id :: id in Seeds(l) <==> id in ids)
    && (forall i, j | 0 <= i < j < |ids| :: ids[i] != ids[j])
    && (forall id | id in Seeds(l) :: l.tasks[id].Seeded? && l.tasks[id].seed.Some?)
  }

  /** A seed that is staged stays a claim on its key. */
  lemma SameClaims(c: ServerConfig, l: Loop, id: nat, now: real)
    requires id in l.tasks && l.tasks[id].Seeded? && l.tasks[id].seed.Some?
    ensures Claimed(Turn(c, l, Finish(id, now)).0) == Claimed(l)
  {
    hide Claimed;
    var m := Turn(c, l, Finish(id, now)).0;
    forall key ensures key in Claimed(m) <==> key in Claimed(l) {
      ClaimedIs(l, key);
      ClaimedIs(m, key);
      assert SeedFor(l, id, l.tasks[id].key);
      assert forall j :: SeedFor(l, j, key) && j != id ==> SeedFor(m, j, key);
      assert forall j :: SeedFor(m, j, key) ==> SeedFor(l, j, key);
    }
  }

  /** Once more keys are claimed than the cap allows, finishing the seeds in flight overruns it by exactly that. */
  lemma {:induction false} OverbookingShows(c: ServerConfig, l: Loop, ids: seq<nat>, now: real)
    requires Ready(l, ids)
    ensures var m := Turns(c, l, Finishes(ids, now));
            && m.server.staging.Keys == Claimed(l) && |m.server.staging| == |Claimed(l)|
            && Seeds(m) == {} && m.tasks == l.tasks - Seeds(l)
    decreases |ids|
  {
    hide Turn, Ready, Claimed, Seeds, Turns;
    if ids == [] {
      NothingInFlight(c, l, now);
    } else {
      var id, rest := ids[0], ids[1..];
      var m := Turn(c, l, Finish(id, now)).0;
      ReadyNext(c, l, ids, now);
      SameClaims(c, l, id, now);
      OverbookingShows(c, m, rest, now);
      assert Finishes(ids, now) == [Finish(id, now)] + Finishes(rest, now);
      TurnsFirst(c, l, Finish(id, now), Finishes(rest, now));
      assert l.tasks - {id} - (Seeds(l) - {id}) == l.tasks - Seeds(l);
    }
  }

  lemma NothingInFlight(c: ServerConfig, l: Loop, now: real)
    requires Ready(l, [])
    ensures Turns(c, l, Finishes([], now)) == l && Seeds(l) == {} && l.tasks - Seeds(l) == l.tasks
    ensures Claimed(l) == l.server.staging.Keys && |l.server.staging| == |Claimed(l)|
  {
    assert Seeds(l) == {};
    assert Claimed(l) == l.server.staging.Keys;
    assert |l.server.staging| == |l.server.staging.Keys|;
  }

  lemma ReadyNext(c: ServerConfig, l: Loop, ids: seq<nat>, now: real)
    requires Ready(l, ids) && ids != []
    ensures var (id, m) := (ids[0], Turn(c, l, Finish(ids[0], now)).0);
            && id in l.tasks && l.tasks[id].Seeded? && l.tasks[id].seed.Some? && id in Seeds(l)
            && m.tasks == l.tasks - {id} && Seeds(m) == Seeds(l) - {id} && Ready(m, ids[1..])
  {
    hide Resume;
    var id, rest := ids[0], ids[1..];
    assert id in ids;
    FinishTurn(c, l, id, now);
    var m := Turn(c, l, Finish(id, now)).0;
    assert Seeds(m) == Seeds(l) - {id};
    forall x ensures x in Seeds(m) <==> x in rest {
      assert x in Seeds(l) <==> x in ids;
      assert ids == [id] + rest;
    }
  }

  lemma {:induction false} TurnsFirst(c: ServerConfig, l: Loop, h: Happening, hs: seq<Happening>)
    ensures Turns(c, l, [h] + hs) == Turns(c, Turn(c, l, h).0, hs)
  {
    hide Turn;
    var all := [h] + hs;
    if hs == [] {
      assert all[..0] == [];
    } else {
      assert all[..|all| - 1] == [h] + hs[..|hs| - 1];
      TurnsFirst(c, l, h, hs[..|hs| - 1]);
    }
  }

  lemma {:induction false} TurnsAppend(c: ServerConfig, l: Loop, a: seq<Happening>, b: seq<Happening>)
    ensures Turns(c, l, a + b) == Turns(c, Turns(c, l, a), b)
  {
    hide Turn;
    if b == [] {
      assert a + b == a;
    } else {
      assert (a + b)[..|a + b| - 1] == a + b[..|b| - 1];
      TurnsAppend(c, l, a, b[..|b| - 1]);
    }
  }

  lemma FinishTurn(c: ServerConfig, l: Loop, id: nat, now: real)
    requires id in l.tasks && (l.tasks[id].Seeded? || l.tasks[id].Pushed?)
    ensures var (s, replies) := Resume(l.server, l.tasks[id], now);
            Turn(c, l, Finish(id, now)) == (Loop(s, l.tasks - {id}), replies)
  {
  }

  lemma StartTurn(c: ServerConfig, l: Loop, id: nat, e: Event)
    requires id !in l.tasks && Awaits(c, l.server, e)
    ensures Turn(c, l, Start(id, e)).0 == l.(tasks := l.tasks[id := TaskOf(l.server, e)])
  {
  }

  lemma ActTurn(c: ServerConfig, l: Loop, id: nat)
    requires id in l.tasks
    ensures var (t, store) := Work(c, l.server.store, l.tasks[id]);
            Turn(c, l, Act(id)).0 == Loop(l.server.(store := store), l.tasks[id := t])
  {
  }

  // ----- the cap overrun, at every size

  function Starts(keys: seq<Key>, size: nat, parent: nat, now: real): seq<Happening> {
    seq(|keys|, i requires 0 <= i < |keys| => Start(i, Begin(keys[i], size, parent, true, now)))
  }

  function Acts(n: nat): seq<Happening> {
    seq(n, i requires 0 <= i => Act(i))
  }

  function UpToIds(n: nat): seq<nat> {
    seq(n, i requires 0 <= i => i)
  }

  function SeedingTasks(keys: seq<Key>, size: nat, parent: nat): map<nat, Task> {
    map id: nat | id < |keys| :: Seeding(keys[id], size, parent)
  }

  /** The first `n` seeds read, the rest still to come. */
  function HalfRead(s: State, keys: seq<Key>, size: nat, parent: nat, n: nat): map<nat, Task> {
    map id: nat | id < |keys| ::
      if id < n then Seeded(keys[id], parent, SeedFromParent(s, keys[id], size, parent))
      else Seeding(keys[id], size, parent)
  }

  lemma {:induction false} AllStart(c: ServerConfig, s: ServerState, keys: seq<Key>, size: nat, parent: nat, now: real)
    requires c.maxStaging > 0 && s.staging == map[] && 0 < size <= c.store.maxCardBytes
    ensures Turns(c, Loop(s, map[]), Starts(keys, size, parent, now)) == Loop(s, SeedingTasks(keys, size, parent))
  {
    hide Turn;
    var hs := Starts(keys, size, parent, now);
    if keys == [] {
      assert SeedingTasks(keys, size, parent) == map[];
    } else {
      var n := |keys| - 1;
      AllStart(c, s, keys[..n], size, parent, now);
      assert hs[..n] == Starts(keys[..n], size, parent, now);
      var l := Loop(s, SeedingTasks(keys[..n], size, parent));
      StartTurn(c, l, n, Begin(keys[n], size, parent, true, now));
      assert l.tasks[n := Seeding(keys[n], size, parent)] == SeedingTasks(keys, size, parent);
    }
  }

  lemma {:induction false} AllAct(c: ServerConfig, s: ServerState, keys: seq<Key>, size: nat, parent: nat, n: nat)
    requires n <= |keys|
    ensures Turns(c, Loop(s, SeedingTasks(keys, size, parent)), Acts(n))
            == Loop(s, HalfRead(s.store, keys, size, parent, n))
  {
    hide Turn, SeedFromParent;
    var tasks := SeedingTasks(keys, size, parent);
    if n == 0 {
      assert HalfRead(s.store, keys, size, parent, 0) == tasks;
    } else {
      AllAct(c, s, keys, size, parent, n - 1);
      assert Acts(n)[..n - 1] == Acts(n - 1);
      var l := Loop(s, HalfRead(s.store, keys, size, parent, n - 1));
      ActTurn(c, l, n - 1);
      assert l.tasks[n - 1 := Seeded(keys[n - 1], parent, SeedFromParent(s.store, keys[n - 1], size, parent))]
          == HalfRead(s.store, keys, size, parent, n);
    }
  }

  /**
   The cap is overrun at every size: as many deltas of different keys as one likes pass the
   check while their seeds are read, and all of them are staged, with nothing left in flight.
   */
  lemma CapIsNotKept(c: ServerConfig, s: ServerState, keys: seq<Key>, size: nat, parent: nat, now: real)
    requires c.maxStaging > 0 && s.staging == map[] && 0 < size <= c.store.maxCardBytes
    requires |keys| > c.maxStaging && forall i, j | 0 <= i < j < |keys| :: keys[i] != keys[j]
    requires forall key | key in keys :: SeedFromParent(s.store, key, size, parent).Some?
    ensures var hs := Starts(keys, size, parent, now) + Acts(|keys|) + Finishes(UpToIds(|keys|), now);
            var l := Turns(c, Loop(s, map[]), hs);
            |l.server.staging| == |keys| > c.maxStaging && l.tasks == map[]
  {
    hide Turn, SeedFromParent, Turns;
    var n := |keys|;
    var a, b, d := Starts(keys, size, parent, now), Acts(n), Finishes(UpToIds(n), now);
    AllStart(c, s, keys, size, parent, now);
    AllAct(c, s, keys, size, parent, n);
    TurnsAppend(c, Loop(s, map[]), a, b);
    TurnsAppend(c, Loop(s, map[]), a + b, d);
    var l := Loop(s, HalfRead(s.store, keys, size, parent, n));
    AllReady(s, keys, size, parent);
    OverbookingShows(c, l, UpToIds(n), now);
    ClaimedAll(s, keys, size, parent);
    assert l.tasks - Seeds(l) == map[];
  }

  lemma AllReady(s: ServerState, keys: seq<Key>, size: nat, parent: nat)
    requires forall key | key in keys :: SeedFromParent(s.store, key, size, parent).Some?
    ensures Ready(Loop(s, HalfRead(s.store, keys, size, parent, |keys|)), UpToIds(|keys|))
    ensures forall id :: id in Seeds(Loop(s, HalfRead(s.store, keys, size, parent, |keys|))) <==> 0 <= id < |keys|
  {
    hide SeedFromParent;
    var l := Loop(s, HalfRead(s.store, keys, size, parent, |keys|));
    forall id ensures id in UpToIds(|keys|) <==> 0 <= id < |keys| {
      if 0 <= id < |keys| {
        assert UpToIds(|keys|)[id] == id;
      }
    }
    forall id | id in Seeds(l) ensures l.tasks[id].Seeded? && l.tasks[id].seed.Some? {
      assert keys[id] in keys;
    }
  }

  lemma ClaimedAll(s: ServerState, keys: seq<Key>, size: nat, parent: nat)
    requires s.staging == map[] && forall i, j | 0 <= i < j < |keys| :: keys[i] != keys[j]
    ensures |Claimed(Loop(s, HalfRead(s.store, keys, size, parent, |keys|)))| == |keys|
  {
    hide SeedFromParent;
    var l := Loop(s, HalfRead(s.store, keys, size, parent, |keys|));
    var all := set key | key in keys;
    forall key ensures key in Claimed(l) <==> key in all {
      ClaimedIs(l, key);
      if key in all {
        var i :| 0 <= i < |keys| && keys[i] == key;
        assert SeedFor(l, i, key);
      }
    }
    assert Claimed(l) == all;
    DistinctCard(keys);
  }

  lemma {:induction false} DistinctCard(keys: seq<Key>)
    requires forall i, j | 0 <= i < j < |keys| :: keys[i] != keys[j]
    ensures |set key | key in keys| == |keys|
  {
    if keys != [] {
      var n := |keys| - 1;
      DistinctCard(keys[..n]);
      var front, all := set key | key in keys[..n], set key | key in keys;
      assert keys == keys[..n] + [keys[n]];
      assert all == front + {keys[n]};
      assert keys[n] !in front;
    }
  }

  // ----- verdicts across the awaits

  /** Task `id` is a PUSH_END of `k` on its way to a verdict. */
  ghost predicate InFlight(l: Loop, id: nat, k: Key) {
    id in l.tasks && l.tasks[id].key == k && (l.tasks[id].Pushing? || l.tasks[id].Pushed?)
  }

  /** A PUSH_BEGIN of `k` is accepted. */
  ghost predicate Reopens(c: ServerConfig, l: Loop, h: Happening, k: Key) {
    || (h.Atomic? && h.e.Begin? && h.e.key == k && Turn(c, l, h).1 == [Ack(k.transferId)])
    || (h.Finish? && h.id in l.tasks && l.tasks[h.id].Seeded? && l.tasks[h.id].key == k && l.tasks[h.id].seed.Some?)
  }

  /** A PUSH_END of `k` finds its buffer complete. */
  ghost predicate Decides(l: Loop, h: Happening, k: Key) {
    && (h.Atomic? || h.Start?) && h.e.End? && h.e.key == k
    && k in l.server.staging && l.server.staging[k].Complete()
  }

  /** Not reopened, and no PUSH_END of `k` sets out while another is in flight. */
  ghost predicate Steady(c: ServerConfig, l: Loop, h: Happening, k: Key) {
    !Reopens(c, l, h, k) && (Decides(l, h, k) ==> forall id: nat :: !InFlight(l, id, k))
  }

  ghost predicate SteadyRun(c: ServerConfig, l: Loop, hs: seq<Happening>, k: Key) {
    hs == [] || (SteadyRun(c, l, hs[..|hs| - 1], k) && Steady(c, Turns(c, l, hs[..|hs| - 1]), hs[|hs| - 1], k))
  }

  /** The verdict a turn sends for a PUSH_END of `k`, fresh or replayed. */
  ghost function AsyncSaid(c: ServerConfig, l: Loop, h: Happening, k: Key): seq<Reply>
  {
    var replies := Turn(c, l, h).1;
    if Answers(l, h, k) && |replies| == 1 && IsVerdict(replies[0]) then replies else []
  }

  ghost function AsyncVerdicts(c: ServerConfig, l: Loop, hs: seq<Happening>, k: Key): seq<Reply>
  {
    if hs == [] then []
    else
      var before := hs[..|hs| - 1];
      AsyncVerdicts(c, l, before, k) + AsyncSaid(c, Turns(c, l, before), hs[|hs| - 1], k)
  }

  /** One PUSH_END of `k` in flight at most, and then nothing is decided yet. */
  ghost predicate Orderly(l: Loop, k: Key) {
    && (forall i: nat, j: nat | InFlight(l, i, k) && InFlight(l, j, k) :: i == j)
    && (forall i: nat | InFlight(l, i, k) :: k !in l.server.settled)
    && (k in l.server.staging ==> k !in l.server.settled)
  }

  /** What has been said of `k`: one verdict, after which there is no buffer and nothing in flight. */
  ghost predicate Settles(l: Loop, k: Key, said: seq<Reply>) {
    && Orderly(l, k)
    && (said != [] ==>
          && (forall r | r in said :: r == said[0])
          && k !in l.server.staging && (forall i: nat :: !InFlight(l, i, k))
          && (k in l.server.settled ==> l.server.settled[k].reply == said[0]))
    && (k in l.server.settled ==> said != [])
  }

  lemma AtomicSettles(c: ServerConfig, l: Loop, e: Event, k: Key, said: seq<Reply>)
    requires Settles(l, k, said) && Steady(c, l, Atomic(e), k)
    ensures var m := Turn(c, l, Atomic(e)).0; Settles(m, k, said + AsyncSaid(c, l, Atomic(e), k))
  {
    hide Marked, PushNamed, SeedFromParent, Do;
    assert said + [] == said;
    var m := Turn(c, l, Atomic(e)).0;
    assert m.tasks == l.tasks;
    assert forall i: nat :: InFlight(m, i, k) == InFlight(l, i, k);
    if e.End? && e.key == k && k in l.server.staging && !l.server.staging[k].Complete() {
      GapsAreNotVerdicts(l.server.staging[k]);
    }
  }

  lemma StartSettles(c: ServerConfig, l: Loop, id: nat, e: Event, k: Key, said: seq<Reply>)
    requires Settles(l, k, said) && Steady(c, l, Start(id, e), k)
    ensures var m := Turn(c, l, Start(id, e)).0; Settles(m, k, said + AsyncSaid(c, l, Start(id, e), k))
  {
    assert said + [] == said;
    var m := Turn(c, l, Start(id, e)).0;
    assert forall i: nat | i != id :: InFlight(m, i, k) == InFlight(l, i, k);
  }

  lemma ActSettles(c: ServerConfig, l: Loop, id: nat, k: Key, said: seq<Reply>)
    requires Settles(l, k, said)
    ensures var m := Turn(c, l, Act(id)).0; Settles(m, k, said + AsyncSaid(c, l, Act(id), k))
  {
    hide PushNamed, SeedFromParent;
    assert said + [] == said;
    var m := Turn(c, l, Act(id)).0;
    assert forall i: nat :: InFlight(m, i, k) == InFlight(l, i, k);
  }

  lemma FinishSettles(c: ServerConfig, l: Loop, id: nat, now: real, k: Key, said: seq<Reply>)
    requires Settles(l, k, said) && Steady(c, l, Finish(id, now), k)
    requires id in l.tasks && l.tasks[id].Pushed? ==> IsVerdict(l.tasks[id].reply)
    ensures var m := Turn(c, l, Finish(id, now)).0; Settles(m, k, said + AsyncSaid(c, l, Finish(id, now), k))
  {
    hide AsyncSaid;
    assert said + [] == said && [] + said == said;
    var m := Turn(c, l, Finish(id, now)).0;
    assert forall i: nat | i != id :: InFlight(m, i, k) == InFlight(l, i, k);
    FinishSays(c, l, id, now, k);
    if InFlight(l, id, k) && l.tasks[id].Pushed? {
      var reply := l.tasks[id].reply;
      assert said == [];
      assert forall i: nat :: !InFlight(m, i, k);
      assert said + [reply] == [reply];
    } else {
      assert forall i: nat :: InFlight(m, i, k) ==> InFlight(l, i, k);
    }
  }

  lemma FinishSays(c: ServerConfig, l: Loop, id: nat, now: real, k: Key)
    requires id in l.tasks && l.tasks[id].Pushed? ==> IsVerdict(l.tasks[id].reply)
    ensures AsyncSaid(c, l, Finish(id, now), k)
         == if id in l.tasks && l.tasks[id].Pushed? && l.tasks[id].key == k then [l.tasks[id].reply] else []
  {
  }

  /** A thread that has put its image holds a verdict. */
  ghost predicate HoldsVerdicts(l: Loop) {
    forall id | id in l.tasks && l.tasks[id].Pushed? :: IsVerdict(l.tasks[id].reply)
  }

  lemma VerdictsHeld(c: ServerConfig, l: Loop, h: Happening)
    requires HoldsVerdicts(l)
    ensures HoldsVerdicts(Turn(c, l, h).0)
  {
    hide PushNamed, Step, SeedFromParent, Awaits;
  }

  /**
   Verdicts are stable across the awaits. Over every interleaving in which `k` is not reopened
   and no PUSH_END of it sets out while another is in flight, all its verdicts agree, and
   agree with one remembered from before.
   */
  lemma {:induction false} AsyncVerdictsAgree(c: ServerConfig, l: Loop, hs: seq<Happening>, k: Key)
    requires Orderly(l, k) && HoldsVerdicts(l) && SteadyRun(c, l, hs, k)
    ensures var before := if k in l.server.settled then [l.server.settled[k].reply] else [];
            var said := before + AsyncVerdicts(c, l, hs, k);
            && Settles(Turns(c, l, hs), k, said) && HoldsVerdicts(Turns(c, l, hs))
            && forall r | r in said :: r == said[0]
  {
    hide Turn, AsyncSaid, Steady, Orderly, InFlight;
    var before := if k in l.server.settled then [l.server.settled[k].reply] else [];
    if hs == [] {
      assert before + [] == before;
      StartsSettled(l, k);
    } else {
      var front, h := hs[..|hs| - 1], hs[|hs| - 1];
      var m := Turns(c, l, front);
      AsyncVerdictsAgree(c, l, front, k);
      VerdictsHeld(c, m, h);
      var said := before + AsyncVerdicts(c, l, front, k);
      assert before + AsyncVerdicts(c, l, hs, k) == said + AsyncSaid(c, m, h, k);
      match h {
        case Atomic(e) => AtomicSettles(c, m, e, k, said);
        case Start(id, e) => StartSettles(c, m, id, e, k, said);
        case Act(id) => ActSettles(c, m, id, k, said);
        case Finish(id, now) => FinishSettles(c, m, id, now, k, said);
      }
    }
  }

  lemma StartsSettled(l: Loop, k: Key)
    requires Orderly(l, k)
    ensures Settles(l, k, if k in l.server.settled then [l.server.settled[k].reply] else [])
  {
  }

  // ----- and only then: two PUSH_ENDs in flight can disagree

  /** Nothing keeps a resent PUSH_END from starting a second transaction beside the first. */
  lemma TwoEndsInFlight(c: ServerConfig, l: Loop, x: Key, now: real, again: real)
    requires l.tasks == map[] && x in l.server.staging && l.server.staging[x].Complete()
    ensures var (t, d) := (l.server.staging[x], c.store.hash(l.server.staging[x].data));
            && Turn(c, Turn(c, l, Start(0, End(x, d, now))).0, Start(1, End(x, d, again))).0
               == l.(tasks := map[0 := Pushing(x, t.data, t.parent, d), 1 := Pushing(x, t.data, t.parent, d)])
  {
    hide Turn;
    var t, d := l.server.staging[x], c.store.hash(l.server.staging[x].data);
    var p := Pushing(x, t.data, t.parent, d);
    StartTurn(c, l, 0, End(x, d, now));
    var l1 := l.(tasks := map[0 := p]);
    assert l.tasks[0 := p] == map[0 := p];
    StartTurn(c, l1, 1, End(x, d, again));
    assert l1.tasks[1 := p] == map[0 := p, 1 := p];
  }

  /** Head moves from 0 to the image, then to another card: the same push now conflicts. */
  lemma PushTwiceConflicts(c: Config, s: State, card: Card, image: Image, other: Image, parent: nat)
    requires Lineage(c, s) && PushCard(c, s, card, image, parent).1.Created?
    requires other != [] && |other| <= c.maxCardBytes && c.valid(other) && c.hash(other) != c.hash(image)
    ensures var (s1, o1) := PushCard(c, s, card, image, parent);
            var (s2, o2) := PushCard(c, s1, card, other, parent + 1);
            o1 == Created(parent + 1) && PushCard(c, s2, card, image, parent).1 == Conflict(parent + 2)
  {
    hide Lineage, Extends;
    PushCreates(c, s, card, image, parent);
    PushRule(c, s, card, image, parent);
    var s1 := PushCard(c, s, card, image, parent).0;
    PushRule(c, s1, card, other, parent + 1);
    PushCreates(c, s1, card, other, parent + 1);
  }

  /** Two transactions of one PUSH_END, with a web upload in between, and both handlers running on. */
  function BothActed(i: nat, j: nat, card: Card, other: Image, parent: nat, now: real): seq<Happening>
  {
    [Act(i), Atomic(Http(DoPush(card.gameId, card.slot, other, parent + 1))), Act(j), Finish(i, now), Finish(j, now)]
  }

  /** Task `id` is putting `image` on `parent` for `x`. */
  ghost predicate Puts(l: Loop, id: nat, x: Key, image: Image, parent: nat) {
    id in l.tasks && l.tasks[id].Pushing? && l.tasks[id].key == x && l.tasks[id].image == image
    && l.tasks[id].parent == parent
  }

  /**
   The condition is needed wherever it fails. From any loop in which two PUSH_ENDs of `x` are
   putting an image the store would take, and some other card is valid, there is a way on in
   which `x` is told that its image is the next version and then that it conflicts.
   */
  lemma OverlapCanDisagree(c: ServerConfig, l: Loop, i: nat, j: nat, x: Key, card: Card, image: Image, other: Image,
                           parent: nat, now: real)
    requires i != j && Puts(l, i, x, image, parent) && Puts(l, j, x, image, parent)
    requires Lineage(c.store, l.server.store) && Normalise(x.gameId, x.slot) == Some(card)
    requires PushCard(c.store, l.server.store, card, image, parent).1.Created?
    requires other != [] && |other| <= c.store.maxCardBytes && c.store.valid(other)
    requires c.store.hash(other) != c.store.hash(image)
    ensures AsyncVerdicts(c, l, BothActed(i, j, card, other, parent, now), x)
         == [Ack(parent + 1), Nack(ConflictCode, parent + 2)]
  {
    hide Turn, Lineage, PushCard, AsyncSaid, Turns, AsyncVerdicts;
    NormaliseIsStable(x.gameId, x.slot);
    PushTwiceConflicts(c.store, l.server.store, card, image, other, parent);
    var web := DoPush(card.gameId, card.slot, other, parent + 1);
    var a, b := [Act(i), Atomic(Http(web)), Act(j)], [Finish(i, now), Finish(j, now)];
    ActTurn(c, l, i);
    var l1 := Turn(c, l, Act(i)).0;
    HttpTurn(c, l1, web);
    var l2 := Turn(c, l1, Atomic(Http(web))).0;
    ActTurn(c, l2, j);
    var l3 := Turn(c, l2, Act(j)).0;
    ThreeTurns(c, l, a);
    SilentRun(c, l, a, x);
    assert l3.tasks[i] == Pushed(x, Ack(parent + 1)) && l3.tasks[j] == Pushed(x, Nack(ConflictCode, parent + 2));
    FinishTurn(c, l3, i, now);
    FinishSays(c, l3, i, now, x);
    FinishSays(c, Turn(c, l3, Finish(i, now)).0, j, now, x);
    TwoTurns(c, l3, Finish(i, now), Finish(j, now), x);
    VerdictsAppend(c, l, a, b, x);
    assert BothActed(i, j, card, other, parent, now) == a + b;
  }

  lemma FirstPush(c: Config, card: Card, image: Image)
    requires image != [] && |image| <= c.maxCardBytes && c.valid(image)
    ensures Lineage(c, EMPTY) && PushCard(c, EMPTY, card, image, 0).1.Created?
  {
  }

  lemma HttpTurn(c: ServerConfig, l: Loop, op: Op)
    ensures Turn(c, l, Atomic(Http(op))).0 == l.(server := l.server.(store := Do(c.store, l.server.store, op).0))
  {
  }

  lemma {:induction false} SilentRun(c: ServerConfig, l: Loop, hs: seq<Happening>, k: Key)
    requires forall h | h in hs :: !h.Finish? && !(h.Atomic? && h.e.End?)
    ensures AsyncVerdicts(c, l, hs, k) == []
  {
    hide Turn, Turns;
    if hs != [] {
      SilentRun(c, l, hs[..|hs| - 1], k);
      assert hs[|hs| - 1] in hs;
    }
  }

  lemma {:induction false} VerdictsAppend(c: ServerConfig, l: Loop, a: seq<Happening>, b: seq<Happening>, k: Key)
    ensures AsyncVerdicts(c, l, a + b, k) == AsyncVerdicts(c, l, a, k) + AsyncVerdicts(c, Turns(c, l, a), b, k)
  {
    hide Turn, AsyncSaid;
    if b == [] {
      assert a + b == a;
    } else {
      var front := b[..|b| - 1];
      assert (a + b)[..|a + b| - 1] == a + front;
      VerdictsAppend(c, l, a, front, k);
      TurnsAppend(c, l, a, front);
    }
  }

  lemma OneTurn(c: ServerConfig, l: Loop, h: Happening, k: Key)
    ensures Turns(c, l, [h]) == Turn(c, l, h).0 && AsyncVerdicts(c, l, [h], k) == AsyncSaid(c, l, h, k)
  {
    hide Turn, AsyncSaid;
    assert [h][..0] == [];
  }

  lemma TwoTurns(c: ServerConfig, l: Loop, g: Happening, h: Happening, k: Key)
    ensures Turns(c, l, [g, h]) == Turn(c, Turn(c, l, g).0, h).0
    ensures AsyncVerdicts(c, l, [g, h], k) == AsyncSaid(c, l, g, k) + AsyncSaid(c, Turn(c, l, g).0, h, k)
  {
    hide Turn, AsyncSaid, Turns, AsyncVerdicts;
    OneTurn(c, l, g, k);
    OneTurn(c, Turn(c, l, g).0, h, k);
    TurnsAppend(c, l, [g], [h]);
    VerdictsAppend(c, l, [g], [h], k);
    assert [g] + [h] == [g, h];
  }

  /** Datagrams handled one after another without waiting. */
  function Atoms(es: seq<Event>): seq<Happening>
  {
    seq(|es|, i requires 0 <= i < |es| => Atomic(es[i]))
  }

  /** Chunks are: their turns are a run of the server. */
  lemma {:induction false} AtomsRun(c: ServerConfig, l: Loop, es: seq<Event>)
    requires forall e | e in es :: e.PushChunk?
    ensures Turns(c, l, Atoms(es)) == l.(server := Run(c, l.server, es))
    ensures Run(c, l.server, es).store == l.server.store
  {
    hide Turn, Step;
    if es != [] {
      var front, e := es[..|es| - 1], es[|es| - 1];
      assert e in es && forall x | x in front :: x in es;
      AtomsRun(c, l, front);
      assert es == front + [e] && Atoms(es) == Atoms(front) + [Atomic(e)];
      Push.RunAppend(c, l.server, front, [e]);
      AtomTurn(c, l.(server := Run(c, l.server, front)), e);
    }
  }

  lemma AtomTurn(c: ServerConfig, l: Loop, e: Event)
    requires e.PushChunk?
    ensures Turn(c, l, Atomic(e)).0 == l.(server := Step(c, l.server, e).0)
    ensures Run(c, l.server, [e]) == Step(c, l.server, e).0 && Step(c, l.server, e).0.store == l.server.store
  {
    assert [e][1..] == [];
    assert Run(c, l.server, [e]) == Run(c, Step(c, l.server, e).0, []);
  }

  /** A whole card's PUSH_BEGIN and every one of its chunks. */
  ghost function WholeCard(x: Key, image: Image, now: real): seq<Happening>
  {
    var n := ChunkCount(|image|);
    [Atomic(Begin(x, |image|, 0, false, now))] + Atoms(Push.ChunkRound(x, image, UpTo(n), n))
  }

  /** On an idle server they leave the card staged. */
  lemma WholeCardStaged(c: ServerConfig, x: Key, image: Image, now: real)
    requires 0 < |image| <= c.store.maxCardBytes && c.maxStaging > 0
    ensures var l := Turns(c, Loop(IDLE, map[]), WholeCard(x, image, now));
            && l.tasks == map[] && l.server.store == EMPTY && x in l.server.staging
            && l.server.staging[x].Complete() && l.server.staging[x].data == image && l.server.staging[x].parent == 0
  {
    hide Turn, Turns, Run, Step, Push.ChunkRound, Delta.AllHonest, Delta.Sent, Delta.Declared, Delta.Calm;
    var n, l0 := ChunkCount(|image|), Loop(IDLE, map[]);
    var es := Push.ChunkRound(x, image, UpTo(n), n);
    var begin := Begin(x, |image|, 0, false, now);
    BeginsWhole(c, x, |image|, now);
    var l1 := Turn(c, l0, Atomic(begin)).0;
    Push.OnlyChunks(x, image, UpTo(n), n);
    Push.ChunkRoundDelivers(x, image, UpTo(n), n);
    Push.ChunksDeclareNothing(x, image, UpTo(n), n);
    Delta.ChunksAreCalm(c, l1.server, es, x);
    Delta.HonestRun(c, l1.server, es, x, image);
    Delta.WholePushPreservesMeaning(c, l1.server, es, x, image, 0, now, now);
    AtomsRun(c, l1, es);
    OneTurn(c, l0, Atomic(begin), x);
    TurnsAppend(c, l0, [Atomic(begin)], Atoms(es));
  }

  lemma BeginsWhole(c: ServerConfig, x: Key, size: nat, now: real)
    requires 0 < size <= c.store.maxCardBytes && c.maxStaging > 0
    ensures var l := Turn(c, Loop(IDLE, map[]), Atomic(Begin(x, size, 0, false, now))).0;
            && l.tasks == map[] && l.server.store == EMPTY && x in l.server.staging
            && l.server.staging[x] == Transfer(x, 0, false, Zeros(size), {}, {}, now)
  {
    hide Zeros;
  }

  /**
   And it does fail: from an idle server, one whole-card push of any card, whose PUSH_END is
   sent twice, is told that it committed and then that it conflicts.
   */
  lemma VerdictIsNotStable(c: ServerConfig, x: Key, card: Card, image: Image, other: Image, now: real)
    requires Normalise(x.gameId, x.slot) == Some(card) && c.maxStaging > 0
    requires image != [] && |image| <= c.store.maxCardBytes && c.store.valid(image)
    requires other != [] && |other| <= c.store.maxCardBytes && c.store.valid(other)
    requires c.store.hash(other) != c.store.hash(image)
    ensures var end := End(x, c.store.hash(image), now);
            var hs := WholeCard(x, image, now) + [Start(0, end), Start(1, end)]
                      + BothActed(0, 1, card, other, 0, now);
            AsyncVerdicts(c, Loop(IDLE, map[]), hs, x) == [Ack(1), Nack(ConflictCode, 2)]
  {
    hide Turn, AsyncSaid, Turns, AsyncVerdicts, WholeCard, Lineage, PushCard, BothActed;
    var l0, end := Loop(IDLE, map[]), End(x, c.store.hash(image), now);
    var a, b, d := WholeCard(x, image, now), [Start(0, end), Start(1, end)], BothActed(0, 1, card, other, 0, now);
    WholeCardStaged(c, x, image, now);
    var l1 := Turns(c, l0, a);
    TwoEndsInFlight(c, l1, x, now, now);
    TwoTurns(c, l1, b[0], b[1], x);
    TurnsAppend(c, l0, a, b);
    FirstPush(c.store, card, image);
    OverlapCanDisagree(c, Turns(c, l0, a + b), 0, 1, x, card, image, other, 0, now);
    VerdictsAppend(c, l0, a + b, d, x);
    WholeCardIsSilent(x, image, now);
    SilentRun(c, l0, a + b, x);
  }

  lemma WholeCardIsSilent(x: Key, image: Image, now: real)
    ensures forall h | h in WholeCard(x, image, now) :: h.Atomic? && !h.e.End?
  {
    hide Push.ChunkRound;
    var n := ChunkCount(|image|);
    var es := Push.ChunkRound(x, image, UpTo(n), n);
    Push.OnlyChunks(x, image, UpTo(n), n);
    forall h | h in Atoms(es) ensures h.Atomic? && !h.e.End? {
      assert h.e in es;
    }
  }

  lemma ThreeTurns(c: ServerConfig, l: Loop, hs: seq<Happening>)
    requires |hs| == 3
    ensures Turns(c, l, hs) == Turn(c, Turn(c, Turn(c, l, hs[0]).0, hs[1]).0, hs[2]).0
  {
    hide Turn, Turns;
    var k := Key(0, "", 0, 0);
    TwoTurns(c, l, hs[0], hs[1], k);
    OneTurn(c, Turns(c, l, [hs[0], hs[1]]), hs[2], k);
    TurnsAppend(c, l, [hs[0], hs[1]], [hs[2]]);
    assert hs == [hs[0], hs[1]] + [hs[2]];
  }

  // ----- a buffer reopened while its PUSH_END waits

  /** A finishing PUSH_END drops whatever buffer its key has, and files its own verdict. */
  lemma FinishDropsTheBuffer(c: ServerConfig, l: Loop, id: nat, now: real)
    requires id in l.tasks && l.tasks[id].Pushed?
    ensures var (k, m) := (l.tasks[id].key, Turn(c, l, Finish(id, now)).0);
            k !in m.server.staging && k in m.server.settled && m.server.settled[k].reply == l.tasks[id].reply
  {
  }

  /** What a buffer was opened as. */
  ghost predicate SameOpening(s: Transfer, t: Transfer) {
    s.key == t.key && s.parent == t.parent && s.isDelta == t.isDelta && |s.data| == |t.data| && s.received <= t.received
  }

  lemma TurnKeepsOpening(c: ServerConfig, l: Loop, h: Happening, k: Key)
    requires !Reopens(c, l, h, k) && k in Turn(c, l, h).0.server.staging
    ensures k in l.server.staging && SameOpening(l.server.staging[k], Turn(c, l, h).0.server.staging[k])
  {
    hide PushNamed, Marked, SeedFromParent, GapReplies, Do;
  }

  /**
   Unless the key is reopened while a PUSH_END waits, the buffer it drops is the one it
   decided on, further along at most.
   */
  lemma {:induction false} FinishDropsItsOwn(c: ServerConfig, l: Loop, hs: seq<Happening>, k: Key)
    requires forall n | 0 <= n < |hs| :: !Reopens(c, Turns(c, l, hs[..n]), hs[n], k)
    requires k in Turns(c, l, hs).server.staging
    ensures k in l.server.staging && SameOpening(l.server.staging[k], Turns(c, l, hs).server.staging[k])
  {
    hide Turn, Reopens;
    if hs != [] {
      var n := |hs| - 1;
      TurnKeepsOpening(c, Turns(c, l, hs[..n]), hs[n], k);
      forall i | 0 <= i < n ensures !Reopens(c, Turns(c, l, hs[..n][..i]), hs[..n][i], k) {
        assert hs[..n][..i] == hs[..i];
      }
      FinishDropsItsOwn(c, l, hs[..n], k);
    }
  }

  /**
   And if it is reopened, the new attempt loses its buffer to the old one's verdict: a
   PUSH_BEGIN accepted while a PUSH_END of the same key is with its thread is undone, and
   the next PUSH_END is told what the last attempt earned.
   */
  lemma ReopenedIsDropped(c: ServerConfig, l: Loop, x: Key, size: nat, parent: nat, now: real)
    requires l.tasks == map[] && x in l.server.staging && l.server.staging[x].Complete()
    requires 0 < size <= c.store.maxCardBytes
    ensures var (t, d) := (l.server.staging[x], c.store.hash(l.server.staging[x].data));
            var (begin, end) := (Begin(x, size, parent, false, now), End(x, d, now));
            var l2 := Turn(c, Turn(c, l, Start(0, end)).0, Atomic(begin)).0;
            var l4 := Turn(c, Turn(c, l2, Act(0)).0, Finish(0, now)).0;
            var verdict := VerdictOf(PushNamed(c.store, l.server.store, x.gameId, x.slot, t.data, t.parent).1);
            && x in l2.server.staging && l2.server.staging[x] == Transfer(x, parent, false, Zeros(size), {}, {}, now)
            && x !in l4.server.staging && AsyncSaid(c, l4, Atomic(end), x) == [verdict]
  {
    hide Turn, PushNamed, AsyncSaid;
    var t, d := l.server.staging[x], c.store.hash(l.server.staging[x].data);
    var begin, end := Begin(x, size, parent, false, now), End(x, d, now);
    StartTurn(c, l, 0, end);
    var l1 := Turn(c, l, Start(0, end)).0;
    ReopenTurn(c, l1, x, size, parent, now);
    var l2 := Turn(c, l1, Atomic(begin)).0;
    ActTurn(c, l2, 0);
    var l3 := Turn(c, l2, Act(0)).0;
    FinishDropsTheBuffer(c, l3, 0, now);
    PushedIsVerdict(c, l.server.store, x, t.data, t.parent);
    ReplaySays(c, Turn(c, l3, Finish(0, now)).0, x, d, now);
  }

  lemma ReopenTurn(c: ServerConfig, l: Loop, x: Key, size: nat, parent: nat, now: real)
    requires x in l.server.staging && 0 < size <= c.store.maxCardBytes
    ensures var m := Turn(c, l, Atomic(Begin(x, size, parent, false, now))).0;
            && m.tasks == l.tasks && m.server.store == l.server.store && x in m.server.staging
            && m.server.staging[x] == Transfer(x, parent, false, Zeros(size), {}, {}, now)
  {
  }

  lemma PushedIsVerdict(c: ServerConfig, s: State, x: Key, image: Image, parent: nat)
    ensures IsVerdict(VerdictOf(PushNamed(c.store, s, x.gameId, x.slot, image, parent).1))
  {
    hide PushNamed;
  }

  lemma ReplaySays(c: ServerConfig, l: Loop, x: Key, d: Digest, now: real)
    requires x !in l.server.staging && x in l.server.settled && IsVerdict(l.server.settled[x].reply)
    ensures AsyncSaid(c, l, Atomic(End(x, d, now)), x) == [l.server.settled[x].reply]
  {
  }
}
