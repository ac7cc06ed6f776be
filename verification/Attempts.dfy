/**
 A transfer is decided once: what every PUSH_END of one attempt is told, over
 any run of begins, deltas, chunks, ends, sweeps and store operations.
 */
module Attempts {
  import opened Bytes
  import opened Bitmaps
  import opened Staging
  import opened Store
  import opened Server

  /** `e` is a PUSH_BEGIN that (re)opens `k`. */
  ghost predicate Opens(c: ServerConfig, s: ServerState, e: Event, k: Key) {
    e.Begin? && e.key == k && Step(c, s, e).1 == [Ack(k.transferId)]
  }

  /** No PUSH_BEGIN for `k` is accepted anywhere in the run. */
  ghost predicate StaysOpen(c: ServerConfig, s: ServerState, es: seq<Event>, k: Key)
    decreases |es|
  {
    es == [] || (!Opens(c, s, es[0], k) && StaysOpen(c, Step(c, s, es[0]).0, es[1..], k))
  }

  /** Every PUSH_END for `k` carries the digest `d`. */
  ghost predicate Asks(es: seq<Event>, k: Key, d: Digest) {
    forall e | e in es && e.End? && e.key == k :: e.digest == d
  }

  /** A reply that decides a transfer, as opposed to asking for gaps or saying it is unknown. */
  predicate IsVerdict(r: Reply) {
    r.Ack? || (r.Nack? && r.code != StagingExpired)
  }

  /** The verdict one event draws as a PUSH_END for `k`, if it does. */
  ghost function Said(c: ServerConfig, s: ServerState, e: Event, k: Key): seq<Reply>
  {
    var replies := Step(c, s, e).1;
    if e.End? && e.key == k && |replies| == 1 && IsVerdict(replies[0]) then replies else []
  }

  /** 1 when the event is a PUSH_END for `k` that changed the store. */
  ghost function Spent(c: ServerConfig, s: ServerState, e: Event, k: Key): nat
  {
    if e.End? && e.key == k && Step(c, s, e).0.store != s.store then 1 else 0
  }

  /** The verdicts PUSH_ENDs for `k` draw over a run, in order. */
  ghost function Verdicts(c: ServerConfig, s: ServerState, es: seq<Event>, k: Key): seq<Reply>
    decreases |es|
  {
    if es == [] then [] else Said(c, s, es[0], k) + Verdicts(c, Step(c, s, es[0]).0, es[1..], k)
  }

  /** How many PUSH_ENDs for `k` changed the store over a run. */
  ghost function Commits(c: ServerConfig, s: ServerState, es: seq<Event>, k: Key): nat
    decreases |es|
  {
    if es == [] then 0 else Spent(c, s, es[0], k) + Commits(c, Step(c, s, es[0]).0, es[1..], k)
  }

  /** `version` of the card `k` names is on record with digest `d`. */
  ghost predicate Recorded(s: State, k: Key, version: nat, d: Digest) {
    && Normalise(k.gameId, k.slot).Some?
    && var row := Row(Normalise(k.gameId, k.slot).value, version);
    row in s.versions && s.versions[row].sha256 == d
  }

  /** The verdict remembered for `k`, when there is one, is true of the store. */
  ghost predicate Truthful(s: ServerState, k: Key, d: Digest) {
    k in s.settled ==>
      && IsVerdict(s.settled[k].reply)
      && (s.settled[k].reply.Ack? ==> Recorded(s.store, k, s.settled[k].reply.version, d))
  }

  lemma RecordedLasts(s: State, t: State, k: Key, version: nat, d: Digest)
    requires Extends(s, t) && Recorded(s, k, version, d)
    ensures Recorded(t, k, version, d)
  {
  }

  /** A PUSH_END that decides: the store changes only to record the asked-for digest. */
  lemma DecisionIsTrue(c: ServerConfig, s: ServerState, k: Key, d: Digest, now: real)
    requires Inv(c, s) && k in s.staging && s.staging[k].Complete()
    ensures var (t, replies) := OnEnd(c, s, k, d, now);
            && |replies| == 1 && IsVerdict(replies[0])
            && k !in t.staging && k in t.settled && t.settled[k].reply == replies[0]
            && (replies[0].Ack? ==> Recorded(t.store, k, replies[0].version, d) && c.store.hash(s.staging[k].data) == d)
            && (t.store != s.store ==> replies[0].Ack? && c.store.hash(s.staging[k].data) == d)
  {
    var t := s.staging[k];
    if c.store.hash(t.data) == d {
      match Normalise(k.gameId, k.slot)
      case None =>
      case Some(card) =>
        PushRule(c.store, s.store, card, t.data, t.parent);
        if PushCard(c.store, s.store, card, t.data, t.parent).1.Created? {
          PushCreates(c.store, s.store, card, t.data, t.parent);
        }
    }
  }

  /** Gap reports are not verdicts. */
  lemma GapsAreNotVerdicts(t: Transfer)
    ensures forall r | r in GapReplies(t) :: r.Gaps?
  {
  }

  /** What one event of another kind does to a key that is not being reopened. */
  lemma OthersLeaveAttempt(c: ServerConfig, s: ServerState, e: Event, k: Key)
    requires Inv(c, s) && !Opens(c, s, e, k) && !(e.End? && e.key == k)
    ensures var t := Step(c, s, e).0;
            && (k in t.staging ==> k in s.staging)
            && (k in t.settled ==> k in s.settled && t.settled[k] == s.settled[k])
  {
  }

  /** What one PUSH_END does to its key. */
  lemma EndOfAttempt(c: ServerConfig, s: ServerState, k: Key, d: Digest, now: real)
    requires Inv(c, s) && Truthful(s, k, d)
    ensures var t, said := Step(c, s, End(k, d, now)).0, Said(c, s, End(k, d, now), k);
            && Truthful(t, k, d)
            && |said| <= 1
            && (said != [] ==> k in t.settled && t.settled[k].reply == said[0] && k !in t.staging)
            && (k !in s.staging ==> t == s && (said == [] <==> k !in s.settled))
            && (k in s.staging && said == [] ==> t == s)
  {
    if k in s.staging {
      if s.staging[k].Complete() {
        DecisionIsTrue(c, s, k, d, now);
      } else {
        GapsAreNotVerdicts(s.staging[k]);
      }
    }
  }

  /** One step of an attempt: a verdict is given at most once afresh, and repeated unchanged after. */
  lemma StepOfAttempt(c: ServerConfig, s: ServerState, e: Event, k: Key, d: Digest)
    requires Inv(c, s) && Truthful(s, k, d) && !Opens(c, s, e, k) && (e.End? && e.key == k ==> e.digest == d)
    ensures var t, said := Step(c, s, e).0, Said(c, s, e, k);
            && Truthful(t, k, d)
            && |said| <= 1
            && (said != [] ==> k in t.settled && t.settled[k].reply == said[0] && k !in t.staging)
            && (k in s.settled && said != [] ==> said[0] == s.settled[k].reply)
            && (k in s.settled && k in t.settled ==> t.settled[k].reply == s.settled[k].reply)
            && (k !in s.staging ==> k !in t.staging && Spent(c, s, e, k) == 0)
            && (k !in s.staging && k !in s.settled ==> said == [] && k !in t.settled)
            && (k in s.settled ==> k !in s.staging)
            && Spent(c, s, e, k) <= 1 && (Spent(c, s, e, k) == 1 ==> k !in t.staging)
  {
    StepKeeps(c, s, e);
    if e.End? && e.key == k {
      EndOfAttempt(c, s, k, d, e.now);
    } else {
      OthersLeaveAttempt(c, s, e, k);
      if k in Step(c, s, e).0.settled && s.settled[k].reply.Ack? {
        RecordedLasts(s.store, Step(c, s, e).0.store, k, s.settled[k].reply.version, d);
      }
    }
  }

  /** What an attempt comes to: one verdict, true if it is an ACK, and at most one version. */
  ghost predicate DecidedOnce(c: ServerConfig, s: ServerState, es: seq<Event>, k: Key, d: Digest) {
    && Commits(c, s, es, k) <= 1
    && forall r | r in Verdicts(c, s, es, k) ::
         && r == Verdicts(c, s, es, k)[0]
         && (r.Ack? ==> Recorded(Run(c, s, es).store, k, r.version, d))
  }

  /**
   The attempt theorem. From a state where `k`'s remembered verdict, if any, is
   true, and as long as `k` is not reopened and its PUSH_ENDs all carry `d`:
   all verdicts agree, an ACK names a version recorded with digest `d`, and at
   most one version is created. A verdict already remembered is the one repeated.
   */
  lemma {:induction false} AttemptIsDecidedOnce(c: ServerConfig, s: ServerState, es: seq<Event>, k: Key, d: Digest)
    requires Inv(c, s) && Truthful(s, k, d) && StaysOpen(c, s, es, k) && Asks(es, k, d)
    ensures DecidedOnce(c, s, es, k, d)
    ensures k in s.settled ==> forall r | r in Verdicts(c, s, es, k) :: r == s.settled[k].reply
    ensures k !in s.staging ==> Commits(c, s, es, k) == 0
    ensures k !in s.staging && k !in s.settled ==> Verdicts(c, s, es, k) == []
    decreases |es|
  {
    hide Step, Said, Spent, Inv, Recorded, Opens;
    if es != [] {
      var e, rest := es[0], es[1..];
      var t, said := Step(c, s, e).0, Said(c, s, e, k);
      assert !Opens(c, s, e, k) && StaysOpen(c, t, rest, k);
      StepKeeps(c, s, e);
      StepOfAttempt(c, s, e, k, d);
      AttemptIsDecidedOnce(c, t, rest, k, d);
      RunKeeps(c, t, rest);
      var later := Verdicts(c, t, rest, k);
      assert Verdicts(c, s, es, k) == said + later;
      if said != [] {
        assert said == [said[0]];
        assert forall r | r in said + later :: r == said[0];
        if said[0].Ack? {
          RecordedLasts(t.store, Run(c, t, rest).store, k, said[0].version, d);
        }
      } else {
        assert said + later == later;
      }
    }
  }

  /**
   The same, said of an arbitrary history: whatever ran before, from the moment a
   PUSH_BEGIN for `k` is accepted until the next one is.
   */
  lemma AttemptFromBegin(c: ServerConfig, before: seq<Event>, begin: Event, es: seq<Event>, k: Key, d: Digest)
    requires Opens(c, Run(c, IDLE, before), begin, k)
    requires StaysOpen(c, Step(c, Run(c, IDLE, before), begin).0, es, k)
    requires Asks(es, k, d)
    ensures DecidedOnce(c, Step(c, Run(c, IDLE, before), begin).0, es, k, d)
  {
    assert Inv(c, IDLE);
    RunKeeps(c, IDLE, before);
    var s := Run(c, IDLE, before);
    StepKeeps(c, s, begin);
    BeginClears(c, s, begin, k);
    AttemptIsDecidedOnce(c, Step(c, s, begin).0, es, k, d);
  }

  lemma BeginClears(c: ServerConfig, s: ServerState, begin: Event, k: Key)
    requires Opens(c, s, begin, k)
    ensures var t := Step(c, s, begin).0; k in t.staging && k !in t.settled
  {
  }

  /**
   Nothing appears or vanishes unaccounted for. A buffer goes only when its PUSH_END is
   decided or after a silence longer than the time-to-live, a verdict only by age or a new
   PUSH_BEGIN; a buffer comes only from an accepted PUSH_BEGIN and changes only by its own
   key's datagrams.
   */
  lemma NothingVanishes(c: ServerConfig, s: ServerState, e: Event, k: Key)
    requires Inv(c, s)
    ensures var t := Step(c, s, e).0;
            && (k in s.staging && k !in t.staging ==>
                  || (e.End? && e.key == k && k in t.settled)
                  || (e.Sweep? && e.now - s.staging[k].lastChunkAt > c.stagingTtl))
            && (k in s.settled && k !in t.settled ==>
                  Opens(c, s, e, k) || (e.Sweep? && e.now - s.settled[k].at > c.stagingTtl))
            && (k in t.staging && k !in s.staging ==> Opens(c, s, e, k))
            && (k in t.settled && k !in s.settled ==> e.End? && e.key == k && k in s.staging && s.staging[k].Complete())
            && (k in s.staging && k in t.staging && t.staging[k] != s.staging[k] ==>
                  (e.Begin? || e.Delta? || e.PushChunk?) && e.key == k)
            && (e.Sweep? ==> forall j | j in t.staging :: e.now - t.staging[j].lastChunkAt <= c.stagingTtl)
  {
    hide Inv, Lineage, Marked, PushNamed, SeedFromParent, GapReplies, VerdictOf, Do, Zeros, Transfer.Complete;
  }

  /** The store operation one event amounts to: a push only for a complete, digest-matching PUSH_END. */
  ghost function StoreOp(c: ServerConfig, s: ServerState, e: Event): seq<Op>
  {
    if e.Http? then [e.op]
    else if e.End? && e.key in s.staging && s.staging[e.key].Complete()
            && c.store.hash(s.staging[e.key].data) == e.digest then
      var t := s.staging[e.key];
      [DoPush(t.key.gameId, t.key.slot, t.data, t.parent)]
    else []
  }

  ghost function StoreOps(c: ServerConfig, s: ServerState, es: seq<Event>): seq<Op>
    decreases |es|
  {
    if es == [] then [] else StoreOp(c, s, es[0]) + StoreOps(c, Step(c, s, es[0]).0, es[1..])
  }

  lemma StepIsStoreOp(c: ServerConfig, s: ServerState, e: Event)
    ensures Step(c, s, e).0.store == DoAll(c.store, s.store, StoreOp(c, s, e))
  {
    var ops := StoreOp(c, s, e);
    if ops != [] {
      assert ops[1..] == [];
      assert DoAll(c.store, s.store, ops) == DoAll(c.store, Do(c.store, s.store, ops[0]).0, []);
    }
  }

  lemma {:induction false} DoAllAppend(c: Config, s: State, a: seq<Op>, b: seq<Op>)
    ensures DoAll(c, s, a + b) == DoAll(c, DoAll(c, s, a), b)
    decreases |a|
  {
    if a == [] {
      assert a + b == b;
    } else {
      assert (a + b)[1..] == a[1..] + b;
      DoAllAppend(c, Do(c, s, a[0]).0, a[1..], b);
    }
  }

  /** UDP, HTTP and rollback are one lineage: the store only ever moves by those operations. */
  lemma {:induction false} ServerRunsAreStoreRuns(c: ServerConfig, s: ServerState, es: seq<Event>)
    ensures Run(c, s, es).store == DoAll(c.store, s.store, StoreOps(c, s, es))
    decreases |es|
  {
    hide Step, StoreOp, DoAll;
    if es != [] {
      var t := Step(c, s, es[0]).0;
      StepIsStoreOp(c, s, es[0]);
      ServerRunsAreStoreRuns(c, t, es[1..]);
      DoAllAppend(c.store, s.store, StoreOp(c, s, es[0]), StoreOps(c, t, es[1..]));
    } else {
      EmptyDoAll(c.store, s.store);
    }
  }

  lemma EmptyDoAll(c: Config, s: State)
    ensures DoAll(c, s, []) == s
  {
  }

  /** So over any run of the server at most one push, from either side, is created on a given parent. */
  lemma OnePushPerParentOnServer(c: ServerConfig, es: seq<Event>, card: Card, parent: int)
    ensures CreatedOn(c.store, IDLE.store, StoreOps(c, IDLE, es), card, parent) <= 1
    ensures Lineage(c.store, Run(c, IDLE, es).store)
  {
    assert Lineage(c.store, IDLE.store);
    OnePushPerParent(c.store, IDLE.store, StoreOps(c, IDLE, es), card, parent);
    ServerRunsAreStoreRuns(c, IDLE, es);
    RunsKeepLineage(c.store, IDLE.store, StoreOps(c, IDLE, es));
  }
}
