/** The listener object: handlers that update the staging and settled tables in place. */
module Listener {
  import opened Bytes
  import opened Bitmaps
  import opened Staging
  import opened Store
  import opened Server

  class Protocol {
    const config: ServerConfig
    const store: Database
    var staging: map<Key, Buffer>
    var settled: map<Key, Settled>

    /** Every object of every buffer, and whose buffer it is part of. */
    ghost var owner: map<object, Key>
    /** The transfers in flight, as values. */
    ghost var transfers: map<Key, Transfer>

    ghost predicate OwnedBy(o: object, key: Key)
      reads this`owner
    {
      o in owner && owner[o] == key
    }

    ghost predicate Owns(key: Key, b: Buffer)
      reads this`owner
    {
      OwnedBy(b, key) && OwnedBy(b.data, key) && OwnedBy(b.received, key) && OwnedBy(b.declared, key)
    }

    /** A buffer's objects are all tracked, and none is part of a buffer filed elsewhere. */
    lemma Apart(k: Key, a: Buffer, key: Key, b: Buffer)
      requires Owns(k, a) && Owns(key, b)
      ensures a in owner && a.data in owner && a.received in owner && a.declared in owner
      ensures k != key ==> a !in b.Repr() && a.data !in b.Repr() && a.received !in b.Repr() && a.declared !in b.Repr()
    {
    }

    ghost predicate Valid()
      reads this, owner.Keys
    {
      && store.config == config.store
      && this !in owner && store !in owner
      && transfers.Keys == staging.Keys
      && (forall k | k in staging :: Owns(k, staging[k]) && staging[k].Valid() && staging[k].View() == transfers[k])
    }

    ghost function View(): ServerState
      reads this, store
    {
      ServerState(transfers, settled, store.View())
    }

    constructor (config: ServerConfig, store: Database)
      requires store.config == config.store && store.View() == Store.EMPTY
      ensures Valid() && View() == IDLE && this.config == config && this.store == store
    {
      this.config, this.store := config, store;
      staging, settled, owner, transfers := map[], map[], map[], map[];
    }

    method SeedFromParent(key: Key, totalSize: nat, parent: nat) returns (seed: Option<Image>)
      ensures seed == Server.SeedFromParent(store.View(), key, totalSize, parent)
    {
      if parent == 0 {
        return None;
      }
      var name := Normalise(key.gameId, key.slot);
      if name.None? {
        return None;
      }
      var image := store.Read(name.value, parent);
      seed := if image.Some? && |image.value| == totalSize then image else None;
    }

    /** Record who owns a fresh buffer's objects. */
    ghost method Adopt(key: Key, buffer: Buffer)
      requires Valid()
      requires forall o | o in buffer.Repr() :: o !in owner && o != this && o != store
      modifies this`owner
      ensures Valid() && Owns(key, buffer)
      ensures forall o | o in owner && o !in old(owner) :: o in buffer.Repr()
    {
      hide Buffer.Valid, Buffer.View;
      owner := owner[buffer := key][buffer.data := key][buffer.received := key][buffer.declared := key];
    }

    /** File an owned buffer under `key`, in place of any it had. */
    method Place(key: Key, buffer: Buffer)
      requires Valid() && buffer.Valid() && Owns(key, buffer)
      modifies this`staging, this`transfers
      ensures Valid()
      ensures transfers == old(transfers)[key := buffer.View()]
    {
      hide Buffer.Valid, Buffer.View, Owns;
      staging, transfers := staging[key := buffer], transfers[key := buffer.View()];
    }

    /** Start a transfer afresh, forgetting what its key was told before. */
    method Open(key: Key, parent: nat, isDelta: bool, seed: Image, now: real)
      requires Valid()
      modifies this`staging, this`settled, this`owner, this`transfers
      ensures Valid() && forall o | o in owner && o !in old(owner) :: fresh(o)
      ensures settled == old(settled) - {key}
      ensures transfers == old(transfers)[key := Transfer(key, parent, isDelta, seed, {}, {}, now)]
    {
      hide Buffer.Valid, Buffer.View, Owns;
      settled := settled - {key};
      var buffer := new Buffer(key, parent, isDelta, seed, now);
      Adopt(key, buffer);
      Place(key, buffer);
    }

    method OnPushBegin(key: Key, totalSize: nat, parent: nat, isDelta: bool, now: real) returns (replies: seq<Reply>)
      requires Valid()
      modifies this`staging, this`settled, this`owner, this`transfers
      ensures Valid() && forall o | o in owner && o !in old(owner) :: fresh(o)
      ensures (View(), replies) == OnBegin(config, old(View()), key, totalSize, parent, isDelta, now)
    {
      hide Buffer.Valid, Buffer.View, Owns, Server.SeedFromParent, State.Head;
      if totalSize > config.store.maxCardBytes {
        return [Nack(TooLargeCode, key.transferId)];
      }
      if totalSize == 0 {
        return [Nack(MalformedHeader, key.transferId)];
      }
      assert |transfers| == |transfers.Keys| == |staging.Keys| == |staging|;
      if key !in staging && |staging| >= config.maxStaging {
        return [Nack(RateLimited, key.transferId)];
      }
      var seed := Some(Zeros(totalSize));
      if isDelta {
        seed := SeedFromParent(key, totalSize, parent);
        if seed.None? {
          return [Nack(DeltaUnavailable, key.transferId)];
        }
      }
      Open(key, parent, isDelta, seed.value, now);
      replies := [Ack(key.transferId)];
    }

    /** No buffer shares an object with another, so changing one leaves the table valid. */
    twostate lemma OneChanged(key: Key)
      requires old(Valid()) && staging == old(staging) && owner == old(owner) && key in staging
      requires forall o | o in owner && o !in staging[key].Repr() :: unchanged(o)
      requires staging[key].Valid() && transfers == old(transfers)[key := staging[key].View()]
      ensures Valid()
    {
      hide Buffer.Valid, Buffer.View, Owns;
      forall k | k in staging && k != key ensures staging[k].Valid() && staging[k].View() == old(staging[k].View()) {
        var b := staging[k];
        assert old(Owns(k, staging[k]) && Owns(key, staging[key]));
        Apart(k, b, key, staging[key]);
        assert unchanged(b) && unchanged(b.data) && unchanged(b.received) && unchanged(b.declared);
      }
      assert forall k | k in staging :: old(Owns(k, staging[k])) == Owns(k, staging[k]);
    }

    method OnPushDelta(key: Key, base: nat, bitmap: seq<byte>, now: real) returns (replies: seq<Reply>)
      requires Valid()
      modifies this`transfers, owner.Keys
      ensures Valid() && staging == old(staging) && owner == old(owner)
      ensures (View(), replies) == OnDelta(old(View()), key, base, bitmap, now)
    {
      hide Buffer.Valid, Buffer.View, Owns, Transfer.DeclareAll, Transfer.Expected, Marked;
      if key !in staging {
        return [Nack(StagingExpired, key.transferId)];
      }
      if !staging[key].isDelta {
        return [Nack(MalformedHeader, key.transferId)];
      }
      staging[key].ValidView();
      Apart(key, staging[key], key, staging[key]);
      var ok := staging[key].DeclareBitmap(base, bitmap, now);
      transfers := transfers[key := staging[key].View()];
      OneChanged(key);
      replies := if ok then [Ack(key.transferId)] else [Nack(MalformedHeader, key.transferId)];
    }

    method OnPushChunk(key: Key, sequence: nat, offset: nat, payload: seq<byte>, now: real)
      returns (replies: seq<Reply>)
      requires Valid()
      modifies this`transfers, owner.Keys
      ensures Valid() && staging == old(staging) && owner == old(owner)
      ensures (View(), replies) == OnChunk(old(View()), key, sequence, offset, payload, now)
    {
      hide Buffer.Valid, Buffer.View, Owns, Transfer.StoreChunk;
      if key !in staging {
        return [Nack(StagingExpired, key.transferId)];
      }
      Apart(key, staging[key], key, staging[key]);
      var ok := staging[key].StoreChunk(sequence, offset, payload, now);
      transfers := transfers[key := staging[key].View()];
      OneChanged(key);
      replies := if ok then [] else [Nack(MalformedHeader, key.transferId)];
    }

    /** Drop every buffer not in `kept`. */
    method Retain(kept: map<Key, Buffer>)
      requires Valid() && kept.Keys <= staging.Keys && forall k | k in kept :: kept[k] == staging[k]
      modifies this`staging, this`transfers
      ensures Valid() && staging == kept
      ensures transfers == map k | k in old(transfers) && k in kept :: old(transfers)[k]
    {
      hide Buffer.Valid, Buffer.View, Owns;
      staging := kept;
      transfers := map k | k in transfers && k in kept :: transfers[k];
    }

    method Settle(key: Key, reply: Reply, now: real) returns (replies: seq<Reply>)
      requires Valid()
      modifies this`staging, this`settled, this`transfers
      ensures Valid() && owner == old(owner)
      ensures (View(), replies) == Server.Settle(old(View()), key, reply, now)
    {
      hide Buffer.Valid, Buffer.View, Owns;
      settled := settled[key := Settled(reply, now)];
      Retain(staging - {key});
      assert transfers == old(transfers) - {key};
      replies := [reply];
    }

    /** NACK 0x06, one datagram per bitmap window. */
    method NackMissing(missing: seq<nat>, ghost t: Transfer) returns (replies: seq<Reply>)
      requires t.Valid() && Elements(missing) == t.Missing()
      ensures replies == GapReplies(t)
    {
      var windows := BitmapWindows(missing);
      ReachesTheEnd(missing, t);
      replies := [];
      var n := 0;
      while n < |windows|
        invariant 0 <= n <= |windows| && |replies| == n
        invariant forall m | 0 <= m < n :: replies[m] == Gaps(windows[m])
      {
        replies := replies + [Gaps(windows[n])];
        n := n + 1;
      }
    }

    method OnPushEnd(key: Key, digest: Digest, now: real) returns (replies: seq<Reply>)
      requires Valid()
      modifies this`staging, this`settled, this`transfers, store
      ensures Valid()
      ensures (View(), replies) == OnEnd(config, old(View()), key, digest, now)
    {
      hide Buffer.Valid, Buffer.View, Owns;
      if key !in staging {
        if key in settled {
          return [settled[key].reply];
        }
        return [Nack(StagingExpired, key.transferId)];
      }
      var buffer := staging[key];
      ghost var t := buffer.View();
      buffer.ValidView();
      var complete := buffer.Complete();
      if !complete {
        var missing := buffer.Missing();
        replies := NackMissing(missing, t);
        return;
      }
      var image := buffer.data[..];
      if config.store.hash(image) != digest {
        replies := Settle(key, Nack(ChecksumMismatch, 0), now);
        return;
      }
      var outcome := store.Push(buffer.key.gameId, buffer.key.slot, image, buffer.parent);
      replies := Settle(key, VerdictOf(outcome), now);
    }

    method SweepExpired(now: real)
      requires Valid()
      modifies this`staging, this`settled, this`transfers
      ensures Valid()
      ensures View() == OnSweep(config, old(View()), now)
    {
      hide Buffer.Valid, Buffer.View, Owns;
      var kept := map k | k in staging && now - staging[k].lastChunkAt <= config.stagingTtl :: staging[k];
      assert forall k | k in staging :: staging[k].lastChunkAt == transfers[k].lastChunkAt;
      Retain(kept);
      settled := map k | k in settled && now - settled[k].at <= config.stagingTtl :: settled[k];
    }

    /** Every handler is the step of the run model that its datagram stands for. */
    method Handle(e: Event) returns (replies: seq<Reply>)
      requires Valid()
      modifies this`staging, this`settled, this`transfers, this`owner, store, owner.Keys
      ensures Valid() && forall o | o in owner && o !in old(owner) :: fresh(o)
      ensures (View(), replies) == Step(config, old(View()), e)
    {
      hide Buffer.Valid, Buffer.View, Owns;
      match e
      case Begin(key, totalSize, parent, isDelta, now) => replies := OnPushBegin(key, totalSize, parent, isDelta, now);
      case Delta(key, base, bitmap, now) => replies := OnPushDelta(key, base, bitmap, now);
      case PushChunk(key, sequence, offset, payload, now) =>
        replies := OnPushChunk(key, sequence, offset, payload, now);
      case End(key, digest, now) => replies := OnPushEnd(key, digest, now);
      case Sweep(now) => SweepExpired(now); replies := [];
      case Http(DoPush(gameId, slot, data, parent)) =>
        var _ := store.Push(gameId, slot, data, parent);
        replies := [];
      case Http(DoRollback(gameId, slot, to)) =>
        var _ := store.Rollback(gameId, slot, to);
        replies := [];
    }
  }

  /** Enough windows to reach the end of the card are enough for every gap. */
  lemma ReachesTheEnd(missing: seq<nat>, t: Transfer)
    requires Elements(missing) == t.Missing()
    ensures forall i | i in missing :: i < (t.Expected() / BITMAP_WINDOW + 1) * BITMAP_WINDOW
  {
    forall i | i in missing ensures i < (t.Expected() / BITMAP_WINDOW + 1) * BITMAP_WINDOW {
      assert i in Elements(missing);
    }
  }
}
