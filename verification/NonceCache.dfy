/** Replay protection: recently seen nonces per device, bounded in time and in number. */
module NonceCache {
  import opened Bytes

  type Nonce = seq<byte>
  type Device = nat

  datatype Settings = Settings(ttl: real, perDevice: nat, maxDevices: nat)

  datatype Seen = Seen(nonce: Nonce, at: real)

  /** One authenticated message; `guarded` is whether its type is a control type. */
  datatype Message = Message(device: Device, nonce: Nonce, guarded: bool, now: real)

  /** Insertion-ordered dictionaries, oldest first. */
  type Table = map<Device, seq<Seen>>

  function ListOf(table: Table, d: Device): seq<Seen> {
    if d in table then table[d] else []
  }

  /** `_expire`: from the front, stopping at the first entry still young. */
  function Expire(list: seq<Seen>, cutoff: real): seq<Seen>
  {
    if list != [] && list[0].at < cutoff then Expire(list[1..], cutoff) else list
  }

  /** `_sweep`: devices with nothing left are forgotten. */
  function Sweep(table: Table, cutoff: real): Table
  {
    map d | d in table && Expire(table[d], cutoff) != [] :: Expire(table[d], cutoff)
  }

  function Holds(list: seq<Seen>, nonce: Nonce): bool
  {
    exists i :: 0 <= i < |list| && list[i].nonce == nonce
  }

  /** The table a message is judged against; None when there is no room for another device. */
  function Admit(c: Settings, table: Table, m: Message): (Table, bool)
  {
    var swept := if m.device !in table && |table| >= c.maxDevices then Sweep(table, m.now - c.ttl) else table;
    (swept, m.device in table || |swept| < c.maxDevices)
  }

  /** Expire, refuse a repeat, make room, record. */
  function Record(c: Settings, list: seq<Seen>, m: Message): (seq<Seen>, bool)
    requires c.perDevice > 0
  {
    var live := Expire(list, m.now - c.ttl);
    if Holds(live, m.nonce) then (live, false)
    else ((if |live| >= c.perDevice then live[1..] else live) + [Seen(m.nonce, m.now)], true)
  }

  /** `check_and_record`. */
  function Check(c: Settings, table: Table, m: Message): (Table, bool)
    requires c.perDevice > 0
  {
    if !m.guarded then (table, true)
    else
      var (swept, admitted) := Admit(c, table, m);
      if !admitted then (swept, false)
      else
        var (list, fresh_) := Record(c, ListOf(swept, m.device), m);
        (swept[m.device := list], fresh_)
  }

  // ----- runs

  function After(c: Settings, ms: seq<Message>): Table
    requires c.perDevice > 0
  {
    if ms == [] then map[] else Check(c, After(c, ms[..|ms| - 1]), ms[|ms| - 1]).0
  }

  predicate Accepted(c: Settings, ms: seq<Message>, k: nat)
    requires c.perDevice > 0 && k < |ms|
  {
    Check(c, After(c, ms[..k]), ms[k]).1
  }

  /** The guarded messages of a device accepted so far, in order. */
  function History(c: Settings, ms: seq<Message>, d: Device): seq<Seen>
    requires c.perDevice > 0
  {
    if ms == [] then []
    else
      var n := |ms| - 1;
      History(c, ms[..n], d)
      + if ms[n].guarded && ms[n].device == d && Accepted(c, ms, n) then [Seen(ms[n].nonce, ms[n].now)] else []
  }

  ghost predicate Monotone(ms: seq<Message>) {
    forall i, j | 0 <= i <= j < |ms| :: ms[i].now <= ms[j].now
  }

  /** Entry `p` of a device's history no longer protects: too old, or too many since. */
  predicate Gone(c: Settings, h: seq<Seen>, p: nat, now: real)
    requires p < |h|
  {
    now - h[p].at > c.ttl || |h| - p - 1 >= c.perDevice
  }

  ghost predicate Sorted(h: seq<Seen>, clock: real) {
    && (forall i, j | 0 <= i <= j < |h| :: h[i].at <= h[j].at)
    && (forall i | 0 <= i < |h| :: h[i].at <= clock)
  }

  /** The table's list for a device is a tail of its history, and what was cut is gone. */
  ghost predicate Tracks(c: Settings, list: seq<Seen>, h: seq<Seen>, clock: real) {
    && |list| <= |h| && |list| <= c.perDevice && list == h[|h| - |list|..]
    && Sorted(h, clock)
    && forall p: nat | p < |h| - |list| :: Gone(c, h, p, clock)
  }

  /** Under a clock that never runs back, the prefix-only expiry is the full filter. */
  lemma {:induction false} ExpireIsFilter(list: seq<Seen>, cutoff: real, clock: real)
    requires Sorted(list, clock)
    ensures forall s :: s in Expire(list, cutoff) <==> s in list && s.at >= cutoff
  {
    if list != [] {
      assert forall s :: s in list <==> s == list[0] || s in list[1..];
      if list[0].at < cutoff {
        ExpireIsFilter(list[1..], cutoff, clock);
      } else {
        forall s | s in list ensures s.at >= cutoff {
          var i :| 0 <= i < |list| && list[i] == s;
        }
      }
    }
  }

  /** What is left is the rest of the list, from the first entry still young. */
  lemma {:induction false} ExpireIsTail(list: seq<Seen>, cutoff: real)
    ensures var r := Expire(list, cutoff);
            |r| <= |list| && r == list[|list| - |r|..] && (r != [] ==> r[0].at >= cutoff)
  {
    if list != [] && list[0].at < cutoff {
      ExpireIsTail(list[1..], cutoff);
    }
  }

  lemma {:induction false} ExpireDrops(list: seq<Seen>, cutoff: real)
    ensures forall p: nat | p < |list| - |Expire(list, cutoff)| :: list[p].at < cutoff
  {
    if list != [] && list[0].at < cutoff {
      ExpireDrops(list[1..], cutoff);
      ExpireIsTail(list[1..], cutoff);
      forall p: nat | p < |list| - |Expire(list, cutoff)| ensures list[p].at < cutoff {
        if p > 0 {
          assert list[p] == list[1..][p - 1];
        }
      }
    }
  }

  /** Expiring keeps the tail relation as the clock moves on. */
  lemma ExpireTracks(c: Settings, list: seq<Seen>, h: seq<Seen>, clock: real, now: real)
    requires Tracks(c, list, h, clock) && clock <= now
    ensures Tracks(c, Expire(list, now - c.ttl), h, now)
  {
    hide Sorted, Gone, Expire;
    var live, cut := Expire(list, now - c.ttl), |h| - |list|;
    ExpireDrops(list, now - c.ttl);
    ExpireIsTail(list, now - c.ttl);
    TailOfTail(h, list, live);
    SortedLater(h, clock, now);
    forall p: nat | p < |h| - |live| ensures Gone(c, h, p, now) {
      if p >= cut {
        assert h[p] == list[p - cut];
        OldIsGone(c, h, p, now);
      } else {
        GoneStays(c, h, p, clock, now);
      }
    }
  }

  lemma OldIsGone(c: Settings, h: seq<Seen>, p: nat, now: real)
    requires p < |h| && h[p].at < now - c.ttl
    ensures Gone(c, h, p, now)
  {
  }

  lemma GoneStays(c: Settings, h: seq<Seen>, p: nat, clock: real, now: real)
    requires p < |h| && Gone(c, h, p, clock) && clock <= now
    ensures Gone(c, h, p, now)
  {
  }

  lemma TailOfTail(h: seq<Seen>, a: seq<Seen>, b: seq<Seen>)
    requires |b| <= |a| <= |h| && a == h[|h| - |a|..] && b == a[|a| - |b|..]
    ensures b == h[|h| - |b|..]
  {
  }

  lemma SortedLater(h: seq<Seen>, clock: real, now: real)
    requires Sorted(h, clock) && clock <= now
    ensures Sorted(h, now)
  {
  }

  /** A list that tracks holds a nonce exactly when some use of it still protects. */
  lemma HeldIsProtected(c: Settings, live: seq<Seen>, h: seq<Seen>, nonce: Nonce, now: real)
    requires Tracks(c, live, h, now) && (live != [] ==> live[0].at >= now - c.ttl)
    ensures Holds(live, nonce) <==> exists p: nat :: p < |h| && h[p].nonce == nonce && !Gone(c, h, p, now)
  {
    var cut := |h| - |live|;
    if Holds(live, nonce) {
      var i :| 0 <= i < |live| && live[i].nonce == nonce;
      assert h[cut + i] == live[i];
      assert live[0] == h[cut];
      assert !Gone(c, h, cut + i, now);
    }
    if p: nat :| p < |h| && h[p].nonce == nonce && !Gone(c, h, p, now) {
      assert p >= cut;
      assert live[p - cut] == h[p];
    }
  }

  /** Recording keeps tracking, and accepts exactly when no earlier use still protects. */
  lemma RecordTracks(c: Settings, list: seq<Seen>, h: seq<Seen>, clock: real, m: Message)
    requires c.perDevice > 0 && Tracks(c, list, h, clock) && clock <= m.now
    ensures var (r, ok) := Record(c, list, m);
            && (ok <==> forall p: nat | p < |h| && h[p].nonce == m.nonce :: Gone(c, h, p, m.now))
            && Tracks(c, r, if ok then h + [Seen(m.nonce, m.now)] else h, m.now)
  {
    var live := Expire(list, m.now - c.ttl);
    hide Tracks, Expire, Holds, Gone;
    ExpireIsTail(list, m.now - c.ttl);
    ExpireTracks(c, list, h, clock, m.now);
    HeldIsProtected(c, live, h, m.nonce, m.now);
    if !Holds(live, m.nonce) {
      AppendTracks(c, live, h, Seen(m.nonce, m.now));
    }
  }

  /** Making room and recording, on a list already expired. */
  lemma AppendTracks(c: Settings, live: seq<Seen>, h: seq<Seen>, s: Seen)
    requires c.perDevice > 0 && Tracks(c, live, h, s.at)
    ensures Tracks(c, (if |live| >= c.perDevice then live[1..] else live) + [s], h + [s], s.at)
  {
    var kept, h' := if |live| >= c.perDevice then live[1..] else live, h + [s];
    TailOfTail(h, live, kept);
    assert kept + [s] == h'[|h'| - |kept| - 1..];
    forall p: nat | p < |h| - |kept| ensures Gone(c, h', p, s.at) {
      assert h'[p] == h[p];
      if p < |h| - |live| {
        assert Gone(c, h, p, s.at);
      }
    }
  }

  /** Sweeping forgets only devices with nothing left, so it is never seen. */
  lemma SweepTracks(c: Settings, table: Table, d: Device, h: seq<Seen>, clock: real, now: real)
    requires Tracks(c, ListOf(table, d), h, clock) && clock <= now
    ensures Tracks(c, ListOf(Sweep(table, now - c.ttl), d), h, now)
  {
    ExpireTracks(c, ListOf(table, d), h, clock, now);
  }

  lemma LaterTracks(c: Settings, list: seq<Seen>, h: seq<Seen>, clock: real, now: real)
    requires Tracks(c, list, h, clock) && clock <= now
    ensures Tracks(c, list, h, now)
  {
    forall p: nat | p < |h| - |list| ensures Gone(c, h, p, now) {
      assert Gone(c, h, p, clock);
    }
  }

  /** One message, seen from any device: its own or another's. */
  lemma CheckTracks(c: Settings, table: Table, m: Message, d: Device, h: seq<Seen>, clock: real)
    requires c.perDevice > 0 && Tracks(c, ListOf(table, d), h, clock) && clock <= m.now
    ensures var (t, ok) := Check(c, table, m);
            var h' := if m.guarded && m.device == d && ok then h + [Seen(m.nonce, m.now)] else h;
            && Tracks(c, ListOf(t, d), h', m.now)
            && (m.guarded && m.device == d && ok ==>
                 forall p: nat | p < |h| && h[p].nonce == m.nonce :: Gone(c, h, p, m.now))
            && (m.guarded && m.device == d && !ok ==>
                  !Admit(c, table, m).1 || exists p: nat :: p < |h| && h[p].nonce == m.nonce && !Gone(c, h, p, m.now))
  {
    hide Tracks, Record, Gone;
    LaterTracks(c, ListOf(table, d), h, clock, m.now);
    SweepTracks(c, table, d, h, clock, m.now);
    if m.guarded {
      var swept := Admit(c, table, m).0;
      RecordHere(c, swept, d, h, m);
    }
  }

  lemma RecordHere(c: Settings, swept: Table, d: Device, h: seq<Seen>, m: Message)
    requires c.perDevice > 0 && Tracks(c, ListOf(swept, d), h, m.now)
    ensures m.device == d ==>
              var (r, ok) := Record(c, ListOf(swept, d), m);
              && (ok <==> forall p: nat | p < |h| && h[p].nonce == m.nonce :: Gone(c, h, p, m.now))
              && Tracks(c, r, if ok then h + [Seen(m.nonce, m.now)] else h, m.now)
  {
    RecordTracks(c, ListOf(swept, d), h, m.now, m);
  }

  /** Over any run the table remembers exactly the tail of each device's history. */
  lemma {:induction false} RunTracks(c: Settings, ms: seq<Message>, d: Device, clock: real)
    requires c.perDevice > 0 && Monotone(ms) && forall i | 0 <= i < |ms| :: ms[i].now <= clock
    ensures Tracks(c, ListOf(After(c, ms), d), History(c, ms, d), clock)
  {
    hide Tracks, Check;
    if ms == [] {
      NothingTracks(c, clock);
    } else {
      var n := |ms| - 1;
      RunTracks(c, ms[..n], d, ms[n].now);
      CheckTracks(c, After(c, ms[..n]), ms[n], d, History(c, ms[..n], d), ms[n].now);
      assert History(c, ms[..n], d) + [] == History(c, ms[..n], d);
      LaterTracks(c, ListOf(After(c, ms), d), History(c, ms, d), ms[n].now, clock);
    }
  }

  lemma NothingTracks(c: Settings, clock: real)
    ensures Tracks(c, [], [], clock)
  {
  }

  /** A device's history up to `j` starts with its history up to `i`. */
  lemma {:induction false} HistoryGrows(c: Settings, ms: seq<Message>, d: Device, i: nat, j: nat)
    requires c.perDevice > 0 && i <= j <= |ms|
    ensures |History(c, ms[..i], d)| <= |History(c, ms[..j], d)|
    ensures History(c, ms[..j], d)[..|History(c, ms[..i], d)|] == History(c, ms[..i], d)
    decreases j
  {
    hide Accepted;
    if i < j {
      HistoryGrows(c, ms, d, i, j - 1);
      assert ms[..j][..j - 1] == ms[..j - 1];
    }
  }

  /**
   The replay window. If one device's guarded nonce is accepted twice, more than
   `ttl` passed, or at least `perDevice` other acceptances by it came between.
   */
  lemma AcceptedTwice(c: Settings, ms: seq<Message>, i: nat, j: nat)
    requires c.perDevice > 0 && Monotone(ms) && i < j < |ms|
    requires ms[i].guarded && ms[j].guarded && ms[i].device == ms[j].device && ms[i].nonce == ms[j].nonce
    requires Accepted(c, ms, i) && Accepted(c, ms, j)
    ensures var d := ms[i].device;
            || ms[j].now - ms[i].now > c.ttl
            || |History(c, ms[..j], d)| - |History(c, ms[..i + 1], d)| >= c.perDevice
  {
    hide Tracks, Check;
    var d, before := ms[i].device, ms[..j];
    var h, p := History(c, before, d), |History(c, ms[..i], d)|;
    RunTracks(c, before, d, ms[j].now);
    CheckTracks(c, After(c, before), ms[j], d, h, ms[j].now);
    assert ms[..i + 1][..i] == ms[..i];
    assert Accepted(c, ms[..i + 1], i);
    assert History(c, ms[..i + 1], d) == History(c, ms[..i], d) + [Seen(ms[i].nonce, ms[i].now)];
    HistoryGrows(c, ms, d, i + 1, j);
    assert h[p] == h[..p + 1][p] == Seen(ms[i].nonce, ms[i].now);
    assert Gone(c, h, p, ms[j].now);
  }

  lemma SweepShrinks(table: Table, cutoff: real)
    ensures |Sweep(table, cutoff)| <= |table|
  {
    var r := Sweep(table, cutoff);
    assert table.Keys == r.Keys + (table.Keys - r.Keys);
    assert |table.Keys| == |r.Keys| + |table.Keys - r.Keys|;
  }

  lemma CheckKeepsBound(c: Settings, table: Table, m: Message)
    requires c.perDevice > 0 && |table| <= c.maxDevices
    ensures |Check(c, table, m).0| <= c.maxDevices
  {
    hide Sweep, Record;
    SweepShrinks(table, m.now - c.ttl);
    var swept := Admit(c, table, m).0;
    GrowsByOne(swept, m.device, Record(c, ListOf(swept, m.device), m).0);
  }

  lemma GrowsByOne(table: Table, d: Device, list: seq<Seen>)
    ensures |table[d := list]| == if d in table then |table| else |table| + 1
  {
    assert table[d := list].Keys == table.Keys + {d};
  }

  /** Both bounds hold in every state, whatever arrives. */
  lemma {:induction false} TableIsBounded(c: Settings, ms: seq<Message>)
    requires c.perDevice > 0
    ensures |After(c, ms)| <= c.maxDevices
    ensures forall d | d in After(c, ms) :: |After(c, ms)[d]| <= c.perDevice
  {
    hide Check;
    if ms != [] {
      var before, m := After(c, ms[..|ms| - 1]), ms[|ms| - 1];
      TableIsBounded(c, ms[..|ms| - 1]);
      CheckKeepsBound(c, before, m);
      CheckKeepsLists(c, before, m);
    }
  }

  lemma CheckKeepsLists(c: Settings, table: Table, m: Message)
    requires c.perDevice > 0 && forall d | d in table :: |table[d]| <= c.perDevice
    ensures forall d | d in Check(c, table, m).0 :: |Check(c, table, m).0[d]| <= c.perDevice
  {
    hide Expire;
    forall list, cutoff ensures |Expire(list, cutoff)| <= |list| {
      ExpireIsTail(list, cutoff);
    }
  }

  // ----- the cache itself

  /** Device `d` has been swept: gone, or down to what is still young. */
  ghost predicate Swept(was: Table, now: Table, d: Device, cutoff: real)
    requires d in was
  {
    if Expire(was[d], cutoff) == [] then d !in now else d in now && now[d] == Expire(was[d], cutoff)
  }

  lemma {:induction false} ExpireIs(list: seq<Seen>, n: nat, cutoff: real)
    requires n <= |list| && forall i | 0 <= i < n :: list[i].at < cutoff
    requires n < |list| ==> list[n].at >= cutoff
    ensures Expire(list, cutoff) == list[n..]
  {
    if n > 0 {
      ExpireIs(list[1..], n - 1, cutoff);
      assert list[1..][n - 1..] == list[n..];
    }
  }

  class Cache {
    const settings: Settings
    var seen: Table

    constructor (settings: Settings)
      ensures this.settings == settings && seen == map[]
    {
      this.settings, seen := settings, map[];
    }

    /** `_expire`. */
    method ExpireList(list: seq<Seen>, now: real) returns (r: seq<Seen>)
      ensures r == Expire(list, now - settings.ttl)
    {
      hide Expire;
      var cutoff, n := now - settings.ttl, 0;
      while n < |list| && list[n].at < cutoff
        invariant 0 <= n <= |list| && forall i | 0 <= i < n :: list[i].at < cutoff
      {
        n := n + 1;
      }
      ExpireIs(list, n, cutoff);
      r := list[n..];
    }

    /** `_sweep`. */
    method SweepAll(now: real)
      modifies this`seen
      ensures seen == Sweep(old(seen), now - settings.ttl)
    {
      hide Expire;
      ghost var cutoff := now - settings.ttl;
      var todo := seen.Keys;
      ghost var was := seen;
      while todo != {}
        invariant todo <= was.Keys && seen.Keys <= was.Keys
        invariant forall d | d in todo :: d in seen && seen[d] == was[d]
        invariant forall d | d in was.Keys - todo :: Swept(was, seen, d, cutoff)
        decreases todo
      {
        var d :| d in todo;
        var live := ExpireList(seen[d], now);
        ghost var before := seen;
        seen := if live == [] then seen - {d} else seen[d := live];
        todo := todo - {d};
        forall e | e in was.Keys - todo ensures Swept(was, seen, e, cutoff) {
          assert e != d ==> Swept(was, before, e, cutoff);
        }
      }
      forall d | d in was ensures Swept(was, seen, d, cutoff) {
      }
      assert seen == Sweep(was, cutoff);
    }

    method CheckAndRecord(m: Message) returns (ok: bool)
      requires settings.perDevice > 0
      modifies this`seen
      ensures (seen, ok) == Check(settings, old(seen), m)
    {
      hide Sweep, Expire, Holds;
      if !m.guarded {
        return true;
      }
      var nonces: seq<Seen> := [];
      if m.device in seen {
        nonces := seen[m.device];
      } else {
        if |seen| >= settings.maxDevices {
          SweepAll(m.now);
        }
        SweepForgets(old(seen), m.now - settings.ttl, m.device);
        if |seen| >= settings.maxDevices {
          return false;
        }
      }
      nonces := ExpireList(nonces, m.now);
      if Holds(nonces, m.nonce) {
        seen := seen[m.device := nonces];
        return false;
      }
      if |nonces| >= settings.perDevice {
        nonces := nonces[1..];
      }
      seen := seen[m.device := nonces + [Seen(m.nonce, m.now)]];
      ok := true;
    }
  }

  lemma SweepForgets(table: Table, cutoff: real, d: Device)
    requires d !in table
    ensures d !in Sweep(table, cutoff)
  {
  }
}
