/** Token buckets over real arithmetic, one per key, idle ones forgotten. */
module RateLimit {
  type Source = string

  datatype Settings = Settings(capacity: real, rate: real, maxKeys: nat, idleTimeout: real)
  {
    predicate Sane() {
      capacity >= 0.0 && rate >= 0.0
    }

    /** Long enough idle to be full again: what makes forgetting a bucket harmless. */
    predicate Forgetful() {
      idleTimeout * rate >= capacity
    }
  }

  datatype Bucket = Bucket(tokens: real, updated: real)

  type Table = map<Source, Bucket>

  function Min(a: real, b: real): real { if a <= b then a else b }

  function Max(a: real, b: real): real { if a >= b then a else b }

  /** Tokens a bucket has at `now`, before anything is taken. */
  function Refilled(c: Settings, b: Bucket, now: real): real
  {
    Min(c.capacity, b.tokens + Max(0.0, now - b.updated) * c.rate)
  }

  /** `TokenBucket.take`. */
  function Take(c: Settings, b: Bucket, cost: real, now: real): (Bucket, bool)
  {
    var tokens := Refilled(c, b, now);
    if tokens < cost then (Bucket(tokens, now), false) else (Bucket(tokens - cost, now), true)
  }

  /** `_sweep`. */
  function Sweep(c: Settings, table: Table, now: real): Table
  {
    map k | k in table && !(now - table[k].updated > c.idleTimeout) :: table[k]
  }

  datatype Call =
    | Allow(key: Source, cost: real, now: real)
    | Reset(key: Source, now: real)

  /** The table with a bucket for `key`, when there is room for one. */
  function Admit(c: Settings, table: Table, key: Source, now: real): (r: (Table, bool))
    ensures r.1 ==> key in r.0
  {
    if key in table then (table, true)
    else
      var swept := if |table| >= c.maxKeys then Sweep(c, table, now) else table;
      if |swept| >= c.maxKeys then (swept, false) else (swept[key := Bucket(c.capacity, now)], true)
  }

  /** `RateLimiter.allow` and `reset`. */
  function Do(c: Settings, table: Table, call: Call): (Table, bool)
  {
    match call
    case Reset(key, _) => (table - {key}, false)
    case Allow(key, cost, now) =>
      var (t, room) := Admit(c, table, key, now);
      if !room then (t, false)
      else
        var (b, ok) := Take(c, t[key], cost, now);
        (t[key := b], ok)
  }

  function After(c: Settings, calls: seq<Call>): Table
  {
    if calls == [] then map[] else Do(c, After(c, calls[..|calls| - 1]), calls[|calls| - 1]).0
  }

  /** What `key` has been granted by the calls from `from` on. */
  function Granted(c: Settings, calls: seq<Call>, key: Source, from: nat): real
    requires from <= |calls|
  {
    if from == |calls| then 0.0
    else
      var n := |calls| - 1;
      var before := Granted(c, calls[..n], key, from);
      var granted := calls[n].Allow? && calls[n].key == key && Do(c, After(c, calls[..n]), calls[n]).1;
      if granted then before + calls[n].cost else before
  }

  // ----- what a key could spend

  /** The tokens a key can count on at `now`: a key with no bucket gets a full one. */
  function Level(c: Settings, table: Table, key: Source, now: real): real
  {
    if key in table then Refilled(c, table[key], now) else c.capacity
  }

  ghost predicate Valid(c: Settings, table: Table, clock: real) {
    forall k | k in table :: 0.0 <= table[k].tokens <= c.capacity && table[k].updated <= clock
  }

  lemma ScaleUp(a: real, b: real, r: real)
    requires a <= b && r >= 0.0
    ensures a * r <= b * r && r * a <= r * b
  {
  }

  /** What the rate brings in between two times. */
  function Earned(c: Settings, from: real, to: real): real {
    c.rate * (to - from)
  }

  lemma EarningsAdd(c: Settings, a: real, b: real, d: real)
    ensures Earned(c, a, d) == Earned(c, a, b) + Earned(c, b, d)
    ensures Earned(c, a, a) == 0.0
    ensures c.Sane() && b <= d ==> Earned(c, a, b) <= Earned(c, a, d)
  {
  }

  /** Forgetting an idle bucket and making a full one later cannot be told apart. */
  lemma SweepIsInvisible(c: Settings, table: Table, key: Source, clock: real, now: real)
    requires c.Sane() && c.Forgetful() && Valid(c, table, clock) && clock <= now
    ensures Level(c, Sweep(c, table, now), key, now) == Level(c, table, key, now)
    ensures Valid(c, Sweep(c, table, now), clock)
  {
    if key in table && key !in Sweep(c, table, now) {
      ScaleUp(c.idleTimeout, now - table[key].updated, c.rate);
    }
  }

  /** Waiting can add no more than the rate allows. */
  lemma LevelRises(c: Settings, table: Table, key: Source, clock: real, now: real, later: real)
    requires c.Sane() && Valid(c, table, clock) && clock <= now <= later
    ensures Level(c, table, key, later) <= Level(c, table, key, now) + Earned(c, now, later)
    ensures 0.0 <= Level(c, table, key, now) <= c.capacity
  {
    ScaleUp(0.0, later - now, c.rate);
    if key in table {
      var b := table[key];
      ScaleUp(0.0, now - b.updated, c.rate);
      assert (later - b.updated) * c.rate == (now - b.updated) * c.rate + (later - now) * c.rate;
    }
  }

  /** A call pays what it is granted out of the key's own level, and touches no other key's. */
  lemma CallPays(c: Settings, table: Table, call: Call, key: Source, clock: real)
    requires c.Sane() && c.Forgetful() && Valid(c, table, clock) && clock <= call.now
    requires call.Allow? ==> call.cost >= 0.0
    requires !(call.Reset? && call.key == key)
    ensures var (t, ok) := Do(c, table, call);
            && Valid(c, t, call.now)
            && Level(c, t, key, call.now) <= Level(c, table, key, call.now)
               - if call.Allow? && call.key == key && ok then call.cost else 0.0
  {
    hide Sweep;
    match call {
      case Reset(_, _) =>
      case Allow(k, cost, now) =>
        SweepIsInvisible(c, table, key, clock, now);
        SweepIsInvisible(c, table, k, clock, now);
        SweepOnlyForgets(c, table, now);
        TakePays(c, if k in table then table[k] else Bucket(c.capacity, now), cost, now);
    }
  }

  lemma SweepOnlyForgets(c: Settings, table: Table, now: real)
    ensures forall k | k in Sweep(c, table, now) :: k in table && Sweep(c, table, now)[k] == table[k]
  {
  }

  lemma TakePays(c: Settings, b: Bucket, cost: real, now: real)
    requires c.Sane() && 0.0 <= b.tokens <= c.capacity && b.updated <= now && cost >= 0.0
    ensures var (t, ok) := Take(c, b, cost, now);
            && 0.0 <= t.tokens <= c.capacity && t.updated == now
            && Refilled(c, t, now) == Refilled(c, b, now) - if ok then cost else 0.0
  {
    ScaleUp(0.0, now - b.updated, c.rate);
  }

  ghost predicate Monotone(calls: seq<Call>) {
    && (forall i, j | 0 <= i <= j < |calls| :: calls[i].now <= calls[j].now)
    && (forall i | 0 <= i < |calls| && calls[i].Allow? :: calls[i].cost >= 0.0)
  }

  /** When the calls from `from` on last looked at the clock. */
  function Clock(calls: seq<Call>, from: nat, start: real): real {
    if |calls| <= from then start else calls[|calls| - 1].now
  }

  lemma {:induction false} RunIsValid(c: Settings, calls: seq<Call>, clock: real)
    requires c.Sane() && c.Forgetful() && Monotone(calls)
    requires forall i | 0 <= i < |calls| :: calls[i].now <= clock
    ensures Valid(c, After(c, calls), clock)
  {
    hide Do;
    if calls != [] {
      var n := |calls| - 1;
      RunIsValid(c, calls[..n], calls[n].now);
      CallKeepsValid(c, After(c, calls[..n]), calls[n]);
    }
  }

  lemma CallKeepsValid(c: Settings, table: Table, call: Call)
    requires c.Sane() && Valid(c, table, call.now) && (call.Allow? ==> call.cost >= 0.0)
    ensures Valid(c, Do(c, table, call).0, call.now)
  {
    hide Sweep;
    if call.Allow? {
      SweepOnlyForgets(c, table, call.now);
      TakePays(c, if call.key in table then table[call.key] else Bucket(c.capacity, call.now), call.cost, call.now);
    }
  }

  lemma AfterLast(c: Settings, calls: seq<Call>)
    requires calls != []
    ensures After(c, calls) == Do(c, After(c, calls[..|calls| - 1]), calls[|calls| - 1]).0
  {
  }

  /** Spent so far plus what is left never exceeds what was there plus what has come in. */
  lemma {:induction false} SpendingIsPaidFor(c: Settings, calls: seq<Call>, key: Source, from: nat, s: real)
    requires c.Sane() && c.Forgetful() && Monotone(calls) && from <= |calls|
    requires forall i | 0 <= i < from :: calls[i].now <= s
    requires forall i | from <= i < |calls| :: s <= calls[i].now && !(calls[i].Reset? && calls[i].key == key)
    ensures var t := Clock(calls, from, s);
            Granted(c, calls, key, from) + Level(c, After(c, calls), key, t) <= c.capacity + Earned(c, s, t)
  {
    hide Do, Level, Valid, After, Earned;
    EarningsAdd(c, s, s, s);
    if from == |calls| {
      RunIsValid(c, calls, s);
      LevelRises(c, After(c, calls), key, s, s, s);
    } else {
      var n := |calls| - 1;
      var before := After(c, calls[..n]);
      SpendingIsPaidFor(c, calls[..n], key, from, s);
      var t := Clock(calls[..n], from, s);
      RunIsValid(c, calls[..n], t);
      LevelRises(c, before, key, t, t, calls[n].now);
      CallPays(c, before, calls[n], key, t);
      AfterLast(c, calls);
      EarningsAdd(c, s, t, calls[n].now);
    }
  }

  /**
   The bound: between any two times `s` <= `t` one key that is not reset is granted at
   most a full bucket and what the rate brings in, however often idle keys are swept.
   */
  lemma GrantsAreBounded(c: Settings, calls: seq<Call>, key: Source, from: nat, s: real, t: real)
    requires c.Sane() && c.Forgetful() && Monotone(calls) && from <= |calls| && s <= t
    requires forall i | 0 <= i < from :: calls[i].now <= s
    requires forall i | from <= i < |calls| :: s <= calls[i].now <= t && !(calls[i].Reset? && calls[i].key == key)
    ensures Granted(c, calls, key, from) <= c.capacity + c.rate * (t - s)
  {
    hide Level, Valid, After, Granted;
    SpendingIsPaidFor(c, calls, key, from, s);
    var last := Clock(calls, from, s);
    RunIsValid(c, calls, last);
    LevelRises(c, After(c, calls), key, last, last, last);
    EarningsAdd(c, s, last, t);
  }

  /** The table never holds more than `maxKeys` buckets. */
  lemma {:induction false} TableIsBounded(c: Settings, calls: seq<Call>)
    ensures |After(c, calls)| <= c.maxKeys
  {
    hide Do;
    if calls != [] {
      var n := |calls| - 1;
      TableIsBounded(c, calls[..n]);
      CallKeepsSize(c, After(c, calls[..n]), calls[n]);
    }
  }

  lemma Shrinks(m: Table, r: Table)
    requires r.Keys <= m.Keys
    ensures |r| <= |m|
  {
    assert m.Keys == r.Keys + (m.Keys - r.Keys);
    assert |m.Keys| == |r.Keys| + |m.Keys - r.Keys|;
  }

  lemma CallKeepsSize(c: Settings, table: Table, call: Call)
    requires |table| <= c.maxKeys
    ensures |Do(c, table, call).0| <= c.maxKeys
  {
    hide Sweep, Take;
    Shrinks(table, table - {call.key});
    if call.Allow? {
      SweepOnlyForgets(c, table, call.now);
      Shrinks(table, Sweep(c, table, call.now));
      var swept := if |table| >= c.maxKeys then Sweep(c, table, call.now) else table;
      GrowsByOne(swept, call.key, Bucket(c.capacity, call.now));
      var t := Admit(c, table, call.key, call.now).0;
      if call.key in t {
        GrowsByOne(t, call.key, Take(c, t[call.key], call.cost, call.now).0);
      }
    }
  }

  lemma GrowsByOne(m: Table, k: Source, b: Bucket)
    ensures |m[k := b]| == if k in m then |m| else |m| + 1
  {
    assert m[k := b].Keys == m.Keys + {k};
  }

  /** A moment past the idle timeout, before a bucket can have refilled. */
  function LeakTime(c: Settings): real {
    if c.rate > 0.0 then (c.idleTimeout + c.capacity / c.rate) / 2.0 else c.idleTimeout + 1.0
  }

  lemma LeakTimeIsBetween(c: Settings)
    requires c.Sane() && !c.Forgetful() && c.idleTimeout >= 0.0
    ensures c.idleTimeout < LeakTime(c) && c.rate * LeakTime(c) < c.capacity
  {
    if c.rate > 0.0 {
      var full := c.capacity / c.rate;
      assert full * c.rate == c.capacity;
      if full <= c.idleTimeout {
        ScaleUp(full, c.idleTimeout, c.rate);
        assert false;
      }
      assert c.rate * ((c.idleTimeout + full) / 2.0) == (c.rate * c.idleTimeout + c.rate * full) / 2.0;
    }
  }

  /** Every key of a list spends a full bucket at time 0. */
  function SpendAll(c: Settings, keys: seq<Source>): seq<Call>
  {
    if keys == [] then [] else SpendAll(c, keys[..|keys| - 1]) + [Allow(keys[|keys| - 1], c.capacity, 0.0)]
  }

  /** Every key of a list has nothing left since time 0. */
  function Spent(keys: seq<Source>): Table
  {
    map k | k in keys :: Bucket(0.0, 0.0)
  }

  ghost predicate Distinct(keys: seq<Source>) {
    forall i, j | 0 <= i < j < |keys| :: keys[i] != keys[j]
  }

  /**
   The condition is needed, at every table size from two up. With an idle timeout too
   short to refill, a full table of quiet keys and one more that forces a sweep let the
   first of them spend two full buckets in less time than the rate allows.
   */
  lemma ShortTimeoutLeaks(c: Settings, keys: seq<Source>, d: Source)
    requires c.Sane() && !c.Forgetful() && c.maxKeys >= 2 && c.idleTimeout >= 0.0
    requires |keys| == c.maxKeys && Distinct(keys) && d !in keys
    ensures var t := LeakTime(c);
            var calls := SpendAll(c, keys) + [Allow(d, c.capacity, t), Allow(keys[0], c.capacity, t)];
            Granted(c, calls, keys[0], 0) > c.capacity + c.rate * t
  {
    hide Do, After, Granted, Spent;
    var t, n := LeakTime(c), |keys|;
    LeakTimeIsBetween(c);
    var first := SpendAll(c, keys);
    var calls := first + [Allow(d, c.capacity, t), Allow(keys[0], c.capacity, t)];
    EveryKeySpends(c, keys, keys[0]);
    assert calls[..n] == first && calls[..n + 2] == calls;
    Unfolds(c, calls, keys[0], n);
    Unfolds(c, calls, keys[0], n + 1);
    AllQuiet(c, keys, t);
    SweptThenSpends(c, Spent(keys), d, t);
    var table: Table := map[d := Bucket(0.0, t)];
    assert |table| == 1 by { assert table.Keys == {d}; }
    SpendsAll(c, table, keys[0], t);
  }

  /** After the list each of its keys has been granted one full bucket and has none left. */
  lemma {:induction false} EveryKeySpends(c: Settings, keys: seq<Source>, a: Source)
    requires c.Sane() && |keys| <= c.maxKeys && Distinct(keys)
    ensures |SpendAll(c, keys)| == |keys| && After(c, SpendAll(c, keys)) == Spent(keys) && |Spent(keys)| == |keys|
    ensures Granted(c, SpendAll(c, keys), a, 0) == if a in keys then c.capacity else 0.0
  {
    hide Do, Granted, After, Spent, Settings.Sane;
    if keys == [] {
      NothingYet(c, a);
    } else {
      var n := |keys| - 1;
      var front, k := keys[..n], keys[n];
      assert keys == front + [k] && k !in front;
      EveryKeySpends(c, front, a);
      SpentMore(front, k);
      SpendsAll(c, Spent(front), k, 0.0);
      var calls := SpendAll(c, keys);
      assert calls == SpendAll(c, front) + [Allow(k, c.capacity, 0.0)];
      assert calls[..n] == SpendAll(c, front) && calls[..n + 1] == calls;
      Unfolds(c, calls, a, n);
    }
  }

  lemma SpentMore(front: seq<Source>, k: Source)
    requires k !in front
    ensures k !in Spent(front) && Spent(front + [k]) == Spent(front)[k := Bucket(0.0, 0.0)]
    ensures |Spent(front + [k])| == |Spent(front)| + 1
  {
    assert Spent(front + [k]) == Spent(front)[k := Bucket(0.0, 0.0)];
    GrowsByOne(Spent(front), k, Bucket(0.0, 0.0));
  }

  lemma NothingYet(c: Settings, a: Source)
    ensures After(c, []) == Spent([]) && |Spent([])| == 0 && Granted(c, [], a, 0) == 0.0
  {
    assert Spent([]) == map[];
  }

  lemma Unfolds(c: Settings, calls: seq<Call>, key: Source, n: nat)
    requires n < |calls|
    ensures var (t, ok) := Do(c, After(c, calls[..n]), calls[n]);
            && After(c, calls[..n + 1]) == t
            && Granted(c, calls[..n + 1], key, 0) == Granted(c, calls[..n], key, 0)
               + if calls[n].Allow? && calls[n].key == key && ok then calls[n].cost else 0.0
  {
    hide Do;
    assert calls[..n + 1][..n] == calls[..n];
  }

  /** A key with no bucket spends a full one. */
  lemma SpendsAll(c: Settings, table: Table, key: Source, now: real)
    requires c.Sane() && key !in table && |table| < c.maxKeys
    ensures Do(c, table, Allow(key, c.capacity, now)) == (table[key := Bucket(0.0, now)], true)
  {
    var full := Bucket(c.capacity, now);
    assert Refilled(c, full, now) == c.capacity;
    assert table[key := full][key := Bucket(0.0, now)] == table[key := Bucket(0.0, now)];
  }

  lemma AllQuiet(c: Settings, keys: seq<Source>, now: real)
    requires now > c.idleTimeout
    ensures Sweep(c, Spent(keys), now) == map[] && forall k | k !in keys :: k !in Spent(keys)
  {
  }

  lemma SweptThenSpends(c: Settings, table: Table, key: Source, now: real)
    requires c.Sane() && key !in table && |table| == c.maxKeys >= 2 && Sweep(c, table, now) == map[]
    ensures Do(c, table, Allow(key, c.capacity, now)) == (map[key := Bucket(0.0, now)], true)
  {
    var full := Bucket(c.capacity, now);
    assert Refilled(c, full, now) == c.capacity;
    assert map[][key := full][key := Bucket(0.0, now)] == map[key := Bucket(0.0, now)];
  }

  // ----- the limiter itself

  class TokenBucket {
    const settings: Settings
    var tokens: real
    var updated: real

    ghost function View(): Bucket
      reads this
    {
      Bucket(tokens, updated)
    }

    constructor (settings: Settings, now: real)
      ensures this.settings == settings && View() == Bucket(settings.capacity, now)
    {
      this.settings, tokens, updated := settings, settings.capacity, now;
    }

    method TakeFrom(cost: real, now: real) returns (ok: bool)
      modifies this
      ensures (View(), ok) == Take(settings, old(View()), cost, now)
    {
      var elapsed := Max(0.0, now - updated);
      tokens := Min(settings.capacity, tokens + elapsed * settings.rate);
      updated := now;
      if tokens < cost {
        return false;
      }
      tokens := tokens - cost;
      ok := true;
    }
  }

  class Limiter {
    const settings: Settings
    var buckets: map<Source, TokenBucket>
    /** What the buckets hold, and which key each belongs to. */
    ghost var levels: Table
    ghost var owner: map<TokenBucket, Source>

    ghost predicate Valid()
      reads this, owner.Keys
    {
      && buckets.Keys == levels.Keys
      && forall k | k in buckets ::
           && buckets[k] in owner && owner[buckets[k]] == k
           && buckets[k].settings == settings && buckets[k].View() == levels[k]
    }

    constructor (settings: Settings)
      ensures Valid() && this.settings == settings && levels == map[] && owner == map[]
    {
      this.settings, buckets, levels, owner := settings, map[], map[], map[];
    }

    /** `_sweep`: collect the stale keys, then delete them. */
    method SweepAll(now: real)
      requires Valid()
      modifies this`buckets, this`levels
      ensures Valid() && levels == Sweep(settings, old(levels), now)
    {
      var stale := map k | k in buckets && now - buckets[k].updated > settings.idleTimeout :: true;
      buckets := buckets - stale.Keys;
      levels := levels - stale.Keys;
      assert levels == Sweep(settings, old(levels), now);
    }

    lemma ValidKeys()
      requires Valid()
      ensures buckets.Keys == levels.Keys
    {
    }

    /** The key's bucket, made if there is room. */
    method Find(key: Source, now: real) returns (room: bool)
      requires Valid()
      modifies this
      ensures Valid() && (levels, room) == Admit(settings, old(levels), key, now)
      ensures room ==> key in buckets
      ensures forall b | b in owner && b !in old(owner) :: fresh(b)
    {
      hide Sweep, Valid;
      ValidKeys();
      SameSize(buckets, levels);
      if key in buckets {
        return true;
      }
      if |buckets| >= settings.maxKeys {
        SweepOnlyForgets(settings, levels, now);
        SweepAll(now);
        ValidKeys();
        SameSize(buckets, levels);
      }
      if |buckets| >= settings.maxKeys {
        return false;
      }
      Make(key, now);
      room := true;
    }

    method Make(key: Source, now: real)
      requires Valid() && key !in buckets
      modifies this
      ensures Valid() && key in buckets && levels == old(levels)[key := Bucket(settings.capacity, now)]
      ensures forall b | b in owner && b !in old(owner) :: fresh(b)
    {
      var b := new TokenBucket(settings, now);
      buckets := buckets[key := b];
      levels := levels[key := b.View()];
      owner := owner[b := key];
    }

    method AllowOne(key: Source, cost: real, now: real) returns (ok: bool)
      requires Valid()
      modifies this, owner.Keys
      ensures Valid() && (levels, ok) == Do(settings, old(levels), Allow(key, cost, now))
      ensures forall b | b in owner && b !in old(owner) :: fresh(b)
    {
      hide Take, Admit;
      var room := Find(key, now);
      if !room {
        return false;
      }
      var bucket := buckets[key];
      ok := bucket.TakeFrom(cost, now);
      levels := levels[key := bucket.View()];
    }

    method ResetOne(key: Source)
      requires Valid()
      modifies this`buckets, this`levels
      ensures Valid() && levels == Do(settings, old(levels), Reset(key, 0.0)).0
    {
      buckets := buckets - {key};
      levels := levels - {key};
    }
  }

  lemma SameSize<K, V, W>(a: map<K, V>, b: map<K, W>)
    requires a.Keys == b.Keys
    ensures |a| == |b|
  {
    assert |a| == |a.Keys| && |b| == |b.Keys|;
  }
}
