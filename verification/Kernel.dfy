/**
 The in-game sync: when a slot's fingerprint table may be trusted, and why a card
 in conflict is never touched again.
 */
module Kernel {
  import opened Bytes
  import opened Bitmaps
  import opened Staging
  import opened Store
  import opened Fingerprint
  import FpStore

  const BITMAP_BYTES := 2048

  /** `ss_slot`, with its share of the fingerprint table. */
  datatype Slot = Slot(
    card: Card,
    parent: nat,
    dirty: bool,
    halted: bool,
    lineage: bool,
    pushedAny: bool,
    fpValid: bool,
    sha: Digest,
    table: seq<u32>)

  /** The table after a scan of `image`: its block hashes where they fit, else untouched. */
  function AfterScan(table: seq<u32>, image: Image): (t: seq<u32>)
    ensures |t| == |table|
  {
    if image == [] || Blocks(|image|) > |table| then table else Table(image) + table[Blocks(|image|)..]
  }

  predicate Tracked(image: Image) {
    ChunkCount(|image|) <= 8 * BITMAP_BYTES
  }

  /**
   How a push ends for the console: the store's answer, none, or an ACK that answers
   something else and names `version`, whether or not the push itself landed.
   */
  datatype Answer = Told | Lost | Mistaken(version: nat, landed: bool)

  /** Reconnecting: the interface or the socket is not there, HELLO goes unanswered, or all is well. */
  datatype Reach = Down | Silent | Up

  /**
   How a head query ends: the server's answer, none, another NACK, or the late answer to
   something else, an ACK or the UNKNOWN_CARD some other query drew.
   */
  datatype HeadAnswer = Head | NoAnswer | OtherNack | StrayAck | StrayUnknown

  /** Any ACK is taken for the commit. */
  function Confirmed(cfg: Config, k: Slot, image: Image, version: nat): Slot
  {
    k.(parent := version, pushedAny := true, fpValid := true, sha := cfg.hash(image))
  }

  /** What the slot makes of the push's outcome. */
  function Heard(cfg: Config, k: Slot, image: Image, o: PushOutcome): Slot
  {
    match o
    case Created(v) => Confirmed(cfg, k, image, v)
    case Unchanged(v) => Confirmed(cfg, k, image, v)
    case Conflict(_) => k.(halted := true)
    case TooLarge => k.(dirty := true)
    case Invalid => k.(dirty := true)
    case NotFound => k.(dirty := true)
  }

  /**
   `ss_push_slot`: scan, distrust the table, reconnect, push, and trust the table again only
   on an ACK. `unknown` says whether the last error the shared client noted is UNKNOWN_CARD:
   reconnecting clears it, but only once the interface and the socket are there.
   */
  function Pushed(cfg: Config, k: Slot, s: State, unknown: bool, image: Image, reach: Reach, answer: Answer)
    : (Slot, State, bool)
  {
    if image == [] then (k, s, unknown)
    else if !Tracked(image) then (k.(halted := true), s, unknown)
    else
      var scanned := k.(dirty := false, table := AfterScan(k.table, image), fpValid := false);
      match reach
      case Down => (scanned.(dirty := true), s, unknown)
      case Silent => (scanned.(dirty := true), s, false)
      case Up =>
        var (t, o) := PushCard(cfg, s, k.card, image, k.parent);
        match answer
        case Told => (Heard(cfg, scanned, image, o), t, false)
        case Lost => (scanned.(dirty := true), t, false)
        case Mistaken(version, landed) => (Confirmed(cfg, scanned, image, version), if landed then t else s, false)
  }

  /**
   `ss_establish_lineage`: a card the server has never seen starts at version 0. A query that
   draws no NACK leaves the last error code as it was, and the code is what is looked at.
   */
  function Established(k: Slot, s: State, unknown: bool, answer: HeadAnswer): (Slot, bool)
  {
    match answer
    case Head =>
      if s.Head(k.card) == 0 then (k.(parent := 0, lineage := true), true) else (k.(halted := true), unknown)
    case NoAnswer => (if unknown then k.(parent := 0, lineage := true) else k, unknown)
    case OtherNack => (k, false)
    case StrayAck => (k.(halted := true), unknown)
    case StrayUnknown => (k.(parent := 0, lineage := true), true)
  }

  /** One turn of the worker for a slot that is quiet and off its cooldown. */
  function Worked(cfg: Config, k: Slot, s: State, unknown: bool, image: Image, head: HeadAnswer, reach: Reach,
                  answer: Answer)
    : (Slot, State, bool)
  {
    if k.halted || !k.dirty then (k, s, unknown)
    else
      var (settled, u) := if k.lineage then (k, unknown) else Established(k, s, unknown, head);
      if settled.halted || !settled.lineage then (settled, s, u)
      else Pushed(cfg, settled, s, u, image, reach, answer)
  }

  /** The slots, and whether the last error their one client noted is UNKNOWN_CARD. */
  datatype Console = Console(slots: seq<Slot>, unknown: bool)

  datatype Event =
    | GameWrites(slot: nat)     // a save lands on a card
    | Elsewhere(op: Op)         // anyone else moves the store
    | Reconnect(reach: Reach)   // the worker connects before its round
    | Turn(slot: nat, image: Image, head: HeadAnswer, reach: Reach, answer: Answer)

  function Next(cfg: Config, c: Console, s: State, e: Event): (Console, State)
  {
    match e
    case GameWrites(i) => (if i < |c.slots| then c.(slots := c.slots[i := c.slots[i].(dirty := true)]) else c, s)
    case Elsewhere(op) => (c, Do(cfg, s, op).0)
    case Reconnect(reach) => (if reach.Down? then c else c.(unknown := false), s)
    case Turn(i, image, head, reach, answer) =>
      if i >= |c.slots| then (c, s)
      else
        var (k, t, u) := Worked(cfg, c.slots[i], s, c.unknown, image, head, reach, answer);
        (Console(c.slots[i := k], u), t)
  }

  function Run(cfg: Config, c: Console, s: State, es: seq<Event>): (Console, State)
    decreases |es|
  {
    if es == [] then (c, s)
    else
      var (d, t) := Next(cfg, c, s, es[0]);
      Run(cfg, d, t, es[1..])
  }

  // ----- what a trusted table means

  /** The slot's parent is on record with the slot's digest, and the table is that image's block hashes. */
  ghost predicate Describes(cfg: Config, s: State, k: Slot, image: Image) {
    && Row(k.card, k.parent) in s.versions
    && s.versions[Row(k.card, k.parent)].sha256 == k.sha == cfg.hash(image)
    && (Blocks(|image|) <= |k.table| ==> k.table[..Blocks(|image|)] == Table(image))
  }

  ghost predicate Trusted(cfg: Config, s: State, k: Slot) {
    && (k.fpValid ==> exists image :: Describes(cfg, s, k, image))
    && (k.fpValid ==> k.lineage)
  }

  lemma TrustLasts(cfg: Config, s: State, t: State, k: Slot)
    requires Extends(s, t) && Trusted(cfg, s, k)
    ensures Trusted(cfg, t, k)
  {
    if k.fpValid {
      var image :| Describes(cfg, s, k, image);
      assert Describes(cfg, t, k, image);
    }
  }

  /** Trust is about the parent, its digest and the table, not the other flags. */
  lemma SameTrust(cfg: Config, s: State, k: Slot, l: Slot)
    requires Trusted(cfg, s, k)
    requires l.card == k.card && l.parent == k.parent && l.sha == k.sha && l.table == k.table && l.fpValid == k.fpValid
    requires k.lineage ==> l.lineage
    ensures Trusted(cfg, s, l)
  {
    if k.fpValid {
      var image :| Describes(cfg, s, k, image);
      assert Describes(cfg, s, l, image);
    }
  }

  lemma NothingMoved(s: State)
    ensures Extends(s, s)
  {
  }

  /** Whatever the console hears, the store moves by one push or not at all. */
  lemma PushMoves(cfg: Config, k: Slot, s: State, unknown: bool, image: Image, reach: Reach, answer: Answer)
    requires Lineage(cfg, s)
    ensures var (l, t, u) := Pushed(cfg, k, s, unknown, image, reach, answer);
            Lineage(cfg, t) && Extends(s, t) && (t == s || t == PushCard(cfg, s, k.card, image, k.parent).0)
  {
    hide Lineage, Extends, PushCard, Table;
    NothingMoved(s);
    PushRecords(cfg, s, k.card, image, k.parent);
  }

  lemma PushKeepsTrust(cfg: Config, k: Slot, s: State, unknown: bool, image: Image, reach: Reach, answer: Answer)
    requires Lineage(cfg, s) && Trusted(cfg, s, k) && k.lineage && !answer.Mistaken?
    ensures var (l, t, u) := Pushed(cfg, k, s, unknown, image, reach, answer); Trusted(cfg, t, l)
  {
    hide Lineage, Extends, PushCard, Table, Trusted;
    PushRecords(cfg, s, k.card, image, k.parent);
    var (l, t, u) := Pushed(cfg, k, s, unknown, image, reach, answer);
    if image == [] || !Tracked(image) {
      SameTrust(cfg, s, k, l);
    } else if l.fpValid {
      assert Describes(cfg, t, l, image);
      DescribedIsTrusted(cfg, t, l, image);
    } else {
      DistrustIsSafe(cfg, t, l);
    }
  }

  /**
   And exactly then: a push that ends in a stray ACK leaves the table trusted if and only
   if the version the ACK happens to name is on record with the image's digest.
   */
  lemma MistakenTrust(cfg: Config, k: Slot, s: State, unknown: bool, image: Image, version: nat, landed: bool)
    requires Lineage(cfg, s) && k.lineage && image != [] && Tracked(image)
    ensures var (l, t, u) := Pushed(cfg, k, s, unknown, image, Up, Mistaken(version, landed));
            var row := Row(k.card, version);
            && l.fpValid && l.parent == version
            && (Trusted(cfg, t, l) <==> row in t.versions && t.versions[row].sha256 == cfg.hash(image))
  {
    hide Lineage, Extends, PushCard, Table;
    var (l, t, u) := Pushed(cfg, k, s, unknown, image, Up, Mistaken(version, landed));
    var row := Row(k.card, version);
    if row in t.versions && t.versions[row].sha256 == cfg.hash(image) {
      assert Describes(cfg, t, l, image);
    }
    if Trusted(cfg, t, l) {
      var other :| Describes(cfg, t, l, other);
    }
  }

  lemma DescribedIsTrusted(cfg: Config, s: State, k: Slot, image: Image)
    requires Describes(cfg, s, k, image) && k.lineage
    ensures Trusted(cfg, s, k)
  {
  }

  lemma DistrustIsSafe(cfg: Config, s: State, k: Slot)
    requires !k.fpValid
    ensures Trusted(cfg, s, k)
  {
  }

  lemma EstablishKeepsTrust(cfg: Config, k: Slot, s: State, unknown: bool, answer: HeadAnswer)
    requires Trusted(cfg, s, k) && !k.lineage
    ensures Trusted(cfg, s, Established(k, s, unknown, answer).0)
  {
    hide Describes;
  }

  lemma WorkMoves(cfg: Config, k: Slot, s: State, unknown: bool, image: Image, head: HeadAnswer, reach: Reach,
                  answer: Answer)
    requires Lineage(cfg, s)
    ensures var (l, t, u) := Worked(cfg, k, s, unknown, image, head, reach, answer); Lineage(cfg, t) && Extends(s, t)
  {
    hide Lineage, Extends, Pushed;
    NothingMoved(s);
    var (settled, u) := if k.lineage then (k, unknown) else Established(k, s, unknown, head);
    PushMoves(cfg, settled, s, u, image, reach, answer);
  }

  lemma WorkKeepsTrust(cfg: Config, k: Slot, s: State, unknown: bool, image: Image, head: HeadAnswer, reach: Reach,
                       answer: Answer)
    requires Lineage(cfg, s) && Trusted(cfg, s, k) && !answer.Mistaken?
    ensures var (l, t, u) := Worked(cfg, k, s, unknown, image, head, reach, answer); Trusted(cfg, t, l)
  {
    hide Lineage, Pushed, Trusted;
    if !k.lineage {
      EstablishKeepsTrust(cfg, k, s, unknown, head);
    }
    var (settled, u) := if k.lineage then (k, unknown) else Established(k, s, unknown, head);
    if settled.lineage {
      PushKeepsTrust(cfg, settled, s, u, image, reach, answer);
    }
  }

  ghost predicate AllTrusted(cfg: Config, c: Console, s: State) {
    forall i | 0 <= i < |c.slots| :: Trusted(cfg, s, c.slots[i])
  }

  /** A stray ACK is taken for the commit of some push. */
  predicate Mistake(e: Event) {
    e.Turn? && e.answer.Mistaken?
  }

  /**
   Whatever else happens, a table marked valid is the block hashes of the image committed
   as its slot's parent.
   */
  lemma NextKeepsTrust(cfg: Config, c: Console, s: State, e: Event)
    requires Lineage(cfg, s) && AllTrusted(cfg, c, s) && !Mistake(e)
    ensures var (d, t) := Next(cfg, c, s, e); Lineage(cfg, t) && Extends(s, t) && AllTrusted(cfg, d, t)
  {
    hide Lineage, Extends, Worked, Trusted;
    NothingMoved(s);
    var (d, t) := Next(cfg, c, s, e);
    match e {
      case GameWrites(i) => if i < |c.slots| { SameTrust(cfg, s, c.slots[i], c.slots[i].(dirty := true)); }
      case Elsewhere(op) => DoKeeps(cfg, s, op);
      case Reconnect(_) =>
      case Turn(i, image, head, reach, answer) =>
        if i < |c.slots| {
          WorkMoves(cfg, c.slots[i], s, c.unknown, image, head, reach, answer);
          WorkKeepsTrust(cfg, c.slots[i], s, c.unknown, image, head, reach, answer);
        }
    }
    forall i | 0 <= i < |d.slots| ensures Trusted(cfg, t, d.slots[i]) {
      if d.slots[i] == c.slots[i] {
        TrustLasts(cfg, s, t, c.slots[i]);
      }
    }
  }

  lemma {:induction false} RunKeepsTrust(cfg: Config, c: Console, s: State, es: seq<Event>)
    requires Lineage(cfg, s) && AllTrusted(cfg, c, s) && forall e | e in es :: !Mistake(e)
    ensures var (d, t) := Run(cfg, c, s, es); Lineage(cfg, t) && Extends(s, t) && AllTrusted(cfg, d, t)
    decreases |es|
  {
    hide Next, AllTrusted, Lineage;
    if es == [] {
      NothingMoved(s);
    } else {
      var (d, t) := Next(cfg, c, s, es[0]);
      assert es[0] in es && forall e | e in es[1..] :: e in es;
      NextKeepsTrust(cfg, c, s, es[0]);
      RunKeepsTrust(cfg, d, t, es[1..]);
      ExtendsChains(s, t, Run(cfg, c, s, es).1);
    }
  }

  /** A conflict is for good: once halted, no turn of the worker touches the store or the slot again. */
  lemma {:induction false} HaltedIsPermanent(cfg: Config, c: Console, s: State, es: seq<Event>, i: nat)
    requires i < |c.slots| && c.slots[i].halted
    ensures var (d, t) := Run(cfg, c, s, es);
            && |d.slots| == |c.slots| && d.slots[i] == c.slots[i].(dirty := d.slots[i].dirty)
            && ((forall e | e in es :: !e.Elsewhere? && (e.Turn? ==> e.slot == i)) ==> t == s)
    decreases |es|
  {
    hide Pushed, Established;
    if es != [] {
      var (d, t) := Next(cfg, c, s, es[0]);
      assert d.slots[i] == c.slots[i].(dirty := d.slots[i].dirty);
      assert es[0] in es && forall e | e in es[1..] :: e in es;
      HaltedIsPermanent(cfg, d, t, es[1..], i);
    }
  }

  /** A push that hears of a conflict halts the slot and leaves the store alone. */
  lemma ConflictHalts(cfg: Config, k: Slot, s: State, unknown: bool, image: Image)
    requires Lineage(cfg, s) && image != [] && Tracked(image) && PushCard(cfg, s, k.card, image, k.parent).1.Conflict?
    ensures var (l, t, u) := Pushed(cfg, k, s, unknown, image, Up, Told); l.halted && !l.fpValid && t == s
  {
    PushRule(cfg, s, k.card, image, k.parent);
  }

  // ----- a card with no recorded parent

  /**
   Version 0 against a card the server has never overwrites anything, however it came to be
   adopted: no push moves the store, and one that hears the store's answer halts, unless the
   card is already head byte for byte or is not one the store would take.
   */
  lemma ZeroNeverOverwrites(cfg: Config, k: Slot, s: State, unknown: bool, image: Image, reach: Reach, answer: Answer)
    requires Lineage(cfg, s) && k.parent == 0 && s.Head(k.card) != 0
    ensures var (l, t, u) := Pushed(cfg, k, s, unknown, image, reach, answer);
            && t == s
            && (reach.Up? && answer.Told? && image != [] && Tracked(image) ==>
                  || l.halted
                  || (l.parent == s.Head(k.card) && s.versions[Row(k.card, l.parent)].sha256 == cfg.hash(image))
                  || ((|image| > cfg.maxCardBytes || !cfg.valid(image)) && l.dirty))
  {
    PushRule(cfg, s, k.card, image, k.parent);
    HeadIsNewest(cfg, s, k.card);
  }

  /** A slot's query for its card's head is made, and the client notes UNKNOWN_CARD. */
  predicate DrewUnknown(c: Console, s: State, e: Event) {
    e.Turn? && Asks(c, e)
    && ((e.head.Head? && s.Head(c.slots[e.slot].card) == 0) || e.head.StrayUnknown?)
  }

  /** The turn asks for a head: a slot to be pushed that has no parent yet. */
  predicate Asks(c: Console, e: Event) {
    e.Turn? && e.slot < |c.slots|
    && !c.slots[e.slot].lineage && !c.slots[e.slot].halted && c.slots[e.slot].dirty
  }

  /** When one turn gives a slot its parent: an UNKNOWN_CARD, or none and the code of an earlier one. */
  lemma AdoptsZero(cfg: Config, c: Console, s: State, e: Event)
    requires Asks(c, e)
    ensures var k := Next(cfg, c, s, e).0.slots[e.slot];
            && (k.lineage <==> DrewUnknown(c, s, e) || (e.head.NoAnswer? && c.unknown))
            && (e.head.StrayAck? || (e.head.Head? && s.Head(c.slots[e.slot].card) != 0) ==> k.halted)
    ensures var adopted := Established(c.slots[e.slot], s, c.unknown, e.head).0; adopted.lineage ==> adopted.parent == 0
  {
    hide PushCard, AfterScan;
  }

  /** The console and the store after the first `n` events. */
  function At(cfg: Config, c: Console, s: State, es: seq<Event>, n: nat): (Console, State)
    requires n <= |es|
  {
    Run(cfg, c, s, es[..n])
  }

  lemma {:induction false} AtNext(cfg: Config, c: Console, s: State, es: seq<Event>, n: nat)
    requires n < |es|
    ensures At(cfg, c, s, es, n + 1) == Next(cfg, At(cfg, c, s, es, n).0, At(cfg, c, s, es, n).1, es[n])
    decreases |es|
  {
    hide Next;
    var (d, t) := Next(cfg, c, s, es[0]);
    if n == 0 {
      assert es[..1] == [es[0]] && es[..1][1..] == [] && es[..0] == [];
      assert Run(cfg, c, s, es[..1]) == Run(cfg, d, t, []);
    } else {
      AtNext(cfg, d, t, es[1..], n - 1);
      assert es[..n + 1][1..] == es[1..][..n] && es[..n][1..] == es[1..][..n - 1];
    }
  }

  /** The query of event `n` drew the code, and it stood at least until event `m`. */
  predicate LeftBehind(cfg: Config, c: Console, s: State, es: seq<Event>, n: nat, m: nat)
    requires n <= m < |es|
  {
    var (d, t) := At(cfg, c, s, es, n);
    DrewUnknown(d, t, es[n]) && forall k: nat | n < k <= m :: At(cfg, c, s, es, k).0.unknown
  }

  /**
   Over a run that starts without the code: a slot adopts version 0 only because a query drew
   UNKNOWN_CARD, its own in that turn, or, its own drawing nothing, one left behind by an
   earlier query of whichever slot, with nothing in between that clears it.
   */
  lemma AdoptedBecause(cfg: Config, c: Console, s: State, es: seq<Event>, i: nat)
    requires !c.unknown && i < |c.slots| && !c.slots[i].lineage
    requires i < |Run(cfg, c, s, es).0.slots| && Run(cfg, c, s, es).0.slots[i].lineage
    ensures exists n: nat, m: nat :: n <= m < |es| && es[m].Turn? && es[m].slot == i
                                  && LeftBehind(cfg, c, s, es, n, m) && (n == m || es[m].head.NoAnswer?)
  {
    hide Next, Run, LeftBehind;
    assert es[..|es|] == es && es[..0] == [];
    assert Run(cfg, c, s, []) == (c, s) by { RunNothing(cfg, c, s); }
    var m := AdoptingTurn(cfg, c, s, es, |es|, i);
    var n := CodeSource(cfg, c, s, es, m);
  }

  lemma RunNothing(cfg: Config, c: Console, s: State)
    ensures Run(cfg, c, s, []) == (c, s)
  {
  }

  /** The turn in which a slot gets its parent. */
  lemma {:induction false} AdoptingTurn(cfg: Config, c: Console, s: State, es: seq<Event>, n: nat, i: nat)
    returns (m: nat)
    requires n <= |es| && i < |c.slots| && !c.slots[i].lineage && At(cfg, c, s, es, 0) == (c, s)
    requires i < |At(cfg, c, s, es, n).0.slots| && At(cfg, c, s, es, n).0.slots[i].lineage
    ensures m < n && es[m].Turn? && es[m].slot == i
    ensures var (d, t) := At(cfg, c, s, es, m);
            Asks(d, es[m]) && (DrewUnknown(d, t, es[m]) || (es[m].head.NoAnswer? && d.unknown))
    decreases n
  {
    hide Next, Asks, DrewUnknown;
    var (d, t) := At(cfg, c, s, es, n - 1);
    AtNext(cfg, c, s, es, n - 1);
    SameSlots(cfg, d, t, es[n - 1], i);
    if d.slots[i].lineage {
      m := AdoptingTurn(cfg, c, s, es, n - 1, i);
    } else {
      m := n - 1;
    }
  }

  /** A slot gets a parent only in a turn of its own that asks for it. */
  lemma SameSlots(cfg: Config, c: Console, s: State, e: Event, i: nat)
    requires i < |Next(cfg, c, s, e).0.slots|
    ensures i < |c.slots|
    ensures Next(cfg, c, s, e).0.slots[i].lineage && !c.slots[i].lineage ==>
              e.Turn? && e.slot == i && Asks(c, e) && (DrewUnknown(c, s, e) || (e.head.NoAnswer? && c.unknown))
  {
    hide PushCard, AfterScan, Do;
  }

  /** Where the code a turn finds comes from, if not from its own query. */
  lemma {:induction false} CodeSource(cfg: Config, c: Console, s: State, es: seq<Event>, m: nat) returns (n: nat)
    requires !c.unknown && m < |es| && At(cfg, c, s, es, 0) == (c, s)
    requires var (d, t) := At(cfg, c, s, es, m); DrewUnknown(d, t, es[m]) || d.unknown
    ensures n <= m && LeftBehind(cfg, c, s, es, n, m)
    ensures DrewUnknown(At(cfg, c, s, es, m).0, At(cfg, c, s, es, m).1, es[m]) ==> n == m
    decreases m
  {
    hide Next, DrewUnknown, At;
    var (d, t) := At(cfg, c, s, es, m);
    n := m;
    if !DrewUnknown(d, t, es[m]) {
      var (b, u) := At(cfg, c, s, es, m - 1);
      AtNext(cfg, c, s, es, m - 1);
      CodeComes(cfg, b, u, es[m - 1]);
      n := CodeSource(cfg, c, s, es, m - 1);
    }
  }

  lemma CodeComes(cfg: Config, c: Console, s: State, e: Event)
    ensures Next(cfg, c, s, e).0.unknown ==> c.unknown || DrewUnknown(c, s, e)
  {
    hide PushCard, AfterScan, Do;
  }

  /**
   The stale code does get there. One slot learns that its card is unknown and then cannot
   reconnect; the other's query draws nothing; the other starts at version 0 although the
   server has its card. Nothing is overwritten, and its next heard push halts it.
   */
  lemma StaleCodeAdopts(cfg: Config, c: Console, s: State, image: Image, other: Image)
    requires Lineage(cfg, s) && |c.slots| == 2 && image != [] && Tracked(image)
    requires forall i | 0 <= i < 2 :: !c.slots[i].lineage && !c.slots[i].halted && c.slots[i].dirty
    requires s.Head(c.slots[0].card) == 0 && s.Head(c.slots[1].card) != 0
    requires other != [] && Tracked(other) && |other| <= cfg.maxCardBytes && cfg.valid(other)
    requires s.versions[Row(c.slots[1].card, s.Head(c.slots[1].card))].sha256 != cfg.hash(other)
    ensures var es := [Turn(0, image, Head, Down, Lost), Turn(1, other, NoAnswer, Down, Lost)];
            var (d, t) := Run(cfg, c, s, es);
            && |d.slots| == 2 && d.slots[1].lineage && d.slots[1].parent == 0 && !d.slots[1].halted && t == s
            && Pushed(cfg, d.slots[1], t, d.unknown, other, Up, Told).0.halted
  {
    hide PushCard, AfterScan;
    var es := [Turn(0, image, Head, Down, Lost), Turn(1, other, NoAnswer, Down, Lost)];
    var (c1, s1) := Next(cfg, c, s, es[0]);
    assert c1.unknown && s1 == s && c1.slots[1] == c.slots[1];
    var (c2, s2) := Next(cfg, c1, s1, es[1]);
    assert c2.slots[1].lineage && c2.slots[1].parent == 0 && s2 == s;
    assert es[1..] == [es[1]] && es[1..][1..] == [];
    assert Run(cfg, c, s, es) == Run(cfg, c1, s1, es[1..]) == Run(cfg, c2, s2, []);
    ZeroNeverOverwrites(cfg, c2.slots[1], s, c2.unknown, other, Up, Told);
    HeadIsNewest(cfg, s, c.slots[1].card);
    PushRule(cfg, s, c.slots[1].card, other, 0);
  }

  // ----- what trust buys

  /**
   A delta built from a trusted table against a server seeded from the slot's parent
   rebuilds the card exactly, when no changed block's fingerprint collides.
   */
  lemma TrustedDeltaRebuilds(cfg: Config, s: State, k: Slot, image: Image, seed: Image)
    requires Trusted(cfg, s, k) && k.fpValid && Lineage(cfg, s)
    requires forall a, b :: cfg.hash(a) == cfg.hash(b) ==> a == b
    requires s.Read(k.card, k.parent) == Some(seed) && |seed| == |image| && Blocks(|image|) <= |k.table|
    requires NoCollision(image, seed)
    ensures DirtyChunks(image, k.table) == DirtyChunks(image, Table(seed))
    ensures Overlay(seed, image, DirtyChunks(image, k.table)) == image
  {
    var parent :| Describes(cfg, s, k, parent);
    assert seed == parent;
    SameStale(image, k.table, Table(seed));
    DirtyChunksRebuildCard(image, seed);
  }

  lemma SameStale(image: Image, a: seq<u32>, b: seq<u32>)
    requires Blocks(|image|) <= |a| && Blocks(|image|) == |b| && a[..Blocks(|image|)] == b
    ensures DirtyChunks(image, a) == DirtyChunks(image, b)
  {
    forall block: nat | block < Blocks(|image|) ensures a[block] == b[block] {
      assert a[..Blocks(|image|)][block] == b[block];
    }
    assert Stale(image, a) == Stale(image, b);
  }

  /**
   A card too large for the slot's share is the exception: a confirmed push marks its
   table valid although the scan never wrote one. No delta is ever built from it.
   */
  lemma OversizeIsMarkedValid(cfg: Config, k: Slot, s: State, unknown: bool, image: Image)
    requires Lineage(cfg, s) && Blocks(|image|) > |k.table| && image != [] && Tracked(image)
    requires PushCard(cfg, s, k.card, image, k.parent).1.Created?
    ensures var l := Pushed(cfg, k, s, unknown, image, Up, Told).0; l.fpValid && l.table == k.table
  {
  }

  // ----- loading the launcher's table at start

  /** A record that tells the truth: its table is the block hashes of an image of its size and digest. */
  ghost predicate HonestEntry(cfg: Config, e: FpStore.Entry) {
    exists image: Image :: |image| == e.rec.size && cfg.hash(image) == e.rec.sha &&
      FpStore.Values(e.values) == Table(image)
  }

  /**
   `SlotSync_Init`: a slot whose parent and digest the state file gives, with the table
   the sliced loader accepted, starts out trusted, if state file and record are honest
   and the state file has a digest to compare with.
   */
  lemma InitIsTrusted(cfg: Config, s: State, k: Slot, file: Option<seq<byte>>, gameId: FpStore.Id, slot: byte,
                      parent: u32, size: u32, sha: FpStore.Sha, share: nat)
    requires var e := FpStore.Loadable(file, gameId, slot, parent, size, sha, share);
             && e.Some? && HonestEntry(cfg, e.value) && !FpStore.AllZero(sha)
             && |k.table| == share >= e.value.rec.blocks &&
                FpStore.Values(e.value.values) == k.table[..e.value.rec.blocks]
    requires k.lineage && k.parent == parent && k.sha == sha
    requires Row(k.card, k.parent) in s.versions && s.versions[Row(k.card, k.parent)].sha256 == k.sha
    ensures Trusted(cfg, s, k)
  {
    var e := FpStore.Loadable(file, gameId, slot, parent, size, sha, share).value;
    var image: Image :| |image| == e.rec.size && cfg.hash(image) == e.rec.sha &&
      FpStore.Values(e.values) == Table(image);
    assert Describes(cfg, s, k, image);
  }

  // ----- the slot itself

  /** The one client both slots share; all that matters of it here is its last error code. */
  class NetClient {
    var unknown: bool

    constructor ()
      ensures !unknown
    {
      unknown := false;
    }
  }

  class SyncSlot {
    const card: Card
    var parent: nat
    var dirty: bool
    var halted: bool
    var lineage: bool
    var pushedAny: bool
    var fpValid: bool
    var sha: Digest
    const fingerprints: array<u32>
    const dirtyMap: array<byte>

    ghost function View(): Slot
      reads this, fingerprints
    {
      Slot(card, parent, dirty, halted, lineage, pushedAny, fpValid, sha, fingerprints[..])
    }

    constructor (card: Card, share: nat)
      ensures this.card == card && fresh(fingerprints) && fresh(dirtyMap) && dirtyMap.Length == BITMAP_BYTES
      ensures View() == Slot(card, 0, false, false, false, false, false, Zeros(32), fingerprints[..])
    {
      this.card := card;
      parent, dirty, halted, lineage, pushedAny, fpValid, sha := 0, false, false, false, false, false, Zeros(32);
      fingerprints := new u32[share](_ => 0);
      dirtyMap := new byte[BITMAP_BYTES](_ => 0);
    }

    /** The scan, and whether its answer may be used; the table is distrusted either way. */
    method ScanCard(image: Image) returns (useDelta: bool)
      requires image != [] && Tracked(image) && dirtyMap.Length == BITMAP_BYTES
      modifies this`fpValid, fingerprints, dirtyMap
      ensures !fpValid && fingerprints[..] == AfterScan(old(fingerprints[..]), image)
      ensures useDelta ==> old(fpValid) && Blocks(|image|) <= fingerprints.Length
                           && SameBits(dirtyMap[..], 8 * BytesFor(ChunkCount(|image|)),
                              DirtyChunks(image, old(fingerprints[..])))
    {
      hide SameBits, DirtyChunks, Table;
      var marked := Scan(image, fingerprints, dirtyMap);
      useDelta := fpValid && marked >= 0 && Worthwhile(marked, ChunkCount(|image|));
      fpValid := false;
    }

    method PushSlot(hub: Database, client: NetClient, image: Image, reach: Reach, answer: Answer)
      returns (useDelta: bool)
      requires dirtyMap.Length == BITMAP_BYTES && Normalise(card.gameId, card.slot) == Some(card)
      modifies this, fingerprints, dirtyMap, hub, client
      ensures (View(), hub.View(), client.unknown)
           == Pushed(hub.config, old(View()), old(hub.View()), old(client.unknown), image, reach, answer)
      ensures useDelta ==>
                && old(fpValid) && Blocks(|image|) <= fingerprints.Length
                && SameBits(dirtyMap[..], 8 * BytesFor(ChunkCount(|image|)), DirtyChunks(image, old(fingerprints[..])))
    {
      hide SameBits, DirtyChunks, Table, PushCard, AfterScan, Heard, Confirmed;
      if image == [] {
        return false;
      }
      if ChunkCount(|image|) > 8 * BITMAP_BYTES {
        halted := true;
        return false;
      }
      dirty := false;
      useDelta := ScanCard(image);
      if reach == Down {
        dirty := true;
        return;
      }
      client.unknown := false;
      if reach == Silent {
        dirty := true;
        return;
      }
      Conclude(hub, image, answer);
    }

    /** The push itself, and what its end is taken for. */
    method Conclude(hub: Database, image: Image, answer: Answer)
      requires Normalise(card.gameId, card.slot) == Some(card)
      modifies this, hub
      ensures var (t, o) := PushCard(hub.config, old(hub.View()), card, image, old(parent));
              match answer
              case Told => View() == Heard(hub.config, old(View()), image, o) && hub.View() == t
              case Lost => View() == old(View()).(dirty := true) && hub.View() == t
              case Mistaken(version, landed) =>
                && View() == Confirmed(hub.config, old(View()), image, version)
                && hub.View() == if landed then t else old(hub.View())
    {
      hide PushCard;
      if answer.Mistaken? && !answer.landed {
        Confirm(answer.version, hub.config.hash(image));
        return;
      }
      var o := hub.Push(card.gameId, card.slot, image, parent);
      match answer
      case Told => Hear(hub.config, image, o);
      case Lost => dirty := true;
      case Mistaken(version, _) => Confirm(version, hub.config.hash(image));
    }

    /** A confirmed commit is trusted, a conflict is final, anything else is tried again. */
    method Hear(config: Config, image: Image, o: PushOutcome)
      modifies this
      ensures View() == Heard(config, old(View()), image, o)
    {
      match o
      case Created(v) => Confirm(v, config.hash(image));
      case Unchanged(v) => Confirm(v, config.hash(image));
      case Conflict(_) => halted := true;
      case _ => dirty := true;
    }

    method Confirm(version: nat, digest: Digest)
      modifies this`parent, this`pushedAny, this`fpValid, this`sha
      ensures View() == old(View()).(parent := version, pushedAny := true, fpValid := true, sha := digest)
    {
      parent, pushedAny, fpValid, sha := version, true, true, digest;
    }

    /** One turn of the worker: settle the lineage first, and only then push. */
    method Work(hub: Database, client: NetClient, image: Image, head: HeadAnswer, reach: Reach, answer: Answer)
      requires dirtyMap.Length == BITMAP_BYTES && Normalise(card.gameId, card.slot) == Some(card)
      modifies this, fingerprints, dirtyMap, hub, client
      ensures (View(), hub.View(), client.unknown)
           == Worked(hub.config, old(View()), old(hub.View()), old(client.unknown), image, head, reach, answer)
    {
      hide Pushed;
      if halted || !dirty {
        return;
      }
      if !lineage {
        EstablishLineage(hub, client, head);
        if halted || !lineage {
          return;
        }
      }
      var _ := PushSlot(hub, client, image, reach, answer);
    }

    method EstablishLineage(hub: Database, client: NetClient, head: HeadAnswer)
      modifies this`parent, this`lineage, this`halted, client
      ensures (View(), client.unknown) == Established(old(View()), hub.View(), old(client.unknown), head)
    {
      if head == Head {
        var version := hub.Head(card);
        if version != 0 {
          halted := true;
          return;
        }
        client.unknown := true;
      } else if head == StrayAck {
        halted := true;
        return;
      } else {
        client.unknown := head == StrayUnknown || (head == NoAnswer && client.unknown);
      }
      if client.unknown {
        parent, lineage := 0, true;
      }
    }
  }
}
