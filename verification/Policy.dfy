/**
 One store and any number of launchers and Dolphin clients that edit, push, pull,
 crash and roll back: what each of them records, and what it may overwrite.
 */
module Policy {
  import opened Bytes
  import opened Store

  type ClientId = nat

  /** The digest of a record that has never had one. No card hashes to it. */
  const UNSET: Digest := Zeros(32)

  /** What a client last agreed with the server; `known` is the launcher's flag. */
  datatype Agreed = Agreed(version: nat, known: bool, sha: Digest)

  /** How far through a sync a client is. */
  datatype Phase =
    | Resting
    | Headed(version: nat)                  // launcher: asked for the server's head
    | Ready(version: nat)                   // launcher: pushed, or had nothing to push
    | Detailed(version: nat, sha: Digest)   // Dolphin: has the head's version and digest
    | Checked(sha: Digest, raced: bool)     // Dolphin: decided to pull; `raced` if the card changed since

  /** One device's copy of one card: the file, its .bak, and the record in memory and on disk. */
  datatype Client = Client(
    dolphin: bool,
    card: Card,
    disk: Option<Image>,
    bak: Option<Image>,
    entry: Agreed,
    saved: Agreed,
    phase: Phase)

  datatype Backup = Written | Refused | Partial

  /**
   What a launcher hears of its push: the store's answer, nothing, or an ACK that answers
   something else and names `version`, whether or not the push itself landed.
   */
  datatype Answer = Told | Lost | Mistaken(version: nat, landed: bool)

  /**
   How a launcher's pull of head ends: it fails, it brings some version the store has, or it
   brings what no version need be, put together from several or named by a stray ACK.
   */
  datatype Pulled = Fails | Whole(version: nat) | Mixed(image: Image, version: nat)

  datatype System = System(store: State, clients: map<ClientId, Client>)

  // ----- the launcher's sync, in the steps other clients can get between

  /** Reading the card and asking for head; `told` is what came back, 0 for a card the server does not know. */
  function AskHead(c: Client, told: nat): Client
  {
    if c.phase.Resting? && c.disk.Some? && c.disk.value != [] then c.(phase := Headed(told)) else c
  }

  /** Whether the launcher has something to push. */
  predicate Changed(cfg: Config, c: Client)
  {
    c.disk.Some? && (!c.entry.known || cfg.hash(c.disk.value) != c.entry.sha)
  }

  /** What the launcher does with the push's outcome, if it hears it. */
  function Answered(cfg: Config, c: Client, o: PushOutcome, takeTheirs: bool, backup: Backup): Client
    requires c.disk.Some?
  {
    match o
    case Created(v) => c.(entry := Agreed(v, true, cfg.hash(c.disk.value)), phase := Ready(v))
    case Unchanged(v) => c.(entry := Agreed(v, true, cfg.hash(c.disk.value)), phase := Ready(v))
    case Conflict(head) =>
      if !takeTheirs || backup.Refused? then c.(phase := Resting)
      else if backup.Partial? then c.(phase := Resting, bak := None)
      else c.(phase := Ready(head), bak := c.disk)
    case _ => c.(phase := Resting)
  }

  /** Any ACK is taken for the commit: the version it names is recorded with the card's digest. */
  function Believed(cfg: Config, c: Client, version: nat): Client
    requires c.disk.Some?
  {
    c.(entry := Agreed(version, true, cfg.hash(c.disk.value)), phase := Ready(version))
  }

  /** Push if the card is not what was last agreed; the reply may be lost after the server acted. */
  function PushCardOf(cfg: Config, c: Client, s: State, answer: Answer, takeTheirs: bool, backup: Backup)
    : (Client, State)
  {
    if !c.phase.Headed? then (c, s)
    else if !Changed(cfg, c) then (c.(phase := Ready(c.phase.version)), s)
    else
      var (t, o) := PushCard(cfg, s, c.card, c.disk.value, c.entry.version);
      match answer
      case Told => (Answered(cfg, c, o, takeTheirs, backup), t)
      case Lost => (c.(phase := Resting), t)
      case Mistaken(version, landed) => (Believed(cfg, c, version), if landed then t else s)
  }

  /** Pull if the server is ahead; whatever comes is written and its digest recorded. */
  function PullCardOf(cfg: Config, c: Client, s: State, pull: Pulled): Client
  {
    if !c.phase.Ready? then c
    else if c.phase.version <= c.entry.version then c.(phase := Resting)
    else
      match pull
      case Fails => c.(phase := Resting)
      case Whole(version) =>
        (match s.Read(c.card, version)
         case None => c.(phase := Resting)
         case Some(image) => Brought(cfg, c, image, version))
      case Mixed(image, version) => if image == [] then c.(phase := Resting) else Brought(cfg, c, image, version)
  }

  function Brought(cfg: Config, c: Client, image: Image, version: nat): Client
  {
    c.(disk := Some(image), entry := Agreed(version, true, cfg.hash(image)), phase := Resting)
  }

  /** `wii_state_merge_runtime`, one line: the version only moves forward, the digest stays. */
  function MergeLine(c: Client, version: nat): Client
  {
    if !c.phase.Resting? || (c.entry.known && version <= c.entry.version) then c
    else c.(entry := c.entry.(version := version, known := true))
  }

  // ----- Dolphin

  predicate LocalChanges(cfg: Config, c: Client) {
    c.disk.Some? && cfg.hash(c.disk.value) != c.entry.sha
  }

  function AskDetail(c: Client, s: State): Client
  {
    match s.Get(c.card, s.Head(c.card))
    case None => c
    case Some(v) => if c.phase.Resting? then c.(phase := Detailed(s.Head(c.card), v.sha256)) else c
  }

  function Check(cfg: Config, c: Client): Client
  {
    if !c.phase.Detailed? then c
    else if LocalChanges(cfg, c) && cfg.hash(c.disk.value) != c.phase.sha then c.(phase := Resting)
    else if c.disk.Some? && cfg.hash(c.disk.value) == c.phase.sha then
      c.(entry := Agreed(c.phase.version, true, c.phase.sha),
         saved := Agreed(c.phase.version, true, c.phase.sha), phase := Resting)
    else c.(phase := Checked(c.phase.sha, false))
  }

  /** Fetch, compare with the advertised digest, write; `remembered` is false if it dies in between. */
  function Fetch(cfg: Config, c: Client, s: State, heard: bool, remembered: bool): Client
  {
    if !c.phase.Checked? then c
    else
      match s.Read(c.card, s.Head(c.card))
      case None => c.(phase := Resting)
      case Some(image) =>
        if !heard || cfg.hash(image) != c.phase.sha then c.(phase := Resting)
        else
          var now := if remembered then Agreed(s.Head(c.card), true, c.phase.sha) else c.saved;
          c.(disk := Some(image), entry := now, saved := now, phase := Resting)
  }

  function Send(cfg: Config, c: Client, s: State, heard: bool): (Client, State)
  {
    if !c.phase.Resting? || !LocalChanges(cfg, c) then (c, s)
    else
      var (t, o) := PushCard(cfg, s, c.card, c.disk.value, c.entry.version);
      if heard && (o.Created? || o.Unchanged?) then
        var now := Agreed(o.version, true, cfg.hash(c.disk.value));
        (c.(entry := now, saved := now), t)
      else (c, t)
  }

  // ----- whole runs

  datatype Event =
    | Elsewhere(op: Op)                      // a web upload, a rollback, a console pushing mid-game
    | Edit(who: ClientId, image: Image)      // the game writes the card
    | Merge(who: ClientId, version: nat)
    | Save(who: ClientId)
    | Crash(who: ClientId)
    | LauncherHead(who: ClientId, told: nat)  // the head, or what a stray ACK names
    | LauncherPush(who: ClientId, answer: Answer, takeTheirs: bool, backup: Backup)
    | LauncherPull(who: ClientId, pull: Pulled)
    | DolphinDetail(who: ClientId)
    | DolphinCheck(who: ClientId)
    | DolphinFetch(who: ClientId, heard: bool, remembered: bool)
    | DolphinSend(who: ClientId, heard: bool)

  /** The card changes under a client. A console cannot play while the launcher syncs; a PC can. */
  function Played(c: Client, image: Image): Client
  {
    match c.phase
    case Resting => c.(disk := Some(image))
    case Detailed(_, _) => c.(disk := Some(image))
    case Checked(sha, _) => c.(disk := Some(image), phase := Checked(sha, true))
    case _ => c
  }

  /** What one event does to the client it concerns, and to the store. */
  function Move(cfg: Config, c: Client, s: State, e: Event): (Client, State)
  {
    match e
    case Elsewhere(op) => (c, Do(cfg, s, op).0)
    case Edit(_, image) => (Played(c, image), s)
    case Merge(_, version) => (if c.dolphin then c else MergeLine(c, version), s)
    case Save(_) => (c.(saved := c.entry), s)
    case Crash(_) => (c.(entry := c.saved, phase := Resting), s)
    case LauncherHead(_, told) => (if c.dolphin then c else AskHead(c, told), s)
    case LauncherPush(_, answer, takeTheirs, backup) =>
      if c.dolphin then (c, s) else PushCardOf(cfg, c, s, answer, takeTheirs, backup)
    case LauncherPull(_, pull) => (if c.dolphin then c else PullCardOf(cfg, c, s, pull), s)
    case DolphinDetail(_) => (if c.dolphin then AskDetail(c, s) else c, s)
    case DolphinCheck(_) => (if c.dolphin then Check(cfg, c) else c, s)
    case DolphinFetch(_, heard, remembered) => (if c.dolphin then Fetch(cfg, c, s, heard, remembered) else c, s)
    case DolphinSend(_, heard) => if c.dolphin then Send(cfg, c, s, heard) else (c, s)
  }

  function Next(cfg: Config, y: System, e: Event): System
  {
    if e.Elsewhere? then y.(store := Do(cfg, y.store, e.op).0)
    else if e.who !in y.clients then y
    else
      var (c, s) := Move(cfg, y.clients[e.who], y.store, e);
      System(s, y.clients[e.who := c])
  }

  function RunAll(cfg: Config, y: System, es: seq<Event>): System
  {
    if es == [] then y else Next(cfg, RunAll(cfg, y, es[..|es| - 1]), es[|es| - 1])
  }

  // ----- what every run keeps

  /** Some version of the card carries this digest. */
  ghost predicate InHistory(s: State, card: Card, sha: Digest) {
    exists v: nat :: Row(card, v) in s.versions && s.versions[Row(card, v)].sha256 == sha
  }

  ghost predicate Safe(cfg: Config, s: State, card: Card, image: Image) {
    InHistory(s, card, cfg.hash(image))
  }

  ghost predicate Vouched(s: State, card: Card, sha: Digest) {
    sha == UNSET || InHistory(s, card, sha)
  }

  /** What a client's phase promises about the card it is about to overwrite. */
  ghost predicate Poised(cfg: Config, s: State, c: Client) {
    match c.phase
    case Resting => true
    case Headed(_) => !c.dolphin && c.disk.Some?
    case Ready(_) => !c.dolphin && c.disk.Some? && (Safe(cfg, s, c.card, c.disk.value) || c.bak == c.disk)
    case Detailed(_, sha) => c.dolphin && InHistory(s, c.card, sha)
    case Checked(sha, raced) =>
      c.dolphin && InHistory(s, c.card, sha) && (!raced && c.disk.Some? ==> Safe(cfg, s, c.card, c.disk.value))
  }

  ghost predicate Sound(cfg: Config, s: State, c: Client) {
    && Vouched(s, c.card, c.entry.sha) && Vouched(s, c.card, c.saved.sha)
    && Poised(cfg, s, c)
  }

  ghost predicate Keeps(cfg: Config, y: System) {
    && Lineage(cfg, y.store)
    && forall i | i in y.clients :: Sound(cfg, y.store, y.clients[i])
  }

  /** No card hashes to the empty record. */
  ghost predicate NoCardIsUnset(cfg: Config) {
    forall x :: cfg.hash(x) != UNSET
  }

  lemma HistoryLasts(s: State, t: State, card: Card, sha: Digest)
    requires Extends(s, t) && InHistory(s, card, sha)
    ensures InHistory(t, card, sha)
  {
    var v: nat :| Row(card, v) in s.versions && s.versions[Row(card, v)].sha256 == sha;
    assert Row(card, v) in t.versions;
  }

  /** Whatever the rest of the world does to the store, a client stays sound. */
  lemma SoundLasts(cfg: Config, s: State, t: State, c: Client)
    requires Extends(s, t) && Sound(cfg, s, c)
    ensures Sound(cfg, t, c)
  {
    hide InHistory, Extends;
    forall sha | InHistory(s, c.card, sha) ensures InHistory(t, c.card, sha) {
      HistoryLasts(s, t, c.card, sha);
    }
  }

  lemma HeadInHistory(s: State, card: Card)
    requires s.Get(card, s.Head(card)).Some?
    ensures InHistory(s, card, s.Get(card, s.Head(card)).value.sha256)
  {
  }

  /** A version on record reads back as an image of its digest. */
  lemma ReadIsOnRecord(cfg: Config, s: State, card: Card, v: nat)
    requires Lineage(cfg, s) && s.Read(card, v).Some?
    ensures InHistory(s, card, cfg.hash(s.Read(card, v).value)) && s.Read(card, v).value != []
  {
  }

  /** A push the server took leaves the pushed digest on record. */
  lemma PushedIsOnRecord(cfg: Config, s: State, card: Card, data: Image, parent: nat)
    requires Lineage(cfg, s)
    ensures var (t, o) := PushCard(cfg, s, card, data, parent);
            && Lineage(cfg, t) && Extends(s, t)
            && (o.Created? || o.Unchanged? ==> InHistory(t, card, cfg.hash(data)))
  {
    PushRecords(cfg, s, card, data, parent);
  }

  /** Whatever the launcher hears, the store moves by one push or not at all. */
  lemma LauncherPushMoves(cfg: Config, c: Client, s: State, answer: Answer, takeTheirs: bool, backup: Backup)
    requires Lineage(cfg, s)
    ensures var (d, t) := PushCardOf(cfg, c, s, answer, takeTheirs, backup);
            Lineage(cfg, t) && Extends(s, t) && d.disk == c.disk
  {
    hide Lineage, Extends, PushCard;
    EverythingExtends(s);
    if c.phase.Headed? && Changed(cfg, c) {
      PushRecords(cfg, s, c.card, c.disk.value, c.entry.version);
    }
  }

  lemma LauncherPushKeeps(cfg: Config, c: Client, s: State, answer: Answer, takeTheirs: bool, backup: Backup)
    requires Lineage(cfg, s) && Sound(cfg, s, c) && NoCardIsUnset(cfg) && !answer.Mistaken?
    ensures var (d, t) := PushCardOf(cfg, c, s, answer, takeTheirs, backup); Sound(cfg, t, d)
  {
    hide InHistory, Lineage, Extends, PushCard;
    if c.phase.Headed? && Changed(cfg, c) {
      var t := PushCard(cfg, s, c.card, c.disk.value, c.entry.version).0;
      PushedIsOnRecord(cfg, s, c.card, c.disk.value, c.entry.version);
      SoundLasts(cfg, s, t, c);
    }
  }

  lemma EverythingExtends(s: State)
    ensures Extends(s, s)
  {
  }

  lemma PullKeeps(cfg: Config, c: Client, s: State, pull: Pulled)
    requires Lineage(cfg, s) && Sound(cfg, s, c) && !pull.Mixed?
    ensures Sound(cfg, s, PullCardOf(cfg, c, s, pull))
  {
    hide InHistory, Lineage;
    if pull.Whole? && s.Read(c.card, pull.version).Some? {
      ReadIsOnRecord(cfg, s, c.card, pull.version);
    }
  }

  /**
   And with a mixture exactly so far: a sound client that takes one in is sound after if and
   only if the mixture's own digest happens to be on record for the card.
   */
  lemma MixtureIsSound(cfg: Config, c: Client, s: State, image: Image, version: nat)
    requires Sound(cfg, s, c) && NoCardIsUnset(cfg)
    requires c.phase.Ready? && c.phase.version > c.entry.version && image != []
    ensures var d := PullCardOf(cfg, c, s, Mixed(image, version));
            && d.disk == Some(image) && (Sound(cfg, s, d) <==> Safe(cfg, s, c.card, image))
  {
    hide InHistory;
  }

  lemma SendKeeps(cfg: Config, c: Client, s: State, heard: bool)
    requires Lineage(cfg, s) && Sound(cfg, s, c)
    ensures var (d, t) := Send(cfg, c, s, heard);
            Lineage(cfg, t) && Extends(s, t) && Sound(cfg, t, d) && d.disk == c.disk
  {
    hide InHistory, Lineage, Extends, PushCard;
    EverythingExtends(s);
    if c.phase.Resting? && LocalChanges(cfg, c) {
      var t := PushCard(cfg, s, c.card, c.disk.value, c.entry.version).0;
      PushedIsOnRecord(cfg, s, c.card, c.disk.value, c.entry.version);
      SoundLasts(cfg, s, t, c);
    }
  }

  lemma DolphinKeeps(cfg: Config, c: Client, s: State, heard: bool, remembered: bool)
    requires Lineage(cfg, s) && Sound(cfg, s, c) && NoCardIsUnset(cfg) && c.dolphin
    ensures Sound(cfg, s, AskDetail(c, s))
    ensures Sound(cfg, s, Check(cfg, c))
    ensures Sound(cfg, s, Fetch(cfg, c, s, heard, remembered))
  {
    hide InHistory, Lineage;
    if s.Get(c.card, s.Head(c.card)).Some? {
      HeadInHistory(s, c.card);
    }
  }

  /** Some client takes a stray ACK for the commit of its push, or a mixture for a version. */
  predicate Mistake(e: Event) {
    (e.LauncherPush? && e.answer.Mistaken?) || (e.LauncherPull? && e.pull.Mixed?)
  }

  predicate MistakeOf(e: Event, i: ClientId) {
    Mistake(e) && e.who == i
  }

  /** Whatever a client does, history only grows. */
  lemma MoveGrows(cfg: Config, c: Client, s: State, e: Event)
    requires Lineage(cfg, s) && !e.Elsewhere?
    ensures Lineage(cfg, Move(cfg, c, s, e).1) && Extends(s, Move(cfg, c, s, e).1)
  {
    hide InHistory, Lineage, Extends, PushCardOf, PullCardOf, PushCard, AskDetail, Check, Fetch;
    EverythingExtends(s);
    match e {
      case LauncherPush(_, answer, takeTheirs, backup) => LauncherPushMoves(cfg, c, s, answer, takeTheirs, backup);
      case DolphinSend(_, _) =>
        if c.disk.Some? {
          PushRecords(cfg, s, c.card, c.disk.value, c.entry.version);
        }
      case _ =>
    }
  }

  lemma MoveKeeps(cfg: Config, c: Client, s: State, e: Event)
    requires Lineage(cfg, s) && Sound(cfg, s, c) && NoCardIsUnset(cfg) && !e.Elsewhere? && !Mistake(e)
    ensures var (d, t) := Move(cfg, c, s, e); Sound(cfg, t, d)
  {
    hide InHistory, Lineage, Extends, PushCardOf, PullCardOf, Send, AskDetail, Check, Fetch;
    match e {
      case LauncherPush(_, answer, takeTheirs, backup) => LauncherPushKeeps(cfg, c, s, answer, takeTheirs, backup);
      case LauncherPull(_, pull) => PullKeeps(cfg, c, s, pull);
      case DolphinSend(_, heard) => SendKeeps(cfg, c, s, heard);
      case DolphinDetail(_) => if c.dolphin { DolphinKeeps(cfg, c, s, true, true); }
      case DolphinCheck(_) => if c.dolphin { DolphinKeeps(cfg, c, s, true, true); }
      case DolphinFetch(_, heard, remembered) => if c.dolphin { DolphinKeeps(cfg, c, s, heard, remembered); }
      case _ =>
    }
  }

  lemma NextGrows(cfg: Config, y: System, e: Event)
    requires Lineage(cfg, y.store)
    ensures Lineage(cfg, Next(cfg, y, e).store) && Extends(y.store, Next(cfg, y, e).store)
    ensures Next(cfg, y, e).clients.Keys == y.clients.Keys
  {
    hide Lineage, Extends, Move;
    EverythingExtends(y.store);
    if e.Elsewhere? {
      DoKeeps(cfg, y.store, e.op);
    } else if e.who in y.clients {
      MoveGrows(cfg, y.clients[e.who], y.store, e);
    }
  }

  /** A client that is sound stays sound through anything but a mistake of its own. */
  lemma ClientKeeps(cfg: Config, y: System, e: Event, i: ClientId)
    requires Lineage(cfg, y.store) && NoCardIsUnset(cfg)
    requires i in y.clients && Sound(cfg, y.store, y.clients[i]) && !MistakeOf(e, i)
    ensures Sound(cfg, Next(cfg, y, e).store, Next(cfg, y, e).clients[i])
  {
    hide Lineage, Extends, Sound, Move;
    var z := Next(cfg, y, e);
    NextGrows(cfg, y, e);
    if !e.Elsewhere? && e.who == i {
      MoveKeeps(cfg, y.clients[i], y.store, e);
    } else {
      SoundLasts(cfg, y.store, z.store, y.clients[i]);
    }
  }

  /** Every step of the whole system without a mistake keeps every client sound. */
  lemma NextKeeps(cfg: Config, y: System, e: Event)
    requires Keeps(cfg, y) && NoCardIsUnset(cfg) && !Mistake(e)
    ensures Keeps(cfg, Next(cfg, y, e)) && Extends(y.store, Next(cfg, y, e).store)
  {
    hide Lineage, Extends, Sound, Next;
    NextGrows(cfg, y, e);
    forall i | i in Next(cfg, y, e).clients ensures Sound(cfg, Next(cfg, y, e).store, Next(cfg, y, e).clients[i]) {
      ClientKeeps(cfg, y, e, i);
    }
  }

  lemma {:induction false} RunGrows(cfg: Config, y: System, es: seq<Event>)
    requires Lineage(cfg, y.store)
    ensures Lineage(cfg, RunAll(cfg, y, es).store) && Extends(y.store, RunAll(cfg, y, es).store)
    ensures RunAll(cfg, y, es).clients.Keys == y.clients.Keys
  {
    hide Next, Lineage;
    if es == [] {
      EverythingExtends(y.store);
    } else {
      var before := RunAll(cfg, y, es[..|es| - 1]);
      RunGrows(cfg, y, es[..|es| - 1]);
      NextGrows(cfg, before, es[|es| - 1]);
      ExtendsChains(y.store, before.store, RunAll(cfg, y, es).store);
    }
  }

  /** Over any run a client without mistakes of its own stays sound, whatever the others do. */
  lemma {:induction false} RunKeepsClient(cfg: Config, y: System, es: seq<Event>, i: ClientId)
    requires Lineage(cfg, y.store) && NoCardIsUnset(cfg) && i in y.clients && Sound(cfg, y.store, y.clients[i])
    requires forall e | e in es :: !MistakeOf(e, i)
    ensures i in RunAll(cfg, y, es).clients
    ensures Sound(cfg, RunAll(cfg, y, es).store, RunAll(cfg, y, es).clients[i])
  {
    hide Next, Lineage, Sound;
    if es != [] {
      var front, e := es[..|es| - 1], es[|es| - 1];
      var before := RunAll(cfg, y, front);
      assert e in es && forall x | x in front :: x in es;
      RunKeepsClient(cfg, y, front, i);
      RunGrows(cfg, y, front);
      NextGrows(cfg, before, e);
      ClientKeeps(cfg, before, e, i);
    }
  }

  /**
   Every run without a mistake: each client's recorded digest is unset or the digest of
   some stored version.
   */
  lemma RunAllKeeps(cfg: Config, y: System, es: seq<Event>)
    requires Keeps(cfg, y) && NoCardIsUnset(cfg) && forall e | e in es :: !Mistake(e)
    ensures Keeps(cfg, RunAll(cfg, y, es)) && Extends(y.store, RunAll(cfg, y, es).store)
    ensures forall i | i in RunAll(cfg, y, es).clients ::
              var c := RunAll(cfg, y, es).clients[i]; Vouched(RunAll(cfg, y, es).store, c.card, c.entry.sha)
  {
    hide RunAll, Lineage, Poised, Vouched;
    RunGrows(cfg, y, es);
    forall i | i in y.clients ensures Sound(cfg, RunAll(cfg, y, es).store, RunAll(cfg, y, es).clients[i]) {
      RunKeepsClient(cfg, y, es, i);
    }
  }

  /** A system no one has synced yet. */
  ghost predicate Untouched(y: System) {
    && y.store == EMPTY
    && forall i | i in y.clients ::
         y.clients[i].phase.Resting? && y.clients[i].entry.sha == UNSET && y.clients[i].saved.sha == UNSET
  }

  /** So all of this holds from the very start, whatever cards the devices hold. */
  lemma StartsSound(cfg: Config, y: System, es: seq<Event>)
    requires Untouched(y) && NoCardIsUnset(cfg) && forall e | e in es :: !Mistake(e)
    ensures Keeps(cfg, y) && Keeps(cfg, RunAll(cfg, y, es))
  {
    RunAllKeeps(cfg, y, es);
  }

  /** `i`'s card is replaced by this event, and not by the game. */
  predicate Overwrites(cfg: Config, y: System, e: Event, i: ClientId) {
    && i in y.clients && y.clients[i].disk.Some? && !e.Edit?
    && Next(cfg, y, e).clients[i].disk != y.clients[i].disk
  }

  /** The one window: the card changed after Dolphin checked it and before the download landed. */
  predicate Raced(c: Client) {
    c.phase.Checked? && c.phase.raced
  }

  /**
   No save is lost. Whatever a sync overwrites is in the card's history, or was just
   written to the .bak file, unless a PC game wrote the card while Dolphin's pull was
   already past its check.
   */
  lemma NoSaveIsLost(cfg: Config, y: System, e: Event, i: ClientId)
    requires Lineage(cfg, y.store) && NoCardIsUnset(cfg) && Overwrites(cfg, y, e, i)
    requires Sound(cfg, y.store, y.clients[i])
    ensures !Loses(cfg, y, e, i) || Raced(y.clients[i])
  {
    hide InHistory, Lineage, Extends, PushCard;
    var was := y.clients[i];
    assert !e.Elsewhere? && e.who == i;
    OnlyPullsOverwrite(cfg, y, e, i);
  }

  /** The bytes replaced are in no history and in no backup. */
  ghost predicate Loses(cfg: Config, y: System, e: Event, i: ClientId)
    requires Overwrites(cfg, y, e, i)
  {
    var (was, z) := (y.clients[i], Next(cfg, y, e));
    !Safe(cfg, z.store, was.card, was.disk.value) && z.clients[i].bak != was.disk
  }

  /** Only the two pulls replace a card; the launcher's does so when the version it was told of is newer. */
  lemma OnlyPullsOverwrite(cfg: Config, y: System, e: Event, i: ClientId)
    requires Lineage(cfg, y.store) && Overwrites(cfg, y, e, i)
    ensures e.LauncherPull? || e.DolphinFetch?
    ensures Next(cfg, y, e).store == y.store && Next(cfg, y, e).clients[i].bak == y.clients[i].bak
    ensures e.LauncherPull? ==> y.clients[i].phase.Ready? && y.clients[i].phase.version > y.clients[i].entry.version
  {
    hide InHistory, Lineage, Extends, PushCard;
    var was := y.clients[i];
    assert !e.Elsewhere? && e.who == i;
    if e.LauncherPush? {
      LauncherPushMoves(cfg, was, y.store, e.answer, e.takeTheirs, e.backup);
    }
  }

  /**
   So a save can only be lost by a client that took a stray ACK for its commit, or a mixture
   for a version: whatever ran before, if a pull that did not race loses a save, that client
   made such a mistake, and a launcher's was then told of a version newer than it had on record.
   */
  lemma LostOnlyByMistake(cfg: Config, y: System, es: seq<Event>, e: Event, i: ClientId)
    requires Keeps(cfg, y) && NoCardIsUnset(cfg)
    requires var mid := RunAll(cfg, y, es);
             Overwrites(cfg, mid, e, i) && Loses(cfg, mid, e, i) && !Raced(mid.clients[i])
    ensures exists x :: x in es && MistakeOf(x, i)
    ensures var c := RunAll(cfg, y, es).clients[i];
            e.LauncherPull? ==> c.phase.Ready? && c.phase.version > c.entry.version
  {
    hide Next, RunAll, Sound, Lineage, Loses, Raced;
    RunGrows(cfg, y, es);
    OnlyPullsOverwrite(cfg, RunAll(cfg, y, es), e, i);
    if forall x | x in es :: !MistakeOf(x, i) {
      RunKeepsClient(cfg, y, es, i);
      NoSaveIsLost(cfg, RunAll(cfg, y, es), e, i);
    }
  }

  /** One whole sync of a launcher whose card is what it last agreed, told of `head` and brought version `v`. */
  function QuietSync(i: ClientId, head: nat, v: nat): seq<Event>
  {
    [LauncherHead(i, head), LauncherPush(i, Lost, false, Refused), LauncherPull(i, Whole(v))]
  }

  /**
   And then it is. After a stray ACK, whatever the rest of the world did to the store since,
   the next sync destroys the only copy of the card exactly when head has moved past the
   version the ACK named, whichever version it brings.
   */
  lemma MistakenSaveIsLost(cfg: Config, y: System, i: ClientId, v: nat, s: State, u: nat)
    requires Lineage(cfg, s) && i in y.clients && !y.clients[i].dolphin && y.clients[i].phase.Headed?
    requires y.clients[i].disk.Some? && y.clients[i].disk.value != [] && Changed(cfg, y.clients[i])
    requires y.clients[i].bak != y.clients[i].disk && !Safe(cfg, s, y.clients[i].card, y.clients[i].disk.value)
    requires s.Head(y.clients[i].card) > 0 ==> s.Read(y.clients[i].card, u).Some?
    ensures var was := y.clients[i];
            var mid := Next(cfg, Next(cfg, y, LauncherPush(i, Mistaken(v, false), false, Refused)),
                            LauncherPull(i, Fails));
            var end := RunAll(cfg, mid.(store := s), QuietSync(i, s.Head(was.card), u));
            && mid.store == y.store && mid.clients[i].disk == was.disk && i in end.clients
            && (s.Head(was.card) > v <==>
                  end.clients[i].disk != was.disk && end.clients[i].bak != was.disk
                  && !Safe(cfg, end.store, was.card, was.disk.value))
            && (s.Head(was.card) <= v ==> end.clients[i].disk == was.disk)
  {
    hide Lineage, Safe, PushCard;
    var was := y.clients[i];
    var one := Next(cfg, y, LauncherPush(i, Mistaken(v, false), false, Refused));
    var mid := Next(cfg, one, LauncherPull(i, Fails));
    assert mid.clients[i] == was.(entry := Agreed(v, true, cfg.hash(was.disk.value)), phase := Resting);
    SyncsOver(cfg, mid.(store := s), i, s.Head(was.card), u);
    OtherBytes(cfg, s, was.card, was.disk.value, u);
  }

  /**
   The same after a mixture, when the card is not played in between: it is destroyed, and was
   nowhere else, exactly when head has moved past the version the pull reported.
   */
  lemma MixtureIsOverwritten(cfg: Config, y: System, i: ClientId, image: Image, v: nat, s: State, u: nat)
    requires Lineage(cfg, s) && i in y.clients && !y.clients[i].dolphin && y.clients[i].phase.Ready?
    requires y.clients[i].phase.version > y.clients[i].entry.version && image != []
    requires y.clients[i].bak != Some(image) && !Safe(cfg, s, y.clients[i].card, image)
    requires s.Head(y.clients[i].card) > 0 ==> s.Read(y.clients[i].card, u).Some?
    ensures var was := y.clients[i];
            var mid := Next(cfg, y, LauncherPull(i, Mixed(image, v)));
            var end := RunAll(cfg, mid.(store := s), QuietSync(i, s.Head(was.card), u));
            && mid.clients[i].disk == Some(image) && i in end.clients
            && (s.Head(was.card) > v <==>
                  end.clients[i].disk != Some(image) && end.clients[i].bak != Some(image)
                  && !Safe(cfg, end.store, was.card, image))
            && (s.Head(was.card) <= v ==> end.clients[i].disk == Some(image))
  {
    hide Lineage, Safe, PushCard;
    var was := y.clients[i];
    var mid := Next(cfg, y, LauncherPull(i, Mixed(image, v)));
    assert mid.clients[i] == Brought(cfg, was, image, v);
    SyncsOver(cfg, mid.(store := s), i, s.Head(was.card), u);
    OtherBytes(cfg, s, was.card, image, u);
  }

  lemma OtherBytes(cfg: Config, s: State, card: Card, image: Image, v: nat)
    requires Lineage(cfg, s) && !Safe(cfg, s, card, image)
    ensures s.Read(card, v) != Some(image)
  {
    if s.Read(card, v).Some? {
      ReadIsOnRecord(cfg, s, card, v);
    }
  }

  /** What a sync of an unchanged card comes to. */
  lemma SyncsOver(cfg: Config, y: System, i: ClientId, head: nat, v: nat)
    requires i in y.clients && !y.clients[i].dolphin && y.clients[i].phase.Resting?
    requires y.clients[i].disk.Some? && y.clients[i].disk.value != [] && !Changed(cfg, y.clients[i])
    ensures var (c, end) := (y.clients[i], RunAll(cfg, y, QuietSync(i, head, v)));
            && end.store == y.store && end.clients.Keys == y.clients.Keys
            && end.clients[i].bak == c.bak
            && end.clients[i].disk
               == if head > c.entry.version && y.store.Read(c.card, v).Some? then y.store.Read(c.card, v) else c.disk
  {
    hide PushCard;
    var es, c := QuietSync(i, head, v), y.clients[i];
    assert es[..2][..1] == es[..1] && es[..1][..0] == [] && es[..3] == es;
    var one := Next(cfg, y, es[0]);
    assert one.clients[i] == c.(phase := Headed(head));
    var two := Next(cfg, one, es[1]);
    assert two.clients[i] == c.(phase := Ready(head));
    var three := Next(cfg, two, es[2]);
    assert RunAll(cfg, y, es[..1]) == one;
    assert RunAll(cfg, y, es[..2]) == two;
  }

  /** And it stays that way: over any run, an overwritten save in history can be read back at the end. */
  lemma OverwrittenReadsBack(cfg: Config, y: System, es: seq<Event>, e: Event, later: seq<Event>, i: ClientId)
    requires Keeps(cfg, y) && NoCardIsUnset(cfg) && forall x | x in es :: !MistakeOf(x, i)
    requires forall a, b :: cfg.hash(a) == cfg.hash(b) ==> a == b
    requires var mid := RunAll(cfg, y, es);
             && Overwrites(cfg, mid, e, i) && !Raced(mid.clients[i])
             && Next(cfg, mid, e).clients[i].bak != mid.clients[i].disk
    ensures ReadableIn(RunAll(cfg, Next(cfg, RunAll(cfg, y, es), e), later).store, RunAll(cfg, y, es).clients[i])
  {
    hide RunAll, Next, InHistory, Extends, Overwrites, Raced, Lineage, Sound;
    RunGrows(cfg, y, es);
    var mid := RunAll(cfg, y, es);
    StaysInDomain(cfg, mid, e, i);
    RunKeepsClient(cfg, y, es, i);
    NoSaveIsLost(cfg, mid, e, i);
    NextGrows(cfg, mid, e);
    var next := Next(cfg, mid, e);
    RunGrows(cfg, next, later);
    ReadsBack(cfg, next.store, RunAll(cfg, next, later).store, mid.clients[i]);
  }

  lemma StaysInDomain(cfg: Config, y: System, e: Event, i: ClientId)
    requires Overwrites(cfg, y, e, i)
    ensures i in y.clients && i in Next(cfg, y, e).clients && y.clients[i].disk.Some?
  {
  }

  /** What a client has on disk is some version of its card. */
  ghost predicate ReadableIn(s: State, c: Client) {
    exists v: nat :: s.Read(c.card, v) == c.disk
  }

  lemma ReadsBack(cfg: Config, s: State, t: State, c: Client)
    requires c.disk.Some? && Safe(cfg, s, c.card, c.disk.value) && Extends(s, t) && Lineage(cfg, t)
    requires forall a, b :: cfg.hash(a) == cfg.hash(b) ==> a == b
    ensures ReadableIn(t, c)
  {
    var digest := cfg.hash(c.disk.value);
    HistoryLasts(s, t, c.card, digest);
    var v: nat :| Row(c.card, v) in t.versions && t.versions[Row(c.card, v)].sha256 == digest;
    assert t.Read(c.card, v) == c.disk;
  }

  /** The window is real: a save made inside it is in no history and in no backup. */
  lemma RacedSaveIsLost(cfg: Config, y: System, i: ClientId, b: Image)
    requires Keeps(cfg, y) && i in y.clients && y.clients[i].dolphin && y.clients[i].bak.None?
    requires var c := y.clients[i];
             && c.phase.Checked? && !InHistory(y.store, c.card, cfg.hash(b))
             && y.store.Get(c.card, y.store.Head(c.card)).Some?
             && y.store.Get(c.card, y.store.Head(c.card)).value.sha256 == c.phase.sha
    ensures var (mid, end) := (Next(cfg, y, Edit(i, b)), RunAll(cfg, y, [Edit(i, b), DolphinFetch(i, true, true)]));
            && i in mid.clients && i in end.clients
            && mid.clients[i].disk == Some(b) && end.clients[i].disk != Some(b)
            && end.clients[i].bak.None? && !Safe(cfg, end.store, y.clients[i].card, b)
  {
    var es := [Edit(i, b), DolphinFetch(i, true, true)];
    var c := y.clients[i];
    var row := Row(c.card, y.store.Head(c.card));
    assert row in y.store.versions;
    assert es[..1] == [Edit(i, b)] && es[..1][..0] == [];
    var mid := Next(cfg, y, Edit(i, b));
    assert RunAll(cfg, y, es[..1]) == mid;
    var image := y.store.Read(c.card, y.store.Head(c.card)).value;
    assert InHistory(y.store, c.card, cfg.hash(image));
    assert image != b;
  }

  // ----- the clients themselves

  /** The rest of the world, getting between two calls. */
  method Others(hub: Database, ops: seq<Op>)
    modifies hub
    ensures hub.View() == DoAll(hub.config, old(hub.View()), ops)
  {
    hide PushNamed, RollbackNamed;
    var n := 0;
    while n < |ops|
      invariant 0 <= n <= |ops|
      invariant DoAll(hub.config, old(hub.View()), ops) == DoAll(hub.config, hub.View(), ops[n..])
    {
      assert ops[n..][1..] == ops[n + 1..];
      var _ := Perform(hub, ops[n]);
      n := n + 1;
    }
  }

  method Perform(hub: Database, op: Op) returns (o: PushOutcome)
    modifies hub
    ensures (hub.View(), o) == Do(hub.config, old(hub.View()), op)
  {
    match op
    case DoPush(gameId, slot, data, parent) => o := hub.Push(gameId, slot, data, parent);
    case DoRollback(gameId, slot, to) => o := hub.Rollback(gameId, slot, to);
  }

  /** Naming a card by its canonical name reaches that card. */
  ghost predicate Canonical(card: Card) {
    Normalise(card.gameId, card.slot) == Some(card)
  }

  /** How the head query ends; an ACK to something else may answer it. */
  datatype HeadReply = Failed | UnknownCard | Heard | Astray(version: nat)

  /** What the network, the store's other users and the person at the console do during one sync. */
  datatype Weather = Weather(
    head: HeadReply,
    between: seq<Op>,
    answer: Answer,
    takeTheirs: bool,
    backup: Backup,
    later: seq<Op>,
    pull: Pulled)

  /** The head the launcher goes by. */
  function HeadTold(r: HeadReply, head: nat): nat {
    match r
    case Heard => head
    case Astray(version) => version
    case _ => 0
  }

  /** One sync: the three launcher events, with other events of the store between them. */
  function Synced(cfg: Config, c: Client, s: State, w: Weather): (Client, State)
  {
    var asked := if w.head.Failed? then c else AskHead(c, HeadTold(w.head, s.Head(c.card)));
    var (pushed, t) := PushCardOf(cfg, asked, DoAll(cfg, s, w.between), w.answer, w.takeTheirs, w.backup);
    if pushed.phase.Ready? then (PullCardOf(cfg, pushed, DoAll(cfg, t, w.later), w.pull), DoAll(cfg, t, w.later))
    else (pushed, t)
  }

  class Launcher {
    const card: Card
    var disk: Option<Image>
    var bak: Option<Image>
    var entry: Agreed
    var saved: Agreed

    ghost function View(): Client
      reads this
    {
      Client(false, card, disk, bak, entry, saved, Resting)
    }

    constructor (card: Card, disk: Option<Image>)
      ensures this.card == card
      ensures View() == Client(false, card, disk, None, Agreed(0, false, UNSET), Agreed(0, false, UNSET), Resting)
    {
      this.card, this.disk, bak := card, disk, None;
      entry, saved := Agreed(0, false, UNSET), Agreed(0, false, UNSET);
    }

    /** `sync_one`, with the store's other users between its three calls. */
    method SyncOne(hub: Database, w: Weather)
      requires Canonical(card)
      modifies this`disk, this`bak, this`entry, hub
      ensures (View(), hub.View()) == Synced(hub.config, old(View()), old(hub.View()), w)
    {
      hide DoAll, PushCardOf, PullCardOf;
      var asks := w.head != Failed && disk.Some? && disk.value != [];
      var head := hub.Head(card);
      var server := HeadTold(w.head, head);
      Others(hub, w.between);
      NotHeaded(hub.config, View(), hub.View(), w);
      if !asks {
        return;
      }
      var ready := PushIfChanged(hub, server, w.answer, w.takeTheirs, w.backup);
      if ready.None? {
        return;
      }
      Others(hub, w.later);
      PullIfBehind(hub, ready.value, w.pull);
    }

    static lemma NotHeaded(cfg: Config, c: Client, s: State, w: Weather)
      requires c.phase.Resting?
      ensures PushCardOf(cfg, c, s, w.answer, w.takeTheirs, w.backup) == (c, s)
    {
    }

    /** The push half; the version to compare with when the sync goes on. */
    method PushIfChanged(hub: Database, server: nat, answer: Answer, takeTheirs: bool, backup: Backup)
      returns (ready: Option<nat>)
      requires Canonical(card) && disk.Some?
      modifies this`bak, this`entry, hub
      ensures var headed := old(View()).(phase := Headed(server));
              var (c, s) := PushCardOf(hub.config, headed, old(hub.View()), answer, takeTheirs, backup);
              && hub.View() == s && View() == c.(phase := Resting)
              && (if ready.Some? then c.phase == Ready(ready.value) else c.phase.Resting?)
    {
      hide PushCard;
      if !Changed(hub.config, Client(false, card, disk, bak, entry, saved, Resting)) {
        return Some(server);
      }
      if answer.Mistaken? && !answer.landed {
        entry := Agreed(answer.version, true, hub.config.hash(disk.value));
        return Some(answer.version);
      }
      var o := hub.Push(card.gameId, card.slot, disk.value, entry.version);
      if answer.Mistaken? {
        entry := Agreed(answer.version, true, hub.config.hash(disk.value));
        return Some(answer.version);
      }
      if answer.Lost? {
        return None;
      }
      match o
      case Created(v) =>
        entry := Agreed(v, true, hub.config.hash(disk.value));
        return Some(v);
      case Unchanged(v) =>
        entry := Agreed(v, true, hub.config.hash(disk.value));
        return Some(v);
      case Conflict(head) =>
        if !takeTheirs || backup == Refused {
          return None;
        }
        bak := if backup == Partial then None else disk;
        return if backup == Partial then None else Some(head);
      case _ => return None;
    }

    method PullIfBehind(hub: Database, server: nat, pull: Pulled)
      modifies this`disk, this`entry
      ensures View() == PullCardOf(hub.config, old(View()).(phase := Ready(server)), hub.View(), pull)
    {
      if server <= entry.version {
        return;
      }
      var got := None;
      match pull {
        case Fails =>
        case Whole(version) => got := hub.Read(card, version);
        case Mixed(image, _) => got := if image == [] then None else Some(image);
      }
      if got.Some? {
        disk, entry := got, Agreed(pull.version, true, hub.config.hash(got.value));
      }
    }
  }

  class DolphinCards {
    const card: Card
    var disk: Option<Image>
    var entry: Agreed

    ghost function View(): Client
      reads this
    {
      Client(true, card, disk, None, entry, entry, Resting)
    }

    constructor (card: Card, disk: Option<Image>)
      ensures this.card == card
      ensures View() == Client(true, card, disk, None, Agreed(0, false, UNSET), Agreed(0, false, UNSET), Resting)
    {
      this.card, this.disk, entry := card, disk, Agreed(0, false, UNSET);
    }

    /** `Syncer.pull` on a card the server has; `played` is what a running game writes before the download lands. */
    method Pull(hub: Database, between: seq<Op>, played: Option<Image>, heard: bool)
      requires hub.View().Get(card, hub.View().Head(card)).Some?
      modifies this, hub
      ensures var cfg := hub.config;
              var checked := Check(cfg, AskDetail(old(View()), old(hub.View())));
              var t := DoAll(cfg, old(hub.View()), between);
              var raced := if played.Some? then Played(checked, played.value) else checked;
              View() == Fetch(cfg, raced, t, heard, true) && hub.View() == t
    {
      hide DoAll;
      var head := hub.Head(card);
      var sha := hub.versions[Row(card, head)].sha256;
      var wanted := true;
      if disk.Some? {
        var local := hub.config.hash(disk.value);
        if local != entry.sha && local != sha {
          wanted := false;
        } else if local == sha {
          entry, wanted := Agreed(head, true, sha), false;
        }
      }
      Others(hub, between);
      if played.Some? {
        disk := played;
      }
      if !wanted || !heard {
        return;
      }
      var now := hub.Head(card);
      var image := hub.Read(card, now);
      if image.Some? && hub.config.hash(image.value) == sha {
        disk, entry := image, Agreed(now, true, sha);
      }
    }

    /** `Syncer.push`. */
    method Push(hub: Database, heard: bool)
      requires Canonical(card)
      modifies this`entry, hub
      ensures (View(), hub.View()) == Send(hub.config, old(View()), old(hub.View()), heard)
    {
      hide PushCard;
      if disk.None? || hub.config.hash(disk.value) == entry.sha {
        return;
      }
      var o := hub.Push(card.gameId, card.slot, disk.value, entry.version);
      if heard && (o.Created? || o.Unchanged?) {
        entry := Agreed(o.version, true, hub.config.hash(disk.value));
      }
    }
  }
}
