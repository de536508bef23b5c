/**
 Runs over many accounts: mail arrives, is expunged and is synced, in any interleaving, and a
 sync may be looked at, or end, after any number of its iterations.
 */
module MailRuns {
  import opened Prelude
  import opened Mailbox
  import opened Tables
  import opened Backlog
  import opened Ingestion
  import Carriers
  import Regex
  import Scanner

  lemma IngestingRecords(setup: Setup, dispatcher: bool)
    ensures Records(Ingesting(setup, dispatcher))
  {
    var ingest := Ingesting(setup, dispatcher);
    forall user, t, m ensures RecordsAt(ingest, user, t, m) {
      IngestIds(t, dispatcher, user, m, Read(setup, m));
    }
  }

  // ---------------------------------------------------------------- one mailbox, synced until it is drained

  /**
   A folder with `n` messages above the watermark, all new and different, takes exactly
   `n / limit + 1` syncs, and they leave the tables and the watermark as one unlimited sync does.
   */
  lemma {:induction false} FolderDrains(setup: Setup, dispatcher: bool, user: nat, s: State, folder: Folder, limit: nat,
                                        all: seq<RawEmail>, ingest: Ingestor, inbox: Inbox, q: nat)
    requires ValidFolder(folder) && limit > 0 && ingest == Ingesting(setup, dispatcher) && inbox == InboxOf(folder)
    requires all == FetchSince(folder, s.seen, None) && AllFresh(Ids(s), all) && q == |all| / limit
    ensures forall j: nat :: j < q ==> Truncated(Syncs(ingest, user, s, inbox, limit, j), inbox, limit)
    ensures !Truncated(Syncs(ingest, user, s, inbox, limit, q), inbox, limit)
    ensures Syncs(ingest, user, s, inbox, limit, q + 1) == Fold(ingest, user, s, all)
  {
    IngestingRecords(setup, dispatcher);
    FoldersAreOrdered(folder);
    DrainsInBatches(ingest, user, s, inbox, limit, q);
  }

  /** Whatever the folder holds, the series of syncs ends exactly if no `limit` messages in a row are stale. */
  lemma FolderEndsIff(setup: Setup, dispatcher: bool, user: nat, s: State, folder: Folder, limit: nat)
    requires ValidFolder(folder)
    ensures var ingest, inbox := Ingesting(setup, dispatcher), InboxOf(folder);
            (exists n: nat :: !Truncated(Syncs(ingest, user, s, inbox, limit, n), inbox, limit)) <==> !Blocked(s, inbox, limit)
  {
    IngestingRecords(setup, dispatcher);
    FoldersAreOrdered(folder);
    SyncsEndIff(Ingesting(setup, dispatcher), user, s, InboxOf(folder), limit);
  }

  /** The UIDs of a folder listed oldest first are its UIDs in order. */
  lemma AboveWhole(folder: Folder, since: int, uids: seq<int>)
    requires ValidFolder(folder) && Ascends(folder, since)
    requires |uids| == |folder| && forall k :: 0 <= k < |folder| ==> uids[k] == folder[k].uid
    ensures Above(folder, since) == uids
  {
    var above := Above(folder, since);
    AboveElements(folder, since, 0);
    forall x ensures x in uids <==> x in above {
      AboveElements(folder, since, x);
      if HasUid(folder, x) { var k :| 0 <= k < |folder| && folder[k].uid == x; assert uids[k] == x; }
      if x in uids { var k :| 0 <= k < |uids| && uids[k] == x; assert folder[k].uid == x; }
    }
    AscendingIsUnique(uids, above);
  }

  /** A folder listed oldest first is fetched as it stands. */
  lemma FetchWhole(folder: Folder, since: int)
    requires ValidFolder(folder) && Ascends(folder, since)
    ensures FetchSince(folder, since, None) == folder
  {
    AboveWhole(folder, since, seq(|folder|, k requires 0 <= k < |folder| => folder[k].uid));
    FetchAll(folder, since);
    forall k | 0 <= k < |folder| ensures MessageOf(folder, folder[k].uid) == folder[k] { OneMessage(folder, k); }
  }

  lemma OneMessage(folder: Folder, k: nat)
    requires ValidFolder(folder) && k < |folder|
    ensures HasUid(folder, folder[k].uid) && MessageOf(folder, folder[k].uid) == folder[k]
  {
    assert HasUid(folder, folder[k].uid);
    var m := MessageOf(folder, folder[k].uid);
    var j :| 0 <= j < |folder| && folder[j] == m;
  }

  /** `limit + 1` messages with one id, and one more behind them. */
  function Repeats(limit: nat, m: RawEmail, last: RawEmail): Folder {
    seq(limit + 2, k requires 0 <= k => if k <= limit then m.(uid := k + 1) else last.(uid := k + 1))
  }

  /**
   Contrary to the comment on the batch limit, repeated syncs need not make progress: over this
   folder they never store the last message, however many there are.
   */
  lemma RepeatsNeverDrain(setup: Setup, dispatcher: bool, user: nat, limit: nat, m: RawEmail, last: RawEmail, n: nat)
    returns (folder: Folder, end: State)
    requires limit > 0 && last.messageId != m.messageId
    ensures folder == Repeats(limit, m, last) && end == Syncs(Ingesting(setup, dispatcher), user, State(EMPTY, 0), InboxOf(folder), limit, n)
    ensures ValidFolder(folder) && last.messageId !in Ids(end) && Truncated(end, InboxOf(folder), limit)
  {
    folder := Repeats(limit, m, last);
    end := Syncs(Ingesting(setup, dispatcher), user, State(EMPTY, 0), InboxOf(folder), limit, n);
    RepeatsAreStale(limit, m, last);
    IngestingRecords(setup, dispatcher);
    FoldersAreOrdered(folder);
    FetchWhole(folder, 0);
    assert Ids(State(EMPTY, 0)) == {};
    WallHolds(Ingesting(setup, dispatcher), user, State(EMPTY, 0), InboxOf(folder), limit, folder, {m.messageId}, n);
  }

  lemma WallHolds(ingest: Ingestor, user: nat, s: State, inbox: Inbox, limit: nat, all: seq<RawEmail>, known: set<string>, n: nat)
    requires Records(ingest) && Ordered(inbox) && |all| > 0 && all == inbox(s.seen)
    requires StaleFrom(Ids(s), all, limit, 1) && Walled(Ids(s), all, limit, all[1..], known)
    ensures var end := Syncs(ingest, user, s, inbox, limit, n); Ids(end) <= known && Truncated(end, inbox, limit)
  {
    NeverPassed(ingest, user, s, inbox, limit, all[1..], known, n);
    assert Blocked(s, inbox, limit);
    BlockedForever(ingest, user, s, inbox, limit, n);
  }

  lemma RepeatsAreStale(limit: nat, m: RawEmail, last: RawEmail)
    requires limit > 0
    ensures var folder := Repeats(limit, m, last);
            && ValidFolder(folder) && Ascends(folder, 0) && |folder| > 0
            && StaleFrom({}, folder, limit, 1) && Walled({}, folder, limit, folder[1..], {m.messageId})
  {
    var folder := Repeats(limit, m, last);
    forall j | 1 <= j < 1 + limit ensures !Fresh({}, folder, j) { assert folder[0].messageId == folder[j].messageId; }
    assert StaleFrom({}, folder, limit, 1);
    assert folder[..1] == [folder[0]];
  }

  // ---------------------------------------------------------------- the watermark

  /** Every message of the folder up to the watermark is stored. */
  predicate Stored(t: Tables, folder: Folder, seen: int) {
    forall k :: 0 <= k < |folder| && folder[k].uid <= seen ==> folder[k].messageId in MessageIds(t.emails)
  }

  lemma FetchHas(folder: Folder, since: int, k: nat) returns (j: nat)
    requires ValidFolder(folder) && k < |folder| && folder[k].uid > since
    ensures j < |FetchSince(folder, since, None)| && FetchSince(folder, since, None)[j] == folder[k]
  {
    FetchAll(folder, since);
    OneMessage(folder, k);
    AboveElements(folder, since, folder[k].uid);
    j :| 0 <= j < |Above(folder, since)| && Above(folder, since)[j] == folder[k].uid;
  }

  lemma CutMember(ms: seq<RawEmail>, n: nat, j: nat)
    requires j < n <= |ms|
    ensures ms[j].messageId in IdsOf(ms[..n])
  {
    assert ms[..n][j] == ms[j];
  }

  /**
   After any number of iterations over what a fetch returned, the watermark has passed no
   message that is not stored, and stands at a message of the folder or where it was.
   */
  lemma IterationsKeepStored(ingest: Ingestor, user: nat, s: State, folder: Folder, n: nat, next: State)
    requires Records(ingest) && ValidFolder(folder) && Stored(s.t, folder, s.seen)
    requires next == Fold(ingest, user, s, Cut(FetchSince(folder, s.seen, None), n))
    ensures Stored(next.t, folder, next.seen) && Ids(s) <= Ids(next)
    ensures next.seen == s.seen || HasUid(folder, next.seen)
  {
    var all := FetchSince(folder, s.seen, None);
    FetchAscends(folder, s.seen);
    var p := BatchLands(ingest, user, s, all, n, next);
    if p >= 0 {
      UpToIsFetched(folder, s.seen, all, p);
      AtFolder(folder, s.seen, p);
    }
  }

  /** A message above the old watermark and not above the `p`-th one fetched is among the first `p + 1`. */
  lemma UpToIsFetched(folder: Folder, since: int, all: seq<RawEmail>, p: nat)
    requires ValidFolder(folder) && all == FetchSince(folder, since, None) && Ascends(all, since) && p < |all|
    ensures forall k :: 0 <= k < |folder| && since < folder[k].uid <= all[p].uid ==> folder[k].messageId in IdsOf(all[..p + 1])
  {
    forall k: nat | k < |folder| && since < folder[k].uid <= all[p].uid ensures folder[k].messageId in IdsOf(all[..p + 1]) {
      var j := FetchHas(folder, since, k);
      assert j <= p;
      CutMember(all, p + 1, j);
    }
  }

  lemma AtFolder(folder: Folder, since: int, p: nat)
    requires ValidFolder(folder) && p < |FetchSince(folder, since, None)|
    ensures HasUid(folder, FetchSince(folder, since, None)[p].uid)
  {
    FetchAll(folder, since);
  }

  /** A sync that is not truncated leaves every message of the mailbox stored. */
  lemma UntruncatedStoresAll(setup: Setup, dispatcher: bool, user: nat, s: State, folder: Folder, limit: nat)
    requires ValidFolder(folder) && Stored(s.t, folder, s.seen) && !Truncated(s, InboxOf(folder), limit)
    ensures var next := SyncOnce(Ingesting(setup, dispatcher), user, s, InboxOf(folder), limit);
            forall k :: 0 <= k < |folder| ==> folder[k].messageId in Ids(next)
  {
    var ingest, all := Ingesting(setup, dispatcher), FetchSince(folder, s.seen, None);
    IngestingRecords(setup, dispatcher);
    UntruncatedIsAll(ingest, user, s, InboxOf(folder), limit);
    FoldIds(ingest, user, s, all);
    forall k: nat | k < |folder| ensures folder[k].messageId in Ids(s) + IdsOf(all) {
      if folder[k].uid > s.seen { var j := FetchHas(folder, s.seen, k); }
    }
  }

  // ---------------------------------------------------------------- interleaved accounts

  /** An account with its mailbox, which gives the next message a UID of `next` or above. */
  datatype Account = Account(user: nat, seen: int, folder: Folder, next: int)

  datatype World = World(t: Tables, accounts: seq<Account>)

  const INITIAL := World(EMPTY, [])

  datatype Event =
    | Connect(user: nat)
    | Arrive(account: nat, m: RawEmail)
    | Expunge(account: nat, position: nat)
    | Sync(account: nat, limit: nat, iterations: nat, dispatcher: bool)

  function Fetched(a: Account, limit: nat, iterations: nat): seq<RawEmail> {
    Cut(FetchSince(a.folder, a.seen, None), if iterations < limit then iterations else limit)
  }

  function Perform(setup: Setup, w: World, e: Event): World {
    match e
    case Connect(user) => w.(accounts := w.accounts + [Account(user, 0, [], 1)])
    case Arrive(k, m) =>
      if k >= |w.accounts| then w
      else
        var a := w.accounts[k];
        var uid := Max(a.next, m.uid);
        w.(accounts := w.accounts[k := a.(folder := a.folder + [m.(uid := uid)], next := uid + 1)])
    case Expunge(k, i) =>
      if k >= |w.accounts| || i >= |w.accounts[k].folder| then w
      else
        var a := w.accounts[k];
        w.(accounts := w.accounts[k := a.(folder := a.folder[..i] + a.folder[i + 1..])])
    case Sync(k, limit, iterations, dispatcher) =>
      if k >= |w.accounts| then w
      else
        var a := w.accounts[k];
        var next := Fold(Ingesting(setup, dispatcher), a.user, State(w.t, a.seen), Fetched(a, limit, iterations));
        World(next.t, w.accounts[k := a.(seen := next.seen)])
  }

  function Run(setup: Setup, w: World, events: seq<Event>): World {
    if events == [] then w else Perform(setup, Run(setup, w, events[..|events| - 1]), events[|events| - 1])
  }

  /** With as many iterations as the limit, a sync event is one `sync_account`. */
  lemma FullSyncIsSyncOnce(setup: Setup, dispatcher: bool, w: World, k: nat, limit: nat, s: State)
    requires k < |w.accounts| && s == State(w.t, w.accounts[k].seen)
    ensures var a := w.accounts[k];
            var next := SyncOnce(Ingesting(setup, dispatcher), a.user, s, InboxOf(a.folder), limit);
            Perform(setup, w, Sync(k, limit, limit, dispatcher)) == World(next.t, w.accounts[k := a.(seen := next.seen)])
  {
  }

  predicate InMailbox(a: Account) {
    && ValidFolder(a.folder) && a.seen < a.next && a.next > 0
    && forall i :: 0 <= i < |a.folder| ==> a.folder[i].uid < a.next
  }

  predicate AccountSafe(t: Tables, a: Account) { InMailbox(a) && Stored(t, a.folder, a.seen) }

  predicate WatermarksSafe(w: World) {
    forall k :: 0 <= k < |w.accounts| ==> AccountSafe(w.t, w.accounts[k])
  }

  lemma ArriveKeeps(t: Tables, a: Account, m: RawEmail, uid: int)
    requires AccountSafe(t, a) && uid >= a.next
    ensures AccountSafe(t, a.(folder := a.folder + [m.(uid := uid)], next := uid + 1))
  {
  }

  lemma ExpungeKeeps(t: Tables, a: Account, i: nat)
    requires AccountSafe(t, a) && i < |a.folder|
    ensures AccountSafe(t, a.(folder := a.folder[..i] + a.folder[i + 1..]))
  {
    var rest := a.folder[..i] + a.folder[i + 1..];
    assert forall k :: 0 <= k < |rest| ==> rest[k] == a.folder[if k < i then k else k + 1];
  }

  lemma StoredGrows(t: Tables, t': Tables, a: Account)
    requires AccountSafe(t, a) && MessageIds(t.emails) <= MessageIds(t'.emails)
    ensures AccountSafe(t', a)
  {
  }

  lemma SyncKeepsWatermarks(setup: Setup, dispatcher: bool, w: World, k: nat, limit: nat, iterations: nat, a: Account, next: State)
    requires WatermarksSafe(w) && k < |w.accounts| && a == w.accounts[k]
    requires next == Fold(Ingesting(setup, dispatcher), a.user, State(w.t, a.seen), Fetched(a, limit, iterations))
    ensures WatermarksSafe(World(next.t, w.accounts[k := a.(seen := next.seen)]))
  {
    AccountIterations(setup, dispatcher, w.t, a, if iterations < limit then iterations else limit, next);
    AccountStep(w, next.t, k, a.(seen := next.seen));
  }

  lemma AccountStep(w: World, t: Tables, k: nat, a: Account)
    requires WatermarksSafe(w) && k < |w.accounts|
    requires MessageIds(w.t.emails) <= MessageIds(t.emails) && AccountSafe(t, a)
    ensures WatermarksSafe(World(t, w.accounts[k := a]))
  {
    forall j | 0 <= j < |w.accounts| && j != k ensures AccountSafe(t, w.accounts[j]) {
      StoredGrows(w.t, t, w.accounts[j]);
    }
  }

  lemma AccountIterations(setup: Setup, dispatcher: bool, t: Tables, a: Account, n: nat, next: State)
    requires AccountSafe(t, a)
    requires next == Fold(Ingesting(setup, dispatcher), a.user, State(t, a.seen), Cut(FetchSince(a.folder, a.seen, None), n))
    ensures AccountSafe(next.t, a.(seen := next.seen)) && MessageIds(t.emails) <= MessageIds(next.t.emails)
  {
    IngestingRecords(setup, dispatcher);
    IterationsKeepStored(Ingesting(setup, dispatcher), a.user, State(t, a.seen), a.folder, n, next);
  }

  lemma StepKeepsWatermarks(setup: Setup, w: World, e: Event)
    requires WatermarksSafe(w)
    ensures WatermarksSafe(Perform(setup, w, e))
  {
    match e
    case Connect(_) =>
    case Arrive(k, m) =>
      if k < |w.accounts| {
        var a, uid := w.accounts[k], Max(w.accounts[k].next, m.uid);
        ArriveKeeps(w.t, a, m, uid);
        AccountStep(w, w.t, k, a.(folder := a.folder + [m.(uid := uid)], next := uid + 1));
      }
    case Expunge(k, i) =>
      if k < |w.accounts| && i < |w.accounts[k].folder| {
        var a := w.accounts[k];
        ExpungeKeeps(w.t, a, i);
        AccountStep(w, w.t, k, a.(folder := a.folder[..i] + a.folder[i + 1..]));
      }
    case Sync(k, limit, iterations, dispatcher) =>
      if k < |w.accounts| {
        var a := w.accounts[k];
        SyncKeepsWatermarks(setup, dispatcher, w, k, limit, iterations, a,
                            Fold(Ingesting(setup, dispatcher), a.user, State(w.t, a.seen), Fetched(a, limit, iterations)));
      }
  }

  /**
   Watermark safety: in every run, after every single iteration, each message of each mailbox
   with a UID up to its account's watermark has its id in the email table.
   */
  lemma {:induction false} WatermarkNeverPasses(setup: Setup, events: seq<Event>)
    ensures WatermarksSafe(Run(setup, INITIAL, events))
    decreases |events|
  {
    if events != [] {
      WatermarkNeverPasses(setup, events[..|events| - 1]);
      StepKeepsWatermarks(setup, Run(setup, INITIAL, events[..|events| - 1]), events[|events| - 1]);
    }
  }

  // ---------------------------------------------------------------- the tables

  /** What the tables satisfy in every run: sound, and each message once. */
  predicate InOrderBooks(t: Tables) {
    && Sound(t)
    && (forall i, j :: 0 <= i < j < |t.emails| ==> t.emails[i].messageId != t.emails[j].messageId)
  }

  function CarrierNames(): set<string> {
    set c | c in Carriers.DETECTION_ORDER :: Carriers.Name(c)
  }

  /** No merchant parser reports a merchant named like a carrier. */
  ghost predicate MerchantsApart(setup: Setup) {
    forall m :: setup.detect(m).Some? ==> setup.detect(m).value.merchant !in CarrierNames()
  }

  /** The merchants for which there is a parser. */
  const MERCHANTS: set<string> := {
    "AliExpress", "Alternate", "Amazon", "Decathlon", "eBay", "IKEA", "Kaufland", "MediaMarkt", "Otto", "Saturn", "Temu", "Zalando"
  }

  lemma MerchantsAreApart(setup: Setup)
    requires forall m :: setup.detect(m).Some? ==> setup.detect(m).value.merchant in MERCHANTS
    ensures MerchantsApart(setup)
  {
    forall c, merchant | merchant in MERCHANTS ensures merchant != Carriers.Name(c) { NotACarrier(merchant, c); }
  }

  lemma NotACarrier(merchant: string, c: Carriers.Carrier)
    requires merchant in MERCHANTS
    ensures merchant != Carriers.Name(c)
  {
    var name := Carriers.Name(c);
    assert |merchant| == |name| ==> merchant[0] != name[0];
  }

  predicate Statuses(t: Tables) { NoneConfirmed(t) && CarriersShipped(t, CarrierNames()) }

  lemma ReadIsApart(setup: Setup, m: RawEmail)
    requires MerchantsApart(setup)
    ensures Apart(Read(setup, m), CarrierNames())
  {
    var f := Read(setup, m);
    if f.CarrierOnly? {
      var c := Scanner.Reported(setup.chars, TextOf(m))[0].1;
      assert Carriers.DETECTION_ORDER[Carriers.Rank(c)] == c;
    }
  }

  lemma StepKeepsBooks(setup: Setup, dispatcher: bool, user: nat, s: State, m: RawEmail, next: State)
    requires InOrderBooks(s.t) && next == Step(Ingesting(setup, dispatcher), user, s, m)
    ensures InOrderBooks(next.t) && Grows(s.t, next.t) && Announces(s.t, next.t, dispatcher)
    ensures MerchantsApart(setup) && Statuses(s.t) ==> Statuses(next.t)
  {
    if m.messageId in Ids(s) {
      NothingCreated(s.t, next.t, dispatcher);
    } else {
      IngestKeepsBooks(s.t, dispatcher, user, m, Read(setup, m));
      if MerchantsApart(setup) && Statuses(s.t) {
        ReadIsApart(setup, m);
        CarriersStayShipped(s.t, dispatcher, user, m, Read(setup, m), CarrierNames());
        StatusKept(s.t, dispatcher, user, m, Read(setup, m));
      }
    }
  }

  lemma IngestKeepsBooks(t: Tables, dispatcher: bool, user: nat, m: RawEmail, f: Finding)
    requires InOrderBooks(t) && m.messageId !in MessageIds(t.emails)
    ensures var t' := Ingest(t, dispatcher, user, m, f);
            InOrderBooks(t') && Grows(t, t') && Announces(t, t', dispatcher)
  {
    IngestStep(t, dispatcher, user, m, f);
    IngestAnnounces(t, dispatcher, user, m, f);
    var t' := Ingest(t, dispatcher, user, m, f);
    forall i | 0 <= i < |t.emails| ensures t'.emails[i].messageId != m.messageId {
      assert t.emails[i].messageId in MessageIds(t.emails) && t'.emails[i] == t.emails[i];
    }
  }

  lemma {:induction false} FoldKeepsBooks(setup: Setup, dispatcher: bool, user: nat, s: State, ms: seq<RawEmail>, next: State)
    requires InOrderBooks(s.t) && next == Fold(Ingesting(setup, dispatcher), user, s, ms)
    ensures InOrderBooks(next.t) && Grows(s.t, next.t) && Announces(s.t, next.t, dispatcher)
    ensures MerchantsApart(setup) && Statuses(s.t) ==> Statuses(next.t)
    decreases |ms|
  {
    if ms == [] {
      NothingCreated(s.t, next.t, dispatcher);
    } else {
      var before := Fold(Ingesting(setup, dispatcher), user, s, ms[..|ms| - 1]);
      FoldKeepsBooks(setup, dispatcher, user, s, ms[..|ms| - 1], before);
      StepKeepsBooks(setup, dispatcher, user, before, ms[|ms| - 1], next);
      GrowsTransitive(s.t, before.t, next.t);
      AnnouncesTransitive(s.t, before.t, next.t, dispatcher);
    }
  }

  /** Whether what the event creates is announced. */
  predicate Dispatches(e: Event) { e.Sync? && e.dispatcher }

  lemma EventKeepsBooks(setup: Setup, w: World, e: Event, next: World)
    requires InOrderBooks(w.t) && next == Perform(setup, w, e)
    ensures InOrderBooks(next.t) && Grows(w.t, next.t) && Announces(w.t, next.t, Dispatches(e))
    ensures MerchantsApart(setup) && Statuses(w.t) ==> Statuses(next.t)
  {
    if e.Sync? && e.account < |w.accounts| {
      var a := w.accounts[e.account];
      var ms := Fetched(a, e.limit, e.iterations);
      FoldKeepsBooks(setup, e.dispatcher, a.user, State(w.t, a.seen), ms,
                     Fold(Ingesting(setup, e.dispatcher), a.user, State(w.t, a.seen), ms));
    } else {
      NothingCreated(w.t, next.t, Dispatches(e));
    }
  }

  /** The orders that the dispatching syncs of a run create, as they are announced. */
  function Announced(setup: Setup, w: World, events: seq<Event>): seq<(string, string)> {
    if events == [] then []
    else
      var earlier, e := events[..|events| - 1], events[|events| - 1];
      var before := Run(setup, w, earlier);
      var after := Perform(setup, before, e);
      Announced(setup, w, earlier)
      + if Dispatches(e) && |before.t.orders| <= |after.t.orders| then Created(before.t, after.t) else []
  }

  lemma {:induction false} RunKeepsBooks(setup: Setup, w: World, events: seq<Event>, end: World)
    requires InOrderBooks(w.t) && end == Run(setup, w, events)
    ensures InOrderBooks(end.t) && Grows(w.t, end.t)
    ensures NoticeMetas(end.t.notices) == NoticeMetas(w.t.notices) + Announced(setup, w, events)
    ensures MerchantsApart(setup) && Statuses(w.t) ==> Statuses(end.t)
    decreases |events|
  {
    if events != [] {
      var earlier, e := events[..|events| - 1], events[|events| - 1];
      var before := Run(setup, w, earlier);
      RunKeepsBooks(setup, w, earlier, before);
      EventKeepsBooks(setup, before, e, end);
      GrowsTransitive(w.t, before.t, end.t);
      Associates(NoticeMetas(w.t.notices), Announced(setup, w, earlier), if Dispatches(e) then Created(before.t, end.t) else []);
    }
  }

  /**
   The tables over all runs from an empty store, in which syncs with and without a dispatcher may
   take turns: keys and message ids are unique, rows refer to rows, the notifications are those of
   the orders that the syncs with a dispatcher created, one each and in their order; and, unless
   a merchant is named like a carrier, no order with a shipment is still CONFIRMED.
   */
  lemma {:induction false} TablesOverAllRuns(setup: Setup, events: seq<Event>, end: World, announced: seq<(string, string)>)
    requires end == Run(setup, INITIAL, events) && announced == Announced(setup, INITIAL, events)
    ensures InOrderBooks(end.t) && NoticeMetas(end.t.notices) == announced
    ensures MerchantsApart(setup) ==> NoneConfirmed(end.t)
  {
    RunKeepsBooks(setup, INITIAL, events, end);
    NothingBefore(NoticeMetas([]), announced);
  }

  predicate AllSyncs(events: seq<Event>, dispatcher: bool) {
    forall k :: 0 <= k < |events| && events[k].Sync? ==> events[k].dispatcher == dispatcher
  }

  /** If every sync has a dispatcher, every order is announced; if none has, none is. */
  lemma {:induction false} OneDispatcher(setup: Setup, events: seq<Event>, dispatcher: bool, end: World)
    requires AllSyncs(events, dispatcher) && end == Run(setup, INITIAL, events)
    ensures NoticeMetas(end.t.notices) == if dispatcher then OrderMetas(end.t.orders) else []
  {
    RunAnnounces(setup, events, dispatcher, end);
    assert end.t.orders[0..] == end.t.orders;
    NothingBefore(NoticeMetas(EMPTY.notices), if dispatcher then OrderMetas(end.t.orders) else []);
  }

  lemma EventAnnounces(setup: Setup, w: World, e: Event, dispatcher: bool, next: World)
    requires InOrderBooks(w.t) && next == Perform(setup, w, e) && (e.Sync? ==> e.dispatcher == dispatcher)
    ensures InOrderBooks(next.t) && Grows(w.t, next.t) && Announces(w.t, next.t, dispatcher)
  {
    EventKeepsBooks(setup, w, e, next);
    if !e.Sync? { NothingCreated(w.t, next.t, dispatcher); }
  }

  lemma {:induction false} RunAnnounces(setup: Setup, events: seq<Event>, dispatcher: bool, end: World)
    requires AllSyncs(events, dispatcher) && end == Run(setup, INITIAL, events)
    ensures InOrderBooks(end.t) && Grows(EMPTY, end.t) && Announces(EMPTY, end.t, dispatcher)
    decreases |events|
  {
    if events == [] {
      NothingCreated(EMPTY, end.t, dispatcher);
    } else {
      var before := Run(setup, INITIAL, events[..|events| - 1]);
      RunAnnounces(setup, events[..|events| - 1], dispatcher, before);
      EventAnnounces(setup, before, events[|events| - 1], dispatcher, end);
      GrowsTransitive(EMPTY, before.t, end.t);
      AnnouncesTransitive(EMPTY, before.t, end.t, dispatcher);
    }
  }

  // ---------------------------------------------------------------- what becomes of each message

  /** The user's order with this key, and the numbers among its shipments. */
  ghost predicate HoldsOrder(t: Tables, orderId: Option<nat>, user: nat, merchant: string, number: Option<string>, numbers: seq<string>) {
    && orderId.Some? && orderId.value < |t.orders|
    && t.orders[orderId.value].userId == user && t.orders[orderId.value].merchant == merchant && t.orders[orderId.value].orderNumber == number
    && AllShipped(t, orderId.value, numbers)
  }

  /** The row holds the message, with the order that it was read as. */
  ghost predicate Kept(setup: Setup, t: Tables, user: nat, m: RawEmail, row: nat) {
    && row < |t.emails| && IsRowOf(t.emails[row], m)
    && var o := t.emails[row].orderId;
       match setup.detect(m)
       case Some(p) => HoldsOrder(t, o, user, p.merchant, p.orderNumber, p.trackingNumbers)
       case None =>
         match ReadTracking(setup.chars, m)
         case CarrierOnly(number, carrier) => HoldsOrder(t, o, user, carrier, Some(number), [number])
         case _ => o == None
  }

  lemma HoldsOrderStays(t: Tables, t': Tables, orderId: Option<nat>, user: nat, merchant: string, number: Option<string>, numbers: seq<string>)
    requires Grows(t, t') && HoldsOrder(t, orderId, user, merchant, number, numbers)
    ensures HoldsOrder(t', orderId, user, merchant, number, numbers)
  {
    assert t'.orders[orderId.value].(status := t.orders[orderId.value].status) == t.orders[orderId.value];
    forall n | n in numbers ensures HasShipment(t'.shipments, orderId.value, n) { ShipmentStays(t, t', orderId.value, n); }
  }

  lemma KeptStays(setup: Setup, t: Tables, t': Tables, user: nat, m: RawEmail, row: nat)
    requires Grows(t, t') && Kept(setup, t, user, m, row)
    ensures Kept(setup, t', user, m, row)
  {
    var o := t.emails[row].orderId;
    assert t'.emails[row] == t.emails[row];
    match setup.detect(m)
    case Some(p) => HoldsOrderStays(t, t', o, user, p.merchant, p.orderNumber, p.trackingNumbers);
    case None =>
      var f := ReadTracking(setup.chars, m);
      if f.CarrierOnly? { HoldsOrderStays(t, t', o, user, f.carrier, Some(f.number), [f.number]); }
  }

  lemma IngestKeeps(setup: Setup, dispatcher: bool, user: nat, t: Tables, m: RawEmail)
    requires setup.chars.Valid() && Sound(t)
    ensures Kept(setup, Ingest(t, dispatcher, user, m, Read(setup, m)), user, m, |t.emails|)
    ensures NewOrdersOf(t, Ingest(t, dispatcher, user, m, Read(setup, m)), user)
  {
    ReadMeaning(setup.chars, m, m.Body(), WordsRead(setup.chars, m.subject, m.Body()));
    MessageRecorded(t, dispatcher, user, m, Read(setup, m));
  }

  /** Every order that is new belongs to the user. */
  predicate NewOrdersOf(t: Tables, t': Tables, user: nat) {
    forall k :: |t.orders| <= k < |t'.orders| ==> t'.orders[k].userId == user
  }

  /**
   Each message of a batch that is new, when the batch is done, has its own row with all its
   fields, and belongs to the account's user: to the merchant's order if a parser reads one, with
   all its tracking numbers, else to the order of the number that it is read as, if there is one.
   */
  lemma {:induction false} FreshIsKept(setup: Setup, dispatcher: bool, user: nat, s: State, ms: seq<RawEmail>, i: nat, next: State) returns (row: nat)
    requires setup.chars.Valid() && InOrderBooks(s.t) && i < |ms| && Fresh(Ids(s), ms, i)
    requires next == Fold(Ingesting(setup, dispatcher), user, s, ms)
    ensures |s.t.emails| <= row && Kept(setup, next.t, user, ms[i], row)
    decreases |ms|
  {
    var ingest, n := Ingesting(setup, dispatcher), |ms| - 1;
    var before := Fold(ingest, user, s, ms[..n]);
    FoldKeepsBooks(setup, dispatcher, user, s, ms[..n], before);
    StepKeepsBooks(setup, dispatcher, user, before, ms[n], next);
    if i < n {
      FreshPrefix(Ids(s), ms, n, i);
      row := FreshIsKept(setup, dispatcher, user, s, ms[..n], i, before);
      KeptStays(setup, before.t, next.t, user, ms[i], row);
    } else {
      IngestingRecords(setup, dispatcher);
      FoldKnows(ingest, user, s, ms);
      IngestKeeps(setup, dispatcher, user, before.t, ms[n]);
      row := |before.t.emails|;
    }
  }

  /** A sync creates orders for the account's user only. */
  lemma {:induction false} NewOrdersAreOwn(setup: Setup, dispatcher: bool, user: nat, s: State, ms: seq<RawEmail>, next: State)
    requires setup.chars.Valid() && InOrderBooks(s.t) && next == Fold(Ingesting(setup, dispatcher), user, s, ms)
    ensures NewOrdersOf(s.t, next.t, user)
    decreases |ms|
  {
    if ms != [] {
      var n := |ms| - 1;
      var before := Fold(Ingesting(setup, dispatcher), user, s, ms[..n]);
      NewOrdersAreOwn(setup, dispatcher, user, s, ms[..n], before);
      FoldKeepsBooks(setup, dispatcher, user, s, ms[..n], before);
      StepKeepsBooks(setup, dispatcher, user, before, ms[n], next);
      if ms[n].messageId !in Ids(before) {
        IngestKeeps(setup, dispatcher, user, before.t, ms[n]);
        OwnedInTurn(s.t, before.t, next.t, user);
      }
    }
  }

  lemma OwnedInTurn(a: Tables, b: Tables, c: Tables, user: nat)
    requires Grows(b, c) && NewOrdersOf(a, b, user) && NewOrdersOf(b, c, user)
    ensures NewOrdersOf(a, c, user)
  {
    forall k | |a.orders| <= k < |c.orders| ensures c.orders[k].userId == user {
      if k < |b.orders| { assert c.orders[k].(status := b.orders[k].status) == b.orders[k]; }
    }
  }

  // ---------------------------------------------------------------- a merchant named like a carrier

  /** A message that says nothing but a number that is detected is read as that number. */
  lemma BareNumberIsRead(u: Regex.CharTable, m: RawEmail, number: string, c: Carriers.Carrier)
    requires u.Valid() && m.subject == "" && m.Body() == number && forall k :: 0 <= k < |number| ==> number[k] in u.word
    requires Carriers.DetectCarrier(u, number) == Some(c)
    ensures ReadTracking(u, m) == CarrierOnly(number, Carriers.Name(c))
  {
    Carriers.DetectWord(u, number);
    BareWord(u, number);
    ReadMeaning(u, m, number, [number]);
  }

  /** A text of word characters is one word. */
  lemma BareWord(u: Regex.CharTable, number: string)
    requires number != "" && forall k :: 0 <= k < |number| ==> number[k] in u.word
    ensures Regex.Words(u, number, 0) == [number]
  {
    var e := Regex.RunEnd(u, number, 0);
    assert e == |number| && number[0..e] == number && Regex.WordAt(u, number, 0);
  }

  /** An order of a merchant by some name with some number, without tracking numbers. */
  function BareOrder(merchant: string, number: string): ParsedOrder {
    ParsedOrder(merchant, Some(number), None, None, None, [], None)
  }

  lemma BareOrderStands(dispatcher: bool, user: nat, m: RawEmail, name: string, number: string, t: Tables)
    requires t == Ingest(EMPTY, dispatcher, user, m, Merchant(BareOrder(name, number)))
    ensures Sound(t) && NoneConfirmed(t) && |t.orders| == 1 && t.orders[0].status == Confirmed
    ensures KeyOf(t.orders[0]) == (user, name, Some(number))
  {
    IngestStep(EMPTY, dispatcher, user, m, Merchant(BareOrder(name, number)));
    StatusKept(EMPTY, dispatcher, user, m, Merchant(BareOrder(name, number)));
  }

  lemma Clash(t: Tables, dispatcher: bool, user: nat, m: RawEmail, f: Finding)
    requires Sound(t) && NoneConfirmed(t) && |t.orders| == 1 && t.orders[0].status == Confirmed
    requires f.CarrierOnly? && KeyOf(t.orders[0]) == (user, f.carrier, Some(f.number))
    ensures !NoneConfirmed(Ingest(t, dispatcher, user, m, f))
  {
    assert OrderKeys(t.orders)[0] == (user, f.carrier, Some(f.number));
    StatusKept(t, dispatcher, user, m, f);
  }

  lemma FoldTwo(ingest: Ingestor, user: nat, m: RawEmail, m': RawEmail)
    requires Records(ingest) && m.messageId != m'.messageId
    ensures Fold(ingest, user, State(EMPTY, 0), [m, m']).t == ingest(user, ingest(user, EMPTY, m), m')
  {
    assert [m, m'][..1] == [m] && [m][..0] == [];
    assert Fold(ingest, user, State(EMPTY, 0), []) == State(EMPTY, 0);
    assert RecordsAt(ingest, user, EMPTY, m) && MessageIds(EMPTY.emails) == {};
  }

  function TwoArrivals(dispatcher: bool, user: nat, m: RawEmail, m': RawEmail): seq<Event> {
    [Connect(user)] + [Arrive(0, m)] + [Arrive(0, m')] + [Sync(0, 2, 2, dispatcher)]
  }

  lemma RunNext(setup: Setup, w: World, events: seq<Event>, e: Event)
    ensures Run(setup, w, events + [e]) == Perform(setup, Run(setup, w, events), e)
  {
    assert (events + [e])[..|events|] == events;
  }

  lemma Arrives(setup: Setup, w: World, a: Account, m: RawEmail, uid: int)
    requires w.accounts == [a] && uid == Max(a.next, m.uid)
    ensures Perform(setup, w, Arrive(0, m)) == World(w.t, [a.(folder := a.folder + [m.(uid := uid)], next := uid + 1)])
  {
  }

  lemma TwoArrive(setup: Setup, dispatcher: bool, user: nat, m: RawEmail, m': RawEmail, full: World)
    requires m.uid == 1 && m'.uid == 2 && full == World(EMPTY, [Account(user, 0, [m, m'], 3)])
    ensures Run(setup, INITIAL, [Connect(user)] + [Arrive(0, m)] + [Arrive(0, m')]) == full
  {
    var one := [Connect(user)];
    assert one == [] + one && Run(setup, INITIAL, []) == INITIAL;
    RunNext(setup, INITIAL, [], Connect(user));
    RunNext(setup, INITIAL, one, Arrive(0, m));
    RunNext(setup, INITIAL, one + [Arrive(0, m)], Arrive(0, m'));
    assert m.(uid := 1) == m && m'.(uid := 2) == m';
    var none: Folder := [];
    assert none + [m] == [m] && [m] + [m'] == [m, m'];
    var empty := Account(user, 0, [], 1);
    Arrives(setup, World(EMPTY, [empty]), empty, m, 1);
    Arrives(setup, World(EMPTY, [empty.(folder := [m], next := 2)]), empty.(folder := [m], next := 2), m', 2);
  }

  lemma TwoFetched(a: Account, m: RawEmail, m': RawEmail)
    requires m.uid == 1 && m'.uid == 2 && a.seen == 0 && a.folder == [m, m']
    ensures Fetched(a, 2, 2) == [m, m']
  {
    FetchWhole([m, m'], 0);
  }

  lemma SyncedTables(setup: Setup, dispatcher: bool, w: World, a: Account)
    requires w.accounts == [a]
    ensures Perform(setup, w, Sync(0, 2, 2, dispatcher)).t
         == Fold(Ingesting(setup, dispatcher), a.user, State(w.t, a.seen), Fetched(a, 2, 2)).t
  {
  }

  lemma TwoSynced(setup: Setup, dispatcher: bool, user: nat, m: RawEmail, m': RawEmail, full: World, ingest: Ingestor)
    requires m.uid == 1 && m'.uid == 2 && m.messageId != m'.messageId && full == World(EMPTY, [Account(user, 0, [m, m'], 3)])
    requires ingest == Ingesting(setup, dispatcher)
    ensures Perform(setup, full, Sync(0, 2, 2, dispatcher)).t == ingest(user, ingest(user, EMPTY, m), m')
  {
    var a := Account(user, 0, [m, m'], 3);
    SyncedTables(setup, dispatcher, full, a);
    TwoFetched(a, m, m');
    IngestingRecords(setup, dispatcher);
    FoldTwo(ingest, user, m, m');
  }

  /**
   Why the merchants must be apart: for every number that is detected, if a parser reports a
   merchant named like its carrier, two messages from an empty store are enough to leave an
   order CONFIRMED that has a shipment.
   */
  lemma CarrierMerchantConfirms(setup: Setup, dispatcher: bool, user: nat, m: RawEmail, m': RawEmail, number: string, c: Carriers.Carrier)
    requires setup.chars.Valid() && m.uid == 1 && m'.uid == 2 && m.messageId != m'.messageId
    requires number != "" && forall k :: 0 <= k < |number| ==> number[k] in setup.chars.word
    requires Carriers.DetectCarrier(setup.chars, number) == Some(c)
    requires setup.detect(m) == Some(BareOrder(Carriers.Name(c), number))
    requires setup.detect(m') == None && m'.subject == "" && m'.Body() == number
    ensures !NoneConfirmed(Run(setup, INITIAL, TwoArrivals(dispatcher, user, m, m')).t)
  {
    var full := World(EMPTY, [Account(user, 0, [m, m'], 3)]);
    var t := Ingest(EMPTY, dispatcher, user, m, Read(setup, m));
    TwoArrive(setup, dispatcher, user, m, m', full);
    RunNext(setup, INITIAL, [Connect(user)] + [Arrive(0, m)] + [Arrive(0, m')], Sync(0, 2, 2, dispatcher));
    TwoSynced(setup, dispatcher, user, m, m', full, Ingesting(setup, dispatcher));
    BareNumberIsRead(setup.chars, m', number, c);
    BareOrderStands(dispatcher, user, m, Carriers.Name(c), number, t);
    Clash(t, dispatcher, user, m', Read(setup, m'));
  }

  // ---------------------------------------------------------------- placeholders over runs

  /**
   Two carrier-only messages of one user whose first reported number is the same, with any run
   between them, whatever else their texts say: the second finds the order and the one shipment
   of the first, keyed by what the number alone is detected as, and changes no order or shipment.
   */
  lemma {:induction false} PlaceholderOverRuns(setup: Setup, dispatcher: bool, user: nat, t: Tables, m: RawEmail, w: World, events: seq<Event>,
                                               dispatcher': bool, m': RawEmail, number: string)
    requires setup.chars.Valid() && InOrderBooks(t) && m.messageId !in MessageIds(t.emails)
    requires setup.detect(m) == setup.detect(m') == None
    requires Read(setup, m).CarrierOnly? && Read(setup, m').CarrierOnly?
    requires Read(setup, m).number == Read(setup, m').number == number
    requires w.t == Ingest(t, dispatcher, user, m, Read(setup, m))
    ensures var end := Run(setup, w, events).t;
            var first, (t2, second) := WithFinding(t, dispatcher, user, m, Read(setup, m)).1,
                                       WithFinding(end, dispatcher', user, m', Read(setup, m'));
            && first.Some? && second == first && t2 == end && Sound(end)
            && IsPlaceholder(setup, end, first.value, user, number)
  {
    var f, f' := Read(setup, m), Read(setup, m');
    ReadMeaning(setup.chars, m, m.Body(), WordsRead(setup.chars, m.subject, m.Body()));
    ReadMeaning(setup.chars, m', m'.Body(), WordsRead(setup.chars, m'.subject, m'.Body()));
    assert f == f' == CarrierOnly(number, f.carrier);
    IngestKeepsBooks(t, dispatcher, user, m, f);
    RunKeepsBooks(setup, w, events, Run(setup, w, events));
    PlaceholderIsReused(t, Run(setup, w, events).t, dispatcher, dispatcher', user, m, m', number, f.carrier);
  }

  /** The user's order under the number and the name of its form; it holds a shipment with the number. */
  predicate IsPlaceholder(setup: Setup, t: Tables, orderId: nat, user: nat, number: string) {
    && orderId < |t.orders| && Carriers.FormOf(setup.chars, number).Some?
    && KeyOf(t.orders[orderId]) == (user, Carriers.FormOf(setup.chars, number).value.name, Some(number))
    && HasShipment(t.shipments, orderId, number)
  }
}
