/** Refreshing shipments: `tracking_sync_service.py` and `ShipmentService.update_status`. */
module Tracking {
  import opened Prelude

  datatype Status = Unknown | LabelCreated | InTransit | OutForDelivery | Delivered | Delayed | Exceptional | Returned

  /** `_map_status`: anything that is not one of our values counts as in transit. */
  function MapStatus(raw: string): Status {
    if raw == "unknown" then Unknown
    else if raw == "label_created" then LabelCreated
    else if raw == "out_for_delivery" then OutForDelivery
    else if raw == "delivered" then Delivered
    else if raw == "delayed" then Delayed
    else if raw == "exception" then Exceptional
    else if raw == "returned" then Returned
    else InTransit
  }

  /** The values of `ShipmentStatus`. */
  function RawName(s: Status): string {
    match s
    case Unknown => "unknown"
    case LabelCreated => "label_created"
    case InTransit => "in_transit"
    case OutForDelivery => "out_for_delivery"
    case Delivered => "delivered"
    case Delayed => "delayed"
    case Exceptional => "exception"
    case Returned => "returned"
  }

  /** The text is a status's own name, or no status's, which stands for in transit. */
  ghost predicate Means(raw: string, s: Status) {
    raw == RawName(s) || (s == InTransit && forall other :: raw != RawName(other))
  }

  /** Every text means one status, and that is what it is mapped to. */
  lemma MapStatusMeaning(raw: string, s: Status)
    ensures MapStatus(raw) == s <==> Means(raw, s)
  {
    var mapped := MapStatus(raw);
    assert mapped != InTransit ==> raw == RawName(mapped);
    if Means(raw, s) && raw == RawName(s) {
      assert |raw| == |RawName(s)| && raw[|raw| - 1] == RawName(s)[|raw| - 1];
    }
    if mapped == InTransit && raw != "in_transit" {
      forall other ensures raw != RawName(other) { assert other == InTransit || raw != RawName(other); }
    }
  }

  /** `TERMINAL_STATUSES` */
  predicate Terminal(s: Status) { s == Delivered || s == Returned }

  datatype ProviderEvent = ProviderEvent(status: string, description: Option<string>, location: Option<string>, occurredAt: Stamp)

  datatype TrackingEvent = TrackingEvent(status: Status, description: Option<string>, location: Option<string>, occurredAt: Stamp)

  /** What makes two events the same: mapped status and instant. */
  type Key = (Status, int)

  function KeyOf(e: ProviderEvent): Key { (MapStatus(e.status), e.occurredAt.Utc()) }

  function StoredKey(e: TrackingEvent): Key { (e.status, e.occurredAt.Utc()) }

  function Keys(events: seq<TrackingEvent>): set<Key> {
    set k | 0 <= k < |events| :: StoredKey(events[k])
  }

  function FetchedKeys(events: seq<ProviderEvent>): set<Key> {
    set k | 0 <= k < |events| :: KeyOf(events[k])
  }

  /** The part of a shipment that its history determines; events are rows in the order of insertion. */
  datatype Track = Track(status: Status, events: seq<TrackingEvent>, deliveryDate: Option<int>)

  datatype Parcel = Parcel(
    number: string, carrier: Option<string>, track: Track,
    estimatedDate: Option<int>, lastUpdate: Option<Stamp>, registered: bool)

  // ---------------------------------------------------------------- sorted(events, key=occurred_at)

  function Time(e: ProviderEvent): int { e.occurredAt.Utc() }

  /** Two stamps can be compared if both carry an offset or neither does; a single stamp needs no comparison. */
  predicate Comparable(events: seq<ProviderEvent>) {
    |events| <= 1 || forall i, j :: 0 <= i < |events| && 0 <= j < |events| ==> events[i].occurredAt.Naive? == events[j].occurredAt.Naive?
  }

  /** `e` behind every event that is not later. */
  function Insert(es: seq<ProviderEvent>, e: ProviderEvent): seq<ProviderEvent> {
    if es == [] || Time(es[|es| - 1]) <= Time(e) then es + [e]
    else Insert(es[..|es| - 1], e) + [es[|es| - 1]]
  }

  /** The stable sort by time. */
  function SortByTime(es: seq<ProviderEvent>): seq<ProviderEvent> {
    if es == [] then [] else Insert(SortByTime(es[..|es| - 1]), es[|es| - 1])
  }

  function UpTo(es: seq<ProviderEvent>, t: int): seq<ProviderEvent> {
    if es == [] then [] else UpTo(es[..|es| - 1], t) + (if Time(es[|es| - 1]) <= t then [es[|es| - 1]] else [])
  }

  function After(es: seq<ProviderEvent>, t: int): seq<ProviderEvent> {
    if es == [] then [] else After(es[..|es| - 1], t) + (if Time(es[|es| - 1]) > t then [es[|es| - 1]] else [])
  }

  function At(es: seq<ProviderEvent>, t: int): seq<ProviderEvent> {
    if es == [] then [] else At(es[..|es| - 1], t) + (if Time(es[|es| - 1]) == t then [es[|es| - 1]] else [])
  }

  predicate Ascending(es: seq<ProviderEvent>) {
    forall i, j :: 0 <= i < j < |es| ==> Time(es[i]) <= Time(es[j])
  }

  lemma {:induction false} InsertElements(es: seq<ProviderEvent>, e: ProviderEvent)
    ensures |Insert(es, e)| == |es| + 1
    ensures forall x :: x in Insert(es, e) <==> x in es || x == e
    decreases |es|
  {
    if es != [] && Time(es[|es| - 1]) > Time(e) {
      var before, last := es[..|es| - 1], es[|es| - 1];
      InsertElements(before, e);
      assert es == before + [last];
    }
  }

  lemma {:induction false} InsertAscends(es: seq<ProviderEvent>, e: ProviderEvent)
    requires Ascending(es)
    ensures Ascending(Insert(es, e))
    decreases |es|
  {
    if es != [] && Time(es[|es| - 1]) > Time(e) {
      var before, last := es[..|es| - 1], es[|es| - 1];
      InsertAscends(before, e);
      InsertElements(before, e);
      var r := Insert(before, e);
      forall k | 0 <= k < |r| ensures Time(r[k]) <= Time(last) {
        assert r[k] in r;
      }
    }
  }

  lemma AtSnoc(es: seq<ProviderEvent>, e: ProviderEvent, t: int)
    ensures At(es + [e], t) == At(es, t) + (if Time(e) == t then [e] else [])
  {
    assert (es + [e])[..|es|] == es;
  }

  lemma {:induction false} InsertStable(es: seq<ProviderEvent>, e: ProviderEvent, t: int)
    requires Ascending(es)
    ensures At(Insert(es, e), t) == At(es + [e], t)
    decreases |es|
  {
    if es != [] && Time(es[|es| - 1]) > Time(e) {
      var before, last := es[..|es| - 1], es[|es| - 1];
      InsertStable(before, e, t);
      StableStep(before, last, Insert(before, e), e, t);
      Snoc(es);
    }
  }

  lemma StableStep(before: seq<ProviderEvent>, last: ProviderEvent, inserted: seq<ProviderEvent>, e: ProviderEvent, t: int)
    requires At(inserted, t) == At(before + [e], t) && Time(last) > Time(e)
    ensures At(inserted + [last], t) == At(before + [last] + [e], t)
  {
    AtSnoc(inserted, last, t);
    AtSnoc(before, e, t);
    AtSnoc(before, last, t);
    AtSnoc(before + [last], e, t);
    Swap(At(before, t), if Time(last) == t then [last] else [], if Time(e) == t then [e] else []);
  }

  lemma Swap(a: seq<ProviderEvent>, x: seq<ProviderEvent>, y: seq<ProviderEvent>)
    requires x == [] || y == []
    ensures a + x + y == a + y + x
  {
  }

  lemma {:induction false} SortAscends(es: seq<ProviderEvent>)
    ensures Ascending(SortByTime(es)) && |SortByTime(es)| == |es|
    ensures forall x :: x in SortByTime(es) <==> x in es
    decreases |es|
  {
    if es != [] {
      var before, last := es[..|es| - 1], es[|es| - 1];
      SortAscends(before);
      InsertAscends(SortByTime(before), last);
      InsertElements(SortByTime(before), last);
      assert es == before + [last];
    }
  }

  /** Sorting puts the events in time order and keeps the order of those at the same time. */
  lemma {:induction false} SortIsStable(es: seq<ProviderEvent>, t: int)
    ensures Ascending(SortByTime(es)) && At(SortByTime(es), t) == At(es, t)
    decreases |es|
  {
    SortAscends(es);
    if es != [] {
      var before, last := es[..|es| - 1], es[|es| - 1];
      SortIsStable(before, t);
      InsertStable(SortByTime(before), last, t);
      AtSnoc(SortByTime(before), last, t);
    }
  }

  lemma {:induction false} InsertLate(a: seq<ProviderEvent>, b: seq<ProviderEvent>, e: ProviderEvent)
    requires forall k :: 0 <= k < |a| ==> Time(a[k]) <= Time(e)
    ensures Insert(a + b, e) == a + Insert(b, e)
    decreases |b|
  {
    if b == [] {
      assert a + b == a;
      if a != [] { assert Time(a[|a| - 1]) <= Time(e); }
    } else if Time(b[|b| - 1]) > Time(e) {
      InsertLate(a, b[..|b| - 1], e);
      assert (a + b)[..|a + b| - 1] == a + b[..|b| - 1];
    }
  }

  lemma {:induction false} InsertEarly(a: seq<ProviderEvent>, b: seq<ProviderEvent>, e: ProviderEvent)
    requires forall k :: 0 <= k < |b| ==> Time(b[k]) > Time(e)
    ensures Insert(a + b, e) == Insert(a, e) + b
    decreases |b|
  {
    if b == [] {
      assert a + b == a;
    } else {
      var before, last := b[..|b| - 1], b[|b| - 1];
      InsertEarly(a, before, e);
      InsertBefore(a + before, last, e);
      Snoc(b);
      Associates(a, before, [last]);
      Associates(Insert(a, e), before, [last]);
    }
  }

  lemma InsertBefore(es: seq<ProviderEvent>, last: ProviderEvent, e: ProviderEvent)
    requires Time(last) > Time(e)
    ensures Insert(es + [last], e) == Insert(es, e) + [last]
  {
    assert (es + [last])[..|es|] == es;
  }

  lemma {:induction false} CutTimes(es: seq<ProviderEvent>, t: int)
    ensures forall x :: x in UpTo(es, t) ==> Time(x) <= t
    ensures forall x :: x in After(es, t) ==> Time(x) > t
    decreases |es|
  {
    if es != [] { CutTimes(es[..|es| - 1], t); }
  }

  /** Sorting splits at any time: first what is not later, then the rest. */
  lemma {:induction false} SortSplits(es: seq<ProviderEvent>, t: int)
    ensures SortByTime(es) == SortByTime(UpTo(es, t)) + SortByTime(After(es, t))
    decreases |es|
  {
    if es != [] {
      var before, e := es[..|es| - 1], es[|es| - 1];
      SortSplits(before, t);
      var a, b := UpTo(before, t), After(before, t);
      CutTimes(before, t);
      SortAscends(a);
      SortAscends(b);
      var sa, sb := SortByTime(a), SortByTime(b);
      if Time(e) <= t {
        assert (a + [e])[..|a|] == a;
        assert UpTo(es, t) == a + [e] && After(es, t) == b;
        forall k | 0 <= k < |sb| ensures Time(sb[k]) > Time(e) { assert sb[k] in sb; }
        InsertEarly(sa, sb, e);
      } else {
        assert (b + [e])[..|b|] == b;
        assert UpTo(es, t) == a && After(es, t) == b + [e];
        forall k | 0 <= k < |sa| ensures Time(sa[k]) <= Time(e) { assert sa[k] in sa; }
        InsertLate(sa, sb, e);
      }
    }
  }

  // ---------------------------------------------------------------- one answer

  function Stored(e: ProviderEvent): TrackingEvent {
    TrackingEvent(MapStatus(e.status), e.description, e.location, Naive(e.occurredAt.Utc()))
  }

  /** The body of the loop over the sorted events. */
  function Record(p: Track, e: ProviderEvent): Track {
    if KeyOf(e) in Keys(p.events) then p
    else Track(MapStatus(e.status), p.events + [Stored(e)],
               if MapStatus(e.status) == Delivered then Some(Naive(e.occurredAt.Utc()).Date()) else p.deliveryDate)
  }

  function RecordAll(p: Track, es: seq<ProviderEvent>): Track {
    if es == [] then p else Record(RecordAll(p, es[..|es| - 1]), es[|es| - 1])
  }

  function LatestTime(es: seq<ProviderEvent>): int
    requires es != []
  {
    if |es| == 1 then Time(es[0]) else Max(LatestTime(es[..|es| - 1]), Time(es[|es| - 1]))
  }

  /** What a successful sync makes of a parcel. */
  function Sync(p: Parcel, events: seq<ProviderEvent>): Parcel {
    p.(track := RecordAll(p.track, SortByTime(events)), registered := true,
       lastUpdate := if events == [] then p.lastUpdate else Some(Naive(LatestTime(events))))
  }

  lemma RecordNext(p: Track, es: seq<ProviderEvent>, k: nat)
    requires k < |es|
    ensures RecordAll(p, es[..k + 1]) == Record(RecordAll(p, es[..k]), es[k])
  {
    assert es[..k + 1][..k] == es[..k];
  }

  lemma {:induction false} RecordConcat(p: Track, a: seq<ProviderEvent>, b: seq<ProviderEvent>)
    ensures RecordAll(p, a + b) == RecordAll(RecordAll(p, a), b)
    decreases |b|
  {
    if b == [] {
      assert a + b == a;
    } else {
      RecordConcat(p, a, b[..|b| - 1]);
      assert (a + b)[..|a + b| - 1] == a + b[..|b| - 1];
    }
  }

  lemma KeysSnoc(events: seq<TrackingEvent>, e: TrackingEvent)
    ensures Keys(events + [e]) == Keys(events) + {StoredKey(e)}
  {
    assert (events + [e])[|events|] == e;
    assert forall k :: 0 <= k < |events| ==> (events + [e])[k] == events[k];
  }

  lemma FetchedSnoc(events: seq<ProviderEvent>, e: ProviderEvent)
    ensures FetchedKeys(events + [e]) == FetchedKeys(events) + {KeyOf(e)}
  {
    assert (events + [e])[|events|] == e;
    assert forall k :: 0 <= k < |events| ==> (events + [e])[k] == events[k];
  }

  predicate Unique(events: seq<TrackingEvent>) {
    forall i, j :: 0 <= i < j < |events| ==> StoredKey(events[i]) != StoredKey(events[j])
  }

  /** Recording keeps the old rows in front, adds exactly the keys that are new, and each of them once. */
  lemma {:induction false} RecordKeys(p: Track, es: seq<ProviderEvent>)
    ensures p.events <= RecordAll(p, es).events
    ensures Keys(RecordAll(p, es).events) == Keys(p.events) + FetchedKeys(es)
    ensures Unique(p.events) ==> Unique(RecordAll(p, es).events)
    decreases |es|
  {
    if es != [] {
      var before, e := es[..|es| - 1], es[|es| - 1];
      RecordKeys(p, before);
      var q := RecordAll(p, before);
      assert es == before + [e];
      FetchedSnoc(before, e);
      KeysSnoc(q.events, Stored(e));
      if KeyOf(e) !in Keys(q.events) && Unique(p.events) {
        forall k | 0 <= k < |q.events| ensures StoredKey(q.events[k]) != KeyOf(e) {
          assert StoredKey(q.events[k]) in Keys(q.events);
        }
      }
    }
  }

  lemma {:induction false} RecordKnown(p: Track, es: seq<ProviderEvent>)
    requires FetchedKeys(es) <= Keys(p.events)
    ensures RecordAll(p, es) == p
    decreases |es|
  {
    if es != [] {
      var before, e := es[..|es| - 1], es[|es| - 1];
      assert es == before + [e];
      FetchedSnoc(before, e);
      RecordKnown(p, before);
    }
  }

  lemma SortKeys(es: seq<ProviderEvent>)
    ensures FetchedKeys(SortByTime(es)) == FetchedKeys(es)
  {
    SortAscends(es);
    var s := SortByTime(es);
    forall k | 0 <= k < |es| ensures KeyOf(es[k]) in FetchedKeys(s) {
      assert es[k] in s;
      var i :| 0 <= i < |s| && s[i] == es[k];
    }
    forall k | 0 <= k < |s| ensures KeyOf(s[k]) in FetchedKeys(es) {
      assert s[k] in es;
      var i :| 0 <= i < |es| && es[i] == s[k];
    }
  }

  /**
   History algebra: a sync keeps the old history as a prefix and the keys unique, and its key
   set is the union of the old and the fetched keys, so the order of two syncs does not matter to it.
   */
  lemma SyncHistory(p: Parcel, events: seq<ProviderEvent>, more: seq<ProviderEvent>)
    ensures p.track.events <= Sync(p, events).track.events
    ensures Unique(p.track.events) ==> Unique(Sync(p, events).track.events)
    ensures Keys(Sync(p, events).track.events) == Keys(p.track.events) + FetchedKeys(events)
    ensures Keys(Sync(Sync(p, events), more).track.events) == Keys(Sync(Sync(p, more), events).track.events)
  {
    SyncKeys(p, events);
    SyncKeys(p, more);
    SyncKeys(Sync(p, events), more);
    SyncKeys(Sync(p, more), events);
  }

  lemma SyncKeys(p: Parcel, events: seq<ProviderEvent>)
    ensures p.track.events <= Sync(p, events).track.events
    ensures Unique(p.track.events) ==> Unique(Sync(p, events).track.events)
    ensures Keys(Sync(p, events).track.events) == Keys(p.track.events) + FetchedKeys(events)
  {
    RecordKeys(p.track, SortByTime(events));
    SortKeys(events);
  }

  /** The same answer a second time changes nothing at all. */
  lemma SyncIsIdempotent(p: Parcel, events: seq<ProviderEvent>)
    ensures Sync(Sync(p, events), events) == Sync(p, events)
  {
    SyncKeys(p, events);
    SortKeys(events);
    RecordKnown(Sync(p, events).track, SortByTime(events));
  }

  // ---------------------------------------------------------------- incremental against one-shot

  /** `later` holds the events of `earlier` in their order, and otherwise only strictly later ones. */
  ghost predicate Grows(earlier: seq<ProviderEvent>, later: seq<ProviderEvent>) {
    exists t: int :: earlier == UpTo(later, t)
  }

  function SyncEach(p: Parcel, answers: seq<seq<ProviderEvent>>): Parcel {
    if answers == [] then p else Sync(SyncEach(p, answers[..|answers| - 1]), answers[|answers| - 1])
  }

  lemma SyncTwice(p: Parcel, earlier: seq<ProviderEvent>, later: seq<ProviderEvent>)
    requires Grows(earlier, later)
    ensures Sync(Sync(p, earlier), later) == Sync(p, later)
  {
    var t: int :| earlier == UpTo(later, t);
    var a, b := SortByTime(earlier), SortByTime(After(later, t));
    SortSplits(later, t);
    var q := RecordAll(p.track, a);
    RecordConcat(p.track, a, b);
    RecordConcat(q, a, b);
    RecordKeys(p.track, a);
    RecordKnown(q, a);
    if later == [] { assert earlier == []; }
  }

  /** Syncing growing answers one after the other is syncing only the last, from any starting parcel. */
  lemma {:induction false} IncrementalIsOneShot(p: Parcel, answers: seq<seq<ProviderEvent>>)
    requires answers != [] && forall i :: 0 < i < |answers| ==> Grows(answers[i - 1], answers[i])
    ensures SyncEach(p, answers) == Sync(p, answers[|answers| - 1])
    decreases |answers|
  {
    var before := answers[..|answers| - 1];
    if before == [] {
      assert SyncEach(p, before) == p;
    } else {
      IncrementalIsOneShot(p, before);
      SyncTwice(p, before[|before| - 1], answers[|answers| - 1]);
    }
  }

  /** What appending rows makes of a track: its status and delivery date follow the rows. */
  function Extended(t: Track, rows: seq<TrackingEvent>): Track {
    if rows == [] then t
    else
      var before, row := Extended(t, rows[..|rows| - 1]), rows[|rows| - 1];
      Track(row.status, before.events + [row],
            if row.status == Delivered then Some(Naive(row.occurredAt.Utc()).Date()) else before.deliveryDate)
  }

  lemma {:induction false} ExtendedEvents(t: Track, rows: seq<TrackingEvent>)
    ensures Extended(t, rows).events == t.events + rows
    decreases |rows|
  {
    if rows == [] {
      assert t.events + rows == t.events;
    } else {
      var before, row := rows[..|rows| - 1], rows[|rows| - 1];
      ExtendedEvents(t, before);
      assert before + [row] == rows;
      assert t.events + before + [row] == t.events + (before + [row]);
    }
  }

  /** `q` is `t` with rows appended, and nothing else. */
  ghost predicate Extends(q: Track, t: Track) {
    t.events <= q.events && q == Extended(t, q.events[|t.events|..])
  }

  lemma ExtendsNext(q: Track, t: Track, row: TrackingEvent)
    requires Extends(q, t)
    ensures Extends(Extended(q, [row]), t)
  {
    var n := |t.events|;
    var r := Extended(q, [row]);
    assert [row][..0] == [] && Extended(q, []) == q;
    assert r.events == q.events + [row];
    assert r.events[n..] == q.events[n..] + [row];
    assert (q.events[n..] + [row])[..|q.events| - n] == q.events[n..];
  }

  lemma {:induction false} RecordExtends(q: Track, t: Track, es: seq<ProviderEvent>)
    requires Extends(q, t)
    ensures Extends(RecordAll(q, es), t)
    decreases |es|
  {
    if es != [] {
      var before, e := RecordAll(q, es[..|es| - 1]), es[|es| - 1];
      RecordExtends(q, t, es[..|es| - 1]);
      if KeyOf(e) !in Keys(before.events) {
        ExtendsNext(before, t, Stored(e));
        assert [Stored(e)][..0] == [] && Extended(before, []) == before;
      }
    }
  }

  /** Recording on top of a prefix of what it yields from the start yields the same. */
  lemma {:induction false} RecordResumes(p: Track, q: Track, es: seq<ProviderEvent>)
    requires Extends(q, p) && q.events <= RecordAll(p, es).events
    ensures RecordAll(q, es) == RecordAll(p, es)
    decreases |es|
  {
    ExtendsSelf(p);
    RecordExtends(p, p, es);
    var all := RecordAll(p, es);
    if es != [] && q.events <= RecordAll(p, es[..|es| - 1]).events {
      RecordResumes(p, q, es[..|es| - 1]);
    } else {
      assert q.events == all.events by {
        if es != [] { LongerByOne(RecordAll(p, es[..|es| - 1]).events, all.events, q.events); }
      }
      RecordKeys(p, es);
      RecordKnown(q, es);
    }
  }

  lemma ExtendsSelf(p: Track)
    ensures Extends(p, p)
  {
    assert p.events[|p.events|..] == [];
  }

  lemma LongerByOne(a: seq<TrackingEvent>, b: seq<TrackingEvent>, c: seq<TrackingEvent>)
    requires a <= b && |b| <= |a| + 1 && c <= b && !(c <= a)
    ensures c == b
  {
  }

  lemma {:induction false} SyncEachExtends(p: Parcel, answers: seq<seq<ProviderEvent>>)
    ensures var q := SyncEach(p, answers);
            && Extends(q.track, p.track)
            && q == p.(track := q.track, lastUpdate := q.lastUpdate, registered := q.registered)
    decreases |answers|
  {
    if answers == [] {
      ExtendsSelf(p.track);
    } else {
      var before := answers[..|answers| - 1];
      SyncEachExtends(p, before);
      RecordExtends(SyncEach(p, before).track, p.track, SortByTime(answers[|answers| - 1]));
    }
  }

  /** The rows of an answer that are new to a history with the keys `known`, each key once and in order. */
  function FreshRows(known: set<Key>, es: seq<ProviderEvent>): seq<TrackingEvent> {
    if es == [] then []
    else
      var before, e := FreshRows(known, es[..|es| - 1]), es[|es| - 1];
      if KeyOf(e) in known || KeyOf(e) in Keys(before) then before else before + [Stored(e)]
  }

  lemma KeysConcat(a: seq<TrackingEvent>, b: seq<TrackingEvent>)
    ensures Keys(a + b) == Keys(a) + Keys(b)
  {
    var all := a + b;
    assert forall k :: 0 <= k < |a| ==> all[k] == a[k];
    assert forall k :: 0 <= k < |b| ==> all[|a| + k] == b[k];
  }

  lemma {:induction false} RecordAppendsFresh(p: Track, es: seq<ProviderEvent>)
    ensures RecordAll(p, es).events == p.events + FreshRows(Keys(p.events), es)
    decreases |es|
  {
    if es == [] {
      assert p.events + [] == p.events;
    } else {
      var before, e := FreshRows(Keys(p.events), es[..|es| - 1]), es[|es| - 1];
      RecordAppendsFresh(p, es[..|es| - 1]);
      KeysConcat(p.events, before);
      Associates(p.events, before, [Stored(e)]);
    }
  }

  lemma PrefixOfRows(a: seq<TrackingEvent>, x: seq<TrackingEvent>, y: seq<TrackingEvent>)
    ensures a + x <= a + y <==> x <= y
  {
    if a + x <= a + y {
      forall k | 0 <= k < |x| ensures x[k] == y[k] { assert (a + x)[|a| + k] == (a + y)[|a| + k]; }
    }
  }

  /**
   For any series of answers, growing or not: syncing each in turn is syncing only the last if
   and only if the rows appended by the earlier ones begin the fresh rows of the last in time
   order, and an empty last answer does not hide an earlier last update.
   */
  lemma {:induction false} OneShotIff(p: Parcel, answers: seq<seq<ProviderEvent>>, q: Parcel, last: seq<ProviderEvent>)
    requires answers != [] && last == answers[|answers| - 1] && q == SyncEach(p, answers[..|answers| - 1])
    ensures |p.track.events| <= |q.track.events|
    ensures SyncEach(p, answers) == Sync(p, last)
       <==> q.track.events[|p.track.events|..] <= FreshRows(Keys(p.track.events), SortByTime(last))
            && (last == [] ==> q.lastUpdate == p.lastUpdate)
  {
    SyncEachExtends(p, answers[..|answers| - 1]);
    var appended := q.track.events[|p.track.events|..];
    RecordAppendsFresh(p.track, SortByTime(last));
    assert q.track.events == p.track.events + appended;
    PrefixOfRows(p.track.events, appended, FreshRows(Keys(p.track.events), SortByTime(last)));
    SyncKeys(q, last);
    if q.track.events <= Sync(p, last).track.events { RecordResumes(p.track, q.track, SortByTime(last)); }
  }

  /** The row holds the fetched event: its meaning, its texts, and its instant in UTC without a zone. */
  ghost predicate Copies(row: TrackingEvent, e: ProviderEvent) {
    && Means(e.status, row.status) && row.description == e.description && row.location == e.location
    && row.occurredAt.Naive? && e.occurredAt.Shows(row.occurredAt.local)
  }

  lemma StoredIsCopy(e: ProviderEvent)
    ensures Copies(Stored(e), e)
  {
    MapStatusMeaning(e.status, MapStatus(e.status));
  }

  /** Two fetched events are the same if they mean the same status and happened at the same instant. */
  lemma SameKeyIff(a: ProviderEvent, b: ProviderEvent)
    ensures KeyOf(a) == KeyOf(b) <==> exists s, t :: Means(a.status, s) && Means(b.status, s) && a.occurredAt.Shows(t) && b.occurredAt.Shows(t)
  {
    MapStatusMeaning(a.status, MapStatus(a.status));
    MapStatusMeaning(b.status, MapStatus(b.status));
    assert a.occurredAt.Shows(a.occurredAt.Utc()) && b.occurredAt.Shows(b.occurredAt.Utc());
    forall s | Means(a.status, s) && Means(b.status, s) ensures MapStatus(a.status) == s == MapStatus(b.status) {
      MapStatusMeaning(a.status, s);
      MapStatusMeaning(b.status, s);
    }
  }

  /** The event at position `k` is not known, and none before it is the same. */
  ghost predicate IsFresh(known: set<Key>, es: seq<ProviderEvent>, k: nat) {
    k < |es| && KeyOf(es[k]) !in known && forall j :: 0 <= j < k ==> KeyOf(es[j]) != KeyOf(es[k])
  }

  /** The positions of the fresh events, in order. */
  ghost predicate FreshAt(known: set<Key>, es: seq<ProviderEvent>, at: seq<nat>) {
    && (forall i, j :: 0 <= i < j < |at| ==> at[i] < at[j])
    && (forall k: nat :: k in at <==> IsFresh(known, es, k))
  }

  lemma FreshAtNext(known: set<Key>, es: seq<ProviderEvent>, e: ProviderEvent, at: seq<nat>)
    requires FreshAt(known, es, at)
    ensures FreshAt(known, es + [e], if KeyOf(e) in known || KeyOf(e) in FetchedKeys(es) then at else at + [|es|])
  {
    var all, n := es + [e], |es|;
    assert all[n] == e && forall j :: 0 <= j < n ==> all[j] == es[j];
    forall k: nat | k < n ensures IsFresh(known, all, k) <==> k in at { assert IsFresh(known, all, k) <==> IsFresh(known, es, k); }
    assert forall i :: 0 <= i < |at| ==> at[i] in at;
    assert IsFresh(known, all, n) <==> KeyOf(e) !in known && KeyOf(e) !in FetchedKeys(es);
    assert forall k: nat :: k in at + [n] <==> k in at || k == n;
  }

  lemma {:induction false} FreshRowKeys(known: set<Key>, es: seq<ProviderEvent>)
    ensures Keys(FreshRows(known, es)) == FetchedKeys(es) - known
    decreases |es|
  {
    if es != [] {
      var before, e := es[..|es| - 1], es[|es| - 1];
      FreshRowKeys(known, before);
      assert es == before + [e];
      FetchedSnoc(before, e);
      KeysSnoc(FreshRows(known, before), Stored(e));
    }
  }

  /** The rows copy the events at these positions. */
  ghost predicate CopiesAt(rows: seq<TrackingEvent>, es: seq<ProviderEvent>, at: seq<nat>) {
    |at| == |rows| && forall i :: 0 <= i < |at| ==> at[i] < |es| && Copies(rows[i], es[at[i]])
  }

  lemma CopiesNext(rows: seq<TrackingEvent>, es: seq<ProviderEvent>, e: ProviderEvent, at: seq<nat>)
    requires CopiesAt(rows, es, at)
    ensures CopiesAt(rows, es + [e], at) && CopiesAt(rows + [Stored(e)], es + [e], at + [|es|])
  {
    var all := es + [e];
    StoredIsCopy(e);
    assert all[|es|] == e && forall k :: 0 <= k < |es| ==> all[k] == es[k];
  }

  /** The fresh rows copy exactly the fresh events, in their order. */
  lemma {:induction false} FreshRowsCopy(known: set<Key>, es: seq<ProviderEvent>) returns (at: seq<nat>)
    ensures FreshAt(known, es, at) && CopiesAt(FreshRows(known, es), es, at)
    decreases |es|
  {
    at := [];
    if es != [] {
      var before, e := es[..|es| - 1], es[|es| - 1];
      at := FreshRowsCopy(known, before);
      Snoc(es);
      FreshRowKeys(known, before);
      FreshAtNext(known, before, e, at);
      CopiesNext(FreshRows(known, before), before, e, at);
      if KeyOf(e) !in known && KeyOf(e) !in FetchedKeys(before) { at := at + [|before|]; }
    }
  }

  // ---------------------------------------------------------------- last update and delivery date

  lemma {:induction false} LatestTimeIsMax(es: seq<ProviderEvent>)
    requires es != []
    ensures exists k :: 0 <= k < |es| && es[k].occurredAt.Shows(LatestTime(es))
    ensures forall k, t :: 0 <= k < |es| && es[k].occurredAt.Shows(t) ==> t <= LatestTime(es)
    decreases |es|
  {
    var n := |es| - 1;
    assert es[n].occurredAt.Shows(Time(es[n]));
    if n > 0 {
      var before := es[..n];
      LatestTimeIsMax(before);
      var k :| 0 <= k < n && before[k].occurredAt.Shows(LatestTime(before));
      assert es[k] == before[k];
      forall j, t | 0 <= j < |es| && es[j].occurredAt.Shows(t) ensures t <= LatestTime(es) {
        if j < n { assert before[j] == es[j]; }
      }
    }
  }

  /** The last update is the instant of a fetched event, and none of them is later; an empty answer leaves it. */
  ghost predicate UpdatedAt(before: Option<Stamp>, after: Option<Stamp>, events: seq<ProviderEvent>) {
    if events == [] then after == before
    else
      && after.Some? && after.value.Naive?
      && (exists k :: 0 <= k < |events| && events[k].occurredAt.Shows(after.value.local))
      && (forall k, t :: 0 <= k < |events| && events[k].occurredAt.Shows(t) ==> t <= after.value.local)
  }

  predicate NoneDelivered(events: seq<TrackingEvent>, from: nat) {
    forall i :: from <= i < |events| ==> events[i].status != Delivered
  }

  /** Behind the first `n` rows: the delivery date is the day of the last DELIVERED row, or as before if there is none. */
  predicate DatedBy(before: Option<int>, after: Option<int>, events: seq<TrackingEvent>, n: nat) {
    && (NoneDelivered(events, n) ==> after == before)
    && (forall i :: n <= i < |events| && events[i].status == Delivered && NoneDelivered(events, i + 1)
          ==> after == Some(events[i].occurredAt.local / 86_400_000_000))
  }

  lemma {:induction false} RecordDates(p: Track, es: seq<ProviderEvent>)
    ensures DatedBy(p.deliveryDate, RecordAll(p, es).deliveryDate, RecordAll(p, es).events, |p.events|)
    decreases |es|
  {
    if es != [] {
      var before, e := RecordAll(p, es[..|es| - 1]), es[|es| - 1];
      RecordDates(p, es[..|es| - 1]);
      RecordKeys(p, es[..|es| - 1]);
      if KeyOf(e) !in Keys(before.events) { DatedNext(p, before, Stored(e), Record(before, e)); }
    }
  }

  lemma NoneDeliveredNext(events: seq<TrackingEvent>, row: TrackingEvent, from: nat)
    requires row.status != Delivered
    ensures NoneDelivered(events + [row], from) <==> NoneDelivered(events, from)
  {
    var all := events + [row];
    assert all[|events|] == row && forall i :: 0 <= i < |events| ==> all[i] == events[i];
  }

  lemma DatedNext(p: Track, q: Track, row: TrackingEvent, r: Track)
    requires |p.events| <= |q.events| && DatedBy(p.deliveryDate, q.deliveryDate, q.events, |p.events|)
    requires r.events == q.events + [row]
    requires r.deliveryDate == if row.status == Delivered then Some(row.occurredAt.local / DAY) else q.deliveryDate
    ensures DatedBy(p.deliveryDate, r.deliveryDate, r.events, |p.events|)
  {
    var n := |q.events|;
    assert r.events[n] == row && forall i :: 0 <= i < n ==> r.events[i] == q.events[i];
    if row.status == Delivered {
      forall i | 0 <= i <= n ensures !NoneDelivered(r.events, i) { assert r.events[n].status == Delivered; }
    } else {
      forall i: nat | i <= n ensures NoneDelivered(r.events, i) <==> NoneDelivered(q.events, i) { NoneDeliveredNext(q.events, row, i); }
      forall i: nat | |p.events| <= i <= n && r.events[i].status == Delivered && NoneDelivered(r.events, i + 1)
        ensures r.deliveryDate == Some(r.events[i].occurredAt.local / 86_400_000_000)
      {
        assert i < n && q.events[i] == r.events[i] && NoneDelivered(q.events, i + 1);
      }
    }
  }

  // ---------------------------------------------------------------- the status against the latest event

  /** The last row of a history is a latest one, so that a status that follows the last row is that of a latest event. */
  predicate LastIsLatest(events: seq<TrackingEvent>) {
    forall k :: 0 <= k < |events| ==> events[k].occurredAt.Utc() <= events[|events| - 1].occurredAt.Utc()
  }

  /** Not before any row of the history. */
  predicate NotBefore(events: seq<TrackingEvent>, time: int) {
    forall k :: 0 <= k < |events| ==> events[k].occurredAt.Utc() <= time
  }

  predicate IsNew(p: Track, e: ProviderEvent) { KeyOf(e) !in Keys(p.events) }

  predicate NothingNew(p: Track, es: seq<ProviderEvent>) {
    forall k :: 0 <= k < |es| ==> !IsNew(p, es[k])
  }

  /** Some event of the answer is new and not before any row of the history. */
  predicate CatchesUp(p: Track, es: seq<ProviderEvent>) {
    exists k :: 0 <= k < |es| && IsNew(p, es[k]) && NotBefore(p.events, Time(es[k]))
  }

  /** Recording events up to a time adds no row after it. */
  lemma RowsUpTo(p: Track, es: seq<ProviderEvent>, time: int)
    requires forall k :: 0 <= k < |es| ==> Time(es[k]) <= time
    ensures NotBefore(RecordAll(p, es).events, time) <==> NotBefore(p.events, time)
  {
    RecordKeys(p, es);
    var rows := RecordAll(p, es).events;
    assert forall k :: 0 <= k < |p.events| ==> rows[k] == p.events[k];
    if NotBefore(p.events, time) {
      forall k | 0 <= k < |rows| ensures rows[k].occurredAt.Utc() <= time {
        assert StoredKey(rows[k]) in Keys(p.events) + FetchedKeys(es);
      }
    }
  }

  /** An event that is known by the time of its turn, though new at first, repeats the key of an earlier one. */
  lemma RepeatsEarlier(p: Track, es: seq<ProviderEvent>, e: ProviderEvent) returns (k: nat)
    requires IsNew(p, e) && KeyOf(e) in Keys(RecordAll(p, es).events)
    ensures k < |es| && KeyOf(es[k]) == KeyOf(e)
  {
    RecordKeys(p, es);
    k :| 0 <= k < |es| && KeyOf(es[k]) == KeyOf(e);
  }

  lemma NewsSnoc(p: Track, es: seq<ProviderEvent>, e: ProviderEvent)
    ensures NothingNew(p, es + [e]) <==> NothingNew(p, es) && !IsNew(p, e)
    ensures CatchesUp(p, es + [e]) <==> CatchesUp(p, es) || (IsNew(p, e) && NotBefore(p.events, Time(e)))
  {
    var all := es + [e];
    assert all[|es|] == e && forall k :: 0 <= k < |es| ==> all[k] == es[k];
  }

  lemma {:induction false} RecordLatest(p: Track, es: seq<ProviderEvent>)
    requires Ascending(es)
    ensures LastIsLatest(RecordAll(p, es).events) <==> if NothingNew(p, es) then LastIsLatest(p.events) else CatchesUp(p, es)
    decreases |es|
  {
    if es != [] {
      var before, e := es[..|es| - 1], es[|es| - 1];
      var q := RecordAll(p, before);
      assert es == before + [e];
      NewsSnoc(p, before, e);
      RecordLatest(p, before);
      if KeyOf(e) in Keys(q.events) {
        if IsNew(p, e) {
          var k := RepeatsEarlier(p, before, e);
          assert IsNew(p, before[k]) && Time(before[k]) == Time(e);
        }
      } else {
        RecordKeys(p, before);
        RowsUpTo(p, before, Time(e));
        assert LastIsLatest(q.events + [Stored(e)]) <==> NotBefore(q.events, Time(e)) by { LastOf(q.events, Stored(e)); }
        assert CatchesUp(p, before) ==> NotBefore(p.events, Time(e));
      }
    }
  }

  lemma LastOf(events: seq<TrackingEvent>, row: TrackingEvent)
    ensures LastIsLatest(events + [row]) <==> NotBefore(events, row.occurredAt.Utc())
  {
    var all := events + [row];
    assert all[|events|] == row && forall k :: 0 <= k < |events| ==> all[k] == events[k];
  }

  /**
   When the status follows the latest event: after a sync the last row, whose status it is, is a
   latest one if and only if some fetched event is new and not before any row of the history; or,
   if none is new, the last row was a latest one already.
   */
  lemma LatestIff(created: Status, p: Parcel, events: seq<ProviderEvent>)
    requires StatusIsLast(created, p.track)
    ensures StatusIsLast(created, Sync(p, events).track)
    ensures LastIsLatest(Sync(p, events).track.events)
       <==> if NothingNew(p.track, events) then LastIsLatest(p.track.events) else CatchesUp(p.track, events)
  {
    var sorted := SortByTime(events);
    SortAscends(events);
    RecordKeepsLast(created, p.track, sorted);
    RecordLatest(p.track, sorted);
    SameElements(p.track, sorted, events);
  }

  lemma SameElements(p: Track, a: seq<ProviderEvent>, b: seq<ProviderEvent>)
    requires forall x :: x in a <==> x in b
    ensures NothingNew(p, a) <==> NothingNew(p, b)
    ensures CatchesUp(p, a) <==> CatchesUp(p, b)
  {
    forall k | 0 <= k < |a| ensures exists j :: 0 <= j < |b| && b[j] == a[k] { assert a[k] in b; }
    forall k | 0 <= k < |b| ensures exists j :: 0 <= j < |a| && a[j] == b[k] { assert b[k] in a; }
  }

  /** An event that arrives late moves the status back: syncing in turn and syncing only the last answer differ. */
  lemma LateEventMovesStatusBack(p: Parcel)
    requires p.track.events == []
    ensures var transit := ProviderEvent("in_transit", None, None, Naive(3));
            var delivered := ProviderEvent("delivered", None, None, Naive(5));
            && Sync(Sync(p, [delivered]), [transit, delivered]).track.status == InTransit
            && Sync(p, [transit, delivered]).track.status == Delivered
  {
    var transit := ProviderEvent("in_transit", None, None, Naive(3));
    var delivered := ProviderEvent("delivered", None, None, Naive(5));
    assert MapStatus("in_transit") == InTransit && MapStatus("delivered") == Delivered;
    TwoInOrder(transit, delivered);
    OneEvent(p.track, delivered);
    var q := Record(p.track, delivered);
    assert q.events == [Stored(delivered)];
    assert Keys(q.events) == {KeyOf(delivered)} by { assert q.events[0] == Stored(delivered); }
    TwoEvents(q, transit, delivered);
    TwoEvents(p.track, transit, delivered);
    var r := Record(q, transit);
    KeysSnoc(q.events, Stored(transit));
    var s := Record(p.track, transit);
    assert Keys(p.track.events) == {};
    KeysSnoc(p.track.events, Stored(transit));
  }

  lemma OneEvent(p: Track, e: ProviderEvent)
    ensures SortByTime([e]) == [e] && RecordAll(p, [e]) == Record(p, e)
  {
    assert [e][..0] == [];
    assert SortByTime([]) == [] && RecordAll(p, []) == p;
  }

  lemma TwoInOrder(a: ProviderEvent, b: ProviderEvent)
    requires Time(a) <= Time(b)
    ensures SortByTime([a, b]) == [a, b]
  {
    OneEvent(Track(Unknown, [], None), a);
    assert [a, b][..1] == [a];
  }

  lemma TwoEvents(p: Track, a: ProviderEvent, b: ProviderEvent)
    ensures RecordAll(p, [a, b]) == Record(Record(p, a), b)
  {
    OneEvent(p, a);
    assert [a, b][..1] == [a];
  }

  // ---------------------------------------------------------------- outcomes and notifications

  /** What the provider does: whether `register` succeeds, and the answer of `update` unless it fails over HTTP. */
  datatype Reply = Reply(registers: bool, update: Option<seq<ProviderEvent>>)

  datatype Outcome = Synced | HttpError | TypeError

  /** A notification about a shipment: its tracking number, carrier name and new status. */
  datatype Notice = Notice(number: string, carrier: string, status: Status)

  /** `_NOTIFY_ON_STATUSES` */
  predicate Notable(s: Status) { s == Delivered || s == Delayed }

  datatype Result = Result(parcel: Parcel, outcome: Outcome, notices: seq<Notice>)

  function NoticesFor(dispatcher: bool, previous: Status, p: Parcel): seq<Notice> {
    if dispatcher && p.track.status != previous && Notable(p.track.status)
    then [Notice(p.number, if p.carrier.Some? then p.carrier.value else "", p.track.status)]
    else []
  }

  /** `sync_shipment` */
  function SyncResult(dispatcher: bool, p: Parcel, reply: Reply): Result {
    if !p.registered && !reply.registers then Result(p, HttpError, [])
    else if reply.update.None? then Result(p.(registered := true), HttpError, [])
    else if !Comparable(reply.update.value) then Result(p.(registered := true), TypeError, [])
    else
      var q := Sync(p, reply.update.value);
      Result(q, Synced, NoticesFor(dispatcher, p.track.status, q))
  }

  /** A failed sync leaves history, status, dates and last update alone and notifies no one. */
  lemma FailureChangesNothing(dispatcher: bool, p: Parcel, reply: Reply)
    ensures var r := SyncResult(dispatcher, p, reply);
            r.outcome != Synced ==> r.parcel.(registered := p.registered) == p && r.notices == []
  {
  }

  /** A repeated answer succeeds again and notifies no one. */
  lemma RepeatIsSilent(dispatcher: bool, p: Parcel, reply: Reply)
    requires SyncResult(dispatcher, p, reply).outcome == Synced
    ensures var q := SyncResult(dispatcher, p, reply).parcel;
            SyncResult(dispatcher, q, reply) == Result(q, Synced, [])
  {
    SyncIsIdempotent(p, reply.update.value);
  }

  /** Times with and without a zone in one answer. */
  predicate Mixed(events: seq<ProviderEvent>) {
    exists i, j :: 0 <= i < |events| && 0 <= j < |events| && events[i].occurredAt.Naive? && events[j].occurredAt.Aware?
  }

  lemma MixedIff(events: seq<ProviderEvent>)
    ensures Mixed(events) <==> !Comparable(events)
  {
    if !Comparable(events) {
      var i, j :| 0 <= i < |events| && 0 <= j < |events| && events[i].occurredAt.Naive? != events[j].occurredAt.Naive?;
      assert events[i].occurredAt.Naive? || events[j].occurredAt.Naive?;
    }
  }

  lemma {:induction false} RecordStatus(t: Track, es: seq<ProviderEvent>)
    ensures var r := RecordAll(t, es);
            |t.events| <= |r.events| && r.status == if |r.events| == |t.events| then t.status else r.events[|r.events| - 1].status
    decreases |es|
  {
    if es != [] { RecordStatus(t, es[..|es| - 1]); }
  }

  /** How a sync ends: over HTTP if registering or fetching fails, with a TypeError if the times cannot be sorted. */
  predicate EndsAs(p: Parcel, reply: Reply, outcome: Outcome) {
    if (!p.registered && !reply.registers) || reply.update == None then outcome == HttpError
    else if Mixed(reply.update.value) then outcome == TypeError
    else outcome == Synced
  }

  /** Who is told of a change from `before`: with a dispatcher, of one to DELIVERED or DELAYED, and of no other. */
  predicate Told(dispatcher: bool, before: Status, p: Parcel, notices: seq<Notice>) {
    if dispatcher && before != p.track.status && p.track.status in {Delivered, Delayed}
    then notices == [Notice(p.number, if p.carrier == None then "" else p.carrier.value, p.track.status)]
    else notices == []
  }

  /** A successful sync: fresh rows behind the old ones, and the fields that follow from them and from the answer. */
  ghost predicate Applied(p: Parcel, events: seq<ProviderEvent>, q: Parcel) {
    && q.track.events == p.track.events + FreshRows(Keys(p.track.events), SortByTime(events))
    && q.track.status == (if |q.track.events| == |p.track.events| then p.track.status else q.track.events[|q.track.events| - 1].status)
    && DatedBy(p.track.deliveryDate, q.track.deliveryDate, q.track.events, |p.track.events|)
    && UpdatedAt(p.lastUpdate, q.lastUpdate, events)
  }

  lemma SyncApplies(p: Parcel, events: seq<ProviderEvent>, q: Parcel)
    requires q == Sync(p, events)
    ensures Applied(p, events, q)
  {
    var sorted := SortByTime(events);
    RecordAppendsFresh(p.track, sorted);
    RecordStatus(p.track, sorted);
    RecordDates(p.track, sorted);
    if events != [] { LatestTimeIsMax(events); }
  }

  /** One answer in full: how the sync ends, what becomes of every field of the shipment, and who is told. */
  lemma {:induction false} AnswerMeaning(dispatcher: bool, p: Parcel, reply: Reply, r: Result)
    requires r == SyncResult(dispatcher, p, reply)
    ensures EndsAs(p, reply, r.outcome)
    ensures r.parcel.number == p.number && r.parcel.carrier == p.carrier && r.parcel.estimatedDate == p.estimatedDate
    ensures r.parcel.registered == (p.registered || reply.registers)
    ensures if r.outcome == Synced then Applied(p, reply.update.value, r.parcel) && Told(dispatcher, p.track.status, r.parcel, r.notices)
            else r.parcel.track == p.track && r.parcel.lastUpdate == p.lastUpdate && r.notices == []
  {
    if reply.update.Some? {
      MixedIff(reply.update.value);
      SyncApplies(p, reply.update.value, Sync(p, reply.update.value));
    }
  }

  // ---------------------------------------------------------------- the service

  /** A row of the shipments table with its tracking history. */
  class Shipment {
    const number: string
    const carrier: Option<string>
    var status: Status
    var events: seq<TrackingEvent>
    var deliveryDate: Option<int>
    var estimatedDate: Option<int>
    var lastUpdate: Option<Stamp>
    var registered: bool

    constructor (number: string, carrier: Option<string>, status: Status)
      ensures State() == Parcel(number, carrier, Track(status, [], None), None, None, false)
    {
      this.number, this.carrier, this.status := number, carrier, status;
      events, deliveryDate, estimatedDate, lastUpdate, registered := [], None, None, None, false;
    }

    function State(): Parcel
      reads this
    {
      Parcel(number, carrier, Track(status, events, deliveryDate), estimatedDate, lastUpdate, registered)
    }

    /** `ShipmentService.update_status`; a null status cannot be stored, and the request fails. */
    method UpdateStatus(change: Change, now: Stamp) returns (ok: bool)
      modifies this
      ensures ok == Updated(old(State()), change, now).Some?
      ensures State() == if ok then Updated(old(State()), change, now).value else old(State())
      ensures ok <==> change.status != Null
      ensures ok ==> UpdatedBy(old(State()), change, now, State())
    {
      if change.status == Null { return false; }
      if change.status.To? { status := change.status.value; }
      if change.estimatedDate.Given? { estimatedDate := change.estimatedDate.date; }
      if change.deliveryDate.Given? { deliveryDate := change.deliveryDate.date; }
      if change.status.To? {
        lastUpdate := Some(now);
        events := events + [TrackingEvent(status, None, None, now)];
      }
      ok := true;
    }
  }

  class TrackingSyncService {
    const dispatcher: bool
    var sent: seq<Notice>

    constructor (dispatcher: bool)
      ensures this.dispatcher == dispatcher && sent == []
    {
      this.dispatcher, sent := dispatcher, [];
    }

    method SyncShipment(shipment: Shipment, reply: Reply) returns (outcome: Outcome)
      modifies this, shipment
      ensures var r := SyncResult(dispatcher, old(shipment.State()), reply);
              shipment.State() == r.parcel && outcome == r.outcome && sent == old(sent) + r.notices
      ensures EndsAs(old(shipment.State()), reply, outcome)
      ensures outcome == Synced ==> Applied(old(shipment.State()), reply.update.value, shipment.State())
    {
      AnswerMeaning(dispatcher, shipment.State(), reply, SyncResult(dispatcher, shipment.State(), reply));
      var previous := shipment.status;
      if !shipment.registered {
        if !reply.registers { return HttpError; }
        shipment.registered := true;
      }
      if reply.update.None? { return HttpError; }
      var events := reply.update.value;
      if !Comparable(events) { return TypeError; }

      AppendNew(shipment, SortByTime(events));
      if events != [] { shipment.lastUpdate := Some(Naive(LatestTime(events))); }
      if dispatcher && shipment.status != previous && Notable(shipment.status) {
        sent := sent + [Notice(shipment.number, if shipment.carrier.Some? then shipment.carrier.value else "", shipment.status)];
      }
      outcome := Synced;
    }

    /** The loop over the sorted events, with the set of known keys. */
    method AppendNew(shipment: Shipment, ordered: seq<ProviderEvent>)
      modifies shipment
      ensures shipment.State() == old(shipment.State()).(track := RecordAll(old(shipment.State()).track, ordered))
    {
      var known := Keys(shipment.events);
      for k := 0 to |ordered|
        invariant known == Keys(shipment.events)
        invariant shipment.State() == old(shipment.State()).(track := RecordAll(old(shipment.State()).track, ordered[..k]))
      {
        var event := ordered[k];
        var status, occurredAt := MapStatus(event.status), event.occurredAt.Utc();
        RecordNext(old(shipment.State()).track, ordered, k);
        if (status, occurredAt) in known { continue; }
        known := known + {(status, occurredAt)};
        var row := TrackingEvent(status, event.description, event.location, Naive(occurredAt));
        KeysSnoc(shipment.events, row);
        shipment.events := shipment.events + [row];
        shipment.status := status;
        if status == Delivered { shipment.deliveryDate := Some(Naive(occurredAt).Date()); }
      }
      assert ordered[..|ordered|] == ordered;
    }

    /**
     One pass of the worker. An HTTP failure skips its shipment; a TypeError ends the pass, since
     nothing between it and the worker's main loop catches one.
     */
    method SyncDueShipments(table: seq<Shipment>, replies: seq<Reply>) returns (synced: nat, raised: bool)
      requires |replies| == |table|
      requires forall i, j :: 0 <= i < j < |table| ==> table[i] != table[j]
      modifies this, table
      ensures Progress(old(States(table)), Results(dispatcher, old(States(table)), replies), |table|,
                    States(table), old(sent), sent, synced, raised)
    {
      var due := ListNonTerminal(table);
      synced, raised := SyncListed(table, due, replies, Results(dispatcher, States(table), replies));
    }

    method SyncListed(table: seq<Shipment>, due: set<int>, replies: seq<Reply>, ghost results: seq<Result>)
      returns (synced: nat, raised: bool)
      requires |replies| == |table| && due == NonTerminal(States(table))
      requires results == Results(dispatcher, States(table), replies)
      requires forall i, j :: 0 <= i < j < |table| ==> table[i] != table[j]
      modifies this, table
      ensures Progress(old(States(table)), results, |table|, States(table), old(sent), sent, synced, raised)
    {
      ghost var before := States(table);
      synced, raised := 0, false;
      for k := 0 to |table|
        invariant Progress(before, results, k, States(table), old(sent), sent, synced, false)
      {
        synced, raised := Visit(table, due, k, replies, before, results, old(sent), synced);
        if raised {
          PassStops(before, results, k + 1, |table|);
          return;
        }
      }
      raised := false;
    }

    /** `ShipmentRepository.list_non_terminal`, as positions in the table. */
    method ListNonTerminal(table: seq<Shipment>) returns (due: set<int>)
      ensures due == NonTerminal(States(table))
    {
      due := set i | 0 <= i < |table| && !Terminal(table[i].status);
    }

    /** The loop body: sync the shipment if it is due, and count it unless that fails. */
    method Visit(table: seq<Shipment>, due: set<int>, k: nat, replies: seq<Reply>, ghost before: seq<Parcel>,
                 ghost results: seq<Result>, ghost sentBefore: seq<Notice>, synced: nat)
      returns (count: nat, raised: bool)
      requires k < |table| == |before| && forall i, j :: 0 <= i < j < |table| ==> table[i] != table[j]
      requires |replies| == |before| && due == NonTerminal(before) && results == Results(dispatcher, before, replies)
      requires Progress(before, results, k, States(table), sentBefore, sent, synced, false)
      modifies this, table[k]
      ensures Progress(before, results, k + 1, States(table), sentBefore, sent, count, raised)
    {
      if k !in due {
        Skip(before, results, k);
        return synced, false;
      }
      PassNext(before, results, k);
      Associates(sentBefore, Pass(before, results, k).notices, results[k].notices);
      var outcome := SyncOne(table, k, replies[k], results[k]);
      count, raised := if outcome == Synced then synced + 1 else synced, outcome == TypeError;
    }

    /** A sync of one row leaves the other rows of the table alone. */
    method SyncOne(table: seq<Shipment>, k: nat, reply: Reply, ghost result: Result) returns (outcome: Outcome)
      requires k < |table| && forall i, j :: 0 <= i < j < |table| ==> table[i] != table[j]
      requires result == SyncResult(dispatcher, States(table)[k], reply)
      modifies this, table[k]
      ensures States(table) == old(States(table))[k := result.parcel]
      ensures outcome == result.outcome && sent == old(sent) + result.notices
    {
      outcome := SyncShipment(table[k], reply);
    }
  }

  function States(table: seq<Shipment>): (r: seq<Parcel>)
    reads table
    ensures |r| == |table| && forall i :: 0 <= i < |table| ==> r[i] == table[i].State()
  {
    seq(|table|, i requires 0 <= i < |table| reads table => table[i].State())
  }

  function NonTerminal(parcels: seq<Parcel>): set<int> {
    set i | 0 <= i < |parcels| && !Terminal(parcels[i].track.status)
  }

  /** `results` says what syncing each shipment on its own would yield. */
  predicate AreResults(dispatcher: bool, parcels: seq<Parcel>, replies: seq<Reply>, results: seq<Result>) {
    && |results| == |parcels| == |replies|
    && forall i {:trigger replies[i]} :: 0 <= i < |replies| ==> results[i] == SyncResult(dispatcher, parcels[i], replies[i])
  }

  function Results(dispatcher: bool, parcels: seq<Parcel>, replies: seq<Reply>): (r: seq<Result>)
    requires |replies| == |parcels|
    ensures AreResults(dispatcher, parcels, replies, r)
  {
    seq(|parcels|, i requires 0 <= i < |parcels| == |replies| => SyncResult(dispatcher, parcels[i], replies[i]))
  }

  datatype PassResult = PassResult(parcels: seq<Parcel>, notices: seq<Notice>, synced: nat, raised: bool)

  /** The first `n` shipments of a pass in which syncing each would have the given result. */
  function Pass(parcels: seq<Parcel>, results: seq<Result>, n: nat): (r: PassResult)
    requires n <= |parcels| == |results|
    ensures |r.parcels| == |parcels|
  {
    if n == 0 then PassResult(parcels, [], 0, false)
    else
      var r := Pass(parcels, results, n - 1);
      if r.raised || Terminal(parcels[n - 1].track.status) then r
      else
        var one := results[n - 1];
        PassResult(r.parcels[n - 1 := one.parcel], r.notices + one.notices,
                   r.synced + (if one.outcome == Synced then 1 else 0), one.outcome == TypeError)
  }

  /** The state of the service once the first `n` shipments of a pass are done. */
  predicate Progress(before: seq<Parcel>, results: seq<Result>, n: nat,
                     parcels: seq<Parcel>, sentBefore: seq<Notice>, sent: seq<Notice>, synced: nat, raised: bool)
    requires n <= |before| == |results|
  {
    var r := Pass(before, results, n);
    parcels == r.parcels && sent == sentBefore + r.notices && synced == r.synced && raised == r.raised
  }

  lemma {:induction false} PassSoFar(parcels: seq<Parcel>, results: seq<Result>, n: nat)
    requires n <= |parcels| == |results|
    ensures forall i :: n <= i < |parcels| ==> Pass(parcels, results, n).parcels[i] == parcels[i]
  {
    if n > 0 { PassSoFar(parcels, results, n - 1); }
  }

  lemma Skip(parcels: seq<Parcel>, results: seq<Result>, n: nat)
    requires n < |parcels| == |results| && !Pass(parcels, results, n).raised && Terminal(parcels[n].track.status)
    ensures Pass(parcels, results, n + 1) == Pass(parcels, results, n)
  {
  }

  lemma PassNext(parcels: seq<Parcel>, results: seq<Result>, n: nat)
    requires n < |parcels| == |results| && !Pass(parcels, results, n).raised
    ensures Pass(parcels, results, n).parcels[n] == parcels[n]
    ensures var r, one := Pass(parcels, results, n), results[n];
            Pass(parcels, results, n + 1) == if Terminal(parcels[n].track.status) then r
              else PassResult(r.parcels[n := one.parcel], r.notices + one.notices,
                              r.synced + (if one.outcome == Synced then 1 else 0), one.outcome == TypeError)
  {
    PassSoFar(parcels, results, n);
  }

  lemma {:induction false} PassStops(parcels: seq<Parcel>, results: seq<Result>, n: nat, m: nat)
    requires n <= m <= |parcels| == |results| && Pass(parcels, results, n).raised
    ensures Pass(parcels, results, m) == Pass(parcels, results, n)
  {
    if n < m { PassStops(parcels, results, n, m - 1); }
  }

  // ---------------------------------------------------------------- worker runs

  /** What one pass does to one shipment on its own, given the result that syncing it would have. */
  function Selected(p: Parcel, result: Result): (Parcel, seq<Notice>) {
    if Terminal(p.track.status) then (p, []) else (result.parcel, result.notices)
  }

  function WorkerStep(dispatcher: bool, p: Parcel, reply: Reply): (Parcel, seq<Notice>) {
    Selected(p, SyncResult(dispatcher, p, reply))
  }

  /** The worker passes over a shipment that is delivered or returned, and syncs every other one. */
  lemma DueIffOpen(dispatcher: bool, p: Parcel, reply: Reply)
    ensures var r := SyncResult(dispatcher, p, reply);
            WorkerStep(dispatcher, p, reply) == if p.track.status in {Delivered, Returned} then (p, []) else (r.parcel, r.notices)
  {
  }

  /** The shipment is due, and its answer mixes stamps with and without a zone. */
  predicate Raises(p: Parcel, result: Result) {
    !Terminal(p.track.status) && result.outcome == TypeError
  }

  /** The first of `n` shipments at which a pass raises, or `n`. */
  function Stop(parcels: seq<Parcel>, results: seq<Result>, n: nat): (s: nat)
    requires n <= |parcels| == |results|
    ensures s <= n && (s < n ==> Raises(parcels[s], results[s]))
    ensures forall k :: 0 <= k < s ==> !Raises(parcels[k], results[k])
  {
    if n == 0 then 0
    else
      var s := Stop(parcels, results, n - 1);
      if s < n - 1 || Raises(parcels[n - 1], results[n - 1]) then s else n
  }

  /** How many of `n` shipments a pass gets to, the one at which it raises included. */
  function Visited(parcels: seq<Parcel>, results: seq<Result>, n: nat): (v: nat)
    requires n <= |parcels| == |results|
    ensures v <= n
  {
    var s := Stop(parcels, results, n);
    if s < n then s + 1 else n
  }

  function NoticesOf(parcels: seq<Parcel>, results: seq<Result>, n: nat): seq<Notice>
    requires n <= |parcels| == |results|
  {
    if n == 0 then [] else NoticesOf(parcels, results, n - 1) + Selected(parcels[n - 1], results[n - 1]).1
  }

  /** The due shipments among the first `n` whose sync succeeds. */
  function SyncedOf(parcels: seq<Parcel>, results: seq<Result>, n: nat): nat
    requires n <= |parcels| == |results|
  {
    if n == 0 then 0
    else SyncedOf(parcels, results, n - 1) + (if !Terminal(parcels[n - 1].track.status) && results[n - 1].outcome == Synced then 1 else 0)
  }

  lemma {:induction false} PassTotals(parcels: seq<Parcel>, results: seq<Result>, n: nat)
    requires n <= |parcels| == |results|
    ensures var r, v := Pass(parcels, results, n), Visited(parcels, results, n);
            && (r.raised <==> Stop(parcels, results, n) < n)
            && r.notices == NoticesOf(parcels, results, v) && r.synced == SyncedOf(parcels, results, v)
  {
    if n > 0 {
      PassTotals(parcels, results, n - 1);
      if Terminal(parcels[n - 1].track.status) {
        assert NoticesOf(parcels, results, n - 1) + [] == NoticesOf(parcels, results, n - 1);
      }
    }
  }

  lemma {:induction false} PassRow(parcels: seq<Parcel>, results: seq<Result>, n: nat, i: nat)
    requires n <= |parcels| == |results| && i < |parcels|
    ensures Pass(parcels, results, n).parcels[i]
         == if i < Visited(parcels, results, n) then Selected(parcels[i], results[i]).0 else parcels[i]
  {
    if n > 0 {
      PassRow(parcels, results, n - 1, i);
      PassTotals(parcels, results, n - 1);
    }
  }

  /**
   A pass syncs each due shipment on its own, in the order of the table, whatever fails over
   HTTP. It raises if and only if some due shipment's answer mixes zoned and unzoned times, and
   then it has done all up to the first of these and nothing behind it.
   */
  lemma {:induction false} PassIsPointwise(dispatcher: bool, parcels: seq<Parcel>, replies: seq<Reply>, i: nat, results: seq<Result>)
    requires i < |parcels| && AreResults(dispatcher, parcels, replies, results)
    ensures var r, v := Pass(parcels, results, |parcels|), Visited(parcels, results, |parcels|);
            && (r.raised <==> exists k :: 0 <= k < |parcels| && Raises(parcels[k], results[k]))
            && (!r.raised ==> v == |parcels|) && (r.raised ==> v > 0 && Raises(parcels[v - 1], results[v - 1]))
            && r.parcels[i] == (if i < v then WorkerStep(dispatcher, parcels[i], replies[i]).0 else parcels[i])
            && r.notices == NoticesOf(parcels, results, v) && r.synced == SyncedOf(parcels, results, v)
  {
    PassTotals(parcels, results, |parcels|);
    PassRow(parcels, results, |parcels|, i);
    StepIsResult(dispatcher, parcels, replies, results, i);
    var s := Stop(parcels, results, |parcels|);
    if s < |parcels| { assert Raises(parcels[s], results[s]); }
  }

  lemma StepIsResult(dispatcher: bool, parcels: seq<Parcel>, replies: seq<Reply>, results: seq<Result>, i: nat)
    requires i < |parcels| && AreResults(dispatcher, parcels, replies, results)
    ensures WorkerStep(dispatcher, parcels[i], replies[i]) == Selected(parcels[i], results[i])
  {
    assert replies[i] == replies[i];
  }

  /** A run of passes, seen from one shipment. */
  function WorkerRun(dispatcher: bool, p: Parcel, replies: seq<Reply>): (Parcel, seq<Notice>) {
    if replies == [] then (p, [])
    else
      var (q, sent) := WorkerRun(dispatcher, p, replies[..|replies| - 1]);
      var (r, more) := WorkerStep(dispatcher, q, replies[|replies| - 1]);
      (r, sent + more)
  }

  lemma WorkerRunNext(dispatcher: bool, p: Parcel, replies: seq<Reply>, reply: Reply)
    ensures var (q, sent) := WorkerRun(dispatcher, p, replies);
            var (r, more) := WorkerStep(dispatcher, q, reply);
            WorkerRun(dispatcher, p, replies + [reply]) == (r, sent + more)
  {
    assert (replies + [reply])[..|replies|] == replies;
  }

  /** A shipment joins the table, or the worker makes a pass, in which row `i` would be answered with `answers(i)`. */
  datatype Turn = Join(parcel: Parcel) | Poll(answers: nat -> Reply)

  /** The table and the notifications sent; and, for each row, what it joined as and the answers that it got. */
  datatype Book = Book(parcels: seq<Parcel>, sent: seq<Notice>, born: seq<Parcel>, got: seq<seq<Reply>>)

  const NO_SHIPMENTS := Book([], [], [], [])

  function AnswersTo(n: nat, answers: nat -> Reply): (r: seq<Reply>)
    ensures |r| == n && forall i :: 0 <= i < n ==> r[i] == answers(i)
  {
    seq(n, i requires 0 <= i < n => answers(i))
  }

  /** The answers that the rows have got once a pass has come to the first `v` of them. */
  function GotIn(got: seq<seq<Reply>>, replies: seq<Reply>, v: nat): (r: seq<seq<Reply>>)
    requires |got| == |replies|
    ensures |r| == |got| && forall i :: 0 <= i < |r| ==> r[i] == if i < v then got[i] + [replies[i]] else got[i]
  {
    seq(|got|, i requires 0 <= i < |got| => if i < v then got[i] + [replies[i]] else got[i])
  }

  function TakeTurn(dispatcher: bool, b: Book, t: Turn): (r: Book)
    requires |b.parcels| == |b.born| == |b.got|
    ensures |r.parcels| == |r.born| == |r.got|
  {
    match t
    case Join(p) => Book(b.parcels + [p], b.sent, b.born + [p], b.got + [[]])
    case Poll(answers) =>
      var replies := AnswersTo(|b.parcels|, answers);
      var results := Results(dispatcher, b.parcels, replies);
      var pass := Pass(b.parcels, results, |b.parcels|);
      Book(pass.parcels, b.sent + pass.notices, b.born, GotIn(b.got, replies, Visited(b.parcels, results, |b.parcels|)))
  }

  /** A run of passes, each of which may raise, over a table that shipments join in between. */
  function TableRun(dispatcher: bool, turns: seq<Turn>): (b: Book)
    ensures |b.parcels| == |b.born| == |b.got|
  {
    if turns == [] then NO_SHIPMENTS
    else TakeTurn(dispatcher, TableRun(dispatcher, turns[..|turns| - 1]), turns[|turns| - 1])
  }

  /** Row `i` is where its own answers take it from what it joined as. */
  predicate OnItsOwn(dispatcher: bool, b: Book, i: nat)
    requires i < |b.parcels| == |b.born| == |b.got|
  {
    b.parcels[i] == WorkerRun(dispatcher, b.born[i], b.got[i]).0
  }

  /** What a pass does to a row, given the answers that it has got before. */
  lemma RowNext(dispatcher: bool, b: Book, replies: seq<Reply>, results: seq<Result>, v: nat, i: nat)
    requires i < |b.parcels| == |b.born| == |b.got| == |replies| && OnItsOwn(dispatcher, b, i)
    requires AreResults(dispatcher, b.parcels, replies, results)
    ensures var own := WorkerRun(dispatcher, b.born[i], b.got[i]).1;
            WorkerRun(dispatcher, b.born[i], GotIn(b.got, replies, v)[i])
            == if i < v then (Selected(b.parcels[i], results[i]).0, own + Selected(b.parcels[i], results[i]).1)
               else (b.parcels[i], own)
  {
    StepIsResult(dispatcher, b.parcels, replies, results, i);
    WorkerRunNext(dispatcher, b.born[i], b.got[i], replies[i]);
  }

  lemma TurnIsPointwise(dispatcher: bool, b: Book, t: Turn, i: nat, next: Book)
    requires |b.parcels| == |b.born| == |b.got| && next == TakeTurn(dispatcher, b, t) && i < |next.parcels|
    requires i < |b.parcels| ==> OnItsOwn(dispatcher, b, i)
    ensures OnItsOwn(dispatcher, next, i)
  {
    if t.Poll? {
      var replies := AnswersTo(|b.parcels|, t.answers);
      var results := Results(dispatcher, b.parcels, replies);
      PassRow(b.parcels, results, |b.parcels|, i);
      RowNext(dispatcher, b, replies, results, Visited(b.parcels, results, |b.parcels|), i);
    }
  }

  /** Over any run a shipment ends where the answers that it got take it, on its own, from what it joined as. */
  lemma {:induction false} RunIsPointwise(dispatcher: bool, turns: seq<Turn>, i: nat, b: Book)
    requires b == TableRun(dispatcher, turns) && i < |b.parcels|
    ensures b.parcels[i] == WorkerRun(dispatcher, b.born[i], b.got[i]).0
    decreases |turns|
  {
    if turns != [] {
      var before := TableRun(dispatcher, turns[..|turns| - 1]);
      if i < |before.parcels| { RunIsPointwise(dispatcher, turns[..|turns| - 1], i, before); }
      TurnIsPointwise(dispatcher, before, turns[|turns| - 1], i, b);
    }
  }

  /** What each shipment notifies of over the answers that it got. */
  function Owns(dispatcher: bool, born: seq<Parcel>, got: seq<seq<Reply>>): (r: seq<seq<Notice>>)
    requires |born| == |got|
    ensures |r| == |born| && forall i :: 0 <= i < |born| ==> r[i] == WorkerRun(dispatcher, born[i], got[i]).1
  {
    seq(|born|, i requires 0 <= i < |born| == |got| => WorkerRun(dispatcher, born[i], got[i]).1)
  }

  /** How often a notification is sent. */
  function Times(notices: seq<Notice>, x: Notice): nat {
    if notices == [] then 0 else Times(notices[..|notices| - 1], x) + (if notices[|notices| - 1] == x then 1 else 0)
  }

  lemma {:induction false} TimesConcat(a: seq<Notice>, b: seq<Notice>, x: Notice)
    ensures Times(a + b, x) == Times(a, x) + Times(b, x)
    decreases |b|
  {
    if b == [] {
      assert a + b == a;
    } else {
      TimesConcat(a, b[..|b| - 1], x);
      assert (a + b)[..|a + b| - 1] == a + b[..|b| - 1];
    }
  }

  /** How often the first `n` of some lists hold a notification. */
  function TimesIn(lists: seq<seq<Notice>>, n: nat, x: Notice): nat
    requires n <= |lists|
  {
    if n == 0 then 0 else TimesIn(lists, n - 1, x) + Times(lists[n - 1], x)
  }

  /** The notifications of each shipment's step in a pass that gets to `v` of them. */
  function Steps(before: seq<Parcel>, results: seq<Result>, v: nat): (r: seq<seq<Notice>>)
    requires |before| == |results|
    ensures |r| == |before| && forall i :: 0 <= i < |r| ==> r[i] == if i < v then Selected(before[i], results[i]).1 else []
  {
    seq(|before|, i requires 0 <= i < |before| => if i < v then Selected(before[i], results[i]).1 else [])
  }

  lemma {:induction false} StepsAddUp(before: seq<Parcel>, results: seq<Result>, steps: seq<seq<Notice>>, v: nat, x: Notice)
    requires v <= |before| == |results| == |steps| && forall i :: 0 <= i < v ==> steps[i] == Selected(before[i], results[i]).1
    ensures TimesIn(steps, v, x) == Times(NoticesOf(before, results, v), x)
  {
    if v > 0 {
      StepsAddUp(before, results, steps, v - 1, x);
      TimesConcat(NoticesOf(before, results, v - 1), steps[v - 1], x);
    }
  }

  lemma {:induction false} NothingBehind(lists: seq<seq<Notice>>, v: nat, n: nat, x: Notice)
    requires v <= n <= |lists| && forall i :: v <= i < n ==> lists[i] == []
    ensures TimesIn(lists, n, x) == TimesIn(lists, v, x)
  {
    if v < n { NothingBehind(lists, v, n - 1, x); }
  }

  lemma {:induction false} ListsAddUp(owns: seq<seq<Notice>>, steps: seq<seq<Notice>>, more: seq<seq<Notice>>, n: nat, x: Notice)
    requires n <= |owns| == |steps| == |more| && forall i :: 0 <= i < |owns| ==> more[i] == owns[i] + steps[i]
    ensures TimesIn(more, n, x) == TimesIn(owns, n, x) + TimesIn(steps, n, x)
  {
    if n > 0 {
      ListsAddUp(owns, steps, more, n - 1, x);
      TimesConcat(owns[n - 1], steps[n - 1], x);
    }
  }

  lemma StepsCount(owns: seq<seq<Notice>>, more: seq<seq<Notice>>, steps: seq<seq<Notice>>,
                   before: seq<Parcel>, results: seq<Result>, v: nat, x: Notice)
    requires |owns| == |more| == |before| == |results| && v <= |before| && steps == Steps(before, results, v)
    requires forall i :: 0 <= i < |owns| ==> more[i] == owns[i] + steps[i]
    ensures TimesIn(more, |more|, x) == TimesIn(owns, |owns|, x) + Times(NoticesOf(before, results, v), x)
  {
    ListsAddUp(owns, steps, more, |owns|, x);
    StepsAddUp(before, results, steps, v, x);
    NothingBehind(steps, v, |steps|, x);
  }

  lemma {:induction false} FirstLists(lists: seq<seq<Notice>>, more: seq<seq<Notice>>, n: nat, x: Notice)
    requires n <= |lists| && n <= |more| && forall i :: 0 <= i < n ==> more[i] == lists[i]
    ensures TimesIn(more, n, x) == TimesIn(lists, n, x)
  {
    if n > 0 { FirstLists(lists, more, n - 1, x); }
  }

  /** The run has sent a notification as often as its shipments, each over its own answers, send it between them. */
  predicate NotifiesPointwise(dispatcher: bool, b: Book, x: Notice)
    requires |b.born| == |b.got|
  {
    Times(b.sent, x) == TimesIn(Owns(dispatcher, b.born, b.got), |b.born|, x)
  }

  lemma JoinNotifies(dispatcher: bool, b: Book, p: Parcel, x: Notice)
    requires |b.parcels| == |b.born| == |b.got| && NotifiesPointwise(dispatcher, b, x)
    ensures NotifiesPointwise(dispatcher, TakeTurn(dispatcher, b, Join(p)), x)
  {
    var next := TakeTurn(dispatcher, b, Join(p));
    FirstLists(Owns(dispatcher, b.born, b.got), Owns(dispatcher, next.born, next.got), |b.born|, x);
  }

  lemma PollNotifies(dispatcher: bool, b: Book, replies: seq<Reply>, results: seq<Result>, v: nat, got: seq<seq<Reply>>, x: Notice)
    requires |b.parcels| == |b.born| == |b.got| == |replies| && AreResults(dispatcher, b.parcels, replies, results)
    requires v <= |b.parcels| && got == GotIn(b.got, replies, v)
    requires forall i :: 0 <= i < |b.parcels| ==> OnItsOwn(dispatcher, b, i)
    ensures TimesIn(Owns(dispatcher, b.born, got), |b.born|, x)
         == TimesIn(Owns(dispatcher, b.born, b.got), |b.born|, x) + Times(NoticesOf(b.parcels, results, v), x)
  {
    var owns, more, steps := Owns(dispatcher, b.born, b.got), Owns(dispatcher, b.born, got), Steps(b.parcels, results, v);
    forall i | 0 <= i < |owns| ensures more[i] == owns[i] + steps[i] {
      RowNext(dispatcher, b, replies, results, v, i);
      assert i >= v ==> owns[i] + [] == owns[i];
    }
    StepsCount(owns, more, steps, b.parcels, results, v, x);
  }

  lemma TurnNotifies(dispatcher: bool, b: Book, t: Turn, x: Notice)
    requires |b.parcels| == |b.born| == |b.got| && NotifiesPointwise(dispatcher, b, x)
    requires forall i :: 0 <= i < |b.parcels| ==> OnItsOwn(dispatcher, b, i)
    ensures NotifiesPointwise(dispatcher, TakeTurn(dispatcher, b, t), x)
  {
    match t
    case Join(p) => JoinNotifies(dispatcher, b, p, x);
    case Poll(answers) =>
      var replies := AnswersTo(|b.parcels|, answers);
      var results := Results(dispatcher, b.parcels, replies);
      var v := Visited(b.parcels, results, |b.parcels|);
      PassTotals(b.parcels, results, |b.parcels|);
      TimesConcat(b.sent, NoticesOf(b.parcels, results, v), x);
      PollNotifies(dispatcher, b, replies, results, v, GotIn(b.got, replies, v), x);
  }

  /** And the run sends each notification as often as the shipments on their own send it between them. */
  lemma {:induction false} RunNotifiesPointwise(dispatcher: bool, turns: seq<Turn>, x: Notice, b: Book)
    requires b == TableRun(dispatcher, turns)
    ensures Times(b.sent, x) == TimesIn(Owns(dispatcher, b.born, b.got), |b.born|, x)
    decreases |turns|
  {
    if turns != [] {
      var before := TableRun(dispatcher, turns[..|turns| - 1]);
      RunNotifiesPointwise(dispatcher, turns[..|turns| - 1], x, before);
      forall i | 0 <= i < |before.parcels| ensures OnItsOwn(dispatcher, before, i) {
        RunIsPointwise(dispatcher, turns[..|turns| - 1], i, before);
      }
      TurnNotifies(dispatcher, before, turns[|turns| - 1], x);
    }
  }

  function CountDelivered(notices: seq<Notice>): nat {
    if notices == [] then 0
    else CountDelivered(notices[..|notices| - 1]) + (if notices[|notices| - 1].status == Delivered then 1 else 0)
  }

  /** DELIVERED and RETURNED are absorbing under the worker: no later answer changes the shipment. */
  lemma {:induction false} TerminalIsAbsorbing(dispatcher: bool, p: Parcel, replies: seq<Reply>)
    requires p.track.status == Delivered || p.track.status == Returned
    ensures WorkerRun(dispatcher, p, replies) == (p, [])
    decreases |replies|
  {
    if replies != [] {
      TerminalIsAbsorbing(dispatcher, p, replies[..|replies| - 1]);
      var none: seq<Notice> := [];
      assert none + none == none;
    }
  }

  /**
   Over any run of the worker a shipment causes at most one delivered notification: one if the
   run takes it to DELIVERED and a dispatcher is configured, and none otherwise.
   */
  lemma {:induction false} DeliveredOnce(dispatcher: bool, p: Parcel, replies: seq<Reply>)
    ensures var (q, sent) := WorkerRun(dispatcher, p, replies);
            CountDelivered(sent) == if dispatcher && p.track.status != Delivered && q.track.status == Delivered then 1 else 0
    decreases |replies|
  {
    if replies != [] {
      var before, reply := replies[..|replies| - 1], replies[|replies| - 1];
      DeliveredOnce(dispatcher, p, before);
      var (q, sent) := WorkerRun(dispatcher, p, before);
      var (r, more) := WorkerStep(dispatcher, q, reply);
      StepDelivers(dispatcher, q, reply, r, more);
      AtMostOneMore(sent, more);
      if p.track.status == Delivered { TerminalIsAbsorbing(dispatcher, p, replies); }
    }
  }

  /** A step sends at most one notification; of a delivery, exactly if it is the one that delivers. */
  lemma StepDelivers(dispatcher: bool, p: Parcel, reply: Reply, q: Parcel, more: seq<Notice>)
    requires (q, more) == WorkerStep(dispatcher, p, reply)
    ensures |more| <= 1 && CountDelivered(more) == if dispatcher && p.track.status != Delivered && q.track.status == Delivered then 1 else 0
    ensures p.track.status == Delivered ==> q.track.status == Delivered
  {
    AnswerMeaning(dispatcher, p, reply, SyncResult(dispatcher, p, reply));
    if |more| == 1 { assert more[..0] == []; }
  }

  lemma AtMostOneMore(sent: seq<Notice>, more: seq<Notice>)
    requires |more| <= 1
    ensures CountDelivered(sent + more) == CountDelivered(sent) + CountDelivered(more)
  {
    if |more| == 1 {
      assert (sent + more)[..|sent|] == sent && (sent + more)[|sent|] == more[0] && more[..0] == [];
    } else {
      assert sent + more == sent;
    }
  }

  // ---------------------------------------------------------------- manual updates and the delayed count

  datatype StatusField = Unset | Null | To(value: Status)
  datatype DateField = Absent | Given(date: Option<int>)

  /** The fields that an update request sets. */
  datatype Change = Change(status: StatusField, estimatedDate: DateField, deliveryDate: DateField)

  /** The shipment after a manual update; none if the request fails. */
  function Updated(p: Parcel, change: Change, now: Stamp): Option<Parcel> {
    if change.status == Null then None
    else
      var estimated := if change.estimatedDate.Given? then change.estimatedDate.date else p.estimatedDate;
      var delivery := if change.deliveryDate.Given? then change.deliveryDate.date else p.track.deliveryDate;
      if change.status == Unset then Some(p.(track := p.track.(deliveryDate := delivery), estimatedDate := estimated))
      else
        var track := Track(change.status.value, p.track.events + [TrackingEvent(change.status.value, None, None, now)], delivery);
        Some(p.(track := track, estimatedDate := estimated, lastUpdate := Some(now)))
  }

  predicate HasDate(change: DateField, before: Option<int>, after: Option<int>) {
    after == if change == Absent then before else change.date
  }

  /**
   A manual update gives each date that it sets its value and leaves the other one. With a status
   it also sets the last update and appends one event; without, these stay. The rest never changes.
   */
  predicate UpdatedBy(p: Parcel, change: Change, now: Stamp, q: Parcel) {
    && HasDate(change.estimatedDate, p.estimatedDate, q.estimatedDate)
    && HasDate(change.deliveryDate, p.track.deliveryDate, q.track.deliveryDate)
    && q.number == p.number && q.carrier == p.carrier && q.registered == p.registered
    && if change.status.To?
       then && q.track.status == change.status.value && q.lastUpdate == Some(now)
            && q.track.events == p.track.events + [TrackingEvent(change.status.value, None, None, now)]
       else q.track.status == p.track.status && q.lastUpdate == p.lastUpdate && q.track.events == p.track.events
  }

  /** Only a null status fails; every other update does just what it says. */
  lemma UpdateMeaning(p: Parcel, change: Change, now: Stamp, q: Parcel)
    ensures Updated(p, change, now) == None <==> change.status == Null
    ensures Updated(p, change, now) == Some(q) <==> change.status != Null && UpdatedBy(p, change, now, q)
  {
  }

  /** A shipment with the user who owns its order, if it has one, and the status it was created with. */
  datatype Row = Row(owner: Option<nat>, created: Status, parcel: Parcel)

  datatype Action =
    | Create(owner: Option<nat>, status: Status, number: string, carrier: Option<string>)
    | Refresh(row: nat, reply: Reply)
    | Manual(row: nat, change: Change, now: Stamp)

  function Perform(dispatcher: bool, rows: seq<Row>, action: Action): seq<Row> {
    match action
    case Create(owner, status, number, carrier) =>
      rows + [Row(owner, status, Parcel(number, carrier, Track(status, [], None), None, None, false))]
    case Refresh(k, reply) =>
      if k >= |rows| then rows
      else rows[k := rows[k].(parcel := SyncResult(dispatcher, rows[k].parcel, reply).parcel)]
    case Manual(k, change, now) =>
      if k >= |rows| || Updated(rows[k].parcel, change, now) == None then rows
      else rows[k := rows[k].(parcel := Updated(rows[k].parcel, change, now).value)]
  }

  function PerformAll(dispatcher: bool, rows: seq<Row>, actions: seq<Action>): seq<Row> {
    if actions == [] then rows
    else Perform(dispatcher, PerformAll(dispatcher, rows, actions[..|actions| - 1]), actions[|actions| - 1])
  }

  /** The status is that of the last appended event, or the one the shipment was created with. */
  predicate StatusIsLast(created: Status, t: Track) {
    t.status == if t.events == [] then created else t.events[|t.events| - 1].status
  }

  predicate Consistent(rows: seq<Row>) {
    forall k :: 0 <= k < |rows| ==> StatusIsLast(rows[k].created, rows[k].parcel.track)
  }

  lemma {:induction false} RecordKeepsLast(created: Status, t: Track, es: seq<ProviderEvent>)
    requires StatusIsLast(created, t)
    ensures StatusIsLast(created, RecordAll(t, es))
    decreases |es|
  {
    if es != [] { RecordKeepsLast(created, t, es[..|es| - 1]); }
  }

  lemma RefreshKeepsLast(dispatcher: bool, created: Status, p: Parcel, reply: Reply)
    requires StatusIsLast(created, p.track)
    ensures StatusIsLast(created, SyncResult(dispatcher, p, reply).parcel.track)
  {
    if reply.update.Some? { RecordKeepsLast(created, p.track, SortByTime(reply.update.value)); }
  }

  lemma ManualKeepsLast(created: Status, p: Parcel, change: Change, now: Stamp)
    requires StatusIsLast(created, p.track)
    ensures Updated(p, change, now).Some? ==> StatusIsLast(created, Updated(p, change, now).value.track)
  {
  }

  lemma StepKeepsLast(dispatcher: bool, rows: seq<Row>, action: Action)
    requires Consistent(rows)
    ensures Consistent(Perform(dispatcher, rows, action))
  {
    match action
    case Create(_, _, _, _) =>
    case Refresh(k, reply) =>
      if k < |rows| { RefreshKeepsLast(dispatcher, rows[k].created, rows[k].parcel, reply); }
    case Manual(k, change, now) =>
      if k < |rows| { ManualKeepsLast(rows[k].created, rows[k].parcel, change, now); }
  }

  /** Over any mix of creations, syncs and manual updates, the status is that of the last appended event. */
  lemma {:induction false} StatusFollowsHistory(dispatcher: bool, actions: seq<Action>)
    ensures Consistent(PerformAll(dispatcher, [], actions))
    decreases |actions|
  {
    if actions != [] {
      StatusFollowsHistory(dispatcher, actions[..|actions| - 1]);
      StepKeepsLast(dispatcher, PerformAll(dispatcher, [], actions[..|actions| - 1]), actions[|actions| - 1]);
    }
  }

  predicate HadDelay(events: seq<TrackingEvent>) {
    exists k :: 0 <= k < |events| && events[k].status == Delayed
  }

  predicate OwnedBy(rows: seq<Row>, user: nat, k: int) { 0 <= k < |rows| && rows[k].owner == Some(user) }

  function RowsOf(rows: seq<Row>, user: nat): set<int> {
    set k | 0 <= k < |rows| && OwnedBy(rows, user, k)
  }

  /** `currently_delayed` and `ever_delayed`, as sets of row ids. */
  function CurrentlyDelayed(rows: seq<Row>, user: nat): set<int> {
    set k | 0 <= k < |rows| && OwnedBy(rows, user, k) && rows[k].parcel.track.status == Delayed
  }

  function EverDelayed(rows: seq<Row>, user: nat): set<int> {
    set k | 0 <= k < |rows| && OwnedBy(rows, user, k) && HadDelay(rows[k].parcel.track.events)
  }

  /** `delayed_shipment_count_for_user` */
  function DelayedCount(rows: seq<Row>, user: nat): nat {
    |CurrentlyDelayed(rows, user) + EverDelayed(rows, user)|
  }

  /** A shipment created as DELAYED to which nothing has happened yet: the one kind counted without an event. */
  predicate BornDelayed(row: Row) { row.created == Delayed && row.parcel.track.events == [] }

  function BornDelayedRows(rows: seq<Row>, user: nat): set<int> {
    set k | 0 <= k < |rows| && OwnedBy(rows, user, k) && BornDelayed(rows[k])
  }

  /**
   The delayed count is the number of shipments with a DELAYED event, plus those created as
   DELAYED to which nothing has happened yet; it never exceeds the user's shipments.
   */
  lemma DelayedCountIsHistory(rows: seq<Row>, user: nat)
    requires Consistent(rows)
    ensures DelayedCount(rows, user) == |EverDelayed(rows, user)| + |BornDelayedRows(rows, user)|
    ensures DelayedCount(rows, user) == |EverDelayed(rows, user)| <==> BornDelayedRows(rows, user) == {}
    ensures DelayedCount(rows, user) <= |RowsOf(rows, user)|
  {
    var ever, born := EverDelayed(rows, user), BornDelayedRows(rows, user);
    forall k | k in CurrentlyDelayed(rows, user) ensures k in ever + born {
      var t := rows[k].parcel.track;
      if t.events != [] { assert t.events[|t.events| - 1].status == Delayed; }
    }
    assert born <= CurrentlyDelayed(rows, user);
    assert CurrentlyDelayed(rows, user) + ever == ever + born;
    assert ever !! born;
    Subset(ever + born, RowsOf(rows, user));
  }

  lemma {:induction false} Subset(a: set<int>, b: set<int>)
    requires a <= b
    ensures |a| <= |b|
  {
    assert b == a + (b - a);
  }

  /** The user's shipments that are DELAYED or have a DELAYED event, one by one. */
  function DelayedRows(rows: seq<Row>, user: nat): nat {
    if rows == [] then 0
    else
      var row := rows[|rows| - 1];
      DelayedRows(rows[..|rows| - 1], user)
      + (if row.owner == Some(user) && (row.parcel.track.status == Delayed || HadDelay(row.parcel.track.events)) then 1 else 0)
  }

  lemma DelayedSnoc(rows: seq<Row>, row: Row, user: nat)
    ensures var n, before := |rows|, CurrentlyDelayed(rows, user) + EverDelayed(rows, user);
            && n !in before
            && CurrentlyDelayed(rows + [row], user) + EverDelayed(rows + [row], user)
            == if row.owner == Some(user) && (row.parcel.track.status == Delayed || HadDelay(row.parcel.track.events)) then before + {n} else before
  {
    var all := rows + [row];
    assert all[|rows|] == row && forall k :: 0 <= k < |rows| ==> all[k] == rows[k] && (OwnedBy(all, user, k) <==> OwnedBy(rows, user, k));
    assert OwnedBy(all, user, |rows|) <==> row.owner == Some(user);
  }

  /** The union of the two queries counts no shipment twice, and none of another user. */
  lemma {:induction false} CountIsByRow(rows: seq<Row>, user: nat)
    ensures DelayedCount(rows, user) == DelayedRows(rows, user)
    decreases |rows|
  {
    if rows != [] {
      CountIsByRow(rows[..|rows| - 1], user);
      DelayedSnoc(rows[..|rows| - 1], rows[|rows| - 1], user);
      Snoc(rows);
    }
  }

  predicate NeverBornDelayed(actions: seq<Action>) {
    forall k :: 0 <= k < |actions| ==> !(actions[k].Create? && actions[k].status == Delayed)
  }

  lemma DelayIsKept(before: seq<TrackingEvent>, after: seq<TrackingEvent>)
    requires before <= after && HadDelay(before)
    ensures HadDelay(after)
  {
    var k :| 0 <= k < |before| && before[k].status == Delayed;
    assert after[k] == before[k];
  }

  lemma StepKeepsDelays(dispatcher: bool, rows: seq<Row>, action: Action, user: nat)
    ensures EverDelayed(rows, user) <= EverDelayed(Perform(dispatcher, rows, action), user)
  {
    var next := Perform(dispatcher, rows, action);
    forall k | k in EverDelayed(rows, user) ensures k in EverDelayed(next, user) {
      HistoryGrows(dispatcher, rows, action, k);
      DelayIsKept(rows[k].parcel.track.events, next[k].parcel.track.events);
    }
  }

  /** No action removes a row or an event, or changes a row's owner or creation status. */
  lemma HistoryGrows(dispatcher: bool, rows: seq<Row>, action: Action, k: nat)
    requires k < |rows|
    ensures var next := Perform(dispatcher, rows, action);
            && k < |next| && next[k].owner == rows[k].owner && next[k].created == rows[k].created
            && rows[k].parcel.track.events <= next[k].parcel.track.events
  {
    if action.Refresh? && action.row == k && action.reply.update.Some? {
      SyncKeys(rows[k].parcel, action.reply.update.value);
    }
  }

  lemma {:induction false} NoneBornDelayed(dispatcher: bool, actions: seq<Action>, user: nat)
    requires NeverBornDelayed(actions)
    ensures forall k :: 0 <= k < |PerformAll(dispatcher, [], actions)| ==> PerformAll(dispatcher, [], actions)[k].created != Delayed
    decreases |actions|
  {
    if actions != [] {
      var before := PerformAll(dispatcher, [], actions[..|actions| - 1]);
      NoneBornDelayed(dispatcher, actions[..|actions| - 1], user);
      forall k: nat | k < |before| ensures PerformAll(dispatcher, [], actions)[k].created != Delayed {
        HistoryGrows(dispatcher, before, actions[|actions| - 1], k);
      }
    }
  }

  lemma {:induction false} DelaysAccumulate(dispatcher: bool, actions: seq<Action>, n: nat, user: nat)
    requires n <= |actions|
    ensures EverDelayed(PerformAll(dispatcher, [], actions[..n]), user) <= EverDelayed(PerformAll(dispatcher, [], actions), user)
    decreases |actions|
  {
    if n == |actions| {
      assert actions[..n] == actions;
    } else {
      var before := actions[..|actions| - 1];
      assert before[..n] == actions[..n];
      DelaysAccumulate(dispatcher, before, n, user);
      StepKeepsDelays(dispatcher, PerformAll(dispatcher, [], before), actions[|actions| - 1], user);
    }
  }

  /**
   Over any mix of creations, syncs and manual updates in which no shipment is created as
   DELAYED, the delayed count is the number of shipments with a DELAYED event and never falls.
   */
  lemma DelayedCountNeverFalls(dispatcher: bool, actions: seq<Action>, n: nat, user: nat)
    requires n <= |actions| && NeverBornDelayed(actions)
    ensures var now, earlier := PerformAll(dispatcher, [], actions), PerformAll(dispatcher, [], actions[..n]);
            && DelayedCount(now, user) == |EverDelayed(now, user)|
            && DelayedCount(earlier, user) <= DelayedCount(now, user)
  {
    CountAfter(dispatcher, actions, user);
    CountAfter(dispatcher, actions[..n], user);
    DelaysAccumulate(dispatcher, actions, n, user);
    Subset(EverDelayed(PerformAll(dispatcher, [], actions[..n]), user), EverDelayed(PerformAll(dispatcher, [], actions), user));
  }

  /**
   The action gives a shipment its first events, none of them DELAYED: a manual status other than
   DELAYED, or a successful, non-empty answer in which no event maps to DELAYED.
   */
  predicate Clears(dispatcher: bool, p: Parcel, action: Action) {
    match action
    case Create(_, _, _, _) => false
    case Manual(_, change, _) => change.status.To? && change.status.value != Delayed
    case Refresh(_, reply) =>
      SyncResult(dispatcher, p, reply).outcome == Synced && reply.update.value != [] && !MapsToDelay(reply.update.value)
  }

  function RowOf(action: Action): Option<nat> {
    match action
    case Create(_, _, _, _) => None
    case Refresh(k, _) => Some(k)
    case Manual(k, _, _) => Some(k)
  }

  predicate Counted(row: Row) { HadDelay(row.parcel.track.events) || BornDelayed(row) }

  function CountedRows(rows: seq<Row>, user: nat): set<int> {
    set k | 0 <= k < |rows| && OwnedBy(rows, user, k) && Counted(rows[k])
  }

  lemma CountIsCounted(rows: seq<Row>, user: nat)
    requires Consistent(rows)
    ensures DelayedCount(rows, user) == |CountedRows(rows, user)|
  {
    forall k | k in CurrentlyDelayed(rows, user) ensures k in CountedRows(rows, user) {
      var t := rows[k].parcel.track;
      if t.events != [] { assert t.events[|t.events| - 1].status == Delayed; }
    }
    assert CurrentlyDelayed(rows, user) + EverDelayed(rows, user) == CountedRows(rows, user);
  }

  predicate MapsToDelay(events: seq<ProviderEvent>) {
    exists i :: 0 <= i < |events| && MapStatus(events[i].status) == Delayed
  }

  /** Rows with the keys of an answer hold a delay exactly if the answer does. */
  lemma SameKeys(rows: seq<TrackingEvent>, events: seq<ProviderEvent>)
    requires Keys(rows) == FetchedKeys(events)
    ensures rows == [] <==> events == []
    ensures HadDelay(rows) <==> MapsToDelay(events)
  {
    if events != [] { assert KeyOf(events[0]) in Keys(rows); }
    if rows != [] { assert StoredKey(rows[0]) in FetchedKeys(events); }
    if HadDelay(rows) {
      var k :| 0 <= k < |rows| && rows[k].status == Delayed;
      assert StoredKey(rows[k]) in FetchedKeys(events);
      var i :| 0 <= i < |events| && KeyOf(events[i]) == StoredKey(rows[k]);
      assert MapStatus(events[i].status) == Delayed;
    }
    if MapsToDelay(events) {
      var i :| 0 <= i < |events| && MapStatus(events[i].status) == Delayed;
      assert KeyOf(events[i]) in Keys(rows);
      var k :| 0 <= k < |rows| && StoredKey(rows[k]) == KeyOf(events[i]);
      assert rows[k].status == Delayed;
    }
  }

  lemma ClearedByAnswer(dispatcher: bool, row: Row, reply: Reply, next: Row)
    requires BornDelayed(row) && next == row.(parcel := SyncResult(dispatcher, row.parcel, reply).parcel)
    ensures !Counted(next) <==> SyncResult(dispatcher, row.parcel, reply).outcome == Synced
                                && reply.update.value != [] && !MapsToDelay(reply.update.value)
  {
    if SyncResult(dispatcher, row.parcel, reply).outcome == Synced {
      SyncKeys(row.parcel, reply.update.value);
      assert Keys(row.parcel.track.events) == {};
      SameKeys(next.parcel.track.events, reply.update.value);
    }
  }

  lemma ClearedByHand(row: Row, change: Change, now: Stamp, next: Row)
    requires BornDelayed(row) && Updated(row.parcel, change, now).Some? && next == row.(parcel := Updated(row.parcel, change, now).value)
    ensures !Counted(next) <==> change.status.To? && change.status.value != Delayed
  {
    if change.status.To? {
      assert next.parcel.track.events == [TrackingEvent(change.status.value, None, None, now)];
      assert next.parcel.track.events[0].status == change.status.value;
    }
  }

  /** A row goes out of the count exactly if it was born DELAYED and the action clears it. */
  lemma RowLeavesIff(dispatcher: bool, rows: seq<Row>, action: Action, k: nat)
    requires k < |rows| && Counted(rows[k]) && RowOf(action) == Some(k)
    ensures !Counted(Perform(dispatcher, rows, action)[k]) <==> BornDelayed(rows[k]) && Clears(dispatcher, rows[k].parcel, action)
  {
    var row, next := rows[k], Perform(dispatcher, rows, action)[k];
    if HadDelay(row.parcel.track.events) {
      HistoryGrows(dispatcher, rows, action, k);
      DelayIsKept(row.parcel.track.events, next.parcel.track.events);
    } else if action.Refresh? {
      ClearedByAnswer(dispatcher, row, action.reply, next);
    } else if Updated(row.parcel, action.change, action.now).Some? {
      ClearedByHand(row, action.change, action.now, next);
    }
  }

  /**
   The delayed count falls if and only if the action clears a shipment of the user that was
   created as DELAYED and has no events yet; it then falls by one.
   */
  lemma CountFallsIff(dispatcher: bool, rows: seq<Row>, action: Action, user: nat, next: seq<Row>, k: int)
    requires Consistent(rows) && next == Perform(dispatcher, rows, action)
    requires k == if RowOf(action).Some? then RowOf(action).value else -1
    ensures var falls := OwnedBy(rows, user, k) && BornDelayed(rows[k]) && Clears(dispatcher, rows[k].parcel, action);
            && (DelayedCount(next, user) < DelayedCount(rows, user) <==> falls)
            && (falls ==> DelayedCount(next, user) == DelayedCount(rows, user) - 1)
  {
    StepKeepsLast(dispatcher, rows, action);
    CountIsCounted(rows, user);
    CountIsCounted(next, user);
    CountedChange(dispatcher, rows, action, user, next, k);
    if k in CountedRows(rows, user) && k !in CountedRows(next, user) {
      assert CountedRows(next, user) == CountedRows(rows, user) - {k};
    } else {
      Subset(CountedRows(rows, user), CountedRows(next, user));
    }
  }

  /** Only the row acted on can go out of the count, and then none comes in. */
  lemma CountedChange(dispatcher: bool, rows: seq<Row>, action: Action, user: nat, next: seq<Row>, k: int)
    requires next == Perform(dispatcher, rows, action) && k == if RowOf(action).Some? then RowOf(action).value else -1
    ensures var before, after := CountedRows(rows, user), CountedRows(next, user);
            && before - {k} <= after
            && (k in before && k !in after <==> OwnedBy(rows, user, k) && BornDelayed(rows[k]) && Clears(dispatcher, rows[k].parcel, action))
            && (k in before && k !in after ==> after == before - {k})
  {
    forall i | i in CountedRows(rows, user) && i != k ensures i in CountedRows(next, user) { assert next[i] == rows[i]; }
    if k in CountedRows(rows, user) {
      RowLeavesIff(dispatcher, rows, action, k);
      HistoryGrows(dispatcher, rows, action, k);
      OthersStay(dispatcher, rows, action, k);
    }
  }

  lemma OthersStay(dispatcher: bool, rows: seq<Row>, action: Action, k: nat)
    requires RowOf(action) == Some(k)
    ensures var next := Perform(dispatcher, rows, action);
            |next| == |rows| && forall i :: 0 <= i < |rows| && i != k ==> next[i] == rows[i]
  {
  }

  lemma CountAfter(dispatcher: bool, actions: seq<Action>, user: nat)
    requires NeverBornDelayed(actions)
    ensures var rows := PerformAll(dispatcher, [], actions); DelayedCount(rows, user) == |EverDelayed(rows, user)|
  {
    var rows := PerformAll(dispatcher, [], actions);
    StatusFollowsHistory(dispatcher, actions);
    NoneBornDelayed(dispatcher, actions, user);
    DelayedCountIsHistory(rows, user);
    assert BornDelayedRows(rows, user) == {};
  }

  /** A shipment created as DELAYED can leave the count again: here its first event takes it away. */
  lemma BornDelayedCanFall(dispatcher: bool, user: nat, now: Stamp)
    ensures var create := Create(Some(user), Delayed, "n", None);
            var update := Manual(0, Change(To(InTransit), Absent, Absent), now);
            && DelayedCount(PerformAll(dispatcher, [], [create]), user) == 1
            && DelayedCount(PerformAll(dispatcher, [], [create, update]), user) == 0
  {
    var create := Create(Some(user), Delayed, "n", None);
    var update := Manual(0, Change(To(InTransit), Absent, Absent), now);
    assert [create][..0] == [] && [create, update][..1] == [create] && PerformAll(dispatcher, [], []) == [];
    var one := PerformAll(dispatcher, [], [create]);
    var two := PerformAll(dispatcher, [], [create, update]);
    assert one == Perform(dispatcher, [], create) && two == Perform(dispatcher, one, update);
    CountIsCounted(one, user);
    assert CountedRows(one, user) == {0};
    CountFallsIff(dispatcher, one, update, user, two, 0);
  }
}
