/**
 Series of `sync_account` calls over one mailbox: the watermark, the batches and
 the messages that a batch finds already stored. What a message does to the tables is left
 open here, except that it records the message's id.
 */
module Backlog {
  import opened Prelude
  import opened Mailbox
  import opened Tables

  /** The effect of a message not seen before, for a user, on the tables. */
  type Ingestor = (nat, Tables, RawEmail) -> Tables

  predicate RecordsAt(ingest: Ingestor, user: nat, t: Tables, m: RawEmail) {
    MessageIds(ingest(user, t, m).emails) == MessageIds(t.emails) + {m.messageId}
  }

  ghost predicate Records(ingest: Ingestor) {
    forall user, t, m :: RecordsAt(ingest, user, t, m)
  }

  /** The tables and an account's `last_seen_uid`. */
  datatype State = State(t: Tables, seen: int)

  function Ids(s: State): set<string> { MessageIds(s.t.emails) }

  /** The loop body of `sync_account`: a message already stored is skipped before the watermark moves. */
  function Step(ingest: Ingestor, user: nat, s: State, m: RawEmail): State {
    if m.messageId in Ids(s) then s else State(ingest(user, s.t, m), Max(s.seen, m.uid))
  }

  function Fold(ingest: Ingestor, user: nat, s: State, ms: seq<RawEmail>): State {
    if ms == [] then s else Step(ingest, user, Fold(ingest, user, s, ms[..|ms| - 1]), ms[|ms| - 1])
  }

  predicate Ascends(ms: seq<RawEmail>, seen: int) {
    && (forall i :: 0 <= i < |ms| ==> ms[i].uid > seen)
    && (forall i, j :: 0 <= i < j < |ms| ==> ms[i].uid < ms[j].uid)
  }

  /** The messages above a UID, oldest first: a mailbox as a sync sees it. */
  type Inbox = int -> seq<RawEmail>

  /** Above the `p`-th message above a UID lie the rest of them. */
  ghost predicate InOrder(inbox: Inbox, since: int) {
    && Ascends(inbox(since), since)
    && forall p :: 0 <= p < |inbox(since)| ==> inbox(inbox(since)[p].uid) == inbox(since)[p + 1..]
  }

  ghost predicate Ordered(inbox: Inbox) {
    forall since :: InOrder(inbox, since)
  }

  /** A folder as an inbox: `fetch_since` without a limit. */
  function InboxOf(mb: Folder): Inbox {
    since => FetchSince(mb, since, None)
  }

  function Cut(all: seq<RawEmail>, limit: nat): seq<RawEmail> {
    all[..if limit < |all| then limit else |all|]
  }

  /** One sync with a batch limit. */
  function SyncOnce(ingest: Ingestor, user: nat, s: State, inbox: Inbox, limit: nat): State {
    Fold(ingest, user, s, Cut(inbox(s.seen), limit))
  }

  /** Whether that sync reports `truncated`. */
  predicate Truncated(s: State, inbox: Inbox, limit: nat) {
    |Cut(inbox(s.seen), limit)| == limit
  }

  /** One sync without a limit. */
  function SyncAll(ingest: Ingestor, user: nat, s: State, inbox: Inbox): State {
    Fold(ingest, user, s, inbox(s.seen))
  }

  /** `n` syncs in turn. */
  function Syncs(ingest: Ingestor, user: nat, s: State, inbox: Inbox, limit: nat, n: nat): State
    decreases n
  {
    if n == 0 then s else Syncs(ingest, user, SyncOnce(ingest, user, s, inbox, limit), inbox, limit, n - 1)
  }

  // ---------------------------------------------------------------- folders as inboxes

  lemma FetchAll(mb: Folder, since: int)
    ensures var all := FetchSince(mb, since, None);
            && |all| == |Above(mb, since)|
            && forall i :: 0 <= i < |all| ==> HasUid(mb, Above(mb, since)[i]) && all[i] == MessageOf(mb, Above(mb, since)[i])
  {
    LimitedAreThere(mb, since, None);
  }

  /** A limited fetch is a prefix of the unlimited one. */
  lemma FetchIsCut(mb: Folder, since: int, limit: nat)
    ensures FetchSince(mb, since, Some(limit)) == Cut(InboxOf(mb)(since), limit)
  {
    FetchAll(mb, since);
    FetchAt(mb, since, limit);
  }

  lemma FetchAscends(mb: Folder, since: int)
    requires ValidFolder(mb)
    ensures Ascends(FetchSince(mb, since, None), since)
  {
    FetchAll(mb, since);
    AboveElements(mb, since, 0);
    forall i | 0 <= i < |Above(mb, since)| ensures Above(mb, since)[i] > since { AboveAt(mb, since, i); }
  }

  lemma RestAbove(mb: Folder, since: int, p: nat)
    requires ValidFolder(mb) && p < |FetchSince(mb, since, None)|
    ensures FetchSince(mb, FetchSince(mb, since, None)[p].uid, None) == FetchSince(mb, since, None)[p + 1..]
  {
    FetchAll(mb, since);
    AboveSuffix(mb, since, p);
    FetchAll(mb, Above(mb, since)[p]);
  }

  lemma FolderInOrder(mb: Folder, inbox: Inbox, since: int)
    requires ValidFolder(mb) && inbox == InboxOf(mb)
    ensures InOrder(inbox, since)
  {
    FetchAscends(mb, since);
    var all := inbox(since);
    forall p | 0 <= p < |all| ensures inbox(all[p].uid) == all[p + 1..] { RestAbove(mb, since, p); }
  }

  /** Every folder is an inbox in order, whatever order the server lists it in. */
  lemma {:induction false} FoldersAreOrdered(mb: Folder)
    requires ValidFolder(mb)
    ensures Ordered(InboxOf(mb))
  {
    var inbox := InboxOf(mb);
    forall since ensures InOrder(inbox, since) { FolderInOrder(mb, inbox, since); }
  }

  // ---------------------------------------------------------------- stale and fresh messages

  /** A message whose id is neither stored nor that of an earlier message of the list. */
  predicate Fresh(ids: set<string>, ms: seq<RawEmail>, i: nat) {
    && i < |ms| && ms[i].messageId !in ids
    && forall j :: 0 <= j < i ==> ms[j].messageId != ms[i].messageId
  }

  function IdsOf(ms: seq<RawEmail>): set<string> {
    set i | 0 <= i < |ms| :: ms[i].messageId
  }

  /** The last fresh message of a list, or -1. */
  function LastFresh(ids: set<string>, ms: seq<RawEmail>): (p: int)
    ensures -1 <= p < |ms|
  {
    if ms == [] then -1
    else if Fresh(ids, ms, |ms| - 1) then |ms| - 1
    else LastFresh(ids, ms[..|ms| - 1])
  }

  lemma {:induction false} LastFreshIsLast(ids: set<string>, ms: seq<RawEmail>, i: nat)
    requires i < |ms|
    ensures var p := LastFresh(ids, ms); (p >= 0 ==> Fresh(ids, ms, p)) && (i > p ==> !Fresh(ids, ms, i))
    decreases |ms|
  {
    if !Fresh(ids, ms, |ms| - 1) && |ms| > 1 {
      var n := |ms| - 1;
      var p := LastFresh(ids, ms[..n]);
      LastFreshIsLast(ids, ms[..n], if i < n then i else 0);
      if p >= 0 { FreshPrefix(ids, ms, n, p); }
      if i < n { FreshPrefix(ids, ms, n, i); }
    }
  }

  lemma FreshPrefix(ids: set<string>, ms: seq<RawEmail>, n: nat, i: nat)
    requires i < n <= |ms|
    ensures Fresh(ids, ms[..n], i) <==> Fresh(ids, ms, i)
  {
  }

  lemma IdsSnoc(ms: seq<RawEmail>, m: RawEmail)
    ensures IdsOf(ms + [m]) == IdsOf(ms) + {m.messageId}
  {
    assert (ms + [m])[|ms|] == m;
    assert forall k :: 0 <= k < |ms| ==> (ms + [m])[k] == ms[k];
  }

  lemma {:induction false} FoldIds(ingest: Ingestor, user: nat, s: State, ms: seq<RawEmail>)
    requires Records(ingest)
    ensures Ids(Fold(ingest, user, s, ms)) == Ids(s) + IdsOf(ms)
    decreases |ms|
  {
    if ms != [] {
      var before, m := ms[..|ms| - 1], ms[|ms| - 1];
      FoldIds(ingest, user, s, before);
      assert ms == before + [m];
      assert RecordsAt(ingest, user, Fold(ingest, user, s, before).t, m);
      IdsSnoc(before, m);
    }
  }

  lemma TakeDrop<T>(xs: seq<T>, n: nat)
    requires n <= |xs|
    ensures xs[..n] + xs[n..] == xs
  {
  }

  lemma {:induction false} FoldConcat(ingest: Ingestor, user: nat, s: State, a: seq<RawEmail>, b: seq<RawEmail>)
    ensures Fold(ingest, user, s, a + b) == Fold(ingest, user, Fold(ingest, user, s, a), b)
    decreases |b|
  {
    if b == [] {
      assert a + b == a;
    } else {
      FoldConcat(ingest, user, s, a, b[..|b| - 1]);
      assert (a + b)[..|a + b| - 1] == a + b[..|b| - 1];
    }
  }

  /** A message is processed at its turn exactly if it is fresh. */
  lemma FoldKnows(ingest: Ingestor, user: nat, s: State, ms: seq<RawEmail>)
    requires Records(ingest) && ms != []
    ensures ms[|ms| - 1].messageId !in Ids(Fold(ingest, user, s, ms[..|ms| - 1])) <==> Fresh(Ids(s), ms, |ms| - 1)
  {
    FoldIds(ingest, user, s, ms[..|ms| - 1]);
    FreshIffUnknown(Ids(s), ms);
  }

  /** A batch has the effect of its messages up to the last fresh one, and leaves the watermark there. */
  lemma {:induction false} FoldToLastFresh(ingest: Ingestor, user: nat, s: State, ms: seq<RawEmail>, p: int)
    requires Records(ingest) && Ascends(ms, s.seen) && p == LastFresh(Ids(s), ms)
    ensures Fold(ingest, user, s, ms) == Fold(ingest, user, s, ms[..p + 1])
    ensures Fold(ingest, user, s, ms).seen == if p >= 0 then ms[p].uid else s.seen
    decreases |ms|
  {
    if ms != [] {
      var before := ms[..|ms| - 1];
      FoldToLastFresh(ingest, user, s, before, LastFresh(Ids(s), before));
      FoldKnows(ingest, user, s, ms);
      if p == |before| {
        assert ms[..|ms|] == ms;
      } else {
        assert before[..p + 1] == ms[..p + 1];
      }
    }
  }

  lemma FreshIffUnknown(ids: set<string>, ms: seq<RawEmail>)
    requires ms != []
    ensures Fresh(ids, ms, |ms| - 1) <==> ms[|ms| - 1].messageId !in ids + IdsOf(ms[..|ms| - 1])
  {
    var before, m := ms[..|ms| - 1], ms[|ms| - 1];
    assert forall k :: 0 <= k < |before| ==> before[k] == ms[k] && before[k].messageId in IdsOf(before);
  }

  /** If none of the first messages is fresh, their ids are all stored. */
  lemma {:induction false} NoneFresh(ids: set<string>, ms: seq<RawEmail>, i: nat)
    requires i < |ms| && forall j :: 0 <= j <= i ==> !Fresh(ids, ms, j)
    ensures ms[i].messageId in ids
    decreases i
  {
    if ms[i].messageId !in ids {
      assert !Fresh(ids, ms, i);
      var j :| 0 <= j < i && ms[j].messageId == ms[i].messageId;
      NoneFresh(ids, ms, j);
    }
  }

  lemma LastFreshOfCut(ids: set<string>, all: seq<RawEmail>, limit: nat) returns (p: int)
    ensures p == LastFresh(ids, Cut(all, limit)) && p < |all| && p < limit
    ensures p >= 0 ==> Fresh(ids, all, p) && Cut(all, limit)[..p + 1] == all[..p + 1]
    ensures p == -1 ==> forall i :: 0 <= i < |Cut(all, limit)| ==> all[i].messageId in ids
    ensures forall i :: p < i < |Cut(all, limit)| ==> !Fresh(ids, all, i)
  {
    var batch := Cut(all, limit);
    p := LastFresh(ids, batch);
    forall i: nat | i < |batch| ensures i > p ==> !Fresh(ids, all, i) {
      LastFreshIsLast(ids, batch, i);
      FreshPrefix(ids, all, |batch|, i);
    }
    if p >= 0 {
      LastFreshIsLast(ids, batch, p);
      FreshPrefix(ids, all, |batch|, p);
    } else {
      forall i: nat | i < |batch| ensures all[i].messageId in ids { NoneFresh(ids, all, i); }
    }
  }

  /**
   Where a batch lands, given `all` that is above the watermark: at its last fresh message,
   or, if the whole batch is stored already, where it was.
   */
  lemma BatchLands(ingest: Ingestor, user: nat, s: State, all: seq<RawEmail>, limit: nat, next: State) returns (p: int)
    requires Records(ingest) && Ascends(all, s.seen) && next == Fold(ingest, user, s, Cut(all, limit))
    ensures -1 <= p < |all| && p < limit
    ensures p >= 0 ==> Fresh(Ids(s), all, p) && next.seen == all[p].uid
    ensures p >= 0 ==> next == Fold(ingest, user, s, all[..p + 1]) && Ids(next) == Ids(s) + IdsOf(all[..p + 1])
    ensures p == -1 ==> next == s && forall i :: 0 <= i < |Cut(all, limit)| ==> all[i].messageId in Ids(s)
    ensures forall i :: p < i < |Cut(all, limit)| ==> !Fresh(Ids(s), all, i)
  {
    p := LastFreshOfCut(Ids(s), all, limit);
    FoldToLastFresh(ingest, user, s, Cut(all, limit), p);
    if p >= 0 {
      FoldIds(ingest, user, s, all[..p + 1]);
    } else {
      assert Cut(all, limit)[..0] == [];
    }
  }

  /** Where a sync lands, and that above its new watermark is just what it left. */
  lemma SyncLands(ingest: Ingestor, user: nat, s: State, inbox: Inbox, limit: nat, all: seq<RawEmail>, next: State) returns (p: int)
    requires Records(ingest) && Ordered(inbox)
    requires all == inbox(s.seen) && next == SyncOnce(ingest, user, s, inbox, limit)
    ensures -1 <= p < |all| && p < limit
    ensures p >= 0 ==> Fresh(Ids(s), all, p) && next.seen == all[p].uid && inbox(next.seen) == all[p + 1..]
    ensures p >= 0 ==> next == Fold(ingest, user, s, all[..p + 1]) && Ids(next) == Ids(s) + IdsOf(all[..p + 1])
    ensures p == -1 ==> next == s && forall i :: 0 <= i < |Cut(all, limit)| ==> all[i].messageId in Ids(s)
    ensures forall i :: p < i < |Cut(all, limit)| ==> !Fresh(Ids(s), all, i)
  {
    assert InOrder(inbox, s.seen);
    p := BatchLands(ingest, user, s, all, limit, next);
  }

  /** Every sync shrinks what is above the watermark, or its whole batch was stored and it changed nothing. */
  lemma SyncProgressOrIdle(ingest: Ingestor, user: nat, s: State, inbox: Inbox, limit: nat)
    requires Records(ingest) && Ordered(inbox)
    ensures var next, batch := SyncOnce(ingest, user, s, inbox, limit), Cut(inbox(s.seen), limit);
            || (|inbox(next.seen)| < |inbox(s.seen)| && next.seen > s.seen && exists m :: m in batch && m.messageId !in Ids(s))
            || (next == s && forall m :: m in batch ==> m.messageId in Ids(s))
  {
    var all, next := inbox(s.seen), SyncOnce(ingest, user, s, inbox, limit);
    var batch := Cut(all, limit);
    var p := SyncLands(ingest, user, s, inbox, limit, all, next);
    assert InOrder(inbox, s.seen);
    if p >= 0 { assert batch[p] == all[p] && batch[p] in batch; }
  }

  /** A sync that is not truncated is a sync without a limit. */
  lemma UntruncatedIsAll(ingest: Ingestor, user: nat, s: State, inbox: Inbox, limit: nat)
    requires !Truncated(s, inbox, limit)
    ensures SyncOnce(ingest, user, s, inbox, limit) == SyncAll(ingest, user, s, inbox)
  {
    assert Cut(inbox(s.seen), limit) == inbox(s.seen);
  }

  /** An unlimited sync after a limited one ends where an unlimited sync alone does. */
  lemma SyncKeepsTotal(ingest: Ingestor, user: nat, s: State, inbox: Inbox, limit: nat)
    requires Records(ingest) && Ordered(inbox)
    ensures SyncAll(ingest, user, SyncOnce(ingest, user, s, inbox, limit), inbox) == SyncAll(ingest, user, s, inbox)
  {
    var all, next := inbox(s.seen), SyncOnce(ingest, user, s, inbox, limit);
    var p := SyncLands(ingest, user, s, inbox, limit, all, next);
    if p >= 0 {
      TakeDrop(all, p + 1);
      FoldConcat(ingest, user, s, all[..p + 1], all[p + 1..]);
    }
  }

  /** When a sync in a series is not truncated, the tables and the watermark are those of one unlimited sync. */
  lemma {:induction false} BatchingIsInvisible(ingest: Ingestor, user: nat, s: State, inbox: Inbox, limit: nat, n: nat)
    requires Records(ingest) && Ordered(inbox)
    requires !Truncated(Syncs(ingest, user, s, inbox, limit, n), inbox, limit)
    ensures SyncOnce(ingest, user, Syncs(ingest, user, s, inbox, limit, n), inbox, limit) == SyncAll(ingest, user, s, inbox)
    decreases n
  {
    if n == 0 {
      UntruncatedIsAll(ingest, user, s, inbox, limit);
    } else {
      var next := SyncOnce(ingest, user, s, inbox, limit);
      BatchingIsInvisible(ingest, user, next, inbox, limit, n - 1);
      SyncKeepsTotal(ingest, user, s, inbox, limit);
    }
  }

  // ---------------------------------------------------------------- when a series of syncs comes to an end

  /** `limit` messages in a row, from position `i`, whose ids are stored or repeat an earlier one above the watermark. */
  ghost predicate StaleFrom(ids: set<string>, ms: seq<RawEmail>, limit: nat, i: nat) {
    i + limit <= |ms| && forall j :: i <= j < i + limit ==> !Fresh(ids, ms, j)
  }

  ghost predicate StaleRun(ids: set<string>, ms: seq<RawEmail>, limit: nat) {
    exists i: nat :: StaleFrom(ids, ms, limit, i)
  }

  ghost predicate Blocked(s: State, inbox: Inbox, limit: nat) {
    StaleRun(Ids(s), inbox(s.seen), limit)
  }

  lemma FreshSuffix(ids: set<string>, ms: seq<RawEmail>, p: nat, j: nat)
    requires p < j < |ms|
    ensures Fresh(ids, ms, j) <==> Fresh(ids + IdsOf(ms[..p + 1]), ms[p + 1..], j - p - 1)
  {
    var head, tail := ms[..p + 1], ms[p + 1..];
    assert forall k :: 0 <= k <= p ==> head[k] == ms[k] && head[k].messageId in IdsOf(head);
    assert forall k :: p < k < |ms| ==> tail[k - p - 1] == ms[k];
    if Fresh(ids + IdsOf(head), tail, j - p - 1) {
      forall k | 0 <= k < j ensures ms[k].messageId != ms[j].messageId {
        if k > p { assert tail[k - p - 1].messageId != tail[j - p - 1].messageId; }
      }
    }
    if Fresh(ids, ms, j) {
      forall k | 0 <= k < j - p - 1 ensures tail[k].messageId != tail[j - p - 1].messageId { assert ms[k + p + 1] == tail[k]; }
      assert ms[j].messageId !in IdsOf(head);
    }
  }

  /** Behind a fresh message within the first `limit`, the stale runs of length `limit` are those of the whole list. */
  lemma StaleRunSuffix(ids: set<string>, ms: seq<RawEmail>, limit: nat, p: nat)
    requires p < |ms| && p < limit && Fresh(ids, ms, p)
    ensures StaleRun(ids, ms, limit) <==> StaleRun(ids + IdsOf(ms[..p + 1]), ms[p + 1..], limit)
  {
    var ids', tail := ids + IdsOf(ms[..p + 1]), ms[p + 1..];
    if StaleRun(ids, ms, limit) {
      var i: nat :| StaleFrom(ids, ms, limit, i);
      assert i > p;
      forall j | i - p - 1 <= j < i - p - 1 + limit ensures !Fresh(ids', tail, j) { FreshSuffix(ids, ms, p, j + p + 1); }
      assert StaleFrom(ids', tail, limit, i - p - 1);
    }
    if StaleRun(ids', tail, limit) {
      var i: nat :| StaleFrom(ids', tail, limit, i);
      forall j | i + p + 1 <= j < i + p + 1 + limit ensures !Fresh(ids, ms, j) { FreshSuffix(ids, ms, p, j); }
      assert StaleFrom(ids, ms, limit, i + p + 1);
    }
  }

  lemma SyncKeepsBlocked(ingest: Ingestor, user: nat, s: State, inbox: Inbox, limit: nat)
    requires Records(ingest) && Ordered(inbox)
    ensures Blocked(SyncOnce(ingest, user, s, inbox, limit), inbox, limit) <==> Blocked(s, inbox, limit)
  {
    var all, next := inbox(s.seen), SyncOnce(ingest, user, s, inbox, limit);
    var p := SyncLands(ingest, user, s, inbox, limit, all, next);
    if p >= 0 { StaleRunSuffix(Ids(s), all, limit, p); }
  }

  lemma BlockedIsTruncated(s: State, inbox: Inbox, limit: nat)
    requires Blocked(s, inbox, limit)
    ensures Truncated(s, inbox, limit)
  {
  }

  lemma {:induction false} BlockedForever(ingest: Ingestor, user: nat, s: State, inbox: Inbox, limit: nat, n: nat)
    requires Records(ingest) && Ordered(inbox) && Blocked(s, inbox, limit)
    ensures Truncated(Syncs(ingest, user, s, inbox, limit, n), inbox, limit)
    decreases n
  {
    if n == 0 {
      BlockedIsTruncated(s, inbox, limit);
    } else {
      SyncKeepsBlocked(ingest, user, s, inbox, limit);
      BlockedForever(ingest, user, SyncOnce(ingest, user, s, inbox, limit), inbox, limit, n - 1);
    }
  }

  /** A truncated sync of a mailbox that is not blocked has a fresh message in its batch. */
  lemma UnblockedProgress(ingest: Ingestor, user: nat, s: State, inbox: Inbox, limit: nat, all: seq<RawEmail>, next: State)
    requires Records(ingest) && Ordered(inbox) && !Blocked(s, inbox, limit) && Truncated(s, inbox, limit)
    requires all == inbox(s.seen) && next == SyncOnce(ingest, user, s, inbox, limit)
    ensures |inbox(next.seen)| < |all|
  {
    var p := SyncLands(ingest, user, s, inbox, limit, all, next);
    if p == -1 { assert StaleFrom(Ids(s), all, limit, 0); }
  }

  lemma {:induction false} UnblockedEnds(ingest: Ingestor, user: nat, s: State, inbox: Inbox, limit: nat) returns (n: nat)
    requires Records(ingest) && Ordered(inbox) && !Blocked(s, inbox, limit)
    ensures !Truncated(Syncs(ingest, user, s, inbox, limit, n), inbox, limit)
    decreases |inbox(s.seen)|
  {
    n := 0;
    if Truncated(s, inbox, limit) {
      var next := SyncOnce(ingest, user, s, inbox, limit);
      UnblockedProgress(ingest, user, s, inbox, limit, inbox(s.seen), next);
      SyncKeepsBlocked(ingest, user, s, inbox, limit);
      var rest := UnblockedEnds(ingest, user, next, inbox, limit);
      n := rest + 1;
    }
  }

  /**
   Repeating limited syncs comes to an untruncated one exactly if no `limit` messages in a row
   above the watermark are stale; otherwise every sync from then on is truncated.
   */
  lemma SyncsEndIff(ingest: Ingestor, user: nat, s: State, inbox: Inbox, limit: nat)
    requires Records(ingest) && Ordered(inbox)
    ensures (exists n: nat :: !Truncated(Syncs(ingest, user, s, inbox, limit, n), inbox, limit)) <==> !Blocked(s, inbox, limit)
  {
    if Blocked(s, inbox, limit) {
      forall n: nat ensures Truncated(Syncs(ingest, user, s, inbox, limit, n), inbox, limit) {
        BlockedForever(ingest, user, s, inbox, limit, n);
      }
    } else {
      var n := UnblockedEnds(ingest, user, s, inbox, limit);
    }
  }

  lemma StaleFromSuffix(ids: set<string>, ms: seq<RawEmail>, limit: nat, p: nat, i: nat)
    requires p < i && StaleFrom(ids, ms, limit, i) && p < |ms|
    ensures StaleFrom(ids + IdsOf(ms[..p + 1]), ms[p + 1..], limit, i - p - 1)
  {
    var ids', tail := ids + IdsOf(ms[..p + 1]), ms[p + 1..];
    forall j | i - p - 1 <= j < i - p - 1 + limit ensures !Fresh(ids', tail, j) { FreshSuffix(ids, ms, p, j + p + 1); }
  }

  lemma IdsOfParts(ms: seq<RawEmail>, p: nat, i: nat)
    requires p < i <= |ms|
    ensures IdsOf(ms[..p + 1]) + IdsOf(ms[p + 1..][..i - p - 1]) <= IdsOf(ms[..i])
  {
    var whole, head, tail := ms[..i], ms[..p + 1], ms[p + 1..][..i - p - 1];
    forall k | 0 <= k < |tail| ensures tail[k].messageId in IdsOf(whole) { assert whole[k + p + 1] == tail[k]; }
    forall k | 0 <= k < |head| ensures head[k].messageId in IdsOf(whole) { assert whole[k] == head[k]; }
  }

  /** `limit` stale messages stand before `tail`, and before them nothing that would store an id not in `known`. */
  ghost predicate Walled(ids: set<string>, all: seq<RawEmail>, limit: nat, tail: seq<RawEmail>, known: set<string>) {
    exists i: nat :: StaleFrom(ids, all, limit, i) && all[i..] == tail && ids + IdsOf(all[..i]) <= known
  }

  lemma StillWalled(ingest: Ingestor, user: nat, s: State, inbox: Inbox, limit: nat, tail: seq<RawEmail>, known: set<string>)
    requires Records(ingest) && Ordered(inbox) && Walled(Ids(s), inbox(s.seen), limit, tail, known)
    ensures var next := SyncOnce(ingest, user, s, inbox, limit); Walled(Ids(next), inbox(next.seen), limit, tail, known)
  {
    var all, next := inbox(s.seen), SyncOnce(ingest, user, s, inbox, limit);
    var i: nat :| StaleFrom(Ids(s), all, limit, i) && all[i..] == tail && Ids(s) + IdsOf(all[..i]) <= known;
    var p := SyncLands(ingest, user, s, inbox, limit, all, next);
    if p >= 0 {
      StaleFromSuffix(Ids(s), all, limit, p, i);
      IdsOfParts(all, p, i);
      assert all[p + 1..][i - p - 1..] == all[i..];
    }
  }

  /**
   No number of syncs gets past `limit` stale messages in a row: all from the first of them on
   stays above the watermark, and no id is stored that does not occur before them.
   */
  lemma {:induction false} NeverPassed(ingest: Ingestor, user: nat, s: State, inbox: Inbox, limit: nat, tail: seq<RawEmail>, known: set<string>, n: nat)
    requires Records(ingest) && Ordered(inbox) && Walled(Ids(s), inbox(s.seen), limit, tail, known)
    ensures var end := Syncs(ingest, user, s, inbox, limit, n);
            && Ids(end) <= known && |tail| <= |inbox(end.seen)| && inbox(end.seen)[|inbox(end.seen)| - |tail|..] == tail
    decreases n
  {
    if n == 0 {
      var i: nat :| StaleFrom(Ids(s), inbox(s.seen), limit, i) && inbox(s.seen)[i..] == tail && Ids(s) + IdsOf(inbox(s.seen)[..i]) <= known;
    } else {
      StillWalled(ingest, user, s, inbox, limit, tail, known);
      NeverPassed(ingest, user, SyncOnce(ingest, user, s, inbox, limit), inbox, limit, tail, known, n - 1);
    }
  }

  // ---------------------------------------------------------------- how many syncs it takes

  predicate AllFresh(ids: set<string>, ms: seq<RawEmail>) {
    forall i :: 0 <= i < |ms| ==> Fresh(ids, ms, i)
  }

  lemma FreshTail(ids: set<string>, ms: seq<RawEmail>, p: nat)
    requires AllFresh(ids, ms) && p < |ms|
    ensures AllFresh(ids + IdsOf(ms[..p + 1]), ms[p + 1..])
  {
    var ids', tail := ids + IdsOf(ms[..p + 1]), ms[p + 1..];
    forall i | 0 <= i < |tail| ensures Fresh(ids', tail, i) { FreshSuffix(ids, ms, p, i + p + 1); }
  }

  /** A full batch of fresh messages is consumed whole, and the rest stays fresh. */
  lemma FreshBatch(ingest: Ingestor, user: nat, s: State, inbox: Inbox, limit: nat, all: seq<RawEmail>, next: State, rest: seq<RawEmail>)
    requires Records(ingest) && Ordered(inbox) && AllFresh(Ids(s), all) && 0 < limit <= |all|
    requires all == inbox(s.seen) && next == SyncOnce(ingest, user, s, inbox, limit)
    requires rest == inbox(next.seen)
    ensures |rest| == |all| - limit && AllFresh(Ids(next), rest)
  {
    var p := SyncLands(ingest, user, s, inbox, limit, all, next);
    assert Fresh(Ids(s), all, limit - 1) && |Cut(all, limit)| == limit;
    FreshTail(Ids(s), all, p);
  }

  /** The `j`-th sync of a series over fresh messages is truncated exactly while a full batch is left. */
  lemma {:induction false} FreshSyncs(ingest: Ingestor, user: nat, s: State, inbox: Inbox, limit: nat, j: nat, all: seq<RawEmail>)
    requires Records(ingest) && Ordered(inbox) && limit > 0 && AllFresh(Ids(s), all) && all == inbox(s.seen)
    requires j * limit <= |all|
    ensures Truncated(Syncs(ingest, user, s, inbox, limit, j), inbox, limit) <==> j * limit + limit <= |all|
    decreases j
  {
    if j > 0 {
      assert j * limit == (j - 1) * limit + limit;
      var next := SyncOnce(ingest, user, s, inbox, limit);
      var rest := inbox(next.seen);
      LessOrEqual(1, j, limit);
      FreshBatch(ingest, user, s, inbox, limit, all, next, rest);
      FreshSyncs(ingest, user, next, inbox, limit, j - 1, rest);
    }
  }

  lemma LessOrEqual(a: nat, b: nat, k: nat)
    requires a <= b
    ensures a * k <= b * k
  {
    assert (b - a) * k >= 0;
  }

  lemma Quotient(n: nat, k: nat, j: nat)
    requires k > 0
    ensures j <= n / k <==> j * k <= n
  {
    var q, r := n / k, n % k;
    assert n == q * k + r;
    if j <= q { LessOrEqual(j, q, k); } else { LessOrEqual(q + 1, j, k); }
  }

  /**
   With `n` messages above the watermark that are not stored and all different, exactly
   `n / limit` syncs are truncated before the first that is not.
   */
  lemma SyncCount(ingest: Ingestor, user: nat, s: State, inbox: Inbox, limit: nat, j: nat)
    requires Records(ingest) && Ordered(inbox) && limit > 0
    requires AllFresh(Ids(s), inbox(s.seen)) && j <= |inbox(s.seen)| / limit
    ensures Truncated(Syncs(ingest, user, s, inbox, limit, j), inbox, limit) <==> j < |inbox(s.seen)| / limit
  {
    var all := inbox(s.seen);
    assert j * limit <= |all| && (j < |all| / limit <==> j * limit + limit <= |all|) by {
      Quotient(|all|, limit, j);
      Quotient(|all|, limit, j + 1);
    }
    FreshSyncs(ingest, user, s, inbox, limit, j, all);
  }

  lemma {:induction false} SyncsLast(ingest: Ingestor, user: nat, s: State, inbox: Inbox, limit: nat, n: nat)
    ensures Syncs(ingest, user, s, inbox, limit, n + 1) == SyncOnce(ingest, user, Syncs(ingest, user, s, inbox, limit, n), inbox, limit)
    decreases n
  {
    if n == 0 {
      assert Syncs(ingest, user, SyncOnce(ingest, user, s, inbox, limit), inbox, limit, 0) == SyncOnce(ingest, user, s, inbox, limit);
    } else {
      SyncsLast(ingest, user, SyncOnce(ingest, user, s, inbox, limit), inbox, limit, n - 1);
    }
  }

  /**
   Syncing until `truncated` is false takes exactly `n / limit + 1` syncs of `n` messages that
   are new and all different, and ends where one sync without a limit ends.
   */
  lemma DrainsInBatches(ingest: Ingestor, user: nat, s: State, inbox: Inbox, limit: nat, q: nat)
    requires Records(ingest) && Ordered(inbox) && limit > 0
    requires AllFresh(Ids(s), inbox(s.seen)) && q == |inbox(s.seen)| / limit
    ensures forall j: nat :: j < q ==> Truncated(Syncs(ingest, user, s, inbox, limit, j), inbox, limit)
    ensures !Truncated(Syncs(ingest, user, s, inbox, limit, q), inbox, limit)
    ensures Syncs(ingest, user, s, inbox, limit, q + 1) == SyncAll(ingest, user, s, inbox)
  {
    forall j: nat | j < q ensures Truncated(Syncs(ingest, user, s, inbox, limit, j), inbox, limit) {
      SyncCount(ingest, user, s, inbox, limit, j);
    }
    SyncCount(ingest, user, s, inbox, limit, q);
    BatchingIsInvisible(ingest, user, s, inbox, limit, q);
    SyncsLast(ingest, user, s, inbox, limit, q);
  }
}
