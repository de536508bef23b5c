/** `ImapMailbox.fetch_since`: the messages above a UID, oldest first, at most so many. */
module Mailbox {
  import opened Prelude

  datatype RawEmail = RawEmail(
    uid: int, messageId: string, subject: string, sender: string, receivedAt: Stamp,
    textBody: string, htmlBody: string, attachments: seq<string>)
  {
    function Body(): string { if textBody != "" then textBody else htmlBody }
  }

  /** The selected folder, in the order in which the server lists it. */
  type Folder = seq<RawEmail>

  /** UIDs are positive and no two messages share one (section 2.3.1.1 of RFC 3501). */
  predicate ValidFolder(mb: Folder) {
    && (forall k :: 0 <= k < |mb| ==> mb[k].uid > 0)
    && (forall i, j :: 0 <= i < j < |mb| ==> mb[i].uid != mb[j].uid)
  }

  predicate HasUid(mb: Folder, uid: int) {
    exists k :: 0 <= k < |mb| && mb[k].uid == uid
  }

  predicate IsGreatest(mb: Folder, uid: int) {
    forall k :: 0 <= k < |mb| ==> mb[k].uid <= uid
  }

  /**
   `UID n:*` over the messages `part` of the folder: every UID from `n` on and, whatever `n`
   is, the folder's last one (section 6.4.8 of RFC 3501).
   */
  function SearchFrom(mb: Folder, part: Folder, n: int): seq<int> {
    if part == [] then []
    else
      var uid := part[|part| - 1].uid;
      SearchFrom(mb, part[..|part| - 1], n) + (if uid >= n || IsGreatest(mb, uid) then [uid] else [])
  }

  function Greater(uids: seq<int>, since: int): seq<int> {
    if uids == [] then []
    else Greater(uids[..|uids| - 1], since) + (if uids[|uids| - 1] > since then [uids[|uids| - 1]] else [])
  }

  predicate StrictlyAscending(uids: seq<int>) {
    forall i, j :: 0 <= i < j < |uids| ==> uids[i] < uids[j]
  }

  function InsertUid(uids: seq<int>, x: int): seq<int> {
    if uids == [] || uids[|uids| - 1] < x then uids + [x] else InsertUid(uids[..|uids| - 1], x) + [uids[|uids| - 1]]
  }

  function Sorted(uids: seq<int>): seq<int> {
    if uids == [] then [] else InsertUid(Sorted(uids[..|uids| - 1]), uids[|uids| - 1])
  }

  function Limited(uids: seq<int>, limit: Option<nat>): seq<int> {
    if limit.Some? && limit.value < |uids| then uids[..limit.value] else uids
  }

  /** The UIDs above `since`, in order. */
  function Above(mb: Folder, since: int): seq<int> {
    Sorted(Greater(SearchFrom(mb, mb, since + 1), since))
  }

  function MessageOf(mb: Folder, uid: int): (m: RawEmail)
    requires HasUid(mb, uid)
    ensures m in mb && m.uid == uid
  {
    if mb[|mb| - 1].uid == uid then mb[|mb| - 1] else MessageOf(mb[..|mb| - 1], uid)
  }

  function Messages(mb: Folder, uids: seq<int>): (r: seq<RawEmail>)
    requires forall k :: 0 <= k < |uids| ==> HasUid(mb, uids[k])
    ensures |r| == |uids| && forall k :: 0 <= k < |uids| ==> r[k] == MessageOf(mb, uids[k])
  {
    if uids == [] then [] else Messages(mb, uids[..|uids| - 1]) + [MessageOf(mb, uids[|uids| - 1])]
  }

  /** `fetch_since` */
  function FetchSince(mb: Folder, since: int, limit: Option<nat>): seq<RawEmail> {
    var uids := Limited(Above(mb, since), limit);
    assert forall k :: 0 <= k < |uids| ==> HasUid(mb, uids[k]) by { LimitedAreThere(mb, since, limit); }
    Messages(mb, uids)
  }

  // ---------------------------------------------------------------- what the search yields

  lemma {:induction false} InsertElements(uids: seq<int>, x: int, y: int)
    ensures y in InsertUid(uids, x) <==> y in uids || y == x
    decreases |uids|
  {
    if uids != [] && uids[|uids| - 1] >= x {
      InsertElements(uids[..|uids| - 1], x, y);
      assert uids == uids[..|uids| - 1] + [uids[|uids| - 1]];
    }
  }

  lemma {:induction false} InsertAscends(uids: seq<int>, x: int)
    requires StrictlyAscending(uids) && x !in uids
    ensures StrictlyAscending(InsertUid(uids, x))
    decreases |uids|
  {
    if uids != [] && uids[|uids| - 1] >= x {
      var before, last := uids[..|uids| - 1], uids[|uids| - 1];
      assert last in uids && forall k :: 0 <= k < |before| ==> before[k] in uids;
      assert x !in before;
      InsertAscends(before, x);
      var r := InsertUid(before, x);
      forall k | 0 <= k < |r| ensures r[k] < last {
        assert r[k] in r;
        InsertElements(before, x, r[k]);
      }
    }
  }

  lemma {:induction false} SortedElements(uids: seq<int>, y: int)
    ensures y in Sorted(uids) <==> y in uids
    decreases |uids|
  {
    if uids != [] {
      var before, last := uids[..|uids| - 1], uids[|uids| - 1];
      SortedElements(before, y);
      InsertElements(Sorted(before), last, y);
      assert uids == before + [last];
    }
  }

  lemma {:induction false} SortedAscends(uids: seq<int>)
    requires Distinct(uids)
    ensures StrictlyAscending(Sorted(uids))
    decreases |uids|
  {
    if uids != [] {
      var before, last := uids[..|uids| - 1], uids[|uids| - 1];
      SortedAscends(before);
      SortedElements(before, last);
      InsertAscends(Sorted(before), last);
    }
  }

  lemma {:induction false} GreaterElements(uids: seq<int>, since: int, y: int)
    ensures y in Greater(uids, since) <==> y in uids && y > since
    decreases |uids|
  {
    if uids != [] {
      GreaterElements(uids[..|uids| - 1], since, y);
      Snoc(uids);
    }
  }

  lemma {:induction false} GreaterIsDistinct(uids: seq<int>, since: int)
    requires Distinct(uids)
    ensures Distinct(Greater(uids, since))
    decreases |uids|
  {
    if uids != [] {
      var before, last := uids[..|uids| - 1], uids[|uids| - 1];
      GreaterIsDistinct(before, since);
      var g := Greater(before, since);
      forall k | 0 <= k < |g| ensures g[k] != last {
        assert g[k] in g;
        GreaterElements(before, since, g[k]);
      }
    }
  }

  lemma {:induction false} SearchElements(mb: Folder, part: Folder, n: int, y: int)
    ensures y in SearchFrom(mb, part, n) <==> HasUid(part, y) && (y >= n || IsGreatest(mb, y))
    ensures ValidFolder(part) ==> Distinct(SearchFrom(mb, part, n))
    decreases |part|
  {
    if part != [] {
      var before, last := part[..|part| - 1], part[|part| - 1];
      SearchElements(mb, before, n, y);
      HasUidSnoc(part, y);
      var g := SearchFrom(mb, before, n);
      if ValidFolder(part) {
        forall k | 0 <= k < |g| ensures g[k] != last.uid {
          assert g[k] in g;
          SearchElements(mb, before, n, g[k]);
        }
      }
    }
  }

  lemma HasUidSnoc(part: Folder, y: int)
    requires part != []
    ensures HasUid(part, y) <==> HasUid(part[..|part| - 1], y) || part[|part| - 1].uid == y
  {
    var before := part[..|part| - 1];
    if HasUid(before, y) {
      var k :| 0 <= k < |before| && before[k].uid == y;
      assert part[k].uid == y;
    }
    if HasUid(part, y) && part[|part| - 1].uid != y {
      var k :| 0 <= k < |part| && part[k].uid == y;
      assert before[k].uid == y;
    }
  }

  /** Although `UID n:*` always answers with the last message, only UIDs above `since` are left. */
  lemma AboveElements(mb: Folder, since: int, y: int)
    ensures y in Above(mb, since) <==> HasUid(mb, y) && y > since
    ensures ValidFolder(mb) ==> StrictlyAscending(Above(mb, since))
  {
    var found := SearchFrom(mb, mb, since + 1);
    SearchElements(mb, mb, since + 1, y);
    GreaterElements(found, since, y);
    SortedElements(Greater(found, since), y);
    if ValidFolder(mb) {
      GreaterIsDistinct(found, since);
      SortedAscends(Greater(found, since));
    }
  }

  lemma AboveAt(mb: Folder, since: int, k: nat)
    requires k < |Above(mb, since)|
    ensures HasUid(mb, Above(mb, since)[k]) && Above(mb, since)[k] > since
  {
    assert Above(mb, since)[k] in Above(mb, since);
    AboveElements(mb, since, Above(mb, since)[k]);
  }

  lemma LimitedAreThere(mb: Folder, since: int, limit: Option<nat>)
    ensures var uids := Limited(Above(mb, since), limit); forall k :: 0 <= k < |uids| ==> HasUid(mb, uids[k])
  {
    var uids := Limited(Above(mb, since), limit);
    forall k | 0 <= k < |uids| ensures HasUid(mb, uids[k]) { AboveAt(mb, since, k); }
  }

  /** A strictly ascending sequence is determined by its elements. */
  lemma {:induction false} AscendingIsUnique(a: seq<int>, b: seq<int>)
    requires StrictlyAscending(a) && StrictlyAscending(b) && forall x :: x in a <==> x in b
    ensures a == b
    decreases |a|
  {
    assert a != [] ==> a[0] in a;
    assert b != [] ==> b[0] in b;
    if a != [] {
      var i :| 0 <= i < |b| && b[i] == a[0];
      var j :| 0 <= j < |a| && a[j] == b[0];
      assert a[0] == b[0];
      forall x ensures x in a[1..] <==> x in b[1..] {
        assert x in a <==> x == a[0] || x in a[1..] by { assert a == [a[0]] + a[1..]; }
        assert x in b <==> x == b[0] || x in b[1..] by { assert b == [b[0]] + b[1..]; }
        assert forall k :: 0 <= k < |a[1..]| ==> a[1..][k] == a[k + 1] > a[0];
        assert forall k :: 0 <= k < |b[1..]| ==> b[1..][k] == b[k + 1] > b[0];
      }
      AscendingIsUnique(a[1..], b[1..]);
    }
  }

  /** Above the `p`-th UID lie exactly the UIDs behind it. */
  lemma AboveSuffix(mb: Folder, since: int, p: nat)
    requires ValidFolder(mb) && p < |Above(mb, since)|
    ensures Above(mb, Above(mb, since)[p]) == Above(mb, since)[p + 1..]
  {
    var all := Above(mb, since);
    AboveAt(mb, since, p);
    AboveElements(mb, since, 0);
    AboveElements(mb, all[p], 0);
    forall x ensures x in all[p + 1..] <==> x in Above(mb, all[p]) {
      TailOf(all, p, x);
      AboveElements(mb, since, x);
      AboveElements(mb, all[p], x);
    }
    AscendingIsUnique(Above(mb, all[p]), all[p + 1..]);
  }

  lemma TailOf(all: seq<int>, p: nat, x: int)
    requires StrictlyAscending(all) && p < |all|
    ensures x in all[p + 1..] <==> x in all && x > all[p]
  {
    if x in all && x > all[p] {
      var k :| 0 <= k < |all| && all[k] == x;
      assert all[p + 1..][k - p - 1] == x;
    }
    if x in all[p + 1..] {
      var k :| 0 <= k < |all[p + 1..]| && all[p + 1..][k] == x;
      assert all[k + p + 1] == x;
    }
  }

  /** What a fetch returns: the message of each of the first `k` UIDs above `since`. */
  lemma FetchAt(mb: Folder, since: int, k: nat)
    ensures var r := FetchSince(mb, since, Some(k));
            && |r| == (if k < |Above(mb, since)| then k else |Above(mb, since)|)
            && forall i :: 0 <= i < |r| ==> HasUid(mb, Above(mb, since)[i]) && r[i] == MessageOf(mb, Above(mb, since)[i])
  {
    var all := Above(mb, since);
    LimitedAreThere(mb, since, Some(k));
    var uids := Limited(all, Some(k));
    assert forall i :: 0 <= i < |uids| ==> uids[i] == all[i];
  }

  /** `fetch_since(s, k)` yields exactly the `k` smallest UIDs above `s`, in order, or all of them if there are fewer. */
  lemma FetchIsSmallest(mb: Folder, since: int, k: nat, uid: int)
    requires ValidFolder(mb)
    ensures var r := FetchSince(mb, since, Some(k));
            && |r| <= k && (|r| < k ==> HasUid(mb, uid) && uid > since ==> HasUid(r, uid))
            && (forall i :: 0 <= i < |r| ==> r[i] in mb && r[i].uid > since)
            && (forall i, j :: 0 <= i < j < |r| ==> r[i].uid < r[j].uid)
            && (HasUid(mb, uid) && uid > since && !HasUid(r, uid) ==> forall i :: 0 <= i < |r| ==> r[i].uid < uid)
  {
    var all := Above(mb, since);
    var r := FetchSince(mb, since, Some(k));
    FetchAt(mb, since, k);
    AboveElements(mb, since, uid);
    forall i | 0 <= i < |r| ensures r[i].uid == all[i] && all[i] > since { AboveAt(mb, since, i); }
    if HasUid(mb, uid) && uid > since {
      var j :| 0 <= j < |all| && all[j] == uid;
      if j < |r| { assert r[j].uid == uid; }
    }
  }
}
