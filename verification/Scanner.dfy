/** `find_tracking_numbers`: fourteen passes over free text and the mention filter. */
module Scanner {
  import opened Prelude
  import opened Regex
  import opened Carriers

  /** A dictionary in insertion order, tracking number to carrier. */
  type Found = seq<(string, Carrier)>

  /** What `detect_carrier` says of each word that it recognises. */
  type Owners = map<string, Carrier>

  predicate HasKey(found: Found, key: string) {
    exists k :: 0 <= k < |found| && found[k].0 == key
  }

  /** `found.setdefault(key, carrier)` */
  function SetDefault(found: Found, key: string, carrier: Carrier): Found {
    if HasKey(found, key) then found else found + [(key, carrier)]
  }

  // ---------------------------------------------------------------- the reference: tokens, sorted

  predicate OwnedBy(own: Owners, w: string, c: Carrier) { w in own && own[w] == c }

  /** The distinct words of `ws` that belong to `c`, in order of first appearance. */
  function Firsts(own: Owners, ws: seq<string>, c: Carrier): Found {
    if ws == [] then []
    else
      var before, w := ws[..|ws| - 1], ws[|ws| - 1];
      Firsts(own, before, c) + (if OwnedBy(own, w, c) && w !in before then [(w, c)] else [])
  }

  /** The words of each carrier in `order`, one carrier after the other. */
  function Ranked(own: Owners, ws: seq<string>, order: seq<Carrier>): Found {
    if order == [] then [] else Ranked(own, ws, order[..|order| - 1]) + Firsts(own, ws, order[|order| - 1])
  }

  function Detected(u: CharTable, ws: seq<string>): Owners {
    map w | w in ws && DetectCarrier(u, w).Some? :: DetectCarrier(u, w).value
  }

  /** Tokenise, detect, and sort stably by detection rank. */
  function Scan(u: CharTable, text: string): Found {
    var ws := Words(u, text, 0);
    Ranked(Detected(u, ws), ws, DETECTION_ORDER)
  }

  lemma ConcatKeys(a: Found, b: Found, w: string)
    ensures HasKey(a + b, w) <==> HasKey(a, w) || HasKey(b, w)
  {
    if HasKey(a, w) { var k :| 0 <= k < |a| && a[k].0 == w; assert (a + b)[k].0 == w; }
    if HasKey(b, w) { var k :| 0 <= k < |b| && b[k].0 == w; assert (a + b)[|a| + k].0 == w; }
  }

  lemma {:induction false} FirstsKeys(own: Owners, ws: seq<string>, c: Carrier, w: string)
    ensures HasKey(Firsts(own, ws, c), w) <==> w in ws && OwnedBy(own, w, c)
    decreases |ws|
  {
    if ws != [] {
      var before, last := ws[..|ws| - 1], ws[|ws| - 1];
      var extra := if OwnedBy(own, last, c) && last !in before then [(last, c)] else [];
      FirstsKeys(own, before, c, w);
      ConcatKeys(Firsts(own, before, c), extra, w);
      assert ws == before + [last];
      assert HasKey([(last, c)], w) <==> w == last by { assert [(last, c)][0].0 == last; }
    }
  }

  lemma {:induction false} RankedKeys(own: Owners, ws: seq<string>, order: seq<Carrier>, w: string)
    ensures HasKey(Ranked(own, ws, order), w) <==> w in ws && w in own && own[w] in order
    decreases |order|
  {
    if order != [] {
      var before, c := order[..|order| - 1], order[|order| - 1];
      RankedKeys(own, ws, before, w);
      FirstsKeys(own, ws, c, w);
      ConcatKeys(Ranked(own, ws, before), Firsts(own, ws, c), w);
      assert order == before + [c];
    }
  }

  // ---------------------------------------------------------------- one pass

  lemma {:induction false} SelectElements(ws: seq<string>, ok: set<string>, w: string)
    ensures w in Select(ws, ok) <==> w in ws && w in ok
  {
    if ws != [] {
      SelectElements(ws[1..], ok, w);
      assert ws == [ws[0]] + ws[1..];
    }
  }

  lemma {:induction false} SelectSnoc(ws: seq<string>, ok: set<string>, w: string)
    ensures Select(ws + [w], ok) == Select(ws, ok) + (if w in ok then [w] else [])
  {
    if ws == [] {
      assert ws + [w] == [w];
    } else {
      SelectSnoc(ws[1..], ok, w);
      assert (ws + [w])[1..] == ws[1..] + [w];
    }
  }

  lemma FirstsSnoc(own: Owners, ws: seq<string>, w: string, c: Carrier)
    ensures Firsts(own, ws + [w], c) == Firsts(own, ws, c) + (if OwnedBy(own, w, c) && w !in ws then [(w, c)] else [])
  {
    assert (ws + [w])[..|ws|] == ws;
  }

  /** Dropping words that do not belong to the carrier drops none of its own. */
  lemma {:induction false} FirstsOfSelected(own: Owners, ws: seq<string>, ok: set<string>, c: Carrier)
    requires forall w :: w in ws && OwnedBy(own, w, c) ==> w in ok
    ensures Firsts(own, Select(ws, ok), c) == Firsts(own, ws, c)
    decreases |ws|
  {
    if ws != [] {
      var before, w := ws[..|ws| - 1], ws[|ws| - 1];
      assert ws == before + [w] && w in ws;
      FirstsOfSelected(own, before, ok, c);
      SelectSnoc(before, ok, w);
      SelectElements(before, ok, w);
      FirstsSnoc(own, before, w, c);
      FirstsSnoc(own, Select(before, ok), w, c);
      assert Select(before, ok) + [] == Select(before, ok);
    }
  }

  lemma {:induction false} WordsAreWords(u: CharTable, s: string, pos: nat, w: string)
    requires w in Words(u, s, pos)
    ensures forall k :: 0 <= k < |w| ==> w[k] in u.word
    decreases |s| - pos
  {
    if !WordAt(u, s, pos) {
      WordsAreWords(u, s, pos + 1, w);
    } else {
      var e := RunEnd(u, s, pos);
      if w != s[pos..e] { WordsAreWords(u, s, e, w); }
    }
  }

  lemma {:induction false} TextsAt(s: string, spans: seq<(nat, nat)>, m: nat)
    requires Spans(spans, 0, |s|) && m < |spans|
    ensures |Texts(s, spans)| == |spans| && Texts(s, spans)[m] == s[spans[m].0..spans[m].1]
  {
    if |spans| > 1 { TextsAt(s, spans[1..], if m > 0 then m - 1 else 0); }
  }

  /** One `setdefault` extends the pass for `c` by the next of its hits. */
  lemma PassStep(own: Owners, ws: seq<string>, before: seq<Carrier>, c: Carrier, hits: seq<string>, m: nat)
    requires m < |hits| && hits[m] in ws && hits[m] in own && own[hits[m]] in before + [c] && c !in before
    ensures SetDefault(Ranked(own, ws, before) + Firsts(own, hits[..m], c), hits[m], c)
         == Ranked(own, ws, before) + Firsts(own, hits[..m + 1], c)
  {
    var ms, w := hits[..m], hits[m];
    assert hits[..m + 1] == ms + [w];
    RankedKeys(own, ws, before, w);
    FirstsKeys(own, ms, c, w);
    ConcatKeys(Ranked(own, ws, before), Firsts(own, ms, c), w);
    FirstsSnoc(own, ms, w, c);
  }

  /** The words of `text` that the carrier's pattern matches, in order. */
  function Hits(u: CharTable, text: string, c: Carrier): seq<string> {
    var ws := Words(u, text, 0);
    Select(ws, Accepted(u, Pattern(c), ws))
  }

  /** What the dictionary holds once the patterns of `before` have run. */
  function After(u: CharTable, text: string, before: seq<Carrier>): Found {
    var ws := Words(u, text, 0);
    Ranked(Detected(u, ws), ws, before)
  }

  /** What the pass for `c` has added once it has seen the words `ms`. */
  function Added(u: CharTable, text: string, c: Carrier, ms: seq<string>): Found {
    Firsts(Detected(u, Words(u, text, 0)), ms, c)
  }

  lemma UpToRank(r: nat, d: Carrier)
    requires r < |DETECTION_ORDER| && Rank(d) <= r
    ensures d in DETECTION_ORDER[..r] + [DETECTION_ORDER[r]]
  {
    assert DETECTION_ORDER[Rank(d)] == d;
    assert (DETECTION_ORDER[..r] + [DETECTION_ORDER[r]])[Rank(d)] == d;
  }

  /** A word that the pattern of rank `r` matches is detected, at that rank or before. */
  lemma HitIsDetected(u: CharTable, text: string, r: nat, w: string, ws: seq<string>, c: Carrier)
    requires u.Valid() && r < |DETECTION_ORDER| && c == DETECTION_ORDER[r] && ws == Words(u, text, 0)
    requires w in Select(ws, Accepted(u, Pattern(c), ws))
    ensures w in ws && w in Detected(u, ws) && Detected(u, ws)[w] in DETECTION_ORDER[..r] + [c]
  {
    SelectElements(ws, Accepted(u, Pattern(c), ws), w);
    WordsAreWords(u, text, 0, w);
    DetectWord(u, w);
    RankOfOrder(r);
    assert Fits(u, c, w);
    UpToRank(r, DetectFrom(u, w, 0).value);
  }

  lemma PassComplete(u: CharTable, text: string, before: seq<Carrier>, c: Carrier)
    requires u.Valid()
    ensures After(u, text, before) + Added(u, text, c, Hits(u, text, c)) == After(u, text, before + [c])
  {
    var ws := Words(u, text, 0);
    forall w | w in ws && OwnedBy(Detected(u, ws), w, c) ensures w in Accepted(u, Pattern(c), ws) {
      WordsAreWords(u, text, 0, w);
      DetectWord(u, w);
      assert Fits(u, c, w);
    }
    FirstsOfSelected(Detected(u, ws), ws, Accepted(u, Pattern(c), ws), c);
    assert (before + [c])[..|before|] == before;
  }

  lemma SpansAreHits(u: CharTable, text: string, c: Carrier)
    requires u.Valid()
    ensures Texts(text, FindIter(u, Pattern(c), text, 0)) == Hits(u, text, c)
    ensures |FindIter(u, Pattern(c), text, 0)| == |Hits(u, text, c)|
  {
    CoreIsWordShaped(u, c);
    FindIterIsTokenFilter(u, Core(c), text, 0, Accepted(u, Pattern(c), Words(u, text, 0)));
    var spans := FindIter(u, Pattern(c), text, 0);
    if |spans| > 0 { TextsAt(text, spans, 0); }
  }

  lemma OrderIsDistinct(r: nat)
    requires r < |DETECTION_ORDER|
    ensures DETECTION_ORDER[r] !in DETECTION_ORDER[..r]
  {
    RankOfOrder(r);
    if DETECTION_ORDER[r] in DETECTION_ORDER[..r] {
      var k :| 0 <= k < r && DETECTION_ORDER[k] == DETECTION_ORDER[r];
      RankOfOrder(k);
    }
  }

  // ---------------------------------------------------------------- the mention filter

  function Literal(name: string): Re {
    if name == "" then Boundary else Cat(One(Folded(name[0])), Literal(name[1..]))
  }

  /** The carrier's name as a whole word, ignoring case. */
  function MentionPattern(c: Carrier): Re { Cat(Boundary, Literal(Name(c))) }

  predicate Mentioned(u: CharTable, text: string, c: Carrier) {
    Search(u, MentionPattern(c), text, 0).Some?
  }

  /** The carriers of `found` that satisfy a test of their name. */
  function Mentions(u: CharTable, text: string, found: Found): set<Carrier> {
    set k | 0 <= k < |found| && Mentioned(u, text, found[k].1) :: found[k].1
  }

  predicate Kept(named: set<Carrier>, entry: (string, Carrier)) { named == {} || entry.1 in named }

  function Keep(found: Found, named: set<Carrier>): Found {
    if found == [] then []
    else (if Kept(named, found[0]) then [found[0]] else []) + Keep(found[1..], named)
  }

  /** What the scan reports: everything, or, where the text names a found carrier, only the named ones. */
  function Reported(u: CharTable, text: string): Found {
    Keep(Scan(u, text), Mentions(u, text, Scan(u, text)))
  }

  lemma {:induction false} KeepAll(found: Found, named: set<Carrier>)
    requires forall k :: 0 <= k < |found| ==> Kept(named, found[k])
    ensures Keep(found, named) == found
  {
    if found != [] {
      forall k | 0 <= k < |found[1..]| ensures Kept(named, found[1..][k]) { assert found[1..][k] == found[k + 1]; }
      KeepAll(found[1..], named);
    }
  }

  lemma {:induction false} KeepSnoc(found: Found, entry: (string, Carrier), named: set<Carrier>)
    ensures Keep(found + [entry], named) == Keep(found, named) + (if Kept(named, entry) then [entry] else [])
  {
    if found == [] {
      assert found + [entry] == [entry];
    } else {
      KeepSnoc(found[1..], entry, named);
      assert (found + [entry])[1..] == found[1..] + [entry];
    }
  }

  lemma MentionsSnoc(u: CharTable, text: string, found: Found, entry: (string, Carrier))
    ensures Mentions(u, text, found + [entry])
         == Mentions(u, text, found) + (if Mentioned(u, text, entry.1) then {entry.1} else {})
  {
    assert (found + [entry])[|found|] == entry;
    assert forall k :: 0 <= k < |found| ==> (found + [entry])[k] == found[k];
  }

  /** A single number is reported whether or not its carrier is named. */
  lemma KeepSingle(found: Found, named: set<Carrier>)
    requires |found| <= 1 && forall c :: c in named ==> exists k :: 0 <= k < |found| && found[k].1 == c
    ensures Keep(found, named) == found
  {
    if |found| == 1 && named != {} {
      var c :| c in named;
      assert found[0].1 == c;
    }
    KeepAll(found, named);
  }

  method FindTrackingNumbers(u: CharTable, text: string) returns (result: Found)
    requires u.Valid()
    ensures result == Reported(u, text)
    ensures forall w :: HasKey(result, w) <==> Eligible(u, text, w)
    ensures forall k :: 0 <= k < |result| ==> FormOf(u, result[k].0) == Some(Form(Rank(result[k].1), Name(result[k].1)))
    ensures forall i, j :: 0 <= i < j < |result| ==> ComesBefore(u, Words(u, text, 0), result[i].0, result[j].0)
  {
    ReportByForm(u, text, Reported(u, text));
    var found := Collect(u, text);
    if |found| <= 1 {
      KeepSingle(found, Mentions(u, text, found));
      return found;
    }
    var mentioned: set<Carrier> := {};
    for k := 0 to |found|
      invariant mentioned == Mentions(u, text, found[..k])
    {
      assert found[..k + 1] == found[..k] + [found[k]];
      MentionsSnoc(u, text, found[..k], found[k]);
      if Mentioned(u, text, found[k].1) {
        mentioned := mentioned + {found[k].1};
      }
    }
    assert found[..|found|] == found;
    if mentioned == {} {
      KeepAll(found, mentioned);
      return found;
    }
    result := Restrict(found, mentioned);
  }

  /** The loop over the patterns. */
  method Collect(u: CharTable, text: string) returns (found: Found)
    requires u.Valid()
    ensures found == Scan(u, text)
  {
    found := [];
    for r := 0 to |DETECTION_ORDER|
      invariant found == After(u, text, DETECTION_ORDER[..r])
    {
      found := CollectMatches(u, text, r, found);
      assert DETECTION_ORDER[..r + 1] == DETECTION_ORDER[..r] + [DETECTION_ORDER[r]];
    }
    assert DETECTION_ORDER[..|DETECTION_ORDER|] == DETECTION_ORDER;
  }

  /** The loop over the matches of one pattern, inserting each number where it is absent. */
  method CollectMatches(u: CharTable, text: string, r: nat, so: Found) returns (found: Found)
    requires u.Valid() && r < |DETECTION_ORDER| && so == After(u, text, DETECTION_ORDER[..r])
    ensures found == After(u, text, DETECTION_ORDER[..r] + [DETECTION_ORDER[r]])
  {
    found := so;
    var carrier := DETECTION_ORDER[r];
    var spans := FindIter(u, Pattern(carrier), text, 0);
    ghost var ws, before, hits := Words(u, text, 0), DETECTION_ORDER[..r], Hits(u, text, carrier);
    SpansAreHits(u, text, carrier);
    OrderIsDistinct(r);
    for m := 0 to |spans|
      invariant found == so + Added(u, text, carrier, hits[..m])
    {
      var number := text[spans[m].0..spans[m].1];
      TextsAt(text, spans, m);
      HitIsDetected(u, text, r, number, ws, carrier);
      PassStep(Detected(u, ws), ws, before, carrier, hits, m);
      found := SetDefault(found, number, carrier);
    }
    assert hits[..|spans|] == hits;
    PassComplete(u, text, before, carrier);
  }

  /** The closing comprehension over `found.items()`. */
  method Restrict(found: Found, mentioned: set<Carrier>) returns (result: Found)
    requires mentioned != {}
    ensures result == Keep(found, mentioned)
  {
    result := [];
    for k := 0 to |found|
      invariant result == Keep(found[..k], mentioned)
    {
      assert found[..k + 1] == found[..k] + [found[k]];
      KeepSnoc(found[..k], found[k], mentioned);
      if found[k].1 in mentioned {
        result := result + [found[k]];
      }
    }
    assert found[..|found|] == found;
  }

  // ---------------------------------------------------------------- what the scan reports

  /** `w` occurs in `text` as a maximal run of word characters. */
  ghost predicate IsWordOf(u: CharTable, text: string, w: string) {
    exists i: nat, j: nat :: IsRun(u, text, i, j) && text[i..j] == w
  }

  lemma {:induction false} FirstsValues(own: Owners, ws: seq<string>, c: Carrier, k: nat)
    requires k < |Firsts(own, ws, c)|
    ensures var w := Firsts(own, ws, c)[k].0;
            Firsts(own, ws, c)[k].1 == c && OwnedBy(own, w, c) && w in ws
    decreases |ws|
  {
    var before := ws[..|ws| - 1];
    if k < |Firsts(own, before, c)| { FirstsValues(own, before, c, k); }
  }

  /** The first place of `w` in `ws`. */
  function FirstIndex(ws: seq<string>, w: string): (i: nat)
    requires w in ws
    ensures i < |ws| && ws[i] == w && w !in ws[..i]
  {
    if ws[0] == w then 0
    else
      assert ws == [ws[0]] + ws[1..];
      var i := 1 + FirstIndex(ws[1..], w);
      assert ws[..i] == [ws[0]] + ws[1..][..i - 1];
      i
  }

  /** Entry `a` stands before entry `b`: by detection rank, then by first appearance in the text. */
  ghost predicate Precedes(ws: seq<string>, a: (string, Carrier), b: (string, Carrier)) {
    && a.0 in ws && b.0 in ws
    && (Rank(a.1) < Rank(b.1) || (a.1 == b.1 && FirstIndex(ws, a.0) < FirstIndex(ws, b.0)))
  }

  lemma {:induction false} FirstsOrdered(own: Owners, ws: seq<string>, c: Carrier, i: nat, j: nat)
    requires i < j < |Firsts(own, ws, c)|
    ensures Precedes(ws, Firsts(own, ws, c)[i], Firsts(own, ws, c)[j])
    decreases |ws|
  {
    var before, w := ws[..|ws| - 1], ws[|ws| - 1];
    var head := Firsts(own, before, c);
    assert ws == before + [w];
    FirstsValues(own, before, c, i);
    FirstIndexPrefix(before, w, head[i].0);
    if j < |head| {
      FirstsOrdered(own, before, c, i, j);
      FirstIndexPrefix(before, w, head[j].0);
    } else {
      assert FirstIndex(ws, w) == |before|;
    }
  }

  lemma FirstIndexPrefix(before: seq<string>, w: string, x: string)
    requires x in before
    ensures x in before + [w] && FirstIndex(before + [w], x) == FirstIndex(before, x)
  {
    var a, b := FirstIndex(before, x), FirstIndex(before + [w], x);
    assert forall k :: 0 <= k < |before| ==> (before + [w])[k] == before[k];
    assert forall k :: 0 <= k < b ==> (before + [w])[..b][k] == (before + [w])[k];
    assert forall k :: 0 <= k < a ==> before[..a][k] == before[k];
  }

  lemma {:induction false} RankedOrdered(own: Owners, ws: seq<string>, n: nat, i: nat, j: nat)
    requires n <= |DETECTION_ORDER| && j < |Ranked(own, ws, DETECTION_ORDER[..n])|
    ensures var found := Ranked(own, ws, DETECTION_ORDER[..n]);
            found[j].0 in ws && OwnedBy(own, found[j].0, found[j].1) && Rank(found[j].1) < n
    ensures i < j ==> Precedes(ws, Ranked(own, ws, DETECTION_ORDER[..n])[i], Ranked(own, ws, DETECTION_ORDER[..n])[j])
    decreases n
  {
    var c := DETECTION_ORDER[n - 1];
    assert DETECTION_ORDER[..n][..n - 1] == DETECTION_ORDER[..n - 1];
    var head, tail := Ranked(own, ws, DETECTION_ORDER[..n - 1]), Firsts(own, ws, c);
    assert Ranked(own, ws, DETECTION_ORDER[..n]) == head + tail;
    RankOfOrder(n - 1);
    if j < |head| {
      RankedOrdered(own, ws, n - 1, i, j);
    } else {
      FirstsValues(own, ws, c, j - |head|);
      if i < |head| {
        RankedOrdered(own, ws, n - 1, i, i);
      } else if i < j {
        FirstsOrdered(own, ws, c, i - |head|, j - |head|);
      }
    }
  }

  lemma RankedMembers(own: Owners, ws: seq<string>, w: string, c: Carrier)
    ensures (w, c) in Ranked(own, ws, DETECTION_ORDER) <==> w in ws && OwnedBy(own, w, c)
  {
    var n, found := |DETECTION_ORDER|, Ranked(own, ws, DETECTION_ORDER);
    assert DETECTION_ORDER[..n] == DETECTION_ORDER;
    if (w, c) in found {
      var k :| 0 <= k < |found| && found[k] == (w, c);
      RankedOrdered(own, ws, n, k, k);
    }
    if w in ws && OwnedBy(own, w, c) {
      assert DETECTION_ORDER[Rank(c)] == c;
      RankedKeys(own, ws, DETECTION_ORDER, w);
      var k :| 0 <= k < |found| && found[k].0 == w;
      RankedOrdered(own, ws, n, k, k);
    }
  }

  /**
   The fourteen passes refine a tokeniser: before the mention filter the scan maps exactly
   the maximal word runs that `detect_carrier` recognises, each to what it answers.
   */
  lemma ScanIsTokenised(u: CharTable, text: string, w: string, c: Carrier)
    ensures (w, c) in Scan(u, text) <==> IsWordOf(u, text, w) && DetectCarrier(u, w) == Some(c)
  {
    WordsAreRuns(u, text, 0, w);
    RankedMembers(Detected(u, Words(u, text, 0)), Words(u, text, 0), w, c);
  }

  /** The scan lists its numbers by detection rank, equal ranks by first appearance, each number once. */
  lemma {:induction false} ScanIsSorted(u: CharTable, text: string, i: nat, j: nat)
    requires i < j < |Scan(u, text)|
    ensures Precedes(Words(u, text, 0), Scan(u, text)[i], Scan(u, text)[j])
    ensures Scan(u, text)[i].0 != Scan(u, text)[j].0
  {
    var ws := Words(u, text, 0);
    assert DETECTION_ORDER[..|DETECTION_ORDER|] == DETECTION_ORDER;
    RankedOrdered(Detected(u, ws), ws, |DETECTION_ORDER|, i, i);
    RankedOrdered(Detected(u, ws), ws, |DETECTION_ORDER|, i, j);
  }

  /** Positions in `whole`, strictly increasing, that spell out `part`. */
  ghost predicate Embeds(part: Found, whole: Found, at: seq<nat>) {
    && |at| == |part|
    && (forall i :: 0 <= i < |at| ==> at[i] < |whole| && whole[at[i]] == part[i])
    && (forall i, j :: 0 <= i < j < |at| ==> at[i] < at[j])
  }

  lemma {:induction false} KeepEmbeds(found: Found, named: set<Carrier>) returns (at: seq<nat>)
    ensures Embeds(Keep(found, named), found, at)
    ensures forall k :: 0 <= k < |found| ==> (k in at <==> Kept(named, found[k]))
    decreases |found|
  {
    if found == [] {
      at := [];
    } else {
      var before, last := found[..|found| - 1], found[|found| - 1];
      at := KeepEmbeds(before, named);
      assert found == before + [last];
      KeepSnoc(before, last, named);
      if Kept(named, last) {
        var at' := at + [|found| - 1];
        assert forall k :: k in at' <==> k in at || k == |found| - 1;
        at := at';
      }
    }
  }

  lemma MentionsMember(u: CharTable, text: string, found: Found, k: nat)
    requires k < |found|
    ensures found[k].1 in Mentions(u, text, found) <==> Mentioned(u, text, found[k].1)
  {
  }

  /**
   The mention filter: the report is a subsequence of the scan, empty only if the scan was,
   and holds a scanned number exactly if no found carrier is named in the text or its own is.
   */
  lemma ReportIsFilteredScan(u: CharTable, text: string) returns (at: seq<nat>)
    ensures Embeds(Reported(u, text), Scan(u, text), at)
    ensures Reported(u, text) == [] <==> Scan(u, text) == []
    ensures forall k :: 0 <= k < |Scan(u, text)| ==>
      (k in at <==> Mentioned(u, text, Scan(u, text)[k].1) || NoneMentioned(u, text, Scan(u, text)))
  {
    at := FilterMeaning(u, text, Scan(u, text));
  }

  predicate NoneMentioned(u: CharTable, text: string, found: Found) {
    forall i :: 0 <= i < |found| ==> !Mentioned(u, text, found[i].1)
  }

  lemma FilterMeaning(u: CharTable, text: string, found: Found) returns (at: seq<nat>)
    ensures Embeds(Keep(found, Mentions(u, text, found)), found, at)
    ensures Keep(found, Mentions(u, text, found)) == [] <==> found == []
    ensures forall k :: 0 <= k < |found| ==> (k in at <==> Mentioned(u, text, found[k].1) || NoneMentioned(u, text, found))
  {
    var named := Mentions(u, text, found);
    at := KeepEmbeds(found, named);
    forall i | 0 <= i < |found| ensures found[i].1 in named <==> Mentioned(u, text, found[i].1) {
      MentionsMember(u, text, found, i);
    }
    if found != [] {
      var i: nat :| i < |found| && Kept(named, found[i]);
      assert i in at;
    }
  }

  /** The two characters are the same up to case. */
  predicate SameLetter(u: CharTable, a: char, b: char) { a == b || (a, b) in u.fold }

  predicate NamedAt(u: CharTable, text: string, name: string, i: nat) {
    && i + |name| <= |text|
    && (forall k :: 0 <= k < |name| ==> SameLetter(u, name[k], text[i + k]))
    && AtBoundary(u, text, i + |name|)
  }

  /** The name stands somewhere in the text, letter for letter up to case, as a whole word. */
  ghost predicate Says(u: CharTable, text: string, name: string) {
    exists i: nat :: NamedAt(u, text, name, i) && AtBoundary(u, text, i)
  }

  /** What a mention is. */
  lemma MentionMeaning(u: CharTable, text: string, c: Carrier)
    ensures Mentioned(u, text, c) <==> Says(u, text, Name(c))
  {
    MentionOf(u, text, Name(c));
  }

  lemma MentionOf(u: CharTable, text: string, name: string)
    ensures Search(u, Cat(Boundary, Literal(name)), text, 0).Some? <==> Says(u, text, name)
  {
    var re := Cat(Boundary, Literal(name));
    SearchFinds(u, re, text, 0);
    forall i: nat | i <= |text|
      ensures MatchesFrom(u, re, text, i) <==> NamedAt(u, text, name, i) && AtBoundary(u, text, i)
    {
      var es := Ends(u, re, text, i);
      if es != [] {
        assert es[0] in es;
        MentionAt(u, text, name, i, es[0]);
      }
      if NamedAt(u, text, name, i) && AtBoundary(u, text, i) {
        MentionAt(u, text, name, i, i + |name|);
      }
    }
  }

  predicate MatchesFrom(u: CharTable, re: Re, s: string, i: nat) {
    i <= |s| && Ends(u, re, s, i) != []
  }

  ghost predicate MatchesSomewhere(u: CharTable, re: Re, s: string, pos: nat) {
    exists i: nat :: pos <= i && MatchesFrom(u, re, s, i)
  }

  lemma SomewhereNext(u: CharTable, re: Re, s: string, pos: nat)
    ensures MatchesSomewhere(u, re, s, pos) <==> MatchesFrom(u, re, s, pos) || MatchesSomewhere(u, re, s, pos + 1)
  {
    if MatchesSomewhere(u, re, s, pos) && !MatchesFrom(u, re, s, pos) {
      var i: nat :| pos <= i && MatchesFrom(u, re, s, i);
      assert pos + 1 <= i;
    }
  }

  lemma SearchNext(u: CharTable, re: Re, s: string, pos: nat)
    ensures Search(u, re, s, pos).Some? <==> MatchesFrom(u, re, s, pos) || (pos <= |s| && Search(u, re, s, pos + 1).Some?)
  {
  }

  lemma {:induction false} SearchFinds(u: CharTable, re: Re, s: string, pos: nat)
    ensures Search(u, re, s, pos).Some? <==> MatchesSomewhere(u, re, s, pos)
    decreases |s| - pos
  {
    SearchNext(u, re, s, pos);
    if pos <= |s| {
      SearchFinds(u, re, s, pos + 1);
      SomewhereNext(u, re, s, pos);
    }
  }

  lemma {:induction false} LiteralMatch(u: CharTable, name: string, s: string, i: nat, j: nat)
    requires i <= j <= |s|
    ensures Matches(u, Literal(name), s, i, j) <==> j == i + |name| && NamedAt(u, s, name, i)
    decreases |name|
  {
    if name != "" {
      CatOne(u, Folded(name[0]), Literal(name[1..]), s, i, j);
      if i < j {
        LiteralMatch(u, name[1..], s, i + 1, j);
        if NamedAt(u, s, name[1..], i + 1) && SameLetter(u, name[0], s[i]) {
          forall k | 0 <= k < |name| ensures SameLetter(u, name[k], s[i + k]) {
            if k > 0 { assert SameLetter(u, name[1..][k - 1], s[i + 1 + (k - 1)]); }
          }
        }
        if NamedAt(u, s, name, i) {
          forall k | 0 <= k < |name[1..]| ensures SameLetter(u, name[1..][k], s[i + 1 + k]) {
            assert SameLetter(u, name[k + 1], s[i + (k + 1)]);
          }
        }
      }
    }
  }

  lemma MentionAt(u: CharTable, text: string, name: string, i: nat, j: nat)
    requires i <= j <= |text|
    ensures j in Ends(u, Cat(Boundary, Literal(name)), text, i)
       <==> j == i + |name| && NamedAt(u, text, name, i) && AtBoundary(u, text, i)
  {
    var re := Cat(Boundary, Literal(name));
    EndsIffMatches(u, re, text, i, j);
    LiteralMatch(u, name, text, i, j);
    if Matches(u, re, text, i, j) {
      var k := CatSplit(u, Boundary, Literal(name), text, i, j);
    }
    if Matches(u, Literal(name), text, i, j) && AtBoundary(u, text, i) {
      CatJoin(u, Boundary, Literal(name), text, i, i, j);
    }
  }

  // ---------------------------------------------------------------- the report in the words of the text

  /** Word `a` of `ws` comes before word `b`: by the places of their forms, then by first appearance. */
  ghost predicate ComesBefore(u: CharTable, ws: seq<string>, a: string, b: string) {
    && a in ws && b in ws && FormOf(u, a).Some? && FormOf(u, b).Some?
    && (|| FormOf(u, a).value.place < FormOf(u, b).value.place
        || (FormOf(u, a).value.place == FormOf(u, b).value.place && FirstIndex(ws, a) < FirstIndex(ws, b)))
  }

  /** No word of the text has the form of a carrier that the text names. */
  ghost predicate NoneSaid(u: CharTable, text: string) {
    forall w :: IsWordOf(u, text, w) && FormOf(u, w).Some? ==> !Says(u, text, FormOf(u, w).value.name)
  }

  /** The word has a carrier's form, and the text names that carrier, or that of no such word. */
  ghost predicate Eligible(u: CharTable, text: string, w: string) {
    IsWordOf(u, text, w) && FormOf(u, w).Some? && (Says(u, text, FormOf(u, w).value.name) || NoneSaid(u, text))
  }

  lemma WordForm(u: CharTable, text: string, w: string)
    requires u.Valid() && IsWordOf(u, text, w)
    ensures DetectCarrier(u, w) == None <==> FormOf(u, w) == None
    ensures DetectCarrier(u, w).Some? ==> FormOf(u, w) == Some(Form(Rank(DetectCarrier(u, w).value), Name(DetectCarrier(u, w).value)))
  {
    var i: nat, j: nat :| IsRun(u, text, i, j) && text[i..j] == w;
    assert forall k :: 0 <= k < |w| ==> w[k] == text[i + k];
    DetectWord(u, w);
  }

  lemma ScannedForm(u: CharTable, text: string, k: nat)
    requires u.Valid() && k < |Scan(u, text)|
    ensures var (w, c) := Scan(u, text)[k];
            && IsWordOf(u, text, w) && FormOf(u, w) == Some(Form(Rank(c), Name(c)))
            && (Mentioned(u, text, c) <==> Says(u, text, FormOf(u, w).value.name))
  {
    var (w, c) := Scan(u, text)[k];
    assert (w, c) in Scan(u, text);
    ScanIsTokenised(u, text, w, c);
    WordForm(u, text, w);
    MentionMeaning(u, text, c);
  }

  lemma FormIsScanned(u: CharTable, text: string, w: string) returns (k: nat)
    requires u.Valid() && IsWordOf(u, text, w) && FormOf(u, w).Some?
    ensures k < |Scan(u, text)| && Scan(u, text)[k].0 == w
  {
    WordForm(u, text, w);
    ScanIsTokenised(u, text, w, DetectCarrier(u, w).value);
    k :| 0 <= k < |Scan(u, text)| && Scan(u, text)[k] == (w, DetectCarrier(u, w).value);
  }

  lemma NoneIsSaid(u: CharTable, text: string)
    requires u.Valid()
    ensures NoneMentioned(u, text, Scan(u, text)) <==> NoneSaid(u, text)
  {
    var scan := Scan(u, text);
    if NoneMentioned(u, text, scan) {
      forall w | IsWordOf(u, text, w) && FormOf(u, w).Some? ensures !Says(u, text, FormOf(u, w).value.name) {
        var k := FormIsScanned(u, text, w);
        ScannedForm(u, text, k);
      }
    }
    if NoneSaid(u, text) {
      forall k | 0 <= k < |scan| ensures !Mentioned(u, text, scan[k].1) { ScannedForm(u, text, k); }
    }
  }

  lemma ScanIsInOrder(u: CharTable, text: string, i: nat, j: nat)
    requires u.Valid() && i < j < |Scan(u, text)|
    ensures ComesBefore(u, Words(u, text, 0), Scan(u, text)[i].0, Scan(u, text)[j].0)
  {
    ScanIsSorted(u, text, i, j);
    ScannedForm(u, text, i);
    ScannedForm(u, text, j);
  }

  /**
   The report without regular expressions, passes and dictionary: its numbers are the words that
   have a carrier's form and whose carrier the text names, or all words with a form if it names
   none of their carriers; each goes by the name of its form, and they stand in the order of
   their forms' places, equal ones in the order of their first appearance.
   */
  lemma {:induction false} ReportByForm(u: CharTable, text: string, report: Found)
    requires u.Valid() && report == Reported(u, text)
    ensures forall w :: HasKey(report, w) <==> Eligible(u, text, w)
    ensures forall k :: 0 <= k < |report| ==> FormOf(u, report[k].0) == Some(Form(Rank(report[k].1), Name(report[k].1)))
    ensures forall i, j :: 0 <= i < j < |report| ==> ComesBefore(u, Words(u, text, 0), report[i].0, report[j].0)
  {
    var scan := Scan(u, text);
    var at := ReportIsFilteredScan(u, text);
    NoneIsSaid(u, text);
    forall k | 0 <= k < |report| ensures FormOf(u, report[k].0) == Some(Form(Rank(report[k].1), Name(report[k].1))) && Eligible(u, text, report[k].0) {
      ScannedForm(u, text, at[k]);
      assert at[k] in at;
    }
    forall w | Eligible(u, text, w) ensures HasKey(report, w) {
      var k := FormIsScanned(u, text, w);
      ScannedForm(u, text, k);
      assert k in at;
      var i :| 0 <= i < |at| && at[i] == k;
      assert report[i].0 == w;
    }
    forall i, j | 0 <= i < j < |report| ensures ComesBefore(u, Words(u, text, 0), report[i].0, report[j].0) {
      ScanIsInOrder(u, text, at[i], at[j]);
    }
  }

  // ---------------------------------------------------------------- two texts, one after the other

  lemma WordsAcross(u: CharTable, a: string, b: string)
    requires u.Valid()
    ensures Words(u, a + "\n" + b, 0) == Words(u, a, 0) + Words(u, b, 0)
  {
    WordsSplit(u, a, '\n', b, 0);
  }

  lemma IsWordIn(u: CharTable, text: string, w: string)
    ensures IsWordOf(u, text, w) <==> w in Words(u, text, 0)
  {
    WordsAreRuns(u, text, 0, w);
  }

  lemma BoundaryAcross(u: CharTable, a: string, b: string, i: nat)
    requires u.Valid()
    ensures i <= |a| ==> (AtBoundary(u, a + "\n" + b, i) <==> AtBoundary(u, a, i))
    ensures i <= |b| ==> (AtBoundary(u, a + "\n" + b, |a| + 1 + i) <==> AtBoundary(u, b, i))
  {
    var s := a + "\n" + b;
    assert s[|a|] == '\n' && !WordAt(u, s, |a|);
    assert forall k :: k < |a| ==> (WordAt(u, s, k) <==> WordAt(u, a, k));
    assert forall k :: 0 <= k ==> (WordAt(u, s, |a| + 1 + k) <==> WordAt(u, b, k));
  }

  lemma NamedBefore(u: CharTable, a: string, b: string, name: string, i: nat)
    requires u.Valid() && i + |name| <= |a|
    ensures NamedAt(u, a + "\n" + b, name, i) && AtBoundary(u, a + "\n" + b, i) <==> NamedAt(u, a, name, i) && AtBoundary(u, a, i)
  {
    var s := a + "\n" + b;
    BoundaryAcross(u, a, b, i);
    BoundaryAcross(u, a, b, i + |name|);
    assert s[..|a|] == a && forall k :: 0 <= k < |name| ==> SameLetter(u, name[k], s[i + k]) == SameLetter(u, name[k], a[i + k]);
  }

  lemma NamedBehind(u: CharTable, a: string, b: string, name: string, i: nat)
    requires u.Valid() && i + |name| <= |b|
    ensures NamedAt(u, a + "\n" + b, name, |a| + 1 + i) && AtBoundary(u, a + "\n" + b, |a| + 1 + i) <==> NamedAt(u, b, name, i) && AtBoundary(u, b, i)
  {
    var s := a + "\n" + b;
    BoundaryAcross(u, a, b, i);
    BoundaryAcross(u, a, b, i + |name|);
    assert forall k :: 0 <= k < |name| ==> SameLetter(u, name[k], s[|a| + 1 + i + k]) == SameLetter(u, name[k], b[i + k]);
  }

  lemma NotAcross(u: CharTable, a: string, b: string, name: string, i: nat)
    requires u.Valid() && '\n' !in name && i <= |a| < i + |name|
    ensures !NamedAt(u, a + "\n" + b, name, i)
  {
    var s, k := a + "\n" + b, |a| - i;
    assert s[i + k] == '\n' && name[k] in name;
    assert i + |name| <= |s| ==> !SameLetter(u, name[k], s[i + k]);
  }

  /** A name without a new line does not reach across one either. */
  lemma SaysAcross(u: CharTable, a: string, b: string, name: string)
    requires u.Valid() && '\n' !in name && name != ""
    ensures Says(u, a + "\n" + b, name) <==> Says(u, a, name) || Says(u, b, name)
  {
    var s := a + "\n" + b;
    if Says(u, s, name) {
      var i: nat :| NamedAt(u, s, name, i) && AtBoundary(u, s, i);
      if i <= |a| < i + |name| {
        NotAcross(u, a, b, name, i);
      } else if i < |a| {
        NamedBefore(u, a, b, name, i);
      } else {
        NamedBehind(u, a, b, name, i - |a| - 1);
      }
    }
    if Says(u, a, name) {
      var i: nat :| NamedAt(u, a, name, i) && AtBoundary(u, a, i);
      NamedBefore(u, a, b, name, i);
    }
    if Says(u, b, name) {
      var i: nat :| NamedAt(u, b, name, i) && AtBoundary(u, b, i);
      NamedBehind(u, a, b, name, i);
      assert NamedAt(u, s, name, |a| + 1 + i);
    }
  }
}
