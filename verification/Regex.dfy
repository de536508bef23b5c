/**
 The fragment of Python's `re` that the repository uses: character classes, counted
 repetition, star, alternation, concatenation and `\b`, with the leftmost,
 first-alternative, greedy search of a backtracking engine.

 `Ends` is the engine: the positions at which a match starting at `i` can end, in the
 order in which backtracking finds them. `Matches` is the language: which spans belong
 to the pattern. `EndsIffMatches` says that the engine finds exactly the language.
 */
module Regex {
  import opened Prelude

  /**
   The engine's reading of `\d`, `\w` and `\s`, and of equality under IGNORECASE.
   Python uses the Unicode tables; nothing here depends on more of them than `Valid`.
   */
  datatype CharTable = CharTable(digit: set<char>, word: set<char>, space: set<char>, fold: set<(char, char)>) {

    ghost predicate Valid() {
      && digit <= word
      && space !! word && '\n' in space
      && (forall c :: '0' <= c <= '9' ==> c in digit)
      && (forall c :: 'A' <= c <= 'Z' ==> c in word && c !in digit)
      && (forall c :: c in {'.', ',', '$', '€', '£'} ==> c !in word && c !in space)
      && (forall c :: (c, '\n') !in fold)
    }
  }

  datatype Class =
    | Digit
    | Space
    | Upper
    | UpperOrDigit
    | Lit(c: char)
    | Folded(c: char)
    | AnyOf(cs: set<char>)

  datatype Re =
    | One(cls: Class)
    | Rep(of: Class, lo: nat, hi: nat)
    | Cat(a: Re, b: Re)
    | Or(left: Re, right: Re)
    | Star(body: Re)
    | Boundary

  predicate Accepts(u: CharTable, cls: Class, c: char) {
    match cls
    case Digit => c in u.digit
    case Space => c in u.space
    case Upper => 'A' <= c <= 'Z'
    case UpperOrDigit => 'A' <= c <= 'Z' || '0' <= c <= '9'
    case Lit(k) => c == k
    case Folded(k) => c == k || (k, c) in u.fold
    case AnyOf(ks) => c in ks
  }

  /** Whether position `k` of `s` holds a word character; positions outside `s` do not. */
  predicate WordAt(u: CharTable, s: string, k: int) {
    0 <= k < |s| && s[k] in u.word
  }

  predicate AtBoundary(u: CharTable, s: string, i: int) {
    WordAt(u, s, i - 1) != WordAt(u, s, i)
  }

  predicate AllAccepted(u: CharTable, cls: Class, s: string, i: nat, j: nat)
    requires i <= j <= |s|
  {
    forall k :: i <= k < j ==> Accepts(u, cls, s[k])
  }

  predicate Within(es: seq<nat>, lo: int, hi: int) {
    forall k :: 0 <= k < |es| ==> lo <= es[k] <= hi
  }

  predicate Spans(spans: seq<(nat, nat)>, lo: int, hi: int) {
    forall k :: 0 <= k < |spans| ==> lo <= spans[k].0 <= spans[k].1 <= hi
  }

  // ---------------------------------------------------------------- the engine

  /** Greedy counted repetition: one more character first, then the shorter match. */
  function RepEnds(u: CharTable, cls: Class, lo: nat, hi: nat, s: string, i: nat): (es: seq<nat>)
    requires i <= |s|
    ensures Within(es, i, |s|)
    decreases hi
  {
    var more := if hi > 0 && i < |s| && Accepts(u, cls, s[i])
                then RepEnds(u, cls, if lo > 0 then lo - 1 else 0, hi - 1, s, i + 1) else [];
    more + (if lo == 0 then [i] else [])
  }

  function Later(es: seq<nat>, i: nat, hi: nat): (r: seq<nat>)
    requires Within(es, i, hi)
    ensures Within(r, i + 1, hi)
    ensures forall e :: e in r <==> e in es && i < e
  {
    if es == [] then [] else (if i < es[0] then [es[0]] else []) + Later(es[1..], i, hi)
  }

  function Ends(u: CharTable, re: Re, s: string, i: nat): (es: seq<nat>)
    requires i <= |s|
    ensures Within(es, i, |s|)
    decreases re, |s| - i, 0
  {
    match re
    case One(cls) => if i < |s| && Accepts(u, cls, s[i]) then [i + 1] else []
    case Rep(cls, lo, hi) => RepEnds(u, cls, lo, hi, s, i)
    case Cat(a, b) => EndsFrom(u, b, s, Ends(u, a, s, i), i)
    case Or(a, b) => Ends(u, a, s, i) + Ends(u, b, s, i)
    case Star(r) => EndsFrom(u, re, s, Later(Ends(u, r, s, i), i, |s|), i + 1) + [i]
    case Boundary => if AtBoundary(u, s, i) then [i] else []
  }

  /** Continue from each of the positions `ps` in turn. */
  function EndsFrom(u: CharTable, re: Re, s: string, ps: seq<nat>, from: nat): (es: seq<nat>)
    requires Within(ps, from, |s|)
    ensures Within(es, from, |s|)
    decreases re, |s| - from, 1, |ps|
  {
    if ps == [] then [] else Ends(u, re, s, ps[0]) + EndsFrom(u, re, s, ps[1..], from)
  }

  /** `Pattern.fullmatch(s)`. */
  predicate FullMatch(u: CharTable, re: Re, s: string) {
    |s| in Ends(u, re, s, 0)
  }

  /** `Pattern.search(s, pos)`: the leftmost start, and there the engine's first end. */
  function Search(u: CharTable, re: Re, s: string, pos: nat): (r: Option<(nat, nat)>)
    ensures r.Some? ==> pos <= r.value.0 <= r.value.1 <= |s|
    decreases |s| - pos
  {
    if pos > |s| then None
    else
      var es := Ends(u, re, s, pos);
      if es != [] then Some((pos, es[0])) else Search(u, re, s, pos + 1)
  }

  /**
   `Pattern.finditer(s)` from `pos`: leftmost, non-overlapping spans. After an empty
   match the scan moves on by one character.
   */
  function FindIter(u: CharTable, re: Re, s: string, pos: nat): (spans: seq<(nat, nat)>)
    ensures Spans(spans, pos, |s|)
    decreases |s| - pos
  {
    if pos > |s| then []
    else
      var es := Ends(u, re, s, pos);
      if es == [] then FindIter(u, re, s, pos + 1)
      else [(pos, es[0])] + FindIter(u, re, s, if es[0] > pos then es[0] else pos + 1)
  }

  // ---------------------------------------------------------------- the language

  /** `s[i..j]`, read in the context of `s`, belongs to the pattern. */
  ghost predicate Matches(u: CharTable, re: Re, s: string, i: nat, j: nat)
    requires i <= j <= |s|
    decreases re, j - i
  {
    match re
    case One(cls) => j == i + 1 && Accepts(u, cls, s[i])
    case Rep(cls, lo, hi) => lo <= j - i <= hi && AllAccepted(u, cls, s, i, j)
    case Cat(a, b) => exists k :: i <= k <= j && Matches(u, a, s, i, k) && Matches(u, b, s, k, j)
    case Or(a, b) => Matches(u, a, s, i, j) || Matches(u, b, s, i, j)
    case Star(r) => i == j || exists k :: i < k <= j && Matches(u, r, s, i, k) && Matches(u, re, s, k, j)
    case Boundary => i == j && AtBoundary(u, s, i)
  }

  lemma InConcat(a: seq<nat>, b: seq<nat>, x: nat)
    ensures x in a + b <==> x in a || x in b
  {
  }

  lemma AcceptedCons(u: CharTable, cls: Class, s: string, i: nat, j: nat)
    requires i < j <= |s|
    ensures AllAccepted(u, cls, s, i, j) <==> Accepts(u, cls, s[i]) && AllAccepted(u, cls, s, i + 1, j)
  {
  }

  lemma RepStep(u: CharTable, cls: Class, lo: nat, hi: nat, s: string, i: nat, j: nat)
    requires i <= j <= |s| && hi > 0 && i < |s| && Accepts(u, cls, s[i])
    ensures j in RepEnds(u, cls, lo, hi, s, i)
       <==> (i < j && j in RepEnds(u, cls, if lo > 0 then lo - 1 else 0, hi - 1, s, i + 1)) || (lo == 0 && i == j)
  {
    var more := RepEnds(u, cls, if lo > 0 then lo - 1 else 0, hi - 1, s, i + 1);
    InConcat(more, if lo == 0 then [i] else [], j);
    assert j in more ==> i < j;
  }

  lemma RepStops(u: CharTable, cls: Class, lo: nat, hi: nat, s: string, i: nat, j: nat)
    requires i <= j <= |s| && !(hi > 0 && i < |s| && Accepts(u, cls, s[i]))
    ensures j in RepEnds(u, cls, lo, hi, s, i) <==> lo == 0 && i == j
  {
    var stop := if lo == 0 then [i] else [];
    assert RepEnds(u, cls, lo, hi, s, i) == stop;
  }

  lemma {:induction false} RepEndsIff(u: CharTable, cls: Class, lo: nat, hi: nat, s: string, i: nat, j: nat)
    requires i <= j <= |s|
    ensures j in RepEnds(u, cls, lo, hi, s, i) <==> lo <= j - i <= hi && AllAccepted(u, cls, s, i, j)
    decreases hi
  {
    if i < j { AcceptedCons(u, cls, s, i, j); }
    if hi > 0 && i < |s| && Accepts(u, cls, s[i]) {
      RepStep(u, cls, lo, hi, s, i, j);
      if i < j { RepEndsIff(u, cls, if lo > 0 then lo - 1 else 0, hi - 1, s, i + 1, j); }
    } else {
      RepStops(u, cls, lo, hi, s, i, j);
    }
  }

  /** Some continuation of a position in `ps` ends at `j`. */
  ghost predicate Continues(u: CharTable, re: Re, s: string, ps: seq<nat>, j: nat)
    requires Within(ps, 0, |s|)
  {
    exists k :: 0 <= k < |ps| && j in Ends(u, re, s, ps[k])
  }

  lemma {:induction false} EndsFromIff(u: CharTable, re: Re, s: string, ps: seq<nat>, from: nat, j: nat)
    requires Within(ps, from, |s|)
    ensures j in EndsFrom(u, re, s, ps, from) <==> Continues(u, re, s, ps, j)
    decreases |ps|
  {
    if ps != [] {
      var here, rest := Ends(u, re, s, ps[0]), EndsFrom(u, re, s, ps[1..], from);
      InConcat(here, rest, j);
      EndsFromIff(u, re, s, ps[1..], from, j);
      if Continues(u, re, s, ps[1..], j) {
        var k :| 0 <= k < |ps[1..]| && j in Ends(u, re, s, ps[1..][k]);
        assert ps[1..][k] == ps[k + 1];
      }
      if Continues(u, re, s, ps, j) && j !in here {
        var k :| 0 <= k < |ps| && j in Ends(u, re, s, ps[k]);
        assert ps[1..][k - 1] == ps[k];
      }
    }
  }

  /** The backtracking engine finds exactly the spans of the language. */
  lemma {:induction false} EndsIffMatches(u: CharTable, re: Re, s: string, i: nat, j: nat)
    requires i <= j <= |s|
    ensures j in Ends(u, re, s, i) <==> Matches(u, re, s, i, j)
    decreases re, j - i, 1
  {
    match re
    case One(_) =>
    case Boundary =>
    case Rep(cls, lo, hi) =>
      RepEndsIff(u, cls, lo, hi, s, i, j);
    case Or(a, b) =>
      EndsIffMatches(u, a, s, i, j);
      EndsIffMatches(u, b, s, i, j);
      InConcat(Ends(u, a, s, i), Ends(u, b, s, i), j);
    case Cat(a, b) =>
      CatEnds(u, a, b, s, i, j);
    case Star(r) =>
      StarEnds(u, r, s, i, j);
  }

  lemma {:induction false} CatEnds(u: CharTable, a: Re, b: Re, s: string, i: nat, j: nat)
    requires i <= j <= |s|
    ensures j in Ends(u, Cat(a, b), s, i) <==> Matches(u, Cat(a, b), s, i, j)
    decreases Cat(a, b), j - i, 0
  {
    var ps := Ends(u, a, s, i);
    EndsFromIff(u, b, s, ps, i, j);
    if Continues(u, b, s, ps, j) {
      var k :| 0 <= k < |ps| && j in Ends(u, b, s, ps[k]);
      assert ps[k] in ps && ps[k] <= j;
      EndsIffMatches(u, a, s, i, ps[k]);
      EndsIffMatches(u, b, s, ps[k], j);
      CatJoin(u, a, b, s, i, ps[k], j);
    }
    if Matches(u, Cat(a, b), s, i, j) {
      var m := CatSplit(u, a, b, s, i, j);
      EndsIffMatches(u, a, s, i, m);
      EndsIffMatches(u, b, s, m, j);
      var k :| 0 <= k < |ps| && ps[k] == m;
      assert j in Ends(u, b, s, ps[k]);
    }
  }

  lemma {:induction false} StarEnds(u: CharTable, r: Re, s: string, i: nat, j: nat)
    requires i <= j <= |s|
    ensures j in Ends(u, Star(r), s, i) <==> Matches(u, Star(r), s, i, j)
    decreases Star(r), j - i, 0
  {
    var ends := Ends(u, r, s, i);
    var ps := Later(ends, i, |s|);
    EndsFromIff(u, Star(r), s, ps, i + 1, j);
    InConcat(EndsFrom(u, Star(r), s, ps, i + 1), [i], j);
    if Continues(u, Star(r), s, ps, j) {
      var k :| 0 <= k < |ps| && j in Ends(u, Star(r), s, ps[k]);
      assert ps[k] in ps && i < ps[k] <= j;
      EndsIffMatches(u, r, s, i, ps[k]);
      EndsIffMatches(u, Star(r), s, ps[k], j);
    }
    if Matches(u, Star(r), s, i, j) && i < j {
      var m := StarSplit(u, r, s, i, j);
      EndsIffMatches(u, r, s, i, m);
      EndsIffMatches(u, Star(r), s, m, j);
      assert m in ps;
      var k :| 0 <= k < |ps| && ps[k] == m;
      assert j in Ends(u, Star(r), s, ps[k]);
    }
  }

  // ---------------------------------------------------------------- unfolding concatenations

  lemma CatJoin(u: CharTable, a: Re, b: Re, s: string, i: nat, k: nat, j: nat)
    requires i <= k <= j <= |s| && Matches(u, a, s, i, k) && Matches(u, b, s, k, j)
    ensures Matches(u, Cat(a, b), s, i, j)
  {
  }

  lemma CatSplit(u: CharTable, a: Re, b: Re, s: string, i: nat, j: nat) returns (k: nat)
    requires i <= j <= |s| && Matches(u, Cat(a, b), s, i, j)
    ensures i <= k <= j && Matches(u, a, s, i, k) && Matches(u, b, s, k, j)
  {
    k :| i <= k <= j && Matches(u, a, s, i, k) && Matches(u, b, s, k, j);
  }

  lemma StarSplit(u: CharTable, r: Re, s: string, i: nat, j: nat) returns (k: nat)
    requires i < j <= |s| && Matches(u, Star(r), s, i, j)
    ensures i < k <= j && Matches(u, r, s, i, k) && Matches(u, Star(r), s, k, j)
  {
    k :| i < k <= j && Matches(u, r, s, i, k) && Matches(u, Star(r), s, k, j);
  }

  lemma CatOne(u: CharTable, cls: Class, b: Re, s: string, i: nat, j: nat)
    requires i <= j <= |s|
    ensures Matches(u, Cat(One(cls), b), s, i, j) <==> i < j && Accepts(u, cls, s[i]) && Matches(u, b, s, i + 1, j)
  {
    if i < j && Accepts(u, cls, s[i]) && Matches(u, b, s, i + 1, j) {
      assert Matches(u, One(cls), s, i, i + 1);
    }
  }

  lemma CatRep(u: CharTable, cls: Class, n: nat, b: Re, s: string, i: nat, j: nat)
    requires i <= j <= |s|
    ensures Matches(u, Cat(Rep(cls, n, n), b), s, i, j)
       <==> i + n <= j && AllAccepted(u, cls, s, i, i + n) && Matches(u, b, s, i + n, j)
  {
    if i + n <= j && AllAccepted(u, cls, s, i, i + n) && Matches(u, b, s, i + n, j) {
      assert Matches(u, Rep(cls, n, n), s, i, i + n);
    }
  }

  // ---------------------------------------------------------------- whole-word patterns

  /** `s[i..j]` is a maximal run of word characters. */
  predicate IsRun(u: CharTable, s: string, i: nat, j: nat) {
    && i < j <= |s|
    && (forall k :: i <= k < j ==> s[k] in u.word)
    && !WordAt(u, s, i - 1)
    && !WordAt(u, s, j)
  }

  ghost predicate WordClass(u: CharTable, cls: Class) {
    forall c :: Accepts(u, cls, c) ==> c in u.word
  }

  /** Every match is a non-empty string of word characters, and no `\b` occurs inside. */
  ghost predicate WordShaped(u: CharTable, re: Re) {
    match re
    case One(cls) => WordClass(u, cls)
    case Rep(cls, lo, hi) => lo > 0 && WordClass(u, cls)
    case Cat(a, b) => WordShaped(u, a) && WordShaped(u, b)
    case Or(a, b) => WordShaped(u, a) && WordShaped(u, b)
    case Star(_) => false
    case Boundary => false
  }

  /** `\b(core)\b` */
  function Whole(core: Re): Re {
    Cat(Boundary, Cat(core, Boundary))
  }

  lemma {:induction false} WordShapedMatch(u: CharTable, re: Re, s: string, i: nat, j: nat)
    requires i <= j <= |s| && WordShaped(u, re) && Matches(u, re, s, i, j)
    ensures i < j
    ensures forall k :: i <= k < j ==> s[k] in u.word
    decreases re
  {
    match re
    case One(_) =>
    case Rep(_, _, _) =>
    case Or(a, b) =>
      if Matches(u, a, s, i, j) { WordShapedMatch(u, a, s, i, j); } else { WordShapedMatch(u, b, s, i, j); }
    case Cat(a, b) =>
      var k := CatSplit(u, a, b, s, i, j);
      WordShapedMatch(u, a, s, i, k);
      WordShapedMatch(u, b, s, k, j);
  }

  /** Without `\b`, only the matched characters matter. */
  lemma RepIsLocal(u: CharTable, cls: Class, s: string, i: nat, j: nat, t: string, d: nat)
    requires i <= j <= |s| && d + (j - i) <= |t| && s[i..j] == t[d..d + (j - i)]
    ensures AllAccepted(u, cls, s, i, j) <==> AllAccepted(u, cls, t, d, d + (j - i))
  {
    assert forall k :: i <= k < j ==> s[k] == s[i..j][k - i] == t[d + (k - i)];
    assert forall k :: d <= k < d + (j - i) ==> t[k] == s[i..j][k - d] == s[i + (k - d)];
  }

  lemma {:induction false} MatchIsLocal(u: CharTable, re: Re, s: string, i: nat, j: nat, t: string, d: nat)
    requires i <= j <= |s| && WordShaped(u, re)
    requires d + (j - i) <= |t| && s[i..j] == t[d..d + (j - i)]
    ensures Matches(u, re, s, i, j) <==> Matches(u, re, t, d, d + (j - i))
    decreases re, 1
  {
    match re
    case One(_) =>
      assert i < j ==> s[i] == s[i..j][0] == t[d];
    case Rep(cls, _, _) =>
      RepIsLocal(u, cls, s, i, j, t, d);
    case Or(a, b) =>
      MatchIsLocal(u, a, s, i, j, t, d);
      MatchIsLocal(u, b, s, i, j, t, d);
    case Cat(a, b) =>
      if Matches(u, re, s, i, j) {
        var k := CatSplit(u, a, b, s, i, j);
        CatIsLocal(u, a, b, s, i, k, j, t, d);
        CatJoin(u, a, b, t, d, d + (k - i), d + (j - i));
      }
      if Matches(u, re, t, d, d + (j - i)) {
        var h := CatSplit(u, a, b, t, d, d + (j - i));
        CatIsLocal(u, a, b, s, i, i + (h - d), j, t, d);
        CatJoin(u, a, b, s, i, i + (h - d), j);
      }
  }

  lemma {:induction false} CatIsLocal(u: CharTable, a: Re, b: Re, s: string, i: nat, k: nat, j: nat, t: string, d: nat)
    requires i <= k <= j <= |s| && WordShaped(u, a) && WordShaped(u, b)
    requires d + (j - i) <= |t| && s[i..j] == t[d..d + (j - i)]
    ensures Matches(u, a, s, i, k) && Matches(u, b, s, k, j)
       <==> Matches(u, a, t, d, d + (k - i)) && Matches(u, b, t, d + (k - i), d + (j - i))
    decreases Cat(a, b), 0
  {
    assert s[i..k] == s[i..j][..k - i] == t[d..d + (j - i)][..k - i] == t[d..d + (k - i)];
    assert s[k..j] == s[i..j][k - i..] == t[d..d + (j - i)][k - i..] == t[d + (k - i)..d + (j - i)];
    MatchIsLocal(u, a, s, i, k, t, d);
    MatchIsLocal(u, b, s, k, j, t, d + (k - i));
  }

  lemma WholeMatches(u: CharTable, core: Re, s: string, i: nat, j: nat)
    requires i <= j <= |s| && WordShaped(u, core)
    ensures Matches(u, Whole(core), s, i, j) <==> IsRun(u, s, i, j) && Matches(u, core, s, i, j)
  {
    if Matches(u, Whole(core), s, i, j) {
      var k := CatSplit(u, Boundary, Cat(core, Boundary), s, i, j);
      var h := CatSplit(u, core, Boundary, s, i, j);
      WordShapedMatch(u, core, s, i, j);
    }
    if IsRun(u, s, i, j) && Matches(u, core, s, i, j) {
      assert AtBoundary(u, s, i) && AtBoundary(u, s, j) by {
        assert WordAt(u, s, i) && WordAt(u, s, j - 1);
      }
      CatJoin(u, core, Boundary, s, i, j, j);
      CatJoin(u, Boundary, Cat(core, Boundary), s, i, i, j);
    }
  }

  /** A whole-word pattern ends a match at `j` exactly when `s[i..j]` is a maximal run that it fully matches. */
  lemma WholeEnds(u: CharTable, core: Re, s: string, i: nat, j: nat)
    requires i <= j <= |s| && WordShaped(u, core)
    ensures j in Ends(u, Whole(core), s, i) <==> IsRun(u, s, i, j) && FullMatch(u, Whole(core), s[i..j])
  {
    var w := s[i..j];
    EndsIffMatches(u, Whole(core), s, i, j);
    EndsIffMatches(u, Whole(core), w, 0, |w|);
    WholeMatches(u, core, s, i, j);
    WholeMatches(u, core, w, 0, |w|);
    assert w[0..|w|] == s[i..i + |w|];
    MatchIsLocal(u, core, w, 0, |w|, s, i);
  }

  // ---------------------------------------------------------------- the tokeniser

  /** The first position from `i` on that holds no word character. */
  function RunEnd(u: CharTable, s: string, i: nat): (e: nat)
    requires i <= |s|
    ensures i <= e <= |s| && !WordAt(u, s, e)
    ensures forall k :: i <= k < e ==> s[k] in u.word
    decreases |s| - i
  {
    if WordAt(u, s, i) then RunEnd(u, s, i + 1) else i
  }

  /** The maximal runs of word characters from `pos` on, in order. */
  function Words(u: CharTable, s: string, pos: nat): seq<string>
    decreases |s| - pos
  {
    if pos >= |s| then []
    else if !WordAt(u, s, pos) then Words(u, s, pos + 1)
    else [s[pos..RunEnd(u, s, pos)]] + Words(u, s, RunEnd(u, s, pos))
  }

  /** Two maximal runs are the same or apart. */
  lemma OneRunAt(u: CharTable, s: string, i: nat, j: nat, a: nat, b: nat)
    requires IsRun(u, s, i, j) && IsRun(u, s, a, b) && i <= a
    ensures (i == a && j == b) || j <= a
  {
    assert i < a < j ==> WordAt(u, s, a - 1);
    assert i == a && b < j ==> WordAt(u, s, b);
    assert i == a && j < b ==> WordAt(u, s, j);
  }

  /** `Words` lists exactly the maximal runs. */
  lemma {:induction false} WordsAreRuns(u: CharTable, s: string, pos: nat, w: string)
    requires pos <= |s| && !(WordAt(u, s, pos - 1) && WordAt(u, s, pos))
    ensures w in Words(u, s, pos) <==> exists i: nat, j: nat :: pos <= i && IsRun(u, s, i, j) && s[i..j] == w
    decreases |s| - pos
  {
    if pos < |s| {
      if !WordAt(u, s, pos) {
        WordsAreRuns(u, s, pos + 1, w);
      } else {
        var e := RunEnd(u, s, pos);
        assert IsRun(u, s, pos, e);
        WordsAreRuns(u, s, e, w);
        forall i: nat, j: nat | pos <= i && IsRun(u, s, i, j) ensures (i == pos && j == e) || e <= i {
          OneRunAt(u, s, pos, e, i, j);
        }
      }
    }
  }

  /** From the end of a text on, the words of a longer one are those of the rest. */
  lemma {:induction false} WordsShift(u: CharTable, a: string, b: string, pos: nat)
    requires pos <= |b|
    ensures Words(u, a + b, |a| + pos) == Words(u, b, pos)
    decreases |b| - pos
  {
    if pos < |b| {
      assert (a + b)[|a| + pos] == b[pos];
      if WordAt(u, b, pos) {
        var e := RunEnd(u, b, pos);
        RunEndShift(u, a, b, pos);
        assert (a + b)[|a| + pos..|a| + e] == b[pos..e];
        WordsShift(u, a, b, e);
      } else {
        WordsShift(u, a, b, pos + 1);
      }
    }
  }

  lemma {:induction false} RunEndShift(u: CharTable, a: string, b: string, pos: nat)
    requires pos <= |b|
    ensures RunEnd(u, a + b, |a| + pos) == |a| + RunEnd(u, b, pos)
    decreases |b| - pos
  {
    assert WordAt(u, a + b, |a| + pos) <==> WordAt(u, b, pos);
    if WordAt(u, b, pos) { RunEndShift(u, a, b, pos + 1); }
  }

  /** Behind a character that is no word character, new words begin. */
  lemma {:induction false} WordsSplit(u: CharTable, a: string, x: char, b: string, pos: nat)
    requires pos <= |a| && x !in u.word
    ensures Words(u, a + [x] + b, pos) == Words(u, a, pos) + Words(u, b, 0)
    decreases |a| - pos
  {
    var s := a + [x] + b;
    assert s[|a|] == x && forall k :: 0 <= k < |a| ==> s[k] == a[k];
    if pos == |a| {
      WordsShift(u, a + [x], b, 0);
    } else if WordAt(u, a, pos) {
      var e := RunEnd(u, a, pos);
      RunEndBefore(u, a, s, pos);
      assert s[pos..e] == a[pos..e];
      WordsSplit(u, a, x, b, e);
    } else {
      WordsSplit(u, a, x, b, pos + 1);
    }
  }

  /** A run ends where its text does, if no word character follows there. */
  lemma {:induction false} RunEndBefore(u: CharTable, a: string, s: string, pos: nat)
    requires pos <= |a| <= |s| && s[..|a|] == a && !WordAt(u, s, |a|)
    ensures RunEnd(u, s, pos) == RunEnd(u, a, pos)
    decreases |a| - pos
  {
    assert pos < |a| ==> s[pos] == s[..|a|][pos];
    if WordAt(u, a, pos) { RunEndBefore(u, a, s, pos + 1); }
  }

  function Texts(s: string, spans: seq<(nat, nat)>): seq<string>
    requires Spans(spans, 0, |s|)
  {
    if spans == [] then [] else [s[spans[0].0..spans[0].1]] + Texts(s, spans[1..])
  }

  /** The members of `ws` that are in `ok`, in order. */
  function Select(ws: seq<string>, ok: set<string>): seq<string> {
    if ws == [] then [] else (if ws[0] in ok then [ws[0]] else []) + Select(ws[1..], ok)
  }

  /** The words of `ws` that the pattern fully matches. */
  function Accepted(u: CharTable, re: Re, ws: seq<string>): set<string> {
    set w | w in ws && FullMatch(u, re, w)
  }

  /** Inside a run no whole-word pattern matches, so the scan walks on to its end. */
  lemma {:induction false} SkipRun(u: CharTable, core: Re, s: string, p: nat, e: nat)
    requires 0 < p <= e <= |s| && WordShaped(u, core)
    requires forall k :: p - 1 <= k < e ==> s[k] in u.word
    ensures FindIter(u, Whole(core), s, p) == FindIter(u, Whole(core), s, e)
    decreases e - p
  {
    if p < e {
      var es := Ends(u, Whole(core), s, p);
      if es != [] {
        assert es[0] in es;
        WholeEnds(u, core, s, p, es[0]);
        assert false by { assert WordAt(u, s, p - 1); }
      }
      SkipRun(u, core, s, p + 1, e);
    }
  }

  lemma TextsCons(s: string, span: (nat, nat), rest: seq<(nat, nat)>)
    requires Spans([span] + rest, 0, |s|)
    ensures span.0 <= span.1 <= |s| && Spans(rest, 0, |s|)
    ensures Texts(s, [span] + rest) == [s[span.0..span.1]] + Texts(s, rest)
  {
    assert ([span] + rest)[0] == span;
    assert Spans(rest, 0, |s|) by {
      forall k | 0 <= k < |rest| ensures 0 <= rest[k].0 <= rest[k].1 <= |s| {
        assert ([span] + rest)[k + 1] == rest[k];
      }
    }
    assert ([span] + rest)[1..] == rest;
  }

  /** `finditer` of a whole-word pattern yields the words that the pattern fully matches, in order. */
  lemma {:induction false} FindIterIsTokenFilter(u: CharTable, core: Re, s: string, pos: nat, ok: set<string>)
    requires pos <= |s| && WordShaped(u, core)
    requires !(WordAt(u, s, pos - 1) && WordAt(u, s, pos))
    requires forall w :: w in Words(u, s, pos) ==> (w in ok <==> FullMatch(u, Whole(core), w))
    ensures Texts(s, FindIter(u, Whole(core), s, pos)) == Select(Words(u, s, pos), ok)
    decreases |s| - pos
  {
    if pos == |s| || !WordAt(u, s, pos) {
      GapStep(u, core, s, pos);
      if pos < |s| { FindIterIsTokenFilter(u, core, s, pos + 1, ok); }
    } else {
      var e := RunEnd(u, s, pos);
      var w, ws := s[pos..e], Words(u, s, e);
      assert Words(u, s, pos) == [w] + ws;
      assert w in [w] + ws && forall v :: v in ws ==> v in [w] + ws;
      WordStep(u, core, s, pos);
      FindIterIsTokenFilter(u, core, s, e, ok);
      assert ([w] + ws)[1..] == ws;
    }
  }

  /** Between runs the scan moves on by one character, and there is nothing beyond the end. */
  lemma GapStep(u: CharTable, core: Re, s: string, pos: nat)
    requires pos <= |s| && WordShaped(u, core) && !WordAt(u, s, pos)
    ensures FindIter(u, Whole(core), s, pos) == if pos < |s| then FindIter(u, Whole(core), s, pos + 1) else []
  {
    var es := Ends(u, Whole(core), s, pos);
    if es != [] {
      assert es[0] in es;
      WholeEnds(u, core, s, pos, es[0]);
      assert false;
    }
  }

  /** At the start of a run, the scan takes the run if the pattern fully matches it, and goes on at its end. */
  lemma WordStep(u: CharTable, core: Re, s: string, pos: nat)
    requires pos < |s| && WordShaped(u, core)
    requires !WordAt(u, s, pos - 1) && WordAt(u, s, pos)
    ensures Texts(s, FindIter(u, Whole(core), s, pos))
         == (if FullMatch(u, Whole(core), s[pos..RunEnd(u, s, pos)]) then [s[pos..RunEnd(u, s, pos)]] else [])
            + Texts(s, FindIter(u, Whole(core), s, RunEnd(u, s, pos)))
  {
    var re, e := Whole(core), RunEnd(u, s, pos);
    var es := Ends(u, re, s, pos);
    assert IsRun(u, s, pos, e);
    WholeEnds(u, core, s, pos, e);
    if es == [] {
      SkipRun(u, core, s, pos + 1, e);
    } else {
      assert es[0] in es;
      WholeEnds(u, core, s, pos, es[0]);
      OneRunAt(u, s, pos, e, pos, es[0]);
      assert FindIter(u, re, s, pos) == [(pos, e)] + FindIter(u, re, s, e);
      TextsCons(s, (pos, e), FindIter(u, re, s, e));
    }
  }
}
