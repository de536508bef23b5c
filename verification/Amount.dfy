/** Amounts in free text: `importer/parsers/_extract.py` and `_parse_amount` of the ingestion service. */
module Amount {
  import opened Prelude
  import opened Regex

  const SEPARATOR := AnyOf({'.', ','})

  const THOUSANDS := Cat(One(SEPARATOR), Rep(Digit, 3, 3))

  /** `\d{1,3}(?:[.,]\d{3})*[.,]\d{2}` */
  const AMOUNT := Cat(Rep(Digit, 1, 3), Cat(Star(THOUSANDS), Cat(One(SEPARATOR), Rep(Digit, 2, 2))))

  const SPACES := Star(One(Space))

  function Code(a: char, b: char, c: char): Re { Cat(One(Lit(a)), Cat(One(Lit(b)), One(Lit(c)))) }

  /** `EUR|USD|GBP|€|\$|£` */
  const CURRENCY := Or(Code('E', 'U', 'R'), Or(Code('U', 'S', 'D'), Or(Code('G', 'B', 'P'),
                    Or(One(Lit('€')), Or(One(Lit('$')), One(Lit('£')))))))

  const CURRENCIES: set<string> := {"EUR", "USD", "GBP", "€", "$", "£"}

  /** `_CURRENCY_SYMBOLS.get(currency, currency)` */
  function Normalised(currency: string): (code: string)
    ensures currency in {"EUR", "€"} ==> code == "EUR"
    ensures currency in {"USD", "$"} ==> code == "USD"
    ensures currency in {"GBP", "£"} ==> code == "GBP"
  {
    if currency == "€" then "EUR" else if currency == "$" then "USD" else if currency == "£" then "GBP" else currency
  }

  // ---------------------------------------------------------------- the search, with its groups

  predicate IsFirst(es: seq<nat>, e: nat) { es != [] && es[0] == e }

  /** From the first of `ps` that `c` matches at: that position and the engine's first end there. */
  function Last(u: CharTable, c: Re, s: string, ps: seq<nat>): (r: Option<(nat, nat)>)
    requires Within(ps, 0, |s|)
    ensures r.Some? ==> r.value.0 <= r.value.1 <= |s| && r.value.0 in ps && IsFirst(Ends(u, c, s, r.value.0), r.value.1)
    ensures r == None ==> forall p :: p in ps && p <= |s| ==> Ends(u, c, s, p) == []
  {
    if ps == [] then None
    else
      assert ps == [ps[0]] + ps[1..];
      var es := Ends(u, c, s, ps[0]);
      if es != [] then assert es[0] in es; Some((ps[0], es[0])) else Last(u, c, s, ps[1..])
  }

  /** From the first of `ps` after which `b` and then `c` match: the ends of the three parts. */
  function Middle(u: CharTable, b: Re, c: Re, s: string, ps: seq<nat>): (r: Option<(nat, nat, nat)>)
    requires Within(ps, 0, |s|)
    ensures r.Some? ==> r.value.0 <= r.value.1 <= r.value.2 <= |s| && r.value.0 in ps
    ensures r.Some? ==> r.value.1 in Ends(u, b, s, r.value.0) && IsFirst(Ends(u, c, s, r.value.1), r.value.2)
    ensures r == None ==> forall p, q :: p in ps && p <= |s| && q in Ends(u, b, s, p) && q <= |s| ==> Ends(u, c, s, q) == []
  {
    if ps == [] then None
    else
      assert ps == [ps[0]] + ps[1..];
      assert Within(Ends(u, b, s, ps[0]), ps[0], |s|);
      var r := Last(u, c, s, Ends(u, b, s, ps[0]));
      if r.Some? then Some((ps[0], r.value.0, r.value.1)) else Middle(u, b, c, s, ps[1..])
  }

  /** The three parts of the backtracking match of `a b c` at `p`. */
  function Parts(u: CharTable, a: Re, b: Re, c: Re, s: string, p: nat): (r: Option<(nat, nat, nat)>)
    requires p <= |s|
    ensures r.Some? ==> p <= r.value.0 <= r.value.1 <= r.value.2 <= |s| && r.value.0 in Ends(u, a, s, p)
    ensures r.Some? ==> r.value.1 in Ends(u, b, s, r.value.0) && IsFirst(Ends(u, c, s, r.value.1), r.value.2)
    ensures r == None ==> forall e, q :: e in Ends(u, a, s, p) && e <= |s| && q in Ends(u, b, s, e) && q <= |s| ==> Ends(u, c, s, q) == []
  {
    assert Within(Ends(u, a, s, p), p, |s|);
    Middle(u, b, c, s, Ends(u, a, s, p))
  }

  /** The two alternatives of `_AMOUNT_PATTERN` at `p`: amount then currency, or currency then amount. */
  function AmountAt(u: CharTable, s: string, p: nat): Option<(string, string)>
    requires p <= |s|
  {
    var first := Parts(u, AMOUNT, SPACES, CURRENCY, s, p);
    if first.Some? then Some((s[p..first.value.0], s[first.value.1..first.value.2]))
    else
      var second := Parts(u, CURRENCY, SPACES, AMOUNT, s, p);
      if second.Some? then Some((s[second.value.1..second.value.2], s[p..second.value.0])) else None
  }

  function FirstSome<T>(xs: seq<Option<T>>): (r: Option<T>)
    ensures forall k :: 0 <= k < |xs| && xs[k].Some? && (forall j :: 0 <= j < k ==> xs[j] == None) ==> r == xs[k]
    ensures r == None <==> forall k :: 0 <= k < |xs| ==> xs[k] == None
  {
    if xs == [] then None
    else if xs[0].Some? then xs[0]
    else
      assert forall k :: 1 <= k < |xs| ==> xs[1..][k - 1] == xs[k];
      FirstSome(xs[1..])
  }

  /** `_AMOUNT_PATTERN.search(s)`: the match at the leftmost position that has one. */
  function SearchAmount(u: CharTable, s: string): Option<(string, string)> {
    FirstSome(seq(|s| + 1, i requires 0 <= i <= |s| => AmountAt(u, s, i)))
  }

  function ExtractAmount(u: CharTable, s: string): Option<(string, string)> {
    var r := SearchAmount(u, s);
    if r.Some? then Some((r.value.0, Normalised(r.value.1))) else None
  }

  // ---------------------------------------------------------------- float()

  /** The number `units / 10^scale`, exactly. */
  datatype Decimal = Decimal(units: nat, scale: nat)

  function NumeralValue(s: string): nat
    requires IsNumeral(s)
  {
    if s == "" then 0 else 10 * NumeralValue(s[..|s| - 1]) + (s[|s| - 1] - '0') as nat
  }

  function IndexOf(s: string, c: char): (i: nat)
    ensures i <= |s| && c !in s[..i] && (i < |s| ==> s[i] == c)
  {
    if s == "" || s[0] == c then 0
    else
      var i := 1 + IndexOf(s[1..], c);
      assert s[..i] == [s[0]] + s[1..][..i - 1];
      i
  }

  /** The number with these digits before and behind the point. */
  function FromParts(whole: string, fraction: string): Option<Decimal> {
    if IsNumeral(whole) && IsNumeral(fraction) && whole + fraction != ""
    then Some(Decimal(NumeralValue(whole + fraction), |fraction|))
    else None
  }

  /** `float(s)` on plain decimal numerals; anything else is a ValueError. */
  function ParseFloat(s: string): Option<Decimal> {
    var i := IndexOf(s, '.');
    FromParts(s[..i], if i < |s| then s[i + 1..] else "")
  }

  function Without(s: string, c: char): string {
    if s == "" then "" else Without(s[..|s| - 1], c) + (if s[|s| - 1] == c then "" else [s[|s| - 1]])
  }

  function Replaced(s: string, c: char, d: char): (r: string)
    ensures |r| == |s| && forall k :: 0 <= k < |s| ==> r[k] == if s[k] == c then d else s[k]
  {
    if s == "" then "" else Replaced(s[..|s| - 1], c, d) + [if s[|s| - 1] == c then d else s[|s| - 1]]
  }

  /** With a comma, dots are taken out and the comma becomes a dot. */
  function Plain(a: string): string {
    if ',' in a then Replaced(Without(a, '.'), ',', '.') else a
  }

  /** `_parse_amount` */
  function ParseAmount(amount: Option<string>): (r: Option<Decimal>)
    ensures r.Some? ==> amount.Some?
  {
    match amount
    case None => None
    case Some(a) => ParseFloat(Plain(a))
  }

  // ---------------------------------------------------------------- renderings of an amount

  /** The last `n` decimal digits of `m`, with leading zeros. */
  function Padded(m: nat, n: nat): (s: string)
    ensures |s| == n && IsNumeral(s)
  {
    if n == 0 then "" else Padded(m / 10, n - 1) + [DigitChar(m % 10)]
  }

  /** The numeral of `m` with `sep` between groups of three digits. */
  function Grouped(m: nat, sep: char): string {
    if m < 1000 then Numeral(m) else Grouped(m / 1000, sep) + [sep] + Padded(m, 3)
  }

  /** 1.234,56 */
  function GermanStyle(cents: nat): string { Grouped(cents / 100, '.') + "," + Padded(cents, 2) }

  /** 1,234.56 */
  function EnglishStyle(cents: nat): string { Grouped(cents / 100, ',') + "." + Padded(cents, 2) }

  /** 1234,56 */
  function UngroupedStyle(cents: nat): string { Numeral(cents / 100) + "," + Padded(cents, 2) }

  // ---------------------------------------------------------------- values of numerals

  lemma {:induction false} ValueSnoc(a: string, d: nat)
    requires IsNumeral(a) && d < 10
    ensures IsNumeral(a + [DigitChar(d)]) && NumeralValue(a + [DigitChar(d)]) == 10 * NumeralValue(a) + d
  {
    assert (a + [DigitChar(d)])[..|a|] == a;
  }

  lemma PaddedStep(a: string, m: nat, n: nat)
    requires IsNumeral(a) && n > 0
    ensures IsNumeral(a + Padded(m, n)) && IsNumeral(a + Padded(m / 10, n - 1))
    ensures NumeralValue(a + Padded(m, n)) == 10 * NumeralValue(a + Padded(m / 10, n - 1)) + m % 10
  {
    ValueSnoc(a + Padded(m / 10, n - 1), m % 10);
    assert a + Padded(m, n) == a + Padded(m / 10, n - 1) + [DigitChar(m % 10)];
  }

  lemma ValueOfPadded2(a: string, m: nat)
    requires IsNumeral(a)
    ensures IsNumeral(a + Padded(m, 2)) && NumeralValue(a + Padded(m, 2)) == 100 * NumeralValue(a) + m % 100
  {
    PaddedStep(a, m, 2);
    PaddedStep(a, m / 10, 1);
    assert a + Padded(m / 10 / 10, 0) == a;
    LastTwo(m);
  }

  lemma LastTwo(m: nat)
    ensures 10 * (m / 10 % 10) + m % 10 == m % 100
  {
  }

  lemma LastThree(m: nat)
    ensures 10 * (m / 10 % 100) + m % 10 == m % 1000
  {
  }

  lemma ValueOfPadded3(a: string, m: nat)
    requires IsNumeral(a)
    ensures IsNumeral(a + Padded(m, 3)) && NumeralValue(a + Padded(m, 3)) == 1000 * NumeralValue(a) + m % 1000
  {
    PaddedStep(a, m, 3);
    ValueOfPadded2(a, m / 10);
    LastThree(m);
  }

  lemma {:induction false} ValueOfNumeral(m: nat)
    ensures NumeralValue(Numeral(m)) == m
  {
    if m < 10 {
      ValueSnoc("", m);
      assert "" + [DigitChar(m)] == [DigitChar(m)];
    } else {
      ValueOfNumeral(m / 10);
      ValueSnoc(Numeral(m / 10), m % 10);
    }
  }

  // ---------------------------------------------------------------- what the renderings parse to

  lemma {:induction false} WithoutConcat(a: string, b: string, c: char)
    ensures Without(a + b, c) == Without(a, c) + Without(b, c)
    decreases |b|
  {
    if b == "" {
      assert a + b == a;
    } else {
      WithoutConcat(a, b[..|b| - 1], c);
      assert (a + b)[..|a + b| - 1] == a + b[..|b| - 1];
    }
  }

  lemma {:induction false} WithoutNone(a: string, c: char)
    requires c !in a
    ensures Without(a, c) == a
  {
    if a != "" { WithoutNone(a[..|a| - 1], c); }
  }

  /** Without its group separators, a grouped numeral is the plain digits of the number. */
  lemma {:induction false} UngroupedValue(m: nat, sep: char)
    requires sep in {'.', ','}
    ensures IsNumeral(Without(Grouped(m, sep), sep)) && Without(Grouped(m, sep), sep) != ""
    ensures NumeralValue(Without(Grouped(m, sep), sep)) == m
  {
    if m < 1000 {
      WithoutNone(Numeral(m), sep);
      ValueOfNumeral(m);
    } else {
      var head := Grouped(m / 1000, sep);
      UngroupedValue(m / 1000, sep);
      WithoutConcat(head + [sep], Padded(m, 3), sep);
      WithoutConcat(head, [sep], sep);
      WithoutNone(Padded(m, 3), sep);
      assert Without([sep], sep) == "" by { assert [sep][..0] == ""; }
      assert Without(head, sep) + "" == Without(head, sep);
      ValueOfPadded3(Without(head, sep), m);
    }
  }

  lemma ParseAt(whole: string, fraction: string)
    requires IsNumeral(whole) && IsNumeral(fraction) && fraction != ""
    ensures ParseFloat(whole + "." + fraction) == Some(Decimal(NumeralValue(whole + fraction), |fraction|))
  {
    var s := whole + "." + fraction;
    var i := IndexOf(s, '.');
    assert s[|whole|] == '.';
    assert forall k :: 0 <= k < |whole| ==> s[k] == whole[k];
    assert forall k :: 0 <= k < i ==> s[..i][k] == s[k];
    assert i == |whole|;
    assert s[..i] == whole && s[i + 1..] == fraction;
  }

  lemma WithoutDots(whole: string, fraction: string)
    requires IsNumeral(fraction)
    ensures Without(whole + "," + fraction, '.') == Without(whole, '.') + "," + fraction
  {
    WithoutConcat(whole + ",", fraction, '.');
    WithoutConcat(whole, ",", '.');
    WithoutNone(fraction, '.');
    WithoutNone(",", '.');
  }

  /** Digits that have lost their dots, with a comma before more digits, are read as one decimal. */
  lemma ParseCommaText(whole: string, fraction: string, a: string)
    requires IsNumeral(Without(whole, '.')) && IsNumeral(fraction) && fraction != "" && a == whole + "," + fraction
    ensures ParseAmount(Some(a)) == Some(Decimal(NumeralValue(Without(whole, '.') + fraction), |fraction|))
  {
    assert ParseAmount(Some(a)) == ParseFloat(Without(whole, '.') + "." + fraction) by {
      assert a[|whole|] == ',';
      WithoutDots(whole, fraction);
      CommaToDot(Without(whole, '.'), fraction);
    }
    ParseAt(Without(whole, '.'), fraction);
  }

  lemma CommaToDot(whole: string, fraction: string)
    requires IsNumeral(whole) && IsNumeral(fraction)
    ensures Replaced(whole + "," + fraction, ',', '.') == whole + "." + fraction
  {
    var s, t := whole + "," + fraction, whole + "." + fraction;
    var r := Replaced(s, ',', '.');
    forall k | 0 <= k < |s| ensures r[k] == t[k] {
      if k < |whole| {
        assert s[k] == whole[k] == t[k];
      } else if k > |whole| {
        assert s[k] == fraction[k - |whole| - 1] == t[k];
      }
    }
  }

  /** In a grouped numeral every separator is followed by at least three more characters. */
  lemma {:induction false} SeparatorsOf(m: nat, sep: char, k: nat)
    requires sep in {'.', ','} && k < |Grouped(m, sep)|
    ensures '0' <= Grouped(m, sep)[k] <= '9' || (Grouped(m, sep)[k] == sep && k + 4 <= |Grouped(m, sep)|)
    ensures m >= 1000 ==> sep in Grouped(m, sep)
  {
    if m >= 1000 {
      var head := Grouped(m / 1000, sep);
      assert Grouped(m, sep)[|head|] == sep;
      if k < |head| { SeparatorsOf(m / 1000, sep, k); }
    }
  }

  lemma {:induction false} DotsFromCommas(a: string)
    requires '.' !in a
    ensures Without(Replaced(a, ',', '.'), '.') == Without(a, ',')
  {
    if a != "" { DotsFromCommas(a[..|a| - 1]); }
  }

  lemma WithoutMiddle(a: string, c: char, b: string)
    ensures Without(a + [c] + b, c) == Without(a, c) + Without(b, c)
  {
    assert (a + [c])[..|a|] == a;
    assert Without(a + [c], c) == Without(a, c) + "" == Without(a, c);
    WithoutConcat(a + [c], b, c);
  }

  /** Where `float` accepts a text with a dot, it reads the digits without the dot. */
  lemma ParsedUnits(s: string)
    requires ParseFloat(s).Some? && '.' in s
    ensures IsNumeral(Without(s, '.')) && ParseFloat(s).value.units == NumeralValue(Without(s, '.'))
    ensures ParseFloat(s).value.scale == |s| - 1 - IndexOf(s, '.')
  {
    var i := IndexOf(s, '.');
    assert i < |s| by { assert s[..|s|] == s; }
    FromNumerals(s[..i], s[i + 1..]);
    SplitAtDot(s, i);
  }

  lemma NumeralHasNoDot(s: string)
    requires IsNumeral(s)
    ensures '.' !in s
  {
  }

  lemma NumeralConcat(a: string, b: string)
    requires IsNumeral(a) && IsNumeral(b)
    ensures IsNumeral(a + b)
  {
  }

  lemma FromNumerals(whole: string, fraction: string)
    requires FromParts(whole, fraction).Some?
    ensures '.' !in fraction && IsNumeral(whole + fraction)
    ensures FromParts(whole, fraction) == Some(Decimal(NumeralValue(whole + fraction), |fraction|))
  {
    NumeralHasNoDot(fraction);
    NumeralConcat(whole, fraction);
  }

  lemma SplitAtDot(s: string, i: nat)
    requires i < |s| && s[i] == '.' && '.' !in s[..i] && '.' !in s[i + 1..]
    ensures Without(s, '.') == s[..i] + s[i + 1..]
  {
    assert s == s[..i] + ['.'] + s[i + 1..];
    WithoutMiddle(s[..i], '.', s[i + 1..]);
    WithoutNone(s[..i], '.');
    WithoutNone(s[i + 1..], '.');
  }

  lemma SmallEnglish(cents: nat)
    requires cents < 100_000
    ensures ParseAmount(Some(EnglishStyle(cents))) == Some(Decimal(cents, 2))
  {
    var whole, p := Numeral(cents / 100), Padded(cents, 2);
    assert EnglishStyle(cents) == whole + "." + p;
    assert ',' !in EnglishStyle(cents);
    assert NumeralValue(whole + p) == cents by {
      ValueOfNumeral(cents / 100);
      ValueOfPadded2(whole, cents);
    }
    ParseAt(whole, p);
  }

  lemma LargeEnglish(cents: nat)
    requires cents >= 100_000
    ensures ParseAmount(Some(EnglishStyle(cents))).Some? ==> ParseAmount(Some(EnglishStyle(cents))).value.units == cents
    ensures ParseAmount(Some(EnglishStyle(cents))).Some? ==> ParseAmount(Some(EnglishStyle(cents))).value.scale >= 5
  {
    var g, p := Grouped(cents / 100, ','), Padded(cents, 2);
    var r := Replaced(g + p, ',', '.');
    EnglishAsFloat(cents);
    SeparatorsOf(cents / 100, ',', 0);
    var c :| 0 <= c < |g| && g[c] == ',';
    SeparatorsOf(cents / 100, ',', c);
    assert (g + p)[c] == ',' && r[c] == '.';
    if ParseFloat(r).Some? {
      ParsedUnits(r);
      FirstIndex(r, '.', c);
      EnglishDigits(cents);
    }
  }

  lemma FirstIndex(s: string, c: char, k: nat)
    requires k < |s| && s[k] == c
    ensures IndexOf(s, c) <= k
  {
    var i := IndexOf(s, c);
    assert forall j :: 0 <= j < i ==> s[..i][j] == s[j];
  }

  lemma NoDotInGroups(m: nat)
    ensures '.' !in Grouped(m, ',')
  {
    var g := Grouped(m, ',');
    forall k | 0 <= k < |g| ensures g[k] != '.' { SeparatorsOf(m, ',', k); }
  }

  lemma EnglishPlain(cents: nat, a: string, g: string, p: string)
    requires cents >= 100_000 && g == Grouped(cents / 100, ',') && p == Padded(cents, 2) && a == g + "." + p
    ensures Plain(a) == Replaced(g + p, ',', '.')
  {
    SeparatorsOf(cents / 100, ',', 0);
    var c :| 0 <= c < |g| && g[c] == ',';
    assert a[c] == ',';
    NoDotInGroups(cents / 100);
    WithoutMiddle(g, '.', p);
    WithoutNone(g, '.');
    WithoutNone(p, '.');
  }

  lemma EnglishAsFloat(cents: nat)
    requires cents >= 100_000
    ensures ParseAmount(Some(EnglishStyle(cents))) == ParseFloat(Replaced(Grouped(cents / 100, ',') + Padded(cents, 2), ',', '.'))
  {
    EnglishPlain(cents, EnglishStyle(cents), Grouped(cents / 100, ','), Padded(cents, 2));
  }

  lemma EnglishDigits(cents: nat)
    ensures var r := Replaced(Grouped(cents / 100, ',') + Padded(cents, 2), ',', '.');
            IsNumeral(Without(r, '.')) && NumeralValue(Without(r, '.')) == cents
  {
    var g, p := Grouped(cents / 100, ','), Padded(cents, 2);
    NoDotInGroups(cents / 100);
    DotsFromCommas(g + p);
    WithoutConcat(g, p, ',');
    WithoutNone(p, ',');
    UngroupedValue(cents / 100, ',');
    ValueOfPadded2(Without(g, ','), cents);
  }

  // ---------------------------------------------------------------- which texts are amounts

  function Count(s: string, c: char): nat {
    if s == "" then 0 else Count(s[..|s| - 1], c) + (if s[|s| - 1] == c then 1 else 0)
  }

  predicate IsDigit(c: char) { '0' <= c <= '9' }

  /** Digits and dots, of both at least one digit and at most one dot. */
  predicate FloatText(s: string) {
    && (forall k :: 0 <= k < |s| ==> IsDigit(s[k]) || s[k] == '.')
    && (exists k :: 0 <= k < |s| && IsDigit(s[k]))
    && Count(s, '.') <= 1
  }

  /** Digits, dots and commas with at least one digit: with a comma there is only one, without one there is at most one dot. */
  predicate AmountText(s: string) {
    && (forall k :: 0 <= k < |s| ==> IsDigit(s[k]) || s[k] == '.' || s[k] == ',')
    && (exists k :: 0 <= k < |s| && IsDigit(s[k]))
    && (Count(s, ',') == 1 || (Count(s, ',') == 0 && Count(s, '.') <= 1))
  }

  lemma {:induction false} CountZero(s: string, c: char)
    ensures Count(s, c) == 0 <==> c !in s
    decreases |s|
  {
    if s != "" {
      CountZero(s[..|s| - 1], c);
      Snoc(s);
    }
  }

  lemma {:induction false} CountConcat(a: string, b: string, c: char)
    ensures Count(a + b, c) == Count(a, c) + Count(b, c)
    decreases |b|
  {
    if b == "" {
      assert a + b == a;
    } else {
      CountConcat(a, b[..|b| - 1], c);
      assert (a + b)[..|a + b| - 1] == a + b[..|b| - 1];
    }
  }

  lemma {:induction false} CountWithout(s: string, c: char, d: char)
    requires c != d
    ensures Count(Without(s, d), c) == Count(s, c)
    decreases |s|
  {
    if s != "" {
      var rest, last := Without(s[..|s| - 1], d), s[|s| - 1];
      CountWithout(s[..|s| - 1], c, d);
      CountConcat(rest, [last], c);
      assert rest + "" == rest && [last][..0] == "";
    }
  }

  lemma {:induction false} CountReplaced(s: string, c: char, d: char)
    requires d !in s
    ensures Count(Replaced(s, c, d), d) == Count(s, c)
    decreases |s|
  {
    if s != "" {
      var before, last := s[..|s| - 1], s[|s| - 1];
      CountReplaced(before, c, d);
      CountConcat(Replaced(before, c, d), [if last == c then d else last], d);
    }
  }

  lemma {:induction false} WithoutElements(s: string, c: char, x: char)
    ensures x in Without(s, c) <==> x in s && x != c
    decreases |s|
  {
    if s != "" {
      WithoutElements(s[..|s| - 1], c, x);
      Snoc(s);
    }
  }

  lemma DotSplits(s: string, head: string, tail: string)
    requires s == head + "." + tail && '.' !in head
    ensures Count(s, '.') == 1 + Count(tail, '.')
    ensures forall x :: x in s <==> x in head || x == '.' || x in tail
  {
    CountConcat(head + ".", tail, '.');
    CountConcat(head, ".", '.');
    CountZero(head, '.');
    assert Count(".", '.') == 1 by { assert "."[..0] == ""; }
    InThree(head, ".", tail);
  }

  lemma InThree(a: string, b: string, c: string)
    ensures forall x :: x in a + b + c <==> x in a || x in b || x in c
  {
  }

  /** `float` reads digits with at most one dot among them, and nothing else. */
  lemma FloatIff(s: string)
    ensures ParseFloat(s).Some? <==> FloatText(s)
  {
    var i := IndexOf(s, '.');
    if i < |s| {
      assert s == s[..i] + "." + s[i + 1..];
      DotSplits(s, s[..i], s[i + 1..]);
      CountZero(s[i + 1..], '.');
      FloatParts(s, s[..i], s[i + 1..]);
    } else {
      assert s[..i] == s;
      CountZero(s, '.');
      FloatParts(s, s, "");
    }
  }

  lemma FloatParts(s: string, head: string, tail: string)
    requires forall x :: x in s <==> x in head || (x == '.' && '.' in s) || x in tail
    requires '.' !in head && (Count(s, '.') <= 1 <==> '.' !in tail)
    ensures FromParts(head, tail).Some? <==> FloatText(s)
  {
    if FromParts(head, tail).Some? {
      NumeralHasNoDot(tail);
      forall k | 0 <= k < |s| ensures IsDigit(s[k]) || s[k] == '.' { assert s[k] in s; }
      var x := (head + tail)[0];
      assert x in head || x in tail;
      assert x in s;
    }
    if FloatText(s) {
      forall k | 0 <= k < |head| ensures '0' <= head[k] <= '9' { assert head[k] in head && head[k] in s; }
      forall k | 0 <= k < |tail| ensures '0' <= tail[k] <= '9' { assert tail[k] in tail && tail[k] in s; }
      var k :| 0 <= k < |s| && IsDigit(s[k]);
      assert s[k] in s;
    }
  }

  lemma PlainText(a: string)
    ensures FloatText(Plain(a)) <==> AmountText(a)
  {
    CountZero(a, ',');
    if ',' in a {
      var b := Without(a, '.');
      var r := Replaced(b, ',', '.');
      WithoutElements(a, '.', '.');
      CountWithout(a, ',', '.');
      CountReplaced(b, ',', '.');
      forall x ensures x in b <==> x in a && x != '.' { WithoutElements(a, '.', x); }
      SameKinds(a, b, r);
    }
  }

  lemma SameKinds(a: string, b: string, r: string)
    requires forall x :: x in b <==> x in a && x != '.'
    requires |r| == |b| && forall k :: 0 <= k < |b| ==> r[k] == if b[k] == ',' then '.' else b[k]
    ensures (forall k :: 0 <= k < |r| ==> IsDigit(r[k]) || r[k] == '.') <==> (forall k :: 0 <= k < |a| ==> IsDigit(a[k]) || a[k] == '.' || a[k] == ',')
    ensures (exists k :: 0 <= k < |r| && IsDigit(r[k])) <==> (exists k :: 0 <= k < |a| && IsDigit(a[k]))
  {
    forall k | 0 <= k < |a| && a[k] != '.' ensures exists j :: 0 <= j < |b| && b[j] == a[k] { assert a[k] in b; }
    forall k | 0 <= k < |b| ensures b[k] != '.' && exists j :: 0 <= j < |a| && a[j] == b[k] { assert b[k] in a; }
  }

  /** The number that is left of the text without its dots and commas. */
  predicate ReadsDigits(a: string, units: nat) {
    var digits := Without(Without(a, '.'), ',');
    IsNumeral(digits) && units == NumeralValue(digits)
  }

  lemma WholeUnits(a: string)
    requires ParseFloat(a).Some? && '.' !in a
    ensures IsNumeral(Without(a, '.')) && ParseFloat(a).value.units == NumeralValue(Without(a, '.'))
  {
    WithoutNone(a, '.');
    assert IndexOf(a, '.') == |a| && a[..|a|] == a && a + "" == a;
  }

  lemma ParsedDigits(a: string)
    requires ParseAmount(Some(a)).Some?
    ensures ReadsDigits(a, ParseAmount(Some(a)).value.units)
  {
    var b := Without(a, '.');
    if ',' in a {
      WithoutElements(a, '.', ',');
      WithoutElements(a, '.', '.');
      var k :| 0 <= k < |b| && b[k] == ',';
      assert Replaced(b, ',', '.')[k] == '.';
      ParsedUnits(Plain(a));
      DotsFromCommas(b);
    } else {
      WithoutElements(a, '.', ',');
      WithoutNone(b, ',');
      if '.' in a { ParsedUnits(a); } else { WholeUnits(a); }
    }
  }

  /** Exactly the texts of that kind are read as amounts; the number has all their digits, dots and comma left out. */
  lemma ParsedIff(a: string)
    ensures ParseAmount(Some(a)).Some? <==> AmountText(a)
    ensures ParseAmount(Some(a)).Some? ==> ReadsDigits(a, ParseAmount(Some(a)).value.units)
  {
    FloatIff(Plain(a));
    PlainText(a);
    if ParseAmount(Some(a)).Some? { ParsedDigits(a); }
  }

  // ---------------------------------------------------------------- finding a rendering in text

  lemma CodeMatch(u: CharTable, a: char, b: char, c: char, s: string, i: nat, j: nat)
    requires i <= j <= |s|
    ensures Matches(u, Code(a, b, c), s, i, j) <==> s[i..j] == [a, b, c]
  {
    CatOne(u, Lit(a), Cat(One(Lit(b)), One(Lit(c))), s, i, j);
    if i < j { CatOne(u, Lit(b), One(Lit(c)), s, i + 1, j); }
  }

  lemma SymbolMatch(u: CharTable, a: char, s: string, i: nat, j: nat)
    requires i <= j <= |s|
    ensures Matches(u, One(Lit(a)), s, i, j) <==> s[i..j] == [a]
  {
  }

  lemma EitherMatch(u: CharTable, a: Re, b: Re, s: string, i: nat, j: nat)
    requires i <= j <= |s|
    ensures Matches(u, Or(a, b), s, i, j) <==> Matches(u, a, s, i, j) || Matches(u, b, s, i, j)
  {
  }

  /** The currency pattern accepts exactly the six currency tokens. */
  lemma CurrencyMatch(u: CharTable, s: string, i: nat, j: nat)
    requires i <= j <= |s|
    ensures Matches(u, CURRENCY, s, i, j) <==> s[i..j] in CURRENCIES
  {
    var symbols := Or(One(Lit('€')), Or(One(Lit('$')), One(Lit('£'))));
    CodeMatch(u, 'E', 'U', 'R', s, i, j);
    CodeMatch(u, 'U', 'S', 'D', s, i, j);
    CodeMatch(u, 'G', 'B', 'P', s, i, j);
    SymbolMatch(u, '€', s, i, j);
    SymbolMatch(u, '$', s, i, j);
    SymbolMatch(u, '£', s, i, j);
    EitherMatch(u, One(Lit('$')), One(Lit('£')), s, i, j);
    EitherMatch(u, One(Lit('€')), Or(One(Lit('$')), One(Lit('£'))), s, i, j);
    EitherMatch(u, Code('G', 'B', 'P'), symbols, s, i, j);
    EitherMatch(u, Code('U', 'S', 'D'), Or(Code('G', 'B', 'P'), symbols), s, i, j);
    EitherMatch(u, Code('E', 'U', 'R'), Or(Code('U', 'S', 'D'), Or(Code('G', 'B', 'P'), symbols)), s, i, j);
  }

  lemma {:induction false} SpacesMatch(u: CharTable, s: string, i: nat, j: nat)
    requires i <= j <= |s|
    ensures Matches(u, SPACES, s, i, j) <==> AllAccepted(u, Space, s, i, j)
    decreases j - i
  {
    if i < j {
      SpacesMatch(u, s, i + 1, j);
      if AllAccepted(u, Space, s, i, j) {
        assert Matches(u, One(Space), s, i, i + 1);
      }
      if Matches(u, SPACES, s, i, j) {
        var k := StarSplit(u, One(Space), s, i, j);
      }
    }
  }

  predicate AmountChar(u: CharTable, c: char) { c in u.digit || c == '.' || c == ',' }

  /** An amount is made of digits and separators, and its first separator stands after one to three digits. */
  lemma AmountShape(u: CharTable, s: string, i: nat, j: nat) returns (d: nat)
    requires i <= j <= |s| && Matches(u, AMOUNT, s, i, j)
    ensures 1 <= d - i <= 3 && d < j && AllAccepted(u, Digit, s, i, d) && s[d] in {'.', ','}
    ensures forall k :: i <= k < j ==> AmountChar(u, s[k])
  {
    var tail := Cat(One(SEPARATOR), Rep(Digit, 2, 2));
    d := CatSplit(u, Rep(Digit, 1, 3), Cat(Star(THOUSANDS), tail), s, i, j);
    var e := CatSplit(u, Star(THOUSANDS), tail, s, d, j);
    GroupsShape(u, s, d, e);
    CatOne(u, SEPARATOR, Rep(Digit, 2, 2), s, e, j);
    assert forall k :: i <= k < d ==> Accepts(u, Digit, s[k]);
    assert forall k :: e + 1 <= k < j ==> Accepts(u, Digit, s[k]);
  }

  lemma {:induction false} GroupsShape(u: CharTable, s: string, i: nat, j: nat)
    requires i <= j <= |s| && Matches(u, Star(THOUSANDS), s, i, j)
    ensures i < j ==> s[i] in {'.', ','}
    ensures forall k :: i <= k < j ==> AmountChar(u, s[k])
    decreases j - i
  {
    if i < j {
      var k := StarSplit(u, THOUSANDS, s, i, j);
      CatOne(u, SEPARATOR, Rep(Digit, 3, 3), s, i, k);
      assert forall h :: i + 1 <= h < k ==> Accepts(u, Digit, s[h]);
      GroupsShape(u, s, k, j);
    }
  }

  /** `s` holds an amount at `p..q`, white space at `q..r` and a currency at `r..t`. */
  ghost predicate Priced(u: CharTable, s: string, p: nat, q: nat, r: nat, t: nat) {
    && p <= q <= r <= t <= |s|
    && Matches(u, AMOUNT, s, p, q)
    && AllAccepted(u, Space, s, q, r)
    && s[r..t] in CURRENCIES
  }

  predicate CurrencyHead(c: char) { c in {'E', 'U', 'G', '€', '$', '£'} }

  lemma HeadOfCurrency(s: string, r: nat, t: nat)
    requires r <= t <= |s| && s[r..t] in CURRENCIES
    ensures r < t && CurrencyHead(s[r])
  {
    var c := s[r..t];
    assert c != "" && c[0] == s[r];
  }

  lemma KindsOfChar(u: CharTable, c: char)
    requires u.Valid()
    ensures AmountChar(u, c) ==> !CurrencyHead(c) && c !in u.space
    ensures CurrencyHead(c) ==> c !in u.space
  {
    assert 'A' <= 'E' <= 'Z' && 'A' <= 'U' <= 'Z' && 'A' <= 'G' <= 'Z';
  }

  /** A currency has one extent. */
  lemma OneCurrency(s: string, r: nat, t: nat, t': nat)
    requires r <= t <= |s| && r <= t' <= |s| && s[r..t] in CURRENCIES && s[r..t'] in CURRENCIES
    ensures t == t'
  {
    var a, b := s[r..t], s[r..t'];
    assert a[0] == s[r] == b[0];
  }

  lemma PriceFacts(u: CharTable, s: string, p: nat, q: nat, r: nat, t: nat) returns (d: nat)
    requires u.Valid() && Priced(u, s, p, q, r, t)
    ensures 1 <= d - p <= 3 && d < q && AllAccepted(u, Digit, s, p, d) && s[d] in {'.', ','} && s[p] in u.digit
    ensures forall k :: p <= k < q ==> AmountChar(u, s[k])
    ensures forall k :: q <= k < r ==> s[k] in u.space
    ensures r < t && CurrencyHead(s[r]) && s[r] !in u.space && !AmountChar(u, s[q])
  {
    d := AmountShape(u, s, p, q);
    assert Accepts(u, Digit, s[p]);
    assert forall k :: q <= k < r ==> Accepts(u, Space, s[k]);
    HeadOfCurrency(s, r, t);
    KindsOfChar(u, s[r]);
    KindsOfChar(u, s[q]);
  }

  /** From `p`, the amount, the white space and the currency have only one extent each. */
  lemma OnePrice(u: CharTable, s: string, p: nat, q: nat, r: nat, t: nat, q': nat, r': nat, t': nat)
    requires u.Valid() && Priced(u, s, p, q, r, t) && Priced(u, s, p, q', r', t')
    ensures q == q' && r == r' && t == t'
  {
    var d := PriceFacts(u, s, p, q, r, t);
    var d' := PriceFacts(u, s, p, q', r', t');
    OneCurrency(s, r, t, t');
  }

  lemma PriceEnds(u: CharTable, s: string, p: nat, q: nat, r: nat, t: nat)
    requires p <= q <= r <= t <= |s|
    ensures Priced(u, s, p, q, r, t)
       <==> q in Ends(u, AMOUNT, s, p) && r in Ends(u, SPACES, s, q) && t in Ends(u, CURRENCY, s, r)
  {
    EndsIffMatches(u, AMOUNT, s, p, q);
    EndsIffMatches(u, SPACES, s, q, r);
    EndsIffMatches(u, CURRENCY, s, r, t);
    SpacesMatch(u, s, q, r);
    CurrencyMatch(u, s, r, t);
  }

  /** Where the text holds an amount followed by a currency, the pattern yields these two. */
  lemma AmountFound(u: CharTable, s: string, p: nat, q: nat, r: nat, t: nat)
    requires u.Valid() && Priced(u, s, p, q, r, t)
    ensures AmountAt(u, s, p) == Some((s[p..q], s[r..t]))
  {
    PriceEnds(u, s, p, q, r, t);
    var first := Parts(u, AMOUNT, SPACES, CURRENCY, s, p);
    assert first.Some?;
    PriceEnds(u, s, p, first.value.0, first.value.1, first.value.2);
    OnePrice(u, s, p, q, r, t, first.value.0, first.value.1, first.value.2);
  }

  /** Position `p` holds no digit and no currency begins there. */
  ghost predicate NoPriceAt(u: CharTable, s: string, p: nat)
    requires p <= |s|
  {
    && (p < |s| ==> s[p] !in u.digit)
    && (forall t :: p <= t <= |s| ==> s[p..t] !in CURRENCIES)
  }

  /** Where neither a digit nor a currency stands, nothing matches. */
  lemma NothingAt(u: CharTable, s: string, p: nat)
    requires u.Valid() && p <= |s| && NoPriceAt(u, s, p)
    ensures AmountAt(u, s, p) == None
  {
    var first := Parts(u, AMOUNT, SPACES, CURRENCY, s, p);
    if first.Some? {
      PriceEnds(u, s, p, first.value.0, first.value.1, first.value.2);
      var d := PriceFacts(u, s, p, first.value.0, first.value.1, first.value.2);
    }
    NoCurrencyFirst(u, s, p);
  }

  lemma NoCurrencyFirst(u: CharTable, s: string, p: nat)
    requires p <= |s| && forall t :: p <= t <= |s| ==> s[p..t] !in CURRENCIES
    ensures Parts(u, CURRENCY, SPACES, AMOUNT, s, p) == None
  {
    var second := Parts(u, CURRENCY, SPACES, AMOUNT, s, p);
    if second.Some? {
      EndsIffMatches(u, CURRENCY, s, p, second.value.0);
      CurrencyMatch(u, s, p, second.value.0);
    }
  }

  /** Digits more than three places before the first separator begin no amount. */
  lemma NothingFar(u: CharTable, s: string, p: nat, d: nat)
    requires u.Valid() && p + 3 < d <= |s| && AllAccepted(u, Digit, s, p, d)
    ensures AmountAt(u, s, p) == None
  {
    forall k | p <= k < d ensures s[k] != '.' && s[k] != ',' {
      assert Accepts(u, Digit, s[k]) && '.' !in u.word && ',' !in u.word;
    }
    var first := Parts(u, AMOUNT, SPACES, CURRENCY, s, p);
    if first.Some? {
      PriceEnds(u, s, p, first.value.0, first.value.1, first.value.2);
      var e := PriceFacts(u, s, p, first.value.0, first.value.1, first.value.2);
      assert false;
    }
    assert Accepts(u, Digit, s[p]);
    KindsOfChar(u, s[p]);
    forall t | p <= t <= |s| ensures s[p..t] !in CURRENCIES {
      if s[p..t] in CURRENCIES { HeadOfCurrency(s, p, t); }
    }
    NoCurrencyFirst(u, s, p);
  }

  lemma LeftmostAmount(u: CharTable, s: string, p: nat)
    requires p <= |s| && AmountAt(u, s, p).Some? && forall k :: 0 <= k < p ==> AmountAt(u, s, k) == None
    ensures SearchAmount(u, s) == AmountAt(u, s, p)
  {
    var xs := seq(|s| + 1, i requires 0 <= i <= |s| => AmountAt(u, s, i));
    assert forall k :: 0 <= k <= p ==> xs[k] == AmountAt(u, s, k);
  }

  // ---------------------------------------------------------------- renderings match the pattern

  lemma {:induction false} StarSnoc(u: CharTable, r: Re, s: string, i: nat, k: nat, j: nat)
    requires i <= k < j <= |s| && Matches(u, Star(r), s, i, k) && Matches(u, r, s, k, j)
    ensures Matches(u, Star(r), s, i, j)
    decreases k - i
  {
    if i == k {
      assert Matches(u, Star(r), s, j, j);
    } else {
      var m := StarSplit(u, r, s, i, k);
      StarSnoc(u, r, s, m, k, j);
    }
  }

  lemma NumeralAt(u: CharTable, s: string, i: nat, a: string)
    requires u.Valid() && i + |a| <= |s| && s[i..i + |a|] == a && IsNumeral(a)
    ensures AllAccepted(u, Digit, s, i, i + |a|)
  {
    assert forall k :: 0 <= k < |a| ==> s[i + k] == a[k];
    forall k | i <= k < i + |a| ensures Accepts(u, Digit, s[k]) { assert s[k] == a[k - i]; }
  }

  lemma {:induction false} SmallNumeral(m: nat, n: nat)
    requires (n == 1 && m < 10) || (n == 2 && m < 100) || (n == 3 && m < 1000)
    ensures |Numeral(m)| <= n
  {
    if n > 1 && m >= 10 { SmallNumeral(m / 10, n - 1); }
  }

  lemma SliceParts(s: string, p: nat, a: string, c: char, b: string)
    requires p + |a| + 1 + |b| <= |s| && s[p..p + |a| + 1 + |b|] == a + [c] + b
    ensures s[p..p + |a|] == a && s[p + |a|] == c && s[p + |a| + 1..p + |a| + 1 + |b|] == b
  {
    var t := s[p..p + |a| + 1 + |b|];
    assert s[p..p + |a|] == t[..|a|];
    assert s[p + |a|] == t[|a|];
    assert s[p + |a| + 1..p + |a| + 1 + |b|] == t[|a| + 1..];
  }

  /** A grouped numeral is one to three digits followed by groups. */
  lemma {:induction false} GroupedMatches(u: CharTable, s: string, p: nat, m: nat, sep: char) returns (d: nat)
    requires u.Valid() && sep in {'.', ','}
    requires p + |Grouped(m, sep)| <= |s| && s[p..p + |Grouped(m, sep)|] == Grouped(m, sep)
    ensures p <= d <= p + |Grouped(m, sep)|
    ensures Matches(u, Rep(Digit, 1, 3), s, p, d) && Matches(u, Star(THOUSANDS), s, d, p + |Grouped(m, sep)|)
    decreases m
  {
    var e := p + |Grouped(m, sep)|;
    if m < 1000 {
      d := e;
      SmallNumeral(m, 3);
      NumeralAt(u, s, p, Numeral(m));
    } else {
      var head, last := Grouped(m / 1000, sep), Padded(m, 3);
      var k := p + |head|;
      SliceParts(s, p, head, sep, last);
      d := GroupedMatches(u, s, p, m / 1000, sep);
      NumeralAt(u, s, k + 1, last);
      CatOne(u, SEPARATOR, Rep(Digit, 3, 3), s, k, e);
      StarSnoc(u, THOUSANDS, s, d, k, e);
    }
  }

  /** Grouped digits, a separator and two digits match the amount pattern. */
  lemma AmountMatches(u: CharTable, s: string, p: nat, m: nat, sep: char, dec: char, cents: nat)
    requires u.Valid() && sep in {'.', ','} && dec in {'.', ','}
    requires var a := Grouped(m, sep) + [dec] + Padded(cents, 2); p + |a| <= |s| && s[p..p + |a|] == a
    ensures Matches(u, AMOUNT, s, p, p + |Grouped(m, sep)| + 3)
  {
    var g, c := Grouped(m, sep), Padded(cents, 2);
    var k := p + |g|;
    SliceParts(s, p, g, dec, c);
    var d := GroupedMatches(u, s, p, m, sep);
    NumeralAt(u, s, k + 1, c);
    AmountFromParts(u, s, p, d, k);
  }

  lemma AmountFromParts(u: CharTable, s: string, p: nat, d: nat, k: nat)
    requires p <= d <= k && k + 3 <= |s|
    requires Matches(u, Rep(Digit, 1, 3), s, p, d) && Matches(u, Star(THOUSANDS), s, d, k)
    requires s[k] in {'.', ','} && AllAccepted(u, Digit, s, k + 1, k + 3)
    ensures Matches(u, AMOUNT, s, p, k + 3)
  {
    CatOne(u, SEPARATOR, Rep(Digit, 2, 2), s, k, k + 3);
    CatJoin(u, Star(THOUSANDS), Cat(One(SEPARATOR), Rep(Digit, 2, 2)), s, d, k, k + 3);
    CatJoin(u, Rep(Digit, 1, 3), Cat(Star(THOUSANDS), Cat(One(SEPARATOR), Rep(Digit, 2, 2))), s, p, d, k + 3);
  }

  // ---------------------------------------------------------------- the round trips

  /** A text that sets `amount`, white space and `currency` after `before` and ahead of `after`. */
  function Quoted(before: string, amount: string, gap: string, currency: string, after: string): string {
    before + amount + gap + currency + after
  }

  /** White space between an amount and its currency. */
  predicate IsGap(u: CharTable, gap: string) { forall k :: 0 <= k < |gap| ==> gap[k] in u.space }

  /** No price begins at any of the first `n` positions of the text. */
  predicate NoneEarlier(u: CharTable, s: string, n: nat)
    requires n <= |s|
  {
    forall k :: 0 <= k < n ==> NothingBegins(u, s, k)
  }

  predicate NothingBegins(u: CharTable, s: string, k: int)
    requires k <= |s|
  {
    k >= 0 ==> AmountAt(u, s, k) == None
  }

  /** Where no digit stands and no currency begins, no price does: for one, in any text ahead of the first price. */
  lemma PlainTextEarlier(u: CharTable, s: string, n: nat)
    requires u.Valid() && n <= |s| && forall k :: 0 <= k < n ==> NoPriceAt(u, s, k)
    ensures NoneEarlier(u, s, n)
  {
    forall k | 0 <= k < n ensures NothingBegins(u, s, k) { NothingAt(u, s, k); }
  }

  lemma QuotedParts(before: string, amount: string, gap: string, currency: string, after: string)
    ensures var s := Quoted(before, amount, gap, currency, after);
            var p, q := |before|, |before| + |amount|; var r := q + |gap|; var t := r + |currency|;
            && t <= |s| && s[p..q] == amount && s[q..r] == gap && s[r..t] == currency && s[..p] == before
  {
  }

  lemma GapAt(u: CharTable, s: string, q: nat, r: nat)
    requires q <= r <= |s| && IsGap(u, s[q..r])
    ensures AllAccepted(u, Space, s, q, r)
  {
    forall k | q <= k < r ensures Accepts(u, Space, s[k]) { assert s[q..r][k - q] == s[k]; }
  }

  /** The first price that begins is what the extraction yields. */
  lemma ExtractedAt(u: CharTable, s: string, p: nat, amount: string, currency: string)
    requires p <= |s| && NoneEarlier(u, s, p) && AmountAt(u, s, p) == Some((amount, currency))
    ensures ExtractAmount(u, s) == Some((amount, Normalised(currency)))
  {
    assert forall k :: 0 <= k < p ==> NothingBegins(u, s, k) && AmountAt(u, s, k) == None;
    LeftmostAmount(u, s, p);
  }

  /** The first price of a text is what the extraction yields. */
  lemma FirstPrice(u: CharTable, s: string, p: nat, q: nat, r: nat, t: nat)
    requires u.Valid() && Priced(u, s, p, q, r, t) && NoneEarlier(u, s, p)
    ensures ExtractAmount(u, s) == Some((s[p..q], Normalised(s[r..t])))
  {
    AmountFound(u, s, p, q, r, t);
    ExtractedAt(u, s, p, s[p..q], s[r..t]);
  }

  /** The first amount of a text, written with groups in either style, is extracted as it stands. */
  lemma GroupedIsExtracted(u: CharTable, before: string, m: nat, sep: char, dec: char, cents: nat, gap: string, currency: string, after: string,
                           a: string, s: string)
    requires u.Valid() && sep in {'.', ','} && dec in {'.', ','} && IsGap(u, gap) && currency in CURRENCIES
    requires a == Grouped(m, sep) + [dec] + Padded(cents, 2) && s == Quoted(before, a, gap, currency, after)
    requires NoneEarlier(u, s, |before|)
    ensures ExtractAmount(u, s) == Some((a, Normalised(currency)))
  {
    var p, q := |before|, |before| + |a|;
    var r := q + |gap|;
    QuotedParts(before, a, gap, currency, after);
    PriceExtracted(u, s, p, q, r, r + |currency|, m, sep, dec, cents);
  }

  lemma PriceExtracted(u: CharTable, s: string, p: nat, q: nat, r: nat, t: nat, m: nat, sep: char, dec: char, cents: nat)
    requires u.Valid() && sep in {'.', ','} && dec in {'.', ','} && p <= q <= r <= t <= |s|
    requires s[p..q] == Grouped(m, sep) + [dec] + Padded(cents, 2) && IsGap(u, s[q..r]) && s[r..t] in CURRENCIES
    requires NoneEarlier(u, s, p)
    ensures ExtractAmount(u, s) == Some((s[p..q], Normalised(s[r..t])))
  {
    AmountMatches(u, s, p, m, sep, dec, cents);
    GapAt(u, s, q, r);
    FirstPrice(u, s, p, q, r, t);
  }

  /**
   The round trip: an amount written with dots between thousands and a comma before the
   cents, followed by a currency, is extracted and parsed as exactly that many cents.
   */
  lemma {:induction false} GermanRoundTrip(u: CharTable, before: string, cents: nat, gap: string, currency: string, after: string,
                                           amount: string, text: string)
    requires u.Valid() && IsGap(u, gap) && currency in CURRENCIES
    requires amount == GermanStyle(cents) && text == Quoted(before, amount, gap, currency, after)
    requires NoneEarlier(u, text, |before|)
    ensures ExtractAmount(u, text) == Some((amount, Normalised(currency)))
    ensures ParseAmount(Some(amount)) == Some(Decimal(cents, 2))
  {
    GermanParses(cents, amount);
    GroupedIsExtracted(u, before, cents / 100, '.', ',', cents, gap, currency, after, amount, text);
  }

  lemma GermanDigits(cents: nat)
    ensures IsNumeral(Without(Grouped(cents / 100, '.'), '.'))
    ensures NumeralValue(Without(Grouped(cents / 100, '.'), '.') + Padded(cents, 2)) == cents
  {
    UngroupedValue(cents / 100, '.');
    ValueOfPadded2(Without(Grouped(cents / 100, '.'), '.'), cents);
  }

  lemma {:induction false} GermanParses(cents: nat, a: string)
    requires a == GermanStyle(cents)
    ensures ParseAmount(Some(a)) == Some(Decimal(cents, 2))
  {
    GermanDigits(cents);
    ParseCommaText(Grouped(cents / 100, '.'), Padded(cents, 2), a);
  }

  /**
   Commas between thousands and a dot before the cents are extracted as well, but parsed as
   the right amount exactly below 1000.00; above, the number is too small or none at all.
   */
  lemma {:induction false} EnglishRoundTrip(u: CharTable, before: string, cents: nat, gap: string, currency: string, after: string,
                                            amount: string, text: string, parsed: Option<Decimal>)
    requires u.Valid() && IsGap(u, gap) && currency in CURRENCIES
    requires amount == EnglishStyle(cents) && text == Quoted(before, amount, gap, currency, after)
    requires NoneEarlier(u, text, |before|) && parsed == ParseAmount(Some(amount))
    ensures ExtractAmount(u, text) == Some((amount, Normalised(currency)))
    ensures parsed == Some(Decimal(cents, 2)) <==> cents < 100_000
    ensures cents >= 100_000 && parsed.Some? ==> parsed.value.units == cents && parsed.value.scale >= 5
  {
    GroupedIsExtracted(u, before, cents / 100, ',', '.', cents, gap, currency, after, amount, text);
    if cents < 100_000 { SmallEnglish(cents); } else { LargeEnglish(cents); }
  }

  lemma NumeralStep(m: nat, n: nat)
    requires m >= 10 && n > 0
    ensures Numeral(m) == Numeral(m / 10) + [DigitChar(m % 10)]
    ensures Padded(m, n) == Padded(m / 10, n - 1) + [DigitChar(m % 10)]
  {
  }

  lemma AppendThree(a: string, x: char, y: char, z: char)
    ensures a + [x] + [y] + [z] == a + [x, y, z]
  {
  }

  lemma PaddedThree(m: nat)
    ensures Padded(m, 3) == [DigitChar(m / 10 / 10 % 10), DigitChar(m / 10 % 10), DigitChar(m % 10)]
  {
    assert Padded(m / 10 / 10 / 10, 0) == "";
    AppendThree("", DigitChar(m / 10 / 10 % 10), DigitChar(m / 10 % 10), DigitChar(m % 10));
  }

  lemma NumeralTail(m: nat)
    requires m >= 1000
    ensures Numeral(m) == Numeral(m / 1000) + Padded(m, 3)
  {
    PaddedThree(m);
    NumeralStep(m, 3);
    NumeralStep(m / 10, 2);
    NumeralStep(m / 10 / 10, 1);
    assert m / 10 / 10 / 10 == m / 1000;
    AppendThree(Numeral(m / 1000), DigitChar(m / 10 / 10 % 10), DigitChar(m / 10 % 10), DigitChar(m % 10));
  }

  /** The digits before the comma of an ungrouped amount that the pattern can match: at most three. */
  function SeenDigits(cents: nat): string {
    if cents < 100_000 then Numeral(cents / 100) else Padded(cents / 100, 3)
  }

  /** The part of an ungrouped amount that the pattern can match. */
  function Seen(cents: nat): string { SeenDigits(cents) + "," + Padded(cents, 2) }

  lemma SmallUngrouped(cents: nat)
    requires cents < 100_000
    ensures UngroupedStyle(cents) == GermanStyle(cents)
  {
  }

  /** What is seen of an ungrouped amount is its value modulo 1000.00: right exactly below 1000.00. */
  lemma UngroupedIsReduced(cents: nat, seen: string)
    requires seen == Seen(cents)
    ensures ParseAmount(Some(seen)) == Some(Decimal(cents % 100_000, 2))
    ensures cents % 100_000 == cents <==> cents < 100_000
  {
    var digits, fraction := SeenDigits(cents), Padded(cents, 2);
    SeenValue(cents, digits);
    ReadAs(digits, fraction, seen, cents % 100_000);
    BelowThousand(cents);
  }

  lemma BelowThousand(cents: nat)
    ensures cents % 100_000 == cents <==> cents < 100_000
  {
  }

  lemma ReadAs(digits: string, fraction: string, a: string, value: nat)
    requires IsNumeral(Without(digits, '.')) && IsNumeral(fraction) && |fraction| == 2 && a == digits + "," + fraction
    requires NumeralValue(Without(digits, '.') + fraction) == value
    ensures ParseAmount(Some(a)) == Some(Decimal(value, 2))
  {
    ParseCommaText(digits, fraction, a);
  }

  lemma SeenValue(cents: nat, digits: string)
    requires digits == SeenDigits(cents)
    ensures IsNumeral(Without(digits, '.')) && NumeralValue(Without(digits, '.') + Padded(cents, 2)) == cents % 100_000
  {
    if cents < 100_000 {
      assert digits == Grouped(cents / 100, '.');
      GermanDigits(cents);
    } else {
      TailDigits(cents);
    }
  }

  /** Without group separators the extraction yields only what is seen of the amount. */
  lemma UngroupedIsExtracted(u: CharTable, before: string, cents: nat, gap: string, currency: string, after: string,
                             amount: string, text: string)
    requires u.Valid() && IsGap(u, gap) && currency in CURRENCIES
    requires amount == UngroupedStyle(cents) && text == Quoted(before, amount, gap, currency, after)
    requires NoneEarlier(u, text, |before|)
    ensures ExtractAmount(u, text) == Some((Seen(cents), Normalised(currency)))
  {
    if cents < 100_000 {
      SmallUngrouped(cents);
      GroupedIsExtracted(u, before, cents / 100, '.', ',', cents, gap, currency, after, amount, text);
    } else {
      TailIsExtracted(u, before, cents, gap, currency, after);
    }
  }

  lemma LastFive(cents: nat)
    ensures 100 * (cents / 100 % 1000) + cents % 100 == cents % 100_000
  {
  }

  lemma TailDigits(cents: nat)
    ensures Without(Padded(cents / 100, 3), '.') == Padded(cents / 100, 3)
    ensures NumeralValue(Padded(cents / 100, 3) + Padded(cents, 2)) == cents % 100_000
  {
    var tail := Padded(cents / 100, 3);
    WithoutNone(tail, '.');
    TailValue(cents / 100);
    ValueOfPadded2(tail, cents);
    LastFive(cents);
  }

  lemma TailValue(m: nat)
    ensures NumeralValue(Padded(m, 3)) == m % 1000
  {
    assert "" + Padded(m, 3) == Padded(m, 3);
    ValueOfPadded3("", m);
  }

  /** Where the parts of an ungrouped amount lie in its text. */
  lemma TailParts(before: string, head: string, tail: string, c: string, gap: string, currency: string, after: string)
    requires |tail| == 3 && |c| == 2
    ensures var s := Quoted(before, head + tail + "," + c, gap, currency, after);
            var p0 := |before|; var p := p0 + |head|; var r := p + 6 + |gap|;
            && r + |currency| <= |s| && s[p0..p + 3] == head + tail && s[p + 3] == ',' && s[p + 4..p + 6] == c
            && s[p..p + 3] == tail && s[p..p + 6] == tail + "," + c && s[p + 6..r] == gap && s[r..r + |currency|] == currency
  {
  }

  lemma TailIsExtracted(u: CharTable, before: string, cents: nat, gap: string, currency: string, after: string)
    requires u.Valid() && IsGap(u, gap) && currency in CURRENCIES && cents >= 100_000
    requires NoneEarlier(u, Quoted(before, UngroupedStyle(cents), gap, currency, after), |before|)
    ensures ExtractAmount(u, Quoted(before, UngroupedStyle(cents), gap, currency, after))
         == Some((Padded(cents / 100, 3) + "," + Padded(cents, 2), Normalised(currency)))
  {
    NumeralTail(cents / 100);
    SplitIsExtracted(u, before, Numeral(cents / 100 / 1000), Padded(cents / 100, 3), Padded(cents, 2), gap, currency, after);
  }

  lemma SplitIsExtracted(u: CharTable, before: string, head: string, tail: string, c: string, gap: string, currency: string, after: string)
    requires u.Valid() && IsGap(u, gap) && currency in CURRENCIES
    requires IsNumeral(head) && IsNumeral(tail) && IsNumeral(c) && |tail| == 3 && |c| == 2
    requires NoneEarlier(u, Quoted(before, head + tail + "," + c, gap, currency, after), |before|)
    ensures ExtractAmount(u, Quoted(before, head + tail + "," + c, gap, currency, after))
         == Some((tail + "," + c, Normalised(currency)))
  {
    var s := Quoted(before, head + tail + "," + c, gap, currency, after);
    var p := |before| + |head|;
    var r := p + 6 + |gap|;
    TailParts(before, head, tail, c, gap, currency, after);
    CutText(u, s, |before|, p, r, r + |currency|, head, tail, c);
  }

  lemma CutText(u: CharTable, s: string, p0: nat, p: nat, r: nat, t: nat, head: string, tail: string, c: string)
    requires u.Valid() && IsNumeral(head) && IsNumeral(tail) && IsNumeral(c) && |tail| == 3 && |c| == 2
    requires p == p0 + |head| && p + 6 <= r <= t <= |s|
    requires s[p0..p + 3] == head + tail && s[p + 3] == ',' && s[p + 4..p + 6] == c && s[p..p + 6] == tail + "," + c
    requires IsGap(u, s[p + 6..r]) && s[r..t] in CURRENCIES && NoneEarlier(u, s, p0)
    ensures ExtractAmount(u, s) == Some((s[p..p + 6], Normalised(s[r..t])))
  {
    NumeralAt(u, s, p0, head + tail);
    NumeralAt(u, s, p + 4, c);
    CutIsExtracted(u, s, p0, p, r, t);
  }

  /** Of a run of digits from `p0` to a comma, only the last three are matched. */
  lemma CutIsExtracted(u: CharTable, s: string, p0: nat, p: nat, r: nat, t: nat)
    requires u.Valid() && p0 <= p && p + 6 <= r <= t <= |s|
    requires AllAccepted(u, Digit, s, p0, p + 3) && s[p + 3] == ',' && AllAccepted(u, Digit, s, p + 4, p + 6)
    requires IsGap(u, s[p + 6..r]) && s[r..t] in CURRENCIES && NoneEarlier(u, s, p0)
    ensures ExtractAmount(u, s) == Some((s[p..p + 6], Normalised(s[r..t])))
  {
    TailPriced(u, s, p, r, t);
    TailIsFirst(u, s, p0, p);
    FirstPrice(u, s, p, p + 6, r, t);
  }

  lemma TailPriced(u: CharTable, s: string, p: nat, r: nat, t: nat)
    requires p + 6 <= r <= t <= |s| && AllAccepted(u, Digit, s, p, p + 3) && s[p + 3] == ',' && AllAccepted(u, Digit, s, p + 4, p + 6)
    requires IsGap(u, s[p + 6..r]) && s[r..t] in CURRENCIES
    ensures Priced(u, s, p, p + 6, r, t)
  {
    AmountFromParts(u, s, p, p + 3, p + 3);
    GapAt(u, s, p + 6, r);
  }

  /** In a run of digits from `p0` no price begins before the last three, `p` being the place of these. */
  lemma TailIsFirst(u: CharTable, s: string, p0: nat, p: nat)
    requires u.Valid() && p0 <= p && p + 3 <= |s| && AllAccepted(u, Digit, s, p0, p + 3) && NoneEarlier(u, s, p0)
    ensures NoneEarlier(u, s, p)
  {
    forall i | 0 <= i < p ensures NothingBegins(u, s, i) {
      if i >= p0 { NothingFar(u, s, i, p + 3); }
    }
  }

  // ---------------------------------------------------------------- the currency first

  const FRACTION := Cat(One(SEPARATOR), Rep(Digit, 2, 2))

  predicate Descends(es: seq<nat>) {
    forall i, j :: 0 <= i < j < |es| ==> es[i] > es[j]
  }

  lemma {:induction false} RepDescends(u: CharTable, cls: Class, lo: nat, hi: nat, s: string, i: nat)
    requires i <= |s|
    ensures Descends(RepEnds(u, cls, lo, hi, s, i))
    decreases hi
  {
    if hi > 0 && i < |s| && Accepts(u, cls, s[i]) { RepDescends(u, cls, if lo > 0 then lo - 1 else 0, hi - 1, s, i + 1); }
  }

  lemma EndsFromOne(u: CharTable, re: Re, s: string, p: nat, from: nat)
    requires from <= p <= |s|
    ensures EndsFrom(u, re, s, [p], from) == Ends(u, re, s, p)
  {
    assert [p][1..] == [];
    assert Ends(u, re, s, p) + [] == Ends(u, re, s, p);
  }

  /** A separator and `n` digits have at most one end. */
  lemma SeparatedEnds(u: CharTable, n: nat, s: string, i: nat)
    requires i <= |s|
    ensures var es := Ends(u, Cat(One(SEPARATOR), Rep(Digit, n, n)), s, i); es == [] || es == [i + 1 + n]
  {
    var es := Ends(u, Cat(One(SEPARATOR), Rep(Digit, n, n)), s, i);
    var first := Ends(u, One(SEPARATOR), s, i);
    if first != [] {
      assert first == [i + 1];
      var digits := Ends(u, Rep(Digit, n, n), s, i + 1);
      EndsFromOne(u, Rep(Digit, n, n), s, i + 1, i);
      assert es == digits;
      RepDescends(u, Digit, n, n, s, i + 1);
      forall k | 0 <= k < |digits| ensures digits[k] == i + 1 + n {
        assert digits[k] in digits;
        RepEndsIff(u, Digit, n, n, s, i + 1, digits[k]);
      }
      AtMostOne(digits, i + 1 + n);
    }
  }

  lemma AtMostOne(es: seq<nat>, e: nat)
    requires Descends(es) && forall k :: 0 <= k < |es| ==> es[k] == e
    ensures es == [] || es == [e]
  {
    if |es| >= 2 { FirstTwoDiffer(es); }
  }

  lemma FirstTwoDiffer(es: seq<nat>)
    requires Descends(es) && |es| >= 2
    ensures es[0] != es[1]
  {
  }

  /** The ends of a fraction behind descending positions descend. */
  lemma {:induction false} FractionsDescend(u: CharTable, s: string, ps: seq<nat>, from: nat)
    requires Within(ps, from, |s|) && Descends(ps)
    ensures var es := EndsFrom(u, FRACTION, s, ps, from);
            Descends(es) && forall k :: 0 <= k < |es| ==> ps != [] && es[k] <= ps[0] + 3
    decreases |ps|
  {
    if ps != [] {
      SeparatedEnds(u, 2, s, ps[0]);
      FractionsDescend(u, s, ps[1..], from);
    }
  }

  /** Grouping is greedy: the longest run of groups comes first. */
  lemma {:induction false} GroupsDescend(u: CharTable, s: string, i: nat)
    requires i <= |s|
    ensures Descends(Ends(u, Star(THOUSANDS), s, i))
    decreases |s| - i
  {
    SeparatedEnds(u, 3, s, i);
    var one := Ends(u, THOUSANDS, s, i);
    if one == [] {
      assert Later(one, i, |s|) == [];
      assert Ends(u, Star(THOUSANDS), s, i) == [i];
    } else {
      assert one == [i + 4] && one[1..] == [];
      assert Later(one, i, |s|) == [i + 4];
      GroupsDescend(u, s, i + 4);
      EndsFromOne(u, Star(THOUSANDS), s, i + 4, i + 1);
    }
  }

  lemma GroupedDescends(u: CharTable, s: string, d: nat)
    requires d <= |s|
    ensures Descends(Ends(u, Cat(Star(THOUSANDS), FRACTION), s, d))
  {
    GroupsDescend(u, s, d);
    FractionsDescend(u, s, Ends(u, Star(THOUSANDS), s, d), d);
  }

  /** Groups and a fraction begin with a separator. */
  lemma GroupedBegins(u: CharTable, s: string, d: nat)
    requires d <= |s| && Ends(u, Cat(Star(THOUSANDS), FRACTION), s, d) != []
    ensures d < |s| && s[d] in {'.', ','}
  {
    var tail := Cat(Star(THOUSANDS), FRACTION);
    var j := Ends(u, tail, s, d)[0];
    assert j in Ends(u, tail, s, d);
    EndsIffMatches(u, tail, s, d, j);
    var e := CatSplit(u, Star(THOUSANDS), FRACTION, s, d, j);
    GroupsShape(u, s, d, e);
    CatOne(u, SEPARATOR, Rep(Digit, 2, 2), s, e, j);
  }

  /** Of the positions behind one to three digits only one has a separator, so the ends descend as they do there. */
  lemma {:induction false} OneStartDescends(u: CharTable, s: string, ps: seq<nat>, from: nat, r: nat)
    requires u.Valid() && r <= from && Within(ps, from, |s|) && Descends(ps)
    requires forall k :: 0 <= k < |ps| ==> AllAccepted(u, Digit, s, r, ps[k])
    ensures Descends(EndsFrom(u, Cat(Star(THOUSANDS), FRACTION), s, ps, from))
    ensures ps != [] && Ends(u, Cat(Star(THOUSANDS), FRACTION), s, ps[0]) == []
        ==> EndsFrom(u, Cat(Star(THOUSANDS), FRACTION), s, ps, from) == EndsFrom(u, Cat(Star(THOUSANDS), FRACTION), s, ps[1..], from)
    decreases |ps|
  {
    var tail := Cat(Star(THOUSANDS), FRACTION);
    if ps != [] {
      var es, rest := Ends(u, tail, s, ps[0]), EndsFrom(u, tail, s, ps[1..], from);
      GroupedDescends(u, s, ps[0]);
      OneStartDescends(u, s, ps[1..], from, r);
      if es == [] {
        assert es + rest == rest;
      } else {
        NoOtherStart(u, s, ps[1..], from, r, ps[0]);
        assert es + rest == es;
      }
    }
  }

  /** Inside a run of digits no groups and fraction begin. */
  lemma {:induction false} NoOtherStart(u: CharTable, s: string, ps: seq<nat>, from: nat, r: nat, d: nat)
    requires u.Valid() && r <= from && Within(ps, from, |s|) && r <= d <= |s| && AllAccepted(u, Digit, s, r, d)
    requires forall k :: 0 <= k < |ps| ==> r <= ps[k] < d
    ensures EndsFrom(u, Cat(Star(THOUSANDS), FRACTION), s, ps, from) == []
    decreases |ps|
  {
    if ps != [] {
      var p := ps[0];
      assert Accepts(u, Digit, s[p]) && '.' !in u.digit && ',' !in u.digit;
      if Ends(u, Cat(Star(THOUSANDS), FRACTION), s, p) != [] { GroupedBegins(u, s, p); }
      NoOtherStart(u, s, ps[1..], from, r, d);
    }
  }

  lemma AmountsDescend(u: CharTable, s: string, r: nat)
    requires u.Valid() && r <= |s|
    ensures Descends(Ends(u, AMOUNT, s, r))
  {
    var ps := Ends(u, Rep(Digit, 1, 3), s, r);
    RepDescends(u, Digit, 1, 3, s, r);
    forall k | 0 <= k < |ps| ensures AllAccepted(u, Digit, s, r, ps[k]) {
      assert ps[k] in ps;
      RepEndsIff(u, Digit, 1, 3, s, r, ps[k]);
    }
    OneStartDescends(u, s, ps, r, r);
  }

  /** The first end of an amount is the greatest: the engine takes as long an amount as there is. */
  lemma LongestAmountFirst(u: CharTable, s: string, r: nat, t: nat, es: seq<nat>)
    requires u.Valid() && r <= t <= |s| && Matches(u, AMOUNT, s, r, t) && es == Ends(u, AMOUNT, s, r)
    requires forall j :: t < j <= |s| ==> !Matches(u, AMOUNT, s, r, j)
    ensures IsFirst(es, t)
  {
    AmountsDescend(u, s, r);
    EndsIffMatches(u, AMOUNT, s, r, t);
    var k :| 0 <= k < |es| && es[k] == t;
    assert es[0] in es;
    EndsIffMatches(u, AMOUNT, s, r, es[0]);
  }

  /** `s` holds a currency at `p..q`, white space at `q..r`, and no more white space. */
  ghost predicate Quoting(u: CharTable, s: string, p: nat, q: nat, r: nat) {
    && p <= q <= r <= |s| && s[p..q] in CURRENCIES && AllAccepted(u, Space, s, q, r) && (r < |s| ==> s[r] !in u.space)
  }

  /** From `p`, the currency has one extent, and an amount can begin only behind all the white space. */
  lemma QuotedAt(u: CharTable, s: string, p: nat, q: nat, r: nat, q': nat, r': nat, t': nat)
    requires u.Valid() && Quoting(u, s, p, q, r) && p <= q' <= r' <= t' <= |s|
    requires q' in Ends(u, CURRENCY, s, p) && r' in Ends(u, SPACES, s, q') && t' in Ends(u, AMOUNT, s, r')
    ensures q' == q && r' == r && Matches(u, AMOUNT, s, r, t')
  {
    EndsIffMatches(u, CURRENCY, s, p, q');
    EndsIffMatches(u, SPACES, s, q', r');
    EndsIffMatches(u, AMOUNT, s, r', t');
    CurrencyMatch(u, s, p, q');
    SpacesMatch(u, s, q', r');
    OneCurrency(s, p, q, q');
    var d := AmountShape(u, s, r', t');
    KindsOfChar(u, s[r']);
    assert forall h :: q <= h < r ==> Accepts(u, Space, s[h]);
    assert forall h :: q <= h < r' ==> Accepts(u, Space, s[h]);
  }

  lemma NoAmountFirst(u: CharTable, s: string, p: nat, q: nat)
    requires u.Valid() && p <= q <= |s| && s[p..q] in CURRENCIES
    ensures Parts(u, AMOUNT, SPACES, CURRENCY, s, p) == None
  {
    var first := Parts(u, AMOUNT, SPACES, CURRENCY, s, p);
    HeadOfCurrency(s, p, q);
    KindsOfChar(u, s[p]);
    if first.Some? {
      EndsIffMatches(u, AMOUNT, s, p, first.value.0);
      var d := AmountShape(u, s, p, first.value.0);
    }
  }

  /** Where a currency stands first, what is extracted with it is the longest amount behind its white space, or nothing. */
  lemma CurrencyFirst(u: CharTable, s: string, p: nat, q: nat, r: nat, t: nat)
    requires u.Valid() && Quoting(u, s, p, q, r) && r <= t <= |s|
    ensures Matches(u, AMOUNT, s, r, t) && (forall j :: t < j <= |s| ==> !Matches(u, AMOUNT, s, r, j))
        ==> AmountAt(u, s, p) == Some((s[r..t], s[p..q]))
    ensures (forall j :: r <= j <= |s| ==> !Matches(u, AMOUNT, s, r, j)) ==> AmountAt(u, s, p) == None
  {
    NoAmountFirst(u, s, p, q);
    var second := Parts(u, CURRENCY, SPACES, AMOUNT, s, p);
    if second.Some? {
      var (q', r', t') := second.value;
      assert t' in Ends(u, AMOUNT, s, r');
      QuotedAt(u, s, p, q, r, q', r', t');
    }
    if Matches(u, AMOUNT, s, r, t) && forall j :: t < j <= |s| ==> !Matches(u, AMOUNT, s, r, j) {
      LongestAmountFirst(u, s, r, t, Ends(u, AMOUNT, s, r));
      QuotedThere(u, s, p, q, r, t);
    }
  }

  lemma QuotedThere(u: CharTable, s: string, p: nat, q: nat, r: nat, t: nat)
    requires u.Valid() && Quoting(u, s, p, q, r) && r <= t <= |s| && Matches(u, AMOUNT, s, r, t)
    ensures q in Ends(u, CURRENCY, s, p) && r in Ends(u, SPACES, s, q) && Ends(u, AMOUNT, s, r) != []
  {
    CurrencyMatch(u, s, p, q);
    SpacesMatch(u, s, q, r);
    EndsIffMatches(u, CURRENCY, s, p, q);
    EndsIffMatches(u, SPACES, s, q, r);
    EndsIffMatches(u, AMOUNT, s, r, t);
  }

  /** At `e`, a separator that cannot begin a group that more of an amount follows. */
  predicate LastSeparator(u: CharTable, s: string, e: nat) {
    e < |s| && s[e] in {'.', ','} && (e + 4 < |s| && s[e + 3] in u.digit ==> s[e + 4] !in {'.', ','})
  }

  /** Groups from before such a separator end before it, at it, or with the group that begins there. */
  lemma {:induction false} GroupsStop(u: CharTable, s: string, i: nat, k: nat, e: nat)
    requires u.Valid() && i <= k <= |s| && i <= e && LastSeparator(u, s, e) && Matches(u, Star(THOUSANDS), s, i, k)
    ensures k <= e || (k == e + 4 && s[e + 3] in u.digit)
    decreases k - i
  {
    if i < k {
      var g := StarSplit(u, THOUSANDS, s, i, k);
      CatOne(u, SEPARATOR, Rep(Digit, 3, 3), s, i, g);
      assert forall h :: i + 1 <= h < g ==> Accepts(u, Digit, s[h]);
      assert '.' !in u.digit && ',' !in u.digit;
      if e == i {
        if g < k { GroupsShape(u, s, g, k); }
      } else {
        GroupsStop(u, s, g, k, e);
      }
    }
  }

  /** An amount goes no further than two digits behind such a separator. */
  lemma NoLonger(u: CharTable, s: string, r: nat, j: nat, e: nat)
    requires u.Valid() && r <= j <= |s| && Matches(u, AMOUNT, s, r, j) && LastSeparator(u, s, e)
    requires r < e && (forall h :: r <= h < e ==> AmountChar(u, s[h]))
    ensures j <= e + 3
  {
    var tail := Cat(Star(THOUSANDS), FRACTION);
    var d := CatSplit(u, Rep(Digit, 1, 3), tail, s, r, j);
    var k := CatSplit(u, Star(THOUSANDS), FRACTION, s, d, j);
    CatOne(u, SEPARATOR, Rep(Digit, 2, 2), s, k, j);
    assert forall h :: r <= h < d ==> Accepts(u, Digit, s[h]);
    assert '.' !in u.digit && ',' !in u.digit;
    GroupsStop(u, s, d, k, e);
  }

  /** A text with the currency first. */
  function QuotedFirst(before: string, currency: string, gap: string, amount: string, after: string): string {
    before + currency + gap + amount + after
  }

  /** What follows does not go on like a number: not a digit and a separator. */
  predicate Ended(u: CharTable, after: string) {
    |after| >= 2 && after[0] in u.digit ==> after[1] !in {'.', ','}
  }

  lemma QuotedFirstParts(before: string, currency: string, gap: string, amount: string, after: string)
    ensures var s := QuotedFirst(before, currency, gap, amount, after);
            var p := |before|; var q := p + |currency|; var r := q + |gap|; var t := r + |amount|;
            && t <= |s| && s[p..q] == currency && s[q..r] == gap && s[r..t] == amount && s[t..] == after
  {
  }

  /** Where a grouped amount ends, and why it is the longest. */
  lemma GroupedIsLongest(u: CharTable, s: string, r: nat, t: nat, m: nat, sep: char, dec: char, cents: nat)
    requires u.Valid() && sep in {'.', ','} && dec in {'.', ','} && r <= t <= |s|
    requires s[r..t] == Grouped(m, sep) + [dec] + Padded(cents, 2) && Ended(u, s[t..])
    ensures Matches(u, AMOUNT, s, r, t) && forall j :: t < j <= |s| ==> !Matches(u, AMOUNT, s, r, j)
  {
    AmountMatches(u, s, r, m, sep, dec, cents);
    var d := AmountShape(u, s, r, t);
    var e := t - 3;
    assert s[e] == s[r..t][|Grouped(m, sep)|] == dec;
    assert |s[t..]| >= 1 ==> s[t..][0] == s[t];
    assert |s[t..]| >= 2 ==> s[t..][1] == s[t + 1];
    forall j | t < j <= |s| ensures !Matches(u, AMOUNT, s, r, j) {
      if Matches(u, AMOUNT, s, r, j) { NoLonger(u, s, r, j, e); }
    }
  }

  /**
   The round trip with the currency first: a grouped amount of either style is extracted as it
   stands unless the text goes on with a digit and a separator; a dot-grouped one is parsed as
   exactly that many cents.
   */
  lemma {:induction false} CurrencyFirstRoundTrip(u: CharTable, before: string, currency: string, gap: string, cents: nat, sep: char, dec: char,
                                                  after: string, amount: string, text: string)
    requires u.Valid() && IsGap(u, gap) && currency in CURRENCIES && sep in {'.', ','} && dec in {'.', ','} && Ended(u, after)
    requires amount == Grouped(cents / 100, sep) + [dec] + Padded(cents, 2)
    requires text == QuotedFirst(before, currency, gap, amount, after) && NoneEarlier(u, text, |before|)
    ensures ExtractAmount(u, text) == Some((amount, Normalised(currency)))
    ensures sep == '.' && dec == ',' ==> ParseAmount(Some(amount)) == Some(Decimal(cents, 2))
  {
    var p := |before|;
    var q := p + |currency|;
    var r := q + |gap|;
    var t := r + |amount|;
    QuotedFirstParts(before, currency, gap, amount, after);
    FirstQuote(u, text, p, q, r, t, cents / 100, sep, dec, cents);
    if sep == '.' && dec == ',' { GermanParses(cents, amount); }
  }

  lemma FirstQuote(u: CharTable, s: string, p: nat, q: nat, r: nat, t: nat, m: nat, sep: char, dec: char, cents: nat)
    requires u.Valid() && sep in {'.', ','} && dec in {'.', ','} && p <= q <= r <= t <= |s|
    requires s[p..q] in CURRENCIES && IsGap(u, s[q..r]) && Ended(u, s[t..]) && NoneEarlier(u, s, p)
    requires s[r..t] == Grouped(m, sep) + [dec] + Padded(cents, 2)
    ensures ExtractAmount(u, s) == Some((s[r..t], Normalised(s[p..q])))
  {
    GapAt(u, s, q, r);
    GroupedIsLongest(u, s, r, t, m, sep, dec, cents);
    var d := AmountShape(u, s, r, t);
    KindsOfChar(u, s[r]);
    CurrencyFirst(u, s, p, q, r, t);
    ExtractedAt(u, s, p, s[r..t], s[p..q]);
  }

  // ---------------------------------------------------------------- when there is a price

  /** `s` holds a currency at `p..q`, white space at `q..r` and an amount at `r..t`. */
  ghost predicate PricedFirst(u: CharTable, s: string, p: nat, q: nat, r: nat, t: nat) {
    && p <= q <= r <= t <= |s|
    && s[p..q] in CURRENCIES
    && AllAccepted(u, Space, s, q, r)
    && Matches(u, AMOUNT, s, r, t)
  }

  /** An amount with its currency behind it, or a currency with its amount behind it, begins at `p`. */
  ghost predicate PriceBegins(u: CharTable, s: string, p: nat) {
    (exists q: nat, r: nat, t: nat :: Priced(u, s, p, q, r, t)) || exists q: nat, r: nat, t: nat :: PricedFirst(u, s, p, q, r, t)
  }

  lemma FirstEnds(u: CharTable, s: string, p: nat, q: nat, r: nat, t: nat)
    requires p <= q <= r <= t <= |s|
    ensures PricedFirst(u, s, p, q, r, t)
       <==> q in Ends(u, CURRENCY, s, p) && r in Ends(u, SPACES, s, q) && t in Ends(u, AMOUNT, s, r)
  {
    EndsIffMatches(u, CURRENCY, s, p, q);
    EndsIffMatches(u, SPACES, s, q, r);
    EndsIffMatches(u, AMOUNT, s, r, t);
    SpacesMatch(u, s, q, r);
    CurrencyMatch(u, s, p, q);
  }

  lemma PartsFound(u: CharTable, a: Re, b: Re, c: Re, s: string, p: nat, q: nat, r: nat, t: nat)
    requires p <= q <= r <= t <= |s|
    requires q in Ends(u, a, s, p) && r in Ends(u, b, s, q) && t in Ends(u, c, s, r)
    ensures Parts(u, a, b, c, s, p).Some?
  {
  }

  lemma BeginsIff(u: CharTable, s: string, p: nat)
    requires p <= |s|
    ensures AmountAt(u, s, p).Some? <==> PriceBegins(u, s, p)
  {
    var first, second := Parts(u, AMOUNT, SPACES, CURRENCY, s, p), Parts(u, CURRENCY, SPACES, AMOUNT, s, p);
    if first.Some? {
      PriceEnds(u, s, p, first.value.0, first.value.1, first.value.2);
    }
    if second.Some? {
      FirstEnds(u, s, p, second.value.0, second.value.1, second.value.2);
    }
    forall q: nat, r: nat, t: nat | Priced(u, s, p, q, r, t) ensures first.Some? {
      PriceEnds(u, s, p, q, r, t);
      PartsFound(u, AMOUNT, SPACES, CURRENCY, s, p, q, r, t);
    }
    forall q: nat, r: nat, t: nat | PricedFirst(u, s, p, q, r, t) ensures second.Some? {
      FirstEnds(u, s, p, q, r, t);
      PartsFound(u, CURRENCY, SPACES, AMOUNT, s, p, q, r, t);
    }
  }

  /** Something is extracted from a text exactly if a price begins somewhere in it. */
  lemma ExtractsIff(u: CharTable, s: string)
    ensures ExtractAmount(u, s).Some? <==> exists p: nat :: p <= |s| && PriceBegins(u, s, p)
  {
    var xs := seq(|s| + 1, i requires 0 <= i <= |s| => AmountAt(u, s, i));
    forall p: nat | p <= |s| ensures xs[p].Some? <==> PriceBegins(u, s, p) { BeginsIff(u, s, p); }
    if exists k :: 0 <= k < |xs| && xs[k].Some? {
      var k :| 0 <= k < |xs| && xs[k].Some?;
      assert PriceBegins(u, s, k);
    }
  }
}
