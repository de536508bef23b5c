/** Tracking-number detection: `tracking/carriers.py`. */
module Carriers {
  import opened Prelude
  import opened Regex

  datatype Carrier =
    | UPS | AmazonLogistics | Cainiao | YunExpress | PostNL | DeutschePost | RoyalMail
    | USPS | DPD | GLS | Hermes | DHL | DHLExpress | FedEx

  function Name(c: Carrier): string {
    match c
    case UPS => "UPS"
    case AmazonLogistics => "Amazon Logistics"
    case Cainiao => "Cainiao"
    case YunExpress => "YunExpress"
    case PostNL => "PostNL"
    case DeutschePost => "Deutsche Post"
    case RoyalMail => "Royal Mail"
    case USPS => "USPS"
    case DPD => "DPD"
    case GLS => "GLS"
    case Hermes => "Hermes"
    case DHL => "DHL"
    case DHLExpress => "DHL Express"
    case FedEx => "FedEx"
  }

  function Digits(n: nat): Re { Rep(Digit, n, n) }

  /** `CARRIER_PATTERNS`, without the `\b` on either side. */
  function Core(c: Carrier): Re {
    match c
    case UPS => Cat(One(Lit('1')), Cat(One(Lit('Z')), Rep(UpperOrDigit, 16, 16)))
    case AmazonLogistics => Cat(One(Lit('T')), Cat(One(Lit('B')), Cat(One(Lit('A')), Digits(12))))
    case Cainiao => Cat(One(Lit('L')), Cat(One(Lit('P')), Rep(Digit, 14, 20)))
    case YunExpress => Cat(One(Lit('Y')), Cat(One(Lit('T')), Rep(Digit, 16, 18)))
    case PostNL => Cat(One(Lit('3')), Cat(One(Lit('S')), Rep(UpperOrDigit, 11, 13)))
    case DeutschePost => Cat(Rep(Upper, 2, 2), Cat(Digits(9), Cat(One(Lit('D')), One(Lit('E')))))
    case RoyalMail => Cat(Rep(Upper, 2, 2), Cat(Digits(9), Cat(One(Lit('G')), One(Lit('B')))))
    case USPS => Or(Cat(One(Lit('9')), Digits(21)), Cat(One(Lit('9')), Digits(25)))
    case DPD => Digits(14)
    case GLS => Digits(11)
    case Hermes => Or(Digits(14), Cat(Rep(Upper, 1, 1), Digits(10)))
    case DHL => Or(Digits(12), Or(Digits(10), Digits(20)))
    case DHLExpress => Digits(10)
    case FedEx => Or(Digits(12), Or(Digits(15), Digits(20)))
  }

  function Pattern(c: Carrier): Re { Whole(Core(c)) }

  /** `_DETECTION_ORDER` */
  const DETECTION_ORDER: seq<Carrier> :=
    [UPS, AmazonLogistics, Cainiao, YunExpress, PostNL, DeutschePost, RoyalMail,
     USPS, DPD, GLS, Hermes, DHL, DHLExpress, FedEx]

  /** The place of a carrier in the detection order. */
  function Rank(c: Carrier): (r: nat)
    ensures r < |DETECTION_ORDER| && DETECTION_ORDER[r] == c
  {
    match c
    case UPS => 0 case AmazonLogistics => 1 case Cainiao => 2 case YunExpress => 3 case PostNL => 4
    case DeutschePost => 5 case RoyalMail => 6 case USPS => 7 case DPD => 8 case GLS => 9
    case Hermes => 10 case DHL => 11 case DHLExpress => 12 case FedEx => 13
  }

  lemma RankOfOrder(k: nat)
    requires k < |DETECTION_ORDER|
    ensures Rank(DETECTION_ORDER[k]) == k
  {
  }

  // ---------------------------------------------------------------- detect_carrier

  function LStrip(u: CharTable, s: string): string {
    if s != "" && s[0] in u.space then LStrip(u, s[1..]) else s
  }

  function RStrip(u: CharTable, s: string): string {
    if s != "" && s[|s| - 1] in u.space then RStrip(u, s[..|s| - 1]) else s
  }

  function Strip(u: CharTable, s: string): string { RStrip(u, LStrip(u, s)) }

  predicate Fits(u: CharTable, c: Carrier, w: string) { FullMatch(u, Pattern(c), w) }

  function DetectFrom(u: CharTable, candidate: string, k: nat): (r: Option<Carrier>)
    requires k <= |DETECTION_ORDER|
    ensures r.Some? ==> k <= Rank(r.value) && Fits(u, r.value, candidate)
    ensures forall c :: k <= Rank(c) && Fits(u, c, candidate) ==> r.Some? && Rank(r.value) <= Rank(c)
    decreases |DETECTION_ORDER| - k
  {
    if k == |DETECTION_ORDER| then None
    else
      RankOfOrder(k);
      if Fits(u, DETECTION_ORDER[k], candidate) then Some(DETECTION_ORDER[k]) else DetectFrom(u, candidate, k + 1)
  }

  function DetectCarrier(u: CharTable, number: string): Option<Carrier> {
    DetectFrom(u, Strip(u, number), 0)
  }

  /** What `detect_carrier` answers: the name under which the pattern is registered. */
  function DetectedName(u: CharTable, number: string): Option<string> {
    var c := DetectCarrier(u, number);
    if c.Some? then Some(Name(c.value)) else None
  }

  // ---------------------------------------------------------------- what each pattern accepts

  predicate All(u: CharTable, cls: Class, w: string, i: nat) {
    i <= |w| && AllAccepted(u, cls, w, i, |w|)
  }

  predicate Starts(w: string, prefix: string) { prefix <= w }

  /** The documented format of each carrier's numbers, in plain words. */
  predicate Shape(u: CharTable, c: Carrier, w: string) {
    match c
    case UPS => |w| == 18 && Starts(w, "1Z") && All(u, UpperOrDigit, w, 2)
    case AmazonLogistics => |w| == 15 && Starts(w, "TBA") && All(u, Digit, w, 3)
    case Cainiao => 16 <= |w| <= 22 && Starts(w, "LP") && All(u, Digit, w, 2)
    case YunExpress => 18 <= |w| <= 20 && Starts(w, "YT") && All(u, Digit, w, 2)
    case PostNL => 13 <= |w| <= 15 && Starts(w, "3S") && All(u, UpperOrDigit, w, 2)
    case DeutschePost => PostalShape(u, w, 'D', 'E')
    case RoyalMail => PostalShape(u, w, 'G', 'B')
    case USPS => (|w| == 22 || |w| == 26) && Starts(w, "9") && All(u, Digit, w, 1)
    case DPD => |w| == 14 && All(u, Digit, w, 0)
    case GLS => |w| == 11 && All(u, Digit, w, 0)
    case Hermes => (|w| == 14 && All(u, Digit, w, 0))
                || (|w| == 11 && 'A' <= w[0] <= 'Z' && All(u, Digit, w, 1))
    case DHL => (|w| == 10 || |w| == 12 || |w| == 20) && All(u, Digit, w, 0)
    case DHLExpress => |w| == 10 && All(u, Digit, w, 0)
    case FedEx => (|w| == 12 || |w| == 15 || |w| == 20) && All(u, Digit, w, 0)
  }

  /** Two capitals, nine digits, a country code. */
  predicate PostalShape(u: CharTable, w: string, x: char, y: char) {
    && |w| == 13
    && AllAccepted(u, Upper, w, 0, 2)
    && AllAccepted(u, Digit, w, 2, 11)
    && w[11] == x && w[12] == y
  }

  lemma CoreIsWordShaped(u: CharTable, c: Carrier)
    requires u.Valid()
    ensures WordShaped(u, Core(c))
  {
    assert WordClass(u, Digit) && WordClass(u, Upper) && WordClass(u, UpperOrDigit);
    match c
    case UPS => LitShaped(u, '1'); LitShaped(u, 'Z');
    case AmazonLogistics =>
      LitShaped(u, 'T'); LitShaped(u, 'B'); LitShaped(u, 'A');
      assert WordShaped(u, Cat(One(Lit('A')), Digits(12)));
    case Cainiao => LitShaped(u, 'L'); LitShaped(u, 'P');
    case YunExpress => LitShaped(u, 'Y'); LitShaped(u, 'T');
    case PostNL => LitShaped(u, '3'); LitShaped(u, 'S');
    case DeutschePost =>
      LitShaped(u, 'D'); LitShaped(u, 'E');
      assert WordShaped(u, Cat(One(Lit('D')), One(Lit('E'))));
    case RoyalMail =>
      LitShaped(u, 'G'); LitShaped(u, 'B');
      assert WordShaped(u, Cat(One(Lit('G')), One(Lit('B'))));
    case USPS => LitShaped(u, '9');
    case _ =>
      assert WordShaped(u, Digits(10)) && WordShaped(u, Digits(12)) && WordShaped(u, Digits(15)) && WordShaped(u, Digits(20));
  }

  lemma LitShaped(u: CharTable, k: char)
    requires u.Valid() && ('A' <= k <= 'Z' || '0' <= k <= '9')
    ensures WordShaped(u, One(Lit(k)))
  {
  }

  lemma PrefixThenRep(u: CharTable, prefix: string, cls: Class, lo: nat, hi: nat, w: string)
    requires |prefix| == 2
    ensures Matches(u, Cat(One(Lit(prefix[0])), Cat(One(Lit(prefix[1])), Rep(cls, lo, hi))), w, 0, |w|)
       <==> lo <= |w| - 2 <= hi && Starts(w, prefix) && All(u, cls, w, 2)
  {
    CatOne(u, Lit(prefix[0]), Cat(One(Lit(prefix[1])), Rep(cls, lo, hi)), w, 0, |w|);
    if |w| >= 1 { CatOne(u, Lit(prefix[1]), Rep(cls, lo, hi), w, 1, |w|); }
  }

  lemma PostalMatch(u: CharTable, x: char, y: char, w: string)
    ensures Matches(u, Cat(Rep(Upper, 2, 2), Cat(Digits(9), Cat(One(Lit(x)), One(Lit(y))))), w, 0, |w|)
       <==> PostalShape(u, w, x, y)
  {
    CatRep(u, Upper, 2, Cat(Digits(9), Cat(One(Lit(x)), One(Lit(y)))), w, 0, |w|);
    if |w| >= 2 { CatRep(u, Digit, 9, Cat(One(Lit(x)), One(Lit(y))), w, 2, |w|); }
    if |w| >= 11 { CatOne(u, Lit(x), One(Lit(y)), w, 11, |w|); }
  }

  lemma AmazonMatch(u: CharTable, w: string)
    ensures Matches(u, Core(AmazonLogistics), w, 0, |w|) <==> Shape(u, AmazonLogistics, w)
  {
    CatOne(u, Lit('T'), Cat(One(Lit('B')), Cat(One(Lit('A')), Digits(12))), w, 0, |w|);
    if |w| >= 1 { CatOne(u, Lit('B'), Cat(One(Lit('A')), Digits(12)), w, 1, |w|); }
    if |w| >= 2 { CatOne(u, Lit('A'), Digits(12), w, 2, |w|); }
  }

  lemma CoreMatch(u: CharTable, c: Carrier, w: string)
    ensures Matches(u, Core(c), w, 0, |w|) <==> Shape(u, c, w)
  {
    match c
    case UPS => PrefixThenRep(u, "1Z", UpperOrDigit, 16, 16, w);
    case Cainiao => PrefixThenRep(u, "LP", Digit, 14, 20, w);
    case YunExpress => PrefixThenRep(u, "YT", Digit, 16, 18, w);
    case PostNL => PrefixThenRep(u, "3S", UpperOrDigit, 11, 13, w);
    case DeutschePost => PostalMatch(u, 'D', 'E', w);
    case RoyalMail => PostalMatch(u, 'G', 'B', w);
    case AmazonLogistics => AmazonMatch(u, w);
    case USPS =>
      CatOne(u, Lit('9'), Digits(21), w, 0, |w|);
      CatOne(u, Lit('9'), Digits(25), w, 0, |w|);
    case Hermes =>
      CatRep(u, Upper, 1, Digits(10), w, 0, |w|);
    case DPD =>
    case GLS =>
    case DHL => OrMatch(u, Digits(10), Digits(20), w);
    case DHLExpress =>
    case FedEx => OrMatch(u, Digits(15), Digits(20), w);
  }

  lemma OrMatch(u: CharTable, a: Re, b: Re, w: string)
    ensures Matches(u, Or(a, b), w, 0, |w|) <==> Matches(u, a, w, 0, |w|) || Matches(u, b, w, 0, |w|)
  {
  }

  /** `fullmatch` of a carrier's pattern accepts exactly that carrier's documented format. */
  lemma FitsIffShape(u: CharTable, c: Carrier, w: string)
    requires u.Valid()
    ensures Fits(u, c, w) <==> Shape(u, c, w)
  {
    CoreIsWordShaped(u, c);
    WholeEnds(u, Core(c), w, 0, |w|);
    assert w[0..|w|] == w;
    EndsIffMatches(u, Pattern(c), w, 0, |w|);
    WholeMatches(u, Core(c), w, 0, |w|);
    CoreMatch(u, c, w);
    if Matches(u, Core(c), w, 0, |w|) { WordShapedMatch(u, Core(c), w, 0, |w|); }
  }

  /** What a number's form alone tells: its place in the order of trial, and whose number it is. */
  datatype Form = Form(place: nat, name: string)

  predicate DigitsFrom(u: CharTable, w: string, i: nat) {
    i <= |w| && forall k :: i <= k < |w| ==> w[k] in u.digit
  }

  predicate IsCapital(c: char) { 'A' <= c <= 'Z' }

  predicate CapitalsOrDigitsFrom(w: string, i: nat) {
    i <= |w| && forall k :: i <= k < |w| ==> IsCapital(w[k]) || '0' <= w[k] <= '9'
  }

  /** Two capitals, nine digits, a country code. */
  predicate PostalForm(u: CharTable, w: string, country: string) {
    |w| == 13 && IsCapital(w[0]) && IsCapital(w[1]) && (forall k :: 2 <= k < 11 ==> w[k] in u.digit) && w[11..] == country
  }

  /**
   The form of a number, with no order of trial: the lettered formats are mutually exclusive,
   and a bare digit string is told apart by its length alone.
   */
  function FormOf(u: CharTable, w: string): Option<Form> {
    var n := |w|;
    if DigitsFrom(u, w, 0) then
      if n == 14 then Some(Form(8, "DPD"))
      else if n == 11 then Some(Form(9, "GLS"))
      else if n == 10 || n == 12 || n == 20 then Some(Form(11, "DHL"))
      else if n == 15 then Some(Form(13, "FedEx"))
      else if (n == 22 || n == 26) && w[0] == '9' then Some(Form(7, "USPS"))
      else None
    else if n == 18 && "1Z" <= w && CapitalsOrDigitsFrom(w, 2) then Some(Form(0, "UPS"))
    else if n == 15 && "TBA" <= w && DigitsFrom(u, w, 3) then Some(Form(1, "Amazon Logistics"))
    else if 16 <= n <= 22 && "LP" <= w && DigitsFrom(u, w, 2) then Some(Form(2, "Cainiao"))
    else if 18 <= n <= 20 && "YT" <= w && DigitsFrom(u, w, 2) then Some(Form(3, "YunExpress"))
    else if 13 <= n <= 15 && "3S" <= w && CapitalsOrDigitsFrom(w, 2) then Some(Form(4, "PostNL"))
    else if PostalForm(u, w, "DE") then Some(Form(5, "Deutsche Post"))
    else if PostalForm(u, w, "GB") then Some(Form(6, "Royal Mail"))
    else if n == 11 && IsCapital(w[0]) && DigitsFrom(u, w, 1) then Some(Form(10, "Hermes"))
    else None
  }

  /** A carrier with a letter in its format; no two of these share a number, nor one with a digit string. */
  predicate Lettered(c: Carrier) {
    c in {UPS, AmazonLogistics, Cainiao, YunExpress, PostNL, DeutschePost, RoyalMail}
  }

  lemma LetteredIsExclusive(u: CharTable, c: Carrier, d: Carrier, w: string)
    requires u.Valid() && Lettered(c) && Shape(u, c, w) && Shape(u, d, w)
    ensures c == d
  {
    assert LetterOf(u, c, w);
    assert LetterOf(u, d, w);
  }

  /** The characters that tell a number's format. */
  predicate LetterOf(u: CharTable, c: Carrier, w: string) {
    match c
    case UPS => |w| >= 2 && w[0] == '1' && w[1] == 'Z'
    case AmazonLogistics => |w| >= 3 && w[0] == 'T' && w[1] == 'B' && w[2] == 'A'
    case Cainiao => |w| >= 2 && w[0] == 'L' && w[1] == 'P'
    case YunExpress => |w| >= 2 && w[0] == 'Y' && w[1] == 'T'
    case PostNL => |w| >= 2 && w[0] == '3' && w[1] == 'S'
    case DeutschePost => |w| == 13 && 'A' <= w[0] <= 'Z' && w[11] == 'D'
    case RoyalMail => |w| == 13 && 'A' <= w[0] <= 'Z' && w[11] == 'G'
    case Hermes => (|w| == 14 && All(u, Digit, w, 0)) || |w| == 11
    case _ => All(u, Digit, w, 0)
  }

  /** A lettered format in the words of `FormOf`. */
  lemma LetteredForm(u: CharTable, c: Carrier, w: string)
    requires Lettered(c) && Shape(u, c, w)
    ensures match c
            case UPS => |w| == 18 && "1Z" <= w && CapitalsOrDigitsFrom(w, 2)
            case AmazonLogistics => |w| == 15 && "TBA" <= w && DigitsFrom(u, w, 3)
            case Cainiao => 16 <= |w| <= 22 && "LP" <= w && DigitsFrom(u, w, 2)
            case YunExpress => 18 <= |w| <= 20 && "YT" <= w && DigitsFrom(u, w, 2)
            case PostNL => 13 <= |w| <= 15 && "3S" <= w && CapitalsOrDigitsFrom(w, 2)
            case DeutschePost => PostalForm(u, w, "DE")
            case RoyalMail => PostalForm(u, w, "GB")
            case _ => false
  {
    if c == DeutschePost || c == RoyalMail {
      assert Accepts(u, Upper, w[0]) && Accepts(u, Upper, w[1]);
      assert forall k :: 2 <= k < 11 ==> Accepts(u, Digit, w[k]);
    } else {
      assert forall k :: 0 <= k < |w| ==> Accepts(u, Digit, w[k]) ==> w[k] in u.digit;
    }
  }

  /** A form with letters is the format of a lettered carrier. */
  lemma FormIsLettered(u: CharTable, w: string) returns (c: Carrier)
    requires u.Valid() && !DigitsFrom(u, w, 0) && FormOf(u, w).Some?
    ensures Shape(u, c, w) && FormOf(u, w) == Some(Form(Rank(c), Name(c))) && (Lettered(c) || c == Hermes)
  {
    var place := FormOf(u, w).value.place;
    c := if place < |DETECTION_ORDER| then DETECTION_ORDER[place] else UPS;
  }

  /** What the ordered trial answers is the name that goes with the number's form. */
  lemma {:induction false} DetectIsForm(u: CharTable, w: string)
    requires u.Valid()
    ensures match DetectFrom(u, w, 0)
            case None => FormOf(u, w) == None
            case Some(c) => FormOf(u, w) == Some(Form(Rank(c), Name(c)))
  {
    forall c ensures Fits(u, c, w) <==> Shape(u, c, w) { FitsIffShape(u, c, w); }
    var r := DetectFrom(u, w, 0);
    if r == None {
      forall c ensures !Shape(u, c, w) { assert 0 <= Rank(c) ==> !Fits(u, c, w); }
      NoShapeNoForm(u, w);
    } else {
      assert Shape(u, r.value, w);
      forall c | Shape(u, c, w) ensures Rank(r.value) <= Rank(c) { assert Fits(u, c, w); }
      FirstShapeForm(u, r.value, w);
    }
  }

  lemma NoShapeNoForm(u: CharTable, w: string)
    requires u.Valid() && forall c :: !Shape(u, c, w)
    ensures FormOf(u, w) == None
  {
    if DigitsFrom(u, w, 0) {
      assert All(u, Digit, w, 0) && !Shape(u, DPD, w) && !Shape(u, GLS, w) && !Shape(u, DHL, w) && !Shape(u, FedEx, w) && !Shape(u, USPS, w);
    } else if FormOf(u, w).Some? {
      var c := FormIsLettered(u, w);
    }
  }

  lemma FirstShapeForm(u: CharTable, c: Carrier, w: string)
    requires u.Valid() && Shape(u, c, w) && forall d :: Shape(u, d, w) ==> Rank(c) <= Rank(d)
    ensures FormOf(u, w) == Some(Form(Rank(c), Name(c)))
  {
    if DigitsFrom(u, w, 0) {
      assert All(u, Digit, w, 0);
      assert LetterOf(u, c, w);
      assert Shape(u, DPD, w) ==> Rank(c) <= Rank(DPD);
      assert Shape(u, DHL, w) ==> Rank(c) <= Rank(DHL);
    } else if Lettered(c) {
      LetteredForm(u, c, w);
      var d := FormIsLettered(u, w);
      LetteredIsExclusive(u, c, d, w);
    } else {
      assert c == Hermes;
    }
  }

  /** "DHL Express" is never the answer: its ten digits always answer "DHL". */
  lemma {:induction false} NeverDhlExpress(u: CharTable, number: string)
    requires u.Valid()
    ensures DetectCarrier(u, number) != Some(DHLExpress)
  {
    DetectIsForm(u, Strip(u, number));
    NoSuchPlace(u, Strip(u, number));
  }

  lemma NoSuchPlace(u: CharTable, w: string)
    ensures FormOf(u, w).Some? ==> FormOf(u, w).value.place != 12
  {
  }

  const NAMES: set<string> := {
    "UPS", "Amazon Logistics", "Cainiao", "YunExpress", "PostNL", "Deutsche Post", "Royal Mail", "USPS", "DPD", "GLS", "Hermes", "DHL", "FedEx"
  }

  lemma FormNames(u: CharTable, w: string)
    requires FormOf(u, w).Some?
    ensures FormOf(u, w).value.name in NAMES
  {
  }

  lemma NameIsLine(u: CharTable, w: string)
    requires FormOf(u, w).Some?
    ensures '\n' !in FormOf(u, w).value.name && FormOf(u, w).value.name != ""
  {
    FormNames(u, w);
    assert forall name :: name in NAMES ==> '\n' !in name && name != "";
  }

  predicate AllSpace(u: CharTable, s: string) { forall k :: 0 <= k < |s| ==> s[k] in u.space }

  /** No white space at either end. */
  predicate Bare(u: CharTable, w: string) { w != "" ==> w[0] !in u.space && w[|w| - 1] !in u.space }

  lemma {:induction false} LStripDrops(u: CharTable, before: string, x: string)
    requires AllSpace(u, before) && (x != "" ==> x[0] !in u.space)
    ensures LStrip(u, before + x) == x
  {
    if before == "" {
      assert before + x == x;
    } else {
      LStripDrops(u, before[1..], x);
      assert (before + x)[1..] == before[1..] + x;
    }
  }

  lemma {:induction false} RStripDrops(u: CharTable, x: string, after: string)
    requires AllSpace(u, after) && (x != "" ==> x[|x| - 1] !in u.space)
    ensures RStrip(u, x + after) == x
    decreases |after|
  {
    if after == "" {
      assert x + after == x;
    } else {
      RStripDrops(u, x, after[..|after| - 1]);
      assert (x + after)[..|x + after| - 1] == x + after[..|after| - 1];
    }
  }

  lemma StripDrops(u: CharTable, before: string, w: string, after: string)
    requires AllSpace(u, before) && AllSpace(u, after) && Bare(u, w)
    ensures Strip(u, before + w + after) == w
  {
    if w == "" {
      assert before + w + after == before + after + "";
      LStripDrops(u, before + after, "");
    } else {
      assert before + w + after == before + (w + after);
      LStripDrops(u, before, w + after);
      RStripDrops(u, w, after);
    }
  }

  /**
   The name of every number, whatever white space is around it, is the one that goes with its
   form: DPD for fourteen digits, GLS for eleven, UPS for "1Z" with sixteen capitals or digits,
   and so on; and there is none for a number of any other form.
   */
  lemma NameByForm(u: CharTable, before: string, w: string, after: string)
    requires u.Valid() && AllSpace(u, before) && AllSpace(u, after) && Bare(u, w)
    ensures DetectedName(u, before + w + after) == match FormOf(u, w) case None => None case Some(f) => Some(f.name)
  {
    StripDrops(u, before, w, after);
    DetectIsForm(u, w);
  }

  /** A word carries no white space to strip. */
  lemma DetectWord(u: CharTable, w: string)
    requires u.Valid() && forall k :: 0 <= k < |w| ==> w[k] in u.word
    ensures DetectCarrier(u, w) == DetectFrom(u, w, 0)
    ensures match DetectCarrier(u, w)
            case None => FormOf(u, w) == None
            case Some(c) => FormOf(u, w) == Some(Form(Rank(c), Name(c)))
  {
    if w != "" { assert w[0] in u.word && w[|w| - 1] in u.word; }
    StripDrops(u, "", w, "");
    assert "" + w + "" == w;
    DetectIsForm(u, w);
  }
}
