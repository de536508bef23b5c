/** `OrderRepository.monthly_counts_for_user`: orders per calendar month, keyed by "YYYY-MM". */
module Calendar {
  import opened Prelude

  /** A calendar month. */
  datatype Month = Month(year: int, month: int) {
    predicate Valid() { 1 <= year <= 9999 && 1 <= month <= 12 }

    /** Months since the start of year zero. */
    function Ordinal(): int { year * 12 + month - 1 }

    function Next(): Month { if month == 12 then Month(year + 1, 1) else Month(year, month + 1) }
  }

  function MonthAt(ordinal: int): Month { Month(ordinal / 12, ordinal % 12 + 1) }

  /** A date with a time of day, in microseconds. */
  datatype Moment = Moment(month: Month, day: int, time: int) {
    predicate Valid() { month.Valid() && day >= 1 && time >= 0 }

    /** Whether it is not before midnight at the start of a month. */
    predicate OnOrAfter(m: Month) {
      || month.year > m.year
      || (month.year == m.year && month.month > m.month)
      || (month == m && (day > 1 || (day == 1 && time >= 0)))
    }
  }

  datatype Placed = Placed(userId: nat, createdAt: Moment)

  /** A dictionary in insertion order. */
  type Counts = seq<(string, nat)>

  // ---------------------------------------------------------------- labels

  function Zeros(n: nat): string {
    if n == 0 then "" else "0" + Zeros(n - 1)
  }

  /** Python's `{n:0{width}d}`. */
  function ZeroPadded(n: int, width: nat): string {
    var sign, body := if n < 0 then "-" else "", Numeral(if n < 0 then -n else n);
    sign + Zeros(if |sign| + |body| < width then width - |sign| - |body| else 0) + body
  }

  function Label(m: Month): string { ZeroPadded(m.year, 4) + "-" + ZeroPadded(m.month, 2) }

  /** Python's order on strings. */
  predicate Less(a: string, b: string) {
    b != "" && (a == "" || a[0] < b[0] || (a[0] == b[0] && Less(a[1..], b[1..])))
  }

  function Two(n: nat): string
    requires n < 100
  {
    [DigitChar(n / 10), DigitChar(n % 10)]
  }

  function Four(n: nat): string
    requires n < 10000
  {
    [DigitChar(n / 1000), DigitChar(n / 100 % 10), DigitChar(n / 10 % 10), DigitChar(n % 10)]
  }

  lemma PaddedToTwo(n: nat)
    requires n < 100
    ensures ZeroPadded(n, 2) == Two(n)
  {
    assert Zeros(0) == "" && Zeros(1) == "0";
    if n >= 10 { assert Numeral(n) == Numeral(n / 10) + [DigitChar(n % 10)]; }
  }

  lemma NumeralDigits(n: nat)
    requires n < 10000
    ensures Numeral(n) == (if n >= 1000 then [DigitChar(n / 1000)] else []) + (if n >= 100 then [DigitChar(n / 100 % 10)] else [])
                        + (if n >= 10 then [DigitChar(n / 10 % 10)] else []) + [DigitChar(n % 10)]
  {
    assert n / 10 / 10 == n / 100 && n / 100 / 10 == n / 1000;
    if n >= 1000 {
      assert Numeral(n / 1000) == [DigitChar(n / 1000)];
    }
    if n >= 100 {
      assert Numeral(n / 100) == (if n >= 1000 then [DigitChar(n / 1000)] else []) + [DigitChar(n / 100 % 10)];
    }
    if n >= 10 {
      assert Numeral(n / 10) == (if n >= 100 then Numeral(n / 100) else []) + [DigitChar(n / 10 % 10)];
    }
  }

  lemma PaddedToFour(n: nat)
    requires n < 10000
    ensures ZeroPadded(n, 4) == Four(n)
  {
    NumeralDigits(n);
    assert Zeros(0) == "" && Zeros(1) == "0" && Zeros(2) == "00" && Zeros(3) == "000";
  }

  lemma {:induction false} LessAt(a: string, b: string, k: nat)
    requires k < |a| && k < |b| && a[..k] == b[..k] && a[k] < b[k]
    ensures Less(a, b)
    decreases k
  {
    if k > 0 {
      assert a[0] == a[..k][0] == b[0];
      assert a[1..][..k - 1] == a[..k][1..] == b[1..][..k - 1];
      LessAt(a[1..], b[1..], k - 1);
    }
  }

  lemma TenthsFollow(a: nat, b: nat)
    requires a <= b
    ensures a / 10 <= b / 10 && (a / 10 == b / 10 && a < b ==> a % 10 < b % 10)
  {
  }

  lemma Tenths(n: nat)
    ensures n / 10 / 10 == n / 100 && n / 100 / 10 == n / 1000
  {
  }

  lemma TwoFollows(a: nat, b: nat) returns (k: nat)
    requires a < b < 100
    ensures k < 2 && Two(a)[..k] == Two(b)[..k] && Two(a)[k] < Two(b)[k]
  {
    TenthsFollow(a, b);
    k := if a / 10 < b / 10 then 0 else 1;
  }

  lemma FourFollows(a: nat, b: nat) returns (k: nat)
    requires a < b < 10000
    ensures k < 4 && Four(a)[..k] == Four(b)[..k] && Four(a)[k] < Four(b)[k]
  {
    TenthsFollow(a, b);
    TenthsFollow(a / 10, b / 10);
    TenthsFollow(a / 100, b / 100);
    Tenths(a);
    Tenths(b);
    k := if a / 1000 < b / 1000 then 0 else if a / 100 < b / 100 then 1 else if a / 10 < b / 10 then 2 else 3;
  }

  lemma LabelParts(m: Month)
    requires m.Valid()
    ensures Label(m) == Four(m.year) + "-" + Two(m.month)
  {
    PaddedToFour(m.year);
    PaddedToTwo(m.month);
  }

  lemma EarlierYear(y: nat, z: nat, s: string, t: string)
    requires y < z < 10000
    ensures Less(Four(y) + "-" + s, Four(z) + "-" + t) && Four(y) + "-" + s != Four(z) + "-" + t
  {
    var k := FourFollows(y, z);
    assert Four(y) + "-" + s == Four(y) + ("-" + s) && Four(z) + "-" + t == Four(z) + ("-" + t);
    DiffersAt(Four(y), "-" + s, Four(z), "-" + t, k);
  }

  /** The order of the labels as strings is the order of the months in time. */
  lemma LabelsFollowTime(a: Month, b: Month)
    requires a.Valid() && b.Valid() && a.Ordinal() < b.Ordinal()
    ensures Less(Label(a), Label(b)) && Label(a) != Label(b)
  {
    LabelParts(a);
    LabelParts(b);
    if a.year < b.year {
      EarlierYear(a.year, b.year, Two(a.month), Two(b.month));
    } else {
      var k := TwoFollows(a.month, b.month);
      LessAt(Two(a.month), Two(b.month), k);
      LessBehind(Four(a.year) + "-", Two(a.month), Two(b.month));
    }
  }

  lemma DiffersAt(a: string, x: string, b: string, y: string, k: nat)
    requires k < |a| && k < |b| && a[..k] == b[..k] && a[k] < b[k]
    ensures Less(a + x, b + y) && a + x != b + y
  {
    assert (a + x)[..k] == a[..k] && (b + y)[..k] == b[..k] && (a + x)[k] == a[k] && (b + y)[k] == b[k];
    LessAt(a + x, b + y, k);
  }

  lemma {:induction false} LessBehind(prefix: string, a: string, b: string)
    requires Less(a, b) && a != b
    ensures Less(prefix + a, prefix + b) && prefix + a != prefix + b
  {
    if prefix == "" {
      assert prefix + a == a && prefix + b == b;
    } else {
      LessBehind(prefix[1..], a, b);
      assert (prefix + a)[1..] == prefix[1..] + a && (prefix + b)[1..] == prefix[1..] + b;
    }
  }

  lemma LabelsDiffer(a: Month, b: Month)
    requires a.Valid() && b.Valid()
    ensures Label(a) == Label(b) <==> a == b
  {
    if a.Ordinal() < b.Ordinal() { LabelsFollowTime(a, b); }
    if b.Ordinal() < a.Ordinal() { LabelsFollowTime(b, a); }
  }

  // ---------------------------------------------------------------- the reference: one count per month

  /** The user's orders created in a month. */
  function CountIn(orders: seq<Placed>, user: nat, m: Month): nat {
    if orders == [] then 0
    else
      var o := orders[|orders| - 1];
      CountIn(orders[..|orders| - 1], user, m) + (if o.userId == user && o.createdAt.month == m then 1 else 0)
  }

  /** One entry for each month. */
  function Tally(orders: seq<Placed>, user: nat, ms: seq<Month>): (r: Counts)
    ensures |r| == |ms|
    ensures forall i :: 0 <= i < |ms| ==> r[i] == (Label(ms[i]), CountIn(orders, user, ms[i]))
  {
    seq(|ms|, i requires 0 <= i < |ms| => (Label(ms[i]), CountIn(orders, user, ms[i])))
  }

  predicate AllValid(orders: seq<Placed>) {
    forall k :: 0 <= k < |orders| ==> orders[k].createdAt.Valid()
  }

  function FirstOrdinal(today: Month, months: int): int { today.Ordinal() - (months - 1) }

  /** The months from an ordinal on. */
  function MonthsFrom(first: int, n: nat): (ms: seq<Month>)
    ensures |ms| == n && forall i :: 0 <= i < n ==> ms[i] == MonthAt(first + i)
  {
    seq(n, i requires 0 <= i < n => MonthAt(first + i))
  }

  predicate Window(ms: seq<Month>, first: int) {
    forall i :: 0 <= i < |ms| ==> ms[i].Valid() && ms[i].Ordinal() == first + i
  }

  lemma MonthAtIs(ordinal: int)
    ensures MonthAt(ordinal).Valid() <==> 12 <= ordinal < 120000
    ensures MonthAt(ordinal).Ordinal() == ordinal && MonthAt(ordinal + 1) == MonthAt(ordinal).Next()
  {
  }

  lemma MonthsAreWindow(first: int, n: nat)
    requires 12 <= first && first + n <= 120000
    ensures Window(MonthsFrom(first, n), first)
  {
    forall i | 0 <= i < n ensures MonthsFrom(first, n)[i].Valid() && MonthsFrom(first, n)[i].Ordinal() == first + i {
      MonthAtIs(first + i);
    }
  }

  lemma SameMonth(a: Month, b: Month)
    requires a.Valid() && b.Valid()
    ensures a.Ordinal() == b.Ordinal() <==> a == b
    ensures Label(a) == Label(b) <==> a == b
  {
    LabelsDiffer(a, b);
  }

  // ---------------------------------------------------------------- the method

  /** The position of a key, or the length. */
  function Position(counts: Counts, key: string): (i: nat)
    ensures i <= |counts| && (i < |counts| ==> counts[i].0 == key)
    ensures forall k :: 0 <= k < i ==> counts[k].0 != key
  {
    if counts == [] then 0
    else
      var i := Position(counts[..|counts| - 1], key);
      if i < |counts| - 1 || counts[|counts| - 1].0 == key then i else |counts|
  }

  /** `counts[key] = value` */
  function Assign(counts: Counts, key: string, value: nat): Counts {
    var i := Position(counts, key);
    if i < |counts| then counts[i := (key, value)] else counts + [(key, value)]
  }

  /** `if key in counts: counts[key] += 1` */
  function Bump(counts: Counts, key: string): Counts {
    var i := Position(counts, key);
    if i < |counts| then counts[i := (counts[i].0, counts[i].1 + 1)] else counts
  }

  /** None stands for the `ValueError` of a first month outside the years 1 to 9999. */
  method MonthlyCounts(orders: seq<Placed>, user: nat, months: int, today: Month) returns (result: Option<Counts>)
    requires today.Valid() && AllValid(orders)
    ensures var first := FirstOrdinal(today, months);
            result == if MonthAt(first).Valid() then Some(Tally(orders, user, MonthsFrom(first, if months < 0 then 0 else months))) else None
  {
    var first := today.year * 12 + (today.month - 1) - (months - 1);
    MonthAtIs(first);
    var counts := EmptyBuckets(user, first, months);
    var start := MonthAt(first);
    if start.year < 1 || start.year > 9999 { return None; }

    ghost var ms := MonthsFrom(first, if months < 0 then 0 else months);
    MonthsAreWindow(first, |ms|);
    counts := Bucket(counts, orders, user, start, ms);
    result := Some(counts);
  }

  /** The loop that gives every month of the window a zero, in order. */
  method EmptyBuckets(ghost user: nat, first: int, months: int) returns (counts: Counts)
    requires first + months <= 120000
    ensures first >= 12 ==> counts == Tally([], user, MonthsFrom(first, if months < 0 then 0 else months))
  {
    counts := [];
    var offset := 0;
    while offset < months
      invariant 0 <= offset && (offset <= months || offset == 0)
      invariant first >= 12 ==> counts == Tally([], user, MonthsFrom(first, offset))
    {
      if first >= 12 { NewKey(user, first, offset); }
      counts := Assign(counts, Label(MonthAt(first + offset)), 0);
      offset := offset + 1;
    }
  }

  /** The loop over the orders from the start of the window on. */
  method Bucket(zeros: Counts, orders: seq<Placed>, user: nat, start: Month, ghost ms: seq<Month>) returns (counts: Counts)
    requires AllValid(orders) && start.Valid() && Window(ms, start.Ordinal()) && zeros == Tally([], user, ms)
    ensures counts == Tally(orders, user, ms)
  {
    counts := zeros;
    for k := 0 to |orders|
      invariant counts == Tally(orders[..k], user, ms)
    {
      var o := orders[k];
      Count(orders, user, ms, start, k);
      if o.userId == user && o.createdAt.OnOrAfter(start) { counts := Bump(counts, Label(o.createdAt.month)); }
    }
    assert orders[..|orders|] == orders;
  }

  /** Each month of the window gets its own key. */
  lemma NewKey(user: nat, first: int, offset: nat)
    requires first >= 12 && first + offset < 120000
    ensures Assign(Tally([], user, MonthsFrom(first, offset)), Label(MonthAt(first + offset)), 0)
         == Tally([], user, MonthsFrom(first, offset + 1))
  {
    var ms, m := MonthsFrom(first, offset), MonthAt(first + offset);
    MonthsAreWindow(first, offset + 1);
    assert MonthsFrom(first, offset + 1) == ms + [m];
    NewLabel(user, ms, first, m);
  }

  lemma NewLabel(user: nat, ms: seq<Month>, first: int, m: Month)
    requires Window(ms, first) && m.Valid() && m.Ordinal() == first + |ms|
    ensures Assign(Tally([], user, ms), Label(m), 0) == Tally([], user, ms + [m])
  {
    var counts := Tally([], user, ms);
    forall i | 0 <= i < |counts| ensures counts[i].0 != Label(m) { SameMonth(ms[i], m); }
  }

  predicate Affects(o: Placed, user: nat, first: int, n: nat) {
    o.userId == user && first <= o.createdAt.month.Ordinal() < first + n
  }

  /** An order adds one to the entry of its month if that is in the window, and nothing otherwise. */
  lemma Count(orders: seq<Placed>, user: nat, ms: seq<Month>, start: Month, k: nat)
    requires AllValid(orders) && k < |orders| && start.Valid() && Window(ms, start.Ordinal())
    ensures var o, counts := orders[k], Tally(orders[..k], user, ms);
            Tally(orders[..k + 1], user, ms)
            == if o.userId == user && o.createdAt.OnOrAfter(start) then Bump(counts, Label(o.createdAt.month)) else counts
  {
    var o, counts, first := orders[k], Tally(orders[..k], user, ms), start.Ordinal();
    var m := o.createdAt.month;
    var i := m.Ordinal() - first;
    forall j | 0 <= j < |ms|
      ensures counts[j].0 == Label(m) <==> j == i
      ensures CountIn(orders[..k + 1], user, ms[j]) == counts[j].1 + (if o.userId == user && j == i then 1 else 0)
    {
      SameMonth(ms[j], m);
      CountNext(orders, user, ms[j], k);
    }
    if 0 <= i < |ms| { assert counts[i].0 == Label(m); }
    StartsAt(o.createdAt, start);
    BumpAt(counts, Label(m), i, Tally(orders[..k + 1], user, ms), o.userId == user);
  }

  lemma CountNext(orders: seq<Placed>, user: nat, m: Month, k: nat)
    requires k < |orders|
    ensures CountIn(orders[..k + 1], user, m)
         == CountIn(orders[..k], user, m) + (if orders[k].userId == user && orders[k].createdAt.month == m then 1 else 0)
  {
    assert orders[..k + 1][..k] == orders[..k];
  }

  lemma StartsAt(at: Moment, start: Month)
    requires at.Valid() && start.Valid()
    ensures at.OnOrAfter(start) <==> start.Ordinal() <= at.month.Ordinal()
  {
  }

  /** Counts whose only entry for the key is the `i`-th, if there is one, against the same with one more there. */
  lemma BumpAt(counts: Counts, key: string, i: int, more: Counts, own: bool)
    requires |more| == |counts| && forall j :: 0 <= j < |counts| ==> more[j].0 == counts[j].0
    requires forall j :: 0 <= j < |counts| ==> (counts[j].0 == key <==> j == i)
    requires forall j :: 0 <= j < |counts| ==> more[j].1 == counts[j].1 + (if own && j == i then 1 else 0)
    ensures more == if own && i >= 0 then Bump(counts, key) else counts
  {
    var p := Position(counts, key);
    if 0 <= i < |counts| { assert counts[i].0 == key && p == i; }
  }

  // ---------------------------------------------------------------- what the result means

  function Sum(counts: Counts): nat {
    if counts == [] then 0 else Sum(counts[..|counts| - 1]) + counts[|counts| - 1].1
  }

  /** The user's orders created in `n` months from an ordinal on. */
  function CountWithin(orders: seq<Placed>, user: nat, first: int, n: nat): nat {
    if orders == [] then 0
    else
      var before := CountWithin(orders[..|orders| - 1], user, first, n);
      if Affects(orders[|orders| - 1], user, first, n) then before + 1 else before
  }

  lemma {:induction false} WithinOneMore(orders: seq<Placed>, user: nat, first: int, n: nat, m: Month)
    requires AllValid(orders) && m.Valid() && m.Ordinal() == first + n
    ensures CountWithin(orders, user, first, n + 1) == CountWithin(orders, user, first, n) + CountIn(orders, user, m)
    decreases |orders|
  {
    if orders != [] {
      SameMonth(orders[|orders| - 1].createdAt.month, m);
      WithinOneMore(orders[..|orders| - 1], user, first, n, m);
    }
  }

  lemma {:induction false} NoneWithin(orders: seq<Placed>, user: nat, first: int)
    ensures CountWithin(orders, user, first, 0) == 0
    decreases |orders|
  {
    if orders != [] { NoneWithin(orders[..|orders| - 1], user, first); }
  }

  lemma {:induction false} SumIsWithin(orders: seq<Placed>, user: nat, ms: seq<Month>, first: int)
    requires AllValid(orders) && Window(ms, first)
    ensures Sum(Tally(orders, user, ms)) == CountWithin(orders, user, first, |ms|)
    decreases |ms|
  {
    if ms == [] {
      NoneWithin(orders, user, first);
    } else {
      var before, m := ms[..|ms| - 1], ms[|ms| - 1];
      SumIsWithin(orders, user, before, first);
      WithinOneMore(orders, user, first, |before|, m);
      assert Tally(orders, user, ms)[..|before|] == Tally(orders, user, before);
    }
  }

  /**
   For a positive number of months that does not reach back before year 1, the result has an
   entry per month: consecutive months, the last the current one, labels in the order of time,
   each with the user's orders of that month, and together all the user's orders in the window.
   */
  lemma {:induction false} BucketsAreMonths(orders: seq<Placed>, user: nat, months: nat, today: Month, first: int, ms: seq<Month>, counts: Counts)
    requires today.Valid() && AllValid(orders) && months >= 1 && first == FirstOrdinal(today, months) && MonthAt(first).Valid()
    requires ms == MonthsFrom(first, months) && counts == Tally(orders, user, ms)
    ensures |ms| == |counts| == months && ms[months - 1] == today
    ensures forall i :: 0 < i < months ==> ms[i] == ms[i - 1].Next()
    ensures forall i :: 0 <= i < months ==> counts[i] == (Label(ms[i]), CountIn(orders, user, ms[i]))
    ensures forall i, j :: 0 <= i < j < months ==> Less(counts[i].0, counts[j].0) && counts[i].0 != counts[j].0
    ensures Sum(counts) == CountWithin(orders, user, first, months)
  {
    MonthAtIs(first);
    MonthsAreWindow(first, months);
    SumIsWithin(orders, user, ms, first);
    SameMonth(ms[months - 1], today);
    forall i | 0 < i < months ensures ms[i] == ms[i - 1].Next() { MonthAtIs(first + i - 1); }
    LabelsAscend(orders, user, ms, first);
  }

  lemma LabelsAscend(orders: seq<Placed>, user: nat, ms: seq<Month>, first: int)
    requires Window(ms, first)
    ensures var counts := Tally(orders, user, ms);
            forall i, j :: 0 <= i < j < |ms| ==> Less(counts[i].0, counts[j].0) && counts[i].0 != counts[j].0
  {
    var counts := Tally(orders, user, ms);
    forall i, j | 0 <= i < j < |ms| ensures Less(counts[i].0, counts[j].0) && counts[i].0 != counts[j].0 {
      LabelsFollowTime(ms[i], ms[j]);
    }
  }
}
