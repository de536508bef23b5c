/** Shared vocabulary: an optional value, points in time, decimal numerals, distinct elements. */
module Prelude {

  datatype Option<+T> = None | Some(value: T)

  /** Microseconds in a day. */
  const DAY := 86_400_000_000

  /**
   A Python `datetime`: either without a zone, or a wall-clock reading together with
   its offset from UTC. Both are counted in microseconds.
   */
  datatype Stamp = Naive(local: int) | Aware(local: int, offset: int) {

    /** The instant, read as naive UTC. */
    function Utc(): int {
      if Naive? then local else local - offset
    }

    /** Whether the wall clock shows an instant of UTC, ahead of it by the offset. */
    predicate Shows(utc: int) {
      local == if Naive? then utc else utc + offset
    }

    /** The calendar day shown by the wall clock, counted from day zero. */
    function Date(): int {
      local / DAY
    }
  }

  function Max(a: int, b: int): int {
    if a < b then b else a
  }

  lemma Snoc<T>(xs: seq<T>)
    requires xs != []
    ensures xs[..|xs| - 1] + [xs[|xs| - 1]] == xs
  {
  }

  lemma Associates<T>(a: seq<T>, b: seq<T>, c: seq<T>)
    ensures a + b + c == a + (b + c)
  {
  }

  lemma NothingBefore<T>(nothing: seq<T>, xs: seq<T>)
    requires nothing == []
    ensures nothing + xs == xs
  {
  }

  predicate IsNumeral(s: string) { forall k :: 0 <= k < |s| ==> '0' <= s[k] <= '9' }

  function DigitChar(d: nat): (c: char)
    requires d < 10
    ensures '0' <= c <= '9' && (c - '0') as nat == d
  {
    '0' + d as char
  }

  /** The shortest decimal numeral of `m`. */
  function Numeral(m: nat): (s: string)
    ensures s != "" && IsNumeral(s)
  {
    if m < 10 then [DigitChar(m)] else Numeral(m / 10) + [DigitChar(m % 10)]
  }

  predicate Distinct<T(==)>(xs: seq<T>) {
    forall i, j :: 0 <= i < j < |xs| ==> xs[i] != xs[j]
  }
}
