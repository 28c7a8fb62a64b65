/**
 * Timestamps as the timer code uses Go's `time.Time`: an ordered instant with
 * a distinguished zero value, `Before`, `After`, `IsZero`, the calendar day of
 * an instant, and a textual layout that `Format` writes and `Parse` reads.
 *
 * An instant is a whole number of seconds since Go's zero time (January 1 of
 * year 1, 00:00:00 UTC), so the zero value is `Time(0)`. The RFC 3339 layout
 * (section 5.6 of RFC 3339) is stood in for by a signed decimal count of
 * seconds: like RFC 3339 text it is one white-space free word, and `Parse`
 * inverts `Format`, which is all the timer.txt codec depends on.
 */
module Timestamps {
  import opened Wrappers
  import opened Strings

  datatype Time = Time(seconds: int)

  /** `time.Time{}`: the value `IsZero` recognises and that `Reopen` restores. */
  const Zero: Time := Time(0)

  const SecondsPerDay: int := 86400

  predicate IsZero(t: Time) {
    t.seconds == 0
  }

  predicate Before(a: Time, b: Time) {
    a.seconds < b.seconds
  }

  predicate After(a: Time, b: Time) {
    a.seconds > b.seconds
  }

  /** Number of the calendar day an instant falls on (only its identity matters). */
  function DayOf(t: Time): int {
    t.seconds / SecondsPerDay
  }

  /** Later instants never fall on earlier days. */
  lemma DayOfMonotone(a: Time, b: Time)
    requires !After(a, b)
    ensures DayOf(a) <= DayOf(b)
  {
    var da, db := DayOf(a), DayOf(b);
    assert a.seconds == da * SecondsPerDay + a.seconds % SecondsPerDay;
    assert b.seconds == db * SecondsPerDay + b.seconds % SecondsPerDay;
  }

  predicate IsDigit(c: char) {
    '0' <= c <= '9'
  }

  predicate AllDigits(s: string) {
    forall i :: 0 <= i < |s| ==> IsDigit(s[i])
  }

  function DigitChar(d: nat): (c: char)
    requires d < 10
    ensures IsDigit(c) && c as int - '0' as int == d
  {
    ('0' as int + d) as char
  }

  /** Decimal digits of `n`, most significant first, without leading zeros. */
  function Digits(n: nat): (s: string)
    ensures s != [] && AllDigits(s)
  {
    if n < 10 then [DigitChar(n)] else Digits(n / 10) + [DigitChar(n % 10)]
  }

  /** The number a string of decimal digits denotes. */
  function DigitsValue(s: string): nat
    requires AllDigits(s)
  {
    if s == [] then 0 else DigitsValue(s[..|s| - 1]) * 10 + (s[|s| - 1] as int - '0' as int)
  }

  lemma {:induction false} DigitsValueOfDigits(n: nat)
    ensures DigitsValue(Digits(n)) == n
  {
    if n >= 10 {
      var s := Digits(n);
      assert s[..|s| - 1] == Digits(n / 10);
      DigitsValueOfDigits(n / 10);
    }
  }

  /** The timestamp layout used for both writing and reading dates. */
  function Format(t: Time): (s: string)
    ensures IsToken(s)
    ensures s[0] != 'x'
  {
    if t.seconds < 0 then "-" + Digits(-t.seconds) else Digits(t.seconds)
  }

  /** Reads a timestamp, or fails on text that is not in the layout. */
  function Parse(s: string): (r: Option<Time>)
    ensures r.Some? ==> IsToken(s)
  {
    if s != [] && AllDigits(s) then Some(Time(DigitsValue(s)))
    else if |s| > 1 && s[0] == '-' && AllDigits(s[1..]) then Some(Time(0 - DigitsValue(s[1..])))
    else None
  }

  /** Reading back a written timestamp gives the same instant. */
  lemma ParseFormat(t: Time)
    ensures Parse(Format(t)) == Some(t)
  {
    if t.seconds < 0 {
      var s := Format(t);
      assert s[1..] == Digits(-t.seconds);
      DigitsValueOfDigits(-t.seconds);
    } else {
      DigitsValueOfDigits(t.seconds);
    }
  }

  /** The completion marker `x` is never read as a timestamp. */
  lemma MarkerIsNotATime()
    ensures Parse("x") == None
  {
  }
}
