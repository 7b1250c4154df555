/** A stand-in for `new Date(text)` as the handler uses it on the `data`
    field: the ISO calendar-date form `YYYY-MM-DD` gives a date, anything
    else gives an invalid date (`None`). */
module Dates {
  import opened Wrappers
  import opened Decimal

  datatype Date = Date(year: nat, month: nat, day: nat)

  predicate IsLeapYear(year: nat)
  {
    year % 4 == 0 && (year % 100 != 0 || year % 400 == 0)
  }

  function DaysInMonth(year: nat, month: nat): (n: nat)
    requires 1 <= month <= 12
    ensures 28 <= n <= 31
  {
    if month == 2 then (if IsLeapYear(year) then 29 else 28)
    else if month == 4 || month == 6 || month == 9 || month == 11 then 30
    else 31
  }

  /** A day that exists in the proleptic Gregorian calendar and has a four-digit year. */
  predicate IsCalendarDate(d: Date)
  {
    d.year < 10000 && 1 <= d.month <= 12 && 1 <= d.day <= DaysInMonth(d.year, d.month)
  }

  /** Digits in positions 0-3, 5-6 and 8-9, dashes in positions 4 and 7. */
  predicate IsIsoDateShape(s: string)
  {
    |s| == 10 && AllDigits(s[..4]) && s[4] == '-' && AllDigits(s[5..7]) && s[7] == '-' && AllDigits(s[8..])
  }

  function ParseDate(s: string): (r: Option<Date>)
    ensures r.Some? ==> IsCalendarDate(r.value)
    ensures !IsIsoDateShape(s) ==> r == None
  {
    if IsIsoDateShape(s) then
      var d := Date(DigitsValue(s[..4]), DigitsValue(s[5..7]), DigitsValue(s[8..]));
      if IsCalendarDate(d) then Some(d) else None
    else None
  }

  /** The ISO text of a date, zero-padded: `2025-09-20`. */
  function FormatDate(d: Date): (s: string)
    requires IsCalendarDate(d)
    ensures IsIsoDateShape(s)
  {
    var s := Digits(d.year, 4) + "-" + Digits(d.month, 2) + "-" + Digits(d.day, 2);
    assert s[..4] == Digits(d.year, 4) && s[5..7] == Digits(d.month, 2) && s[8..] == Digits(d.day, 2);
    s
  }

  lemma ParseFormatted(d: Date)
    requires IsCalendarDate(d)
    ensures ParseDate(FormatDate(d)) == Some(d)
  {
    var s := FormatDate(d);
    assert s[..4] == Digits(d.year, 4) && s[5..7] == Digits(d.month, 2) && s[8..] == Digits(d.day, 2);
    assert Pow10(2) == 100 && Pow10(4) == 10000;
    DigitsRoundTrip(d.year, 4);
    DigitsRoundTrip(d.month, 2);
    DigitsRoundTrip(d.day, 2);
  }

  lemma FormatParsed(s: string)
    requires ParseDate(s).Some?
    ensures FormatDate(ParseDate(s).value) == s
  {
    ValueRoundTrip(s[..4]);
    ValueRoundTrip(s[5..7]);
    ValueRoundTrip(s[8..]);
    assert s == s[..4] + "-" + s[5..7] + "-" + s[8..];
  }

  /** In this stand-in for `new Date`, the accepted text and the dates it yields
      are in one-to-one correspondence: a string parses to `d` exactly when it
      is `d` written out as `YYYY-MM-DD`. */
  lemma {:induction false} ParseDateIffFormatted(s: string, d: Date)
    ensures ParseDate(s) == Some(d) <==> IsCalendarDate(d) && s == FormatDate(d)
  {
    if ParseDate(s) == Some(d) {
      FormatParsed(s);
    }
    if IsCalendarDate(d) && s == FormatDate(d) {
      ParseFormatted(d);
    }
  }
}
