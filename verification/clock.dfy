/** A reading of the server clock, `new Date()`, and its rendering by
    `Date.prototype.toISOString()`. */
module Clock {
  import opened Text

  /** A UTC instant, broken into calendar fields. */
  datatype Instant = Instant(year: int, month: int, day: int,
                             hour: int, minute: int, second: int, millis: int)

  predicate IsLeapYear(y: int) {
    (y % 4 == 0 && y % 100 != 0) || y % 400 == 0
  }

  function DaysInMonth(y: int, m: int): int
    requires 1 <= m <= 12
  {
    if m == 2 then (if IsLeapYear(y) then 29 else 28)
    else if m == 4 || m == 6 || m == 9 || m == 11 then 30
    else 31
  }

  /** A calendar-correct instant whose year the ISO format can write (at most
      six digits); every JavaScript `Date` lies in this range. */
  predicate Valid(t: Instant) {
    && -999999 <= t.year <= 999999
    && 1 <= t.month <= 12
    && 1 <= t.day <= DaysInMonth(t.year, t.month)
    && 0 <= t.hour < 24 && 0 <= t.minute < 60 && 0 <= t.second < 60
    && 0 <= t.millis < 1000
  }

  /** Years 0 to 9999 are written with four digits; any other year with a
      sign and six digits. */
  function YearText(y: int): (r: string)
    requires -999999 <= y <= 999999
    ensures |r| == (if 0 <= y <= 9999 then 4 else 7)
  {
    if 0 <= y <= 9999 then Padded(y, 4)
    else if y < 0 then "-" + Padded(-y, 6)
    else "+" + Padded(y, 6)
  }

  /** The date half of the ISO text: `YYYY-MM-DD`, or `±YYYYYY-MM-DD`. */
  function CalendarDate(t: Instant): (r: string)
    requires Valid(t)
    ensures |r| == |YearText(t.year)| + 6
  {
    YearText(t.year) + "-" + Padded(t.month, 2) + "-" + Padded(t.day, 2)
  }

  /** The time half of the ISO text: `THH:mm:ss.sssZ`. */
  function TimeOfDay(t: Instant): (r: string)
    requires Valid(t)
    ensures |r| == 14 && r[0] == 'T' && r[13] == 'Z'
  {
    "T" + Padded(t.hour, 2) + ":" + Padded(t.minute, 2) + ":" + Padded(t.second, 2)
    + "." + Padded(t.millis, 3) + "Z"
  }

  /** `toISOString()`: `YYYY-MM-DDTHH:mm:ss.sssZ`. */
  function ToIso(t: Instant): (r: string)
    requires Valid(t)
    ensures |r| == |YearText(t.year)| + 20
    ensures r[|r| - 1] == 'Z'
  {
    CalendarDate(t) + TimeOfDay(t)
  }

  /** `toISOString().slice(0, 10)`. */
  function IsoPrefix(t: Instant): (r: string)
    requires Valid(t)
    ensures |r| == 10
    ensures 0 <= t.year <= 9999 ==> r == CalendarDate(t)
  {
    var date := CalendarDate(t);
    assert (date + TimeOfDay(t))[..|date|] == date;
    ToIso(t)[..10]
  }

  /** For four-digit years the first ten characters of the ISO text are the
      whole calendar date; for other years they cut it short. */
  lemma IsoPrefixIsDate(t: Instant)
    requires Valid(t)
    ensures IsoPrefix(t) == CalendarDate(t) <==> 0 <= t.year <= 9999
  {
    var date := CalendarDate(t);
    assert (date + TimeOfDay(t))[..|date|] == date;
  }

  /** A year outside 0 to 9999 is its sign followed by six digits. */
  lemma SignedYearText(y: int)
    requires -999999 <= y <= 999999 && !(0 <= y <= 9999)
    ensures YearText(y)[0] == (if y < 0 then '-' else '+')
    ensures YearText(y)[1..] == Padded(if y < 0 then -y else y, 6)
  {
  }

  /** Distinct years are written differently. */
  lemma YearTextInjective(x: int, y: int)
    requires -999999 <= x <= 999999 && -999999 <= y <= 999999
    ensures YearText(x) == YearText(y) <==> x == y
  {
    if YearText(x) == YearText(y) {
      if 0 <= x <= 9999 {
        PaddedInjective(x, y, 4);
      } else {
        SignedYearText(x);
        SignedYearText(y);
        PaddedInjective(if x < 0 then -x else x, if y < 0 then -y else y, 6);
      }
    }
  }

  predicate SameDay(s: Instant, t: Instant) {
    s.year == t.year && s.month == t.month && s.day == t.day
  }

  /** The three fields can be read back from their places in the date text. */
  lemma CalendarDateParts(t: Instant)
    requires Valid(t)
    ensures var a, n := CalendarDate(t), |YearText(t.year)|;
            && a[..n] == YearText(t.year)
            && a[n + 1..n + 3] == Padded(t.month, 2)
            && a[n + 4..] == Padded(t.day, 2)
  {
  }

  /** Two instants share a calendar date string exactly when they fall on the same day. */
  lemma CalendarDateIffSameDay(s: Instant, t: Instant)
    requires Valid(s) && Valid(t)
    ensures CalendarDate(s) == CalendarDate(t) <==> SameDay(s, t)
  {
    var a := CalendarDate(s);
    if a == CalendarDate(t) {
      var n := |YearText(s.year)|;
      assert |YearText(t.year)| == n;
      CalendarDateParts(s);
      CalendarDateParts(t);
      assert YearText(s.year) == a[..n] == YearText(t.year);
      assert Padded(s.month, 2) == a[n + 1..n + 3] == Padded(t.month, 2);
      assert Padded(s.day, 2) == a[n + 4..] == Padded(t.day, 2);
      YearTextInjective(s.year, t.year);
      PaddedInjective(s.month, t.month, 2);
      PaddedInjective(s.day, t.day, 2);
    }
  }
}
