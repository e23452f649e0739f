/**
 * Calendar dates as Python's `datetime` holds them at midnight, their order,
 * and the three `datetime.strptime` formats the system parses:
 * `"%B %d, %Y"` (review status lines), `"%d-%m-%Y"` (the scraper's bounds) and
 * `"%Y-%m-%d"` (the web form's date inputs).
 */
module Dates {
  import opened Wrappers
  import opened Text

  datatype Date = Date(year: int, month: int, day: int)

  const MonthNames: seq<string> := [
    "January", "February", "March", "April", "May", "June",
    "July", "August", "September", "October", "November", "December"]

  predicate IsLeapYear(y: int) {
    y % 4 == 0 && (y % 100 != 0 || y % 400 == 0)
  }

  function DaysInMonth(y: int, m: int): int
    requires 1 <= m <= 12
  {
    if m == 2 then (if IsLeapYear(y) then 29 else 28)
    else if m == 4 || m == 6 || m == 9 || m == 11 then 30
    else 31
  }

  function DaysInYear(y: int): int {
    if IsLeapYear(y) then 366 else 365
  }

  /** A day `datetime` can represent: years 1 to 9999, a real day of the month. */
  predicate ValidDate(d: Date) {
    1 <= d.year <= 9999 && 1 <= d.month <= 12 && 1 <= d.day <= DaysInMonth(d.year, d.month)
  }

  /** `a < b` on two midnight datetimes: lexicographic on (year, month, day). */
  predicate Before(a: Date, b: Date) {
    || a.year < b.year
    || (a.year == b.year && a.month < b.month)
    || (a.year == b.year && a.month == b.month && a.day < b.day)
  }

  // ---------------------------------------------------------------------------
  // Day numbers: an independent account of the order of dates.
  // ---------------------------------------------------------------------------

  function DaysBeforeYear(y: int): int
    requires y >= 1
  {
    var p := y - 1;
    p * 365 + p / 4 - p / 100 + p / 400
  }

  function DaysBeforeMonth(y: int, m: int): int
    requires 1 <= m <= 12
  {
    [0, 31, 59, 90, 120, 151, 181, 212, 243, 273, 304, 334][m - 1]
      + (if m > 2 && IsLeapYear(y) then 1 else 0)
  }

  /** The proleptic Gregorian day number, 1 for January 1 of year 1 (`date.toordinal()`). */
  function Ordinal(d: Date): int
    requires ValidDate(d)
  {
    DaysBeforeYear(d.year) + DaysBeforeMonth(d.year, d.month) + d.day
  }

  lemma YearStep(y: int)
    requires y >= 1
    ensures DaysBeforeYear(y + 1) == DaysBeforeYear(y) + DaysInYear(y)
  {
    var p := y - 1;
    assert y / 4 == p / 4 + (if y % 4 == 0 then 1 else 0);
    assert y / 100 == p / 100 + (if y % 100 == 0 then 1 else 0);
    assert y / 400 == p / 400 + (if y % 400 == 0 then 1 else 0);
  }

  lemma {:induction false} YearsAhead(y1: int, y2: int)
    requires 1 <= y1 < y2
    ensures DaysBeforeYear(y1) + DaysInYear(y1) <= DaysBeforeYear(y2)
    decreases y2 - y1
  {
    YearStep(y1);
    if y1 + 1 < y2 {
      YearsAhead(y1 + 1, y2);
    }
  }

  lemma MonthsAhead(y: int, m1: int, m2: int)
    requires 1 <= m1 < m2 <= 12
    ensures DaysBeforeMonth(y, m1) + DaysInMonth(y, m1) <= DaysBeforeMonth(y, m2)
  {
  }

  lemma WithinYear(d: Date)
    requires ValidDate(d)
    ensures DaysBeforeMonth(d.year, d.month) + d.day <= DaysInYear(d.year)
  {
  }

  lemma OrdinalMonotone(a: Date, b: Date)
    requires ValidDate(a) && ValidDate(b) && Before(a, b)
    ensures Ordinal(a) < Ordinal(b)
  {
    if a.year < b.year {
      WithinYear(a);
      YearsAhead(a.year, b.year);
    } else if a.month < b.month {
      MonthsAhead(a.year, a.month, b.month);
    }
  }

  /** The datetime order on valid dates is the order of their day numbers. */
  lemma BeforeIffOrdinalLess(a: Date, b: Date)
    requires ValidDate(a) && ValidDate(b)
    ensures Before(a, b) <==> Ordinal(a) < Ordinal(b)
  {
    if Before(a, b) {
      OrdinalMonotone(a, b);
    } else if a != b {
      assert Before(b, a);
      OrdinalMonotone(b, a);
    }
  }

  // ---------------------------------------------------------------------------
  // The range predicate of scraper.py.
  // ---------------------------------------------------------------------------

  /** `is_date_in_range`: no date is never in range; each present bound is inclusive. */
  function InRange(date: Option<Date>, start: Option<Date>, end: Option<Date>): bool {
    if date.None? then false
    else if start.Some? && Before(date.value, start.value) then false
    else if end.Some? && Before(end.value, date.value) then false
    else true
  }

  lemma InRangeByOrdinal(d: Date, start: Option<Date>, end: Option<Date>)
    requires ValidDate(d)
    requires start.Some? ==> ValidDate(start.value)
    requires end.Some? ==> ValidDate(end.value)
    ensures InRange(Some(d), start, end) <==>
      && (start.None? || Ordinal(start.value) <= Ordinal(d))
      && (end.None? || Ordinal(d) <= Ordinal(end.value))
  {
    if start.Some? { BeforeIffOrdinalLess(d, start.value); }
    if end.Some? { BeforeIffOrdinalLess(end.value, d); }
  }

  // ---------------------------------------------------------------------------
  // strptime fields.
  // ---------------------------------------------------------------------------

  /** `%d`: "1" to "9", "01" to "31", or a space followed by "1" to "9". */
  function DayField(t: string): (r: Option<int>)
    ensures r.Some? ==> 1 <= r.value <= 31
  {
    if |t| == 1 && '1' <= t[0] <= '9' then Some(DigitValue(t[0]))
    else if |t| == 2 && t[0] == ' ' && '1' <= t[1] <= '9' then Some(DigitValue(t[1]))
    else if |t| == 2 && AllDigits(t) && 1 <= DigitsValue(t) <= 31 then Some(DigitsValue(t))
    else None
  }

  /** `%m`: "1" to "9" or "01" to "12". */
  function MonthField(t: string): (r: Option<int>)
    ensures r.Some? ==> 1 <= r.value <= 12
  {
    if |t| == 1 && '1' <= t[0] <= '9' then Some(DigitValue(t[0]))
    else if |t| == 2 && AllDigits(t) && 1 <= DigitsValue(t) <= 12 then Some(DigitsValue(t))
    else None
  }

  /** `%Y`: exactly four digits. */
  function YearField(t: string): (r: Option<int>)
    ensures r.Some? ==> 0 <= r.value <= 9999
  {
    if |t| == 4 && AllDigits(t) then DigitsValueBound(t); Some(DigitsValue(t)) else None
  }

  /** strptime's last step: building the datetime from fields its directives
      accepted fails only for year 0 or a day the month lacks. */
  function MakeDate(y: int, m: int, d: int): (r: Option<Date>)
    ensures 0 <= y <= 9999 && 1 <= m <= 12 && 1 <= d <= 31 ==>
      (r.None? <==> y == 0 || d > DaysInMonth(y, m))
    ensures r.Some? ==> r.value.year == y && r.value.month == m && r.value.day == d
  {
    if ValidDate(Date(y, m, d)) then Some(Date(y, m, d)) else None
  }

  /** Splits `s` around the first occurrence of `c`. */
  function SplitAtFirst(s: string, c: char): (r: Option<(string, string)>)
    ensures r.Some? ==> s == r.value.0 + [c] + r.value.1 && c !in r.value.0
    ensures r.None? ==> c !in s
  {
    if s == [] then None
    else if s[0] == c then Some(([], s[1..]))
    else match SplitAtFirst(s[1..], c)
      case None => None
      case Some(p) => Some(([s[0]] + p.0, p.1))
  }

  lemma {:induction false} SplitAtFirstOf(a: string, c: char, b: string)
    requires c !in a
    ensures SplitAtFirst(a + [c] + b, c) == Some((a, b))
  {
    if a == [] {
      assert a + [c] + b == [c] + b;
    } else {
      assert (a + [c] + b)[1..] == a[1..] + [c] + b;
      assert (a + [c] + b)[0] == a[0] && a[0] != c;
      SplitAtFirstOf(a[1..], c, b);
      assert [a[0]] + a[1..] == a;
    }
  }

  // ---------------------------------------------------------------------------
  // "%B %d, %Y": `parse_review_date`.
  // ---------------------------------------------------------------------------

  /** `s` begins with the full name of month `m`, ignoring case. */
  predicate HasMonthName(s: string, m: int)
    requires 1 <= m <= 12
  {
    var name := MonthNames[m - 1];
    |name| <= |s| && Lower(s[..|name|]) == Lower(name)
  }

  /** The first month, from `m` on, whose name begins `s`, and what follows the name. */
  function MonthPrefixFrom(s: string, m: int): (r: Option<(int, string)>)
    requires 1 <= m <= 13
    ensures r.Some? ==> m <= r.value.0 <= 12
    decreases 13 - m
  {
    if m == 13 then None
    else if HasMonthName(s, m) then Some((m, s[|MonthNames[m - 1]|..]))
    else MonthPrefixFrom(s, m + 1)
  }

  function MonthPrefix(s: string): (r: Option<(int, string)>)
    ensures r.Some? ==> 1 <= r.value.0 <= 12
  {
    MonthPrefixFrom(s, 1)
  }

  /** `datetime.strptime(s, "%B %d, %Y")`, None where it raises. Each blank of the
      format matches one or more whitespace characters, and the whole string must match. */
  function ParseReviewDate(s: string): (r: Option<Date>)
    ensures r.Some? ==> ValidDate(r.value)
  {
    match MonthPrefix(s)
    case None => None
    case Some((m, rest)) => ParseDayCommaYear(m, rest)
  }

  /** The part of "%B %d, %Y" after the month name, for month `m`. */
  function ParseDayCommaYear(m: int, rest: string): (r: Option<Date>)
    ensures r.Some? ==> ValidDate(r.value) && r.value.month == m
  {
    if rest == [] || !IsSpace(rest[0]) then None
    else match SplitAtFirst(TrimStart(rest), ',')
      case None => None
      case Some((dayText, afterComma)) =>
        if afterComma == [] || !IsSpace(afterComma[0]) then None
        else match (DayField(dayText), YearField(TrimStart(afterComma)))
          case (Some(d), Some(y)) => MakeDate(y, m, d)
          case _ => None
  }

  /** How the site writes a review date: "March 1, 2024". */
  function FormatReviewDate(d: Date): string
    requires 1 <= d.month <= 12 && 0 <= d.day && 0 <= d.year
  {
    MonthNames[d.month - 1] + " " + NatToString(d.day) + ", " + ZeroPad(d.year, 4)
  }

  lemma MonthPrefixOf(m: int, rest: string)
    requires 1 <= m <= 12
    ensures MonthPrefix(MonthNames[m - 1] + rest) == Some((m, rest))
  {
    var s := MonthNames[m - 1] + rest;
    assert s[..|MonthNames[m - 1]|] == MonthNames[m - 1];
    assert s[|MonthNames[m - 1]|..] == rest;
    forall k | 1 <= k < m
      ensures !HasMonthName(s, k)
    {
      NamesDiffer(k, m, rest);
    }
    MonthPrefixSkips(s, 1, m);
  }

  lemma {:induction false} MonthPrefixSkips(s: string, from: int, m: int)
    requires 1 <= from <= m <= 12
    requires forall k :: from <= k < m ==> !HasMonthName(s, k)
    ensures MonthPrefixFrom(s, from) == MonthPrefixFrom(s, m)
    decreases m - from
  {
    if from < m {
      MonthPrefixSkips(s, from + 1, m);
    }
  }

  /** Two different month names differ, ignoring case, in one of their first three letters. */
  lemma LettersDiffer(k: int, m: int) returns (i: nat)
    requires 1 <= k < m <= 12
    ensures i < 3 && i < |MonthNames[k - 1]| && i < |MonthNames[m - 1]|
    ensures LowerChar(MonthNames[k - 1][i]) != LowerChar(MonthNames[m - 1][i])
  {
    var a, b := MonthNames[k - 1], MonthNames[m - 1];
    i := if a[0] != b[0] then 0 else if a[1] != b[1] then 1 else 2;
  }

  /** No month name, ignoring case, begins another month's name. */
  lemma NamesDiffer(k: int, m: int, rest: string)
    requires 1 <= k < m <= 12
    ensures !HasMonthName(MonthNames[m - 1] + rest, k)
  {
    var s := MonthNames[m - 1] + rest;
    var a, b := MonthNames[k - 1], MonthNames[m - 1];
    var i := LettersDiffer(k, m);
    if |a| <= |s| {
      assert s[i] == b[i];
      assert Lower(s[..|a|])[i] == LowerChar(b[i]);
      assert Lower(a)[i] == LowerChar(a[i]);
    }
  }

  lemma TrimStartAfterSpace(x: string)
    requires x != [] && !IsSpace(x[0])
    ensures TrimStart(" " + x) == x
  {
    assert (" " + x)[1..] == x;
  }

  lemma DayFieldOfNat(d: int)
    requires 1 <= d <= 31
    ensures DayField(NatToString(d)) == Some(d)
  {
    NatToStringValue(d);
    if d >= 10 {
      assert NatToString(d) == NatToString(d / 10) + [DigitChar(d % 10)];
    }
  }

  lemma YearFieldOfPadded(y: int)
    requires 0 <= y <= 9999
    ensures YearField(ZeroPad(y, 4)) == Some(y)
  {
    ZeroPadValue(y, 4);
  }

  lemma ParseDayCommaYearOf(m: int, d: int, y: int)
    requires 0 <= y <= 9999 && 1 <= d <= 31
    ensures ParseDayCommaYear(m, " " + NatToString(d) + ", " + ZeroPad(y, 4)) == MakeDate(y, m, d)
  {
    var dayText, yearText := NatToString(d), ZeroPad(y, 4);
    var rest := " " + dayText + ", " + yearText;
    TrimStartAfterSpace(dayText + ", " + yearText);
    assert rest == " " + (dayText + ", " + yearText);
    assert ',' !in dayText;
    assert dayText + ", " + yearText == dayText + [','] + (" " + yearText);
    SplitAtFirstOf(dayText, ',', " " + yearText);
    TrimStartAfterSpace(yearText);
    DayFieldOfNat(d);
    YearFieldOfPadded(y);
  }

  lemma ParseReviewDateOfFormatted(y: int, m: int, d: int)
    requires 0 <= y <= 9999 && 1 <= m <= 12 && 1 <= d <= 31
    ensures ParseReviewDate(FormatReviewDate(Date(y, m, d))) == MakeDate(y, m, d)
  {
    var rest := " " + NatToString(d) + ", " + ZeroPad(y, 4);
    assert FormatReviewDate(Date(y, m, d)) == MonthNames[m - 1] + rest;
    MonthPrefixOf(m, rest);
    ParseDayCommaYearOf(m, d, y);
  }

  /** A well-formed review date naming a real day parses to that day. */
  lemma ParseReviewDateRoundTrip(d: Date)
    requires ValidDate(d)
    ensures ParseReviewDate(FormatReviewDate(d)) == Some(d)
  {
    ParseReviewDateOfFormatted(d.year, d.month, d.day);
  }

  /** A well-formed review date naming a day its month lacks ("February 30") is refused. */
  lemma ParseReviewDateRejectsImpossibleDay(y: int, m: int, d: int)
    requires 1 <= y <= 9999 && 1 <= m <= 12 && DaysInMonth(y, m) < d <= 31
    ensures ParseReviewDate(FormatReviewDate(Date(y, m, d))) == None
  {
    ParseReviewDateOfFormatted(y, m, d);
  }

  lemma Year2023()
    ensures ZeroPad(2023, 4) == "2023"
  {
  }

  lemma FormatAugust14()
    ensures FormatReviewDate(Date(2023, 8, 14)) == "August 14, 2023"
  {
    assert NatToString(14) == "14";
    Year2023();
  }

  lemma ParseReviewDateAccepts()
    ensures ParseReviewDate("August 14, 2023") == Some(Date(2023, 8, 14))
  {
    FormatAugust14();
    ParseReviewDateRoundTrip(Date(2023, 8, 14));
  }

  lemma FormatFebruary30()
    ensures FormatReviewDate(Date(2023, 2, 30)) == "February 30, 2023"
  {
    assert NatToString(30) == "30";
    Year2023();
  }

  lemma ParseReviewDateRejectsFebruary30()
    ensures ParseReviewDate("February 30, 2023") == None
  {
    FormatFebruary30();
    ParseReviewDateRejectsImpossibleDay(2023, 2, 30);
  }

  /** A month found at the front of `s` is one whose name `s` begins with. */
  lemma {:induction false} MonthPrefixFromNamed(s: string, m: int)
    requires 1 <= m <= 13
    ensures MonthPrefixFrom(s, m).Some? ==> HasMonthName(s, MonthPrefixFrom(s, m).value.0)
    decreases 13 - m
  {
    if m < 13 && !HasMonthName(s, m) {
      MonthPrefixFromNamed(s, m + 1);
    }
  }

  /** A parsed review date names its month at the front of the string, so a string
      that begins with no month name is refused. */
  lemma ParseReviewDateRejectsText(s: string)
    ensures ParseReviewDate(s).Some? ==> HasMonthName(s, ParseReviewDate(s).value.month)
    ensures (forall m :: 1 <= m <= 12 ==> !HasMonthName(s, m)) ==> ParseReviewDate(s) == None
  {
    MonthPrefixFromNamed(s, 1);
  }

  lemma NoDateHereRejected()
    ensures ParseReviewDate("no date here") == None
  {
    var s := "no date here";
    forall k | 1 <= k <= 12 ensures !HasMonthName(s, k) {
      var name := MonthNames[k - 1];
      assert Lower(name)[2] != ' ';
      if |name| <= |s| {
        assert Lower(s[..|name|])[2] == ' ';
      }
    }
    ParseReviewDateRejectsText(s);
  }

  // ---------------------------------------------------------------------------
  // "%d-%m-%Y" and "%Y-%m-%d".
  // ---------------------------------------------------------------------------

  /** `datetime.strptime(s, "%d-%m-%Y")`, None where it raises. */
  function ParseDMY(s: string): (r: Option<Date>)
    ensures r.Some? ==> ValidDate(r.value)
  {
    match SplitAtFirst(s, '-')
    case None => None
    case Some((dayText, rest)) =>
      match SplitAtFirst(rest, '-')
      case None => None
      case Some((monthText, yearText)) =>
        match (DayField(dayText), MonthField(monthText), YearField(yearText))
        case (Some(d), Some(m), Some(y)) => MakeDate(y, m, d)
        case _ => None
  }

  /** `datetime.strptime(s, "%Y-%m-%d")`, None where it raises. */
  function ParseYMD(s: string): (r: Option<Date>)
    ensures r.Some? ==> ValidDate(r.value)
  {
    match SplitAtFirst(s, '-')
    case None => None
    case Some((yearText, rest)) =>
      match SplitAtFirst(rest, '-')
      case None => None
      case Some((monthText, dayText)) =>
        match (YearField(yearText), MonthField(monthText), DayField(dayText))
        case (Some(y), Some(m), Some(d)) => MakeDate(y, m, d)
        case _ => None
  }

  /** `d.strftime("%d-%m-%Y")` as glibc writes it: `%Y` is the year without
      padding, so a year below 1000 has fewer than four digits. */
  function FormatDMY(d: Date): string
    requires ValidDate(d)
  {
    ZeroPad(d.day, 2) + "-" + ZeroPad(d.month, 2) + "-" + NatToString(d.year)
  }

  /** "YYYY-MM-DD", the value an HTML date input submits. */
  function FormatYMD(d: Date): string
    requires ValidDate(d)
  {
    ZeroPad(d.year, 4) + "-" + ZeroPad(d.month, 2) + "-" + ZeroPad(d.day, 2)
  }

  lemma DayFieldOfPadded(d: int)
    requires 1 <= d <= 31
    ensures DayField(ZeroPad(d, 2)) == Some(d)
  {
    ZeroPadValue(d, 2);
  }

  lemma MonthFieldOfPadded(m: int)
    requires 1 <= m <= 12
    ensures MonthField(ZeroPad(m, 2)) == Some(m)
  {
    ZeroPadValue(m, 2);
  }

  /** Three fields joined by '-' split back into the same three fields. */
  lemma SplitDashed(x: string, y: string, z: string)
    requires AllDigits(x) && AllDigits(y)
    ensures SplitAtFirst(x + "-" + y + "-" + z, '-') == Some((x, y + "-" + z))
    ensures SplitAtFirst(y + "-" + z, '-') == Some((y, z))
  {
    assert '-' !in x && '-' !in y;
    assert x + "-" + y + "-" + z == x + ['-'] + (y + "-" + z);
    SplitAtFirstOf(x, '-', y + "-" + z);
    SplitAtFirstOf(y, '-', z);
  }

  /** Reading back what `strftime("%d-%m-%Y")` wrote gives the same date for a
      four-digit year; a year below 1000 is written too short for `%Y` and is refused. */
  lemma ParseDMYRoundTrip(d: Date)
    requires ValidDate(d)
    ensures d.year >= 1000 ==> ParseDMY(FormatDMY(d)) == Some(d)
    ensures d.year < 1000 ==> ParseDMY(FormatDMY(d)) == None
  {
    SplitDashed(ZeroPad(d.day, 2), ZeroPad(d.month, 2), NatToString(d.year));
    DayFieldOfPadded(d.day);
    MonthFieldOfPadded(d.month);
    if d.year >= 1000 {
      NatToStringPadded(d.year, 4);
      YearFieldOfPadded(d.year);
    } else {
      NatToStringShort(d.year, 3);
    }
  }

  /** A well-formed "YYYY-MM-DD" naming a real day parses to that day. */
  lemma ParseYMDRoundTrip(d: Date)
    requires ValidDate(d)
    ensures ParseYMD(FormatYMD(d)) == Some(d)
  {
    SplitDashed(ZeroPad(d.year, 4), ZeroPad(d.month, 2), ZeroPad(d.day, 2));
    DayFieldOfPadded(d.day);
    MonthFieldOfPadded(d.month);
    YearFieldOfPadded(d.year);
  }
}
