/**
 * The review-date pattern of the extraction loop,
 *   (January|February|...|December)\s+\d{1,2},\s+\d{4}
 * searched for with `re.search`: the leftmost position at which it matches,
 * and the text of that match (`match.group(0)`).
 */
module MonthPattern {
  import opened Wrappers
  import opened Text
  import Dates

  /** The name of month `m`, exactly as written in the pattern, occurs at `i`. */
  predicate NameAt(s: string, i: nat, m: int)
    requires i <= |s| && 1 <= m <= 12
  {
    StartsWith(s[i..], Dates.MonthNames[m - 1])
  }

  /** The end of the first month name (in the pattern's order, from month `m` on) at `i`. */
  function NameEndFrom(s: string, i: nat, m: int): (r: Option<nat>)
    requires i <= |s| && 1 <= m <= 13
    ensures r.Some? ==> i < r.value <= |s|
    decreases 13 - m
  {
    if m == 13 then None
    else if NameAt(s, i, m) then Some(i + |Dates.MonthNames[m - 1]|)
    else NameEndFrom(s, i, m + 1)
  }

  /** The index after the whitespace run starting at `i`: `\s+` is greedy, and
      giving back a blank cannot help, since a digit must follow it. */
  function SkipSpaces(s: string, i: nat): (j: nat)
    requires i <= |s|
    ensures i <= j <= |s|
    ensures forall k :: i <= k < j ==> IsSpace(s[k])
    ensures j < |s| ==> !IsSpace(s[j])
    decreases |s| - i
  {
    if i < |s| && IsSpace(s[i]) then SkipSpaces(s, i + 1) else i
  }

  /** The index after `\d{1,2},` at `b`, or 0 if neither two digits nor one digit is followed by a comma. */
  function DayCommaEnd(s: string, b: nat): (c: nat)
    ensures c != 0 ==> c <= |s| && s[c - 1] == ','
  {
    if b + 2 < |s| && IsDigit(s[b]) && IsDigit(s[b + 1]) && s[b + 2] == ',' then b + 3
    else if b + 1 < |s| && IsDigit(s[b]) && s[b + 1] == ',' then b + 2
    else 0
  }

  /** The end of a match of the pattern that starts at `i`, if one does. */
  function MatchAt(s: string, i: nat): (r: Option<nat>)
    requires i <= |s|
    ensures r.Some? ==> i < r.value <= |s|
  {
    match NameEndFrom(s, i, 1)
    case None => None
    case Some(a) => MatchAfterName(s, a)
  }

  /** The end of a match of `\s+\d{1,2},\s+\d{4}` that starts at `a`, if one does. */
  function MatchAfterName(s: string, a: nat): (r: Option<nat>)
    requires a <= |s|
    ensures r.Some? ==> a < r.value <= |s|
  {
    if a == |s| || !IsSpace(s[a]) then None
    else
      var c := DayCommaEnd(s, SkipSpaces(s, a));
      if c == 0 || c == |s| || !IsSpace(s[c]) then None
      else
        var e := SkipSpaces(s, c);
        if e + 4 <= |s| && AllDigits(s[e..e + 4]) then Some(e + 4) else None
  }

  /** `re.search` from position `i` on: where the leftmost match starts and ends. */
  function SearchFrom(s: string, i: nat): (r: Option<(nat, nat)>)
    requires i <= |s|
    ensures r.Some? ==> i <= r.value.0 < r.value.1 <= |s|
    decreases |s| - i
  {
    match MatchAt(s, i)
    case Some(e) => Some((i, e))
    case None => if i == |s| then None else SearchFrom(s, i + 1)
  }

  /** The match found is one, and no match starts earlier; no result means no
      position matches. */
  lemma {:induction false} SearchFromLeftmost(s: string, i: nat)
    requires i <= |s|
    ensures var r := SearchFrom(s, i);
      && (r.Some? ==> MatchAt(s, r.value.0) == Some(r.value.1))
      && (r.Some? ==> forall k :: i <= k < r.value.0 ==> MatchAt(s, k).None?)
      && (r.None? ==> forall k :: i <= k <= |s| ==> MatchAt(s, k).None?)
    decreases |s| - i
  {
    var here := MatchAt(s, i);
    if here.None? && i < |s| {
      SearchFromLeftmost(s, i + 1);
      var r := SearchFrom(s, i + 1);
      assert SearchFrom(s, i) == r;
      var last := if r.Some? then r.value.0 - 1 else |s|;
      forall k | i <= k <= last
        ensures MatchAt(s, k).None?
      {
        if k == i {
          assert MatchAt(s, k) == here;
        }
      }
    }
  }

  /** `match.group(0)` of `re.search(pattern, s)`, or None when nothing matches. */
  function Search(s: string): Option<string> {
    match SearchFrom(s, 0)
    case None => None
    case Some((i, j)) => Some(s[i..j])
  }

  /** A result is the text of a match; there is none exactly when no position matches. */
  lemma SearchMatches(s: string)
    ensures Search(s).Some? ==> exists i, j :: 0 <= i < j <= |s| && MatchAt(s, i) == Some(j) && Search(s).value == s[i..j]
    ensures Search(s).None? <==> forall k :: 0 <= k <= |s| ==> MatchAt(s, k).None?
  {
    SearchFromLeftmost(s, 0);
    var r := SearchFrom(s, 0);
    if r.Some? {
      assert MatchAt(s, r.value.0).Some?;
    }
  }

  lemma NameEndOf(m: int, rest: string)
    requires 1 <= m <= 12
    ensures NameEndFrom(Dates.MonthNames[m - 1] + rest, 0, 1) == Some(|Dates.MonthNames[m - 1]|)
  {
    var s := Dates.MonthNames[m - 1] + rest;
    assert s[0..] == s;
    assert s[..|Dates.MonthNames[m - 1]|] == Dates.MonthNames[m - 1];
    forall k | 1 <= k < m ensures !NameAt(s, 0, k) {
      Dates.NamesDiffer(k, m, rest);
    }
    NameEndSkips(s, 1, m);
  }

  lemma {:induction false} NameEndSkips(s: string, from: int, m: int)
    requires 1 <= from <= m <= 12
    requires forall k :: from <= k < m ==> !NameAt(s, 0, k)
    ensures NameEndFrom(s, 0, from) == NameEndFrom(s, 0, m)
    decreases m - from
  {
    if from < m {
      NameEndSkips(s, from + 1, m);
    }
  }

  /** One blank, then one or two digits and a comma: the day part of the pattern. */
  lemma DayPartEnd(s: string, a: nat, dayText: string)
    requires 1 <= |dayText| <= 2 && AllDigits(dayText)
    requires a + 2 + |dayText| <= |s| && s[a..a + 2 + |dayText|] == " " + dayText + ","
    ensures SkipSpaces(s, a + 1) == a + 1
    ensures DayCommaEnd(s, a + 1) == a + 2 + |dayText|
  {
    var t := s[a..a + 2 + |dayText|];
    assert s[a + 1] == t[1] == dayText[0];
    assert s[a + 1 + |dayText|] == t[1 + |dayText|] == ',';
    if |dayText| == 2 {
      assert s[a + 2] == t[2] == dayText[1];
    }
  }

  /** The text after the month name, cut after the comma. */
  lemma SplitAfterName(s: string, a: nat, dayText: string, yearText: string)
    requires |yearText| == 4
    requires a <= |s| && s[a..] == " " + dayText + ", " + yearText
    ensures a + 2 + |dayText| + 5 == |s|
    ensures s[a..a + 2 + |dayText|] == " " + dayText + ","
    ensures s[a + 2 + |dayText|..] == " " + yearText
  {
    var t := s[a..];
    var c := a + 2 + |dayText|;
    assert t == (" " + dayText + ",") + (" " + yearText);
    assert s[a..c] == t[..2 + |dayText|];
    assert s[c..] == t[2 + |dayText|..];
  }

  /** One blank and four digits at the end of the string: the year part of the pattern. */
  lemma YearPartEnd(s: string, c: nat, yearText: string)
    requires |yearText| == 4 && AllDigits(yearText)
    requires c <= |s| && s[c..] == " " + yearText
    ensures c + 5 == |s| && IsSpace(s[c])
    ensures SkipSpaces(s, c + 1) == c + 1
    ensures AllDigits(s[c + 1..c + 5])
  {
    assert s[c] == s[c..][0];
    assert s[c + 1] == s[c..][1] == yearText[0];
    assert s[c + 1..c + 5] == s[c..][1..] == yearText;
  }

  /** One blank, one or two digits, a comma, one blank and four digits are matched
      whole by the part of the pattern after the month name. */
  lemma MatchAfterNameWhole(s: string, a: nat, dayText: string, yearText: string)
    requires 1 <= |dayText| <= 2 && AllDigits(dayText)
    requires |yearText| == 4 && AllDigits(yearText)
    requires a <= |s| && s[a..] == " " + dayText + ", " + yearText
    ensures MatchAfterName(s, a) == Some(|s|)
  {
    var c := a + 2 + |dayText|;
    SplitAfterName(s, a, dayText, yearText);
    DayPartEnd(s, a, dayText);
    YearPartEnd(s, c, yearText);
    assert s[a] == s[a..c][0] == ' ';
  }

  /** A day of the month is written with one or two digits. */
  lemma DayTextShort(day: nat)
    requires day <= 99
    ensures |NatToString(day)| <= 2
  {
    if day >= 10 {
      assert NatToString(day) == NatToString(day / 10) + [DigitChar(day % 10)];
    }
  }

  /** The pattern matches the whole of a date written the way the site writes it,
      starting at its first character. */
  lemma FormattedDateMatchesWhole(d: Dates.Date)
    requires Dates.ValidDate(d)
    ensures MatchAt(Dates.FormatReviewDate(d), 0) == Some(|Dates.FormatReviewDate(d)|)
  {
    var name, dayText, yearText := Dates.MonthNames[d.month - 1], NatToString(d.day), ZeroPad(d.year, 4);
    DayTextShort(d.day);
    var rest := " " + dayText + ", " + yearText;
    var s := Dates.FormatReviewDate(d);
    assert s == name + rest;
    NameEndOf(d.month, rest);
    assert s[|name|..] == rest;
    MatchAfterNameWhole(s, |name|, dayText, yearText);
  }

  /** The way the site writes a review date is matched whole by the pattern. */
  lemma SearchFindsFormattedDate(d: Dates.Date)
    requires Dates.ValidDate(d)
    ensures Search(Dates.FormatReviewDate(d)) == Some(Dates.FormatReviewDate(d))
  {
    var s := Dates.FormatReviewDate(d);
    FormattedDateMatchesWhole(d);
    assert SearchFrom(s, 0) == Some((0, |s|));
    assert s[0..|s|] == s;
  }
}
