/** The date re-ordering the three parsers share: a date written as three
    separated parts, day first, is turned into year-month-day order joined
    by `-` (ISO 8601 calendar-date order). The parts are not validated. */
module Dates {
  import opened Text

  /** Three `sep`-separated parts `d`, `m`, `y` become `y-m-d`; any other
      text is returned as it is. */
  function Reorder(s: String, sep: char): (r: String)
    ensures sep !in s ==> r == s
    ensures |Split(s, sep)| != 3 ==> r == s
  {
    if sep in s then
      var parts := Split(s, sep);
      if |parts| == 3 then parts[2] + "-" + parts[1] + "-" + parts[0] else s
    else s
  }

  /** A day, a month and a year free of the separator come back in
      year-month-day order. */
  lemma {:induction false} ReorderParts(day: String, month: String, year: String, sep: char)
    requires sep !in day && sep !in month && sep !in year
    ensures Reorder(day + [sep] + month + [sep] + year, sep) == year + "-" + month + "-" + day
  {
    var s := day + [sep] + month + [sep] + year;
    assert s == day + [sep] + (month + [sep] + year);
    SplitCons(day, sep, month + [sep] + year);
    SplitCons(month, sep, year);
    SplitNone(year, sep);
    assert s[|day|] == sep;
  }

  /** The XML parsers' rule: the text is trimmed first, and anything but
      three `sep`-separated parts comes back trimmed. */
  function ReorderTrimmed(s: String, sep: char): (r: String)
    ensures |Split(Trim(s), sep)| != 3 ==> r == Trim(s)
  {
    Reorder(Trim(s), sep)
  }

  /** A day that does not start with whitespace and a year that does not end
      with it survive the trim, so the parts are reordered as they stand. */
  lemma ReorderTrimmedParts(day: String, month: String, year: String, sep: char)
    requires sep !in day && sep !in month && sep !in year
    requires |day| > 0 && !IsWhitespace(day[0]) && |year| > 0 && !IsWhitespace(year[|year| - 1])
    ensures ReorderTrimmed(day + [sep] + month + [sep] + year, sep) == year + "-" + month + "-" + day
  {
    var s := day + [sep] + month + [sep] + year;
    assert s[0] == day[0] && s[|s| - 1] == year[|year| - 1];
    assert Trim(s) == s;
    ReorderParts(day, month, year, sep);
  }
}
