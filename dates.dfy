/**
 * Dates as text: the recogniser that turns stored strings back into dates when
 * the saved state is read, and the `YYYY-MM-DD` value of a date input.
 * Calendar and time-zone conversions are done by the caller, which supplies the
 * broken-down fields.
 */
module Dates {
  import opened Wrappers
  import opened Text

  /**
   * The shape a stored string must have to be read back as a date: `d` marks an
   * ASCII digit, every other character must appear as is.
   */
  const IsoShape := "dddd-dd-ddTdd:dd:dd.dddZ"

  predicate FitsShape(s: string, shape: string)
  {
    |s| == |shape| &&
    forall i :: 0 <= i < |s| ==> if shape[i] == 'd' then IsDigit(s[i]) else s[i] == shape[i]
  }

  /** The reviver's test: four-digit year, two-digit fields, three-digit milliseconds, `Z`. */
  predicate IsIsoInstant(s: string)
  {
    FitsShape(s, IsoShape)
  }

  /** The broken-down UTC fields of an instant, as `toISOString` prints them. */
  datatype Instant = Instant(year: nat, month: nat, day: nat, hour: nat, minute: nat, second: nat, millis: nat)

  predicate Printable(t: Instant)
  {
    t.year < 10000 && t.month < 100 && t.day < 100 && t.hour < 100 && t.minute < 100 &&
    t.second < 100 && t.millis < 1000
  }

  /** The text of an instant with a four-digit year. */
  function IsoString(t: Instant): (s: string)
    requires Printable(t)
    ensures |s| == 24
  {
    FixedDigits(t.year, 4) + "-" + FixedDigits(t.month, 2) + "-" + FixedDigits(t.day, 2) + "T" +
    FixedDigits(t.hour, 2) + ":" + FixedDigits(t.minute, 2) + ":" + FixedDigits(t.second, 2) + "." +
    FixedDigits(t.millis, 3) + "Z"
  }

  /** A digit field of width `w` at position `at`, followed by the separator `sep`. */
  predicate FieldAt(s: string, at: nat, w: nat, sep: char)
  {
    at + w < |s| && AllDigits(s[at..at + w]) && s[at + w] == sep
  }

  /** The value of the digit field of width `w` at position `at`. */
  function FieldValue(s: string, at: nat, w: nat): nat
    requires at + w <= |s| && AllDigits(s[at..at + w])
  {
    DigitsValue(s[at..at + w])
  }

  lemma FitsByFields(s: string)
    requires |s| == 24
    requires FieldAt(s, 0, 4, '-') && FieldAt(s, 5, 2, '-') && FieldAt(s, 8, 2, 'T')
    requires FieldAt(s, 11, 2, ':') && FieldAt(s, 14, 2, ':') && FieldAt(s, 17, 2, '.')
    requires FieldAt(s, 20, 3, 'Z')
    ensures IsIsoInstant(s)
  {
    forall i | 0 <= i < 24 ensures if IsoShape[i] == 'd' then IsDigit(s[i]) else s[i] == IsoShape[i] {
      if i < 4 { assert s[0..4][i] == s[i]; }
      else if 5 <= i < 7 { assert s[5..7][i - 5] == s[i]; }
      else if 8 <= i < 10 { assert s[8..10][i - 8] == s[i]; }
      else if 11 <= i < 13 { assert s[11..13][i - 11] == s[i]; }
      else if 14 <= i < 16 { assert s[14..16][i - 14] == s[i]; }
      else if 17 <= i < 19 { assert s[17..19][i - 17] == s[i]; }
      else if 20 <= i < 23 { assert s[20..23][i - 20] == s[i]; }
    }
  }

  /** Gluing a digit field and its separator onto a text: where they land. */
  lemma Glue(p: string, f: string, c: char)
    requires AllDigits(f)
    ensures var s := p + f + [c];
      p <= s && FieldAt(s, |p|, |f|, c) && s[|p|..|p| + |f|] == f
  {
    var s := p + f + [c];
    assert s[..|p|] == p;
    assert s[|p|..|p| + |f|] == f;
  }

  /** Fields survive later gluing. */
  lemma Extend(p: string, s: string, at: nat, w: nat, sep: char)
    requires FieldAt(p, at, w, sep) && p <= s
    ensures FieldAt(s, at, w, sep) && s[at..at + w] == p[at..at + w]
  {
    assert s[at..at + w] == p[at..at + w];
  }

  lemma PrefixTrans(a: string, b: string, c: string)
    requires a <= b && b <= c
    ensures a <= c
  {
    assert c[..|a|] == b[..|a|];
  }

  /** Where each field of a printed instant lands. */
  lemma Layout(y: string, mo: string, d: string, h: string, mi: string, se: string, ms: string)
    requires |y| == 4 && |mo| == 2 && |d| == 2 && |h| == 2 && |mi| == 2 && |se| == 2 && |ms| == 3
    requires AllDigits(y) && AllDigits(mo) && AllDigits(d) && AllDigits(h) && AllDigits(mi)
    requires AllDigits(se) && AllDigits(ms)
    ensures var s := y + "-" + mo + "-" + d + "T" + h + ":" + mi + ":" + se + "." + ms + "Z";
      FieldAt(s, 0, 4, '-') && FieldAt(s, 5, 2, '-') && FieldAt(s, 8, 2, 'T') &&
      FieldAt(s, 11, 2, ':') && FieldAt(s, 14, 2, ':') && FieldAt(s, 17, 2, '.') && FieldAt(s, 20, 3, 'Z') &&
      s[0..4] == y && s[5..7] == mo && s[8..10] == d && s[11..13] == h && s[14..16] == mi &&
      s[17..19] == se && s[20..23] == ms
  {
    var s1 := [] + y + ['-'];
    Glue([], y, '-');
    var s2 := s1 + mo + ['-'];
    Glue(s1, mo, '-');
    var s3 := s2 + d + ['T'];
    Glue(s2, d, 'T');
    var s4 := s3 + h + [':'];
    Glue(s3, h, ':');
    var s5 := s4 + mi + [':'];
    Glue(s4, mi, ':');
    var s6 := s5 + se + ['.'];
    Glue(s5, se, '.');
    var s := s6 + ms + ['Z'];
    Glue(s6, ms, 'Z');
    assert s == y + "-" + mo + "-" + d + "T" + h + ":" + mi + ":" + se + "." + ms + "Z";
    PrefixTrans(s5, s6, s);
    PrefixTrans(s4, s5, s);
    PrefixTrans(s3, s4, s);
    PrefixTrans(s2, s3, s);
    PrefixTrans(s1, s2, s);
    Extend(s1, s, 0, 4, '-');
    Extend(s2, s, 5, 2, '-');
    Extend(s3, s, 8, 2, 'T');
    Extend(s4, s, 11, 2, ':');
    Extend(s5, s, 14, 2, ':');
    Extend(s6, s, 17, 2, '.');
  }

  /**
   * Every instant `toISOString` prints with a four-digit year is recognised, and its
   * fields read back from their positions: saved dates come back as dates.
   */
  lemma IsoStringRecognised(t: Instant)
    requires Printable(t)
    ensures IsIsoInstant(IsoString(t))
    ensures var s := IsoString(t);
      FieldValue(s, 0, 4) == t.year && FieldValue(s, 5, 2) == t.month && FieldValue(s, 8, 2) == t.day &&
      FieldValue(s, 11, 2) == t.hour && FieldValue(s, 14, 2) == t.minute &&
      FieldValue(s, 17, 2) == t.second && FieldValue(s, 20, 3) == t.millis
  {
    Layout(FixedDigits(t.year, 4), FixedDigits(t.month, 2), FixedDigits(t.day, 2), FixedDigits(t.hour, 2),
      FixedDigits(t.minute, 2), FixedDigits(t.second, 2), FixedDigits(t.millis, 3));
    FitsByFields(IsoString(t));
    assert Pow10(2) == 100 && Pow10(3) == 1000 && Pow10(4) == 10000 by {
      assert Pow10(1) == 10;
    }
    FixedDigitsValue(t.year, 4);
    FixedDigitsValue(t.month, 2);
    FixedDigitsValue(t.day, 2);
    FixedDigitsValue(t.hour, 2);
    FixedDigitsValue(t.minute, 2);
    FixedDigitsValue(t.second, 2);
    FixedDigitsValue(t.millis, 3);
  }

  /** A date without its time, or a plain number, stays text. */
  lemma ShortTextsStayText(s: string)
    requires |s| != 24
    ensures !IsIsoInstant(s)
  {
  }

  // The date input

  /** A calendar date in local time: the year, the month counted from 0, the day of the month. */
  datatype CalendarDate = CalendarDate(year: int, monthIndex: nat, day: nat)

  /**
   * The value put in a date input: empty for no date (a null or empty stored
   * value), otherwise the year, the 1-based month and the day, both zero-padded.
   */
  function FormatDateForInput(date: Option<CalendarDate>): string
  {
    match date
    case None => ""
    case Some(d) => IntToString(d.year) + "-" + Pad2(d.monthIndex + 1) + "-" + Pad2(d.day)
  }

  /** Reading a `YYYY-MM-DD` input value back into a calendar date. */
  function ParseDateInput(s: string): (r: Option<CalendarDate>)
    ensures r.Some? <==>
      |s| == 10 && AllDigits(s[..4]) && s[4] == '-' && AllDigits(s[5..7]) && s[7] == '-' &&
      AllDigits(s[8..]) && DigitsValue(s[5..7]) >= 1
    ensures r.Some? ==>
      r.value.year == DigitsValue(s[..4]) && r.value.monthIndex + 1 == DigitsValue(s[5..7]) &&
      r.value.day == DigitsValue(s[8..])
  {
    if |s| == 10 && AllDigits(s[..4]) && s[4] == '-' && AllDigits(s[5..7]) && s[7] == '-' &&
       AllDigits(s[8..]) && DigitsValue(s[5..7]) >= 1
    then Some(CalendarDate(DigitsValue(s[..4]), DigitsValue(s[5..7]) - 1, DigitsValue(s[8..])))
    else None
  }

  /** Where the parts of `p`, a separator and `q` land. */
  lemma Around(p: string, c: char, q: string)
    ensures var s := p + [c] + q;
      |s| == |p| + 1 + |q| && s[..|p|] == p && s[|p|] == c && s[|p| + 1..] == q
  {
    var s := p + [c] + q;
    assert s[..|p|] == p;
    assert s[|p| + 1..] == q;
  }

  lemma ParseAt(s: string, y: string, m: string, dd: string)
    requires |s| == 10 && s[..4] == y && s[5..7] == m && s[8..] == dd && s[4] == '-' && s[7] == '-'
    requires AllDigits(y) && AllDigits(m) && AllDigits(dd) && DigitsValue(m) >= 1
    ensures ParseDateInput(s) == Some(CalendarDate(DigitsValue(y), DigitsValue(m) - 1, DigitsValue(dd)))
  {
  }

  lemma ParseParts(y: string, m: string, dd: string)
    requires |y| == 4 && |m| == 2 && |dd| == 2 && AllDigits(y) && AllDigits(m) && AllDigits(dd)
    requires DigitsValue(m) >= 1
    ensures ParseDateInput(y + "-" + m + "-" + dd) == Some(CalendarDate(DigitsValue(y), DigitsValue(m) - 1, DigitsValue(dd)))
  {
    var s := y + "-" + m + "-" + dd;
    var tail := m + ['-'] + dd;
    Around(m, '-', dd);
    Around(y, '-', tail);
    assert s == y + ['-'] + tail;
    assert s[..4] == y;
    assert s[5..7] == m by { assert s[5..7] == tail[..2]; }
    assert s[8..] == dd by { assert s[8..] == tail[3..]; }
    assert s[4] == '-' && s[7] == '-';
    ParseAt(s, y, m, dd);
  }

  lemma YearField(year: nat)
    requires 1000 <= year <= 9999
    ensures IntToString(year) == FixedDigits(year, 4)
    ensures DigitsValue(FixedDigits(year, 4)) == year
  {
    assert Pow10(3) == 1000 && Pow10(4) == 10000 by {
      assert Pow10(1) == 10 && Pow10(2) == 100;
    }
    NatToStringWidth(year, 4);
    FixedDigitsValue(year, 4);
  }

  lemma TwoDigitField(n: nat)
    requires n < 100
    ensures Pad2(n) == FixedDigits(n, 2)
    ensures DigitsValue(FixedDigits(n, 2)) == n
  {
    Pad2Fixed(n);
    assert Pow10(2) == 100 by { assert Pow10(1) == 10; }
    FixedDigitsValue(n, 2);
  }

  lemma FormatParts(d: CalendarDate, y: string, m: string, dd: string)
    requires IntToString(d.year) == y && Pad2(d.monthIndex + 1) == m && Pad2(d.day) == dd
    ensures FormatDateForInput(Some(d)) == y + "-" + m + "-" + dd
  {
  }

  /** A date with a four-digit year shows as ten characters that read back as the same date. */
  lemma DateInputRoundTrip(d: CalendarDate)
    requires 1000 <= d.year <= 9999 && d.monthIndex < 12 && d.day < 100
    ensures |FormatDateForInput(Some(d))| == 10
    ensures ParseDateInput(FormatDateForInput(Some(d))) == Some(d)
  {
    var y, m, dd := FixedDigits(d.year, 4), FixedDigits(d.monthIndex + 1, 2), FixedDigits(d.day, 2);
    YearField(d.year);
    TwoDigitField(d.monthIndex + 1);
    TwoDigitField(d.day);
    FormatParts(d, y, m, dd);
    ParseParts(y, m, dd);
  }

  /** No date shows an empty field. */
  lemma NoDateIsEmpty()
    ensures FormatDateForInput(None) == ""
    ensures ParseDateInput("") == None
  {
  }
}
