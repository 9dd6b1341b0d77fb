/** Calendar dates as Python's `datetime.date` holds them, and the ISO text
    `str(date)` produces ('YYYY-MM-DD'). */
module IsoDate {
  import opened Wrappers
  import opened Text

  datatype Date = Date(year: int, month: int, day: int)

  predicate IsLeapYear(y: int) {
    y % 4 == 0 && (y % 100 != 0 || y % 400 == 0)
  }

  function DaysInMonth(y: int, m: int): nat
    requires 1 <= m <= 12
  {
    if m == 2 then (if IsLeapYear(y) then 29 else 28)
    else if m == 4 || m == 6 || m == 9 || m == 11 then 30
    else 31
  }

  /** The dates `datetime.date` can represent (years 1 to 9999). */
  predicate ValidDate(d: Date) {
    && 1 <= d.year <= 9999
    && 1 <= d.month <= 12
    && 1 <= d.day <= DaysInMonth(d.year, d.month)
  }

  type CalendarDate = d: Date | ValidDate(d) witness Date(1, 1, 1)

  /** Three digit fields joined by hyphens. */
  function JoinFields(y: string, m: string, d: string): (r: string)
    requires |y| == 4 && |m| == 2 && |d| == 2
    ensures |r| == 10 && r[4] == '-' && r[7] == '-'
  {
    y + "-" + m + "-" + d
  }

  lemma {:induction false} JoinFieldsParts(y: string, m: string, d: string)
    requires |y| == 4 && |m| == 2 && |d| == 2
    ensures JoinFields(y, m, d)[..4] == y
    ensures JoinFields(y, m, d)[5..7] == m
    ensures JoinFields(y, m, d)[8..] == d
  {
  }

  /** `str(d)` for a `datetime.date`: four-digit year, two-digit month and day. */
  function FormatIso(d: CalendarDate): (r: string)
    ensures |r| == 10 && r[4] == '-' && r[7] == '-'
    ensures AllDigits(r[..4]) && AllDigits(r[5..7]) && AllDigits(r[8..])
  {
    JoinFieldsParts(PadDigits(d.year, 4), PadDigits(d.month, 2), PadDigits(d.day, 2));
    JoinFields(PadDigits(d.year, 4), PadDigits(d.month, 2), PadDigits(d.day, 2))
  }

  /** Reads 'YYYY-MM-DD' back; `None` for any other text or an impossible date. */
  function DecodeIso(s: string): (r: Option<CalendarDate>)
    ensures r.Some? ==> |s| == 10 && s[4] == '-' && s[7] == '-'
  {
    if |s| == 10 && s[4] == '-' && s[7] == '-'
       && AllDigits(s[..4]) && AllDigits(s[5..7]) && AllDigits(s[8..])
    then
      var d := Date(DigitsValue(s[..4]), DigitsValue(s[5..7]), DigitsValue(s[8..]));
      if ValidDate(d) then Some(d) else None
    else None
  }

  /** Decoding the ISO text of a date gives the date back. */
  lemma IsoRoundTrip(d: CalendarDate)
    ensures DecodeIso(FormatIso(d)) == Some(d)
  {
    var s := FormatIso(d);
    FormatParts(d);
    Pow10Values();
    PadExact(d.year, 4);
    PadExact(d.month, 2);
    PadExact(d.day, 2);
    assert DigitsValue(s[..4]) == d.year;
    assert DigitsValue(s[5..7]) == d.month;
    assert DigitsValue(s[8..]) == d.day;
    var e := Date(DigitsValue(s[..4]), DigitsValue(s[5..7]), DigitsValue(s[8..]));
    assert e == d;
  }

  /** The three digit fields of `FormatIso(d)`. */
  lemma FormatParts(d: CalendarDate)
    ensures FormatIso(d)[..4] == PadDigits(d.year, 4)
    ensures FormatIso(d)[5..7] == PadDigits(d.month, 2)
    ensures FormatIso(d)[8..] == PadDigits(d.day, 2)
  {
    JoinFieldsParts(PadDigits(d.year, 4), PadDigits(d.month, 2), PadDigits(d.day, 2));
  }

  lemma Pow10Values()
    ensures Pow10(2) == 100 && Pow10(4) == 10000
  {
    assert Pow10(1) == 10;
    assert Pow10(3) == 1000;
  }

  lemma PadExact(n: nat, w: nat)
    requires n < Pow10(w)
    ensures DigitsValue(PadDigits(n, w)) == n
  {
  }

  /** Text that decodes to a date is that date's ISO text. */
  lemma {:induction false} IsoCanonical(s: string)
    requires DecodeIso(s).Some?
    ensures FormatIso(DecodeIso(s).value) == s
  {
    var d := DecodeIso(s).value;
    SplitFields(s);
    Pow10Values();
    PadExact(d.year, 4);
    PadExact(d.month, 2);
    PadExact(d.day, 2);
    DigitsOrder(s[..4], PadDigits(d.year, 4));
    DigitsOrder(s[5..7], PadDigits(d.month, 2));
    DigitsOrder(s[8..], PadDigits(d.day, 2));
  }

  /** Ten characters with hyphens at 4 and 7 are their three fields joined. */
  lemma {:induction false} SplitFields(s: string)
    requires |s| == 10 && s[4] == '-' && s[7] == '-'
    ensures s == JoinFields(s[..4], s[5..7], s[8..])
  {
    var t := JoinFields(s[..4], s[5..7], s[8..]);
    JoinFieldsParts(s[..4], s[5..7], s[8..]);
    assert forall k | 0 <= k < 10 :: s[k] == t[k];
  }

  /** Joined fields compare field by field, year first. */
  lemma {:induction false} JoinOrder(y1: string, m1: string, d1: string, y2: string, m2: string, d2: string)
    requires |y1| == |y2| == 4 && |m1| == |m2| == 2 && |d1| == |d2| == 2
    ensures LexLess(JoinFields(y1, m1, d1), JoinFields(y2, m2, d2)) <==>
      || LexLess(y1, y2)
      || (y1 == y2 && LexLess(m1, m2))
      || (y1 == y2 && m1 == m2 && LexLess(d1, d2))
  {
    JoinShape(y1, m1, d1);
    JoinShape(y2, m2, d2);
    var rest1, rest2 := m1 + ("-" + d1), m2 + ("-" + d2);
    LexLessConcat(y1, "-" + rest1, y2, "-" + rest2);
    if y1 == y2 {
      DashOrder(rest1, rest2);
      LexLessConcat(m1, "-" + d1, m2, "-" + d2);
      if m1 == m2 {
        DashOrder(d1, d2);
        LexTrichotomy(m1, m1);
      }
      LexTrichotomy(y1, y1);
    }
  }

  lemma {:induction false} JoinShape(y: string, m: string, d: string)
    requires |y| == 4 && |m| == 2 && |d| == 2
    ensures JoinFields(y, m, d) == y + ("-" + (m + ("-" + d)))
  {
  }

  lemma {:induction false} DashOrder(x: string, y: string)
    ensures LexLess("-" + x, "-" + y) <==> LexLess(x, y)
  {
    LexLessConcat("-", x, "-", y);
  }

  predicate DateBefore(a: Date, b: Date) {
    || a.year < b.year
    || (a.year == b.year && a.month < b.month)
    || (a.year == b.year && a.month == b.month && a.day < b.day)
  }

  /** ISO texts of dates compare as Python strings exactly as the dates do. */
  lemma IsoOrder(a: CalendarDate, b: CalendarDate)
    ensures LexLess(FormatIso(a), FormatIso(b)) <==> DateBefore(a, b)
  {
    var ya, yb := PadDigits(a.year, 4), PadDigits(b.year, 4);
    var ma, mb := PadDigits(a.month, 2), PadDigits(b.month, 2);
    var da, db := PadDigits(a.day, 2), PadDigits(b.day, 2);
    Pow10Values();
    PadExact(a.year, 4); PadExact(b.year, 4);
    PadExact(a.month, 2); PadExact(b.month, 2);
    PadExact(a.day, 2); PadExact(b.day, 2);
    DigitsOrder(ya, yb);
    DigitsOrder(ma, mb);
    DigitsOrder(da, db);
    JoinOrder(ya, ma, da, yb, mb, db);
  }
}
