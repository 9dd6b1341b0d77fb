/** Worked cases of the extraction and the calendar defaulting, with the
    regular-expression search results, parser answers and clock given as
    hypotheses. */
module Scenarios {
  import opened Wrappers
  import opened Text
  import opened IsoDate
  import opened DatePhrase
  import Calendar

  lemma IsoText20251018()
    ensures FormatIso(Date(2025, 10, 18)) == "2025-10-18"
  {
    var s := "2025-10-18";
    assert s[..4] == "2025" && s[5..7] == "10" && s[8..] == "18";
    Year2025();
    assert DigitsValue("10") == 10 by { assert "10"[..1] == "1"; }
    assert DigitsValue("18") == 18 by { assert "18"[..1] == "1"; }
    assert DecodeIso(s) == Some(Date(2025, 10, 18));
    IsoCanonical(s);
  }

  lemma IsoText20251019()
    ensures FormatIso(Date(2025, 10, 19)) == "2025-10-19"
  {
    var s := "2025-10-19";
    assert s[..4] == "2025" && s[5..7] == "10" && s[8..] == "19";
    Year2025();
    assert DigitsValue("10") == 10 by { assert "10"[..1] == "1"; }
    assert DigitsValue("19") == 19 by { assert "19"[..1] == "1"; }
    assert DecodeIso(s) == Some(Date(2025, 10, 19));
    IsoCanonical(s);
  }

  lemma IsoText20250930()
    ensures FormatIso(Date(2025, 9, 30)) == "2025-09-30"
  {
    var s := "2025-09-30";
    assert s[..4] == "2025" && s[5..7] == "09" && s[8..] == "30";
    Year2025();
    assert DigitsValue("09") == 9 by { assert "09"[..1] == "0"; }
    assert DigitsValue("30") == 30 by { assert "30"[..1] == "3"; }
    assert DecodeIso(s) == Some(Date(2025, 9, 30));
    IsoCanonical(s);
  }

  lemma IsoText20251001()
    ensures FormatIso(Date(2025, 10, 1)) == "2025-10-01"
  {
    var s := "2025-10-01";
    assert s[..4] == "2025" && s[5..7] == "10" && s[8..] == "01";
    Year2025();
    assert DigitsValue("10") == 10 by { assert "10"[..1] == "1"; }
    assert DigitsValue("01") == 1 by { assert "01"[..1] == "0"; }
    assert DecodeIso(s) == Some(Date(2025, 10, 1));
    IsoCanonical(s);
  }

  lemma IsoText20250315()
    ensures FormatIso(Date(2025, 3, 15)) == "2025-03-15"
  {
    var s := "2025-03-15";
    assert s[..4] == "2025" && s[5..7] == "03" && s[8..] == "15";
    Year2025();
    assert DigitsValue("03") == 3 by { assert "03"[..1] == "0"; }
    assert DigitsValue("15") == 15 by { assert "15"[..1] == "1"; }
    assert DecodeIso(s) == Some(Date(2025, 3, 15));
    IsoCanonical(s);
  }

  lemma Year2025()
    ensures YearToken("2025") && PyInt("2025") == Some(2025)
  {
    AsciiYear("2025");
    assert "2025"[..3] == "202" && "202"[..2] == "20" && "20"[..1] == "2";
  }

  lemma Year2023()
    ensures YearToken("2023") && PyInt("2023") == Some(2023)
  {
    AsciiYear("2023");
    assert "2023"[..3] == "202" && "202"[..2] == "20" && "20"[..1] == "2";
  }

  /** `20２５`, with fullwidth digits, is a year token that `int()` reads as
      2025. */
  lemma FullwidthYear()
    ensures YearToken("20\U{FF12}\U{FF15}")
    ensures PyInt("20\U{FF12}\U{FF15}") == Some(2025)
  {
    FullwidthDigit(2);
    FullwidthDigit(5);
    var c2, c3 := (0xFF10 + 2) as char, (0xFF10 + 5) as char;
    YearTextChars(c2, c3);
    assert "20" + [c2] + [c3] == "20\U{FF12}\U{FF15}";
    YearTokenValue("20\U{FF12}\U{FF15}");
  }

  /** An ASCII `20dd` is a year token, read as `int()` reads it. */
  lemma AsciiYear(y: string)
    requires |y| == 4 && y[0] == '2' && y[1] == '0' && AllDigits(y)
    ensures YearToken(y) && PyInt(y) == ParseNat(y)
  {
    assert IsDigit(y[2]) && IsDigit(y[3]);
  }

  /** One or two ASCII digits are a day token. */
  lemma AsciiDay(d: string)
    requires 1 <= |d| <= 2 && AllDigits(d)
    ensures DayToken(d)
  {
    forall k | 0 <= k < |d|
      ensures IsDecimal(d[k])
    {
      assert IsDigit(d[k]);
    }
  }

  /** The parser sees a day token in digits exactly as written. */
  lemma ParsedPhrase(parse: DateParser, day: string, month: string, year: string, t: string, d: CalendarDate)
    requires AllDigits(day)
    requires day + " " + month + " " + year == t
    requires parse(t) == Some(d)
    ensures parse(Phrase(day, month, year)) == Some(d)
  {
    StripOrdinalDigits(day);
  }

  /** The groups of a single-month range match. */
  function RangeGroups(d1: string, d2: string, mon: string, year: string): GroupDict {
    map["d1" := Some(d1), "d2" := Some(d2), "mon" := Some(mon), "year" := Some(year)]
  }

  /** The groups of a cross-month range match. */
  function CrossGroups(d1: string, mon1: string, d2: string, mon2: string, year: string): GroupDict {
    map["d1" := Some(d1), "mon1" := Some(mon1), "d2" := Some(d2), "mon2" := Some(mon2), "year" := Some(year)]
  }

  /** The groups of a single-day match. */
  function DayGroups(d1: string, mon: string, year: string): GroupDict {
    map["d1" := Some(d1), "mon" := Some(mon), "year" := Some(year)]
  }

  /** Well-formed range groups are a match of either range pattern, read as a
      single-month range. */
  lemma RangeGroupsConform(p: Pattern, d1: string, d2: string, mon: string, year: string)
    requires p.DayFirstRange? || p.MonthFirstRange?
    requires DayToken(d1) && DayToken(d2) && mon != "" && YearToken(year)
    ensures Conforms(p, RangeGroups(d1, d2, mon, year))
    ensures LayoutShape(p, Normalize(RangeGroups(d1, d2, mon, year))) == SingleMonth(d1, d2, mon)
  {
    assert RangeGroups(d1, d2, mon, year).Keys == Groups(p);
  }

  /** Well-formed cross-month groups are a match of the cross-month pattern. */
  lemma CrossGroupsConform(p: Pattern, d1: string, mon1: string, d2: string, mon2: string, year: string)
    requires p.CrossMonthRange?
    requires DayToken(d1) && DayToken(d2) && mon1 != "" && mon2 != "" && YearToken(year)
    ensures Conforms(p, CrossGroups(d1, mon1, d2, mon2, year))
    ensures LayoutShape(p, Normalize(CrossGroups(d1, mon1, d2, mon2, year))) == CrossMonth(d1, mon1, d2, mon2)
  {
    assert CrossGroups(d1, mon1, d2, mon2, year).Keys == Groups(p);
  }

  /** Well-formed single-day groups are a match of either single-day pattern. */
  lemma DayGroupsConform(p: Pattern, d1: string, mon: string, year: string)
    requires p.DayFirstSingle? || p.MonthFirstSingle?
    requires DayToken(d1) && mon != "" && YearToken(year)
    ensures Conforms(p, DayGroups(d1, mon, year))
    ensures LayoutShape(p, Normalize(DayGroups(d1, mon, year))) == SingleDay(d1, mon)
  {
    assert DayGroups(d1, mon, year).Keys == Groups(p);
  }

  /** When the generic patterns before `k` find nothing and pattern `k`
      finds a conforming match with a recent year, that match decides. */
  lemma HuntPicks(text: string, env: Env, k: int, raw: GroupDict, year: nat, sh: Shape)
    requires 0 <= k < |GenericPatterns|
    requires forall i | 0 <= i < k :: env.search(GenericPatterns[i], text) == None
    requires env.search(GenericPatterns[k], text) == Some(raw)
    requires Conforms(GenericPatterns[k], raw)
    requires PyInt(raw["year"].value) == Some(year) && IsRecentYear(year, env.currentYear)
    requires LayoutShape(GenericPatterns[k], Normalize(raw)) == sh
    ensures GenericDateHunt(text, env) == Finish(raw["year"].value, sh, env.parse)
  {
    var vs := Verdicts(GenericPatterns, text, env);
    StepConforming(GenericPatterns[k], raw, env.currentYear);
    assert vs[k] == Use(raw["year"].value, sh) by {
      assert vs[k] == StepOf(Some(raw), env.currentYear);
    }
    assert AllSkip(vs, 0, k) by {
      forall i | 0 <= i < k
        ensures vs[i].Skip?
      {
        assert vs[i] == StepOf(None, env.currentYear);
      }
    }
    assert FirstUsable(vs, 0, k);
    WalkFirstUsable(vs, k);
  }

  /** When the parser reads both phrases, the outcome is their ISO texts. */
  lemma FinishDates(year: string, sh: Shape, parse: DateParser, s: CalendarDate, e: CalendarDate)
    requires parse(StartPhrase(sh, year)) == Some(s)
    requires parse(EndPhrase(sh, year)) == Some(e)
    ensures Finish(year, sh, parse) == Dates(DatePair(FormatIso(s), FormatIso(e)))
  {
    var r := Finish(year, sh, parse);
    IsoCanonical(r.pair.startDate);
    IsoCanonical(r.pair.endDate);
  }

  /** The dates of '18 - 19 October 2025' once the parser reads both days. */
  lemma FinishOctoberRange(parse: DateParser)
    requires parse("18 October 2025") == Some(Date(2025, 10, 18))
    requires parse("19 October 2025") == Some(Date(2025, 10, 19))
    ensures Finish("2025", SingleMonth("18", "19", "October"), parse) == Dates(DatePair("2025-10-18", "2025-10-19"))
  {
    ParsedPhrase(parse, "18", "October", "2025", "18 October 2025", Date(2025, 10, 18));
    ParsedPhrase(parse, "19", "October", "2025", "19 October 2025", Date(2025, 10, 19));
    FinishDates("2025", SingleMonth("18", "19", "October"), parse, Date(2025, 10, 18), Date(2025, 10, 19));
    IsoText20251018();
    IsoText20251019();
  }

  /** The dates of '30 Sep – 1 Oct 2025' once the parser reads both days. */
  lemma FinishSeptemberOctober(parse: DateParser)
    requires parse("30 Sep 2025") == Some(Date(2025, 9, 30))
    requires parse("1 Oct 2025") == Some(Date(2025, 10, 1))
    ensures Finish("2025", CrossMonth("30", "Sep", "1", "Oct"), parse) == Dates(DatePair("2025-09-30", "2025-10-01"))
  {
    ParsedPhrase(parse, "30", "Sep", "2025", "30 Sep 2025", Date(2025, 9, 30));
    ParsedPhrase(parse, "1", "Oct", "2025", "1 Oct 2025", Date(2025, 10, 1));
    FinishDates("2025", CrossMonth("30", "Sep", "1", "Oct"), parse, Date(2025, 9, 30), Date(2025, 10, 1));
    IsoText20250930();
    IsoText20251001();
  }

  /** The date of '15th of March 2025' once the parser reads the day. */
  lemma FinishMarchDay(parse: DateParser)
    requires parse("15 March 2025") == Some(Date(2025, 3, 15))
    ensures Finish("2025", SingleDay("15", "March"), parse) == Dates(DatePair("2025-03-15", "2025-03-15"))
  {
    ParsedPhrase(parse, "15", "March", "2025", "15 March 2025", Date(2025, 3, 15));
    FinishDates("2025", SingleDay("15", "March"), parse, Date(2025, 3, 15), Date(2025, 3, 15));
    IsoText20250315();
  }

  /** A day-first range match, with nothing before it, decides the hunt when
      its year is recent. */
  lemma DayFirstRangeHunt(text: string, env: Env, d1: string, d2: string, mon: string, y: string, v: nat)
    requires env.search(GenericPatterns[0], text) == None
    requires env.search(GenericPatterns[1], text) == Some(RangeGroups(d1, d2, mon, y))
    requires DayToken(d1) && DayToken(d2) && mon != "" && YearToken(y)
    requires PyInt(y) == Some(v) && IsRecentYear(v, env.currentYear)
    ensures GenericDateHunt(text, env) == Finish(y, SingleMonth(d1, d2, mon), env.parse)
  {
    RangeGroupsConform(GenericPatterns[1], d1, d2, mon, y);
    HuntPicks(text, env, 1, RangeGroups(d1, d2, mon, y), v, SingleMonth(d1, d2, mon));
  }

  /** '18 - 19 October 2025' in 2025: the cross-month pattern finds nothing,
      the day-first range pattern matches, and its two days become the start
      and end dates. */
  lemma SingleMonthRange(text: string, env: Env)
    requires env.currentYear == 2025
    requires env.search(GenericPatterns[0], text) == None
    requires env.search(GenericPatterns[1], text) == Some(RangeGroups("18", "19", "October", "2025"))
    requires env.parse("18 October 2025") == Some(Date(2025, 10, 18))
    requires env.parse("19 October 2025") == Some(Date(2025, 10, 19))
    ensures GenericDateHunt(text, env) == Dates(DatePair("2025-10-18", "2025-10-19"))
  {
    Year2025();
    AsciiDay("18");
    AsciiDay("19");
    DayFirstRangeHunt(text, env, "18", "19", "October", "2025", 2025);
    FinishOctoberRange(env.parse);
  }

  /** '30 Sep – 1 Oct 2025' in 2025: the cross-month pattern matches first. */
  lemma CrossMonthRangeCase(text: string, env: Env)
    requires env.currentYear == 2025
    requires env.search(GenericPatterns[0], text) == Some(CrossGroups("30", "Sep", "1", "Oct", "2025"))
    requires env.parse("30 Sep 2025") == Some(Date(2025, 9, 30))
    requires env.parse("1 Oct 2025") == Some(Date(2025, 10, 1))
    ensures GenericDateHunt(text, env) == Dates(DatePair("2025-09-30", "2025-10-01"))
  {
    Year2025();
    AsciiDay("30");
    AsciiDay("1");
    CrossGroupsConform(GenericPatterns[0], "30", "Sep", "1", "Oct", "2025");
    HuntPicks(text, env, 0, CrossGroups("30", "Sep", "1", "Oct", "2025"), 2025, CrossMonth("30", "Sep", "1", "Oct"));
    FinishSeptemberOctober(env.parse);
  }

  /** '15th of March 2025' in 2025: only the day-first single-day pattern
      matches (its day group leaves the suffix out), and the one date is both
      start and end. */
  lemma SingleDayCase(text: string, env: Env)
    requires env.currentYear == 2025
    requires forall i | 0 <= i < 3 :: env.search(GenericPatterns[i], text) == None
    requires env.search(GenericPatterns[3], text) == Some(DayGroups("15", "March", "2025"))
    requires env.parse("15 March 2025") == Some(Date(2025, 3, 15))
    ensures GenericDateHunt(text, env) == Dates(DatePair("2025-03-15", "2025-03-15"))
  {
    Year2025();
    AsciiDay("15");
    DayGroupsConform(GenericPatterns[3], "15", "March", "2025");
    HuntPicks(text, env, 3, DayGroups("15", "March", "2025"), 2025, SingleDay("15", "March"));
    FinishMarchDay(env.parse);
  }

  /** The dates of '30 Oct – 1 Sep 2025' once the parser reads both days:
      the end date sorts before the start date. */
  lemma FinishBackwards(parse: DateParser)
    requires parse("30 Oct 2025") == Some(Date(2025, 10, 30))
    requires parse("1 Sep 2025") == Some(Date(2025, 9, 1))
    ensures Finish("2025", CrossMonth("30", "Oct", "1", "Sep"), parse).Dates?
    ensures var p := Finish("2025", CrossMonth("30", "Oct", "1", "Sep"), parse).pair;
      LexLess(p.endDate, p.startDate)
  {
    var s, e := Date(2025, 10, 30), Date(2025, 9, 1);
    ParsedPhrase(parse, "30", "Oct", "2025", "30 Oct 2025", s);
    ParsedPhrase(parse, "1", "Sep", "2025", "1 Sep 2025", e);
    FinishReversed("2025", CrossMonth("30", "Oct", "1", "Sep"), parse, s, e);
  }

  /** When the parser reads an end date before the start date, `Finish`
      reports them as they are, and the end's ISO text sorts first. */
  lemma FinishReversed(year: string, sh: Shape, parse: DateParser, s: CalendarDate, e: CalendarDate)
    requires parse(StartPhrase(sh, year)) == Some(s)
    requires parse(EndPhrase(sh, year)) == Some(e)
    requires DateBefore(e, s)
    ensures Finish(year, sh, parse) == Dates(DatePair(FormatIso(s), FormatIso(e)))
    ensures LexLess(FormatIso(e), FormatIso(s))
  {
    FinishDates(year, sh, parse, s, e);
    IsoOrder(e, s);
  }

  /** '30 Oct – 1 Sep 2025' in 2025: nothing compares the two dates, so the
      hunt reports a start that lies after its end. */
  lemma BackwardsRange(text: string, env: Env)
    requires env.currentYear == 2025
    requires env.search(GenericPatterns[0], text) == Some(CrossGroups("30", "Oct", "1", "Sep", "2025"))
    requires env.parse("30 Oct 2025") == Some(Date(2025, 10, 30))
    requires env.parse("1 Sep 2025") == Some(Date(2025, 9, 1))
    ensures GenericDateHunt(text, env).Dates?
    ensures LexLess(GenericDateHunt(text, env).pair.endDate, GenericDateHunt(text, env).pair.startDate)
  {
    Year2025();
    AsciiDay("30");
    AsciiDay("1");
    CrossGroupsConform(GenericPatterns[0], "30", "Oct", "1", "Sep", "2025");
    HuntPicks(text, env, 0, CrossGroups("30", "Oct", "1", "Sep", "2025"), 2025, CrossMonth("30", "Oct", "1", "Sep"));
    FinishBackwards(env.parse);
  }

  /** '18 - 19 October 20２５' in 2025: `\d` also matches fullwidth digits and
      `int()` reads them, so the match is used like its ASCII twin and the
      parser is handed the year as written. */
  lemma FullwidthYearRange(text: string, env: Env)
    requires env.currentYear == 2025
    requires env.search(GenericPatterns[0], text) == None
    requires env.search(GenericPatterns[1], text) == Some(RangeGroups("18", "19", "October", "20\U{FF12}\U{FF15}"))
    ensures GenericDateHunt(text, env) == Finish("20\U{FF12}\U{FF15}", SingleMonth("18", "19", "October"), env.parse)
  {
    FullwidthYear();
    AsciiDay("18");
    AsciiDay("19");
    DayFirstRangeHunt(text, env, "18", "19", "October", "20\U{FF12}\U{FF15}", 2025);
  }

  /** '12 March 2023' in 2025: the one pattern that matches carries a year
      that is not recent, so the hunt yields no dates. */
  lemma OutdatedYear(text: string, env: Env)
    requires env.currentYear == 2025
    requires forall i | 0 <= i < 5 && i != 3 :: env.search(GenericPatterns[i], text) == None
    requires env.search(GenericPatterns[3], text) == Some(DayGroups("12", "March", "2023"))
    ensures GenericDateHunt(text, env) == NoDates
  {
    var vs := Verdicts(GenericPatterns, text, env);
    Year2023();
    AsciiDay("12");
    DayGroupsConform(GenericPatterns[3], "12", "March", "2023");
    StepConforming(GenericPatterns[3], DayGroups("12", "March", "2023"), env.currentYear);
    assert vs[3] == Skip;
    assert AllSkip(vs, 0, |vs|);
  }

  /** A start with a trailing `Z` and no end: the event begins at the start
      text, and ends at 23:59:59 on the start's day, at the zero offset the
      `Z` was read as. */
  lemma ZuluStartWithoutEnd(ev: Calendar.RawEvent, fromIso: Calendar.IsoParser, s: string, t: Calendar.DateTime)
    requires 'Z' !in s
    requires fromIso(s + "+00:00") == Some(t)
    ensures Calendar.NormalizeSpan(ev, Calendar.Span(Some(s + "Z"), None), fromIso) ==
      Success(Calendar.CalEvent(Some(s + "Z"), Calendar.EndAt(Calendar.EndOfDay(t)),
        Calendar.Title(ev.title), Calendar.Description(ev.description)))
  {
    Calendar.ReplaceZTrailing(s);
  }

  /** As text, 08:00 UTC sorts before 09:00 at +02:00. */
  lemma OffsetTextOrder()
    ensures LexLess("2025-10-18T08:00:00Z", "2025-10-18T09:00:00+02:00")
  {
    var p := "2025-10-18T0";
    assert "2025-10-18T09:00:00+02:00" == p + "9:00:00+02:00";
    assert "2025-10-18T08:00:00Z" == p + "8:00:00Z";
    assert LexLess("8:00:00Z", "9:00:00+02:00");
    LexLessConcat(p, "8:00:00Z", p, "9:00:00+02:00");
  }

  /** As instants, 08:00 UTC is an hour after 09:00 at +02:00 on any day. */
  lemma OffsetInstantOrder(d: CalendarDate)
    ensures Calendar.InstantMicros(Calendar.Timestamp(d, 9, 0, 0, 0, Some(7200))) + 3600 * 1000000 ==
      Calendar.InstantMicros(Calendar.Timestamp(d, 8, 0, 0, 0, Some(0)))
  {
  }

  /** A start with an explicit offset is passed to the parser unchanged. */
  lemma OffsetStartKept()
    ensures Calendar.ReplaceZ("2025-10-18T09:00:00+02:00") == "2025-10-18T09:00:00+02:00"
  {
    Calendar.ReplaceZKeeps("2025-10-18T09:00:00+02:00");
  }

  /** An end that does not sort after the start is replaced, whatever
      instant it denotes. */
  lemma EarlierTextDefaulted(ev: Calendar.RawEvent, fromIso: Calendar.IsoParser, start: string, end: string, t: Calendar.DateTime)
    requires start != "" && LexLess(end, start)
    requires fromIso(Calendar.ReplaceZ(start)) == Some(t)
    ensures Calendar.NormalizeSpan(ev, Calendar.Span(Some(start), Some(end)), fromIso) ==
      Success(Calendar.CalEvent(Some(start), Calendar.EndAt(Calendar.EndOfDay(t)),
        Calendar.Title(ev.title), Calendar.Description(ev.description)))
  {
    LexTrichotomy(start, end);
  }

  /** The end test compares raw strings, not instants: 08:00 UTC is an hour
      after 09:00+02:00 (`OffsetInstantOrder`), yet as text it sorts first,
      so the given end is replaced by the start's 23:59:59. */
  lemma RawComparisonIgnoresOffsets(ev: Calendar.RawEvent, fromIso: Calendar.IsoParser)
    requires fromIso("2025-10-18T09:00:00+02:00") == Some(Calendar.Timestamp(Date(2025, 10, 18), 9, 0, 0, 0, Some(7200)))
    ensures Calendar.NormalizeSpan(ev, Calendar.Span(Some("2025-10-18T09:00:00+02:00"), Some("2025-10-18T08:00:00Z")), fromIso) ==
      Success(Calendar.CalEvent(Some("2025-10-18T09:00:00+02:00"),
        Calendar.EndAt(Calendar.Timestamp(Date(2025, 10, 18), 23, 59, 59, 0, Some(7200))),
        Calendar.Title(ev.title), Calendar.Description(ev.description)))
  {
    OffsetTextOrder();
    OffsetStartKept();
    EarlierTextDefaulted(ev, fromIso, "2025-10-18T09:00:00+02:00", "2025-10-18T08:00:00Z",
      Calendar.Timestamp(Date(2025, 10, 18), 9, 0, 0, 0, Some(7200)));
  }
}
