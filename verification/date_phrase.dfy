/** Date-phrase extraction from page text (test.py): the recency filter, the
    day-token clean-up of `parse_iso_date`, the first-usable-match walk of
    `try_patterns` with its shape dispatch, and the fixed pattern order of
    `generic_date_hunt`.

    The regular-expression engine, `dateutil`'s fuzzy parser and the clock are
    not modelled: a pattern's search result, the date parser and the current
    year are inputs (see `Env`). */
module DatePhrase {
  import opened Wrappers
  import opened Text
  import opened IsoDate

  // ---------------------------------------------------------------------------
  // Recency filter
  // ---------------------------------------------------------------------------

  /** `is_recent_date`: exactly this year and next year are recent. */
  function IsRecentYear(year: int, currentYear: int): (r: bool)
    ensures r <==> year == currentYear || year == currentYear + 1
  {
    currentYear <= year <= currentYear + 1
  }

  // ---------------------------------------------------------------------------
  // Ordinal suffixes
  // ---------------------------------------------------------------------------

  /** Whether `c` matches the lower-case ASCII letter `lower` under Python's
      `re.IGNORECASE` (which also lets U+017F, long s, match `s`). */
  predicate FoldsTo(c: char, lower: char) {
    || c == lower
    || c as int == lower as int - 32
    || (lower == 's' && c == '\U{17F}')
  }

  /** Two characters matching `st|nd|rd|th` case-insensitively. */
  predicate IsOrdinalSuffix(a: char, b: char) {
    || (FoldsTo(a, 's') && FoldsTo(b, 't'))
    || (FoldsTo(a, 'n') && FoldsTo(b, 'd'))
    || (FoldsTo(a, 'r') && FoldsTo(b, 'd'))
    || (FoldsTo(a, 't') && FoldsTo(b, 'h'))
  }

  predicate EndsWithOrdinal(t: string) {
    |t| >= 2 && IsOrdinalSuffix(t[|t| - 2], t[|t| - 1])
  }

  /** The day token `parse_iso_date` hands on: stripped of surrounding
      whitespace, then of one trailing ordinal suffix if there is one. */
  function StripOrdinal(day: string): (r: string)
    ensures |r| == |Strip(day)| || |r| == |Strip(day)| - 2
    ensures r == Strip(day)[..|r|]
    ensures |r| < |Strip(day)| <==> EndsWithOrdinal(Strip(day))
  {
    var t := Strip(day);
    if EndsWithOrdinal(t) then t[..|t| - 2] else t
  }

  /** A day written only in digits reaches the parser unchanged. */
  lemma {:induction false} StripOrdinalDigits(day: string)
    requires AllDigits(day)
    ensures StripOrdinal(day) == day
  {
    if |day| > 0 {
      assert IsDigit(day[0]) && IsDigit(day[|day| - 1]);
    }
    StripTrimmed(day);
    assert !EndsWithOrdinal(day) by {
      if |day| >= 2 {
        assert IsDigit(day[|day| - 1]);
      }
    }
  }

  /** Digits followed by an ordinal suffix, in any letter case, lose exactly
      the suffix. */
  lemma {:induction false} StripOrdinalSuffix(digits: string, a: char, b: char)
    requires |digits| > 0 && AllDigits(digits)
    requires IsOrdinalSuffix(a, b)
    ensures StripOrdinal(digits + [a, b]) == digits
  {
    var s := digits + [a, b];
    assert s[0] == digits[0] && s[|s| - 1] == b;
    assert !IsSpace(b);
    StripTrimmed(s);
    assert s[..|s| - 2] == digits;
  }

  /** Only one suffix goes: "1stth" becomes "1st". */
  lemma {:induction false} StripOrdinalOnce(digits: string, a: char, b: char, c: char, d: char)
    requires |digits| > 0 && AllDigits(digits)
    requires IsOrdinalSuffix(a, b) && IsOrdinalSuffix(c, d)
    ensures StripOrdinal(digits + [a, b, c, d]) == digits + [a, b]
  {
    var s := digits + [a, b, c, d];
    assert s[0] == digits[0] && s[|s| - 1] == d;
    assert !IsSpace(d);
    StripTrimmed(s);
    assert s[..|s| - 2] == digits + [a, b];
  }

  // ---------------------------------------------------------------------------
  // Patterns and matches
  // ---------------------------------------------------------------------------

  datatype Month = Jan | Feb | Mar | Apr | May | Jun | Jul | Aug | Sep | Oct | Nov | Dec

  /** The month alternation a pattern accepts: any month name, or one month. */
  datatype MonthSpec = AnyMonth | OnlyMonth(month: Month)

  /** The layouts of the patterns in test.py, with the month names each accepts.
      The separators, optional ordinal suffixes, "of" and commas live in the
      (unmodelled) regular expressions. */
  datatype Pattern =
    | CrossMonthRange(first: MonthSpec, second: MonthSpec)  // '30 Sep – 1 Oct 2025'
    | DayFirstRange(month: MonthSpec)                       // '18 - 19 October 2025'
    | MonthFirstRange(month: MonthSpec)                     // 'October 18–19, 2025'
    | DayFirstSingle(month: MonthSpec)                      // '15th of March 2025'
    | MonthFirstSingle(month: MonthSpec)                    // 'March 15th, 2025'

  /** The named groups a pattern declares. */
  function Groups(p: Pattern): set<string> {
    match p
    case CrossMonthRange(_, _) => {"d1", "mon1", "d2", "mon2", "year"}
    case DayFirstRange(_) => {"d1", "d2", "mon", "year"}
    case MonthFirstRange(_) => {"d1", "d2", "mon", "year"}
    case DayFirstSingle(_) => {"d1", "mon", "year"}
    case MonthFirstSingle(_) => {"d1", "mon", "year"}
  }

  /** `Match.groupdict()`: every named group of the pattern, `None` for a
      group that took no part in the match. */
  type GroupDict = map<string, Option<string>>

  /** What the year group `20\d{2}` captures: `\d` in these `str` patterns
      matches a decimal digit of any script, so `20２５` is one. */
  predicate YearToken(s: string) {
    |s| == 4 && s[0] == '2' && s[1] == '0' && IsDecimal(s[2]) && IsDecimal(s[3])
  }

  /** What a day group `\d{1,2}` captures. */
  predicate DayToken(s: string) {
    1 <= |s| <= 2 && AllDecimal(s)
  }

  /** A search result that the pattern's regular expression can produce: it
      names exactly the pattern's groups, each group matched something, the
      year is `20dd` and the days are one or two digits, in any script. */
  predicate Conforms(p: Pattern, raw: GroupDict) {
    && raw.Keys == Groups(p)
    && (forall k | k in raw :: raw[k].Some? && raw[k].value != "")
    && "year" in raw && YearToken(raw["year"].GetOr(""))
    && ("d1" in raw ==> DayToken(raw["d1"].GetOr("")))
    && ("d2" in raw ==> DayToken(raw["d2"].GetOr("")))
  }

  /** `{k: (v or "") for k, v in m.groupdict().items()}`. */
  function Normalize(raw: GroupDict): (gd: map<string, string>)
    ensures gd.Keys == raw.Keys
    ensures forall k | k in raw :: gd[k] == raw[k].GetOr("")
  {
    map k | k in raw :: raw[k].GetOr("")
  }

  /** `gd.get(k)` is truthy: the group exists and captured a non-empty string. */
  predicate Present(gd: map<string, string>, k: string) {
    k in gd && gd[k] != ""
  }

  // ---------------------------------------------------------------------------
  // Shape dispatch
  // ---------------------------------------------------------------------------

  /** The three result shapes `try_patterns` recognises, with their tokens. */
  datatype Shape =
    | CrossMonth(d1: string, mon1: string, d2: string, mon2: string)
    | SingleMonth(d1: string, d2: string, mon: string)
    | SingleDay(d1: string, mon: string)

  /** The shape a recent-year match is read as, in `try_patterns`' priority
      order; `None` when the match fits no shape and the walk moves on. */
  function Classify(gd: map<string, string>): (r: Option<Shape>)
    ensures r.None? <==>
      || !Present(gd, "d1")
      || (!Present(gd, "mon") && !(Present(gd, "mon1") && Present(gd, "d2") && Present(gd, "mon2")))
  {
    if Present(gd, "d1") && Present(gd, "mon1") && Present(gd, "d2") && Present(gd, "mon2") then
      Some(CrossMonth(gd["d1"], gd["mon1"], gd["d2"], gd["mon2"]))
    else if Present(gd, "d1") && Present(gd, "d2") && Present(gd, "mon") then
      Some(SingleMonth(gd["d1"], gd["d2"], gd["mon"]))
    else if Present(gd, "d1") && Present(gd, "mon") then
      Some(SingleDay(gd["d1"], gd["mon"]))
    else
      None
  }

  /** The group dictionary that carries exactly a shape's tokens and a year. */
  function ShapeGroups(sh: Shape, year: string): map<string, string> {
    match sh
    case CrossMonth(d1, mon1, d2, mon2) => map["d1" := d1, "mon1" := mon1, "d2" := d2, "mon2" := mon2, "year" := year]
    case SingleMonth(d1, d2, mon) => map["d1" := d1, "d2" := d2, "mon" := mon, "year" := year]
    case SingleDay(d1, mon) => map["d1" := d1, "mon" := mon, "year" := year]
  }

  predicate NonEmptyTokens(sh: Shape) {
    match sh
    case CrossMonth(d1, mon1, d2, mon2) => d1 != "" && mon1 != "" && d2 != "" && mon2 != ""
    case SingleMonth(d1, d2, mon) => d1 != "" && d2 != "" && mon != ""
    case SingleDay(d1, mon) => d1 != "" && mon != ""
  }

  /** A match carrying exactly a shape's groups is read back as that shape. */
  lemma {:induction false} ClassifyShapeGroups(sh: Shape, year: string)
    requires NonEmptyTokens(sh)
    ensures Classify(ShapeGroups(sh, year)) == Some(sh)
  {
  }

  /** The shape the regular expression of `p` is designed to produce. */
  function LayoutShape(p: Pattern, gd: map<string, string>): Shape
    requires Groups(p) <= gd.Keys
  {
    match p
    case CrossMonthRange(_, _) => CrossMonth(gd["d1"], gd["mon1"], gd["d2"], gd["mon2"])
    case DayFirstRange(_) => SingleMonth(gd["d1"], gd["d2"], gd["mon"])
    case MonthFirstRange(_) => SingleMonth(gd["d1"], gd["d2"], gd["mon"])
    case DayFirstSingle(_) => SingleDay(gd["d1"], gd["mon"])
    case MonthFirstSingle(_) => SingleDay(gd["d1"], gd["mon"])
  }

  /** Every pattern's match is dispatched to the shape its layout describes:
      the dispatch never misreads a match of the patterns in test.py. */
  lemma {:induction false} ClassifyConforming(p: Pattern, raw: GroupDict)
    requires Conforms(p, raw)
    ensures Classify(Normalize(raw)) == Some(LayoutShape(p, Normalize(raw)))
  {
    var gd := Normalize(raw);
    assert forall k | k in Groups(p) :: Present(gd, k);
  }

  // ---------------------------------------------------------------------------
  // One pattern's verdict
  // ---------------------------------------------------------------------------

  /** What `try_patterns` does with one pattern's search result: move on,
      raise (from `int(year)`), or use the match. */
  datatype Step = Skip | Raise | Use(year: string, shape: Shape)

  function StepOf(m: Option<GroupDict>, currentYear: int): (s: Step)
    ensures m.None? ==> s.Skip?
    ensures s.Raise? <==>
      m.Some? && Present(Normalize(m.value), "year") && PyInt(Normalize(m.value)["year"]).None?
    ensures s.Use? ==>
      && m.Some?
      && Present(Normalize(m.value), "year")
      && s.year == Normalize(m.value)["year"]
      && PyInt(s.year).Some?
      && IsRecentYear(PyInt(s.year).value, currentYear)
      && Classify(Normalize(m.value)) == Some(s.shape)
    ensures
      && m.Some?
      && Present(Normalize(m.value), "year")
      && PyInt(Normalize(m.value)["year"]).Some?
      && IsRecentYear(PyInt(Normalize(m.value)["year"]).value, currentYear)
      && Classify(Normalize(m.value)).Some?
      ==> s == Use(Normalize(m.value)["year"], Classify(Normalize(m.value)).value)
  {
    match m
    case None => Skip
    case Some(raw) =>
      var gd := Normalize(raw);
      if !Present(gd, "year") then Skip
      else
        match PyInt(gd["year"])
        case None => Raise
        case Some(y) =>
          if !IsRecentYear(y, currentYear) then Skip
          else
            match Classify(gd)
            case None => Skip
            case Some(sh) => Use(gd["year"], sh)
  }

  /** A match of one of test.py's patterns never makes `int(year)` raise: it
      is used when its year (always 2000 to 2099) is recent, and skipped
      otherwise. */
  lemma {:induction false} StepConforming(p: Pattern, raw: GroupDict, currentYear: int)
    requires Conforms(p, raw)
    ensures PyInt(raw["year"].value).Some?
    ensures 2000 <= PyInt(raw["year"].value).value <= 2099
    ensures StepOf(Some(raw), currentYear) ==
      if IsRecentYear(PyInt(raw["year"].value).value, currentYear)
      then Use(raw["year"].value, LayoutShape(p, Normalize(raw)))
      else Skip
  {
    var y := raw["year"].value;
    YearTokenRange(y);
    ClassifyConforming(p, raw);
  }

  /** `20dd` denotes a year from 2000 to 2099, whatever the script of its
      last two digits. */
  lemma {:induction false} YearTokenRange(y: string)
    requires YearToken(y)
    ensures PyInt(y).Some?
    ensures 2000 <= PyInt(y).value <= 2099
  {
    YearTokenValue(y);
  }

  /** The value `int()` gives a year token: 2000 plus the value of its last
      two digits, whatever their script. */
  lemma {:induction false} YearTokenValue(y: string)
    requires YearToken(y)
    ensures PyInt(y) == Some(2000 + 10 * DecimalValue(y[2]).value + DecimalValue(y[3]).value)
  {
    var c2, c3 := y[2], y[3];
    YearTokenSplit(y, c2, c3);
    YearDigitsValue(c2, c3);
    PyIntOf("20" + [c2] + [c3], 2000 + 10 * DecimalValue(c2).value + DecimalValue(c3).value);
  }

  lemma {:induction false} YearDigitsValue(c2: char, c3: char)
    requires IsDecimal(c2) && IsDecimal(c3)
    ensures AllDecimal("20" + [c2] + [c3])
    ensures DecimalsValue("20" + [c2] + [c3]) == 2000 + 10 * DecimalValue(c2).value + DecimalValue(c3).value
  {
    TwentyValue();
    DecimalsAppendDigit("20", c2);
    DecimalsAppendDigit("20" + [c2], c3);
  }

  lemma {:induction false} YearTextChars(c2: char, c3: char)
    ensures var y := "20" + [c2] + [c3]; |y| == 4 && y[0] == '2' && y[1] == '0' && y[2] == c2 && y[3] == c3
  {
  }

  lemma {:induction false} YearTokenSplit(y: string, c2: char, c3: char)
    requires |y| == 4 && y[0] == '2' && y[1] == '0' && y[2] == c2 && y[3] == c3
    ensures y == "20" + [c2] + [c3]
  {
    var t := "20" + [c2] + [c3];
    assert t[0] == '2' && t[1] == '0' && t[2] == c2 && t[3] == c3;
  }

  lemma {:induction false} TwentyValue()
    ensures AllDecimal("20") && DecimalsValue("20") == 20
  {
    var t := "20";
    assert AllDigits(t);
    assert DigitsValue(t[..1]) == 2 by { assert t[..1] == "2"; }
    assert DigitsValue(t) == 20;
  }

  // ---------------------------------------------------------------------------
  // From tokens to ISO dates
  // ---------------------------------------------------------------------------

  /** `dateutil.parser.parse(text, fuzzy=True).date()`, abstracted: `None`
      stands for the exception it raises. */
  type DateParser = string -> Option<CalendarDate>

  /** The text `parse_iso_date` gives the parser. */
  function Phrase(day: string, month: string, year: string): string {
    StripOrdinal(day) + " " + month + " " + year
  }

  /** `parse_iso_date`: the ISO text of the date the parser reads from the
      cleaned-up tokens; `None` when the parser raises. */
  function ParseIsoDate(day: string, month: string, year: string, parse: DateParser): (r: Option<string>)
    ensures r.Some? <==> parse(Phrase(day, month, year)).Some?
    ensures r.Some? ==> DecodeIso(r.value) == parse(Phrase(day, month, year))
  {
    match parse(Phrase(day, month, year))
    case None => None
    case Some(d) => IsoRoundTrip(d); Some(FormatIso(d))
  }

  datatype DatePair = DatePair(startDate: string, endDate: string)

  /** What `try_patterns` returns: it raised, it returned `None`, or it
      returned `{"start_date": .., "end_date": ..}`. */
  datatype Outcome = Raised | NoDates | Dates(pair: DatePair)

  /** The phrase the start date is read from, for each shape. */
  function StartPhrase(sh: Shape, year: string): string {
    match sh
    case CrossMonth(d1, mon1, _, _) => Phrase(d1, mon1, year)
    case SingleMonth(d1, _, mon) => Phrase(d1, mon, year)
    case SingleDay(d1, mon) => Phrase(d1, mon, year)
  }

  /** The phrase the end date is read from: the second day and its month, or
      the single day itself. */
  function EndPhrase(sh: Shape, year: string): string {
    match sh
    case CrossMonth(_, _, d2, mon2) => Phrase(d2, mon2, year)
    case SingleMonth(_, d2, mon) => Phrase(d2, mon, year)
    case SingleDay(d1, mon) => Phrase(d1, mon, year)
  }

  function BothDates(start: Option<string>, end: Option<string>): Outcome {
    if start.Some? && end.Some? then Dates(DatePair(start.value, end.value)) else Raised
  }

  /** The result of a used match: the dates read from the start and end
      phrases, or a raise when the parser fails on either. A single day is
      its own end date. */
  function Finish(year: string, sh: Shape, parse: DateParser): (r: Outcome)
    ensures !r.NoDates?
    ensures r.Dates? <==> parse(StartPhrase(sh, year)).Some? && parse(EndPhrase(sh, year)).Some?
    ensures r.Dates? ==> DecodeIso(r.pair.startDate) == parse(StartPhrase(sh, year))
    ensures r.Dates? ==> DecodeIso(r.pair.endDate) == parse(EndPhrase(sh, year))
    ensures r.Dates? && sh.SingleDay? ==> r.pair.startDate == r.pair.endDate
  {
    match sh
    case CrossMonth(d1, mon1, d2, mon2) =>
      BothDates(ParseIsoDate(d1, mon1, year, parse), ParseIsoDate(d2, mon2, year, parse))
    case SingleMonth(d1, d2, mon) =>
      BothDates(ParseIsoDate(d1, mon, year, parse), ParseIsoDate(d2, mon, year, parse))
    case SingleDay(d1, mon) =>
      match ParseIsoDate(d1, mon, year, parse)
      case None => Raised
      case Some(day) => Dates(DatePair(day, day))
  }

  /** The outcome a pattern's verdict settles the walk on. */
  function Settle(s: Step, parse: DateParser): Outcome {
    match s
    case Skip => NoDates
    case Raise => Raised
    case Use(year, sh) => Finish(year, sh, parse)
  }

  // ---------------------------------------------------------------------------
  // The ordered walk
  // ---------------------------------------------------------------------------

  /** The inputs the extraction depends on: each pattern's search result in
      the page text, the date parser, and the year `datetime.now()` gives. */
  datatype Env = Env(
    search: (Pattern, string) -> Option<GroupDict>,
    parse: DateParser,
    currentYear: int)

  /** Each pattern's verdict on `text`, in list order. */
  function Verdicts(ps: seq<Pattern>, text: string, env: Env): (vs: seq<Step>)
    ensures |vs| == |ps|
    ensures forall i | 0 <= i < |ps| :: vs[i] == Verdict(ps[i], text, env)
  {
    if |ps| == 0 then []
    else [Verdict(ps[0], text, env)] + Verdicts(ps[1..], text, env)
  }

  /** One pattern's verdict on `text`. */
  function Verdict(p: Pattern, text: string, env: Env): Step {
    StepOf(env.search(p, text), env.currentYear)
  }

  /** Verdicts of a concatenated list are the concatenated verdicts. */
  lemma {:induction false} VerdictsAppend(a: seq<Pattern>, b: seq<Pattern>, text: string, env: Env)
    ensures Verdicts(a + b, text, env) == Verdicts(a, text, env) + Verdicts(b, text, env)
    decreases |a|
  {
    if |a| == 0 {
      assert a + b == b;
    } else {
      var head := [Verdict(a[0], text, env)];
      assert (a + b)[0] == a[0];
      assert (a + b)[1..] == a[1..] + b;
      VerdictsAppend(a[1..], b, text, env);
      calc {
        Verdicts(a + b, text, env);
        head + Verdicts(a[1..] + b, text, env);
        head + (Verdicts(a[1..], text, env) + Verdicts(b, text, env));
        (head + Verdicts(a[1..], text, env)) + Verdicts(b, text, env);
      }
    }
  }

  /** Verdicts `lo..hi` are all `Skip`. */
  predicate AllSkip(vs: seq<Step>, lo: int, hi: int)
    requires 0 <= lo <= hi <= |vs|
  {
    forall j | lo <= j < hi :: vs[j].Skip?
  }

  /** Verdict `k` is the first at or after `lo` that is not `Skip`. */
  predicate FirstUsable(vs: seq<Step>, lo: int, k: int)
  {
    0 <= lo <= k < |vs| && AllSkip(vs, lo, k) && !vs[k].Skip?
  }

  /** The loop of `try_patterns` from verdict `i` on: the verdict it stops
      at, which is the first one that is not `Skip`, or `Skip` when it runs
      off the end. */
  function WalkFrom(vs: seq<Step>, i: nat): (s: Step)
    requires i <= |vs|
    ensures s.Skip? <==> AllSkip(vs, i, |vs|)
    decreases |vs| - i
  {
    if i == |vs| then Skip
    else if vs[i].Skip? then WalkFrom(vs, i + 1)
    else vs[i]
  }

  /** `try_patterns(text, patterns)`: every pattern's search result is an
      input, so the verdicts can be formed up front and walked in order; the
      verdict the walk stops at settles the outcome, and running off the end
      returns `None`. */
  function TryPatterns(ps: seq<Pattern>, text: string, env: Env): (r: Outcome)
    ensures r.NoDates? <==> AllSkip(Verdicts(ps, text, env), 0, |ps|)
    ensures !r.NoDates? ==> exists k :: FirstUsable(Verdicts(ps, text, env), 0, k) && r == Settle(Verdicts(ps, text, env)[k], env.parse)
  {
    var vs := Verdicts(ps, text, env);
    var s := WalkFrom(vs, 0);
    if s.Skip? then Settle(s, env.parse)
    else WalkDecides(vs); Settle(s, env.parse)
  }

  /** The walk from `i` stops at the first usable verdict at or after `i`. */
  lemma {:induction false} WalkFromFirst(vs: seq<Step>, i: int, k: int)
    requires FirstUsable(vs, i, k)
    ensures WalkFrom(vs, i) == vs[k]
    decreases k - i
  {
    if i < k {
      assert vs[i].Skip?;
      assert FirstUsable(vs, i + 1, k);
      WalkFromFirst(vs, i + 1, k);
    }
  }

  /** The walk stops at its first usable verdict. */
  lemma {:induction false} WalkFirstUsable(vs: seq<Step>, k: int)
    requires FirstUsable(vs, 0, k)
    ensures WalkFrom(vs, 0) == vs[k]
  {
    WalkFromFirst(vs, 0, k);
  }

  /** Unless every verdict is `Skip`, some verdict is the first usable one. */
  lemma {:induction false} FirstUsableExists(vs: seq<Step>, i: int)
    requires 0 <= i <= |vs| && !AllSkip(vs, i, |vs|)
    ensures exists k :: FirstUsable(vs, i, k)
    decreases |vs| - i
  {
    if vs[i].Skip? {
      FirstUsableExists(vs, i + 1);
      var k :| FirstUsable(vs, i + 1, k);
      assert FirstUsable(vs, i, k);
    } else {
      assert FirstUsable(vs, i, i);
    }
  }

  /** A walk that does not run off the end stops at its first usable
      verdict. */
  lemma {:induction false} WalkDecides(vs: seq<Step>)
    requires !WalkFrom(vs, 0).Skip?
    ensures exists k :: FirstUsable(vs, 0, k) && WalkFrom(vs, 0) == vs[k]
  {
    FirstUsableExists(vs, 0);
    var k :| FirstUsable(vs, 0, k);
    WalkFirstUsable(vs, k);
  }

  /** The walk passes over a run of `Skip` verdicts unchanged. */
  lemma {:induction false} WalkPastSkips(vs: seq<Step>, i: int, j: int)
    requires 0 <= i <= j <= |vs| && AllSkip(vs, i, j)
    ensures WalkFrom(vs, i) == WalkFrom(vs, j)
    decreases j - i
  {
    if i < j {
      assert vs[i].Skip?;
      WalkPastSkips(vs, i + 1, j);
    }
  }

  /** Walking the tail of `a + b` is walking `b`. */
  lemma {:induction false} WalkShift(a: seq<Step>, b: seq<Step>, i: int)
    requires 0 <= i <= |b|
    ensures WalkFrom(a + b, |a| + i) == WalkFrom(b, i)
    decreases |b| - i
  {
    if i < |b| {
      assert (a + b)[|a| + i] == b[i];
      if b[i].Skip? {
        WalkShift(a, b, i + 1);
      }
    }
  }

  /** Skipped verdicts do not block later ones. */
  lemma {:induction false} WalkSkippedPrefix(a: seq<Step>, b: seq<Step>)
    requires AllSkip(a, 0, |a|)
    ensures WalkFrom(a + b, 0) == WalkFrom(b, 0)
  {
    var ab := a + b;
    assert AllSkip(ab, 0, |a|) by {
      forall j | 0 <= j < |a|
        ensures ab[j].Skip?
      {
        assert ab[j] == a[j];
      }
    }
    WalkPastSkips(ab, 0, |a|);
    WalkShift(a, b, 0);
  }

  /** Once a verdict of `a` is usable, what follows `a` is never consulted. */
  lemma {:induction false} WalkStopsAtFirst(a: seq<Step>, b: seq<Step>)
    requires !AllSkip(a, 0, |a|)
    ensures WalkFrom(a + b, 0) == WalkFrom(a, 0)
  {
    var ab := a + b;
    WalkDecides(a);
    var k :| FirstUsable(a, 0, k) && WalkFrom(a, 0) == a[k];
    assert forall j | 0 <= j < |a| :: ab[j] == a[j];
    assert FirstUsable(ab, 0, k);
    WalkFirstUsable(ab, k);
  }

  /** A pattern with no match, no year or a year that is not recent does not
      block later patterns: the list behaves as if it were not there. */
  lemma {:induction false} TryPatternsSkippedPrefix(a: seq<Pattern>, b: seq<Pattern>, text: string, env: Env)
    requires AllSkip(Verdicts(a, text, env), 0, |a|)
    ensures TryPatterns(a + b, text, env) == TryPatterns(b, text, env)
  {
    VerdictsAppend(a, b, text, env);
    WalkSkippedPrefix(Verdicts(a, text, env), Verdicts(b, text, env));
  }

  /** The first usable pattern wins: patterns after it are not consulted. */
  lemma {:induction false} TryPatternsStopsAtFirst(a: seq<Pattern>, b: seq<Pattern>, text: string, env: Env)
    requires !AllSkip(Verdicts(a, text, env), 0, |a|)
    ensures TryPatterns(a + b, text, env) == TryPatterns(a, text, env)
  {
    VerdictsAppend(a, b, text, env);
    WalkStopsAtFirst(Verdicts(a, text, env), Verdicts(b, text, env));
  }

  // ---------------------------------------------------------------------------
  // The generic fallback
  // ---------------------------------------------------------------------------

  /** `generic_date_hunt`'s patterns, in the order they are tried. */
  const GenericPatterns: seq<Pattern> := [
    CrossMonthRange(AnyMonth, AnyMonth),
    DayFirstRange(AnyMonth),
    MonthFirstRange(AnyMonth),
    DayFirstSingle(AnyMonth),
    MonthFirstSingle(AnyMonth)
  ]

  /** `generic_date_hunt`: `None` exactly when every generic pattern is
      passed over, and otherwise what the first usable one settles on. */
  function GenericDateHunt(text: string, env: Env): (r: Outcome)
    ensures r.NoDates? <==>
      forall i | 0 <= i < |GenericPatterns| :: StepOf(env.search(GenericPatterns[i], text), env.currentYear).Skip?
    ensures !r.NoDates? ==> exists k | 0 <= k < |GenericPatterns| ::
      && (forall i | 0 <= i < k :: StepOf(env.search(GenericPatterns[i], text), env.currentYear).Skip?)
      && r == Settle(StepOf(env.search(GenericPatterns[k], text), env.currentYear), env.parse)
  {
    TryPatterns(GenericPatterns, text, env)
  }

  /** Every search result in `text` is one the pattern's expression can give. */
  predicate SearchConforms(ps: seq<Pattern>, text: string, env: Env) {
    forall i | 0 <= i < |ps| :: env.search(ps[i], text).Some? ==> Conforms(ps[i], env.search(ps[i], text).value)
  }

  /** The generic patterns read ranges before single days, and day-first
      before month-first. */
  lemma {:induction false} GenericOrder()
    ensures |GenericPatterns| == 5
    ensures forall i | 0 <= i < 3 :: "d2" in Groups(GenericPatterns[i])
    ensures forall i | 3 <= i < 5 :: "d2" !in Groups(GenericPatterns[i])
    ensures "mon1" in Groups(GenericPatterns[0]) && "mon2" in Groups(GenericPatterns[0])
    ensures GenericPatterns[1].DayFirstRange? && GenericPatterns[2].MonthFirstRange?
    ensures GenericPatterns[3].DayFirstSingle? && GenericPatterns[4].MonthFirstSingle?
  {
  }

  /** When the generic hunt finds dates, the year they were read with lies in
      2000..2099 and is this year or next; a raise can only come from the
      date parser. */
  lemma {:induction false} GenericHuntYear(text: string, env: Env)
    requires SearchConforms(GenericPatterns, text, env)
    ensures !GenericDateHunt(text, env).NoDates? ==>
      exists k :: FirstUsable(Verdicts(GenericPatterns, text, env), 0, k)
        && Verdicts(GenericPatterns, text, env)[k].Use?
        && 2000 <= PyInt(Verdicts(GenericPatterns, text, env)[k].year).value <= 2099
        && IsRecentYear(PyInt(Verdicts(GenericPatterns, text, env)[k].year).value, env.currentYear)
  {
    var vs := Verdicts(GenericPatterns, text, env);
    var r := GenericDateHunt(text, env);
    if !r.NoDates? {
      assert !WalkFrom(vs, 0).Skip?;
      WalkDecides(vs);
      var k :| FirstUsable(vs, 0, k) && WalkFrom(vs, 0) == vs[k];
      var m := env.search(GenericPatterns[k], text);
      assert m.Some?;
      StepConforming(GenericPatterns[k], m.value, env.currentYear);
    }
  }

  /** From 2100 on (and before 1999) the generic patterns can no longer
      find a date: their year group only captures 20dd. */
  lemma {:induction false} GenericHuntExpires(text: string, env: Env)
    requires SearchConforms(GenericPatterns, text, env)
    requires env.currentYear >= 2100 || env.currentYear < 1999
    ensures GenericDateHunt(text, env) == NoDates
  {
    GenericHuntYear(text, env);
  }
}
