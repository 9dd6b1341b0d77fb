/** The calendar builder (generate_dhl_ics.py): one calendar event per
    `daterange` entry of every event of every item of the stadium API's
    response, with the end time defaulted when it is missing or not after
    the start.

    The HTTP request, `datetime.fromisoformat` and the `ics` library are not
    modelled: the decoded response and the timestamp parser are inputs. */
module Calendar {
  import opened Wrappers
  import opened Text
  import opened IsoDate

  /** A JSON object member as `dict.get(key, default)` sees it. */
  datatype Field = Missing | Null | Str(text: string)

  /** One `daterange` entry. `dr.get("start")` is `None` both when the key is
      missing and when it holds JSON null, so the model does not tell them
      apart. */
  datatype Span = Span(start: Option<string>, end: Option<string>)

  /** One entry of `item["attributes"]["event"]`; a missing `daterange` is
      the empty list. */
  datatype RawEvent = RawEvent(title: Field, description: Field, dateranges: seq<Span>)

  /** One entry of the response's `data` list, reduced to its events. */
  datatype Item = Item(events: seq<RawEvent>)

  /** A `datetime`: date, time of day, microseconds and UTC offset in
      seconds (`None` for a naive value). */
  datatype Timestamp = Timestamp(date: Date, hour: int, minute: int, second: int, micro: int, offset: Option<int>)

  predicate ValidTimestamp(t: Timestamp) {
    && ValidDate(t.date)
    && 0 <= t.hour < 24 && 0 <= t.minute < 60 && 0 <= t.second < 60
    && 0 <= t.micro < 1000000
    && (t.offset.Some? ==> -86400 < t.offset.value < 86400)
  }

  type DateTime = t: Timestamp | ValidTimestamp(t) witness Timestamp(Date(1, 1, 1), 0, 0, 0, 0, None)

  /** `datetime.fromisoformat`; `None` stands for the `ValueError` it raises. */
  type IsoParser = string -> Option<DateTime>

  /** `date.toordinal()`: day 1 is 0001-01-01. */
  function Ordinal(d: CalendarDate): int {
    var y := d.year - 1;
    365 * y + y / 4 - y / 100 + y / 400 + DaysBeforeMonth(d.year, d.month) + d.day
  }

  function DaysBeforeMonth(y: int, m: int): nat
    requires 1 <= m <= 12
  {
    if m == 1 then 0 else DaysBeforeMonth(y, m - 1) + DaysInMonth(y, m - 1)
  }

  /** The instant a timestamp denotes, in microseconds since 0001-01-01 UTC
      (a naive timestamp is read as UTC). */
  function InstantMicros(t: DateTime): int {
    var seconds := Ordinal(t.date) * 86400 + t.hour * 3600 + t.minute * 60 + t.second - t.offset.GetOr(0);
    seconds * 1000000 + t.micro
  }

  /** `start.replace("Z", "+00:00")`: every `Z` becomes a zero UTC offset. */
  function ReplaceZ(s: string): (r: string)
    ensures 'Z' !in r
    ensures |r| >= |s|
  {
    if |s| == 0 then ""
    else (if s[0] == 'Z' then "+00:00" else [s[0]]) + ReplaceZ(s[1..])
  }

  /** Replacing is done piece by piece. */
  lemma {:induction false} ReplaceZAppend(a: string, b: string)
    ensures ReplaceZ(a + b) == ReplaceZ(a) + ReplaceZ(b)
    decreases |a|
  {
    if |a| == 0 {
      assert a + b == b;
    } else {
      assert (a + b)[1..] == a[1..] + b;
      ReplaceZAppend(a[1..], b);
    }
  }

  /** A timestamp without `Z` is passed on unchanged. */
  lemma {:induction false} ReplaceZKeeps(s: string)
    requires 'Z' !in s
    ensures ReplaceZ(s) == s
    decreases |s|
  {
    if |s| > 0 {
      assert s[0] in s;
      assert forall c | c in s[1..] :: c in s;
      ReplaceZKeeps(s[1..]);
    }
  }

  /** A trailing UTC designator becomes the `+00:00` offset that
      `fromisoformat` (before Python 3.11) requires. */
  lemma {:induction false} ReplaceZTrailing(s: string)
    requires 'Z' !in s
    ensures ReplaceZ(s + "Z") == s + "+00:00"
  {
    ReplaceZAppend(s, "Z");
    ReplaceZKeeps(s);
    assert "Z"[1..] == "";
  }

  /** `t.replace(hour=23, minute=59, second=59)`. */
  function EndOfDay(t: DateTime): DateTime {
    t.(hour := 23, minute := 59, second := 59)
  }

  /** The default end lies on the start's calendar day, keeps its offset and
      microseconds, and is never earlier than the start. */
  lemma EndOfDayNotEarlier(t: DateTime)
    ensures EndOfDay(t).date == t.date && EndOfDay(t).offset == t.offset && EndOfDay(t).micro == t.micro
    ensures (EndOfDay(t).hour, EndOfDay(t).minute, EndOfDay(t).second) == (23, 59, 59)
    ensures InstantMicros(EndOfDay(t)) >= InstantMicros(t)
    ensures InstantMicros(EndOfDay(t)) - InstantMicros(t) < 86400 * 1000000
  {
  }

  /** The end a calendar event is given: the raw `end` text, or a
      `datetime`. */
  datatype End = EndText(text: string) | EndAt(at: DateTime)

  /** The fields the loop sets on an `ics.Event`. `name` and `description`
      are `None` when the JSON holds null. */
  datatype CalEvent = CalEvent(begin: Option<string>, end: End, name: Option<string>, description: Option<string>)

  /** Why the loop body raises: `start` is absent (`None.replace` or
      `str <= None`), or `fromisoformat` rejects it. */
  datatype Error = NoStart | BadStart

  /** `ev.get("title", "No title")`. */
  function Title(f: Field): Option<string> {
    match f
    case Missing => Some("No title")
    case Null => None
    case Str(t) => Some(t)
  }

  /** `ev.get("description", "")`. */
  function Description(f: Field): Option<string> {
    match f
    case Missing => Some("")
    case Null => None
    case Str(t) => Some(t)
  }

  /** The loop body for one date range of one event. */
  function NormalizeSpan(ev: RawEvent, span: Span, fromIso: IsoParser): (r: Result<CalEvent, Error>)
    // begin is set exactly when start is non-empty
    ensures r.Success? ==> span.start.Some? && (r.value.begin == if span.start.value != "" then span.start else None)
    // a present end that is later than start, as Python strings, is kept verbatim
    ensures span.start.Some? && span.end.Some? && LexLess(span.start.value, span.end.value) ==>
      r.Success? && r.value.end == EndText(span.end.value)
    // ... and is the only end that is kept verbatim
    ensures r.Success? && r.value.end.EndText? ==>
      span.end == Some(r.value.end.text) && LexLess(span.start.value, r.value.end.text)
    // otherwise the end is the start's day at 23:59:59
    ensures r.Success? && r.value.end.EndAt? ==>
      fromIso(ReplaceZ(span.start.value)).Some? && r.value.end.at == EndOfDay(fromIso(ReplaceZ(span.start.value)).value)
    // an absent start always raises; otherwise only an unparseable start can
    ensures span.start.None? ==> r == Failure(NoStart)
    ensures r.Failure? && span.start.Some? ==> r.error == BadStart && fromIso(ReplaceZ(span.start.value)).None?
    ensures r.Success? ==> r.value.name == Title(ev.title) && r.value.description == Description(ev.description)
  {
    match span.start
    case None => Failure(NoStart)
    case Some(start) =>
      var begin := if start != "" then Some(start) else None;
      NotLeIsGreater(span.end.GetOr(""), start);
      if span.end.None? || span.end.value == "" || LexLe(span.end.value, start) then
        match fromIso(ReplaceZ(start))
        case None => Failure(BadStart)
        case Some(t) =>
          Success(CalEvent(begin, EndAt(EndOfDay(t)), Title(ev.title), Description(ev.description)))
      else
        Success(CalEvent(begin, EndText(span.end.value), Title(ev.title), Description(ev.description)))
  }

  /** The end of a normalized event is never earlier than its start. */
  lemma NormalizedEndNotEarlier(ev: RawEvent, span: Span, fromIso: IsoParser)
    requires NormalizeSpan(ev, span, fromIso).Success?
    ensures var e := NormalizeSpan(ev, span, fromIso).value.end;
      || (e.EndText? && LexLess(span.start.value, e.text))
      || (e.EndAt? && InstantMicros(e.at) >= InstantMicros(fromIso(ReplaceZ(span.start.value)).value)
          && e.at.date == fromIso(ReplaceZ(span.start.value)).value.date)
  {
    var e := NormalizeSpan(ev, span, fromIso).value.end;
    if e.EndAt? {
      EndOfDayNotEarlier(fromIso(ReplaceZ(span.start.value)).value);
    }
  }

  // ---------------------------------------------------------------------------
  // The three nested loops
  // ---------------------------------------------------------------------------

  /** Every (event, date range) pair in loop order. */
  function EventSpans(ev: RawEvent): (ps: seq<(RawEvent, Span)>)
    ensures |ps| == |ev.dateranges|
    ensures forall i | 0 <= i < |ps| :: ps[i] == (ev, ev.dateranges[i])
  {
    seq(|ev.dateranges|, i requires 0 <= i < |ev.dateranges| => (ev, ev.dateranges[i]))
  }

  function ItemSpans(events: seq<RawEvent>): seq<(RawEvent, Span)> {
    if |events| == 0 then [] else EventSpans(events[0]) + ItemSpans(events[1..])
  }

  function AllSpans(items: seq<Item>): seq<(RawEvent, Span)> {
    if |items| == 0 then [] else ItemSpans(items[0].events) + AllSpans(items[1..])
  }

  /** How many `daterange` entries the response holds. */
  function RangeCount(items: seq<Item>): nat {
    if |items| == 0 then 0 else EventsRangeCount(items[0].events) + RangeCount(items[1..])
  }

  function EventsRangeCount(events: seq<RawEvent>): nat {
    if |events| == 0 then 0 else |events[0].dateranges| + EventsRangeCount(events[1..])
  }

  /** The loops visit every `daterange` entry exactly once. */
  lemma {:induction false} AllSpansCount(items: seq<Item>)
    ensures |AllSpans(items)| == RangeCount(items)
    decreases |items|
  {
    if |items| > 0 {
      ItemSpansCount(items[0].events);
      AllSpansCount(items[1..]);
    }
  }

  lemma {:induction false} ItemSpansCount(events: seq<RawEvent>)
    ensures |ItemSpans(events)| == EventsRangeCount(events)
    decreases |events|
  {
    if |events| > 0 {
      ItemSpansCount(events[1..]);
    }
  }

  /** Normalizes the pairs in order; the first raise aborts the run. */
  function NormalizeAll(ps: seq<(RawEvent, Span)>, fromIso: IsoParser): (r: Result<seq<CalEvent>, Error>)
    ensures r.Success? ==>
      |r.value| == |ps| && forall i | 0 <= i < |ps| :: NormalizeSpan(ps[i].0, ps[i].1, fromIso) == Success(r.value[i])
    ensures r.Failure? ==>
      exists k | 0 <= k < |ps| ::
        && NormalizeSpan(ps[k].0, ps[k].1, fromIso) == Failure(r.error)
        && forall j | 0 <= j < k :: NormalizeSpan(ps[j].0, ps[j].1, fromIso).Success?
  {
    if |ps| == 0 then Success([])
    else
      match NormalizeSpan(ps[0].0, ps[0].1, fromIso)
      case Failure(e) => Failure(e)
      case Success(ev) =>
        match NormalizeAll(ps[1..], fromIso)
        case Failure(e) =>
          assert exists k | 0 <= k < |ps| ::
            && NormalizeSpan(ps[k].0, ps[k].1, fromIso) == Failure(e)
            && forall j | 0 <= j < k :: NormalizeSpan(ps[j].0, ps[j].1, fromIso).Success? by {
            var k :| 0 <= k < |ps| - 1
              && NormalizeSpan(ps[1..][k].0, ps[1..][k].1, fromIso) == Failure(e)
              && forall j | 0 <= j < k :: NormalizeSpan(ps[1..][j].0, ps[1..][j].1, fromIso).Success?;
            assert forall j | 1 <= j <= k :: ps[j] == ps[1..][j - 1];
            assert ps[k + 1] == ps[1..][k];
          }
          Failure(e)
        case Success(rest) =>
          assert forall i | 1 <= i < |ps| :: ps[i] == ps[1..][i - 1];
          Success([ev] + rest)
  }

  /** The calendar's events: one per `daterange` entry, in loop order, or
      the error that aborted the script. */
  function BuildCalendar(items: seq<Item>, fromIso: IsoParser): Result<seq<CalEvent>, Error> {
    NormalizeAll(AllSpans(items), fromIso)
  }

  /** A calendar that is built holds exactly one event per `daterange` entry
      of every event of every item. */
  lemma OneEventPerRange(items: seq<Item>, fromIso: IsoParser)
    requires BuildCalendar(items, fromIso).Success?
    ensures |BuildCalendar(items, fromIso).value| == RangeCount(items)
  {
    AllSpansCount(items);
  }

  /** The script aborts exactly when some date range cannot be normalized. */
  lemma {:induction false} BuildCalendarAborts(items: seq<Item>, fromIso: IsoParser)
    ensures BuildCalendar(items, fromIso).Failure? <==>
      exists k | 0 <= k < |AllSpans(items)| ::
        NormalizeSpan(AllSpans(items)[k].0, AllSpans(items)[k].1, fromIso).Failure?
  {
    var ps := AllSpans(items);
    if BuildCalendar(items, fromIso).Success? {
      forall k | 0 <= k < |ps|
        ensures NormalizeSpan(ps[k].0, ps[k].1, fromIso).Success?
      {
      }
    }
  }
}
