# Cape Town event dates, in Dafny

The repository holds two scripts, and this project models the logic of both.

`test.py` scrapes the web sites of seven recurring Cape Town events, such as the Cycle Tour and the Two Oceans Marathon. From each page's visible text it extracts the event's start and end date as ISO `YYYY-MM-DD` text:

- It tries each site's own regular expressions first, then five generic ones.
- The first match whose `year` group is this year or next decides the result.
- The match's named groups are read as a cross-month range, a single-month range, or a single day.
- Ordinal suffixes are stripped, and the date parser is handed `"<day> <month> <year>"`.
- The runner collects the record of every extractor that neither raised nor returned `None`.

`generate_dhl_ics.py` turns the DHL Stadium events API response into calendar events:

- It creates one event per `daterange` entry of every event of every item.
- A start becomes the event's begin only when it is non-empty.
- An end that is missing, or that does not sort after the start as a Python string, is replaced by 23:59:59 on the start's day. To get that day, the start is parsed with `fromisoformat` after every `Z` is replaced by `+00:00`.
- The title defaults to `"No title"` and the description to `""`.

## Modules

| file | module | content |
|---|---|---|
| `wrappers.dfy` | `Wrappers` | `Option`, `Result` |
| `text.dfy` | `Text` | Python's `str.strip` whitespace set, string order `<`/`<=`, Unicode decimal digits and `int()` on them, zero-padded decimal text |
| `iso_date.dfy` | `IsoDate` | proleptic Gregorian dates and `str(date)`; its round trip and order |
| `date_phrase.dfy` | `DatePhrase` | `is_recent_date`, `parse_iso_date`, `try_patterns`, `generic_date_hunt` |
| `scraper.dfy` | `Scraper` | `fetch_site`, `fetch_all_events`, the seven extractors |
| `calendar.dfy` | `Calendar` | the loop body and the three nested loops of `generate_dhl_ics.py` |
| `scenarios.dfy` | `Scenarios` | the docstring's example phrases and two calendar cases, worked through |

The following inputs are function-typed parameters, not implementations:

- the regular-expression search: a pattern and a text give the match's `groupdict()` or `None`;
- `dateutil.parser.parse(..., fuzzy=True).date()`;
- `safe_get`;
- `html_to_text`;
- `datetime.fromisoformat`;
- the year `datetime.now()` reports.

An exception is an outcome:

- `Raised` for `try_patterns`;
- `Failed` for an extractor;
- `Failure(NoStart | BadStart)` for the calendar script, whose first raise aborts it.

## Model

| member | source | states |
|---|---|---|
| DatePhrase.IsRecentYear | test.py:55-58 | a year is recent exactly when it is the current year or the next one |
| DatePhrase.StripOrdinal | test.py:80 | the day token is stripped, then loses exactly two trailing characters iff they spell st/nd/rd/th in any case (including the long s that `re.IGNORECASE` folds to `s`), and is otherwise only stripped |
| DatePhrase.StripOrdinalSuffix | test.py:80 | a digit token followed by an ordinal suffix comes back as the digits alone |
| DatePhrase.StripOrdinalDigits | test.py:80 | a token of digits is passed on unchanged |
| DatePhrase.StripOrdinalOnce | test.py:80 | the anchored substitution removes one suffix only: digits followed by two suffixes keep the first of them |
| DatePhrase.ParseIsoDate | test.py:77-82 | the result exists exactly when the parser accepts `"<day> <month> <year>"`, and it is ISO text that decodes to the parsed date |
| DatePhrase.Classify | test.py:100-115 | a match is read as no shape exactly when `d1` is empty or missing, or when there is no `mon` and no complete `mon1`/`d2`/`mon2` triple |
| DatePhrase.ClassifyShapeGroups | test.py:100-115 | a match carrying exactly one shape's tokens is read back as that shape |
| DatePhrase.ClassifyConforming | test.py:100-148 | every pattern's match is read as the shape the pattern's layout describes: a single-month range is never misread as a single day |
| DatePhrase.StepOf | test.py:86-115 | a pattern is passed over when it has no match, no year, or a year that is not recent; `int(year)` raises exactly when the year group is not all decimal digits; a match is used exactly when its year is present, readable and recent and `Classify` finds a shape, and then with that year and shape |
| DatePhrase.StepConforming | test.py:86-98 | a match of the source's patterns never makes `int(year)` raise, its year lies in 2000..2099 whatever the script of its digits, and it is used exactly when that year is recent |
| DatePhrase.YearTokenValue | test.py:94 | `int()` reads the year group `20\d{2}` as 2000 plus the value of its last two digits, in any script |
| DatePhrase.Finish | test.py:100-115 | a used match never gives `None`; it gives dates exactly when the parser reads both the start and end phrases, each date is the parsed one, and a single day is its own end date |
| DatePhrase.Verdicts | test.py:86-87 | each pattern of the list gets its own verdict, in list order |
| DatePhrase.WalkFrom | test.py:84-116 | the loop runs off the end, and so returns `None`, exactly when every verdict from the current one on is a pass |
| DatePhrase.WalkFirstUsable | test.py:84-116 | the loop stops at the first verdict that is not a pass, which alone settles the outcome |
| DatePhrase.WalkDecides | test.py:84-116 | a loop that does not run off the end stops at a verdict that is not a pass and follows only passes |
| DatePhrase.TryPatterns | test.py:84-116 | `None` exactly when every pattern is passed over; otherwise the outcome is what the first pattern that is not passed over settles on |
| DatePhrase.TryPatternsSkippedPrefix | test.py:84-116 | patterns that are all passed over do not change the outcome of the ones after them |
| DatePhrase.TryPatternsStopsAtFirst | test.py:84-116 | once a pattern is usable, the patterns after it are never consulted |
| DatePhrase.GenericOrder | test.py:118-148 | the generic list tries ranges before single days, and day-first before month-first |
| DatePhrase.GenericDateHunt | test.py:118-148 | `None` exactly when each of the five generic patterns has no match, no year, an old year or no shape; otherwise the first one that does not settles the outcome |
| DatePhrase.GenericHuntYear | test.py:118-148 | when the generic hunt yields dates, the deciding match's year lies in 2000..2099 and is this year or next |
| DatePhrase.GenericHuntExpires | test.py:118-148 | from 2100 on, and before 1999, the generic hunt yields no dates |
| Scenarios.SingleMonthRange | test.py:19 | `18 - 19 October 2025` in 2025 gives start 2025-10-18 and end 2025-10-19 |
| Scenarios.CrossMonthRangeCase | test.py:100-104 | `30 Sep – 1 Oct 2025` in 2025 gives start 2025-09-30 and end 2025-10-01 |
| Scenarios.SingleDayCase | test.py:112-115 | `15th of March 2025` in 2025 gives 2025-03-15 as both start and end |
| Scenarios.OutdatedYear | test.py:20 | a 2023 date seen in 2025 yields no dates |
| Scenarios.FullwidthYearRange | test.py:86-98 | `18 - 19 October 20２５` in 2025 is used like its ASCII twin: `\d` and `int()` both accept fullwidth digits |
| Scenarios.BackwardsRange | test.py:100-104 | `30 Oct – 1 Sep 2025` in 2025 yields an end date whose ISO text sorts before the start date's |
| Scenarios.FinishReversed | test.py:100-104 | a range whose end the parser reads as earlier than its start is reported as it is, and the end's ISO text sorts first |
| Scraper.FetchSite | test.py:154-173 | the result is `None` exactly when the fetch fails or returns empty HTML; every record carries the site's name and URL |
| Scraper.FetchSiteOneWalk | test.py:161-173 | `fetch_site` behaves as one walk over the site's patterns followed by the generic ones |
| Scraper.FetchAllEvents | test.py:222-241 | the loop returns exactly the records of the extractors that neither raised nor returned `None`, in extractor order |
| Scraper.FetchAllAppend | test.py:233-240 | extractors run independently: one's failure changes nothing for the others |
| Scraper.FetchAllSubsequence | test.py:233-241 | the output is the order-preserving subsequence of the extractors' records |
| Scraper.ExtractorsShape | test.py:222-231 | seven extractors run, each under a name of its own and with patterns of its own |
| Text.DecimalValue | test.py:94 | a character is a decimal digit exactly when it lies in one of Unicode's runs of digits; its value is below ten and is its distance from the run's zero; ASCII digits keep their usual values |
| Text.PyInt | test.py:94 | `int()` succeeds exactly on a non-empty string of decimal digits, and on ASCII digits it gives the usual number |
| Text.FullwidthDigit | test.py:94 | the fullwidth digits U+FF10 to U+FF19 are the digits 0 to 9 |
| Text.Strip | test.py:80 | the result is the input without leading and trailing whitespace, with non-whitespace at both ends |
| Text.StripIdempotent | test.py:80 | stripping twice is stripping once |
| Text.LexTrichotomy | generate_dhl_ics.py:20 | any two strings compared by `end <= start` are equal or one sorts strictly first, never both ways |
| IsoDate.IsoRoundTrip | test.py:82 | `str(date)` decodes back to the date |
| IsoDate.IsoCanonical | test.py:82 | decodable ISO text is exactly the `str` of the date it decodes to |
| IsoDate.IsoOrder | test.py:82 | ISO dates sort as text exactly as the dates sort in time |
| Calendar.ReplaceZTrailing | generate_dhl_ics.py:21 | a trailing `Z` becomes `+00:00` and nothing else changes |
| Calendar.EndOfDayNotEarlier | generate_dhl_ics.py:21-23 | the default end keeps the start's date, offset and microseconds, is at 23:59:59, is not earlier than the start, and is less than a day after it |
| Calendar.NormalizeSpan | generate_dhl_ics.py:13-28 | begin is set exactly when start is non-empty; a given end is kept exactly when it sorts after start as text; otherwise the end is 23:59:59 of the parsed start; a missing start always raises, and any other raise comes from an unparseable start; the title and description defaults apply |
| Calendar.NormalizedEndNotEarlier | generate_dhl_ics.py:19-25 | the end of every built event sorts after the start as text, or lies on the start's day and not before it |
| Calendar.NormalizeAll | generate_dhl_ics.py:10-29 | it succeeds with the pointwise events in loop order, or fails with the error of the first range that raises, after ranges that all succeed |
| Calendar.OneEventPerRange | generate_dhl_ics.py:10-29 | a built calendar holds exactly one event per `daterange` entry |
| Calendar.BuildCalendarAborts | generate_dhl_ics.py:10-29 | the script aborts exactly when some date range cannot be normalized |
| Scenarios.ZuluStartWithoutEnd | generate_dhl_ics.py:17-23 | a `Z` start with no end gives an event that begins at the start text and ends at 23:59:59 of the start's day, at offset zero |
| Scenarios.RawComparisonIgnoresOffsets | generate_dhl_ics.py:20 | an end at 08:00Z after a start at 09:00+02:00 is still replaced, because it sorts first as text |

## Code and description disagree

Where the two disagree, the model follows the code:

- Calendar.NormalizeSpan: a date range without a `start` raises. `None.replace` raises when there is no end, and `str <= None` raises when there is one. So the script aborts; it does not skip the range.
- Calendar.NormalizeSpan: the title falls back to `"No title"` only when the key is absent. A JSON `null` title stays `None`, and an empty title stays empty.
- DatePhrase.Finish: nothing checks that the extracted start date is not after the end date. `Scenarios.BackwardsRange` shows `"30 Oct – 1 Sep 2025"` yielding a backwards pair.
- Calendar.NormalizeSpan: the "end after start" test compares the raw texts, not instants. `Scenarios.RawComparisonIgnoresOffsets` shows an end that is an hour later in time but is replaced anyway.

## Left out

- The regular expressions themselves: the month-name alternation, separators, optional `of`, commas and suffixes inside a pattern, and the search. A pattern is modelled by its layout and month restriction, and a match by its `groupdict()`. `Conforms` records what the groups of a match can contain.
- `dateutil`'s fuzzy parsing: it is an input that either returns a date or raises.
- `int()` on signs, surrounding whitespace and underscores: Text.PyInt accepts only strings of decimal digits. The year group `20\d{2}` never captures those characters, so the difference cannot arise from a match.
- The decimal digits are those of Unicode 15.0, the version Python 3.12 carries. Other Python versions carry other Unicode versions, with more or fewer runs of digits.
- `safe_get`, the `requests` session, its headers and timeout, and retries: a fetch is an input that returns HTML or `None`.
- BeautifulSoup and `html_to_text`: an input from HTML to text.
- `datetime.now()` and `datetime.utcnow()`: the current year is a parameter, and the `updated` timestamp is not modelled.
- Logging, writing `events.json`, and writing the `.ics` file: output only.
- The `ics` library's internals: the set ordering of `cal.events`, its own check that an end is not before a begin, and how it serialises a string end. The model keeps the events in loop order as the values assigned to the `Event` fields.
- `datetime.fromisoformat`: an input. Which texts it accepts depends on the Python version, and the `Z` replacement is there for versions before 3.11.
- `dict.get("start")` cannot tell a missing key from a JSON `null`, so `Span` cannot either.
- `ev.get("daterange", [])` and `resp.get("data", [])` give `None` for a JSON `null`, and iterating `None` raises `TypeError`. The model's lists cannot be `null`.
- The `ics` library's `begin` and `end` setters parse their text and raise on text they cannot parse. The model keeps the text it assigns and does not model that parser.
- `item["attributes"]["event"]` raising `KeyError` or `TypeError` on a malformed item: the model takes items as already decoded into events.
- Sorting of the events, recurring "first Thursday" dates and an "Untitled Event" default are not part of these two scripts.
- The two `TODO` notes on the sites (several Gun Run dates a year, and a carnival URL with a fixed year): the model keeps the URLs and patterns as written.
