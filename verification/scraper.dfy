/** The site runner of test.py: `fetch_site` tries a site's own patterns,
    then the generic ones, and `fetch_all_events` collects what the seven
    extractors return, in declaration order, dropping the ones that fail.

    Fetching a page and turning its HTML into visible text are inputs (see
    `Env`); so is everything `DatePhrase.Env` abstracts. */
module Scraper {
  import opened Wrappers
  import opened DatePhrase

  /** One extractor: the site's name, its URL and its own patterns (an empty
      list stands for both `None` and `[]`, which `fetch_site` treats alike). */
  datatype Site = Site(name: string, url: string, patterns: seq<Pattern>)

  /** The dictionary `fetch_site` returns: `name`, `url` and, when a pattern
      matched, `start_date` and `end_date`. */
  datatype EventRecord = EventRecord(name: string, url: string, dates: Option<DatePair>)

  /** What calling an extractor gives: it raised, it returned `None`, or it
      returned a record. */
  datatype SiteResult = Failed | Absent | Reported(record: EventRecord)

  datatype Env = Env(
    fetch: string -> Option<string>,   // `safe_get`: the page's HTML, `None` on any transport failure
    visibleText: string -> string,      // `html_to_text`
    phrases: DatePhrase.Env)

  /** The record for a site from an extraction outcome. */
  function Report(site: Site, o: Outcome): SiteResult {
    match o
    case Raised => Failed
    case Dates(pair) => Reported(EventRecord(site.name, site.url, Some(pair)))
    case NoDates => Reported(EventRecord(site.name, site.url, None))
  }

  /** `fetch_site`. */
  function FetchSite(site: Site, env: Env): (r: SiteResult)
    ensures r.Absent? <==> env.fetch(site.url).None? || env.fetch(site.url).value == ""
    ensures r.Reported? ==> r.record.name == site.name && r.record.url == site.url
  {
    match env.fetch(site.url)
    case None => Absent
    case Some(html) =>
      if html == "" then Absent
      else
        var text := env.visibleText(html);
        var hit := if |site.patterns| > 0 then TryPatterns(site.patterns, text, env.phrases) else NoDates;
        match hit
        case Raised => Failed
        case Dates(pair) => Reported(EventRecord(site.name, site.url, Some(pair)))
        case NoDates => Report(site, GenericDateHunt(text, env.phrases))
  }

  /** `fetch_site` behaves as one walk over the site's patterns followed by
      the generic ones: a site hit pre-empts the generic list, and a site
      list that yields nothing leaves the decision to the generic list, down
      to a record without dates. */
  lemma {:induction false} FetchSiteOneWalk(site: Site, env: Env)
    requires env.fetch(site.url).Some? && env.fetch(site.url).value != ""
    ensures FetchSite(site, env) ==
      Report(site, TryPatterns(site.patterns + GenericPatterns, env.visibleText(env.fetch(site.url).value), env.phrases))
  {
    var text := env.visibleText(env.fetch(site.url).value);
    var ps := site.patterns;
    var vs := Verdicts(ps, text, env.phrases);
    if AllSkip(vs, 0, |ps|) {
      TryPatternsSkippedPrefix(ps, GenericPatterns, text, env.phrases);
      if |ps| == 0 {
        assert ps + GenericPatterns == GenericPatterns;
      }
    } else {
      TryPatternsStopsAtFirst(ps, GenericPatterns, text, env.phrases);
    }
  }

  /** What each extractor gives, in order. */
  function Results(sites: seq<Site>, env: Env): (rs: seq<SiteResult>)
    ensures |rs| == |sites|
    ensures forall i | 0 <= i < |sites| :: rs[i] == FetchSite(sites[i], env)
  {
    if |sites| == 0 then [] else [FetchSite(sites[0], env)] + Results(sites[1..], env)
  }

  /** The records among extractor results, in order: the `if data:` filter,
      with raised extractors already dropped by the `except`. */
  function Collect(rs: seq<SiteResult>): (out: seq<EventRecord>)
    ensures |out| <= |rs|
  {
    if |rs| == 0 then []
    else (if rs[0].Reported? then [rs[0].record] else []) + Collect(rs[1..])
  }

  /** `fetch_all_events` over a list of extractors. */
  function FetchAll(sites: seq<Site>, env: Env): seq<EventRecord> {
    Collect(Results(sites, env))
  }

  /** Extractor results are collected independently of each other. */
  lemma {:induction false} CollectAppend(a: seq<SiteResult>, b: seq<SiteResult>)
    ensures Collect(a + b) == Collect(a) + Collect(b)
    decreases |a|
  {
    if |a| == 0 {
      assert a + b == b;
    } else {
      var head := if a[0].Reported? then [a[0].record] else [];
      assert (a + b)[0] == a[0];
      assert (a + b)[1..] == a[1..] + b;
      CollectAppend(a[1..], b);
      calc {
        Collect(a + b);
        head + Collect(a[1..] + b);
        head + (Collect(a[1..]) + Collect(b));
        (head + Collect(a[1..])) + Collect(b);
      }
    }
  }

  /** Every collected record is the record of some result. */
  lemma {:induction false} CollectOrigin(rs: seq<SiteResult>)
    ensures forall rec | rec in Collect(rs) :: exists i | 0 <= i < |rs| :: rs[i] == Reported(rec)
    decreases |rs|
  {
    if |rs| > 0 {
      CollectOrigin(rs[1..]);
      forall rec | rec in Collect(rs)
        ensures exists i | 0 <= i < |rs| :: rs[i] == Reported(rec)
      {
        if !(rs[0].Reported? && rec == rs[0].record) {
          var i :| 0 <= i < |rs| - 1 && rs[1..][i] == Reported(rec);
          assert rs[i + 1] == Reported(rec);
        }
      }
    }
  }

  /** A record result sits in the output right after the records of the
      results before it. */
  lemma {:induction false} CollectPosition(rs: seq<SiteResult>, i: int)
    requires 0 <= i < |rs| && rs[i].Reported?
    ensures |Collect(rs[..i])| < |Collect(rs)|
    ensures Collect(rs)[|Collect(rs[..i])|] == rs[i].record
  {
    assert rs == rs[..i] + ([rs[i]] + rs[i + 1..]);
    CollectAppend(rs[..i], [rs[i]] + rs[i + 1..]);
    CollectAppend([rs[i]], rs[i + 1..]);
    assert Collect([rs[i]]) == [rs[i].record] by {
      assert [rs[i]][1..] == [];
    }
  }

  /** Running two lists of extractors gives the two lists of results. */
  lemma {:induction false} ResultsAppend(a: seq<Site>, b: seq<Site>, env: Env)
    ensures Results(a + b, env) == Results(a, env) + Results(b, env)
    decreases |a|
  {
    if |a| == 0 {
      assert a + b == b;
    } else {
      var head := [FetchSite(a[0], env)];
      assert (a + b)[0] == a[0];
      assert (a + b)[1..] == a[1..] + b;
      ResultsAppend(a[1..], b, env);
      calc {
        Results(a + b, env);
        head + Results(a[1..] + b, env);
        head + (Results(a[1..], env) + Results(b, env));
        (head + Results(a[1..], env)) + Results(b, env);
      }
    }
  }

  /** Extractors run independently: the records of two lists of extractors
      run one after the other are the two lists of records, one after the
      other. One extractor's failure changes nothing for the others. */
  lemma {:induction false} FetchAllAppend(a: seq<Site>, b: seq<Site>, env: Env)
    ensures FetchAll(a + b, env) == FetchAll(a, env) + FetchAll(b, env)
  {
    ResultsAppend(a, b, env);
    CollectAppend(Results(a, env), Results(b, env));
  }

  /** The output is the order-preserving subsequence of the extractors that
      returned a record: the record of extractor `i` sits right after the
      records of the extractors before it, and every output record is the
      record some extractor returned. */
  lemma {:induction false} FetchAllSubsequence(sites: seq<Site>, env: Env)
    ensures forall i | 0 <= i < |sites| && FetchSite(sites[i], env).Reported? ::
      && |FetchAll(sites[..i], env)| < |FetchAll(sites, env)|
      && FetchAll(sites, env)[|FetchAll(sites[..i], env)|] == FetchSite(sites[i], env).record
    ensures forall rec | rec in FetchAll(sites, env) ::
      exists i | 0 <= i < |sites| :: FetchSite(sites[i], env) == Reported(rec)
  {
    var rs := Results(sites, env);
    forall i | 0 <= i < |sites| && FetchSite(sites[i], env).Reported?
      ensures |FetchAll(sites[..i], env)| < |FetchAll(sites, env)|
      ensures FetchAll(sites, env)[|FetchAll(sites[..i], env)|] == FetchSite(sites[i], env).record
    {
      assert Results(sites[..i], env) == rs[..i];
      CollectPosition(rs, i);
    }
    CollectOrigin(rs);
  }

  /** Running one more extractor appends its record, if it returns one. */
  lemma {:induction false} FetchAllStep(sites: seq<Site>, i: int, env: Env)
    requires 0 <= i < |sites|
    ensures FetchAll(sites[..i + 1], env) ==
      FetchAll(sites[..i], env) + (if FetchSite(sites[i], env).Reported? then [FetchSite(sites[i], env).record] else [])
  {
    var a, b := sites[..i], [sites[i]];
    assert sites[..i + 1] == a + b;
    ResultsAppend(a, b, env);
    var rb := Results(b, env);
    assert rb == [FetchSite(sites[i], env)] by {
      assert b[1..] == [];
    }
    CollectAppend(Results(a, env), rb);
    assert rb[1..] == [];
  }

  /** The runner's loop: call each extractor in order, keep what it returns
      unless that is `None`, and carry on past one that raised. */
  method FetchAllEvents(sites: seq<Site>, env: Env) returns (results: seq<EventRecord>)
    ensures results == FetchAll(sites, env)
  {
    results := [];
    var i := 0;
    while i < |sites|
      invariant 0 <= i <= |sites|
      invariant results == FetchAll(sites[..i], env)
    {
      var data := FetchSite(sites[i], env);
      FetchAllStep(sites, i, env);
      if data.Reported? {
        results := results + [data.record];
      }
      i := i + 1;
    }
    assert sites[..|sites|] == sites;
  }

  // ---------------------------------------------------------------------------
  // The seven extractors
  // ---------------------------------------------------------------------------

  /** The extractors `fetch_all_events` runs, in its order, with each site's
      own patterns (month-restricted versions of the generic layouts). */
  const Extractors: seq<Site> := [
    Site("Cape Town Cycle Tour", "https://www.capetowncycletour.com/",
      [DayFirstRange(OnlyMonth(Mar)), DayFirstSingle(OnlyMonth(Mar))]),
    Site("Two Oceans Marathon", "https://www.twooceansmarathon.org.za/",
      [DayFirstRange(OnlyMonth(Apr))]),
    Site("Sanlam Cape Town Marathon", "https://www.capetownmarathon.com/",
      [DayFirstRange(OnlyMonth(Oct))]),
    Site("Absa Cape Epic", "https://www.cape-epic.com/",
      [DayFirstRange(OnlyMonth(Mar))]),
    Site("The Gun Run", "https://thegunrun.co.za/",
      [DayFirstRange(OnlyMonth(Sep))]),
    Site("Cape Town Carnival", "https://capetowncarnival.com/2025-carnival/",
      [DayFirstSingle(OnlyMonth(Mar))]),
    Site("Knysna Cycle Tour", "https://knysnacycle.co.za/",
      [CrossMonthRange(OnlyMonth(Jun), OnlyMonth(Jul))])
  ]

  /** Seven extractors, each with a name of its own and patterns of its own,
      so each page is tried against them before the generic list. */
  lemma {:induction false} ExtractorsShape()
    ensures |Extractors| == 7
    ensures forall i | 0 <= i < |Extractors| :: |Extractors[i].patterns| > 0
    ensures forall i, j | 0 <= i < j < |Extractors| :: Extractors[i].name != Extractors[j].name
  {
  }
}
