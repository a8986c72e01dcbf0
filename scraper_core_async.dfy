/** The asynchronous listing scraper of src/scrapers/scraper_core_async.py. Each article
    becomes a record by the same rules as in the synchronous scraper
    (`ScraperCore.DeriveDoc`). `hent_side_async` is modelled twice: as written, where the
    handler of a failed attempt calls `asyncio.sleep` without `asyncio` being imported,
    so the NameError ends the function after one attempt; and as evidently intended,
    the retry loop `ScraperCore.HentSide`. `scrape_page_with_filter` is modelled on both. */
module ScraperCoreAsync {
  import opened Json
  import opened Dates
  import opened ScraperCore
  import opened ScraperDates

  /** The `retries=5` that `scrape_page_with_filter` passes. */
  const RETRIES: int := 5

  /** What `hent_side_async` gives as written: with no attempts (`retries <= 0`) the loop
      is empty and the result is None; otherwise attempt 1 either succeeds with the
      records of its articles, or fails into the `except` handler, whose
      `asyncio.sleep(1)` raises NameError out of the function. */
  function AsyncFetch(dt: DateText, attempt: nat -> Listing, retries: int): Outcome<Option<seq<Doc>>> {
    if retries <= 0 then Ok(None)
    else if Succeeds(attempt(1)) then Ok(Some(DeriveAll(dt, attempt(1).articles)))
    else Raised(NameError)
  }

  /** As written, the asynchronous fetch agrees with the retry loop whenever the first
      attempt settles the page, and it never looks past attempt 1. */
  lemma AsyncFetchAgrees(dt: DateText, attempt: nat -> Listing, retries: int)
    ensures retries <= 0 || Succeeds(attempt(1)) ==> AsyncFetch(dt, attempt, retries) == Ok(Fetch(dt, attempt, retries))
    ensures retries >= 1 && !Succeeds(attempt(1)) ==> AsyncFetch(dt, attempt, retries) == Raised(NameError)
    ensures AsyncFetch(dt, attempt, retries).Ok? ==> AsyncFetch(dt, attempt, retries).value == Fetch(dt, attempt, retries)
  {
    if retries >= 1 && Succeeds(attempt(1)) {
      assert FirstSuccess(attempt, 1, retries) == Some(1);
    }
  }

  /** `hent_side_async` as written: `tried` is the number of attempts made. */
  method HentSideAsync(dt: DateText, attempt: nat -> Listing, retries: int)
    returns (r: Outcome<Option<seq<Doc>>>, tried: nat)
    ensures r == AsyncFetch(dt, attempt, retries)
    ensures tried == (if retries <= 0 then 0 else 1)
  {
    // The `for attempt` body leaves the function on its first pass either way, so only
    // attempt 1 is ever made.
    tried := 0;
    if 1 <= retries {
      tried := 1;
      var page := attempt(1);
      if page.Loaded? && page.articles != [] {
        var docs := ParseArticles(dt, page.articles);
        return Ok(Some(docs)), tried;
      }
      return Raised(NameError), tried;
    }
    r := Ok(None);
  }

  /** With attempts left after a failed first one, the function as written raises where
      the intended retry loop goes on and returns the records of the next attempt. */
  lemma AsyncRetryDiffers(dt: DateText, attempt: nat -> Listing, retries: int)
    requires 2 <= retries && !Succeeds(attempt(1)) && Succeeds(attempt(2))
    ensures AsyncFetch(dt, attempt, retries) == Raised(NameError)
    ensures Fetch(dt, attempt, retries) == Some(DeriveAll(dt, attempt(2).articles))
  {
    assert FirstSuccess(attempt, 2, retries) == Some(2);
  }

  /** What `scrape_page_with_filter` returns: `{"failed": page_num}` or the kept records. */
  datatype PageResult = Failed(pageNum: int) | Filtered(docs: seq<Doc>)

  /** The page's result from a fetch result: a page fails when the fetch yields None or
      no records, and otherwise keeps the records whose `dato` lies within the range. */
  function PageOf(site: Site, pageNum: int, start: Option<Date>, end: Option<Date>,
                  fetched: Option<seq<Doc>>): PageResult
  {
    if EmptyPage(fetched) then Failed(pageNum) else Filtered(InRange(site, start, end, fetched.value))
  }

  /** `scrape_page_with_filter` as written: the NameError of `hent_side_async` escapes
      it; otherwise the page fails or keeps its records within the range. */
  method ScrapePageWithFilter(dt: DateText, attempt: nat -> Listing, site: Site,
                              pageNum: int, start: Option<Date>, end: Option<Date>)
    returns (r: Outcome<PageResult>)
    ensures !Succeeds(attempt(1)) <==> r == Raised(NameError)
    ensures r.Ok? ==> r.value == PageOf(site, pageNum, start, end, Fetch(dt, attempt, RETRIES))
  {
    var fetched, _ := HentSideAsync(dt, attempt, RETRIES);
    AsyncFetchAgrees(dt, attempt, RETRIES);
    if fetched.Raised? {
      return Raised(fetched.error);
    }
    var docs := fetched.value;
    if docs.None? || docs.value == [] {
      return Ok(Failed(pageNum));
    }
    var filtered := KeepInRange(site, start, end, docs.value);
    r := Ok(Filtered(filtered));
  }

  /** `scrape_page_with_filter` over the intended retry loop: the page fails exactly when
      none of the five attempts yields records, and otherwise keeps the records within
      the range, in order. */
  method ScrapePageWithRetries(dt: DateText, attempt: nat -> Listing, site: Site,
                               pageNum: int, start: Option<Date>, end: Option<Date>)
    returns (r: PageResult)
    ensures r == Failed(pageNum) <==> EmptyPage(Fetch(dt, attempt, RETRIES))
    ensures r.Filtered? ==> r.docs == InRange(site, start, end, Fetch(dt, attempt, RETRIES).value)
  {
    var docs, _, _ := HentSide(dt, attempt, RETRIES);
    if docs.None? || docs.value == [] {
      return Failed(pageNum);
    }
    var filtered := KeepInRange(site, start, end, docs.value);
    r := Filtered(filtered);
  }

  /** A page that does not fail keeps only records within the range, each one from the
      fetched page. */
  lemma FilteredWithinRange(dt: DateText, attempt: nat -> Listing, site: Site,
                            start: Option<Date>, end: Option<Date>, d: Doc)
    requires !EmptyPage(Fetch(dt, attempt, RETRIES))
    ensures d in InRange(site, start, end, Fetch(dt, attempt, RETRIES).value)
        <==> d in Fetch(dt, attempt, RETRIES).value && Keeps(site, start, end, d)
  {
    InRangeMembers(site, start, end, Fetch(dt, attempt, RETRIES).value);
  }
}
