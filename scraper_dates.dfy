/** The date-filtered page scan of src/scrapers/scraper_dates.py. The browser, the date
    parser of the listing and the range test are abstract (`Site`); the configuration and
    the output file go through the modelled filesystem. */
module ScraperDates {
  import opened Json
  import opened Dates
  import opened Storage
  import opened UtilsFiles
  import opened Strings

  const DEFAULT_CONFIG_FILE: string := "../config/config.json"
  const DATA_FILE: string := "../../data/postliste.json"
  const FILTERED_FILE: string := "../../data/postliste_filtered.json"

  /** The functions the scan calls but whose code is not part of this model. */
  datatype Site = Site(
    fetch: (int, int) -> Option<seq<Doc>>,                       // hent_side(page_num, browser, per_page)
    parseDate: Json -> Option<Date>,                             // parse_date_from_page
    withinRange: (Option<Date>, Option<Date>, Option<Date>) -> bool  // within_range
  )

  // ----------------------------------------------------------------
  // int() on configuration values
  // ----------------------------------------------------------------

  predicate AllDigits(s: string) {
    forall i :: 0 <= i < |s| ==> '0' <= s[i] <= '9'
  }

  predicate IsDigit(c: char) {
    '0' <= c <= '9'
  }

  /** The digits `int()` accepts after the sign: ASCII digits, with single underscores
      allowed between two digits. */
  predicate DigitGroups(s: string) {
    && s != [] && IsDigit(s[0]) && IsDigit(s[|s| - 1])
    && (forall i :: 0 <= i < |s| ==> IsDigit(s[i]) || s[i] == '_')
    && !Contains(s, "__")
  }

  /** The digits of a `DigitGroups` string, underscores left out. */
  function DropUnderscores(s: string): (r: string)
    ensures |r| <= |s|
    ensures (forall i :: 0 <= i < |s| ==> IsDigit(s[i]) || s[i] == '_') ==> AllDigits(r)
  {
    if s == [] then []
    else DropUnderscores(s[..|s| - 1]) + (if s[|s| - 1] == '_' then [] else [s[|s| - 1]])
  }

  lemma {:induction false} DropUnderscoresDigits(s: string)
    requires AllDigits(s)
    ensures DropUnderscores(s) == s
    decreases |s|
  {
    if s != [] {
      DropUnderscoresDigits(s[..|s| - 1]);
      assert s == s[..|s| - 1] + [s[|s| - 1]];
    }
  }

  lemma {:induction false} DropUnderscoresAppend(a: string, b: string)
    ensures DropUnderscores(a + b) == DropUnderscores(a) + DropUnderscores(b)
    decreases |b|
  {
    if b != [] {
      var b0 := b[..|b| - 1];
      assert (a + b)[..|a + b| - 1] == a + b0;
      DropUnderscoresAppend(a, b0);
    } else {
      assert a + b == a;
    }
  }

  /** Whitespace around a string that neither starts nor ends with whitespace is what
      `strip` removes. */
  lemma StripPadded(t: string)
    requires t != [] && !PySpace(t[0]) && !PySpace(t[|t| - 1])
    ensures PyStrip(t) == t
    ensures PyStrip(" " + t + "\n") == t
  {
    var s := " " + t + "\n";
    assert s[1..] == t + "\n";
    assert TrimStart(s, PySpace) == t + "\n";
    assert (t + "\n")[..|t|] == t;
    assert TrimEnd(t + "\n", PySpace) == t;
  }

  /** The sign `int()` reads first: whether it is a minus, and the text after it. */
  function SplitSign(t: string): (bool, string) {
    if t != [] && (t[0] == '+' || t[0] == '-') then (t[0] == '-', t[1..]) else (false, t)
  }

  /** Python `int(t)` on a string with its surrounding whitespace already removed: an
      optional sign, then digit groups. */
  function PyIntText(t: string): Outcome<int> {
    var (negative, body) := SplitSign(t);
    if DigitGroups(body) then
      var n := DigitsValue(DropUnderscores(body));
      Ok(if negative then 0 - n else n)
    else Raised(ValueError)
  }

  /** Python `int(v)` on a parsed JSON value: integers as they are, booleans as 0 and 1,
      a string as its decimal text once the surrounding whitespace is stripped (an
      optional `+` or `-`, then ASCII digits with single underscores between them) or
      ValueError, and TypeError on null, lists and objects. */
  function PyInt(v: Json): Outcome<int> {
    match v
    case JNum(n) => Ok(n)
    case JBool(b) => Ok(if b then 1 else 0)
    case JStr(s) => PyIntText(PyStrip(s))
    case _ => Raised(TypeError)
  }

  /** `int(str(n)) == n`: a number written into the configuration as a string reads back. */
  lemma {:induction false} PyIntRoundTrip(n: int)
    ensures PyInt(JStr(IntToString(n))) == Ok(n)
  {
    var m: nat := if n < 0 then -n else n;
    var t := NatToString(m);
    DigitsOfNat(m);
    PyIntOfDigits(t, m);
    assert IntToString(n) == if n < 0 then "-" + t else t;
  }

  /** A string of digits, the same with a sign in front, and either padded with
      whitespace, read as the number it spells and its negation. */
  lemma PyIntTextSigned(t: string, negative: bool, body: string, v: int)
    requires SplitSign(t) == (negative, body)
    requires DigitGroups(body) && DigitsValue(DropUnderscores(body)) == v
    ensures PyIntText(t) == Ok(if negative then -v else v)
  {
  }

  lemma PyIntTextDigits(t: string, v: int)
    requires DigitGroups(t) && DigitsValue(DropUnderscores(t)) == v
    ensures PyIntText(t) == Ok(v)
    ensures PyIntText("-" + t) == Ok(-v)
    ensures PyIntText("+" + t) == Ok(v)
  {
    PyIntTextSigned(t, false, t, v);
    var m, p := "-" + t, "+" + t;
    assert m[1..] == t && p[1..] == t;
    PyIntTextSigned(m, true, t, v);
    PyIntTextSigned(p, false, t, v);
  }

  /** `int()` strips the surrounding whitespace before reading a sign and digits. */
  lemma PyIntStrips(t: string)
    requires DigitGroups(t)
    ensures PyInt(JStr(t)) == PyIntText(t)
    ensures PyInt(JStr(" " + t + "\n")) == PyIntText(t)
    ensures PyInt(JStr("-" + t)) == PyIntText("-" + t)
    ensures PyInt(JStr("+" + t)) == PyIntText("+" + t)
  {
    StripPadded(t);
    var m, p := "-" + t, "+" + t;
    assert m[|m| - 1] == t[|t| - 1] && p[|p| - 1] == t[|t| - 1];
    StripPadded(m);
    StripPadded(p);
  }

  lemma {:induction false} PyIntOfDigits(t: string, v: int)
    requires t != [] && AllDigits(t) && DigitsValue(t) == v
    ensures PyInt(JStr(t)) == Ok(v)
    ensures PyInt(JStr("-" + t)) == Ok(-v)
    ensures PyInt(JStr("+" + t)) == Ok(v)
    ensures PyInt(JStr(" " + t + "\n")) == Ok(v)
  {
    DropUnderscoresDigits(t);
    assert !Contains(t, "__") by {
      assert forall i :: 0 <= i <= |t| - 2 ==> t[i..][0] == t[i] != '_';
    }
    PyIntTextDigits(t, v);
    PyIntStrips(t);
  }

  lemma UnderscoreGroups(t: string)
    requires t == "1_000"
    ensures DigitGroups(t)
  {
    assert !Contains(t, "__") by {
      forall i | 0 <= i <= |t| - 2
        ensures !StartsWith(t[i..], "__")
      {
        assert t[i..][..2] == [t[i], t[i + 1]];
      }
    }
  }

  /** One underscore between two runs of digits is dropped. */
  lemma UnderscoresDropped(a: string, b: string)
    requires AllDigits(a) && AllDigits(b)
    ensures DropUnderscores(a + "_" + b) == a + b
  {
    var u: string := "_";
    assert DropUnderscores(u) == [] by { assert u[..0] == []; }
    DropUnderscoresAppend(a, u);
    DropUnderscoresDigits(a);
    assert DropUnderscores(a + u) == a;
    DropUnderscoresAppend(a + u, b);
    DropUnderscoresDigits(b);
  }

  lemma ThousandValue(t: string)
    requires t == "1000"
    ensures DigitsValue(t) == 1000
  {
    assert "1"[..0] == [] && DigitsValue("1") == 1;
    assert "10"[..1] == "1" && DigitsValue("10") == 10;
    assert "100"[..2] == "10" && DigitsValue("100") == 100;
    assert t[..3] == "100";
  }

  /** `int("1_000") == 1000`: single underscores between digits are skipped. */
  lemma PyIntUnderscores()
    ensures PyInt(JStr("1_000")) == Ok(1000)
  {
    var t := "1_000";
    UnderscoreGroups(t);
    assert t == "1" + "_" + "000";
    UnderscoresDropped("1", "000");
    assert "1" + "000" == "1000";
    ThousandValue("1000");
    PyIntTextDigits(t, 1000);
    PyIntStrips(t);
  }

  /** A doubled underscore, or one before the first digit, makes `int()` raise
      ValueError. */
  lemma PyIntUnderscoresRejected()
    ensures PyInt(JStr("1__000")) == Raised(ValueError)
    ensures PyInt(JStr("_1")) == Raised(ValueError)
  {
    var t, u := "1__000", "_1";
    StripPadded(t);
    StripPadded(u);
    assert SplitSign(t) == (false, t) && SplitSign(u) == (false, u);
    assert StartsWith(t[1..], "__");
    assert !DigitGroups(u);
  }

  datatype Settings = Settings(startPage: int, maxPages: int, perPage: int)

  /** `int(cfg.get("start_page", 1))`, `int(cfg.get("max_pages", 100))` and
      `int(cfg.get("per_page", 100))`, evaluated in that order; calling `.get` on a
      configuration that is not an object raises AttributeError. */
  function ReadSettings(cfg: Json): (r: Outcome<Settings>)
    ensures cfg.JObj? && cfg.fields == map[] ==> r == Ok(Settings(1, 100, 100))
    ensures !cfg.JObj? ==> r == Raised(AttributeError)
    ensures r.Ok? && cfg.JObj? && "max_pages" in cfg.fields && cfg.fields["max_pages"].JNum? ==>
      r.value.maxPages == cfg.fields["max_pages"].n
  {
    if !cfg.JObj? then Raised(AttributeError)
    else
      var d := cfg.fields;
      match PyInt(GetOr(d, "start_page", JNum(1)))
      case Raised(e) => Raised(e)
      case Ok(s) =>
        match PyInt(GetOr(d, "max_pages", JNum(100)))
        case Raised(e) => Raised(e)
        case Ok(m) =>
          match PyInt(GetOr(d, "per_page", JNum(100)))
          case Raised(e) => Raised(e)
          case Ok(p) => Ok(Settings(s, m, p))
  }

  // ----------------------------------------------------------------
  // One page
  // ----------------------------------------------------------------

  /** `if not docs`: the fetch failed or returned no documents. */
  predicate EmptyPage(r: Option<seq<Doc>>) {
    r.None? || r.value == []
  }

  predicate Keeps(site: Site, start: Option<Date>, end: Option<Date>, d: Doc) {
    site.withinRange(site.parseDate(Get(d, "dato")), start, end)
  }

  /** The documents of one page the inner loop appends. */
  function InRange(site: Site, start: Option<Date>, end: Option<Date>, docs: seq<Doc>): (r: seq<Doc>)
    ensures |r| <= |docs|
  {
    if docs == [] then []
    else
      var init, last := docs[..|docs| - 1], docs[|docs| - 1];
      InRange(site, start, end, init) + (if Keeps(site, start, end, last) then [last] else [])
  }

  /** Exactly the documents of the page that lie within the range are kept. */
  lemma {:induction false} InRangeMembers(site: Site, start: Option<Date>, end: Option<Date>, docs: seq<Doc>)
    ensures forall d :: d in InRange(site, start, end, docs) <==> d in docs && Keeps(site, start, end, d)
    decreases |docs|
  {
    if docs != [] {
      var init := docs[..|docs| - 1];
      InRangeMembers(site, start, end, init);
      assert docs == init + [docs[|docs| - 1]];
    }
  }

  /** Kept documents keep their listing order: the result is the list with the
      out-of-range documents taken out, so keeping again changes nothing. */
  lemma {:induction false} InRangeIdempotent(site: Site, start: Option<Date>, end: Option<Date>, docs: seq<Doc>)
    ensures InRange(site, start, end, InRange(site, start, end, docs)) == InRange(site, start, end, docs)
    decreases |docs|
  {
    if docs != [] {
      var init, last := docs[..|docs| - 1], docs[|docs| - 1];
      InRangeIdempotent(site, start, end, init);
      var r := InRange(site, start, end, init);
      assert InRange(site, start, end, docs) == r + (if Keeps(site, start, end, last) then [last] else []);
      if Keeps(site, start, end, last) {
        var rr := r + [last];
        assert rr[..|rr| - 1] == r && rr[|rr| - 1] == last;
        assert InRange(site, start, end, rr) == InRange(site, start, end, r) + [last];
        assert InRange(site, start, end, r) == r;
        assert InRange(site, start, end, docs) == rr;
      } else {
        assert InRange(site, start, end, docs) == r;
        assert InRange(site, start, end, r) == r;
      }
    }
  }

  /** `[parse_date_from_page(x.get("dato")) for x in docs if x.get("dato")]`. */
  function PageDates(site: Site, docs: seq<Doc>): (r: seq<Option<Date>>)
    ensures |r| <= |docs|
  {
    if docs == [] then []
    else
      var init, last := docs[..|docs| - 1], docs[|docs| - 1];
      PageDates(site, init) + (if Truthy(Get(last, "dato")) then [site.parseDate(Get(last, "dato"))] else [])
  }

  /** The early-stop test: a start date is set, the page has dates, and every one of
      them parsed and lies strictly before the start date. */
  predicate EarlyStop(site: Site, start: Option<Date>, docs: seq<Doc>) {
    var ds := PageDates(site, docs);
    && start.Some?
    && ds != []
    && forall i :: 0 <= i < |ds| ==> ds[i].Some? && Before(ds[i].value, start.value)
  }

  lemma {:induction false} UnparsedDate(site: Site, docs: seq<Doc>, k: int)
    requires 0 <= k < |docs| && Truthy(Get(docs[k], "dato")) && site.parseDate(Get(docs[k], "dato")).None?
    ensures exists i :: 0 <= i < |PageDates(site, docs)| && PageDates(site, docs)[i].None?
    decreases |docs|
  {
    var init, last := docs[..|docs| - 1], docs[|docs| - 1];
    var ds := PageDates(site, docs);
    if k == |docs| - 1 {
      assert ds[|ds| - 1].None?;
    } else {
      assert init[k] == docs[k];
      UnparsedDate(site, init, k);
      var di := PageDates(site, init);
      var i :| 0 <= i < |di| && di[i].None?;
      assert ds == di + (if Truthy(Get(last, "dato")) then [site.parseDate(Get(last, "dato"))] else []);
      assert ds[i] == di[i];
    }
  }

  /** A page on which some dated document did not parse never stops the scan early. */
  lemma UnparsedBlocksEarlyStop(site: Site, start: Option<Date>, docs: seq<Doc>, k: int)
    requires 0 <= k < |docs| && Truthy(Get(docs[k], "dato")) && site.parseDate(Get(docs[k], "dato")).None?
    ensures !EarlyStop(site, start, docs)
  {
    UnparsedDate(site, docs, k);
  }

  // ----------------------------------------------------------------
  // The page loop
  // ----------------------------------------------------------------

  /** Whether the scan carries on after `page`: the page had documents and did not
      trigger the early stop. */
  predicate Continues(site: Site, start: Option<Date>, perPage: int, page: int) {
    var fetched := site.fetch(page, perPage);
    !EmptyPage(fetched) && !EarlyStop(site, start, fetched.value)
  }

  /** What one fetched page contributes. */
  function PageKept(site: Site, start: Option<Date>, end: Option<Date>, perPage: int, page: int): seq<Doc> {
    var fetched := site.fetch(page, perPage);
    if EmptyPage(fetched) then [] else InRange(site, start, end, fetched.value)
  }

  /** The pages the scan fetches from `page` on: it stops after an empty page, after an
      early stop, or after `max_pages`. */
  function Visited(site: Site, start: Option<Date>, perPage: int, page: int, maxPages: int): seq<int>
    decreases maxPages - page
  {
    if page > maxPages then []
    else if !Continues(site, start, perPage, page) then [page]
    else [page] + Visited(site, start, perPage, page + 1, maxPages)
  }

  /** The documents the scan keeps from the given pages, page by page. */
  function KeptOf(site: Site, start: Option<Date>, end: Option<Date>, perPage: int, pages: seq<int>): seq<Doc> {
    if pages == [] then []
    else KeptOf(site, start, end, perPage, pages[..|pages| - 1]) + PageKept(site, start, end, perPage, pages[|pages| - 1])
  }

  lemma KeptOfAppend(site: Site, start: Option<Date>, end: Option<Date>, perPage: int, pages: seq<int>, page: int)
    ensures KeptOf(site, start, end, perPage, pages + [page])
         == KeptOf(site, start, end, perPage, pages) + PageKept(site, start, end, perPage, page)
  {
    assert (pages + [page])[..|pages|] == pages;
  }

  lemma VisitedFirst(site: Site, start: Option<Date>, perPage: int, page: int, maxPages: int)
    ensures page > maxPages ==> Visited(site, start, perPage, page, maxPages) == []
    ensures page <= maxPages ==>
      var pages := Visited(site, start, perPage, page, maxPages);
      pages != [] && pages[0] == page
  {
  }

  /** One step of the scan, after the pages before `page` are accounted for. */
  lemma VisitedStep(site: Site, start: Option<Date>, perPage: int, page: int, maxPages: int, before: seq<int>)
    requires page <= maxPages
    ensures Continues(site, start, perPage, page) ==>
      before + Visited(site, start, perPage, page, maxPages)
        == (before + [page]) + Visited(site, start, perPage, page + 1, maxPages)
    ensures !Continues(site, start, perPage, page) ==>
      before + Visited(site, start, perPage, page, maxPages) == before + [page]
  {
    var rest := Visited(site, start, perPage, page + 1, maxPages);
    assert before + ([page] + rest) == (before + [page]) + rest;
  }

  /** `range(start_page, max_pages + 1)`: the pages fetched are consecutive from
      `start_page` and never go past `max_pages`, which is the last page number. */
  lemma {:induction false} VisitedInRange(site: Site, start: Option<Date>, perPage: int, page: int, maxPages: int)
    ensures var pages := Visited(site, start, perPage, page, maxPages);
      && |pages| <= (if page > maxPages then 0 else maxPages - page + 1)
      && forall k :: 0 <= k < |pages| ==> pages[k] == page + k
    decreases maxPages - page
  {
    if page <= maxPages && Continues(site, start, perPage, page) {
      VisitedInRange(site, start, perPage, page + 1, maxPages);
    }
  }

  /** Every page but the last of `pages` let the scan carry on. */
  predicate CarriesOn(site: Site, start: Option<Date>, perPage: int, pages: seq<int>) {
    forall k :: 0 <= k < |pages| - 1 ==> Continues(site, start, perPage, pages[k])
  }

  /** The scan carries on past every fetched page but the last. */
  lemma {:induction false} VisitedContinues(site: Site, start: Option<Date>, perPage: int, page: int, maxPages: int)
    ensures CarriesOn(site, start, perPage, Visited(site, start, perPage, page, maxPages))
    decreases maxPages - page
  {
    if page <= maxPages && Continues(site, start, perPage, page) {
      VisitedContinues(site, start, perPage, page + 1, maxPages);
      var rest := Visited(site, start, perPage, page + 1, maxPages);
      var pages := Visited(site, start, perPage, page, maxPages);
      assert pages == [page] + rest;
      forall k | 0 <= k < |pages| - 1
        ensures Continues(site, start, perPage, pages[k])
      {
        if k > 0 {
          assert 0 <= k - 1 < |rest| - 1 && pages[k] == rest[k - 1];
        }
      }
    }
  }

  /** The scan ends before `max_pages` only at an empty page or an early stop. */
  lemma {:induction false} VisitedStops(site: Site, start: Option<Date>, perPage: int, page: int, maxPages: int)
    ensures var pages := Visited(site, start, perPage, page, maxPages);
      pages != [] && pages[|pages| - 1] < maxPages ==> !Continues(site, start, perPage, pages[|pages| - 1])
    decreases maxPages - page
  {
    if page <= maxPages && Continues(site, start, perPage, page) {
      VisitedStops(site, start, perPage, page + 1, maxPages);
      VisitedFirst(site, start, perPage, page + 1, maxPages);
      var rest := Visited(site, start, perPage, page + 1, maxPages);
      var pages := Visited(site, start, perPage, page, maxPages);
      if rest != [] {
        assert pages[|pages| - 1] == rest[|rest| - 1];
      }
    }
  }

  /** The inner `for d in docs` loop: appends the documents within the range. */
  method KeepInRange(site: Site, start: Option<Date>, end: Option<Date>, docs: seq<Doc>) returns (kept: seq<Doc>)
    ensures kept == InRange(site, start, end, docs)
  {
    kept := [];
    for i := 0 to |docs|
      invariant kept == InRange(site, start, end, docs[..i])
    {
      var d := docs[i];
      assert docs[..i + 1][..i] == docs[..i];
      if site.withinRange(site.parseDate(Get(d, "dato")), start, end) {
        kept := kept + [d];
      }
    }
    assert docs[..|docs|] == docs;
  }

  /** One pass of the `for page_num` body: fetch the page, `break` when it is empty,
      keep the documents within the range, and `break` on the early stop. */
  method ScanPage(site: Site, start: Option<Date>, end: Option<Date>, perPage: int, pageNum: int)
    returns (kept: seq<Doc>, stop: bool)
    ensures kept == PageKept(site, start, end, perPage, pageNum)
    ensures stop == !Continues(site, start, perPage, pageNum)
  {
    var docs := site.fetch(pageNum, perPage);
    if docs.None? || docs.value == [] {
      return [], true;
    }
    kept := KeepInRange(site, start, end, docs.value);
    var parsedDates := PageDates(site, docs.value);
    stop := start.Some? && parsedDates != []
      && forall k :: 0 <= k < |parsedDates| ==> parsedDates[k].Some? && Before(parsedDates[k].value, start.value);
  }

  /** The `for page_num` loop with its two `break`s: it fetches exactly the pages of
      `Visited` and keeps the in-range documents of those pages, in page order. */
  method ScanPages(site: Site, start: Option<Date>, end: Option<Date>, s: Settings)
    returns (allDocs: seq<Doc>, ghost pages: seq<int>)
    ensures pages == Visited(site, start, s.perPage, s.startPage, s.maxPages)
    ensures allDocs == KeptOf(site, start, end, s.perPage, pages)
    ensures allDocs == KeptOf(site, start, end, s.perPage, Visited(site, start, s.perPage, s.startPage, s.maxPages))
  {
    allDocs, pages := [], [];
    var pageNum := s.startPage;
    ghost var whole := Visited(site, start, s.perPage, s.startPage, s.maxPages);
    assert whole == [] + whole;
    while pageNum <= s.maxPages
      invariant whole == pages + Visited(site, start, s.perPage, pageNum, s.maxPages)
      invariant allDocs == KeptOf(site, start, end, s.perPage, pages)
      decreases s.maxPages - pageNum
    {
      var kept, stop := ScanPage(site, start, end, s.perPage, pageNum);
      KeptOfAppend(site, start, end, s.perPage, pages, pageNum);
      VisitedStep(site, start, s.perPage, pageNum, s.maxPages, pages);
      allDocs, pages := allDocs + kept, pages + [pageNum];
      if stop {
        return;
      }
      pageNum := pageNum + 1;
    }
    assert whole == pages + [];
  }

  // ----------------------------------------------------------------
  // run_scrape and main
  // ----------------------------------------------------------------

  datatype Run = Run(docs: seq<Doc>, updatesStore: bool)

  /** `run_scrape`: rejects an unknown mode before touching anything, reads the settings,
      scans, writes the kept documents to the filtered file in both modes, and hands them
      to the store merge (`load_existing` and `merge_and_save`, which are not part of this
      model) only in publish mode. */
  method RunScrape(fs: FileSystem, site: Site, start: Option<Date>, end: Option<Date>,
                   configPath: string, mode: string)
    returns (r: Outcome<Run>)
    modifies fs
    ensures mode != "full" && mode != "publish" ==> r == Raised(ValueError) && fs.files == old(fs.files)
    ensures (mode == "full" || mode == "publish") && configPath in old(fs.files) && old(fs.files)[configPath].Corrupt? ==>
      r == Raised(ValueError) && fs.files == old(fs.files)
    ensures && (mode == "full" || mode == "publish")
            && configPath in old(fs.files) && old(fs.files)[configPath].Text?
            && ReadSettings(old(fs.files)[configPath].value).Raised?
            ==> r == Raised(ReadSettings(old(fs.files)[configPath].value).error)
    ensures r.Raised? ==> fs.files == old(fs.files)
    ensures r.Ok? ==> mode == "full" || mode == "publish"
    ensures r.Ok? ==> r.value.updatesStore == (mode == "publish")
    ensures r.Ok? ==>
      var cfg := if configPath in old(fs.files) then old(fs.files)[configPath].value else DefaultConfig();
      && ReadSettings(cfg).Ok?
      && var s := ReadSettings(cfg).value;
      && r.value.docs == KeptOf(site, start, end, s.perPage, Visited(site, start, s.perPage, s.startPage, s.maxPages))
      && fs.files == old(fs.files)[configPath := Text(cfg)][FILTERED_FILE := Text(JArr(AsJson(r.value.docs)))]
  {
    if mode != "full" && mode != "publish" {
      return Raised(ValueError);
    }
    var cfg := LoadConfig(fs, configPath);
    if cfg.Raised? {
      return Raised(cfg.error);
    }
    var settings := ReadSettings(cfg.value);
    if settings.Raised? {
      return Raised(settings.error);
    }
    var allDocs, pages := ScanPages(site, start, end, settings.value);
    fs.AtomicWrite(FILTERED_FILE, JArr(AsJson(allDocs)));
    r := Ok(Run(allDocs, mode == "publish"));
  }

  /** `main`'s defaulting: a given argument goes through `parse_cli_date`, and when only a
      start date results, the end date becomes the start date. */
  function CliRange(parseCli: string -> Option<Date>, startArg: string, endArg: string)
    : (r: (Option<Date>, Option<Date>))
    ensures r.0 == (if startArg == "" then None else parseCli(startArg))
    ensures r.0.Some? && (endArg == "" || parseCli(endArg).None?) ==> r.1 == r.0
    ensures endArg != "" && parseCli(endArg).Some? ==> r.1 == parseCli(endArg)
    ensures r.0.None? && (endArg == "" || parseCli(endArg).None?) ==> r.1 == None
  {
    var s := if startArg == "" then None else parseCli(startArg);
    var e := if endArg == "" then None else parseCli(endArg);
    if s.Some? && e.None? then (s, s) else (s, e)
  }
}
