/** The listing scraper of src/scrapers/scraper_core.py: the retry loop of `hent_side`
    and the rules that turn one listing article into a record. The browser is abstract:
    each attempt either breaks (navigation fails, the article selector times out, or some
    other exception escapes) or yields the articles the listing shows, and every DOM read
    an article needs is given as the outcome `safe_text` or `get_attribute` sees. */
module ScraperCore {
  import opened Json
  import opened Strings
  import opened Dates
  import opened UtilsPlaywright

  const HOST: string := "https://www.strand.kommune.no"
  const FILE_API: string := "/api/presentation/v2/nye-innsyn/filer"
  const BASE_URL_HEAD: string :=
    "https://www.strand.kommune.no/tjenester/politikk-innsyn-og-medvirkning/"
    + "postliste-dokumenter-og-vedtak/sok-i-post-dokumenter-og-saker/#/?page="
  const PAGE_SIZE_PARAM: string := "&pageSize="
  const STATUS_PUBLISHED: string := "Publisert"
  const STATUS_ON_REQUEST: string := "Må bes om innsyn"

  /** `BASE_URL.format(page=page_num, page_size=per_page)`. */
  function PageUrl(pageNum: int, perPage: int): string {
    BASE_URL_HEAD + (IntToString(pageNum) + (PAGE_SIZE_PARAM + IntToString(perPage)))
  }

  predicate NumberChars(s: string) {
    forall i :: 0 <= i < |s| ==> s[i] == '-' || '0' <= s[i] <= '9'
  }

  lemma IntToStringChars(n: int)
    ensures NumberChars(IntToString(n)) && IntToString(n) != []
    ensures IntToString(n)[0] == '-' <==> n < 0
  {
    if n >= 0 {
      assert NatToString(n)[0] != '-';
    }
  }

  lemma {:induction false} IntToStringInjective(a: int, b: int)
    requires IntToString(a) == IntToString(b)
    ensures a == b
  {
    var ma: nat := if a < 0 then -a else a;
    var mb: nat := if b < 0 then -b else b;
    var s := IntToString(a);
    assert s == if a < 0 then "-" + NatToString(ma) else NatToString(ma);
    assert s == if b < 0 then "-" + NatToString(mb) else NatToString(mb);
    assert (a < 0) == (b < 0) by {
      IntToStringChars(a);
      IntToStringChars(b);
    }
    if a < 0 {
      assert NatToString(ma) == s[1..] == NatToString(mb);
    }
    NatToStringInjective(ma, mb);
  }

  /** In a number string followed by text starting with '&', the first '&' is right
      after the number. */
  lemma AmpPosition(a: string, x: string)
    requires NumberChars(a) && x != [] && x[0] == '&'
    ensures (a + x)[|a|] == '&'
    ensures forall i :: 0 <= i < |a| ==> (a + x)[i] != '&'
  {
  }

  /** Two number strings each followed by '&' split the same way. */
  lemma SplitAtAmp(a: string, b: string, x: string, y: string)
    requires NumberChars(a) && NumberChars(b) && x != [] && y != [] && x[0] == '&' && y[0] == '&'
    requires a + x == b + y
    ensures a == b && x == y
  {
    AmpPosition(a, x);
    AmpPosition(b, y);
    assert |a| == |b|;
    assert a == (a + x)[..|a|] && b == (b + y)[..|b|];
    assert x == (a + x)[|a|..] && y == (b + y)[|b|..];
  }

  /** A common prefix cancels. */
  lemma PrefixCancel(h: string, x: string, y: string)
    requires h + x == h + y
    ensures x == y
  {
    assert x == (h + x)[|h|..];
    assert y == (h + y)[|h|..];
  }

  /** The page URL determines the page number and the page size it was built from. */
  lemma PageUrlInjective(p1: int, s1: int, p2: int, s2: int)
    requires PageUrl(p1, s1) == PageUrl(p2, s2)
    ensures p1 == p2 && s1 == s2
  {
    var n1, n2 := IntToString(p1), IntToString(p2);
    var t1, t2 := PAGE_SIZE_PARAM + IntToString(s1), PAGE_SIZE_PARAM + IntToString(s2);
    PrefixCancel(BASE_URL_HEAD, n1 + t1, n2 + t2);
    IntToStringChars(p1);
    IntToStringChars(p2);
    SplitAtAmp(n1, n2, t1, t2);
    IntToStringInjective(p1, p2);
    PrefixCancel(PAGE_SIZE_PARAM, IntToString(s1), IntToString(s2));
    IntToStringInjective(s1, s2);
  }

  // ----------------------------------------------------------------
  // Per-record rules
  // ----------------------------------------------------------------

  /** The `avsender_mottaker` string: the sender when there is one, else the recipient,
      else nothing. */
  function Counterpart(avsender: string, mottaker: string): string {
    if avsender != "" then "Avsender: " + avsender
    else if mottaker != "" then "Mottaker: " + mottaker
    else ""
  }

  datatype Party = Sender(name: string) | Recipient(name: string) | Nobody

  /** Reads a counterpart string back. */
  function ReadCounterpart(s: string): Party {
    if StartsWith(s, "Avsender: ") then Sender(s[10..])
    else if StartsWith(s, "Mottaker: ") then Recipient(s[10..])
    else Nobody
  }

  /** The counterpart string records which party it names and the name itself: the
      sender whenever it is non-empty, the recipient only when there is no sender. */
  lemma CounterpartRoundTrip(avsender: string, mottaker: string)
    ensures ReadCounterpart(Counterpart(avsender, mottaker))
         == if avsender != "" then Sender(avsender)
            else if mottaker != "" then Recipient(mottaker)
            else Nobody
  {
    var c := Counterpart(avsender, mottaker);
    if avsender != "" {
      assert c[..10] == "Avsender: " && c[10..] == avsender;
    } else if mottaker != "" {
      assert c[..10] == "Mottaker: " && c[10..] == mottaker;
      assert c[..10] != "Avsender: ";
    }
  }

  /** `href if href.startswith("http") else HOST + href`. */
  function Absolute(href: string): (r: string)
    ensures StartsWith(r, "http")
    ensures StartsWith(href, "http") ==> r == href
    ensures !StartsWith(href, "http") ==> r == HOST + href
  {
    assert StartsWith(HOST + href, "http") by {
      assert (HOST + href)[..4] == HOST[..4];
    }
    if StartsWith(href, "http") then href else HOST + href
  }

  /** Making a URL absolute twice is making it absolute once. */
  lemma AbsoluteIdempotent(href: string)
    ensures Absolute(Absolute(href)) == Absolute(href)
  {
  }

  /** `detalj_link`: the href of the enclosing link, with the host prefixed to a
      non-empty relative one. "" when there is no link element or reading it raises;
      None when the element has no href attribute. */
  function DetailLink(raw: Option<string>): (r: Option<string>)
    ensures raw.None? <==> r.None?
    ensures r.Some? && r.value != "" ==> StartsWith(r.value, "http")
    ensures raw == Some("") <==> r == Some("")
  {
    match raw
    case None => None
    case Some(h) => if h == "" then Some("") else Some(Absolute(h))
  }

  /** One `<a>` of the detail page: its `href` attribute (None when absent) and its
      inner text (None when it reads as None). */
  datatype Anchor = Anchor(href: Option<string>, text: Option<string>)

  predicate IsFileLink(a: Anchor) {
    a.href.Some? && a.href.value != "" && Contains(a.href.value, FILE_API)
  }

  function FileEntry(a: Anchor): Json
    requires IsFileLink(a)
  {
    JObj(map["tekst" := JStr(PyStrip(if a.text.Some? then a.text.value else "")),
             "url" := JStr(Absolute(a.href.value))])
  }

  /** The attachments: one entry per anchor whose href contains the file API path,
      in page order. */
  function FileEntries(anchors: seq<Anchor>): (r: seq<Json>)
    ensures |r| <= |anchors|
  {
    if anchors == [] then []
    else
      var init, last := anchors[..|anchors| - 1], anchors[|anchors| - 1];
      FileEntries(init) + (if IsFileLink(last) then [FileEntry(last)] else [])
  }

  /** An attachment entry whose URL is absolute and points into the file API. */
  predicate FileUrlOk(e: Json) {
    && e.JObj? && "url" in e.fields && e.fields["url"].JStr?
    && StartsWith(e.fields["url"].s, "http") && Contains(e.fields["url"].s, FILE_API)
  }

  lemma FileEntryUrl(a: Anchor)
    requires IsFileLink(a)
    ensures FileUrlOk(FileEntry(a))
  {
    ContainsAbsolute(a.href.value, FILE_API);
    var e := FileEntry(a);
    assert e.fields["url"] == JStr(Absolute(a.href.value));
  }

  predicate AllUrlsOk(r: seq<Json>) {
    forall k :: 0 <= k < |r| ==> FileUrlOk(r[k])
  }

  lemma AllUrlsOkAppend(r0: seq<Json>, more: seq<Json>)
    requires AllUrlsOk(r0) && AllUrlsOk(more)
    ensures AllUrlsOk(r0 + more)
  {
    var r := r0 + more;
    forall k | 0 <= k < |r|
      ensures FileUrlOk(r[k])
    {
      if k < |r0| {
        assert r[k] == r0[k];
      } else {
        assert r[k] == more[k - |r0|];
      }
    }
  }

  /** Every attachment URL is absolute and points into the file API. */
  lemma {:induction false} FileEntriesUrls(anchors: seq<Anchor>)
    ensures AllUrlsOk(FileEntries(anchors))
    decreases |anchors|
  {
    if anchors != [] {
      var init, last := anchors[..|anchors| - 1], anchors[|anchors| - 1];
      FileEntriesUrls(init);
      var more := if IsFileLink(last) then [FileEntry(last)] else [];
      if IsFileLink(last) {
        FileEntryUrl(last);
      }
      AllUrlsOkAppend(FileEntries(init), more);
    }
  }

  lemma ContainsAbsolute(href: string, sub: string)
    requires Contains(href, sub)
    ensures Contains(Absolute(href), sub)
  {
    if !StartsWith(href, "http") {
      var i :| 0 <= i <= |href| - |sub| && StartsWith(href[i..], sub);
      var u := HOST + href;
      assert u[|HOST| + i..] == href[i..];
    }
  }

  /** There are attachments exactly when some anchor links into the file API. */
  lemma {:induction false} FileEntriesEmpty(anchors: seq<Anchor>)
    ensures FileEntries(anchors) == [] <==> forall k :: 0 <= k < |anchors| ==> !IsFileLink(anchors[k])
    decreases |anchors|
  {
    if anchors != [] {
      var init := anchors[..|anchors| - 1];
      FileEntriesEmpty(init);
      assert forall k :: 0 <= k < |init| ==> init[k] == anchors[k];
    }
  }

  function Status(filer: seq<Json>): string {
    if filer != [] then STATUS_PUBLISHED else STATUS_ON_REQUEST
  }

  /** The detail page as the attachment loop sees it: `safe_goto` failed, or the anchors
      read before the loop ended (an exception part-way ends the sequence there). */
  datatype DetailPage = GotoFailed | Anchors(links: seq<Anchor>)

  /** One listing article: the outcome of each `safe_text` query, the raw link href,
      and the detail page behind the link. */
  datatype Article = Article(
    dokid: NodeQuery, tittel: NodeQuery, dato: NodeQuery, doktype: NodeQuery,
    avsender: NodeQuery, mottaker: NodeQuery, link: Option<string>, detail: DetailPage)

  /** `parse_date_from_page` and `format_date`, whose code is not part of this model. */
  datatype DateText = DateText(parse: string -> Option<Date>, format: Option<Date> -> Json)

  function AttachmentsOf(art: Article): seq<Json> {
    var link := DetailLink(art.link);
    if link.Some? && link.value != "" && art.detail.Anchors? then FileEntries(art.detail.links) else []
  }

  /** `dato_iso`: the ISO rendering of the parsed date, or None. */
  function IsoField(parsed: Option<Date>): Json {
    if parsed.Some? then JStr(FormatIso(parsed.value)) else JNull
  }

  /** The dictionary the loop appends for one article, from the texts already read. */
  function Record(dt: DateText, dokid: string, tittel: string, dato: string, doktype: string,
                  counterpart: string, link: Option<string>, filer: seq<Json>): Doc
  {
    var parsed := dt.parse(dato);
    map[
      "tittel" := JStr(tittel),
      "dato" := dt.format(parsed),
      "dato_iso" := IsoField(parsed),
      "dokumentID" := JStr(dokid),
      "dokumenttype" := JStr(doktype),
      "avsender_mottaker" := JStr(counterpart),
      "journal_link" := (if link.Some? then JStr(link.value) else JNull),
      "filer" := JArr(filer),
      "status" := JStr(Status(filer))]
  }

  /** The record of one article, or None when its `dokumentID` is empty. */
  function DeriveDoc(dt: DateText, art: Article): Option<Doc> {
    var dokid := SafeText(art.dokid);
    if dokid == "" then None
    else
      Some(Record(dt, dokid, SafeText(art.tittel), SafeText(art.dato), SafeText(art.doktype),
                  Counterpart(SafeText(art.avsender), SafeText(art.mottaker)),
                  DetailLink(art.link), AttachmentsOf(art)))
  }

  /** Articles without an id are skipped; the others give a record under their id. */
  lemma DeriveDocId(dt: DateText, art: Article)
    ensures DeriveDoc(dt, art).None? <==> SafeText(art.dokid) == ""
    ensures DeriveDoc(dt, art).Some? ==>
      Get(DeriveDoc(dt, art).value, "dokumentID") == JStr(SafeText(art.dokid))
  {
  }

  /** The status is "Publisert" exactly when the record has attachments, and "Må bes om
      innsyn" otherwise. */
  lemma DeriveDocStatus(dt: DateText, art: Article)
    requires DeriveDoc(dt, art).Some?
    ensures var d := DeriveDoc(dt, art).value;
      && Get(d, "filer") == JArr(AttachmentsOf(art))
      && (Get(d, "status") == JStr(STATUS_PUBLISHED) <==> AttachmentsOf(art) != [])
      && (Get(d, "status") == JStr(STATUS_ON_REQUEST) <==> AttachmentsOf(art) == [])
  {
  }

  /** `dato_iso` is None exactly when the listing date did not parse, and is otherwise
      the ISO rendering of the parsed date. */
  lemma DeriveDocDateIso(dt: DateText, art: Article)
    requires DeriveDoc(dt, art).Some?
    ensures var d := DeriveDoc(dt, art).value;
      var parsed := dt.parse(SafeText(art.dato));
      && (Get(d, "dato_iso") == JNull <==> parsed.None?)
      && (parsed.Some? ==> Get(d, "dato_iso") == JStr(FormatIso(parsed.value)))
  {
    var d := DeriveDoc(dt, art).value;
    assert Get(d, "dato_iso") == IsoField(dt.parse(SafeText(art.dato)));
  }

  /** The journal link is absent or empty exactly when the raw href was, and absolute
      otherwise; attachments are only looked for behind a non-empty link. */
  lemma DeriveDocLink(dt: DateText, art: Article)
    requires DeriveDoc(dt, art).Some?
    ensures var link := Get(DeriveDoc(dt, art).value, "journal_link");
      && (link == JNull <==> art.link.None?)
      && (link == JStr("") <==> art.link == Some(""))
      && (link.JStr? && link.s != "" ==> StartsWith(link.s, "http"))
      && (!link.JStr? || link.s == "" ==> AttachmentsOf(art) == [])
  {
  }

  /** The records of a listing, in listing order, skipping articles without an id. */
  function DeriveAll(dt: DateText, arts: seq<Article>): (r: seq<Doc>)
    ensures |r| <= |arts|
  {
    if arts == [] then []
    else
      var init, last := arts[..|arts| - 1], arts[|arts| - 1];
      DeriveAll(dt, init) + (match DeriveDoc(dt, last) case Some(d) => [d] case None => [])
  }

  /** The non-empty article ids, in listing order. */
  function ListedIds(arts: seq<Article>): seq<Json> {
    if arts == [] then []
    else
      var init, last := arts[..|arts| - 1], arts[|arts| - 1];
      ListedIds(init) + (if SafeText(last.dokid) != "" then [JStr(SafeText(last.dokid))] else [])
  }

  /** The `dokumentID` of each record, in order. */
  function IdsOf(docs: seq<Doc>): (r: seq<Json>)
    ensures |r| == |docs|
  {
    if docs == [] then [] else IdsOf(docs[..|docs| - 1]) + [Get(docs[|docs| - 1], "dokumentID")]
  }

  lemma IdsOfAppend(docs: seq<Doc>, more: seq<Doc>)
    requires |more| <= 1
    ensures IdsOf(docs + more) == IdsOf(docs) + IdsOf(more)
  {
    if more != [] {
      var all := docs + more;
      assert all[..|all| - 1] == docs && all[|all| - 1] == more[0];
      assert more[..0] == [];
      assert IdsOf(more) == [Get(more[0], "dokumentID")];
    } else {
      assert docs + more == docs;
    }
  }

  /** No article with an id is dropped and none without one is kept: the record ids are
      the listed ids, in the same order. */
  lemma {:induction false} DeriveAllIds(dt: DateText, arts: seq<Article>)
    ensures IdsOf(DeriveAll(dt, arts)) == ListedIds(arts)
    decreases |arts|
  {
    if arts != [] {
      var init, last := arts[..|arts| - 1], arts[|arts| - 1];
      DeriveAllIds(dt, init);
      DeriveDocId(dt, last);
      var more := match DeriveDoc(dt, last) case Some(d) => [d] case None => [];
      IdsOfAppend(DeriveAll(dt, init), more);
    }
  }

  // ----------------------------------------------------------------
  // The imperative loops
  // ----------------------------------------------------------------

  /** The `for fl in page.query_selector_all("a")` loop. */
  method CollectFiles(anchors: seq<Anchor>) returns (filer: seq<Json>)
    ensures filer == FileEntries(anchors)
  {
    filer := [];
    for i := 0 to |anchors|
      invariant filer == FileEntries(anchors[..i])
    {
      var fl := anchors[i];
      assert anchors[..i + 1][..i] == anchors[..i];
      if fl.href.Some? && fl.href.value != "" && Contains(fl.href.value, FILE_API) {
        var absUrl := if StartsWith(fl.href.value, "http") then fl.href.value else HOST + fl.href.value;
        filer := filer + [JObj(map["tekst" := JStr(PyStrip(if fl.text.Some? then fl.text.value else "")),
                                  "url" := JStr(absUrl)])];
      }
    }
    assert anchors[..|anchors|] == anchors;
  }

  /** The `for art in artikler` loop, with its `continue` on an empty id. */
  method ParseArticles(dt: DateText, artikler: seq<Article>) returns (docs: seq<Doc>)
    ensures docs == DeriveAll(dt, artikler)
  {
    docs := [];
    for i := 0 to |artikler|
      invariant docs == DeriveAll(dt, artikler[..i])
    {
      var art := artikler[i];
      assert artikler[..i + 1][..i] == artikler[..i];
      var dokid := SafeText(art.dokid);
      if dokid == "" {
        continue;
      }
      var detaljLink := DetailLink(art.link);
      var filer := [];
      if detaljLink.Some? && detaljLink.value != "" && art.detail.Anchors? {
        filer := CollectFiles(art.detail.links);
      }
      docs := docs + [Record(dt, dokid, SafeText(art.tittel), SafeText(art.dato), SafeText(art.doktype),
                             Counterpart(SafeText(art.avsender), SafeText(art.mottaker)), detaljLink, filer)];
    }
    assert artikler[..|artikler|] == artikler;
  }

  /** What one attempt to load the listing gives. */
  datatype Listing = Broken | Loaded(articles: seq<Article>)

  /** An attempt succeeds when the listing loads with at least one article; a listing
      with no articles raises and is retried like a broken one. */
  predicate Succeeds(l: Listing) {
    l.Loaded? && l.articles != []
  }

  /** The first attempt from `k` up to `retries` that succeeds. */
  function FirstSuccess(attempt: nat -> Listing, k: nat, retries: int): (r: Option<nat>)
    ensures r.Some? ==> k <= r.value <= retries && Succeeds(attempt(r.value))
    ensures r.Some? ==> forall j :: k <= j < r.value ==> !Succeeds(attempt(j))
    ensures r.None? ==> forall j :: k <= j <= retries ==> !Succeeds(attempt(j))
    decreases retries - k + 1
  {
    if k > retries then None
    else if Succeeds(attempt(k)) then Some(k)
    else FirstSuccess(attempt, k + 1, retries)
  }

  /** What `hent_side` returns: the records of the first of attempts 1 to `retries` that
      succeeds, or None. */
  function Fetch(dt: DateText, attempt: nat -> Listing, retries: int): Option<seq<Doc>> {
    match FirstSuccess(attempt, 1, retries)
    case Some(k) => Some(DeriveAll(dt, attempt(k).articles))
    case None => None
  }

  /** `hent_side`: up to `retries` attempts, one second's sleep after each failure; the
      records of the first attempt that succeeds, or None when none does. */
  method HentSide(dt: DateText, attempt: nat -> Listing, retries: int)
    returns (r: Option<seq<Doc>>, tried: nat, sleeps: nat)
    ensures r == Fetch(dt, attempt, retries)
    ensures forall k :: 1 <= k < tried ==> !Succeeds(attempt(k))
    ensures tried <= (if retries < 0 then 0 else retries)
    ensures r.Some? <==> tried >= 1 && Succeeds(attempt(tried))
    ensures r.Some? ==> r.value == DeriveAll(dt, attempt(tried).articles) && sleeps == tried - 1
    ensures r.None? ==> tried == (if retries < 0 then 0 else retries) && sleeps == tried
  {
    tried, sleeps := 0, 0;
    var k := 1;
    while k <= retries
      invariant 1 <= k && (k == 1 || k <= retries + 1)
      invariant tried == k - 1 && sleeps == tried
      invariant forall j :: 1 <= j < k ==> !Succeeds(attempt(j))
      invariant FirstSuccess(attempt, 1, retries) == FirstSuccess(attempt, k, retries)
      decreases retries - k
    {
      tried := k;
      var page := attempt(k);
      if page.Loaded? && |page.articles| != 0 {
        var docs := ParseArticles(dt, page.articles);
        return Some(docs), tried, sleeps;
      }
      sleeps := sleeps + 1;
      k := k + 1;
    }
    r := None;
  }
}
