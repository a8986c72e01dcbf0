/** The original single-file scraper, scraper.py: its configuration defaults, the record
    rules of its `hent_side`, the `main` loop that stops at the first empty page, and the
    helpers of the script it embeds in the generated page (`cssClassForType`,
    `iconForType` and the slicing in `renderPage`). The browser is abstract: a listing page
    either cannot be opened or shows articles whose DOM reads are given. */
module Scraper {
  import opened Json
  import opened Strings
  import opened Storage
  import opened Pagination
  import ScraperCore
  import UtilsFiles

  const CONFIG_FILE: string := "config.json"
  const OUTPUT_FILE: string := "postliste.json"

  // ----------------------------------------------------------------
  // Configuration
  // ----------------------------------------------------------------

  /** The configuration used when there is no config file. */
  const DEFAULT_CONFIG: Json := JObj(map["max_pages" := JNum(2), "per_page" := JNum(50)])

  /** `load_config()`: the parsed file when it exists, the defaults when it does not;
      `json.load` raises ValueError on a file that does not parse. */
  function LoadConfig(files: map<string, Content>, path: string): (r: Outcome<Json>)
    ensures path !in files ==> r == Ok(DEFAULT_CONFIG)
    ensures r == Raised(ValueError) <==> path in files && files[path].Corrupt?
    ensures path in files && files[path].Text? ==> r == Ok(files[path].value)
  {
    if path !in files then Ok(DEFAULT_CONFIG)
    else match files[path]
      case Text(v) => Ok(v)
      case Corrupt => Raised(ValueError)
  }

  /** `range(1, config.get("max_pages", 2) + 1)` needs the value as an integer: `bool`
      counts as 0 or 1, anything else raises TypeError, and a configuration that is not
      an object has no `.get`. */
  function MaxPages(cfg: Json): (r: Outcome<int>)
    ensures !cfg.JObj? ==> r == Raised(AttributeError)
    ensures cfg.JObj? && "max_pages" !in cfg.fields ==> r == Ok(2)
    ensures cfg.JObj? && "max_pages" in cfg.fields && cfg.fields["max_pages"].JNum? ==>
      r == Ok(cfg.fields["max_pages"].n)
    ensures r.Ok? ==> cfg.JObj?
  {
    if !cfg.JObj? then Raised(AttributeError)
    else match GetOr(cfg.fields, "max_pages", JNum(2))
      case JNum(n) => Ok(n)
      case JBool(b) => Ok(if b then 1 else 0)
      case _ => Raised(TypeError)
  }

  /** Without a config file the scraper reads two pages and the page shows 50 records
      at a time. */
  lemma DefaultSettings(files: map<string, Content>)
    requires CONFIG_FILE !in files
    ensures LoadConfig(files, CONFIG_FILE).Ok?
    ensures MaxPages(LoadConfig(files, CONFIG_FILE).value) == Ok(2)
    ensures GetOr(LoadConfig(files, CONFIG_FILE).value.fields, "per_page", JNum(50)) == JNum(50)
  {
  }

  // ----------------------------------------------------------------
  // One record
  // ----------------------------------------------------------------

  /** One `<a>` of a detail page: its `href` (None when absent) and its inner text. */
  datatype FileLink = FileLink(href: Option<string>, text: string)

  /** The detail page: `goto` raised, or the links read before the loop ended (an
      exception part-way ends the sequence there). */
  datatype Detail = GotoRaised | Links(links: seq<FileLink>)

  /** One listing article: each queried node's inner text (None when there is no such
      node), the href of the enclosing link (`Some("")` when there is no link element,
      None when it has no href), and the detail page behind the link. */
  datatype Article = Article(
    tittel: Option<string>, dato: Option<string>, dokid: Option<string>, doktype: Option<string>,
    avsender: Option<string>, mottaker: Option<string>, link: Option<string>, detail: Detail)

  /** This script's `safe_text`: the stripped inner text, or "" without a node. */
  function SafeText(node: Option<string>): string {
    if node.Some? then PyStrip(node.value) else ""
  }

  /** The `avsender_mottaker` value: the sender for incoming mail, else the recipient
      for outgoing mail, else "". */
  function Counterpart(doktype: string, avsender: string, mottaker: string): (r: string)
    ensures Contains(doktype, "Inngående") ==> r == avsender
    ensures !Contains(doktype, "Inngående") && Contains(doktype, "Utgående") ==> r == mottaker
    ensures !Contains(doktype, "Inngående") && !Contains(doktype, "Utgående") ==> r == ""
  {
    if Contains(doktype, "Inngående") then avsender
    else if Contains(doktype, "Utgående") then mottaker
    else ""
  }

  predicate IsFileLink(fl: FileLink) {
    fl.href.Some? && fl.href.value != "" && Contains(fl.href.value, ScraperCore.FILE_API)
  }

  /** An attachment entry; the host is put in front of the href whatever it is. */
  function FileEntry(fl: FileLink): Json
    requires IsFileLink(fl)
  {
    JObj(map["tekst" := JStr(fl.text), "url" := JStr(ScraperCore.HOST + fl.href.value)])
  }

  /** The attachments: one entry per link into the file API, in page order. */
  function FileEntries(links: seq<FileLink>): (r: seq<Json>)
    ensures |r| <= |links|
    ensures forall k :: 0 <= k < |r| ==> r[k].JObj? && r[k].fields.Keys == {"tekst", "url"}
  {
    if links == [] then []
    else
      var init, last := links[..|links| - 1], links[|links| - 1];
      FileEntries(init) + (if IsFileLink(last) then [FileEntry(last)] else [])
  }

  /** An entry whose URL is the host followed by an href into the file API. */
  predicate HostFileUrl(e: Json) {
    && e.JObj? && "url" in e.fields && e.fields["url"].JStr?
    && var u := e.fields["url"].s;
    && StartsWith(u, ScraperCore.HOST) && Contains(u[|ScraperCore.HOST|..], ScraperCore.FILE_API)
  }

  predicate AllHostFileUrls(r: seq<Json>) {
    forall k :: 0 <= k < |r| ==> HostFileUrl(r[k])
  }

  lemma AllHostFileUrlsAppend(r0: seq<Json>, more: seq<Json>)
    requires AllHostFileUrls(r0) && AllHostFileUrls(more)
    ensures AllHostFileUrls(r0 + more)
  {
    var r := r0 + more;
    forall k | 0 <= k < |r|
      ensures HostFileUrl(r[k])
    {
      if k < |r0| {
        assert r[k] == r0[k];
      } else {
        assert r[k] == more[k - |r0|];
      }
    }
  }

  /** Every attachment URL is the host followed by a file-API href. */
  lemma {:induction false} FileEntriesUrls(links: seq<FileLink>)
    ensures AllHostFileUrls(FileEntries(links))
    decreases |links|
  {
    if links != [] {
      var init, last := links[..|links| - 1], links[|links| - 1];
      FileEntriesUrls(init);
      var more := if IsFileLink(last) then [FileEntry(last)] else [];
      if IsFileLink(last) {
        var u := ScraperCore.HOST + last.href.value;
        assert u[..|ScraperCore.HOST|] == ScraperCore.HOST && u[|ScraperCore.HOST|..] == last.href.value;
        assert HostFileUrl(FileEntry(last));
      }
      AllHostFileUrlsAppend(FileEntries(init), more);
    }
  }

  /** Every link yields an attachment exactly when every link points into the file API. */
  lemma {:induction false} FileEntriesAll(links: seq<FileLink>)
    ensures |FileEntries(links)| == |links| <==> forall k :: 0 <= k < |links| ==> IsFileLink(links[k])
    decreases |links|
  {
    if links != [] {
      var init := links[..|links| - 1];
      FileEntriesAll(init);
      assert forall k :: 0 <= k < |init| ==> init[k] == links[k];
    }
  }

  /** The attachments of an article: looked for only behind a non-empty link. */
  function AttachmentsOf(art: Article): seq<Json> {
    if art.link.Some? && art.link.value != "" && art.detail.Links? then FileEntries(art.detail.links) else []
  }

  /** The dictionary `hent_side` appends, from the texts already read. */
  function Record(pageNum: int, tittel: string, dato: string, dokid: string, doktype: string,
                  counterpart: string, link: Option<string>, filer: seq<Json>): Doc
  {
    map[
      "tittel" := JStr(tittel),
      "dato" := JStr(dato),
      "dokumentID" := JStr(dokid),
      "dokumenttype" := JStr(doktype),
      "avsender_mottaker" := JStr(counterpart),
      "side" := JNum(pageNum),
      "detalj_link" := (if link.Some? then JStr(link.value) else JNull),
      "filer" := JArr(filer),
      "status" := JStr(ScraperCore.Status(filer))]
  }

  /** The record of one article of page `pageNum`; articles without an id are kept. */
  function RecordOf(pageNum: int, art: Article): Doc {
    var doktype := SafeText(art.doktype);
    Record(pageNum, SafeText(art.tittel), SafeText(art.dato), SafeText(art.dokid), doktype,
           Counterpart(doktype, SafeText(art.avsender), SafeText(art.mottaker)),
           art.link, AttachmentsOf(art))
  }

  /** The record carries its page number and counterpart, and is "Publisert" exactly
      when it has attachments, whose URLs are all host-prefixed file-API links. */
  lemma RecordOfFields(pageNum: int, art: Article)
    ensures var d := RecordOf(pageNum, art);
      && Get(d, "side") == JNum(pageNum)
      && Get(d, "avsender_mottaker")
         == JStr(Counterpart(SafeText(art.doktype), SafeText(art.avsender), SafeText(art.mottaker)))
      && Get(d, "filer") == JArr(AttachmentsOf(art))
      && (Get(d, "status") == JStr(ScraperCore.STATUS_PUBLISHED) <==> AttachmentsOf(art) != [])
      && (Get(d, "status") == JStr(ScraperCore.STATUS_ON_REQUEST) <==> AttachmentsOf(art) == [])
    ensures AllHostFileUrls(AttachmentsOf(art))
  {
    if art.detail.Links? {
      FileEntriesUrls(art.detail.links);
    }
  }

  /** A listing page: `goto` or the wait for articles raised, or the articles shown. */
  datatype Listing = Unreachable | Shown(articles: seq<Article>)

  /** The records of a listing page, one per article, in order. */
  function RecordsOf(pageNum: int, arts: seq<Article>): (r: seq<Doc>)
    ensures |r| == |arts|
  {
    if arts == [] then []
    else RecordsOf(pageNum, arts[..|arts| - 1]) + [RecordOf(pageNum, arts[|arts| - 1])]
  }

  /** What `hent_side(page_num)` returns. */
  function PageDocs(pageNum: int, l: Listing): seq<Doc> {
    match l
    case Unreachable => []
    case Shown(arts) => RecordsOf(pageNum, arts)
  }

  /** Every record of a page carries that page's number. */
  lemma {:induction false} RecordsOfSide(pageNum: int, arts: seq<Article>)
    ensures forall k :: 0 <= k < |RecordsOf(pageNum, arts)| ==> Get(RecordsOf(pageNum, arts)[k], "side") == JNum(pageNum)
    decreases |arts|
  {
    if arts != [] {
      var init := arts[..|arts| - 1];
      RecordsOfSide(pageNum, init);
      RecordOfFields(pageNum, arts[|arts| - 1]);
      var r := RecordsOf(pageNum, arts);
      forall k | 0 <= k < |r|
        ensures Get(r[k], "side") == JNum(pageNum)
      {
        if k < |init| {
          assert r[k] == RecordsOf(pageNum, init)[k];
        }
      }
    }
  }

  // ----------------------------------------------------------------
  // The loops
  // ----------------------------------------------------------------

  /** The `for fl in file_links` loop. */
  method CollectFiles(links: seq<FileLink>) returns (filer: seq<Json>)
    ensures filer == FileEntries(links)
  {
    filer := [];
    for i := 0 to |links|
      invariant filer == FileEntries(links[..i])
    {
      var fl := links[i];
      assert links[..i + 1][..i] == links[..i];
      if fl.href.Some? && fl.href.value != "" && Contains(fl.href.value, ScraperCore.FILE_API) {
        filer := filer + [JObj(map["tekst" := JStr(fl.text), "url" := JStr(ScraperCore.HOST + fl.href.value)])];
      }
    }
    assert links[..|links|] == links;
  }

  /** `hent_side(page_num, browser)`: no records when the page cannot be opened, and
      otherwise one record per article, in listing order. */
  method HentSide(pageNum: int, l: Listing) returns (dokumenter: seq<Doc>)
    ensures dokumenter == PageDocs(pageNum, l)
  {
    if l.Unreachable? {
      return [];
    }
    var articles := l.articles;
    dokumenter := [];
    for i := 0 to |articles|
      invariant dokumenter == RecordsOf(pageNum, articles[..i])
    {
      var art := articles[i];
      assert articles[..i + 1][..i] == articles[..i];
      var doktype := SafeText(art.doktype);
      var mottaker := "";
      if Contains(doktype, "Inngående") {
        mottaker := SafeText(art.avsender);
      } else if Contains(doktype, "Utgående") {
        mottaker := SafeText(art.mottaker);
      }
      var filer := [];
      if art.link.Some? && art.link.value != "" && art.detail.Links? {
        filer := CollectFiles(art.detail.links);
      }
      dokumenter := dokumenter + [Record(pageNum, SafeText(art.tittel), SafeText(art.dato),
                                         SafeText(art.dokid), doktype, mottaker, art.link, filer)];
    }
    assert articles[..|articles|] == articles;
  }

  /** The records `hent_side` returns for each page number. */
  function PagesOf(listing: int -> Listing): int -> seq<Doc> {
    p => PageDocs(p, listing(p))
  }

  /** The records `main` collects from page `page` on, when page `p` yields
      `docsOf(p)`: it stops after `maxPages` or at the first page without records. */
  function Collected(docsOf: int -> seq<Doc>, page: int, maxPages: int): seq<Doc>
    decreases maxPages - page + 1
  {
    if page > maxPages then []
    else if docsOf(page) == [] then []
    else docsOf(page) + Collected(docsOf, page + 1, maxPages)
  }

  /** No page after an empty one is read. */
  lemma {:induction false} CollectedCut(docsOf: int -> seq<Doc>, page: int, k: int, maxPages: int)
    requires page <= k <= maxPages && docsOf(k) == []
    ensures Collected(docsOf, page, maxPages) == Collected(docsOf, page, k - 1)
    decreases k - page
  {
    if page < k && docsOf(page) != [] {
      CollectedCut(docsOf, page + 1, k, maxPages);
    }
  }

  /** Every collected record comes from a page between `page` and `maxPages`, and is
      one of that page's records. */
  lemma {:induction false} CollectedFrom(docsOf: int -> seq<Doc>, page: int, maxPages: int, d: Doc)
    requires d in Collected(docsOf, page, maxPages)
    ensures exists p :: page <= p <= maxPages && d in docsOf(p)
    decreases maxPages - page + 1
  {
    if d !in docsOf(page) {
      CollectedFrom(docsOf, page + 1, maxPages, d);
      var p :| page + 1 <= p <= maxPages && d in docsOf(p);
    }
  }

  /** Every record `main` collects carries the number of a page it read. */
  lemma CollectedSides(listing: int -> Listing, maxPages: int, d: Doc)
    requires d in Collected(PagesOf(listing), 1, maxPages)
    ensures Get(d, "side").JNum? && 1 <= Get(d, "side").n <= maxPages
  {
    CollectedFrom(PagesOf(listing), 1, maxPages, d);
    var p :| 1 <= p <= maxPages && d in PagesOf(listing)(p);
    var docs := PageDocs(p, listing(p));
    var k :| 0 <= k < |docs| && docs[k] == d;
    RecordsOfSide(p, listing(p).articles);
  }

  /** The loop's step: an empty page ends the collection, another one is followed by
      the collection from the next page. */
  lemma CollectedStep(docsOf: int -> seq<Doc>, alle: seq<Doc>, page: int, maxPages: int)
    requires page <= maxPages
    ensures docsOf(page) == [] ==> alle + Collected(docsOf, page, maxPages) == alle
    ensures docsOf(page) != [] ==>
      alle + Collected(docsOf, page, maxPages) == (alle + docsOf(page)) + Collected(docsOf, page + 1, maxPages)
  {
    if docsOf(page) == [] {
      assert alle + [] == alle;
    }
  }

  /** The `for page_num in range(1, max_pages + 1)` loop with its `break`, where
      `docsOf(page_num)` is what `hent_side(page_num, browser)` returns (`RunMain` passes
      `PagesOf(listing)`, the function `HentSide` computes). */
  method CollectPages(docsOf: int -> seq<Doc>, maxPages: int) returns (alle: seq<Doc>)
    ensures alle == Collected(docsOf, 1, maxPages)
  {
    alle := [];
    var pageNum := 1;
    while pageNum <= maxPages
      invariant alle + Collected(docsOf, pageNum, maxPages) == Collected(docsOf, 1, maxPages)
      decreases maxPages - pageNum + 1
    {
      var docs := docsOf(pageNum);
      CollectedStep(docsOf, alle, pageNum, maxPages);
      if docs == [] {
        return;
      }
      alle := alle + docs;
      pageNum := pageNum + 1;
    }
    assert alle + [] == alle;
  }

  /** `main()` up to the JSON file: reads the configuration, collects the pages, and
      writes the records to postliste.json. A raising configuration leaves the
      filesystem as it was. */
  method RunMain(fs: FileSystem, listing: int -> Listing) returns (r: Outcome<seq<Doc>>)
    modifies fs
    ensures LoadConfig(old(fs.files), CONFIG_FILE).Raised? ==> r.Raised? && fs.files == old(fs.files)
    ensures r.Ok? ==> && LoadConfig(old(fs.files), CONFIG_FILE).Ok?
                      && MaxPages(LoadConfig(old(fs.files), CONFIG_FILE).value).Ok?
                      && r.value == Collected(PagesOf(listing), 1, MaxPages(LoadConfig(old(fs.files), CONFIG_FILE).value).value)
    ensures r.Ok? ==> fs.files == old(fs.files)[OUTPUT_FILE := Text(JArr(UtilsFiles.AsJson(r.value)))]
    ensures r.Raised? ==> fs.files == old(fs.files)
  {
    var config := LoadConfig(fs.files, CONFIG_FILE);
    if config.Raised? {
      return Raised(config.error);
    }
    var maxPages := MaxPages(config.value);
    if maxPages.Raised? {
      return Raised(maxPages.error);
    }
    var alle := CollectPages(PagesOf(listing), maxPages.value);
    fs.AtomicWrite(OUTPUT_FILE, JArr(UtilsFiles.AsJson(alle)));
    r := Ok(alle);
  }

  // ----------------------------------------------------------------
  // The embedded page script
  // ----------------------------------------------------------------

  /** The document-type words the page tests for, in the order it tests them. */
  const TYPE_WORDS: seq<string> :=
    ["Inngående", "Utgående", "Sakskart", "Møtebok", "Møteprotokoll", "Saksfremlegg", "Internt"]
  const TYPE_CLASSES: seq<string> :=
    ["type-inngående", "type-utgående", "type-sakskart", "type-møtebok",
     "type-møteprotokoll", "type-saksfremlegg", "type-internt"]
  const TYPE_ICONS: seq<string> := ["📬", "📤", "📑", "📘", "📜", "📝", "📂"]

  /** The first type word from index `i` on that the document type contains. */
  function FirstWord(doktype: string, i: nat): (r: Option<nat>)
    ensures r.Some? ==> i <= r.value < |TYPE_WORDS| && Contains(doktype, TYPE_WORDS[r.value])
    ensures r.Some? ==> forall j :: i <= j < r.value ==> !Contains(doktype, TYPE_WORDS[j])
    ensures r.None? ==> forall j :: i <= j < |TYPE_WORDS| ==> !Contains(doktype, TYPE_WORDS[j])
    decreases |TYPE_WORDS| - i
  {
    if i >= |TYPE_WORDS| then None
    else if Contains(doktype, TYPE_WORDS[i]) then Some(i)
    else FirstWord(doktype, i + 1)
  }

  /** `cssClassForType(doktype)`. */
  function CssClassForType(doktype: string): string {
    match FirstWord(doktype, 0)
    case Some(k) => TYPE_CLASSES[k]
    case None => ""
  }

  /** `iconForType(doktype)`. */
  function IconForType(doktype: string): string {
    match FirstWord(doktype, 0)
    case Some(k) => TYPE_ICONS[k]
    case None => "📄"
  }

  /** The class and the icon are those of the first listed word the type contains, and
      the defaults exactly when it contains none. */
  lemma TypeStyle(doktype: string, k: nat)
    requires k < |TYPE_WORDS| && Contains(doktype, TYPE_WORDS[k])
    requires forall j :: 0 <= j < k ==> !Contains(doktype, TYPE_WORDS[j])
    ensures CssClassForType(doktype) == TYPE_CLASSES[k]
    ensures IconForType(doktype) == TYPE_ICONS[k]
  {
  }

  /** The defaults appear exactly when the type contains none of the words. */
  lemma TypeStyleDefault(doktype: string)
    ensures CssClassForType(doktype) == "" <==> forall j :: 0 <= j < |TYPE_WORDS| ==> !Contains(doktype, TYPE_WORDS[j])
    ensures IconForType(doktype) == "📄" <==> forall j :: 0 <= j < |TYPE_WORDS| ==> !Contains(doktype, TYPE_WORDS[j])
  {
    var r := FirstWord(doktype, 0);
    if r.Some? {
      var k := r.value;
      assert TYPE_CLASSES[k] != "" && TYPE_ICONS[k] != "📄" by {
        assert k < 7;
      }
    }
  }

  /** `Array.prototype.slice(start, end)`: negative bounds count from the end, and
      bounds are clamped to the array. */
  function JsSlice<T>(s: seq<T>, start: int, end: int): seq<T> {
    var len := |s|;
    var lo := if start < 0 then (if len + start < 0 then 0 else len + start)
              else (if start > len then len else start);
    var hi := if end < 0 then (if len + end < 0 then 0 else len + end)
              else (if end > len then len else end);
    if lo < hi then s[lo..hi] else []
  }

  /** The items `renderPage(page)` shows. */
  function PageItems<T>(data: seq<T>, page: int, perPage: int): seq<T> {
    var start := (page - 1) * perPage;
    JsSlice(data, start, start + perPage)
  }

  function Min(a: int, b: int): int {
    if a < b then a else b
  }

  /** A slice with bounds that are not negative is the clamped range. */
  lemma JsSliceRange<T>(s: seq<T>, lo: int, hi: int)
    requires 0 <= lo <= hi
    ensures JsSlice(s, lo, hi) == s[Min(lo, |s|)..Min(hi, |s|)]
  {
  }

  /** The one product fact paging needs: page `page` starts where page `page - 1` ends. */
  lemma PageStart(page: int, perPage: int)
    requires page >= 1 && perPage >= 1
    ensures 0 <= (page - 1) * perPage
    ensures (page - 1) * perPage + perPage == page * perPage
  {
  }

  /** Page `page` shows exactly the items at indices `[(page-1)*perPage, page*perPage)`
      that exist. */
  lemma PageItemsRange<T>(data: seq<T>, page: int, perPage: int)
    requires page >= 1 && perPage >= 1
    ensures var lo, hi := Min((page - 1) * perPage, |data|), Min(page * perPage, |data|);
      PageItems(data, page, perPage) == data[lo..hi]
  {
    PageStart(page, perPage);
    JsSliceRange(data, (page - 1) * perPage, (page - 1) * perPage + perPage);
  }

  /** The items of pages 1 to `n`, one page after the other. */
  function FirstPages<T>(data: seq<T>, perPage: int, n: nat): seq<T> {
    if n == 0 then [] else FirstPages(data, perPage, n - 1) + PageItems(data, n, perPage)
  }

  /** Pages 1 to `n` together show the first `n * perPage` items, once each, in order. */
  lemma {:induction false} FirstPagesPrefix<T>(data: seq<T>, perPage: int, n: nat)
    requires perPage >= 1
    ensures FirstPages(data, perPage, n) == data[..Min(n * perPage, |data|)]
  {
    if n > 0 {
      FirstPagesPrefix(data, perPage, n - 1);
      PageItemsRange(data, n, perPage);
      PageStart(n, perPage);
      var a, b := Min((n - 1) * perPage, |data|), Min(n * perPage, |data|);
      assert data[..a] + data[a..b] == data[..b];
    }
  }

  /** Paging through all pages up to the last one shows every item exactly once, in
      order. */
  lemma AllPagesShowData<T>(data: seq<T>, perPage: int)
    requires perPage >= 1
    ensures FirstPages(data, perPage, MaxPage(|data|, perPage)) == data
  {
    FirstPagesPrefix(data, perPage, MaxPage(|data|, perPage));
    assert MaxPage(|data|, perPage) * perPage >= |data|;
  }
}
