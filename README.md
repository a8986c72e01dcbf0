# Postliste record store and scrapers, modelled in Dafny

This project models the core of a scraper and archive for the public mail journal
("postliste") of Strand kommune. Records are scraped from the municipality's listing
pages, then kept in a JSON record store. The store is merged by `dokumentID`, sorted
newest first, and split into size-bounded shard files `postliste_N.json`, with an index
file `postliste_index.json` that lists them. Maintenance tools rebuild the shards,
normalise the two date fields and report duplicate ids. The browser front end loads the
shards, exports CSV, counts statistics and pages through the records.

Records are loose JSON values (`Json.Json`, with `Json.Doc` for a JSON object) because
the source depends on dictionary semantics. A missing key reads as `None` through
`.get`, shard files can hold items that are not dicts, and untracked fields travel
along. Python dicts whose iteration order matters are `Dicts.Dict`: an insertion-ordered
key sequence plus a map.

The environment enters as parameters:

- The filesystem is the class `Storage.FileSystem`, a map from path to content. Content
  is a JSON value or `Corrupt`, meaning a file that does not parse.
- The browser is a function from attempt number to what that attempt shows.
- JSON byte size is an abstract `size: seq<Doc> -> nat`.
- Calendar parsing (`fromisoformat`, `strptime`) is an abstract partial function onto
  `Dates.Date`. Formatting with `isoformat` and `strftime` is concrete, and proved to
  round-trip.

Imperative source keeps its form: loops become methods with invariants, and each method
is proved equal to a specification function. The properties the source promises are
proved as lemmas about those functions.

Two scripts read a configuration with different defaults:

- scraper.py's `load_config` defaults to `{max_pages: 2, per_page: 50}`.
- src/scrapers/utils_files.py's `load_config` defaults to
  `{start_page: 1, max_pages: 100, per_page: 100}`.

`sort_key` in tools/build_sharded_postliste.py is the same code as the one in
`save_postliste_sharded`. Both are `UtilsFiles.SortKey`.

## Model

| member | source | states |
|---|---|---|
| UtilsFiles.LoadConfig | src/scrapers/utils_files.py:30-37 | A missing config file is created with `{start_page: 1, max_pages: 100, per_page: 100}` and those values are returned. An existing file is returned as parsed and is not touched; one that does not parse raises ValueError. |
| UtilsFiles.SortedNewestFirst | src/scrapers/utils_files.py:113-127 | Sorting by `sort_key` in reverse is newest first and a permutation of the input. The records whose key is `date.min` (no usable `dato_iso` or `dato`) form the tail, in their input order. |
| Sorting.SortDescSorted | src/scrapers/utils_files.py:127 | The stable descending sort gives a sequence ordered by rank that is a permutation of its input. |
| Sorting.SortDescStable | src/scrapers/utils_files.py:127 | For every rank, the elements of that rank appear in the sorted output in the same relative order as in the input. This is the stability of Python's `sorted`. |
| UtilsFiles.PackFlatten | src/scrapers/utils_files.py:136-152 | The shards, concatenated in creation order, are exactly the sorted input: no record is dropped or duplicated. |
| UtilsFiles.PackBounded | src/scrapers/utils_files.py:136-152 | Every shard serialises within SHARD_MAX_BYTES or holds a single record. Only shard 1 can be empty, and it is empty exactly when the first record alone exceeds the cap. There are no shards exactly when there are no records. |
| UtilsFiles.ShardNameInjective | src/scrapers/utils_files.py:133-134 | Distinct shard numbers give distinct file names `postliste_N.json`. |
| UtilsFiles.ShardPathDistinct | src/scrapers/utils_files.py:133-134 | Shard paths are distinct for distinct numbers, and none of them is the index file. |
| UtilsFiles.WriteShardIndex | src/scrapers/utils_files.py:66-70 | The index file is written with the base names of the given paths, in order; no other file changes. |
| UtilsFiles.WriteShards | src/scrapers/utils_files.py:129-152 | The packing loop writes shard k as the k-th packed group, numbered consecutively from 1, and returns their paths in creation order; no other file changes. |
| UtilsFiles.SavedFilesContent | src/scrapers/utils_files.py:143-154 | After a save, the index reads back as the names of shards 1 to n, each shard reads back as its group, and every other file is unchanged. |
| UtilsFiles.SavePostlisteSharded | src/scrapers/utils_files.py:106-156 | `save_postliste_sharded` leaves the store as the packed shards of the sorted records plus their index. |
| UtilsFiles.DocId | src/scrapers/utils_files.py:163 | `d["dokumentID"]` raises KeyError when the key is missing and TypeError when the id is a list or object (unhashable); otherwise it is the id. |
| UtilsFiles.MergeDocs | src/scrapers/utils_files.py:161-163 | The merge succeeds exactly when every new record has a hashable id, and then it gives a well-formed ordered dict. |
| UtilsFiles.MergeClosedForm | src/scrapers/utils_files.py:161-163 | A successful merge keeps the old keys in their order and appends the new ids in order of first appearance. Its values are the old map overridden by the last record for each new id. |
| UtilsFiles.MergeFirstError | src/scrapers/utils_files.py:162-163 | A merge raises the error of the first record without a usable id. |
| UtilsFiles.MergeLastWins | src/scrapers/utils_files.py:161-163 | Every id in the batch maps to the last record of the batch that carries it. |
| UtilsFiles.MergeUntouched | src/scrapers/utils_files.py:161-163 | Ids that appear only in the existing dict keep their record, and the existing keys stay in the result. |
| UtilsFiles.MergeKeys | src/scrapers/utils_files.py:161-163 | After the merge, the keys are exactly the old keys together with the batch's ids. |
| UtilsFiles.MergeIdempotent | src/scrapers/utils_files.py:161-163 | Merging the same batch a second time gives the same dict as merging it once. |
| UtilsFiles.MergeInto | src/scrapers/utils_files.py:161-163 | The `for d in new_docs` loop computes the merge. |
| UtilsFiles.MergeAndSaveSharded | src/scrapers/utils_files.py:159-165 | A raising merge writes nothing. Otherwise the store becomes the sharded save of the merged values. |
| UtilsFiles.IndexNames | src/scrapers/utils_files.py:57-61 | The names are what iterating the parsed index gives. A list of strings gives its items in order, and a list with any other item falls back to the glob. A string gives its characters. An object gives its keys, so `{}` gives no shard at all. Any other value falls back to the glob. |
| UtilsFiles.IndexNamesRoundTrip | src/scrapers/utils_files.py:58-59 | An index written from names reads back as those names. |
| UtilsFiles.ListShardPaths | src/scrapers/utils_files.py:54-63 | With a readable index, the shard paths are the index's names under the data directory, in index order. Otherwise they are the files matching `postliste_*.json`, in ascending code-point order. |
| UtilsFiles.LoadItems | src/scrapers/utils_files.py:92-98 | The item loop keeps a well-formed dict. It aborts (an unhashable id raises into the shard's `except`) exactly when some dict item has a truthy unhashable id. |
| UtilsFiles.LoadShardItems | src/scrapers/utils_files.py:92-98 | The imperative item loop computes `LoadItems`. |
| UtilsFiles.LoadAllPostliste | src/scrapers/utils_files.py:73-103 | The shards are listed as `_list_shard_paths` does and then loaded in that order. The result is the id map and the flat list that `LoadShards` defines. |
| UtilsFiles.LoadItemsKeys | src/scrapers/utils_files.py:92-98 | The map's keys are the keys it had plus the truthy ids of the dict items. Non-dict and id-less items are kept out. |
| UtilsFiles.LoadItemsLastWins | src/scrapers/utils_files.py:92-98 | On a duplicate id, the later item wins. |
| UtilsFiles.LoadShardsListed | src/scrapers/utils_files.py:87-101 | When no shard aborts, the flat list is every list-shaped shard's items concatenated in path order, including non-dict and id-less items. The map is the item loop run over that list. |
| UtilsFiles.LoadSkipsNonList | src/scrapers/utils_files.py:88-91 | A shard that does not parse, or is not a list, contributes nothing to the map or to the flat list. |
| UtilsFiles.SaveLoadRoundTrip | src/scrapers/utils_files.py:54-156 | Loading what a save wrote finds the index and reads the shards in index order. The flat list is then exactly the sorted records, and the map is their deduplication. |
| BuildSharded.Dedupe | tools/build_sharded_postliste.py:62-69 | The dedupe loop skips non-dicts and falsy ids and keeps the last record per id. It reports an unhashable id as a failure. |
| BuildSharded.ReadArchives | tools/build_sharded_postliste.py:40-48 | The archive files are read in ascending code-point order, each once, and each contributes its list when it parses as one. |
| BuildSharded.BuildMain | tools/build_sharded_postliste.py:37-102 | The archives are read in sorted glob order and the legacy file after them; unreadable or non-list files contribute nothing. The deduplicated records are sorted, packed into shards under `data/` and indexed. An unhashable id raises TypeError before anything is written. |
| BuildSharded.ListedSkipsNonList | tools/build_sharded_postliste.py:43-48 | An unreadable or non-list input file contributes nothing to the collected records. |
| BuildSharded.DedupedUnique | tools/build_sharded_postliste.py:62-71 | Every deduplicated record has a truthy id, and the ids are pairwise distinct. |
| BuildSharded.BuildShardsFlatten | tools/build_sharded_postliste.py:71-99 | The shards, concatenated, equal the deduplicated sorted list, which is a permutation of the deduplicated records. |
| ScraperChanges.DetectChanges | src/scrapers/scraper_changes.py:3-31 | The imperative key loop computes `detect_changes`. |
| ScraperChanges.DetectNew | src/scrapers/scraper_changes.py:8-18 | With no prior record, or a falsy one, the result is `(True, d)`. `d` has exactly 8 keys: the 7 tracked fields with `gammel` None and `ny` the new value, then `filer_count` from 0 to the attachment count. A `filer` without a length raises TypeError. |
| ScraperChanges.TrackedDiffExact | src/scrapers/scraper_changes.py:20-23 | The diff holds exactly the tracked keys whose `.get` values differ, each as old value to new value. A missing key and an explicit None compare equal. |
| ScraperChanges.DetectKnown | src/scrapers/scraper_changes.py:20-31 | With a prior record, the result is `(False, d)`. `d` holds exactly the differing tracked keys, plus `filer_count` when the attachment counts differ. A `filer` without a length raises TypeError. |
| ScraperChanges.DetectUnchanged | src/scrapers/scraper_changes.py:20-31 | A record equal in every tracked field and in attachment count gives `(False, {})`. |
| ScraperChanges.DetectReadsTrackedOnly | src/scrapers/scraper_changes.py:21 | Untracked fields, such as `journal_link`, never affect the result. |
| Normalize.ParseDate | tools/normalize_postliste.py:8-13 | `parse_date` never raises. A non-string gives None, and a string gives the `DD.MM.YYYY` parse or None. |
| Normalize.NormalizeEntry | tools/normalize_postliste.py:15-49 | The in-place field updates compute the four normalisation steps and the changed flag. |
| Normalize.NormalizedShape | tools/normalize_postliste.py:19-47 | Afterwards `parsed_date` is absent and `dato_iso` exists. It is either a valid `YYYY-MM-DD` value or None, and the flag is set whenever it is not valid. |
| Normalize.NormalizedUnchanged | tools/normalize_postliste.py:15-49 | A false flag means the record was not changed. |
| Normalize.NormalizedKeepsOthers | tools/normalize_postliste.py:15-49 | Fields other than `parsed_date`, `dato` and `dato_iso` are kept as they were. |
| Normalize.NormalizedFills | tools/normalize_postliste.py:24-40 | An empty `dato` is filled from a valid `dato_iso` as `DD.MM.YYYY`, and an empty `dato_iso` from a parseable `dato` as `YYYY-MM-DD`. A truthy `dato` is kept. |
| Normalize.NormalizedIdempotent | tools/normalize_postliste.py:15-49 | A second pass over a record that ended with a truthy `dato_iso` returns False and changes nothing. |
| Normalize.NormalizeAllCounts | tools/normalize_postliste.py:66-79 | The loop fails exactly when some entry is not a dict. Otherwise `removed + len(normalized) == total`, every kept record has a truthy, valid `dato_iso`, and at most the kept records count as changed. |
| Normalize.NormalizeMain | tools/normalize_postliste.py:52-91 | The backup is taken first, whenever the file exists. A missing or unparseable file then raises, and so does a value without a length (null, a boolean or a number raises TypeError). Otherwise the entries that iterating the value gives are normalised, and the kept records are written back. |
| Normalize.NormalizeIterated | tools/normalize_postliste.py:62-69 | An empty top-level string or object normalises to no records, so `[]` is written back. A non-empty string raises AttributeError on its first character, and a non-empty object raises on a key. |
| FindDuplicates.Group | tools/find_duplicates.py:12-17 | Grouping fails exactly when an entry is not a dict or has a truthy unhashable id, and otherwise gives a well-formed ordered dict. |
| FindDuplicates.IndicesOfExact | tools/find_duplicates.py:14-17 | An id's index list is strictly ascending and holds exactly the positions of entries with that truthy id. |
| FindDuplicates.GroupIsIndices | tools/find_duplicates.py:12-17 | Each truthy id maps to its index list; entries with an empty or missing id are ignored. |
| FindDuplicates.DuplicatesExact | tools/find_duplicates.py:19-23 | `duplicates` holds exactly the ids occurring more than once. It is empty exactly when all truthy ids are pairwise distinct. |
| FindDuplicates.FindDuplicatesMain | tools/find_duplicates.py:7-23 | A missing file raises OSError, unparseable text ValueError and a value that cannot be iterated TypeError. Otherwise the grouping loop over what iterating the value gives, followed by the comprehension, gives the duplicates, or the error of the first unreadable entry. |
| FindDuplicates.FindDuplicatesIterated | tools/find_duplicates.py:10-15 | A top-level string or object is iterated as strings: an empty one reports no duplicates, and a non-empty one raises AttributeError on `.get`. |
| FindDuplicates.GroupRaisedAt | tools/find_duplicates.py:14-15 | The first entry that cannot be read decides the error of the whole loop. |
| ScraperDates.PyIntRoundTrip | src/scrapers/scraper_dates.py:34-36 | `int()` of the decimal text of an integer gives that integer back. |
| ScraperDates.PyIntOfDigits | src/scrapers/scraper_dates.py:34-36 | A digit string reads as its value, with a leading `-` as the negation and with a leading `+` or surrounding whitespace as the same value. |
| ScraperDates.PyIntUnderscores | src/scrapers/scraper_dates.py:34-36 | `int("1_000")` is 1000: a single underscore between digits is skipped. |
| ScraperDates.PyIntUnderscoresRejected | src/scrapers/scraper_dates.py:34-36 | `int("1__000")` and `int("_1")` raise ValueError: a doubled underscore, or one before the first digit, is not a number. |
| ScraperDates.ReadSettings | src/scrapers/scraper_dates.py:34-36 | An empty config gives start page 1, 100 pages and 100 per page. A non-object raises AttributeError, and a numeric `max_pages` is taken as it is. |
| ScraperDates.InRangeMembers | src/scrapers/scraper_dates.py:53-56 | The kept records are exactly the page's records for which `within_range` holds. |
| ScraperDates.InRangeIdempotent | src/scrapers/scraper_dates.py:53-56 | Filtering the kept records again keeps them all. |
| ScraperDates.UnparsedBlocksEarlyStop | src/scrapers/scraper_dates.py:59-62 | A record with a truthy `dato` that does not parse blocks the early stop. |
| ScraperDates.VisitedInRange | src/scrapers/scraper_dates.py:45 | The pages are visited in ascending order from `start_page`, one apart, never past `max_pages` (the last page number, not a count). |
| ScraperDates.VisitedContinues | src/scrapers/scraper_dates.py:45-62 | Every visited page before the last one yielded records and did not trigger the early stop. |
| ScraperDates.VisitedStops | src/scrapers/scraper_dates.py:46-62 | A scan that ends before `max_pages` ends on an empty page or on an early stop. |
| ScraperDates.KeepInRange | src/scrapers/scraper_dates.py:53-56 | The filtering loop appends the in-range records in page order. |
| ScraperDates.ScanPage | src/scrapers/scraper_dates.py:46-62 | One iteration keeps the page's in-range records. It stops on an empty page, or when `start_date` is set and the page has dates all parsed and older than it. |
| ScraperDates.ScanPages | src/scrapers/scraper_dates.py:45-62 | The loop visits the pages `Visited` defines and collects their kept records in page-then-source order. |
| ScraperDates.RunScrape | src/scrapers/scraper_dates.py:25-78 | An unknown mode raises ValueError before anything else. Both modes write the filtered file. Only publish mode hands the records to the store merge. |
| ScraperDates.CliRange | src/scrapers/scraper_dates.py:99-103 | The given dates go through `parse_cli_date`. With only a start date, the end date defaults to it. |
| ScraperCore.PageUrlInjective | src/scrapers/scraper_core.py:5-9 | Distinct page numbers or page sizes give distinct listing URLs. |
| ScraperCore.CounterpartRoundTrip | src/scrapers/scraper_core.py:69-73 | `avsender_mottaker` names the sender whenever there is one. Otherwise it names the recipient, or is "" when there is neither. The named party and the name can be read back. |
| ScraperCore.Absolute | src/scrapers/scraper_core.py:83-84 | A link starting with `http` is unchanged, any other gets the host prefix; the result always starts with `http`. |
| ScraperCore.AbsoluteIdempotent | src/scrapers/scraper_core.py:96 | Making an absolute link absolute again changes nothing. |
| ScraperCore.DetailLink | src/scrapers/scraper_core.py:76-84 | A missing href stays None and an empty link stays empty; any other link is absolute. |
| ScraperCore.FileEntriesUrls | src/scrapers/scraper_core.py:92-100 | Every attachment URL is absolute and points into the file API. |
| ScraperCore.FileEntriesEmpty | src/scrapers/scraper_core.py:95 | There are no attachments exactly when no href contains the file API path. |
| ScraperCore.DeriveDocId | src/scrapers/scraper_core.py:57-59 | An article without a `dokumentID` is skipped; the others give a record under their stripped id. |
| ScraperCore.DeriveDocStatus | src/scrapers/scraper_core.py:108 | The status is "Publisert" exactly when there are attachments, and "Må bes om innsyn" exactly when there are none. |
| ScraperCore.DeriveDocDateIso | src/scrapers/scraper_core.py:113 | `dato_iso` is None exactly when the date did not parse, and is the ISO date otherwise. |
| ScraperCore.DeriveDocLink | src/scrapers/scraper_core.py:76-88 | `journal_link` is None without an href and "" without a link; otherwise it is absolute. Without a link no attachments are read. |
| ScraperCore.DeriveAllIds | src/scrapers/scraper_core.py:56-59 | The records' ids are the ids of the articles that have one, in source order. |
| ScraperCore.CollectFiles | src/scrapers/scraper_core.py:92-100 | The attachment loop collects the file entries in page order. |
| ScraperCore.ParseArticles | src/scrapers/scraper_core.py:53-122 | The article loop derives the records in order. |
| ScraperCore.FirstSuccess | src/scrapers/scraper_core.py:24-51 | Gives the first attempt between k and `retries` that loads a page with at least one article. A page with zero articles counts as failed. |
| ScraperCore.HentSide | src/scrapers/scraper_core.py:12-129 | At most `retries` attempts are made, with a sleep after each failed one. The records of the first successful attempt are returned, or None after all attempts fail. |
| ScraperCoreAsync.AsyncFetchAgrees | src/scrapers/scraper_core_async.py:19-118 | As written, the result equals the retry loop's whenever attempt 1 succeeds or no attempt is made. After a failed first attempt it raises NameError. |
| ScraperCoreAsync.HentSideAsync | src/scrapers/scraper_core_async.py:12-118 | `hent_side_async` as written makes at most one attempt. It gives that attempt's records, or NameError from the `except` handler, or None when `retries <= 0`. |
| ScraperCoreAsync.AsyncRetryDiffers | src/scrapers/scraper_core_async.py:113-115 | With attempts left after a failed first one, the function as written raises NameError. The retry loop would return the second attempt's records. |
| ScraperCoreAsync.ScrapePageWithFilter | src/scrapers/scraper_core_async.py:121-159 | As written, the NameError escapes exactly when attempt 1 fails. Otherwise the result is `{"failed": page_num}` for no records, or the in-range records in source order. |
| ScraperCoreAsync.ScrapePageWithRetries | src/scrapers/scraper_core_async.py:141-159 | Over the working retry loop, the page fails exactly when no attempt yields records. Otherwise it keeps exactly the in-range records, in order. |
| ScraperCoreAsync.FilteredWithinRange | src/scrapers/scraper_core_async.py:153-159 | A page that does not fail keeps exactly its records whose parsed `dato` is within the range. |
| UtilsPlaywright.SafeGoto | src/scrapers/utils_playwright.py:3-14 | Returns True on the first attempt that does not raise and makes no further attempts. Returns False after `retries` failures. Sleeps `2*k` seconds after failed attempt `k < retries`. Returns None with no attempt when `retries <= 0`. |
| UtilsPlaywright.SafeTextStripped | src/scrapers/utils_playwright.py:16-21 | `safe_text` is the inner text with its leading and trailing run of whitespace removed: the removed prefix and suffix are whitespace and the result neither starts nor ends with it. It is "" without a node, when the query raises or when the text is all whitespace. |
| EndringerData.SortChanges | web/java/endringer_data.js:11 | The sort raises on a non-array, or on a null event when there are two or more. Otherwise the result is always a permutation of the input. When every event has a time value that is not NaN, the events are newest first and events with equal times keep their order. When some time value is NaN (no `tidspunkt`, or a text the engine cannot parse), the order is the engine's own. |
| EndringerData.LoadChanges | web/java/endringer_data.js:6-12 | An unparseable response raises SyntaxError. Otherwise the events are sorted as `SortChanges` states. |
| EndringerData.FetchAll | web/java/endringer_data.js:24-29 | The shards are fetched in index order, one per name, and the whole fails when any fetch fails. |
| EndringerData.FlatMembers | web/java/endringer_data.js:32 | The flat list holds exactly the entries of the shards, in index order. |
| EndringerData.IdMapKeys | web/java/endringer_data.js:35-38 | The map's own keys are exactly the entries' `dokumentID` strings other than "__proto__". Its prototype is replaced exactly when some entry's key is "__proto__", because assigning that key calls the setter inherited from `Object.prototype`. |
| EndringerData.ProtoEntryNoKey | web/java/endringer_data.js:35-38 | An entry whose `dokumentID` is "__proto__" creates no key: it becomes the map's prototype and the own keys are unchanged. |
| EndringerData.IdMapLastWins | web/java/endringer_data.js:35-38 | A later entry with the same `dokumentID` overwrites an earlier one; under "__proto__" the last such entry is the prototype. |
| EndringerData.IdlessCollide | web/java/endringer_data.js:37 | Entries without a `dokumentID` are not filtered out: they all collide under the key "undefined", and the last one wins. |
| EndringerData.LoadPostliste | web/java/endringer_data.js:18-41 | Loads the index, fetches its shards, flattens them and maps them by id, with the prototype a "__proto__" id sets. A null entry raises TypeError. |
| Export.CleanTitleSpec | web/java/export.js:12 | The cleaned title has no leading or trailing space and no run of spaces. Its non-space characters are the title's, in order. |
| Export.CleanTitleIdempotent | web/java/export.js:12 | Cleaning a cleaned title changes nothing. |
| Export.QuoteRoundTrip | web/java/export.js:21 | Unquoting a quoted field recovers the original string: the field is enclosed in quotes and inner quotes are doubled (RFC 4180, section 2, rules 6 and 7). |
| Export.EscapeWellFormed | web/java/export.js:21 | In an escaped field every quote is doubled, and the field grows by one character per quote. |
| Export.CsvRoundTrip | web/java/export.js:20-22 | Parsing the text made by joining quoted fields with `,` and rows with LF gives back the rows. |
| Export.RecordRow | web/java/export.js:8-17 | Each record gives 7 fields. The row raises TypeError on a null record, or on a truthy title that is not a string. |
| Export.RecordRowFields | web/java/export.js:8-17 | The fields are the record's values or "". The title is cleaned. The link is `journal_link`, else `detalj_link`, else "". |
| Export.RecordRows | web/java/export.js:7-18 | One row per record, in the same order, or TypeError when any record raises. |
| Export.ExportCsv | web/java/export.js:4-22 | The CSV text is the fixed 7-column header followed by one row per record, and it parses back to exactly those rows. |
| Stats.MonthLabelInjective | web/java/stats.js:27 | The `YYYY-MM` month keys (zero-padded month) tell months apart. |
| Stats.TallyCounts | web/java/stats.js:24-28 | After the loop, each counter holds the number of records with that key, and it exists exactly when there is one. |
| Stats.CountBy | web/java/stats.js:24-28 | The `forEach` counting loop computes the tally. |
| Stats.ChartOf | web/java/stats.js:31-32 | The labels are the counter names sorted ascending, and the data is aligned with them index for index. |
| Stats.ChartTotal | web/java/stats.js:31-32 | A chart's data sums to the number of records counted. |
| Stats.InitStats | web/java/stats.js:10-70 | Non-array input returns without building anything, and a null record raises TypeError. Otherwise the labels are sorted and the data aligned. Month and year totals are the number of dated records. Type totals (missing type under "Ukjent") and status totals (anything but "Publisert" as the second label) are both `data.length`. |
| Pagination.MaxPage | web/java/pagination.js:4 | `maxPage` is `ceil(total / perPage)`, and 1 when there are no items. |
| Pagination.ButtonsMatchMoves | web/java/pagination.js:13-23 | The previous button is disabled exactly when it cannot move, at page 1, and the next button exactly when it cannot move, at or past `maxPage`. |
| Pagination.StepInRange | web/java/pagination.js:28-41 | One move keeps the page within `[1, maxPage]` and changes it by at most one. |
| Pagination.RunInRange | web/java/pagination.js:28-41 | From a page in `[1, maxPage]`, any sequence of moves stays in range. |
| Pagination.NextReachesLast | web/java/pagination.js:35-41 | n presses of next advance n pages, stopping at `maxPage`. |
| Pagination.Pager.constructor | web/java/pagination.js:28 | The pager starts on page 1. |
| Pagination.Pager.PrevPage | web/java/pagination.js:28-33 | `prevPage` decrements and re-renders only when the page is above 1. |
| Pagination.Pager.NextPage | web/java/pagination.js:35-41 | `nextPage` increments and re-renders only when the page is below `maxPage` of the filtered data. |
| Scraper.LoadConfig | scraper.py:12-16 | An absent config file gives `{max_pages: 2, per_page: 50}`. An unparseable one raises, and a present one is returned as parsed. |
| Scraper.MaxPages | scraper.py:90 | `max_pages` defaults to 2 and is used as an integer. |
| Scraper.DefaultSettings | scraper.py:12-16 | Without a config file the scraper reads 2 pages and shows 50 records per page. |
| Scraper.Counterpart | scraper.py:43-47 | The counterpart is the sender when the type contains "Inngående", else the recipient when it contains "Utgående", else "". |
| Scraper.FileEntriesUrls | scraper.py:62-66 | Every attachment URL is the host prefix followed by an href that contains the file API path. The prefix is added even to absolute hrefs. |
| Scraper.FileEntries | scraper.py:60-66 | At most one entry per link, and each entry holds exactly the keys `tekst` and `url`. |
| Scraper.FileEntriesAll | scraper.py:62 | Every link yields an attachment exactly when every href contains the file API path. |
| Scraper.RecordOfFields | scraper.py:72-82 | The record carries its page number and counterpart. The status is "Publisert" exactly when there are attachments. |
| Scraper.RecordsOfSide | scraper.py:78 | Every record of a page carries that page's number. |
| Scraper.CollectFiles | scraper.py:58-66 | The link loop collects the attachment entries in page order. |
| Scraper.HentSide | scraper.py:22-85 | An unreachable listing gives []. Otherwise there is one record per article, in order. |
| Scraper.CollectedCut | scraper.py:96-101 | The loop stops at the first page with no records; nothing after it is collected. |
| Scraper.CollectedSides | scraper.py:96-101 | Every collected record comes from a page between 1 and `max_pages`. |
| Scraper.CollectPages | scraper.py:96-101 | The `for page_num` loop with its `break` collects pages 1 to `max_pages` in order, up to the first empty page. |
| Scraper.RunMain | scraper.py:87-107 | A configuration that raises writes nothing. Otherwise the collected records are written to postliste.json. |
| Scraper.TypeStyle | scraper.py:140-160 | The class and icon are those of the first listed word the type contains. |
| Scraper.TypeStyleDefault | scraper.py:140-160 | The defaults "" and "📄" come exactly when the type contains none of the words. |
| Scraper.PageItemsRange | scraper.py:162-165 | `renderPage(page)` shows exactly the items at indices `[(page-1)*perPage, page*perPage)`, clamped to the data. |
| Scraper.FirstPagesPrefix | scraper.py:162-165 | Pages 1 to n together show the first `n*perPage` items, each once, in order. |
| Scraper.AllPagesShowData | scraper.py:162-165 | Pages 1 to `maxPage` together show all the data. |
| Dates.IsoRoundTrip | src/scrapers/scraper_core.py:113 | The ISO text of a date reads back as its year, month and day. |
| Dates.DmyRoundTrip | tools/normalize_postliste.py:35 | The `DD.MM.YYYY` text of a date reads back as its day, month and year. |
| Dates.MinDateLeast | src/scrapers/utils_files.py:125 | `date.min` is the earliest date. |
| Strings.SortedSet | src/scrapers/utils_files.py:62 | The strings of a set, each once, in strictly ascending code-point order. |
| Strings.AscendingUnique | src/scrapers/utils_files.py:62 | Two strictly ascending sequences with the same strings are equal, so the sorted order of a set is unique. |
| Strings.SortStrings | src/scrapers/utils_files.py:62 | `sorted` on a set of paths gives them all, once each, in strictly ascending code-point order. |
| Storage.FileSystem.AtomicWrite | src/scrapers/utils_files.py:40-47 | Writing a file replaces that path's content and changes no other file. |
| Storage.SortedGlob | src/scrapers/utils_files.py:62 | The matching files of a directory, in ascending order. |
| Json.PyIter | tools/normalize_postliste.py:68 | `for x in v` visits a list's items, a string's one-character strings or a dict's keys, one per unit of `len(v)`. Any other value cannot be iterated. |
| UtilsFiles.ShardPathNumbered | src/scrapers/utils_files.py:55 | The path of shard N matches the shard glob, and its N reads back. |
| UtilsFiles.ByShardNumberOrdered | src/scrapers/utils_files.py:55 | Ordering by N keeps every path. Numbered paths come last, in ascending order of N. |
| UtilsFiles.ListShardPathsByNumber | src/scrapers/utils_files.py:54-63 | As `_list_shard_paths`, except that the glob fallback is ordered by N, as the docstring promises. |
| UtilsFiles.GlobOrderNotByNumber | src/scrapers/utils_files.py:62 | With shards 2 and 10 and no usable index, any strictly ascending listing of the glob, which is what `sorted` gives, puts shard 10 before shard 2. |

## Left out

- Browser automation is not modelled: Playwright navigation, selectors, waits and the
  browser and context setup. A listing attempt is an abstract outcome, and an article is
  the text its DOM queries return.
- The semaphore and the async scheduling of src/scrapers/scraper_core_async.py are not
  modelled: concurrency is out of scope.
- Filesystem atomicity is not modelled: the temp-and-rename of `atomic_write`,
  directory creation and `ensure_directories`. Storage is a map from path to content.
- JSON serialisation is not modelled. Its byte length is the abstract `size`, with no
  assumption that it is additive.
- Calendar parsing (`datetime.fromisoformat`, `strptime`) is not modelled. It is
  abstract and onto the ordered `Dates.Date`. JS `new Date(v)` is the abstract partial
  `stamp`, which gives None for NaN.
- UtilsFiles.ListShardPaths / UtilsFiles.LoadAllPostliste: an index holding an object
  yields its keys as shard names, but in code-point order. A parsed object here keeps
  no key order, so the file's own key order is not captured.
- Normalize.NormalizeMain: a non-empty top-level object fails on its first key, taken in
  code-point order for the same reason. Whether that key contains "parsed_date" decides
  between TypeError and AttributeError.
- UtilsFiles.MergeDocs / UtilsFiles.LoadItems / BuildSharded.Dedupe / FindDuplicates.Group:
  ids are compared as JSON values. Python's key identity is not modelled: `True` and `1`
  (and `1.0`) are one dict key there, but `JBool(true)` and `JNum(1)` are two keys here.
- ScraperDates.PyInt / ScraperDates.ReadSettings: only ASCII digits are read. Python's
  `int()` also accepts the other Unicode decimal digits, which the model rejects with
  ValueError.
- `utils_dates` (`parse_date_from_page`, `within_range`, `format_date`,
  `parse_cli_date`), `utils_playwright_async` and render.js (`parseDDMMYYYY`,
  `getFilteredData`) are not part of this model. They enter as parameters.
- `load_existing` and `merge_and_save` are imported by src/scrapers/scraper_dates.py
  but not defined in src/scrapers/utils_files.py. `ScraperDates.RunScrape` only reports
  that publish mode hands the records to them.
- `load_changes`, `save_changes` and `ensure_file` (except as used by `load_config`) of
  src/scrapers/utils_files.py are not modelled: they are not part of the modelled core.
- The `total` re-read and all log printing are not modelled: they only print.
- Wall-clock time is not modelled. `build_change_entry`'s timestamp is a parameter.
- HTML generation, Chart.js drawing, DOM updates, the Blob download, `exportPDF`,
  `copyShareLink` and web/java/filters.js are not modelled: they are rendering or UI
  wiring.
- Pagination.MaxPage: requires `perPage >= 1`. With 0 the source's `Math.ceil` gives
  Infinity or NaN, and `|| 1` only catches NaN.
- JSON numbers are integers (`Json.JNum`): fractional numbers and their `String`
  rendering are not modelled, and `undefined` and `null` are the same value (`JNull`).
  Where the difference shows (`String(undefined)` as a map key), the model spells it out.
- Stats.TallyCounts: `types[t] || 0` in web/java/stats.js:38-40 reads inherited
  `Object.prototype` members. A dokumenttype such as "toString" or "constructor" stores
  a string like `"function toString() { [native code] }1"`, and "__proto__" is never
  stored, so the counts no longer sum to `data.length`. The model counts every name as
  an own key and does not capture this.
- Stats.CountBy: the same inherited-member difference in the `forEach` counting loop.
  Only the type counter is affected, because month and year keys are digits.
- Stats.ChartOf: labels are sorted by code point. JavaScript's `sort()` compares UTF-16
  code units, which differs only when the first difference sets a character above
  U+FFFF against one in U+E000..U+FFFF. That order is not modelled.
- Stats.InitStats: both differences above reach its type totals and type label order.
- ScraperCore.HentSide / ScraperCoreAsync.HentSideAsync / ScraperCoreAsync.ScrapePageWithFilter:
  an attempt fails only before its articles are read. An exception while reading the
  articles is not modelled, for example a stale handle after the return navigation. A
  failure while reading one record's attachments does end that list early. In
  src/scrapers/scraper_core_async.py such an exception reaches the outer `except` of
  the async attempt loop (line 113), whose `asyncio.sleep` then raises NameError; that
  path is not captured either.

## Findings

| source | as written | input that shows it | evidently intended | confidence | as-written member | corrected member |
|---|---|---|---|---|---|---|
| src/scrapers/scraper_core_async.py:113-115 | The `except` handler calls `asyncio.sleep(1)`, but `asyncio` is never imported. The first failed attempt raises NameError out of `hent_side_async` and out of `scrape_page_with_filter`, so no retry is made. | `retries = 5`: attempt 1 shows no articles, attempt 2 shows one article with an id | Sleep one second and retry, as `hent_side` in src/scrapers/scraper_core.py does; the page gets the second attempt's records | not executed | ScraperCoreAsync.AsyncRetryDiffers | ScraperCoreAsync.ScrapePageWithRetries |
| src/scrapers/utils_files.py:55-62 | The docstring promises the shards sorted by N, but the glob fallback uses `sorted` on the paths, which is code-point order. | No usable index, with `postliste_2.json` and `postliste_10.json` on disk: shard 10 is listed first | The shards in ascending order of N | not executed | UtilsFiles.GlobOrderNotByNumber | UtilsFiles.ListShardPathsByNumber |
