# Austin library CD harvest and Redacted cross-reference, in Dafny

This project models two small pipelines in Dafny and proves what they
promise.

The first is the **library CD harvester**. It has two script variants:
`fetch_library_cds.py` and `run.py`. Each one walks the Austin Public
Library catalogue's search pages 1..N (`MAX_PAGES_TO_FETCH`, 2579 in
`fetch_library_cds.py` and 10 in `run.py`). For each page it:
- serves the page from a page cache, or fetches it and stores it
  (`get_json_data`);
- decodes the embedded JSON and normalises every entry of
  `entities.bibs` into a record (`parse_json_and_extract_metadata`);
- concatenates the records.

A CSV is written only when at least one record was produced
(`write_metadata_to_csv`).

The second is the **Redacted cross-referencer**, also in two variants:
`lookup.py` and `lookup_red.py`. It reads that CSV and keeps only the
first `ROW_PROCESS_LIMIT` rows. For each row it asks the tracker's API how
many results match the artist and title, caps the count at `limit` (5),
writes the count into the row, and writes the rows out. `lookup_red.py`
also asks for the number of open requests. It keeps a response cache
keyed by the URL and the parameters, with the parameters canonicalised by
sorting them on their keys.

Modules:

- `Wrappers`, `Dict`, `Strings`, `Json`, `Urls`: the Python semantics the
  scripts rely on.
  - A `dict` is a sequence of (key, value) pairs in insertion order.
  - `str.find`, `split(sep, 1)`, `replace`, `strip`, `str(int)` and the
    string order are modelled.
  - Decoded JSON is modelled with Python truthiness. `len`, `.get` and
    `[]` return `None` where Python raises.
  - `parse_qs(urlparse(url).query)` is simplified to a split on `?`, `&`
    and `=`.
- `Fetcher`: `get_json_data`, as a function on the cache map.
  - The class `PageCache` holds the cache map, a counter of transport
    calls and a ghost log of the URLs asked for.
  - Its method `GetJsonData` is proved against that function.
- `Harvest`: the page URLs and the reference harvest `HarvestPages`.
  - `HarvestPages` threads the cache through pages 1..n.
  - It is generic in the URL builder and the page normaliser, so both
    script variants share it.
- `FetchLibraryCds` and `Run`: the two harvester variants. Each has:
  - the normaliser as a loop proved against a reference function;
  - the CSV projection;
  - the harvest loop that mutates the query parameters.
- `CrossRef`: what the two lookup scripts share. That is the browse
  query, the result count and its cap, row truncation, annotated rows and
  the output writer.
- `Lookup` (`lookup.py`) and `LookupRed` (`lookup_red.py`, whose class
  `RedactedClient` owns the response cache and the request and sleep
  counters).

The network, the HTML parser, `json.loads`, `json.dumps`, `slugify`, the
environment variables and the input CSV are parameters of the model:
function-valued oracles, or plain values.

The comment at lookup_red.py:69 says the pause follows each API call. The
code pauses only after `raise_for_status()` succeeds (lookup_red.py:66-70),
so a failed request is not followed by a pause. The model follows the code.

## Model

| member | source | states |
|---|---|---|
| Strings.Find | fetch_library_cds.py:100 | `", " in name`: the index found is an occurrence with no earlier one, and there is none exactly when the pattern does not occur |
| Strings.SplitOnceJoins | fetch_library_cds.py:101 | `split(", ", 1)` succeeds iff the separator occurs; the two parts rejoin to the input, and the first part contains no separator |
| Strings.SplitOnceAfter | fetch_library_cds.py:101 | splitting `a + sep + b` when `a` has no `sep` and `sep` has no border gives exactly `(a, b)` |
| Strings.ReplaceAbsent | fetch_library_cds.py:107-109 | `str.replace` of a pattern that does not occur returns the string unchanged |
| Strings.ReplaceDropsSuffix | fetch_library_cds.py:107-109 | removing a border-free suffix from `x + suffix`, when `x` does not contain it, gives back `x` |
| Strings.NotAtStart | fetch_library_cds.py:107-109 | a border-free pattern cannot start `x + p + y` when the non-empty `x` does not contain it |
| Strings.ReplaceDropsOccurrence | fetch_library_cds.py:107-109 | in `x + p + y`, with `p` border-free and absent from `x`, `replace` keeps `x`, drops that occurrence, and goes on in `y` |
| Strings.ReplaceCharRemoves | fetch_library_cds.py:21 | replacing one character by another keeps the length and leaves no occurrence of the replaced character |
| Strings.ReplaceCharConcat | fetch_library_cds.py:21 | replacing a one-character pattern distributes over concatenation |
| Strings.StripLeft | fetch_library_cds.py:34 | leading whitespace is removed: what is dropped is all whitespace, and the result starts with a non-space |
| Strings.StripRight | fetch_library_cds.py:34 | trailing whitespace is removed: what is dropped is all whitespace, and the result ends with a non-space |
| Strings.StripIdempotent | fetch_library_cds.py:34 | `strip()` applied twice is `strip()` applied once |
| Strings.NatToString | fetch_library_cds.py:150 | the page number's text is non-empty and all digits |
| Strings.DecimalRoundTrip | fetch_library_cds.py:150 | reading back the decimal text of a page number gives the number |
| Strings.NatToStringInjective | fetch_library_cds.py:150 | different page numbers have different texts |
| Strings.BeforeIrreflexive | lookup_red.py:22 | the string order used by `sort_keys` is irreflexive |
| Strings.BeforeAsymmetric | lookup_red.py:22 | the string order is asymmetric |
| Strings.BeforeTransitive | lookup_red.py:22 | the string order is transitive |
| Strings.BeforeTotal | lookup_red.py:22 | any two different strings are ordered one way or the other |
| Strings.SplitAfterPart | fetch_library_cds.py:150 | splitting `a + sep + b` on `sep`, with `sep` not in `a`, gives `a` followed by the parts of `b` |
| Strings.SplitJoin | fetch_library_cds.py:150 | splitting the `&`-joined fields on `&` gives back the fields when none contains `&` |
| Dict.Get | fetch_library_cds.py:87 | `d.get(k)` is absent exactly when `k` is not a key, and otherwise is a value stored under `k` |
| Dict.Set | fetch_library_cds.py:149 | `d[k] = v`: `k` then maps to `v`, other keys are unchanged, a new key is appended at the end and an existing key keeps its position |
| Dict.SetLast | fetch_library_cds.py:149 | re-assigning the last-inserted key replaces its value in place |
| Dict.SetTwoNewKeys | lookup_red.py:178-179 | setting two new keys appends them, in order, after the existing keys |
| Dict.SetKeys | lookup.py:78 | `d[k] = v` keeps the key order when `k` is a key, and otherwise appends `k` at the end |
| Urls.FirstValueIsFirstMatch | fetch_library_cds.py:113-115 | a non-empty `upc` value is the value of the first field that records `upc` with a non-blank value |
| Urls.FirstValueEmpty | fetch_library_cds.py:113-115 | the `upc` value is `""` exactly when no field records a non-blank `upc` |
| Urls.NoQueryNoUpc | fetch_library_cds.py:113-115 | a URL without `?` has an empty query, so its UPC is `""` |
| Urls.UpcOfQuery | fetch_library_cds.py:113-115 | for `base?f1&...&fn`, the UPC is the first `upc` value among the fields |
| Urls.SingleUpcField | fetch_library_cds.py:113-115 | a query with the single field `upc=v` yields `v` |
| Urls.UpcOfSingleField | fetch_library_cds.py:113-115 | a URL `base?upc=v` yields `v` |
| Fetcher.CacheKey | fetch_library_cds.py:21 | the cache file name is flat (it holds no `/`), has one character per URL character, and ends in `.json` |
| Fetcher.GetJson | fetch_library_cds.py:14-49 | the network is used exactly when the URL's file is missing, and a returned text is the one stored under the URL's file name |
| Fetcher.HitServesStoredText | fetch_library_cds.py:21-25 | on a cache hit, the stored text is returned, the cache is unchanged and the network is not used |
| Fetcher.MissFetchesOnce | fetch_library_cds.py:26-47 | on a miss, the transport is used once; a found node's stripped text is stored under `url.replace("/", "_") + ".json"` and returned; any failure returns None and stores nothing |
| Fetcher.CacheOnlyGrows | fetch_library_cds.py:21-41 | the cache afterwards keeps every earlier entry unchanged, and a returned text is what is stored under the URL's key |
| Fetcher.OtherKeysUntouched | fetch_library_cds.py:36-37 | no cache file other than the URL's own is created or changed |
| Fetcher.DependsOnlyOnKey | fetch_library_cds.py:21-22 | the result depends on the cache only through the URL's own entry |
| Fetcher.PageCache.constructor | fetch_library_cds.py:10 | a cache over the stored files, with no transport calls yet |
| Fetcher.PageCache.GetJsonData | fetch_library_cds.py:14-49 | returns what `GetJson` returns, stores its new cache, counts one transport call exactly on a miss, and logs the URL |
| Harvest.HarvestPages | fetch_library_cds.py:148-159 | pages 1..n are harvested in order through the cache, with at most one network call per page |
| Harvest.PageUrlsGrow | fetch_library_cds.py:148-150 | the URLs of pages 1..n+1 are those of 1..n followed by the URL of page n+1 |
| Harvest.UpcOf | fetch_library_cds.py:113-115 | `urlparse` of a string medium gives its query's UPC; a falsy non-string gives `""`; a truthy non-string raises |
| Harvest.UpcOfNamesField | fetch_library_cds.py:113-115 | a non-empty UPC is the value of a `upc=` field of the medium URL's query |
| Harvest.QueryStringAppend | fetch_library_cds.py:150 | joining `k=v` pairs with `&`: appending a pair appends `&k=v` |
| Harvest.UrlWithLastParam | fetch_library_cds.py:150 | the page URL with a last parameter added is the earlier URL with `&k=v` appended |
| Harvest.PageUrlSplits | fetch_library_cds.py:149-150 | the URL of page p is a fixed prefix followed by the digits of p |
| Harvest.PageKeySplits | fetch_library_cds.py:21 | the cache key of page p's URL is a fixed prefix, the digits of p, then `.json` |
| Harvest.PageKeyInjective | fetch_library_cds.py:21 | two pages share a cache key only if they are the same page |
| Harvest.SameAffixes | fetch_library_cds.py:21 | equal strings with a common prefix and suffix have equal middles |
| Harvest.PageKeysDistinct | fetch_library_cds.py:148-152 | all pages of the harvest have pairwise distinct cache keys |
| Harvest.LaterPagesUntouched | fetch_library_cds.py:148-157 | visiting pages 1..n leaves the cache entry of every later page as it was |
| Harvest.HarvestIsPageByPage | fetch_library_cds.py:148-159 | the harvested records are the concatenation, in page order, of each page's records as served from the cache before the harvest; failed pages add nothing |
| Harvest.HarvestCallsAreMisses | fetch_library_cds.py:148-152 | the number of network calls is the number of pages 1..n not in the cache beforehand |
| Harvest.HarvestKeepsEntries | fetch_library_cds.py:148-152 | the harvest never removes or rewrites a cache entry |
| Harvest.RequestsPerPage | fetch_library_cds.py:148-152 | at most one network call per page, and exactly one per page when the cache held none of them |
| Harvest.NextPageParams | fetch_library_cds.py:149 | `query_params["page"] = page` on the previous page's parameters gives the base parameters followed by `page` |
| Harvest.PageNotInBaseParams | fetch_library_cds.py:137-144 | the base query has no `page` key, so the first assignment appends it |
| Harvest.FirstPageParams | fetch_library_cds.py:148-149 | on the first page, `query_params["page"] = 1` appends `page` after the base parameters |
| Harvest.LaterPageParams | fetch_library_cds.py:148-149 | on a later page, the assignment overwrites `page` in place, after the base parameters |
| FetchLibraryCds.ArtistOf | fetch_library_cds.py:93-109 | falsy `authors` gives "Unknown Artist"; for a non-empty list, a string first author is reformatted and any other first author raises |
| FetchLibraryCds.SwapAtFirstSeparator | fetch_library_cds.py:99-102 | `"last, first"` with no `", "` in `last` becomes `"first last"` |
| FetchLibraryCds.SwapKeepsPlainName | fetch_library_cds.py:103-104 | a name without `", "` is not swapped |
| FetchLibraryCds.StripKeepsPlainName | fetch_library_cds.py:106-109 | a name with neither suffix is unchanged by the suffix removal |
| FetchLibraryCds.ReformatKeepsPlainName | fetch_library_cds.py:99-109 | a name with no `", "` and neither suffix passes through unchanged |
| FetchLibraryCds.ReformatSwaps | fetch_library_cds.py:99-109 | `"last, first"` becomes `"first last"` when the swapped name holds neither suffix |
| FetchLibraryCds.SeparatorBorderless | fetch_library_cds.py:101 | `", "` cannot overlap itself, so the first occurrence splits cleanly |
| FetchLibraryCds.SuffixesBorderless | fetch_library_cds.py:107-109 | neither suffix can overlap itself |
| FetchLibraryCds.StripGroupSuffix | fetch_library_cds.py:106-109 | `base + " (Musical group)"` becomes `base` |
| FetchLibraryCds.MusicianSuffixHidesNoGroup | fetch_library_cds.py:107-109 | appending `" (Musician)"` creates no `" (Musical group)"` occurrence |
| FetchLibraryCds.StripMusicianSuffix | fetch_library_cds.py:106-109 | `base + " (Musician)"` becomes `base` |
| FetchLibraryCds.GroupSuffixRemovedAnywhere | fetch_library_cds.py:107 | the first `" (Musical group)"` is removed wherever it occurs, and the rest of the name is processed the same way |
| FetchLibraryCds.MusicianSuffixRemovedAnywhere | fetch_library_cds.py:109 | the first `" (Musician)"` is removed wherever it occurs, and the rest of the name is processed the same way |
| FetchLibraryCds.ExtractRecord | fetch_library_cds.py:90-127 | a record built for a bibs item carries the item's key as its ID |
| FetchLibraryCds.ExtractRecordFields | fetch_library_cds.py:90-127 | for an item with `briefInfo.jacket.medium`, a record exists iff the artist and the UPC can be computed; it holds the bibs key, the computed artist, the `title`/`publicationDate`/`primaryLanguage` values (default `""`) and the medium URL's UPC |
| FetchLibraryCds.ExtractRecordDefaults | fetch_library_cds.py:92-127 | with no `authors`, a record has "Unknown Artist", the UPC of the jacket URL, and `""` for an absent title, date or language |
| FetchLibraryCds.MissingJacketRaises | fetch_library_cds.py:113 | an item without `jacket` raises |
| FetchLibraryCds.PrefixRecords | fetch_library_cds.py:82-132 | there are never more records than items |
| FetchLibraryCds.PrefixRecordsExtracted | fetch_library_cds.py:82-132 | record k is the result for item k; if the page stops early, it stops at the first item that raises |
| FetchLibraryCds.PrefixFrom | fetch_library_cds.py:90-127 | one step of the item loop: a raising item ends the list, any other item contributes its record |
| FetchLibraryCds.PrefixStep | fetch_library_cds.py:90-127 | the loop invariant `records + rest == all` is kept by one iteration, and a raising item leaves `records` final |
| FetchLibraryCds.RecordIdsAreBibsKeys | fetch_library_cds.py:90-120 | record k's ID is the k-th bibs key, so output follows bibs order |
| FetchLibraryCds.RaisingItemEndsPage | fetch_library_cds.py:82-132 | if item i is the first to raise, the page yields exactly the records of items 0..i-1 |
| FetchLibraryCds.ParseJsonAndExtractMetadata | fetch_library_cds.py:79-132 | the loop yields the page's records: none for undecodable text or a missing `entities`/`bibs`; otherwise the records of the bibs items before the first that raises |
| FetchLibraryCds.CsvRow | fetch_library_cds.py:67-76 | a row has one cell per field, each the record's value for that column |
| FetchLibraryCds.WriteMetadataToCsv | fetch_library_cds.py:52-76 | the header is the six fields, and row i cell c is record i's value for field c |
| FetchLibraryCds.VisitPage | fetch_library_cds.py:149-159 | one iteration: sets `page`, fetches page p through the cache, and extends the records exactly as `HarvestPages` says |
| FetchLibraryCds.CollectAllPages | fetch_library_cds.py:146-159 | after the loop, records, cache and call count are those of the harvest of pages 1..2579, and the pages were asked for in order 1..2579 |
| FetchLibraryCds.FetchAllCdMetadata | fetch_library_cds.py:135-165 | a CSV exists iff the harvest produced records, and then it holds exactly the harvested records' rows; 2579 fetches in page order |
| Run.ArtistOf | run.py:101-105 | absent `authors` raises; an empty list gives "Unknown Artist"; a non-empty list gives its first element verbatim |
| Run.ExtractRunRecord | run.py:97-124 | a record exists iff `cd_info` and its `briefInfo` are dicts and `authors` has a length; then its ID is the item's own `id` (default `""`), not the bibs key; artist, title, date and language are the `briefInfo` values; the UPC is `""`; and the jacket is carried as `briefInfo.jacket` (default `{}`) |
| Run.MissingAuthorsRaises | run.py:103-104 | an item whose `briefInfo` lacks `authors` raises (`len(None)`) |
| Run.KeptRecords | run.py:96-126 | there are never more records than items |
| Run.KeptRecordsConcat | run.py:96-126 | the records of two runs of items are the records of each, concatenated |
| Run.KeptOne | run.py:97-126 | a single item contributes its record, or nothing when it raises |
| Run.KeptSnoc | run.py:96-126 | one more loop iteration appends the new item's record, if any |
| Run.RaisingItemSkipped | run.py:125-126 | a raising item is skipped and every item after it is still processed |
| Run.GoodItemKept | run.py:97-124 | an item that does not raise contributes its record at its position |
| Run.ParseJsonAndExtractMetadata | run.py:85-133 | the loop yields the records of the items that do not raise, in bibs order; undecodable text or a missing `entities`/`bibs` gives none |
| Run.RowUpc | run.py:66-70 | a jacket without `medium` gives UPC `""`; a string medium gives its query's `upc` value and a falsy one gives `""`; the row raises exactly when the jacket is not a dict or its medium is truthy but not a string |
| Run.CsvRow | run.py:73-82 | a row has one cell per field, each the record's value for that column with the computed UPC |
| Run.WriteMetadataToCsv | run.py:52-82 | rows are written in order until the first record whose UPC raises; all rows are written iff no record's UPC raises; row i cell c is record i's column c |
| Run.VisitPage | run.py:150-160 | one iteration: sets `page`, fetches page p through the cache, and extends the records exactly as `HarvestPages` says |
| Run.CollectAllPages | run.py:147-160 | after the loop, records, cache and call count are those of the harvest of pages 1..10, in page order |
| Run.FetchAllCdMetadata | run.py:136-166 | a CSV exists iff records were harvested; it holds the rows written before any UPC crash, and is complete iff no UPC raises; 10 fetches in page order |
| CrossRef.CapCount | lookup.py:40-41 | `min(n, limit)`: at most `limit` and `n`, and equal to one of them |
| CrossRef.CountOf | lookup_red.py:78-81 | the count exists iff `response.results` has a length; it is that length when at most `limit`, and `limit` otherwise |
| CrossRef.Truncate | lookup.py:67-68 | with the limit unset or 0, all rows are kept; otherwise the first `min(len, limit)` rows, in order |
| CrossRef.WriteRows | lookup.py:82-86 | `DictWriter` with the first row's keys as header: the file is written iff there is a first row and no row has a key outside the header (no `ValueError`); it holds that header and the rows unchanged; otherwise the run crashes |
| CrossRef.SameColumnsWritten | lookup.py:82-86 | rows that all have the first row's columns are written, under those columns |
| CrossRef.ExtraColumnCrashes | lookup.py:82-86 | a row with a column the first row lacks makes `writerows` raise |
| Lookup.LookupCdOnRedacted | lookup.py:15-48 | the count is `min(len(response.results), limit)` for a decoded response that has results; None for a failed request, an undecodable response or a response without results |
| Lookup.ZeroMeansNoResults | lookup.py:36-42 | the count is 0 exactly when the request succeeded and the response lists no results; failure is None, never 0 |
| Lookup.AnnotateRow | lookup.py:70-78 | a row is annotated iff it has both `Artist` and `Title` (otherwise `row["Artist"]` raises) |
| Lookup.AnnotationKeepsOtherColumns | lookup.py:78 | annotation sets only "Redacted Torrent Results", to the count the lookup of the row's artist and title returns; every other cell is unchanged, and the key is appended at the end when new |
| Lookup.Expected | lookup.py:51-86 | nothing is read or written, exactly when the token or the base URL is unset |
| Lookup.WrittenRowsFollowInput | lookup.py:67-86 | the written rows are the first `ROW_PROCESS_LIMIT` input rows, in input order, each annotated |
| Lookup.WellFormedInputWritten | lookup.py:63-86 | configured, non-empty input whose rows all have the header's columns, among them `Artist` and `Title`, is written out under those columns and the count's |
| Lookup.EmptyInputCrashes | lookup.py:83 | an empty input makes `rows[0]` raise before anything is written |
| Lookup.RunMain | lookup.py:51-86 | the input is read iff the token and base URL are both set; the outcome is the one `Expected` describes |
| LookupRed.Insert | lookup_red.py:22 | inserting into a key-sorted list keeps it sorted and adds exactly that entry |
| LookupRed.InsertFront | lookup_red.py:22 | an entry no later than the head may go in front |
| LookupRed.InsertBehind | lookup_red.py:22 | an entry later than the head is inserted in the tail |
| LookupRed.SortByKey | lookup_red.py:22 | `sort_keys=True`: the result is sorted by key and a permutation of the parameters |
| LookupRed.NotAfterTransitive | lookup_red.py:22 | the "not after" order on keys is transitive |
| LookupRed.OccursOnce | lookup_red.py:22 | in a dict, each entry occurs once |
| LookupRed.OccursTwice | lookup_red.py:22 | an entry at two positions occurs at least twice |
| LookupRed.DistinctKeysPermuted | lookup_red.py:22 | a permutation of a dict's entries still has distinct keys |
| LookupRed.SameHead | lookup_red.py:22 | two sorted permutations of one dict start with the same entry |
| LookupRed.TailKeeps | lookup_red.py:22 | the tail of a sorted dict is sorted, with distinct keys |
| LookupRed.TailsSameMultiset | lookup_red.py:22 | permutations with the same head have permuted tails |
| LookupRed.SortedUnique | lookup_red.py:22 | a dict has exactly one sorted arrangement |
| LookupRed.CacheFilename | lookup_red.py:20-23 | the cache file name ends in `.json` |
| LookupRed.CacheFilenameIgnoresOrder | lookup_red.py:20-23 | two params dicts with the same entries in different insertion orders have the same cache file name |
| LookupRed.RequestsParams | lookup_red.py:94-101 | the requests query searches for `artist + " " + title` |
| LookupRed.LookupSpec | lookup_red.py:43-89 | a truthy cache entry is counted without a request; otherwise a decoded response is counted and a failed or undecodable one gives None; the count is `min(len(response.results), limit)` or None when there are no results; a truthy cache entry is never lost or changed; no entry other than the query's own is touched; it pauses only after a request |
| LookupRed.CachedAnswerSendsNothing | lookup_red.py:58-63 | a truthy cached response is answered from the cache, with no request, no sleep and no cache change |
| LookupRed.FailedRequestWritesNothing | lookup_red.py:66-67 | a failed request (including `raise_for_status`) gives None, writes nothing, and does not sleep |
| LookupRed.AnswerCachedBeforeCount | lookup_red.py:70-81 | a decoded response is cached, after a request and a pause, even when it lacks `response.results`; its count is the capped number of results, None when it lacks them |
| LookupRed.UndecodedAnswerCountsNone | lookup_red.py:70-73 | a response that does not decode is paused after but neither cached nor counted |
| LookupRed.CountKeysDiffer | lookup_red.py:178-179 | the two result columns are different keys |
| LookupRed.BothCountsSet | lookup_red.py:178-179 | after the two assignments the torrent count is under "Redacted Torrent Results" and the request count under "Redacted Requests Results"; every other cell is unchanged, and the columns are the row's own followed by each new result column |
| LookupRed.BothCountsAppended | lookup_red.py:178-179 | on a row that had neither result column, both are appended at the end, torrents then requests |
| LookupRed.StepAddsRow | lookup_red.py:165-181 | one iteration succeeds iff the row has `Artist` and `Title`; it appends one row holding the browse lookup's count and then the requests lookup's count, each under its own column; the cache and the request and pause tallies are those the two lookups leave; at most two requests |
| LookupRed.AllHaveArtistAndTitleSplit | lookup_red.py:165-167 | all rows have both columns iff the earlier ones and the last do |
| LookupRed.AnnotateAllOk | lookup_red.py:165-181 | the loop finishes iff every row has `Artist` and `Title` |
| LookupRed.AnnotateAllRows | lookup_red.py:165-181 | when the loop finishes, output row i is input row i with the counts of its own two lookups, made against the cache the earlier rows left, each under its own column, and nothing else changed |
| LookupRed.StepExtends | lookup_red.py:165-181 | an iteration that succeeds follows one that succeeded and appends exactly one row |
| LookupRed.AnnotateAllLength | lookup_red.py:165-181 | a loop that finishes has one output row per input row |
| LookupRed.PrefixStep | lookup_red.py:165-181 | a run extended by one row keeps every prefix of its rows |
| LookupRed.PrefixOneMore | lookup_red.py:165-181 | one more iteration keeps the rows of the loop over any shorter prefix of the input |
| LookupRed.AnnotateAllPrefix | lookup_red.py:165-181 | the loop over the first n rows finishes with the first n output rows of the whole loop |
| LookupRed.RowAnnotatedKept | lookup_red.py:165-181 | an output row annotated with its lookups over a prefix of the input is so annotated over the whole input |
| LookupRed.RowAnnotatedLast | lookup_red.py:165-181 | the row the last iteration adds holds that row's lookups |
| LookupRed.RowAnnotatedAt | lookup_red.py:165-181 | output row i holds the lookups of input row i, made after those of rows 0..i-1 |
| LookupRed.WellFormedInputWritten | lookup_red.py:158-187 | input whose rows all have the header's columns, among them `Artist` and `Title`, is annotated to the end and written under those columns and the two result columns |
| LookupRed.AnnotateAllRequests | lookup_red.py:165-181 | the loop makes at most two requests per row |
| LookupRed.AnnotateOneMore | lookup_red.py:165-181 | the loop over rows 0..i is the loop over 0..i-1 followed by one iteration for row i |
| LookupRed.TruthyEntriesSurvive | lookup_red.py:165-181 | the loop never loses or changes a truthy cache entry |
| LookupRed.FailureSticks | lookup_red.py:165-181 | once a row raises, the remaining rows change nothing |
| LookupRed.RedactedClient.constructor | lookup_red.py:17 | a client over the stored cache, with no requests or sleeps yet and no folder created |
| LookupRed.RedactedClient.LoadFromCache | lookup_red.py:26-33 | the stored response is returned iff the query's file exists |
| LookupRed.RedactedClient.SaveToCache | lookup_red.py:36-40 | the response is stored under the query's file name and loads back unchanged; nothing else changes |
| LookupRed.RedactedClient.CachedLookup | lookup_red.py:56-89 | count, cache, request count and sleep count follow `LookupSpec` |
| LookupRed.RedactedClient.LookupCdOnRedacted | lookup_red.py:43-89 | the browse lookup, following `LookupSpec` |
| LookupRed.RedactedClient.LookupCdRequestsOnRedacted | lookup_red.py:92-139 | the requests lookup, following `LookupSpec` with the search query |
| LookupRed.RedactedClient.AnnotateRow | lookup_red.py:166-179 | one loop iteration: both lookups, then both cells set, as `Step` says |
| LookupRed.RedactedClient.AnnotateRows | lookup_red.py:165-181 | the loop's rows, cache, requests and sleeps follow `AnnotateAll` |
| LookupRed.RedactedClient.RunMain | lookup_red.py:142-187 | a missing token or base URL returns before the cache folder is created or any lookup is made; otherwise the first `ROW_PROCESS_LIMIT` rows are annotated and written |

## Left out

- The network (`requests.get`, `raise_for_status`, `response.json()`), the HTML parser (`BeautifulSoup.find_all`, `.string`), `json.loads`, `json.dumps` and `slugify` are function-valued parameters. The model takes them as given and does not describe them.
- The file system is left out: the cache folders, `os.path.exists`, `open`, `os.makedirs` and CSV text. Each cache directory is a map from file name to content. The CSV output is the header plus the rows of cells, not the rendered text.
- `os.makedirs`: only `lookup_red.py`'s (lookup_red.py:155-156) is modelled, as the flag `RedactedClient.cacheFolderCreated`. The folder creation in `get_json_data` (fetch_library_cds.py:17-18, run.py:17-18) is not modelled.
- `time.sleep`: `lookup_red.py`'s pauses are a counter in `RedactedClient` and a flag in `LookupOutcome`; the delay itself is not modelled. The pause in `lookup.py` (lookup.py:34) is not modelled, since it changes nothing the script returns or writes.
- `print` is left out. `os.getenv` is a parameter.
- Urls.FirstValueIsFirstMatch: `parse_qs` is simplified to a split on `?`, `#`, `&` and `=`. Percent-decoding, `+` to space and `;` separators are not modelled.
- JSON numbers are integers; floats are not modelled. Duplicate keys in a JSON object (the last one wins in `json.loads`) are not modelled, since object keys are taken as distinct.
- Rows read by `csv.DictReader` are text-only. Short rows (`restval`) and long rows (`restkey`) are not modelled.
- When a harvester or lookup script crashes while writing its CSV, the partly written file is not modelled, except in `run.py`. There, the rows written before the crash are the ones `Run.WriteMetadataToCsv` returns.
- LookupRed.RedactedClient.LoadFromCache: a cache file is taken to hold the response that was saved into it. The `json.dumps`/`json.loads` round trip through the file, and a file that fails to decode, are not modelled.
- The reference harvest `Harvest.HarvestPages` and the loop functions `FetchLibraryCds.PrefixRecords` and `Run.KeptRecords` are generic in the page URL builder and the item extractor. The scripts' own URL builder and extractors are the instances used.
