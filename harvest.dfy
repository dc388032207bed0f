/** `fetch_all_cd_metadata`, the part both script variants share: the page
    URLs, and the harvest of pages 1..n, threading the page cache from one
    page to the next. */
module Harvest {
  import opened Wrappers
  import opened Strings
  import opened Json
  import Dict
  import opened Fetcher
  import opened Urls

  const BaseUrl := "https://austin.bibliocommons.com/v2/search"

  /** The fixed query: music CDs, circulating copies, newest acquisitions first. */
  const BaseParams: seq<(string, string)> := [
    ("custom_edit", "false"),
    ("query", "formatcode:(MUSIC_CD)"),
    ("searchType", "bl"),
    ("suppress", "true"),
    ("f_CIRC", "CIRC"),
    ("sort", "newly_acquired")
  ]

  /** The columns of the output CSV, in order. */
  const Fields: seq<string> := ["ID", "Artist", "Title", "UPC Barcode", "Date", "Language"]

  /** A CSV file: the header row, then one row of cells per record. */
  datatype CsvTable = CsvTable(header: seq<string>, rows: seq<seq<Json>>)

  /** `'&'.join(f'{k}={v}' for k, v in params.items())`. */
  function QueryString(params: seq<(string, string)>): string {
    if params == [] then ""
    else if |params| == 1 then params[0].0 + "=" + params[0].1
    else params[0].0 + "=" + params[0].1 + "&" + QueryString(params[1..])
  }

  /** The query of page `page`: the fixed query with `page` set last. */
  function PageParams(page: nat): seq<(string, string)> {
    BaseParams + [("page", NatToString(page))]
  }

  function PageUrl(page: nat): string {
    BaseUrl + "?" + QueryString(PageParams(page))
  }

  /** The URLs of pages 1..n, in order. */
  function PageUrls(n: nat): (urls: seq<string>)
    ensures |urls| == n
  {
    seq(n, i requires 0 <= i => PageUrl(i + 1))
  }

  /** Visiting one more page appends its URL. */
  lemma PageUrlsGrow(n: nat)
    ensures PageUrls(n + 1) == PageUrls(n) + [PageUrl(n + 1)]
  {
    assert forall i :: 0 <= i < n ==> PageUrls(n + 1)[i] == PageUrls(n)[i];
  }

  /** `data.get("entities", {}).get("bibs", {}).items()` on a decoded page:
      the bibs in document order, or None where Python raises (the page did
      not decode, or a step of the path is not a dict). */
  function Bibs(decoded: Option<Json>): Option<seq<(string, Json)>> {
    var data :- decoded;
    var entities :- Get(data, "entities", JObj([]));
    var bibs :- Get(entities, "bibs", JObj([]));
    if bibs.JObj? then Some(bibs.fields) else None
  }

  /** `parse_qs(urlparse(medium).query).get("upc", [""])[0]`: a str is
      parsed; a falsy non-str is taken as "" by `urlparse`; any other value
      raises. */
  function UpcOf(medium: Json): (r: Option<string>)
    ensures medium.JStr? ==> r == Some(UpcFromUrl(medium.s))
    ensures r.Some? <==> medium.JStr? || !Truthy(medium)
  {
    if medium.JStr? then Some(UpcFromUrl(medium.s))
    else if !Truthy(medium) then Some("")
    else None
  }

  /** A non-empty UPC comes from a `upc` field of the URL's query. */
  lemma UpcOfNamesField(medium: Json)
    ensures var r := UpcOf(medium);
      r.Some? && r.value != "" ==>
        medium.JStr? && exists f :: f in Split(QueryOf(medium.s), '&') && Names(f, "upc") && ValueOf(f) == r.value
  {
    if medium.JStr? {
      FirstValueIsFirstMatch(Split(QueryOf(medium.s), '&'), "upc");
    }
  }

  /** `if json_data:` on what `get_json_data` returned. */
  predicate HasPayload(json: Option<string>) {
    json.Some? && json.value != ""
  }

  /** The records one page adds: its normalised records when it has a
      payload, nothing otherwise. */
  function PageRecords<R>(json: Option<string>, decode: string -> Option<Json>,
                          normalize: Option<Json> -> seq<R>): seq<R> {
    if HasPayload(json) then normalize(decode(json.value)) else []
  }

  /** The state of a harvest after some pages. */
  datatype Progress<R> = Progress(records: seq<R>, entries: map<string, string>, calls: nat)

  /** Pages 1..n fetched in order, page `p` from `pageUrl(p)`, each through
      the cache as the earlier pages left it. */
  function HarvestPages<R>(entries: map<string, string>, n: nat, pageUrl: nat -> string, fetch: string -> Fetched,
                           decode: string -> Option<Json>, normalize: Option<Json> -> seq<R>): (r: Progress<R>)
    ensures r.calls <= n
  {
    if n == 0 then Progress([], entries, 0)
    else
      var before := HarvestPages(entries, n - 1, pageUrl, fetch, decode, normalize);
      var page := GetJson(before.entries, pageUrl(n), fetch);
      Progress(before.records + PageRecords(page.json, decode, normalize), page.entries,
               before.calls + if page.requested then 1 else 0)
  }

  /** One more page extends the harvest by that page's fetch. */
  lemma HarvestOneMore<R>(entries: map<string, string>, n: nat, pageUrl: nat -> string, fetch: string -> Fetched,
                          decode: string -> Option<Json>, normalize: Option<Json> -> seq<R>)
    ensures var before := HarvestPages(entries, n, pageUrl, fetch, decode, normalize);
      var page := GetJson(before.entries, pageUrl(n + 1), fetch);
      HarvestPages(entries, n + 1, pageUrl, fetch, decode, normalize)
      == Progress(before.records + PageRecords(page.json, decode, normalize), page.entries,
                  before.calls + if page.requested then 1 else 0)
  {}

  /** Pages 1..n, each fetched through the cache as it was before the harvest. */
  function IndependentPages<R>(entries: map<string, string>, n: nat, pageUrl: nat -> string, fetch: string -> Fetched,
                               decode: string -> Option<Json>, normalize: Option<Json> -> seq<R>): seq<R>
  {
    if n == 0 then []
    else IndependentPages(entries, n - 1, pageUrl, fetch, decode, normalize)
         + PageRecords(GetJson(entries, pageUrl(n), fetch).json, decode, normalize)
  }

  /** The number of pages among 1..n that the cache does not hold. */
  function Misses(entries: map<string, string>, n: nat, pageUrl: nat -> string): nat {
    if n == 0 then 0 else Misses(entries, n - 1, pageUrl) + if CacheKey(pageUrl(n)) in entries then 0 else 1
  }

  /** No two pages share a cache file. */
  ghost predicate DistinctPageKeys(pageUrl: nat -> string) {
    forall p: nat, q: nat :: CacheKey(pageUrl(p)) == CacheKey(pageUrl(q)) ==> p == q
  }

  lemma {:induction false} QueryStringAppend(params: seq<(string, string)>, k: string, v: string)
    requires params != []
    ensures QueryString(params + [(k, v)]) == QueryString(params) + "&" + k + "=" + v
    decreases |params|
  {
    if |params| > 1 {
      assert (params + [(k, v)])[1..] == params[1..] + [(k, v)];
      QueryStringAppend(params[1..], k, v);
    }
  }

  /** The text every page URL starts with, before the page number. */
  function PagePrefix(): string {
    BaseUrl + "?" + QueryString(BaseParams) + "&" + "page" + "="
  }

  /** A URL whose query ends in `k=v` is the URL of the shorter query
      followed by `&k=v`. */
  lemma UrlWithLastParam(base: string, params: seq<(string, string)>, k: string, v: string)
    requires params != []
    ensures base + "?" + QueryString(params + [(k, v)]) == base + "?" + QueryString(params) + "&" + k + "=" + v
  {
    QueryStringAppend(params, k, v);
  }

  lemma PageUrlSplits(page: nat)
    ensures PageUrl(page) == PagePrefix() + NatToString(page)
  {
    UrlWithLastParam(BaseUrl, BaseParams, "page", NatToString(page));
  }

  /** The cache key of page `page` ends in its number and ".json". */
  lemma PageKeySplits(page: nat)
    ensures CacheKey(PageUrl(page)) == Replace(PagePrefix(), "/", "_") + NatToString(page) + ".json"
  {
    var digits := NatToString(page);
    PageUrlSplits(page);
    ReplaceCharConcat(PagePrefix(), digits, "/", "_");
    assert '/' !in digits;
    ContainsChar(digits, '/');
    ReplaceAbsent(digits, "/", "_");
  }

  /** Distinct pages are cached under distinct keys, so no page of a harvest
      is ever served another page's text. */
  lemma PageKeyInjective(p: nat, q: nat)
    requires CacheKey(PageUrl(p)) == CacheKey(PageUrl(q))
    ensures p == q
  {
    PageKeySplits(p);
    PageKeySplits(q);
    SameAffixes(Replace(PagePrefix(), "/", "_"), NatToString(p), NatToString(q), ".json");
    NatToStringInjective(p, q);
  }

  /** Two strings with the same prefix and the same suffix around them are
      equal. */
  lemma SameAffixes(prefix: string, a: string, b: string, suffix: string)
    requires prefix + a + suffix == prefix + b + suffix
    ensures a == b
  {
    var x, y := prefix + a + suffix, prefix + b + suffix;
    assert |a| == |b|;
    assert a == x[|prefix|..|prefix| + |a|];
    assert b == y[|prefix|..|prefix| + |b|];
  }

  /** The pages of the search are cached under distinct keys. */
  lemma PageKeysDistinct()
    ensures DistinctPageKeys(PageUrl)
  {
    forall p: nat, q: nat | CacheKey(PageUrl(p)) == CacheKey(PageUrl(q)) ensures p == q {
      PageKeyInjective(p, q);
    }
  }

  /** Fetching pages 1..n leaves the cache entry of every later page as it
      was. */
  lemma {:induction false} LaterPagesUntouched<R>(entries: map<string, string>, n: nat, q: nat, pageUrl: nat -> string,
                                                  fetch: string -> Fetched, decode: string -> Option<Json>,
                                                  normalize: Option<Json> -> seq<R>)
    requires q > n && DistinctPageKeys(pageUrl)
    ensures var after, k := HarvestPages(entries, n, pageUrl, fetch, decode, normalize).entries, CacheKey(pageUrl(q));
      (k in after <==> k in entries) && (k in entries ==> after[k] == entries[k])
  {
    if n > 0 {
      LaterPagesUntouched(entries, n - 1, q, pageUrl, fetch, decode, normalize);
      var before := HarvestPages(entries, n - 1, pageUrl, fetch, decode, normalize);
      OtherKeysUntouched(before.entries, pageUrl(n), fetch, CacheKey(pageUrl(q)));
    }
  }

  /** Because pages have distinct keys, a harvest returns the records each
      page yields against the cache as it stood before the harvest, in page
      order; pages without a payload contribute nothing. */
  lemma {:induction false} HarvestIsPageByPage<R>(entries: map<string, string>, n: nat, pageUrl: nat -> string,
                                                  fetch: string -> Fetched, decode: string -> Option<Json>,
                                                  normalize: Option<Json> -> seq<R>)
    requires DistinctPageKeys(pageUrl)
    ensures HarvestPages(entries, n, pageUrl, fetch, decode, normalize).records
         == IndependentPages(entries, n, pageUrl, fetch, decode, normalize)
  {
    if n > 0 {
      HarvestIsPageByPage(entries, n - 1, pageUrl, fetch, decode, normalize);
      var before := HarvestPages(entries, n - 1, pageUrl, fetch, decode, normalize);
      LaterPagesUntouched(entries, n - 1, n, pageUrl, fetch, decode, normalize);
      DependsOnlyOnKey(before.entries, entries, pageUrl(n), fetch);
    }
  }

  /** For the same reason, a harvest sends one request per page the cache
      did not hold before it started. */
  lemma {:induction false} HarvestCallsAreMisses<R>(entries: map<string, string>, n: nat, pageUrl: nat -> string,
                                                    fetch: string -> Fetched, decode: string -> Option<Json>,
                                                    normalize: Option<Json> -> seq<R>)
    requires DistinctPageKeys(pageUrl)
    ensures HarvestPages(entries, n, pageUrl, fetch, decode, normalize).calls == Misses(entries, n, pageUrl)
  {
    if n > 0 {
      HarvestCallsAreMisses(entries, n - 1, pageUrl, fetch, decode, normalize);
      var before := HarvestPages(entries, n - 1, pageUrl, fetch, decode, normalize);
      LaterPagesUntouched(entries, n - 1, n, pageUrl, fetch, decode, normalize);
      DependsOnlyOnKey(before.entries, entries, pageUrl(n), fetch);
    }
  }

  /** A harvest keeps every entry the cache already had. */
  lemma {:induction false} HarvestKeepsEntries<R>(entries: map<string, string>, n: nat, pageUrl: nat -> string,
                                                  fetch: string -> Fetched, decode: string -> Option<Json>,
                                                  normalize: Option<Json> -> seq<R>)
    ensures Extends(entries, HarvestPages(entries, n, pageUrl, fetch, decode, normalize).entries)
  {
    if n > 0 {
      HarvestKeepsEntries(entries, n - 1, pageUrl, fetch, decode, normalize);
      var before := HarvestPages(entries, n - 1, pageUrl, fetch, decode, normalize);
      CacheOnlyGrows(before.entries, pageUrl(n), fetch);
    }
  }

  /** At most one request per page; exactly one per page when the cache
      holds none of the pages, as on a first run. */
  lemma {:induction false} RequestsPerPage(entries: map<string, string>, n: nat, pageUrl: nat -> string)
    ensures Misses(entries, n, pageUrl) <= n
    ensures (forall p :: 1 <= p <= n ==> CacheKey(pageUrl(p)) !in entries) ==> Misses(entries, n, pageUrl) == n
  {
    if n > 0 { RequestsPerPage(entries, n - 1, pageUrl); }
  }

  /** The query held when the loop reaches `page`: the fixed query alone
      before the first page, then with the previous page's number. */
  function ParamsBefore(page: nat): seq<(string, string)> {
    if page <= 1 then BaseParams else PageParams(page - 1)
  }

  /** The fixed query has no `page` key of its own. */
  lemma PageNotInBaseParams()
    ensures "page" !in Dict.Keys(BaseParams)
  {
    forall i | 0 <= i < |BaseParams| ensures BaseParams[i].0 != "page" {
      assert |BaseParams[i].0| != 4 || BaseParams[i].0[0] != 'p';
    }
  }

  /** The first assignment appends `page` after the fixed query. */
  lemma FirstPageParams()
    ensures Dict.Set(BaseParams, "page", NatToString(1)) == PageParams(1)
  {
    PageNotInBaseParams();
  }

  /** A later assignment overwrites the previous page's number in place. */
  lemma LaterPageParams(page: nat)
    requires page > 1
    ensures Dict.Set(PageParams(page - 1), "page", NatToString(page)) == PageParams(page)
  {
    PageNotInBaseParams();
    Dict.SetLast(BaseParams, "page", NatToString(page - 1), NatToString(page));
  }

  /** Setting `page` in the query dict, as the harvest loop does before
      each fetch, gives the query of that page. */
  lemma NextPageParams(page: nat)
    requires page >= 1
    ensures Dict.Set(ParamsBefore(page), "page", NatToString(page)) == PageParams(page)
  {
    if page == 1 {
      FirstPageParams();
    } else {
      LaterPageParams(page);
    }
  }
}
