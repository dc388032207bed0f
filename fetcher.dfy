/** `get_json_data`: one search-results page, served from the page cache
    when it holds the page and fetched otherwise.  The cache directory is a
    map from file name to the text stored in the file. */
module Fetcher {
  import opened Wrappers
  import opened Strings

  /** What the transport and the HTML parser report for one URL. */
  datatype Fetched =
    | RequestFailed           // connection error, or a non-2xx status from `raise_for_status`
    | NoJsonNode              // no `<script type="application/json" data-iso-key="_0">` in the page
    | NodeWithoutText         // the first such tag has no single text child: `.string` is None
    | NodeText(text: string)  // the text of the first such tag

  /** The cache file name of a URL: every `/` becomes `_`, then `.json`.
      The name is flat (it holds no `/`), one character per character of
      the URL, then the extension. */
  function CacheKey(url: string): (k: string)
    ensures |k| == |url| + 5 && k[|url|..] == ".json"
    ensures '/' !in k
  {
    ReplaceCharRemoves(url, '/', '_');
    Replace(url, "/", "_") + ".json"
  }

  /** The outcome of one call: what it returns, the cache afterwards, and
      whether it went to the network. */
  datatype Outcome = Outcome(json: Option<string>, entries: map<string, string>, requested: bool)

  /** What `get_json_data(url)` does to a cache holding `entries`. */
  function GetJson(entries: map<string, string>, url: string, fetch: string -> Fetched): (r: Outcome)
    ensures r.requested <==> CacheKey(url) !in entries
    ensures r.json.Some? ==> CacheKey(url) in r.entries && r.entries[CacheKey(url)] == r.json.value
  {
    var key := CacheKey(url);
    if key in entries then Outcome(Some(entries[key]), entries, false)
    else match fetch(url)
      case NodeText(t) => Outcome(Some(Strip(t)), entries[key := Strip(t)], true)
      case _ => Outcome(None, entries, true)
  }

  /** `after` holds every entry of `before`, unchanged: entries never expire
      and are never rewritten. */
  ghost predicate Extends(before: map<string, string>, after: map<string, string>) {
    forall k :: k in before ==> k in after && after[k] == before[k]
  }

  /** A hit is served from the cache without going to the network. */
  lemma HitServesStoredText(entries: map<string, string>, url: string, fetch: string -> Fetched)
    requires CacheKey(url) in entries
    ensures GetJson(entries, url, fetch) == Outcome(Some(entries[CacheKey(url)]), entries, false)
  {
  }

  /** A miss goes to the network once; it stores and returns the stripped
      node text when there is one, and otherwise returns None and stores
      nothing. */
  lemma MissFetchesOnce(entries: map<string, string>, url: string, fetch: string -> Fetched)
    requires CacheKey(url) !in entries
    ensures GetJson(entries, url, fetch).requested
    ensures fetch(url).NodeText? ==>
      GetJson(entries, url, fetch).json == Some(Strip(fetch(url).text))
      && GetJson(entries, url, fetch).entries == entries[CacheKey(url) := Strip(fetch(url).text)]
    ensures !fetch(url).NodeText? ==> GetJson(entries, url, fetch) == Outcome(None, entries, true)
  {
  }

  /** Whatever happens, the old entries survive, and a page that was
      returned is the one the cache now holds under the URL's key. */
  lemma CacheOnlyGrows(entries: map<string, string>, url: string, fetch: string -> Fetched)
    ensures Extends(entries, GetJson(entries, url, fetch).entries)
    ensures GetJson(entries, url, fetch).json.Some? ==>
      GetJson(entries, url, fetch).entries[CacheKey(url)] == GetJson(entries, url, fetch).json.value
  {
  }

  /** Every other key is left as it was. */
  lemma OtherKeysUntouched(entries: map<string, string>, url: string, fetch: string -> Fetched, k: string)
    requires k != CacheKey(url)
    ensures var after := GetJson(entries, url, fetch).entries;
      (k in after <==> k in entries) && (k in entries ==> after[k] == entries[k])
  {
  }

  /** The result depends on the cache only through the URL's own key. */
  lemma DependsOnlyOnKey(e1: map<string, string>, e2: map<string, string>, url: string, fetch: string -> Fetched)
    requires CacheKey(url) in e1 <==> CacheKey(url) in e2
    requires CacheKey(url) in e1 ==> e1[CacheKey(url)] == e2[CacheKey(url)]
    ensures GetJson(e1, url, fetch).json == GetJson(e2, url, fetch).json
    ensures GetJson(e1, url, fetch).requested == GetJson(e2, url, fetch).requested
  {
  }

  /** The page cache of one run: the files of the cache folder, the number
      of requests sent, and (for the proofs) every URL asked for. */
  class PageCache {
    var entries: map<string, string>
    var transportCalls: nat
    ghost var log: seq<string>

    constructor (stored: map<string, string>)
      ensures entries == stored && transportCalls == 0 && log == []
    {
      entries := stored;
      transportCalls := 0;
      log := [];
    }

    /** `get_json_data(url)`. */
    method GetJsonData(url: string, fetch: string -> Fetched) returns (json: Option<string>)
      modifies this
      ensures json == GetJson(old(entries), url, fetch).json
      ensures entries == GetJson(old(entries), url, fetch).entries
      ensures transportCalls == old(transportCalls) + if GetJson(old(entries), url, fetch).requested then 1 else 0
      ensures log == old(log) + [url]
    {
      ghost var expected := GetJson(entries, url, fetch);
      var key := CacheKey(url);
      if key in entries {
        json := Some(entries[key]);
      } else {
        transportCalls := transportCalls + 1;
        var response := fetch(url);
        if response.NodeText? {
          var text := Strip(response.text);
          entries := entries[key := text];
          json := Some(text);
        } else {
          json := None;
        }
      }
      log := log + [url];
      assert json == expected.json && entries == expected.entries;
    }
  }
}
