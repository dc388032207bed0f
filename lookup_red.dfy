/** The second cross-reference script: like the first, but it also counts
    open requests, and it keeps every API answer in a cache folder keyed by
    the request, so that a query already answered is not sent again. */
module LookupRed {
  import opened Wrappers
  import opened Strings
  import opened Json
  import opened CrossRef
  import Dict

  const RowProcessLimit: Option<nat> := Some(5)

  // ---------------------------------------------------------------------
  // The cache file name

  /** Keys in ascending order, equal keys allowed. */
  predicate SortedByKey(s: Params) {
    forall i, j :: 0 <= i < j < |s| ==> !Before(s[j].0, s[i].0)
  }

  /** "Not after" is transitive. */
  lemma NotAfterTransitive(a: string, b: string, c: string)
    requires !Before(b, a) && !Before(c, b)
    ensures !Before(c, a)
  {
    BeforeTotal(a, b);
    if a != b && Before(c, a) {
      BeforeTransitive(c, a, b);
    }
  }

  /** Inserting into a sorted list keeps it sorted and adds exactly the
      new pair. */
  function Insert(x: (string, Json), s: Params): (r: Params)
    requires SortedByKey(s)
    ensures SortedByKey(r) && multiset(r) == multiset(s) + multiset{x}
    decreases |s|
  {
    if s == [] then [x]
    else if !Before(s[0].0, x.0) then
      InsertFront(x, s);
      [x] + s
    else
      var rest := Insert(x, s[1..]);
      assert s == [s[0]] + s[1..];
      InsertBehind(s[0], x, s[1..], rest);
      [s[0]] + rest
  }

  lemma InsertFront(x: (string, Json), s: Params)
    requires SortedByKey(s) && s != [] && !Before(s[0].0, x.0)
    ensures SortedByKey([x] + s)
  {
    var r := [x] + s;
    forall i, j | 0 <= i < j < |r| ensures !Before(r[j].0, r[i].0) {
      if i == 0 && j > 1 {
        NotAfterTransitive(x.0, s[0].0, s[j - 1].0);
      }
    }
  }

  lemma InsertBehind(head: (string, Json), x: (string, Json), tail: Params, rest: Params)
    requires SortedByKey([head] + tail) && Before(head.0, x.0)
    requires SortedByKey(rest) && multiset(rest) == multiset(tail) + multiset{x}
    ensures SortedByKey([head] + rest)
  {
    var r := [head] + rest;
    forall j | 0 <= j < |rest| ensures !Before(rest[j].0, head.0) {
      assert rest[j] in multiset(rest);
      if rest[j] == x {
        BeforeAsymmetric(head.0, x.0);
      } else {
        assert rest[j] in multiset(tail);
        var k :| 0 <= k < |tail| && tail[k] == rest[j];
        assert ([head] + tail)[k + 1] == tail[k] && ([head] + tail)[0] == head;
      }
    }
    forall i, j | 0 <= i < j < |r| ensures !Before(r[j].0, r[i].0) {
      if i > 0 {
        assert r[i] == rest[i - 1] && r[j] == rest[j - 1];
      }
    }
  }

  /** The pairs of `params` in ascending key order: the order in which
      `json.dumps(params, sort_keys=True)` writes them. */
  function SortByKey(params: Params): (r: Params)
    ensures SortedByKey(r) && multiset(r) == multiset(params)
  {
    if params == [] then []
    else
      assert params == params[..|params| - 1] + [params[|params| - 1]];
      Insert(params[|params| - 1], SortByKey(params[..|params| - 1]))
  }

  /** In a list with distinct keys each pair occurs once. */
  lemma OccursOnce(a: Params, p: nat)
    requires Dict.DistinctKeys(a) && p < |a|
    ensures multiset(a)[a[p]] == 1
  {
    assert a == a[..p] + [a[p]] + a[p + 1..];
    assert a[p] !in a[..p];
    assert a[p] !in a[p + 1..];
  }

  /** A pair at two places occurs at least twice. */
  lemma OccursTwice(b: Params, i: nat, j: nat)
    requires i < j < |b| && b[i] == b[j]
    ensures multiset(b)[b[i]] >= 2
  {
    assert b == b[..j] + [b[j]] + b[j + 1..];
    assert b[i] in b[..j];
  }

  /** Rearranging a dict keeps its keys distinct. */
  lemma DistinctKeysPermuted(a: Params, b: Params)
    requires Dict.DistinctKeys(a) && multiset(a) == multiset(b)
    ensures Dict.DistinctKeys(b)
  {
    forall i, j | 0 <= i < j < |b| ensures b[i].0 != b[j].0 {
      assert b[i] in multiset(a) && b[j] in multiset(a);
      var p :| 0 <= p < |a| && a[p] == b[i];
      var q :| 0 <= q < |a| && a[q] == b[j];
      if b[i].0 == b[j].0 {
        OccursOnce(a, p);
        OccursTwice(b, i, j);
      }
    }
  }

  /** Two sorted lists with the same pairs, the first with distinct keys,
      start with the same pair. */
  lemma SameHead(s: Params, t: Params)
    requires SortedByKey(s) && SortedByKey(t) && multiset(s) == multiset(t) && Dict.DistinctKeys(s)
    requires s != []
    ensures t != [] && s[0] == t[0]
  {
    assert s[0] in multiset(t) && t[0] in multiset(s);
    var k :| 0 <= k < |s| && s[k] == t[0];
    var m :| 0 <= m < |t| && t[m] == s[0];
    assert !Before(s[0].0, t[0].0) by {
      if m > 0 {
        assert !Before(t[m].0, t[0].0);
      } else {
        BeforeIrreflexive(s[0].0);
      }
    }
    assert !Before(t[0].0, s[0].0) by {
      if k > 0 {
        assert !Before(s[k].0, s[0].0);
      } else {
        BeforeIrreflexive(s[0].0);
      }
    }
    BeforeTotal(s[0].0, t[0].0);
    assert s[k].0 == s[0].0;
  }

  /** Dropping the first pair keeps a list sorted and its keys distinct. */
  lemma TailKeeps(s: Params)
    requires SortedByKey(s) && Dict.DistinctKeys(s) && s != []
    ensures SortedByKey(s[1..]) && Dict.DistinctKeys(s[1..])
  {
    var t := s[1..];
    forall i, j | 0 <= i < j < |t| ensures !Before(t[j].0, t[i].0) && t[i].0 != t[j].0 {
      assert t[i] == s[i + 1] && t[j] == s[j + 1];
    }
  }

  /** Equal heads and equal multisets give equal multisets of the tails. */
  lemma TailsSameMultiset(s: Params, t: Params)
    requires s != [] && t != [] && s[0] == t[0] && multiset(s) == multiset(t)
    ensures multiset(s[1..]) == multiset(t[1..])
  {
    assert s == [s[0]] + s[1..] && t == [t[0]] + t[1..];
    assert multiset(s[1..]) == multiset(s) - multiset{s[0]};
    assert multiset(t[1..]) == multiset(t) - multiset{t[0]};
  }

  /** Two sorted lists with the same pairs and distinct keys are equal. */
  lemma {:induction false} SortedUnique(s: Params, t: Params)
    requires SortedByKey(s) && SortedByKey(t) && multiset(s) == multiset(t) && Dict.DistinctKeys(s)
    ensures s == t
    decreases |s|
  {
    if s != [] {
      SameHead(s, t);
      TailsSameMultiset(s, t);
      TailKeeps(s);
      TailKeeps(t) by { DistinctKeysPermuted(s, t); }
      SortedUnique(s[1..], t[1..]);
      assert s == [s[0]] + s[1..] && t == [t[0]] + t[1..];
    } else {
      assert |multiset(t)| == 0;
    }
  }

  /** `generate_cache_filename(url, params)`, with `json.dumps` given the
      sorted pairs. */
  function CacheFilename(url: string, params: Params, slugify: string -> string,
                         dumps: Params -> string): (name: string)
    ensures |name| >= 5 && name[|name| - 5..] == ".json"
  {
    slugify(url + dumps(SortByKey(params))) + ".json"
  }

  /** The cache file name does not depend on the order in which the query
      was built: two dicts with the same entries share their file. */
  lemma CacheFilenameIgnoresOrder(url: string, p: Params, q: Params, slugify: string -> string,
                                  dumps: Params -> string)
    requires Dict.DistinctKeys(p) && multiset(p) == multiset(q)
    ensures CacheFilename(url, p, slugify, dumps) == CacheFilename(url, q, slugify, dumps)
  {
    DistinctKeysPermuted(p, SortByKey(p));
    SortedUnique(SortByKey(p), SortByKey(q));
  }

  // ---------------------------------------------------------------------
  // One lookup

  /** The query of `lookup_cd_requests_on_redacted`: music, albums, CDs,
      searching for the artist and the title. */
  function RequestsParams(artist: string, title: string): (p: Params)
    ensures Dict.Get(p, "search") == Some(JStr(artist + " " + title))
  {
    [("action", JStr("requests")), ("search", JStr(artist + " " + title)), ("filter_cat[1]", JNum(1)),
     ("releases[]", JNum(1)), ("media[]", JArr([JNum(0)]))]
  }

  /** What a lookup returns and leaves behind. */
  datatype LookupOutcome = LookupOutcome(count: Option<nat>, cache: map<string, Json>, requested: bool, slept: bool)

  /** The body shared by both lookups: a truthy cached answer is counted
      without a request; otherwise the request is sent, a failed one gives
      None, and a received one is followed by the pause, then cached when
      it decodes, then counted. */
  function LookupSpec(cache: map<string, Json>, url: string, params: Params, apiToken: string,
                      api: (string, Params, string) -> ApiResponse, slugify: string -> string,
                      dumps: Params -> string, limit: nat): (o: LookupOutcome)
    ensures o.count.Some? ==> o.count.value <= limit
    ensures forall k :: k in cache && Truthy(cache[k]) ==> k in o.cache && o.cache[k] == cache[k]
    ensures forall k :: k != CacheFilename(url, params, slugify, dumps) ==>
      (k in o.cache <==> k in cache) && (k in cache ==> o.cache[k] == cache[k])
    ensures o.slept ==> o.requested
    ensures var key := CacheFilename(url, params, slugify, dumps);
      if key in cache && Truthy(cache[key]) then o.count == CountOf(cache[key], limit)
      else match api(url, params, apiToken)
        case Received(Some(body)) => o.count == CountOf(body, limit)
        case _ => o.count.None?
  {
    var key := CacheFilename(url, params, slugify, dumps);
    if key in cache && Truthy(cache[key]) then LookupOutcome(CountOf(cache[key], limit), cache, false, false)
    else match api(url, params, apiToken)
      case RequestFailed => LookupOutcome(None, cache, true, false)
      case Received(None) => LookupOutcome(None, cache, true, true)
      case Received(Some(body)) => LookupOutcome(CountOf(body, limit), cache[key := body], true, true)
  }

  /** A truthy cached answer: no request, no pause, no write. */
  lemma CachedAnswerSendsNothing(cache: map<string, Json>, url: string, params: Params, apiToken: string,
                                 api: (string, Params, string) -> ApiResponse, slugify: string -> string,
                                 dumps: Params -> string, limit: nat)
    requires CacheFilename(url, params, slugify, dumps) in cache
    requires Truthy(cache[CacheFilename(url, params, slugify, dumps)])
    ensures LookupSpec(cache, url, params, apiToken, api, slugify, dumps, limit)
         == LookupOutcome(CountOf(cache[CacheFilename(url, params, slugify, dumps)], limit), cache, false, false)
  {
  }

  /** On a miss, a failed request gives None, not 0, writes nothing and
      is not followed by the pause. */
  lemma FailedRequestWritesNothing(cache: map<string, Json>, url: string, params: Params, apiToken: string,
                                   api: (string, Params, string) -> ApiResponse, slugify: string -> string,
                                   dumps: Params -> string, limit: nat)
    requires var key := CacheFilename(url, params, slugify, dumps); !(key in cache && Truthy(cache[key]))
    requires api(url, params, apiToken).RequestFailed?
    ensures LookupSpec(cache, url, params, apiToken, api, slugify, dumps, limit).requested
    ensures !LookupSpec(cache, url, params, apiToken, api, slugify, dumps, limit).slept
    ensures LookupSpec(cache, url, params, apiToken, api, slugify, dumps, limit).count.None?
    ensures LookupSpec(cache, url, params, apiToken, api, slugify, dumps, limit).cache == cache
  {
  }

  /** On a miss, a decoded answer is cached before it is counted, so an
      answer without results is cached and still counts as None. */
  lemma AnswerCachedBeforeCount(cache: map<string, Json>, url: string, params: Params, apiToken: string,
                                api: (string, Params, string) -> ApiResponse, slugify: string -> string,
                                dumps: Params -> string, limit: nat, body: Json)
    requires var key := CacheFilename(url, params, slugify, dumps); !(key in cache && Truthy(cache[key]))
    requires api(url, params, apiToken) == Received(Some(body))
    ensures var o := LookupSpec(cache, url, params, apiToken, api, slugify, dumps, limit);
      o.cache == cache[CacheFilename(url, params, slugify, dumps) := body]
      && o.requested && o.slept
      && o.count == CountOf(body, limit)
      && (ResultCount(body).None? ==> o.count.None?)
  {
  }

  /** On a miss, an answer that does not decode is paused after but neither
      cached nor counted. */
  lemma UndecodedAnswerCountsNone(cache: map<string, Json>, url: string, params: Params, apiToken: string,
                                  api: (string, Params, string) -> ApiResponse, slugify: string -> string,
                                  dumps: Params -> string, limit: nat)
    requires var key := CacheFilename(url, params, slugify, dumps); !(key in cache && Truthy(cache[key]))
    requires api(url, params, apiToken) == Received(None)
    ensures var o := LookupSpec(cache, url, params, apiToken, api, slugify, dumps, limit);
      o == LookupOutcome(None, cache, true, true)
  {
  }

  // ---------------------------------------------------------------------
  // The run

  /** The columns of an annotated row: the row's own, then each count's
      column the row did not already have. */
  function WithCountKeys(columns: seq<string>): seq<string> {
    var once := if TorrentKey in columns then columns else columns + [TorrentKey];
    if RequestsKey in once then once else once + [RequestsKey]
  }

  /** A row annotated with the two given counts: every column it had is
      kept, in its place, the torrent count is under its column and the
      request count under its own. */
  ghost predicate AnnotatedWith(out: Row, row: TextRow, torrents: Option<nat>, requests: Option<nat>) {
    (forall k :: k != TorrentKey && k != RequestsKey ==> Dict.Get(out, k) == Dict.Get(Cells(row), k))
    && Dict.Get(out, TorrentKey) == Some(CountCell(torrents))
    && Dict.Get(out, RequestsKey) == Some(CountCell(requests))
    && Dict.Keys(out) == WithCountKeys(Dict.Keys(row))
  }

  /** The two lookups of one row, in the order `main` makes them: the
      torrents first, then the requests against the cache the first left. */
  function RowLookups(cache: map<string, Json>, artist: string, title: string, apiToken: string, url: string,
                      api: (string, Params, string) -> ApiResponse, slugify: string -> string,
                      dumps: Params -> string): (LookupOutcome, LookupOutcome)
  {
    var torrents := LookupSpec(cache, url, BrowseParams(artist, title), apiToken, api, slugify, dumps, DefaultLimit);
    (torrents, LookupSpec(torrents.cache, url, RequestsParams(artist, title), apiToken, api, slugify, dumps,
                          DefaultLimit))
  }

  /** A row the loop of `main` can handle: it has both columns it reads. */
  predicate HasArtistAndTitle(row: TextRow) {
    Dict.Get(row, "Artist").Some? && Dict.Get(row, "Title").Some?
  }

  /** The state after the loop of `main` has handled some rows. */
  datatype Pass = Pass(rows: seq<Row>, cache: map<string, Json>, requests: nat, sleeps: nat, ok: bool)

  function Tally(b: bool): nat {
    if b then 1 else 0
  }

  /** One pass of the loop of `main`: the row's two lookups, then its two
      new columns; a row without "Artist" or "Title" raises, and once a row
      has raised nothing more happens. */
  function Step(before: Pass, row: TextRow, apiToken: string, url: string,
                api: (string, Params, string) -> ApiResponse, slugify: string -> string,
                dumps: Params -> string): Pass
  {
    var artist, title := Dict.Get(row, "Artist"), Dict.Get(row, "Title");
    if !before.ok || artist.None? || title.None? then before.(ok := false)
    else
      var (torrents, requests) := RowLookups(before.cache, artist.value, title.value, apiToken, url, api,
                                             slugify, dumps);
      var out := Dict.Set(Dict.Set(Cells(row), TorrentKey, CountCell(torrents.count)),
                          RequestsKey, CountCell(requests.count));
      Pass(before.rows + [out], requests.cache,
           before.requests + Tally(torrents.requested) + Tally(requests.requested),
           before.sleeps + Tally(torrents.slept) + Tally(requests.slept), true)
  }

  /** The loop of `main` over `rows`, in order. */
  function AnnotateAll(cache: map<string, Json>, rows: seq<TextRow>, apiToken: string, url: string,
                       api: (string, Params, string) -> ApiResponse, slugify: string -> string,
                       dumps: Params -> string): Pass
    decreases |rows|
  {
    if rows == [] then Pass([], cache, 0, 0, true)
    else Step(AnnotateAll(cache, rows[..|rows| - 1], apiToken, url, api, slugify, dumps), rows[|rows| - 1],
              apiToken, url, api, slugify, dumps)
  }

  lemma CountKeysDiffer()
    ensures TorrentKey != RequestsKey
  {
    assert TorrentKey[9] == 'T' && RequestsKey[9] == 'R';
  }

  /** Setting the two counts keeps every other column, in its place, and
      puts each count under its own column. */
  lemma BothCountsSet(row: TextRow, torrents: Option<nat>, requests: Option<nat>)
    ensures AnnotatedWith(Dict.Set(Dict.Set(Cells(row), TorrentKey, CountCell(torrents)),
                                   RequestsKey, CountCell(requests)), row, torrents, requests)
  {
    CountKeysDiffer();
    var once := Dict.Set(Cells(row), TorrentKey, CountCell(torrents));
    var twice := Dict.Set(once, RequestsKey, CountCell(requests));
    assert Dict.Get(twice, TorrentKey) == Dict.Get(once, TorrentKey) == Some(CountCell(torrents));
    Dict.SetKeys(Cells(row), TorrentKey, CountCell(torrents));
    Dict.SetKeys(once, RequestsKey, CountCell(requests));
  }

  /** Two new keys are appended after the existing ones. */
  lemma BothCountsAppended(row: TextRow, torrents: Json, requests: Json)
    requires TorrentKey !in Dict.Keys(row) && RequestsKey !in Dict.Keys(row) && TorrentKey != RequestsKey
    ensures Dict.Keys(Dict.Set(Dict.Set(Cells(row), TorrentKey, torrents), RequestsKey, requests))
         == Dict.Keys(row) + [TorrentKey, RequestsKey]
  {
    Dict.SetTwoNewKeys(Cells(row), TorrentKey, torrents, RequestsKey, requests);
  }

  /** A step that succeeds adds one row holding the old columns and the
      counts of the row's two lookups, each under its own column, and
      leaves the cache and the tallies those lookups leave; no step sends
      more than two requests. */
  lemma StepAddsRow(before: Pass, row: TextRow, apiToken: string, url: string,
                    api: (string, Params, string) -> ApiResponse, slugify: string -> string,
                    dumps: Params -> string)
    ensures var after := Step(before, row, apiToken, url, api, slugify, dumps);
      after.ok <==> before.ok && HasArtistAndTitle(row)
    ensures var after := Step(before, row, apiToken, url, api, slugify, dumps);
      after.ok ==> HasArtistAndTitle(row) && |after.rows| == |before.rows| + 1
                   && after.rows[..|before.rows|] == before.rows
                   && var l := RowLookups(before.cache, Dict.Get(row, "Artist").value, Dict.Get(row, "Title").value,
                                          apiToken, url, api, slugify, dumps);
                      AnnotatedWith(after.rows[|before.rows|], row, l.0.count, l.1.count)
                      && after.cache == l.1.cache
                      && after.requests == before.requests + Tally(l.0.requested) + Tally(l.1.requested)
                      && after.sleeps == before.sleeps + Tally(l.0.slept) + Tally(l.1.slept)
    ensures var after := Step(before, row, apiToken, url, api, slugify, dumps);
      after.requests <= before.requests + 2
  {
    var artist, title := Dict.Get(row, "Artist"), Dict.Get(row, "Title");
    if before.ok && artist.Some? && title.Some? {
      var (torrents, requests) := RowLookups(before.cache, artist.value, title.value, apiToken, url, api,
                                             slugify, dumps);
      BothCountsSet(row, torrents.count, requests.count);
      var after := Step(before, row, apiToken, url, api, slugify, dumps);
      assert after.rows == before.rows + [Dict.Set(Dict.Set(Cells(row), TorrentKey, CountCell(torrents.count)),
                                                   RequestsKey, CountCell(requests.count))];
      assert after.rows[..|before.rows|] == before.rows;
    }
  }

  lemma AllHaveArtistAndTitleSplit(rows: seq<TextRow>, init: seq<TextRow>, last: TextRow)
    requires rows == init + [last]
    ensures (forall i :: 0 <= i < |rows| ==> HasArtistAndTitle(rows[i]))
        <==> (forall i :: 0 <= i < |init| ==> HasArtistAndTitle(init[i])) && HasArtistAndTitle(last)
  {
    assert forall i :: 0 <= i < |init| ==> rows[i] == init[i];
    assert rows[|init|] == last;
  }

  /** The loop finishes exactly when every row has an artist and a title. */
  lemma {:induction false} AnnotateAllOk(cache: map<string, Json>, rows: seq<TextRow>, apiToken: string, url: string,
                                         api: (string, Params, string) -> ApiResponse, slugify: string -> string,
                                         dumps: Params -> string)
    ensures AnnotateAll(cache, rows, apiToken, url, api, slugify, dumps).ok
        <==> forall i :: 0 <= i < |rows| ==> HasArtistAndTitle(rows[i])
    decreases |rows|
  {
    if rows != [] {
      var init, last := rows[..|rows| - 1], rows[|rows| - 1];
      AnnotateAllOk(cache, init, apiToken, url, api, slugify, dumps);
      var before := AnnotateAll(cache, init, apiToken, url, api, slugify, dumps);
      StepAddsRow(before, last, apiToken, url, api, slugify, dumps);
      assert rows == init + [last];
      AllHaveArtistAndTitleSplit(rows, init, last);
    }
  }

  /** Row `i` of the output holds the counts of the lookups made for
      input row `i`, against the cache the rows before it left. */
  ghost predicate RowAnnotated(out: Row, rows: seq<TextRow>, i: nat, cache: map<string, Json>, apiToken: string,
                               url: string, api: (string, Params, string) -> ApiResponse,
                               slugify: string -> string, dumps: Params -> string)
    requires i < |rows|
  {
    HasArtistAndTitle(rows[i])
    && var l := RowLookups(AnnotateAll(cache, rows[..i], apiToken, url, api, slugify, dumps).cache,
                           Dict.Get(rows[i], "Artist").value, Dict.Get(rows[i], "Title").value,
                           apiToken, url, api, slugify, dumps);
       AnnotatedWith(out, rows[i], l.0.count, l.1.count)
  }

  /** A step that succeeds extends the rows by one and follows a step that
      succeeded. */
  lemma StepExtends(before: Pass, row: TextRow, apiToken: string, url: string,
                    api: (string, Params, string) -> ApiResponse, slugify: string -> string,
                    dumps: Params -> string)
    ensures var after := Step(before, row, apiToken, url, api, slugify, dumps);
      after.ok ==> before.ok && |after.rows| == |before.rows| + 1 && after.rows[..|before.rows|] == before.rows
  {
    StepAddsRow(before, row, apiToken, url, api, slugify, dumps);
  }

  /** A run that extends one whose prefix is `q` has `q` as a prefix too. */
  lemma PrefixStep(p: Pass, before: Pass, q: Pass, n: nat)
    requires p.ok ==> before.ok && |p.rows| == |before.rows| + 1 && p.rows[..|before.rows|] == before.rows
    requires before.ok ==> q.ok && n <= |before.rows| && q.rows == before.rows[..n]
    ensures p.ok ==> q.ok && q.rows == p.rows[..n]
  {
    if p.ok {
      assert before.rows[..n] == p.rows[..|before.rows|][..n] == p.rows[..n];
    }
  }

  /** A loop that finishes writes one row per input row. */
  lemma {:induction false} AnnotateAllLength(cache: map<string, Json>, rows: seq<TextRow>, apiToken: string,
                                             url: string, api: (string, Params, string) -> ApiResponse,
                                             slugify: string -> string, dumps: Params -> string)
    ensures var p := AnnotateAll(cache, rows, apiToken, url, api, slugify, dumps);
      p.ok ==> |p.rows| == |rows|
    decreases |rows|
  {
    if rows != [] {
      var init := rows[..|rows| - 1];
      AnnotateAllLength(cache, init, apiToken, url, api, slugify, dumps);
      StepExtends(AnnotateAll(cache, init, apiToken, url, api, slugify, dumps), rows[|rows| - 1],
                  apiToken, url, api, slugify, dumps);
    }
  }

  /** A loop that finishes writes one row per input row, and the loop over
      a prefix of the input finishes with the matching prefix of the rows. */
  lemma {:induction false} AnnotateAllPrefix(cache: map<string, Json>, rows: seq<TextRow>, n: nat, apiToken: string,
                                             url: string, api: (string, Params, string) -> ApiResponse,
                                             slugify: string -> string, dumps: Params -> string)
    requires n <= |rows|
    ensures var p, q := AnnotateAll(cache, rows, apiToken, url, api, slugify, dumps),
                        AnnotateAll(cache, rows[..n], apiToken, url, api, slugify, dumps);
      p.ok ==> |p.rows| == |rows| && q.ok && q.rows == p.rows[..n]
    decreases |rows|
  {
    if n == |rows| {
      assert rows[..n] == rows;
      AnnotateAllLength(cache, rows, apiToken, url, api, slugify, dumps);
    } else {
      var init := rows[..|rows| - 1];
      assert init[..n] == rows[..n];
      AnnotateAllPrefix(cache, init, n, apiToken, url, api, slugify, dumps);
      AnnotateAllLength(cache, rows, apiToken, url, api, slugify, dumps);
      PrefixOneMore(cache, rows, n, apiToken, url, api, slugify, dumps);
    }
  }

  /** The inductive step of the prefix property: one more row at the end. */
  lemma PrefixOneMore(cache: map<string, Json>, rows: seq<TextRow>, n: nat, apiToken: string,
                      url: string, api: (string, Params, string) -> ApiResponse,
                      slugify: string -> string, dumps: Params -> string)
    requires n < |rows|
    requires var before, q := AnnotateAll(cache, rows[..|rows| - 1], apiToken, url, api, slugify, dumps),
                              AnnotateAll(cache, rows[..n], apiToken, url, api, slugify, dumps);
      before.ok ==> n <= |before.rows| && q.ok && q.rows == before.rows[..n]
    ensures var p, q := AnnotateAll(cache, rows, apiToken, url, api, slugify, dumps),
                        AnnotateAll(cache, rows[..n], apiToken, url, api, slugify, dumps);
      p.ok ==> n <= |p.rows| && q.ok && q.rows == p.rows[..n]
  {
    var before := AnnotateAll(cache, rows[..|rows| - 1], apiToken, url, api, slugify, dumps);
    StepExtends(before, rows[|rows| - 1], apiToken, url, api, slugify, dumps);
    PrefixStep(AnnotateAll(cache, rows, apiToken, url, api, slugify, dumps), before,
               AnnotateAll(cache, rows[..n], apiToken, url, api, slugify, dumps), n);
  }

  /** What holds of a row of a prefix holds of it in the whole input. */
  lemma RowAnnotatedKept(out: Row, rows: seq<TextRow>, init: seq<TextRow>, i: nat, cache: map<string, Json>,
                         apiToken: string, url: string, api: (string, Params, string) -> ApiResponse,
                         slugify: string -> string, dumps: Params -> string)
    requires i < |init| <= |rows| && init == rows[..|init|]
    requires RowAnnotated(out, init, i, cache, apiToken, url, api, slugify, dumps)
    ensures RowAnnotated(out, rows, i, cache, apiToken, url, api, slugify, dumps)
  {
    assert rows[..i] == init[..i] && rows[i] == init[i];
  }

  /** The row a successful last step adds is annotated with its lookups. */
  lemma RowAnnotatedLast(rows: seq<TextRow>, cache: map<string, Json>, apiToken: string, url: string,
                         api: (string, Params, string) -> ApiResponse, slugify: string -> string,
                         dumps: Params -> string)
    requires rows != [] && AnnotateAll(cache, rows, apiToken, url, api, slugify, dumps).ok
    ensures var p := AnnotateAll(cache, rows, apiToken, url, api, slugify, dumps);
      |rows| <= |p.rows| && RowAnnotated(p.rows[|rows| - 1], rows, |rows| - 1, cache, apiToken, url, api, slugify, dumps)
  {
    var init := rows[..|rows| - 1];
    AnnotateAllPrefix(cache, init, |init|, apiToken, url, api, slugify, dumps);
    StepAddsRow(AnnotateAll(cache, init, apiToken, url, api, slugify, dumps), rows[|rows| - 1],
                apiToken, url, api, slugify, dumps);
  }

  /** Row `i` of a loop that finishes is annotated with its own lookups. */
  lemma RowAnnotatedAt(cache: map<string, Json>, rows: seq<TextRow>, i: nat, apiToken: string, url: string,
                       api: (string, Params, string) -> ApiResponse, slugify: string -> string,
                       dumps: Params -> string)
    requires i < |rows| && AnnotateAll(cache, rows, apiToken, url, api, slugify, dumps).ok
    ensures var p := AnnotateAll(cache, rows, apiToken, url, api, slugify, dumps);
      |p.rows| == |rows| && RowAnnotated(p.rows[i], rows, i, cache, apiToken, url, api, slugify, dumps)
  {
    var prefix := rows[..i + 1];
    var p, q := AnnotateAll(cache, rows, apiToken, url, api, slugify, dumps),
                AnnotateAll(cache, prefix, apiToken, url, api, slugify, dumps);
    AnnotateAllPrefix(cache, rows, i + 1, apiToken, url, api, slugify, dumps);
    assert |prefix| == i + 1 && q.rows[i] == p.rows[i];
    RowAnnotatedLast(prefix, cache, apiToken, url, api, slugify, dumps);
    RowAnnotatedKept(p.rows[i], rows, prefix, i, cache, apiToken, url, api, slugify, dumps);
  }

  /** When the loop finishes, each row keeps its columns and their order and
      gains the counts of its own two lookups, made after those of the rows
      before it. */
  lemma AnnotateAllRows(cache: map<string, Json>, rows: seq<TextRow>, apiToken: string, url: string,
                        api: (string, Params, string) -> ApiResponse, slugify: string -> string,
                        dumps: Params -> string)
    ensures var p := AnnotateAll(cache, rows, apiToken, url, api, slugify, dumps);
      p.ok ==> |p.rows| == |rows|
               && forall i :: 0 <= i < |rows| ==> RowAnnotated(p.rows[i], rows, i, cache, apiToken, url, api,
                                                               slugify, dumps)
  {
    var p := AnnotateAll(cache, rows, apiToken, url, api, slugify, dumps);
    if p.ok {
      AnnotateAllPrefix(cache, rows, 0, apiToken, url, api, slugify, dumps);
      forall i | 0 <= i < |rows|
        ensures RowAnnotated(p.rows[i], rows, i, cache, apiToken, url, api, slugify, dumps)
      {
        RowAnnotatedAt(cache, rows, i, apiToken, url, api, slugify, dumps);
      }
    }
  }

  /** Well-formed input, as `csv.DictReader` reads it (every row with the
      header's columns), that has "Artist" and "Title" columns is annotated
      to the end and written out, under its columns and the two counts'. */
  lemma WellFormedInputWritten(cache: map<string, Json>, input: seq<TextRow>, apiToken: string, url: string,
                               api: (string, Params, string) -> ApiResponse, slugify: string -> string,
                               dumps: Params -> string)
    requires input != []
    requires forall i :: 0 <= i < |input| ==> Dict.Keys(input[i]) == Dict.Keys(input[0])
    requires "Artist" in Dict.Keys(input[0]) && "Title" in Dict.Keys(input[0])
    ensures var p := AnnotateAll(cache, Truncate(input, RowProcessLimit), apiToken, url, api, slugify, dumps);
      p.ok && WriteRows(p.rows) == Written(WithCountKeys(Dict.Keys(input[0])), p.rows)
  {
    var rows := Truncate(input, RowProcessLimit);
    assert |rows| >= 1 && rows == input[..|rows|];
    forall i | 0 <= i < |rows| ensures HasArtistAndTitle(rows[i]) && Dict.Keys(rows[i]) == Dict.Keys(input[0]) {
      assert rows[i] == input[i];
    }
    AnnotateAllOk(cache, rows, apiToken, url, api, slugify, dumps);
    AnnotateAllRows(cache, rows, apiToken, url, api, slugify, dumps);
    var p := AnnotateAll(cache, rows, apiToken, url, api, slugify, dumps);
    forall i | 0 <= i < |p.rows| ensures Dict.Keys(p.rows[i]) == WithCountKeys(Dict.Keys(input[0])) {
      assert RowAnnotated(p.rows[i], rows, i, cache, apiToken, url, api, slugify, dumps);
    }
    SameColumnsWritten(p.rows);
  }

  /** At most two requests are sent per row. */
  lemma {:induction false} AnnotateAllRequests(cache: map<string, Json>, rows: seq<TextRow>, apiToken: string,
                                               url: string, api: (string, Params, string) -> ApiResponse,
                                               slugify: string -> string, dumps: Params -> string)
    ensures AnnotateAll(cache, rows, apiToken, url, api, slugify, dumps).requests <= 2 * |rows|
    decreases |rows|
  {
    if rows != [] {
      var init := rows[..|rows| - 1];
      AnnotateAllRequests(cache, init, apiToken, url, api, slugify, dumps);
      var before := AnnotateAll(cache, init, apiToken, url, api, slugify, dumps);
      StepAddsRow(before, rows[|rows| - 1], apiToken, url, api, slugify, dumps);
    }
  }

  /** The loop over one more row of the input is one more step. */
  lemma AnnotateOneMore(cache: map<string, Json>, rows: seq<TextRow>, i: nat, apiToken: string, url: string,
                        api: (string, Params, string) -> ApiResponse, slugify: string -> string,
                        dumps: Params -> string)
    requires i < |rows|
    ensures AnnotateAll(cache, rows[..i + 1], apiToken, url, api, slugify, dumps)
         == Step(AnnotateAll(cache, rows[..i], apiToken, url, api, slugify, dumps), rows[i], apiToken, url, api,
                 slugify, dumps)
  {
    assert rows[..i + 1][..i] == rows[..i];
  }

  /** Cached answers that are truthy survive the whole run. */
  lemma {:induction false} TruthyEntriesSurvive(cache: map<string, Json>, rows: seq<TextRow>, apiToken: string,
                                                url: string, api: (string, Params, string) -> ApiResponse,
                                                slugify: string -> string, dumps: Params -> string)
    ensures var after := AnnotateAll(cache, rows, apiToken, url, api, slugify, dumps).cache;
      forall k :: k in cache && Truthy(cache[k]) ==> k in after && after[k] == cache[k]
    decreases |rows|
  {
    if rows != [] {
      TruthyEntriesSurvive(cache, rows[..|rows| - 1], apiToken, url, api, slugify, dumps);
    }
  }

  /** Once a row has raised, later rows change nothing. */
  lemma {:induction false} FailureSticks(cache: map<string, Json>, rows: seq<TextRow>, n: nat, apiToken: string,
                                         url: string, api: (string, Params, string) -> ApiResponse,
                                         slugify: string -> string, dumps: Params -> string)
    requires n <= |rows| && !AnnotateAll(cache, rows[..n], apiToken, url, api, slugify, dumps).ok
    ensures AnnotateAll(cache, rows, apiToken, url, api, slugify, dumps)
         == AnnotateAll(cache, rows[..n], apiToken, url, api, slugify, dumps)
    decreases |rows| - n
  {
    if n < |rows| {
      var longer := rows[..n + 1];
      assert longer[..n] == rows[..n];
      FailureSticks(cache, rows, n + 1, apiToken, url, api, slugify, dumps);
    } else {
      assert rows[..n] == rows;
    }
  }

  /** The files of the cache folder, and what the script has done so far. */
  class RedactedClient {
    var cache: map<string, Json>
    var requests: nat
    var sleeps: nat
    var cacheFolderCreated: bool
    const slugify: string -> string
    const dumps: Params -> string

    constructor (stored: map<string, Json>, slugify: string -> string, dumps: Params -> string)
      ensures cache == stored && requests == 0 && sleeps == 0 && !cacheFolderCreated
      ensures this.slugify == slugify && this.dumps == dumps
    {
      cache := stored;
      requests := 0;
      sleeps := 0;
      cacheFolderCreated := false;
      this.slugify := slugify;
      this.dumps := dumps;
    }

    /** `load_from_cache(url, params)`: the stored answer, if its file
        exists. */
    function LoadFromCache(url: string, params: Params): (r: Option<Json>)
      reads this
      ensures r.Some? <==> CacheFilename(url, params, slugify, dumps) in cache
      ensures r.Some? ==> r.value == cache[CacheFilename(url, params, slugify, dumps)]
    {
      var key := CacheFilename(url, params, slugify, dumps);
      if key in cache then Some(cache[key]) else None
    }

    /** `save_to_cache(url, params, json_data)`: the answer replaces any
        earlier one under the same file name. */
    method SaveToCache(url: string, params: Params, jsonData: Json)
      modifies this
      ensures cache == old(cache)[CacheFilename(url, params, slugify, dumps) := jsonData]
      ensures LoadFromCache(url, params) == Some(jsonData)
      ensures requests == old(requests) && sleeps == old(sleeps) && cacheFolderCreated == old(cacheFolderCreated)
    {
      cache := cache[CacheFilename(url, params, slugify, dumps) := jsonData];
    }

    /** The body of both lookups. */
    method CachedLookup(url: string, params: Params, apiToken: string,
                        api: (string, Params, string) -> ApiResponse, limit: nat)
      returns (count: Option<nat>)
      modifies this
      ensures var o := LookupSpec(old(cache), url, params, apiToken, api, slugify, dumps, limit);
        count == o.count && cache == o.cache
        && requests == old(requests) + Tally(o.requested) && sleeps == old(sleeps) + Tally(o.slept)
      ensures cacheFolderCreated == old(cacheFolderCreated)
    {
      var cached := LoadFromCache(url, params);
      if cached.Some? && Truthy(cached.value) {
        count := CountOf(cached.value, limit);
        return;
      }
      requests := requests + 1;
      var response := api(url, params, apiToken);
      if response.RequestFailed? {
        count := None;
        return;
      }
      sleeps := sleeps + 1;
      if response.body.None? {
        count := None;
        return;
      }
      SaveToCache(url, params, response.body.value);
      count := CountOf(response.body.value, limit);
    }

    /** `lookup_cd_on_redacted`. */
    method LookupCdOnRedacted(artist: string, title: string, apiToken: string, baseUrl: string,
                              api: (string, Params, string) -> ApiResponse, limit: nat)
      returns (count: Option<nat>)
      modifies this
      ensures var o := LookupSpec(old(cache), baseUrl, BrowseParams(artist, title), apiToken, api, slugify, dumps, limit);
        count == o.count && cache == o.cache
        && requests == old(requests) + Tally(o.requested) && sleeps == old(sleeps) + Tally(o.slept)
      ensures cacheFolderCreated == old(cacheFolderCreated)
    {
      count := CachedLookup(baseUrl, BrowseParams(artist, title), apiToken, api, limit);
    }

    /** `lookup_cd_requests_on_redacted`. */
    method LookupCdRequestsOnRedacted(artist: string, title: string, apiToken: string, baseUrl: string,
                                      api: (string, Params, string) -> ApiResponse, limit: nat)
      returns (count: Option<nat>)
      modifies this
      ensures var o := LookupSpec(old(cache), baseUrl, RequestsParams(artist, title), apiToken, api, slugify, dumps, limit);
        count == o.count && cache == o.cache
        && requests == old(requests) + Tally(o.requested) && sleeps == old(sleeps) + Tally(o.slept)
      ensures cacheFolderCreated == old(cacheFolderCreated)
    {
      count := CachedLookup(baseUrl, RequestsParams(artist, title), apiToken, api, limit);
    }

    /** One pass of the loop of `main`: read the row's artist and title
        (raising when either is missing), look both counts up, and set
        them on the row's cells. */
    method AnnotateRow(ghost before: Pass, row: TextRow, cells: Row, token: string, url: string,
                       api: (string, Params, string) -> ApiResponse)
      returns (annotated: Option<Row>)
      requires before.ok && cache == before.cache && cells == Cells(row)
      modifies this
      ensures var after := Step(before, row, token, url, api, slugify, dumps);
        (annotated.Some? <==> after.ok) && (annotated.Some? ==> after.rows == before.rows + [annotated.value])
        && cache == after.cache
        && requests + before.requests == old(requests) + after.requests
        && sleeps + before.sleeps == old(sleeps) + after.sleeps
      ensures cacheFolderCreated == old(cacheFolderCreated)
    {
      var artist := Dict.Get(row, "Artist");
      var title := Dict.Get(row, "Title");
      if artist.None? || title.None? {
        return None;
      }
      var torrents := LookupCdOnRedacted(artist.value, title.value, token, url, api, DefaultLimit);
      var requested := LookupCdRequestsOnRedacted(artist.value, title.value, token, url, api, DefaultLimit);
      annotated := Some(Dict.Set(Dict.Set(cells, TorrentKey, CountCell(torrents)), RequestsKey, CountCell(requested)));
    }

    /** The loop of `main` over the rows it reads, stopping at the first
        row that raises. */
    method AnnotateRows(read: seq<TextRow>, token: string, url: string, api: (string, Params, string) -> ApiResponse)
      returns (rows: seq<Row>, ok: bool)
      modifies this
      ensures var p := AnnotateAll(old(cache), read, token, url, api, slugify, dumps);
        ok == p.ok && (ok ==> rows == p.rows)
        && cache == p.cache && requests == old(requests) + p.requests && sleeps == old(sleeps) + p.sleeps
      ensures cacheFolderCreated == old(cacheFolderCreated)
    {
      ghost var cache0, requests0, sleeps0 := cache, requests, sleeps;
      rows := [];
      for i := 0 to |read|
        invariant cacheFolderCreated == old(cacheFolderCreated)
        invariant var p := AnnotateAll(cache0, read[..i], token, url, api, slugify, dumps);
          p.ok && rows == p.rows && cache == p.cache
          && requests == requests0 + p.requests && sleeps == sleeps0 + p.sleeps
      {
        ghost var before := AnnotateAll(cache0, read[..i], token, url, api, slugify, dumps);
        AnnotateOneMore(cache0, read, i, token, url, api, slugify, dumps);
        var annotated := AnnotateRow(before, read[i], Cells(read[i]), token, url, api);
        if annotated.None? {
          FailureSticks(cache0, read, i + 1, token, url, api, slugify, dumps);
          return rows, false;
        }
        rows := rows + [annotated.value];
      }
      assert read[..|read|] == read;
      ok := true;
    }

    /** `main`: nothing at all without configuration; otherwise the cache
        folder is created and the rows within the limit are annotated in
        order, then written. */
    method RunMain(apiToken: Option<string>, baseUrl: Option<string>, input: seq<TextRow>,
                   api: (string, Params, string) -> ApiResponse)
      returns (outcome: Outcome)
      modifies this
      ensures !(Configured(apiToken) && Configured(baseUrl)) ==>
        outcome == MissingConfiguration && cache == old(cache) && requests == old(requests)
        && sleeps == old(sleeps) && cacheFolderCreated == old(cacheFolderCreated)
      ensures Configured(apiToken) && Configured(baseUrl) ==>
        (cacheFolderCreated
         && var p := AnnotateAll(old(cache), Truncate(input, RowProcessLimit), apiToken.value, baseUrl.value,
                                 api, slugify, dumps);
            outcome == (if p.ok then WriteRows(p.rows) else Crashed)
            && cache == p.cache && requests == old(requests) + p.requests && sleeps == old(sleeps) + p.sleeps)
    {
      if !Configured(apiToken) || !Configured(baseUrl) {
        return MissingConfiguration;
      }
      cacheFolderCreated := true;
      var read := input;
      if RowProcessLimit.Some? && RowProcessLimit.value > 0 && RowProcessLimit.value < |read| {
        read := read[..RowProcessLimit.value];
      }
      var rows, ok := AnnotateRows(read, apiToken.value, baseUrl.value, api);
      if !ok {
        return Crashed;
      }
      outcome := WriteRows(rows);
    }
  }
}
