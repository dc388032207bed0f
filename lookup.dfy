/** The first cross-reference script: for each of the first rows of the
    harvested CSV, the number of FLAC CD torrents the tracker lists for the
    row's artist and title, added to the row. */
module Lookup {
  import opened Wrappers
  import opened Json
  import opened CrossRef
  import Dict

  const RowProcessLimit: Option<nat> := Some(1)

  /** `lookup_cd_on_redacted`: the capped count of torrent groups, or None
      when the request fails or the answer has no results to count. */
  function LookupCdOnRedacted(artist: string, title: string, apiToken: string, baseUrl: string,
                              api: (string, Params, string) -> ApiResponse, limit: nat): (r: Option<nat>)
    ensures r.Some? ==> r.value <= limit
    ensures api(baseUrl, BrowseParams(artist, title), apiToken).RequestFailed? ==> r.None?
    ensures match api(baseUrl, BrowseParams(artist, title), apiToken)
      case Received(Some(body)) => r == CountOf(body, limit)
      case _ => r.None?
  {
    match api(baseUrl, BrowseParams(artist, title), apiToken)
    case RequestFailed => None
    case Received(None) => None
    case Received(Some(body)) => CountOf(body, limit)
  }

  /** A count of 0 is a real answer: the response decoded and listed no
      results (or the limit is 0); every failure is None instead. */
  lemma ZeroMeansNoResults(artist: string, title: string, apiToken: string, baseUrl: string,
                           api: (string, Params, string) -> ApiResponse, limit: nat)
    requires limit > 0
    ensures LookupCdOnRedacted(artist, title, apiToken, baseUrl, api, limit) == Some(0) <==>
      (var response := api(baseUrl, BrowseParams(artist, title), apiToken);
       response.Received? && response.body.Some? && ResultCount(response.body.value) == Some(0))
  {
  }

  /** One row of the loop of `main`: None when the row has no "Artist" or
      no "Title" (KeyError); otherwise the row with the count stored under
      "Redacted Torrent Results". */
  function AnnotateRow(row: TextRow, apiToken: string, baseUrl: string,
                       api: (string, Params, string) -> ApiResponse): (r: Option<Row>)
    ensures r.Some? <==> "Artist" in Dict.Keys(row) && "Title" in Dict.Keys(row)
  {
    var artist :- Dict.Get(row, "Artist");
    var title :- Dict.Get(row, "Title");
    Some(Dict.Set(Cells(row), TorrentKey,
                  CountCell(LookupCdOnRedacted(artist, title, apiToken, baseUrl, api, DefaultLimit))))
  }

  /** An annotated row holds the count under the new key, and every other
      column as it was read, in the same order. */
  lemma AnnotationKeepsOtherColumns(row: TextRow, apiToken: string, baseUrl: string,
                                    api: (string, Params, string) -> ApiResponse)
    requires AnnotateRow(row, apiToken, baseUrl, api).Some?
    ensures var r := AnnotateRow(row, apiToken, baseUrl, api).value;
      (forall k :: k != TorrentKey ==> Dict.Get(r, k) == Dict.Get(Cells(row), k))
      && Dict.Get(r, TorrentKey)
         == Some(CountCell(LookupCdOnRedacted(Dict.Get(row, "Artist").value, Dict.Get(row, "Title").value,
                                              apiToken, baseUrl, api, DefaultLimit)))
      && (TorrentKey !in Dict.Keys(row) ==> Dict.Keys(r) == Dict.Keys(row) + [TorrentKey])
      && (TorrentKey in Dict.Keys(row) ==> Dict.Keys(r) == Dict.Keys(row))
  {
    var artist, title := Dict.Get(row, "Artist").value, Dict.Get(row, "Title").value;
    var cells, count := Cells(row), CountCell(LookupCdOnRedacted(artist, title, apiToken, baseUrl, api, DefaultLimit));
    assert AnnotateRow(row, apiToken, baseUrl, api).value == Dict.Set(cells, TorrentKey, count);
    if TorrentKey !in Dict.Keys(row) {
      Dict.KeysAppend(cells, TorrentKey, count);
    }
  }

  /** What `main` does: nothing without configuration; otherwise the rows
      within the limit, each annotated, written out; a row without artist
      or title ends the run. */
  function Expected(apiToken: Option<string>, baseUrl: Option<string>, input: seq<TextRow>,
                    api: (string, Params, string) -> ApiResponse): (r: Outcome)
    ensures r == MissingConfiguration <==> !(Configured(apiToken) && Configured(baseUrl))
  {
    if !Configured(apiToken) || !Configured(baseUrl) then MissingConfiguration
    else
      var rows := Truncate(input, RowProcessLimit);
      if exists i :: 0 <= i < |rows| && AnnotateRow(rows[i], apiToken.value, baseUrl.value, api).None? then Crashed
      else WriteRows(seq(|rows|, i requires 0 <= i < |rows| => AnnotateRow(rows[i], apiToken.value, baseUrl.value, api).value))
  }

  /** A written file holds the first rows of the input, in order, each
      with every column it had plus the count. */
  lemma WrittenRowsFollowInput(apiToken: Option<string>, baseUrl: Option<string>, input: seq<TextRow>,
                               api: (string, Params, string) -> ApiResponse)
    requires Expected(apiToken, baseUrl, input, api).Written?
    ensures var out := Expected(apiToken, baseUrl, input, api).rows;
      |out| == (if |input| < 1 then |input| else 1)
      && forall i :: 0 <= i < |out| ==>
           Some(out[i]) == AnnotateRow(input[i], apiToken.value, baseUrl.value, api)
  {
    var rows := Truncate(input, RowProcessLimit);
    assert |rows| == (if |input| < 1 then |input| else 1) && rows == input[..|rows|];
    var token, url := apiToken.value, baseUrl.value;
    var out := seq(|rows|, i requires 0 <= i < |rows| => AnnotateRow(rows[i], token, url, api).value);
    assert Expected(apiToken, baseUrl, input, api).rows == out;
    forall i | 0 <= i < |out| ensures Some(out[i]) == AnnotateRow(input[i], token, url, api) {
      assert rows[i] == input[i];
    }
  }

  /** The columns of an annotated row: the row's own, then the count's
      column unless the row already had one. */
  function AnnotatedColumns(columns: seq<string>): seq<string> {
    if TorrentKey in columns then columns else columns + [TorrentKey]
  }

  /** Input as `csv.DictReader` reads it (every row with the header's
      columns) that has "Artist" and "Title" columns is written out, under
      those columns and the count's. */
  lemma WellFormedInputWritten(apiToken: Option<string>, baseUrl: Option<string>, input: seq<TextRow>,
                               api: (string, Params, string) -> ApiResponse)
    requires Configured(apiToken) && Configured(baseUrl) && input != []
    requires forall i :: 0 <= i < |input| ==> Dict.Keys(input[i]) == Dict.Keys(input[0])
    requires "Artist" in Dict.Keys(input[0]) && "Title" in Dict.Keys(input[0])
    ensures Expected(apiToken, baseUrl, input, api).Written?
    ensures Expected(apiToken, baseUrl, input, api).header == AnnotatedColumns(Dict.Keys(input[0]))
  {
    var rows := Truncate(input, RowProcessLimit);
    var token, url := apiToken.value, baseUrl.value;
    assert |rows| >= 1 && rows == input[..|rows|];
    forall i | 0 <= i < |rows| ensures AnnotateRow(rows[i], token, url, api).Some? {
      assert rows[i] == input[i];
    }
    var out := seq(|rows|, i requires 0 <= i < |rows| => AnnotateRow(rows[i], token, url, api).value);
    forall i | 0 <= i < |rows| ensures Dict.Keys(out[i]) == AnnotatedColumns(Dict.Keys(input[0])) {
      assert rows[i] == input[i];
      AnnotationKeepsOtherColumns(rows[i], token, url, api);
    }
    SameColumnsWritten(out);
    assert Expected(apiToken, baseUrl, input, api) == WriteRows(out);
  }

  /** An empty input makes `rows[0]` raise before anything is written. */
  lemma EmptyInputCrashes(apiToken: Option<string>, baseUrl: Option<string>,
                          api: (string, Params, string) -> ApiResponse)
    requires Configured(apiToken) && Configured(baseUrl)
    ensures Expected(apiToken, baseUrl, [], api) == Crashed
  {
    var none: seq<TextRow> := [];
    assert Truncate(none, RowProcessLimit) == [];
  }

  /** `main`.  `inputRead` says whether the input CSV was opened. */
  method RunMain(apiToken: Option<string>, baseUrl: Option<string>, input: seq<TextRow>,
                 api: (string, Params, string) -> ApiResponse)
    returns (outcome: Outcome, inputRead: bool)
    ensures inputRead <==> Configured(apiToken) && Configured(baseUrl)
    ensures outcome == Expected(apiToken, baseUrl, input, api)
  {
    if !Configured(apiToken) || !Configured(baseUrl) {
      return MissingConfiguration, false;
    }
    inputRead := true;
    var token, url := apiToken.value, baseUrl.value;
    var read := input;
    if RowProcessLimit.Some? && RowProcessLimit.value > 0 && RowProcessLimit.value < |read| {
      read := read[..RowProcessLimit.value];
    }
    var rows := [];
    for i := 0 to |read|
      invariant |rows| == i
      invariant forall j :: 0 <= j < i ==> AnnotateRow(read[j], token, url, api).Some?
      invariant forall j :: 0 <= j < i ==> rows[j] == AnnotateRow(read[j], token, url, api).value
    {
      var artist := Dict.Get(read[i], "Artist");
      var title := Dict.Get(read[i], "Title");
      if artist.None? || title.None? {
        return Crashed, true;
      }
      var count := LookupCdOnRedacted(artist.value, title.value, token, url, api, DefaultLimit);
      assert AnnotateRow(read[i], token, url, api) == Some(Dict.Set(Cells(read[i]), TorrentKey, CountCell(count)));
      rows := rows + [Dict.Set(Cells(read[i]), TorrentKey, CountCell(count))];
    }
    assert rows == seq(|read|, i requires 0 <= i < |read| => AnnotateRow(read[i], token, url, api).value);
    outcome := WriteRows(rows);
  }
}
