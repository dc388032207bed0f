/** What the two cross-reference scripts share: the browse query, the
    result count and its cap, the row limit, the annotated CSV rows and
    the way the output file is written. */
module CrossRef {
  import opened Wrappers
  import opened Json
  import Dict

  /** A CSV row as `csv.DictReader` reads it: column name to text. */
  type TextRow = Dict.Dict<string>

  /** A row after annotation: text cells, plus counts (`None` is written
      as an empty cell). */
  type Row = Dict.Dict<Json>

  /** The `params` dict of a request. */
  type Params = seq<(string, Json)>

  const TorrentKey := "Redacted Torrent Results"
  const RequestsKey := "Redacted Requests Results"
  const DefaultLimit: nat := 5

  /** What the tracker's API gives back for one request. */
  datatype ApiResponse =
    | RequestFailed            // connection error, or a non-2xx status from `raise_for_status`
    | Received(body: Option<Json>)  // the body, None when `response.json()` cannot decode it

  /** The query of `lookup_cd_on_redacted`. */
  function BrowseParams(artist: string, title: string): Params {
    [("action", JStr("browse")), ("artistname", JStr(artist)), ("groupname", JStr(title)),
     ("format", JStr("FLAC")), ("media", JStr("CD"))]
  }

  /** `len(j["response"]["results"])`, None where Python raises. */
  function ResultCount(j: Json): Option<nat> {
    var response :- Index(j, "response");
    var results :- Index(response, "results");
    Len(results)
  }

  /** `min(n, limit)`. */
  function CapCount(n: nat, limit: nat): (r: nat)
    ensures r <= limit && r <= n && (r == n || r == limit)
  {
    if n < limit then n else limit
  }

  /** The count a lookup returns for a response body: the capped number of
      results, None when the body has none to count. */
  function CountOf(body: Json, limit: nat): (r: Option<nat>)
    ensures r.Some? <==> ResultCount(body).Some?
    ensures r.Some? ==> r.value <= limit
    ensures r.Some? && ResultCount(body).value <= limit ==> r.value == ResultCount(body).value
    ensures r.Some? && ResultCount(body).value >= limit ==> r.value == limit
  {
    match ResultCount(body)
    case None => None
    case Some(n) => Some(CapCount(n, limit))
  }

  /** `if not value: return`: an environment variable that is unset or
      empty stops the script. */
  predicate Configured(value: Option<string>) {
    value.Some? && value.value != ""
  }

  /** `if ROW_PROCESS_LIMIT: rows = rows[:ROW_PROCESS_LIMIT]`; a limit of
      None or 0 keeps every row. */
  function Truncate<T>(rows: seq<T>, limit: Option<nat>): (r: seq<T>)
    ensures limit.None? || limit == Some(0) ==> r == rows
    ensures limit.Some? && limit.value > 0 ==>
      |r| == (if |rows| < limit.value then |rows| else limit.value) && r == rows[..|r|]
  {
    if limit.Some? && limit.value > 0 && limit.value < |rows| then rows[..limit.value] else rows
  }

  /** A row as read, before any annotation. */
  function Cells(row: TextRow): (r: Row)
    ensures Dict.Keys(r) == Dict.Keys(row)
    ensures forall i :: 0 <= i < |row| ==> r[i] == (row[i].0, JStr(row[i].1))
  {
    seq(|row|, i requires 0 <= i < |row| => (row[i].0, JStr(row[i].1)))
  }

  /** The cell of a count: a number, or empty for None. */
  function CountCell(count: Option<nat>): Json {
    match count
    case Some(n) => JNum(n)
    case None => JNull
  }

  /** What a script run leaves behind. */
  datatype Outcome =
    | MissingConfiguration                      // returned before reading the input
    | Crashed                                   // an uncaught exception ended the run
    | Written(header: seq<string>, rows: seq<Row>)  // the output CSV

  /** Every key of `row` is a column of `header`. */
  predicate FitsHeader(row: Row, header: seq<string>) {
    forall j :: 0 <= j < |row| ==> row[j].0 in header
  }

  /** The output file: the header is the keys of the first row, and a row
      with a key outside it makes `DictWriter` raise, as does an empty
      list (`rows[0]`). */
  function WriteRows(rows: seq<Row>): (o: Outcome)
    ensures o.Written? <==> rows != [] && forall i :: 0 <= i < |rows| ==> FitsHeader(rows[i], Dict.Keys(rows[0]))
    ensures o.Written? ==> o.header == Dict.Keys(rows[0]) && o.rows == rows
    ensures !o.Written? ==> o.Crashed?
  {
    if rows == [] then Crashed
    else if forall i :: 0 <= i < |rows| ==> FitsHeader(rows[i], Dict.Keys(rows[0])) then
      Written(Dict.Keys(rows[0]), rows)
    else Crashed
  }

  /** Rows that share one column list, as `csv.DictReader` yields them,
      are all written, under the first row's columns. */
  lemma SameColumnsWritten(rows: seq<Row>)
    requires rows != [] && forall i :: 0 <= i < |rows| ==> Dict.Keys(rows[i]) == Dict.Keys(rows[0])
    ensures WriteRows(rows) == Written(Dict.Keys(rows[0]), rows)
  {
    forall i | 0 <= i < |rows| ensures FitsHeader(rows[i], Dict.Keys(rows[0])) {
      forall j | 0 <= j < |rows[i]| ensures rows[i][j].0 in Dict.Keys(rows[0]) {
        assert Dict.Keys(rows[i])[j] == rows[i][j].0;
      }
    }
  }

  /** A row holding a column the first row lacks makes `DictWriter`
      raise, so nothing is written. */
  lemma ExtraColumnCrashes(rows: seq<Row>, i: nat, j: nat)
    requires i < |rows| && j < |rows[i]| && rows[i][j].0 !in Dict.Keys(rows[0])
    ensures WriteRows(rows) == Crashed
  {
    assert !FitsHeader(rows[i], Dict.Keys(rows[0]));
  }
}
