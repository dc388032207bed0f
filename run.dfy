/** The second harvester script: the same search, a shorter run, an item
    loop that skips an item that raises instead of ending the page, records
    that keep the first author and the jacket as they are, and a UPC that
    is read from the jacket only when the CSV is written. */
module Run {
  import opened Wrappers
  import opened Json
  import opened Fetcher
  import opened Harvest
  import opened Urls
  import Dict

  const MaxPagesToFetch := 10

  const UnknownArtist := "Unknown Artist"

  /** One normalised record: the dict with keys "ID", "Artist", "Title",
      "UPC Barcode", "Date", "Language" and "Jacket", every value copied
      from the page as it is except the UPC, which is always "" here. */
  datatype RunRecord = RunRecord(id: Json, artist: Json, title: Json, upc: string, date: Json,
                                 language: Json, jacket: Json)

  /** The artist: `len(authors)` raises when `authors` is absent (None) or
      has no length; the first author, as it is, when the length is
      positive; "Unknown Artist" otherwise. */
  function ArtistOf(authors: Json): (r: Option<Json>)
    ensures authors == JNull ==> r.None?
    ensures authors.JArr? ==>
      r == Some(if authors.items == [] then JStr(UnknownArtist) else authors.items[0])
  {
    var n :- Len(authors);
    if n > 0 then First(authors) else Some(JStr(UnknownArtist))
  }

  /** The record of one bibs item, or None where Python raises. The bibs
      key is not used: the ID is the item's own `id` field, "" without
      one. */
  function ExtractRunRecord(cdInfo: Json): (r: Option<RunRecord>)
    ensures r.Some? <==>
      (cdInfo.JObj?
       && var brief := Dict.GetOr(cdInfo.fields, "briefInfo", JObj([]));
          brief.JObj? && ArtistOf(Dict.GetOr(brief.fields, "authors", JNull)).Some?)
    ensures r.Some? ==> cdInfo.JObj? && r.value.id == Dict.GetOr(cdInfo.fields, "id", JStr(""))
    ensures r.Some? ==> r.value.upc == ""
    ensures r.Some? ==>
      (cdInfo.JObj?
       && var brief := Dict.GetOr(cdInfo.fields, "briefInfo", JObj([]));
          brief.JObj?
          && r.value.artist == ArtistOf(Dict.GetOr(brief.fields, "authors", JNull)).value
          && r.value.title == Dict.GetOr(brief.fields, "title", JStr(""))
          && r.value.date == Dict.GetOr(brief.fields, "publicationDate", JStr(""))
          && r.value.language == Dict.GetOr(brief.fields, "primaryLanguage", JStr(""))
          && r.value.jacket == Dict.GetOr(brief.fields, "jacket", JObj([])))
  {
    var brief :- Get(cdInfo, "briefInfo", JObj([]));
    var authors :- GetOrNull(brief, "authors");
    var artist :- ArtistOf(authors);
    // `brief` and `cd_info` are dicts by now, so the remaining `.get`s succeed
    var title := Get(brief, "title", JStr("")).value;
    var id := Get(cdInfo, "id", JStr("")).value;
    var date := Get(brief, "publicationDate", JStr("")).value;
    var language := Get(brief, "primaryLanguage", JStr("")).value;
    var jacket := Get(brief, "jacket", JObj([])).value;
    Some(RunRecord(id, artist, title, "", date, language, jacket))
  }

  /** An item whose brief info has no `authors` raises (`len(None)`). */
  lemma MissingAuthorsRaises(info: seq<(string, Json)>, brief: seq<(string, Json)>)
    requires Dict.Get(info, "briefInfo") == Some(JObj(brief))
    requires "authors" !in Dict.Keys(brief)
    ensures ExtractRunRecord(JObj(info)).None?
  {
    assert Get(JObj(info), "briefInfo", JObj([])) == Some(JObj(brief));
    assert GetOrNull(JObj(brief), "authors") == Some(JNull);
  }

  /** The records of the items that do not raise, in bibs order: each item
      has its own `try`, around `extract`. */
  function KeptRecords<R>(items: seq<(string, Json)>, extract: Json -> Option<R>): (records: seq<R>)
    ensures |records| <= |items|
  {
    if items == [] then []
    else
      (match extract(items[0].1) case Some(r) => [r] case None => [])
      + KeptRecords(items[1..], extract)
  }

  /** Items are handled independently: the records of two runs of items
      are those of each run, one after the other. */
  lemma {:induction false} KeptRecordsConcat<R>(a: seq<(string, Json)>, b: seq<(string, Json)>,
                                                extract: Json -> Option<R>)
    ensures KeptRecords(a + b, extract) == KeptRecords(a, extract) + KeptRecords(b, extract)
    decreases |a|
  {
    if a != [] {
      assert (a + b)[1..] == a[1..] + b;
      KeptRecordsConcat(a[1..], b, extract);
    } else {
      assert a + b == b;
    }
  }

  /** A single item gives its record, or nothing when it raises. */
  lemma KeptOne<R>(item: (string, Json), extract: Json -> Option<R>)
    ensures KeptRecords([item], extract) == match extract(item.1) case Some(r) => [r] case None => []
  {
    assert [item][1..] == [];
  }

  /** The records of one more item. */
  lemma KeptSnoc<R>(items: seq<(string, Json)>, i: nat, extract: Json -> Option<R>)
    requires i < |items|
    ensures KeptRecords(items[..i + 1], extract)
         == KeptRecords(items[..i], extract) + match extract(items[i].1) case Some(r) => [r] case None => []
  {
    assert items[..i + 1] == items[..i] + [items[i]];
    KeptRecordsConcat(items[..i], [items[i]], extract);
    KeptOne(items[i], extract);
  }

  /** An item that raises is skipped, and every later item is still
      processed (here for any extraction, so for `ExtractRunRecord`). */
  lemma RaisingItemSkipped<R>(a: seq<(string, Json)>, item: (string, Json), b: seq<(string, Json)>,
                              extract: Json -> Option<R>)
    requires extract(item.1).None?
    ensures KeptRecords(a + [item] + b, extract) == KeptRecords(a, extract) + KeptRecords(b, extract)
  {
    KeptRecordsConcat(a + [item], b, extract);
    KeptRecordsConcat(a, [item], extract);
    KeptOne(item, extract);
  }

  /** An item that does not raise contributes its record at its place. */
  lemma GoodItemKept<R>(a: seq<(string, Json)>, item: (string, Json), b: seq<(string, Json)>,
                        extract: Json -> Option<R>)
    requires extract(item.1).Some?
    ensures KeptRecords(a + [item] + b, extract)
         == KeptRecords(a, extract) + [extract(item.1).value] + KeptRecords(b, extract)
  {
    KeptRecordsConcat(a + [item], b, extract);
    KeptRecordsConcat(a, [item], extract);
    KeptOne(item, extract);
  }

  /** What this script's `parse_json_and_extract_metadata` returns for a
      decoded page; an undecodable page or a missing entities/bibs path
      gives []. */
  function NormalizePage(decoded: Option<Json>): seq<RunRecord> {
    match Bibs(decoded)
    case None => []
    case Some(items) => KeptRecords(items, ExtractRunRecord)
  }

  /** `parse_json_and_extract_metadata(json_data)`, decoding with `decode`. */
  method ParseJsonAndExtractMetadata(jsonData: string, decode: string -> Option<Json>)
    returns (records: seq<RunRecord>)
    ensures records == NormalizePage(decode(jsonData))
  {
    records := [];
    var bibs := Bibs(decode(jsonData));
    if bibs.None? {
      return;
    }
    var items := bibs.value;
    for i := 0 to |items|
      invariant records == KeptRecords(items[..i], ExtractRunRecord)
    {
      var (_, cdInfo) := items[i];
      var record := ExtractRunRecord(cdInfo);
      KeptSnoc(items, i, ExtractRunRecord);
      if record.Some? {
        records := records + [record.value];
      }
    }
    assert items[..|items|] == items;
  }

  // ---------------------------------------------------------------------
  // The CSV file

  /** The UPC written for a record: `.get("medium", "")` on its jacket,
      and when that is truthy the `upc` query parameter of it.  None where
      Python raises: a jacket that is not a dict, a truthy medium that is
      not a str.  Nothing catches that error, so it ends the run. */
  function RowUpc(jacket: Json): (r: Option<string>)
    ensures jacket.JObj? && "medium" !in Dict.Keys(jacket.fields) ==> r == Some("")
    ensures r.None? <==> !jacket.JObj? || (var m := Dict.GetOr(jacket.fields, "medium", JStr("")); Truthy(m) && !m.JStr?)
    ensures jacket.JObj? ==> var m := Dict.GetOr(jacket.fields, "medium", JStr(""));
      (m.JStr? ==> r == Some(UpcFromUrl(m.s))) && (!Truthy(m) ==> r == Some(""))
  {
    var medium :- Get(jacket, "medium", JStr(""));
    NoQueryNoUpc("");
    UpcOf(medium)
  }

  /** `cd_metadata.get(name, "")` for the written row, whose UPC is `upc`. */
  function Column(record: RunRecord, upc: string, name: string): Json {
    if name == "ID" then record.id
    else if name == "Artist" then record.artist
    else if name == "Title" then record.title
    else if name == "UPC Barcode" then JStr(upc)
    else if name == "Date" then record.date
    else if name == "Language" then record.language
    else JStr("")
  }

  /** The row written for `record` once its UPC is known: one cell per
      entry of `Fields`, in that order. */
  function CsvRow(record: RunRecord, upc: string): (row: seq<Json>)
    ensures |row| == |Fields|
    ensures forall c :: 0 <= c < |Fields| ==> row[c] == Column(record, upc, Fields[c])
  {
    [record.id, record.artist, record.title, JStr(upc), record.date, record.language]
  }

  /** `write_metadata_to_csv`: the header, then a row per record until a
      record's jacket raises; `completed` says whether every row was
      written. */
  method WriteMetadataToCsv(records: seq<RunRecord>) returns (table: CsvTable, completed: bool)
    ensures table.header == Fields && |table.rows| <= |records|
    ensures completed <==> |table.rows| == |records|
    ensures completed <==> forall i :: 0 <= i < |records| ==> RowUpc(records[i].jacket).Some?
    ensures !completed ==> RowUpc(records[|table.rows|].jacket).None?
    ensures forall i :: 0 <= i < |table.rows| ==>
      RowUpc(records[i].jacket).Some? && |table.rows[i]| == |Fields|
    ensures forall i, c :: 0 <= i < |table.rows| && 0 <= c < |Fields| ==>
      table.rows[i][c] == Column(records[i], RowUpc(records[i].jacket).value, Fields[c])
  {
    var rows: seq<seq<Json>> := [];
    completed := true;
    var i := 0;
    while i < |records|
      invariant 0 <= i <= |records| && |rows| == i
      invariant forall j :: 0 <= j < i ==>
        RowUpc(records[j].jacket).Some? && rows[j] == CsvRow(records[j], RowUpc(records[j].jacket).value)
    {
      var r := records[i];
      var upc := RowUpc(r.jacket);
      if upc.None? {
        completed := false;
        break;
      }
      rows := rows + [CsvRow(r, upc.value)];
      i := i + 1;
    }
    table := CsvTable(Fields, rows);
  }

  // ---------------------------------------------------------------------
  // The harvest

  /** One pass of the loop of `fetch_all_cd_metadata`: the harvest of
      pages 1..page-1 becomes the harvest of pages 1..page. */
  method VisitPage(cache: PageCache, queryParams: seq<(string, string)>, page: nat, all: seq<RunRecord>,
                   ghost entries0: map<string, string>, ghost calls0: nat,
                   fetch: string -> Fetched, decode: string -> Option<Json>)
    returns (nextParams: seq<(string, string)>, extended: seq<RunRecord>)
    requires page >= 1 && queryParams == ParamsBefore(page)
    requires var h := HarvestPages(entries0, page - 1, PageUrl, fetch, decode, NormalizePage);
      all == h.records && cache.entries == h.entries && cache.transportCalls == calls0 + h.calls
    modifies cache
    ensures nextParams == PageParams(page)
    ensures var h := HarvestPages(entries0, page, PageUrl, fetch, decode, NormalizePage);
      extended == h.records && cache.entries == h.entries && cache.transportCalls == calls0 + h.calls
    ensures cache.log == old(cache.log) + [PageUrl(page)]
  {
    NextPageParams(page);
    nextParams := Dict.Set(queryParams, "page", Strings.NatToString(page));
    var url := BaseUrl + "?" + QueryString(nextParams);
    var jsonData := cache.GetJsonData(url, fetch);
    var records := [];
    if jsonData.Some? && jsonData.value != "" {
      records := ParseJsonAndExtractMetadata(jsonData.value, decode);
    }
    extended := all + records;
    HarvestOneMore(entries0, page - 1, PageUrl, fetch, decode, NormalizePage);
  }

  /** The loop of `fetch_all_cd_metadata`: pages 1..MaxPagesToFetch
      through the page cache, in order. */
  method CollectAllPages(cache: PageCache, fetch: string -> Fetched, decode: string -> Option<Json>)
    returns (all: seq<RunRecord>)
    modifies cache
    ensures var h := HarvestPages(old(cache.entries), MaxPagesToFetch, PageUrl, fetch, decode, NormalizePage);
      all == h.records && cache.entries == h.entries && cache.transportCalls == old(cache.transportCalls) + h.calls
    ensures cache.log == old(cache.log) + PageUrls(MaxPagesToFetch)
  {
    ghost var entries0 := cache.entries;
    ghost var calls0 := cache.transportCalls;
    ghost var log0 := cache.log;
    var queryParams := BaseParams;
    all := [];
    for page := 1 to MaxPagesToFetch + 1
      invariant queryParams == ParamsBefore(page)
      invariant var h := HarvestPages(entries0, page - 1, PageUrl, fetch, decode, NormalizePage);
        all == h.records && cache.entries == h.entries && cache.transportCalls == calls0 + h.calls
      invariant cache.log == log0 + PageUrls(page - 1)
    {
      queryParams, all := VisitPage(cache, queryParams, page, all, entries0, calls0, fetch, decode);
      PageUrlsGrow(page - 1);
    }
  }

  /** `fetch_all_cd_metadata`: the CSV table written, or None when no page
      gave a record; `completed` is false when writing stopped at a record
      whose jacket raises. */
  method FetchAllCdMetadata(cache: PageCache, fetch: string -> Fetched, decode: string -> Option<Json>)
    returns (csv: Option<CsvTable>, completed: bool)
    modifies cache
    ensures var h := HarvestPages(old(cache.entries), MaxPagesToFetch, PageUrl, fetch, decode, NormalizePage);
      cache.entries == h.entries && cache.transportCalls == old(cache.transportCalls) + h.calls
    ensures var h := HarvestPages(old(cache.entries), MaxPagesToFetch, PageUrl, fetch, decode, NormalizePage);
      csv.Some? <==> h.records != []
    ensures var h := HarvestPages(old(cache.entries), MaxPagesToFetch, PageUrl, fetch, decode, NormalizePage);
      completed <==> forall i :: 0 <= i < |h.records| ==> RowUpc(h.records[i].jacket).Some?
    ensures var h := HarvestPages(old(cache.entries), MaxPagesToFetch, PageUrl, fetch, decode, NormalizePage);
      csv.Some? ==> (csv.value.header == Fields && |csv.value.rows| <= |h.records|
                     && (completed <==> |csv.value.rows| == |h.records|)
                     && forall i :: 0 <= i < |csv.value.rows| ==>
                          RowUpc(h.records[i].jacket).Some? && |csv.value.rows[i]| == |Fields|)
    ensures var h := HarvestPages(old(cache.entries), MaxPagesToFetch, PageUrl, fetch, decode, NormalizePage);
      csv.Some? ==> forall i, c :: 0 <= i < |csv.value.rows| && 0 <= c < |Fields| ==>
        csv.value.rows[i][c] == Column(h.records[i], RowUpc(h.records[i].jacket).value, Fields[c])
    ensures cache.log == old(cache.log) + PageUrls(MaxPagesToFetch)
  {
    var all := CollectAllPages(cache, fetch, decode);
    if all != [] {
      var table;
      table, completed := WriteMetadataToCsv(all);
      csv := Some(table);
    } else {
      csv := None;
      completed := true;
    }
  }
}
