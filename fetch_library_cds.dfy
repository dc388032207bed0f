/** The first harvester script: every page of the catalogue's music-CD
    search, each page's records normalised (artist name reformatted, UPC
    read from the jacket URL), all of them written to one CSV file. */
module FetchLibraryCds {
  import opened Wrappers
  import opened Strings
  import opened Json
  import opened Urls
  import opened Fetcher
  import opened Harvest
  import Dict

  const MaxPagesToFetch := 2579

  const UnknownArtist := "Unknown Artist"
  const GroupSuffix := " (Musical group)"
  const MusicianSuffix := " (Musician)"

  /** One normalised search result: the dict with keys "ID", "Artist",
      "Title", "UPC Barcode", "Date" and "Language".  Title, date and
      language are copied from the page as they are. */
  datatype CdRecord = CdRecord(id: string, artist: string, title: Json, upc: string, date: Json, language: Json)

  // ---------------------------------------------------------------------
  // Artist names

  /** "Surname, Forename" becomes "Forename Surname", splitting at the first
      ", " only; a name without ", " is kept. */
  function SwapNames(name: string): string {
    match SplitOnce(name, ", ")
    case Some((last, first)) => first + " " + last
    case None => name
  }

  /** Every " (Musical group)" is removed, then every " (Musician)". */
  function StripSuffixes(name: string): string {
    Replace(Replace(name, GroupSuffix, ""), MusicianSuffix, "")
  }

  /** The artist name as the script writes it. */
  function Reformat(name: string): string {
    StripSuffixes(SwapNames(name))
  }

  /** The artist of a record: "Unknown Artist" when `authors` is falsy,
      otherwise the reformatted first author, which must be a string. */
  function ArtistOf(authors: Json): (r: Option<string>)
    ensures !Truthy(authors) ==> r == Some(UnknownArtist)
    ensures authors.JArr? && authors.items != [] ==>
      (r.Some? <==> authors.items[0].JStr?)
      && (authors.items[0].JStr? ==> r == Some(Reformat(authors.items[0].s)))
  {
    if !Truthy(authors) then Some(UnknownArtist)
    else
      var name :- First(authors);
      // `", " in name`, `split` and `replace` raise on anything but a str
      if name.JStr? then Some(Reformat(name.s)) else None
  }

  lemma SeparatorBorderless()
    ensures Borderless(", ")
  {
    LastUniqueBorderless(", ");
  }

  /** A "Surname, Forename" author is split at its first ", ", so the
      forename keeps any later ", ". */
  lemma SwapAtFirstSeparator(last: string, first: string)
    requires !Contains(last, ", ")
    ensures SwapNames(last + ", " + first) == first + " " + last
  {
    SeparatorBorderless();
    SplitOnceAfter(last, ", ", first);
  }

  /** A name without ", " is not swapped. */
  lemma SwapKeepsPlainName(name: string)
    requires !Contains(name, ", ")
    ensures SwapNames(name) == name
  {
    SplitOnceJoins(name, ", ");
  }

  /** A name holding neither suffix is not changed by the stripping. */
  lemma StripKeepsPlainName(name: string)
    requires !Contains(name, GroupSuffix) && !Contains(name, MusicianSuffix)
    ensures StripSuffixes(name) == name
  {
    ReplaceAbsent(name, GroupSuffix, "");
    ReplaceAbsent(name, MusicianSuffix, "");
  }

  /** A name with no ", " and neither suffix passes through unchanged. */
  lemma ReformatKeepsPlainName(name: string)
    requires !Contains(name, ", ") && !Contains(name, GroupSuffix) && !Contains(name, MusicianSuffix)
    ensures Reformat(name) == name
  {
    SwapKeepsPlainName(name);
    StripKeepsPlainName(name);
  }

  /** "Surname, Forename" with no suffix in the swapped name becomes
      "Forename Surname". */
  lemma ReformatSwaps(last: string, first: string)
    requires !Contains(last, ", ")
    requires !Contains(first + " " + last, GroupSuffix) && !Contains(first + " " + last, MusicianSuffix)
    ensures Reformat(last + ", " + first) == first + " " + last
  {
    SwapAtFirstSeparator(last, first);
    StripKeepsPlainName(first + " " + last);
  }

  lemma SuffixesBorderless()
    ensures Borderless(GroupSuffix) && Borderless(MusicianSuffix)
  {
    assert GroupSuffix[..|GroupSuffix| - 1] == " (Musical group";
    LastUniqueBorderless(GroupSuffix);
    assert MusicianSuffix[..|MusicianSuffix| - 1] == " (Musician";
    LastUniqueBorderless(MusicianSuffix);
  }

  /** A trailing " (Musical group)" is removed from a name that holds
      neither suffix elsewhere. */
  lemma StripGroupSuffix(base: string)
    requires !Contains(base, GroupSuffix) && !Contains(base, MusicianSuffix)
    ensures StripSuffixes(base + GroupSuffix) == base
  {
    SuffixesBorderless();
    ReplaceDropsSuffix(base, GroupSuffix);
    ReplaceAbsent(base, MusicianSuffix, "");
  }

  /** Appending " (Musician)" cannot create a " (Musical group)": the two
      differ right after their shared start " (Music". */
  lemma MusicianSuffixHidesNoGroup(base: string)
    requires !Contains(base, GroupSuffix)
    ensures !Contains(base + MusicianSuffix, GroupSuffix)
  {
    var s := base + MusicianSuffix;
    var n := |GroupSuffix|;
    forall i | 0 <= i <= |s| ensures !OccursAt(s, GroupSuffix, i) {
      if i + n <= |base| {
        assert s[i..i + n] == base[i..i + n];
        assert !OccursAt(base, GroupSuffix, i);
      } else if i + n <= |s| {
        var m := |base| - i;
        assert 5 <= m < n;
        assert s[i..i + n] != GroupSuffix by {
          assert s[i..i + n][m] == s[|base|] == ' ';
          if m + 1 < n {
            assert s[i..i + n][m + 1] == s[|base| + 1] == '(';
          }
          assert forall q :: 5 <= q < n && GroupSuffix[q] == ' ' ==> q + 1 < n && GroupSuffix[q + 1] != '(';
        }
      }
    }
  }

  /** A trailing " (Musician)" is removed from a name that holds neither
      suffix elsewhere. */
  lemma StripMusicianSuffix(base: string)
    requires !Contains(base, GroupSuffix) && !Contains(base, MusicianSuffix)
    ensures StripSuffixes(base + MusicianSuffix) == base
  {
    SuffixesBorderless();
    MusicianSuffixHidesNoGroup(base);
    ReplaceAbsent(base + MusicianSuffix, GroupSuffix, "");
    ReplaceDropsSuffix(base, MusicianSuffix);
  }

  /** `replace(" (Musical group)", "")` removes the suffix wherever it
      stands in the name, not only at its end: the text before the first
      occurrence is kept and the rest is scanned on. */
  lemma GroupSuffixRemovedAnywhere(x: string, y: string)
    requires !Contains(x, GroupSuffix)
    ensures Replace(x + GroupSuffix + y, GroupSuffix, "") == x + Replace(y, GroupSuffix, "")
  {
    SuffixesBorderless();
    ReplaceDropsOccurrence(x, GroupSuffix, y, "");
  }

  /** `replace(" (Musician)", "")` likewise removes the suffix wherever it
      stands. */
  lemma MusicianSuffixRemovedAnywhere(x: string, y: string)
    requires !Contains(x, MusicianSuffix)
    ensures Replace(x + MusicianSuffix + y, MusicianSuffix, "") == x + Replace(y, MusicianSuffix, "")
  {
    SuffixesBorderless();
    ReplaceDropsOccurrence(x, MusicianSuffix, y, "");
  }

  // ---------------------------------------------------------------------
  // Records

  /** The record of one bibs item, or None where Python raises: `cd_info`,
      `briefInfo` or `jacket` not a dict, no `jacket` or no `medium`, an
      author that is not a str, a medium that is neither a str nor falsy. */
  function ExtractRecord(cdId: string, cdInfo: Json): (r: Option<CdRecord>)
    ensures r.Some? ==> r.value.id == cdId
  {
    var brief :- Get(cdInfo, "briefInfo", JObj([]));
    var authors :- Get(brief, "authors", JArr([]));
    var artist :- ArtistOf(authors);
    var title :- Get(brief, "title", JStr(""));
    var date :- Get(brief, "publicationDate", JStr(""));
    var jacket :- Index(brief, "jacket");
    var medium :- Index(jacket, "medium");
    var upc :- UpcOf(medium);
    var language :- Get(brief, "primaryLanguage", JStr(""));
    Some(CdRecord(cdId, artist, title, upc, date, language))
  }

  /** An item without authors gets "Unknown Artist"; title, date and
      language are the item's own or "" when it has none. */
  lemma ExtractRecordDefaults(cdId: string, info: seq<(string, Json)>, brief: seq<(string, Json)>,
                              jacket: seq<(string, Json)>, url: string)
    requires Dict.Get(info, "briefInfo") == Some(JObj(brief))
    requires Dict.Get(brief, "jacket") == Some(JObj(jacket))
    requires Dict.Get(jacket, "medium") == Some(JStr(url))
    requires "authors" !in Dict.Keys(brief)
    ensures ExtractRecord(cdId, JObj(info))
         == Some(CdRecord(cdId, UnknownArtist, Dict.GetOr(brief, "title", JStr("")), UpcFromUrl(url),
                          Dict.GetOr(brief, "publicationDate", JStr("")),
                          Dict.GetOr(brief, "primaryLanguage", JStr(""))))
  {
    assert ArtistOf(JArr([])) == Some(UnknownArtist);
    assert UpcOf(JStr(url)) == Some(UpcFromUrl(url));
    assert Get(JObj(info), "briefInfo", JObj([])) == Some(JObj(brief));
    assert Get(JObj(brief), "authors", JArr([])) == Some(JArr([]));
    assert Index(JObj(brief), "jacket") == Some(JObj(jacket));
    assert Index(JObj(jacket), "medium") == Some(JStr(url));
  }

  /** An item with `briefInfo`, `jacket` and `medium` present: it raises
      exactly when its artist or its UPC does, and otherwise its record is
      the bibs key, the artist of its `authors` (`[]` when absent), the UPC
      of its medium, and its title, date and language ("" when absent). */
  lemma ExtractRecordFields(cdId: string, info: seq<(string, Json)>, brief: seq<(string, Json)>,
                            jacket: seq<(string, Json)>, medium: Json)
    requires Dict.Get(info, "briefInfo") == Some(JObj(brief))
    requires Dict.Get(brief, "jacket") == Some(JObj(jacket))
    requires Dict.Get(jacket, "medium") == Some(medium)
    ensures var r, artist := ExtractRecord(cdId, JObj(info)), ArtistOf(Dict.GetOr(brief, "authors", JArr([])));
      (r.Some? <==> artist.Some? && UpcOf(medium).Some?)
      && (r.Some? ==> r.value == CdRecord(cdId, artist.value, Dict.GetOr(brief, "title", JStr("")), UpcOf(medium).value,
                                          Dict.GetOr(brief, "publicationDate", JStr("")),
                                          Dict.GetOr(brief, "primaryLanguage", JStr(""))))
  {
    assert Get(JObj(info), "briefInfo", JObj([])) == Some(JObj(brief));
    assert Get(JObj(brief), "authors", JArr([])) == Some(Dict.GetOr(brief, "authors", JArr([])));
    assert Index(JObj(brief), "jacket") == Some(JObj(jacket));
    assert Index(JObj(jacket), "medium") == Some(medium);
  }

  /** An item whose brief info has no `jacket` raises. */
  lemma MissingJacketRaises(cdId: string, info: seq<(string, Json)>)
    requires Get(JObj(info), "briefInfo", JObj([])).Some?
    requires var brief := Get(JObj(info), "briefInfo", JObj([])).value;
      brief.JObj? && "jacket" !in Dict.Keys(brief.fields)
    ensures ExtractRecord(cdId, JObj(info)).None?
  {
  }

  /** The records of the items before the first one that raises: the loop
      runs inside one `try`, so the first error ends the page. */
  function PrefixRecords<R>(items: seq<(string, Json)>, extract: (string, Json) -> Option<R>): (records: seq<R>)
    ensures |records| <= |items|
  {
    if items == [] then []
    else match extract(items[0].0, items[0].1)
      case None => []
      case Some(r) => [r] + PrefixRecords(items[1..], extract)
  }

  /** Each record is what its item extracts to, and the item after the
      last record, if any, raises. */
  lemma {:induction false} PrefixRecordsExtracted<R>(items: seq<(string, Json)>, extract: (string, Json) -> Option<R>)
    ensures var records := PrefixRecords(items, extract);
      (forall k :: 0 <= k < |records| ==> extract(items[k].0, items[k].1) == Some(records[k]))
      && (|records| < |items| ==> extract(items[|records|].0, items[|records|].1).None?)
  {
    if items != [] && extract(items[0].0, items[0].1).Some? {
      PrefixRecordsExtracted(items[1..], extract);
    }
  }

  /** The items from `i` on: a raising item yields nothing, a good one
      its record and then the records from `i + 1` on. */
  lemma PrefixFrom<R>(items: seq<(string, Json)>, i: nat, extract: (string, Json) -> Option<R>)
    requires i < |items|
    ensures var r := extract(items[i].0, items[i].1);
      PrefixRecords(items[i..], extract) == if r.None? then [] else [r.value] + PrefixRecords(items[i + 1..], extract)
  {
    var rest := items[i..];
    assert rest[0] == items[i] && rest[1..] == items[i + 1..];
  }

  /** The loop's step: a raising item ends the page with the records so
      far, a good one adds its record. */
  lemma PrefixStep<R>(records: seq<R>, items: seq<(string, Json)>, i: nat, extract: (string, Json) -> Option<R>)
    requires i < |items|
    requires records + PrefixRecords(items[i..], extract) == PrefixRecords(items, extract)
    ensures var r := extract(items[i].0, items[i].1);
      if r.None? then records == PrefixRecords(items, extract)
      else (records + [r.value]) + PrefixRecords(items[i + 1..], extract) == PrefixRecords(items, extract)
  {
    var r := extract(items[i].0, items[i].1);
    var from := PrefixRecords(items[i..], extract);
    PrefixFrom(items, i, extract);
    if r.Some? {
      var tail := PrefixRecords(items[i + 1..], extract);
      assert from == [r.value] + tail;
      assert (records + [r.value]) + tail == records + from;
    } else {
      assert from == [];
      assert records + from == records;
    }
  }

  /** Each record carries the bibs key of its item, in bibs order. */
  lemma RecordIdsAreBibsKeys(items: seq<(string, Json)>)
    ensures forall k :: 0 <= k < |PrefixRecords(items, ExtractRecord)| ==> PrefixRecords(items, ExtractRecord)[k].id == items[k].0
  {
    var records := PrefixRecords(items, ExtractRecord);
    PrefixRecordsExtracted(items, ExtractRecord);
    forall k | 0 <= k < |records| ensures records[k].id == items[k].0 {
      assert ExtractRecord(items[k].0, items[k].1) == Some(records[k]);
    }
  }

  /** A page that raises at item `i` yields exactly the records of the
      items before it. */
  lemma {:induction false} RaisingItemEndsPage<R>(items: seq<(string, Json)>, i: nat, extract: (string, Json) -> Option<R>)
    requires i < |items| && extract(items[i].0, items[i].1).None?
    requires forall k :: 0 <= k < i ==> extract(items[k].0, items[k].1).Some?
    ensures PrefixRecords(items, extract) == PrefixRecords(items[..i], extract)
    ensures |PrefixRecords(items, extract)| == i
  {
    if i > 0 {
      assert items[1..][..i - 1] == items[..i][1..];
      assert extract(items[0].0, items[0].1).Some?;
      RaisingItemEndsPage(items[1..], i - 1, extract);
    }
  }

  /** What `parse_json_and_extract_metadata` returns for a decoded page;
      an undecodable page or a missing entities/bibs path gives []. */
  function NormalizePage(decoded: Option<Json>): seq<CdRecord> {
    match Bibs(decoded)
    case None => []
    case Some(items) => PrefixRecords(items, ExtractRecord)
  }

  /** `parse_json_and_extract_metadata(json_data)`, decoding with `decode`. */
  method ParseJsonAndExtractMetadata(jsonData: string, decode: string -> Option<Json>)
    returns (records: seq<CdRecord>)
    ensures records == NormalizePage(decode(jsonData))
  {
    records := [];
    var bibs := Bibs(decode(jsonData));
    if bibs.None? {
      return;
    }
    var items := bibs.value;
    var i := 0;
    while i < |items|
      invariant 0 <= i <= |items|
      invariant records + PrefixRecords(items[i..], ExtractRecord) == PrefixRecords(items, ExtractRecord)
    {
      PrefixStep(records, items, i, ExtractRecord);
      var (cdId, cdInfo) := items[i];
      var record := ExtractRecord(cdId, cdInfo);
      if record.None? {
        return;
      }
      records := records + [record.value];
      i := i + 1;
    }
    assert items[i..] == [];
  }

  // ---------------------------------------------------------------------
  // The CSV file

  /** `cd_metadata.get(name, "")`. */
  function Column(record: CdRecord, name: string): Json {
    if name == "ID" then JStr(record.id)
    else if name == "Artist" then JStr(record.artist)
    else if name == "Title" then record.title
    else if name == "UPC Barcode" then JStr(record.upc)
    else if name == "Date" then record.date
    else if name == "Language" then record.language
    else JStr("")
  }

  /** The row written for `record`: one cell per entry of `Fields`, in
      that order. */
  function CsvRow(record: CdRecord): (row: seq<Json>)
    ensures |row| == |Fields|
    ensures forall c :: 0 <= c < |Fields| ==> row[c] == Column(record, Fields[c])
  {
    [JStr(record.id), JStr(record.artist), record.title, JStr(record.upc), record.date, record.language]
  }

  /** `write_metadata_to_csv`: the header, then one row per record whose
      cell under each header is that record's value for the header. */
  method WriteMetadataToCsv(records: seq<CdRecord>) returns (table: CsvTable)
    ensures table.header == Fields && |table.rows| == |records|
    ensures forall i :: 0 <= i < |records| ==> |table.rows[i]| == |Fields|
    ensures forall i, c :: 0 <= i < |records| && 0 <= c < |Fields| ==>
      table.rows[i][c] == Column(records[i], Fields[c])
  {
    var rows: seq<seq<Json>> := [];
    for i := 0 to |records|
      invariant |rows| == i
      invariant forall j :: 0 <= j < i ==> rows[j] == CsvRow(records[j])
    {
      rows := rows + [CsvRow(records[i])];
    }
    table := CsvTable(Fields, rows);
  }

  // ---------------------------------------------------------------------
  // The harvest

  /** One pass of the loop of `fetch_all_cd_metadata`: set
      `query_params["page"]`, build the URL, fetch through the cache, and
      normalise the page when it has a payload, extending the records of
      the earlier pages with its own. */
  method VisitPage(cache: PageCache, queryParams: seq<(string, string)>, page: nat, all: seq<CdRecord>,
                   ghost entries0: map<string, string>, ghost calls0: nat,
                   fetch: string -> Fetched, decode: string -> Option<Json>)
    returns (nextParams: seq<(string, string)>, extended: seq<CdRecord>)
    requires page >= 1 && queryParams == ParamsBefore(page)
    requires var h := HarvestPages(entries0, page - 1, PageUrl, fetch, decode, NormalizePage);
      all == h.records && cache.entries == h.entries && cache.transportCalls == calls0 + h.calls
    modifies cache
    ensures nextParams == PageParams(page)
    ensures var h := HarvestPages(entries0, page, PageUrl, fetch, decode, NormalizePage);
      extended == h.records && cache.entries == h.entries && cache.transportCalls == calls0 + h.calls
    ensures cache.log == old(cache.log) + [PageUrl(page)]
  {
    NextPageParams(page);
    nextParams := Dict.Set(queryParams, "page", NatToString(page));
    var url := BaseUrl + "?" + QueryString(nextParams);
    var jsonData := cache.GetJsonData(url, fetch);
    var records := [];
    if jsonData.Some? && jsonData.value != "" {
      records := ParseJsonAndExtractMetadata(jsonData.value, decode);
    }
    extended := all + records;
    HarvestOneMore(entries0, page - 1, PageUrl, fetch, decode, NormalizePage);
  }

  /** The loop of `fetch_all_cd_metadata`: pages 1..MaxPagesToFetch
      through the page cache, in order; the records of every page with a
      payload, in page order. */
  method CollectAllPages(cache: PageCache, fetch: string -> Fetched, decode: string -> Option<Json>)
    returns (all: seq<CdRecord>)
    modifies cache
    ensures var h := HarvestPages(old(cache.entries), MaxPagesToFetch, PageUrl, fetch, decode, NormalizePage);
      all == h.records && cache.entries == h.entries && cache.transportCalls == old(cache.transportCalls) + h.calls
    ensures cache.log == old(cache.log) + PageUrls(MaxPagesToFetch)
  {
    ghost var entries0 := cache.entries;
    ghost var calls0 := cache.transportCalls;
    ghost var log0 := cache.log;
    var queryParams := BaseParams;
    all := [];
    for page := 1 to MaxPagesToFetch + 1
      invariant queryParams == ParamsBefore(page)
      invariant var h := HarvestPages(entries0, page - 1, PageUrl, fetch, decode, NormalizePage);
        all == h.records && cache.entries == h.entries && cache.transportCalls == calls0 + h.calls
      invariant cache.log == log0 + PageUrls(page - 1)
    {
      queryParams, all := VisitPage(cache, queryParams, page, all, entries0, calls0, fetch, decode);
      PageUrlsGrow(page - 1);
    }
  }

  /** `fetch_all_cd_metadata`: the CSV table it writes, or None when no
      page gave a record. */
  method FetchAllCdMetadata(cache: PageCache, fetch: string -> Fetched, decode: string -> Option<Json>)
    returns (csv: Option<CsvTable>)
    modifies cache
    ensures var h := HarvestPages(old(cache.entries), MaxPagesToFetch, PageUrl, fetch, decode, NormalizePage);
      cache.entries == h.entries && cache.transportCalls == old(cache.transportCalls) + h.calls
    ensures var h := HarvestPages(old(cache.entries), MaxPagesToFetch, PageUrl, fetch, decode, NormalizePage);
      csv.Some? <==> h.records != []
    ensures var h := HarvestPages(old(cache.entries), MaxPagesToFetch, PageUrl, fetch, decode, NormalizePage);
      csv.Some? ==> (csv.value.header == Fields && |csv.value.rows| == |h.records|
                     && forall i :: 0 <= i < |h.records| ==> |csv.value.rows[i]| == |Fields|)
    ensures var h := HarvestPages(old(cache.entries), MaxPagesToFetch, PageUrl, fetch, decode, NormalizePage);
      csv.Some? ==> forall i, c :: 0 <= i < |h.records| && 0 <= c < |Fields| ==>
        csv.value.rows[i][c] == Column(h.records[i], Fields[c])
    ensures cache.log == old(cache.log) + PageUrls(MaxPagesToFetch)
  {
    var all := CollectAllPages(cache, fetch, decode);
    if all != [] {
      var table := WriteMetadataToCsv(all);
      csv := Some(table);
    } else {
      csv := None;
    }
  }
}
