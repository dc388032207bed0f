/** The part of `urllib.parse` the scripts use: `parse_qs(urlparse(url).query)`
    and then `.get("upc", [""])[0]`. */
module Urls {
  import opened Wrappers
  import opened Strings

  /** `urlparse(url).query`: the fragment is cut at the first `#`, and the
      query is what follows the first `?` of the rest. */
  function QueryOf(url: string): string {
    var beforeFragment := match SplitOnce(url, "#") case Some((a, _)) => a case None => url;
    match SplitOnce(beforeFragment, "?")
    case Some((_, query)) => query
    case None => ""
  }

  /** A `name=value` field with a non-empty value, which is what `parse_qs`
      (without `keep_blank_values`) records; a field without `=` or with an
      empty value is dropped. */
  predicate Names(field: string, name: string) {
    match SplitOnce(field, "=")
    case Some((k, v)) => k == name && v != ""
    case None => false
  }

  /** The value recorded for a field. */
  function ValueOf(field: string): string {
    match SplitOnce(field, "=")
    case Some((_, v)) => v
    case None => ""
  }

  /** `parse_qs(...).get(name, [""])[0]` over the `&`-separated fields: the
      value of the first field that records `name`, or "" when none does. */
  function FirstValue(fields: seq<string>, name: string): string {
    if fields == [] then ""
    else if Names(fields[0], name) then ValueOf(fields[0])
    else FirstValue(fields[1..], name)
  }

  /** A non-empty result is the value of the first field recording `name`. */
  lemma {:induction false} FirstValueIsFirstMatch(fields: seq<string>, name: string)
    ensures var v := FirstValue(fields, name);
      v != "" ==>
        exists i :: 0 <= i < |fields| && Names(fields[i], name) && v == ValueOf(fields[i])
                    && forall j :: 0 <= j < i ==> !Names(fields[j], name)
  {
    var v := FirstValue(fields, name);
    if fields != [] && v != "" {
      if Names(fields[0], name) {
        assert Names(fields[0], name) && v == ValueOf(fields[0]);
      } else {
        var rest := fields[1..];
        FirstValueIsFirstMatch(rest, name);
        var i :| 0 <= i < |rest| && Names(rest[i], name) && v == ValueOf(rest[i])
                 && forall j :: 0 <= j < i ==> !Names(rest[j], name);
        assert rest[i] == fields[i + 1];
        forall j | 0 <= j < i + 1 ensures !Names(fields[j], name) {
          if j > 0 {
            assert fields[j] == rest[j - 1];
          }
        }
      }
    }
  }

  /** The result is "" exactly when no field records `name`: a recorded
      value is never blank. */
  lemma {:induction false} FirstValueEmpty(fields: seq<string>, name: string)
    ensures FirstValue(fields, name) == "" <==> forall i :: 0 <= i < |fields| ==> !Names(fields[i], name)
  {
    if fields != [] && !Names(fields[0], name) {
      var rest := fields[1..];
      FirstValueEmpty(rest, name);
      assert forall i :: 1 <= i < |fields| ==> fields[i] == rest[i - 1];
    }
  }

  /** The UPC barcode a jacket-image URL carries in its `upc` query
      parameter, or "" when it carries none. */
  function UpcFromUrl(url: string): string {
    FirstValue(Split(QueryOf(url), '&'), "upc")
  }

  /** A URL without `?` carries no UPC. */
  lemma NoQueryNoUpc(url: string)
    requires '?' !in url
    ensures UpcFromUrl(url) == ""
  {
    var beforeFragment := match SplitOnce(url, "#") case Some((a, _)) => a case None => url;
    assert '?' !in beforeFragment by {
      if SplitOnce(url, "#").Some? {
        SplitOnceJoins(url, "#");
        assert url == beforeFragment + "#" + SplitOnce(url, "#").value.1;
      }
    }
    ContainsChar(beforeFragment, '?');
    SplitOnceJoins(beforeFragment, "?");
    assert QueryOf(url) == "";
    assert Split("", '&') == [""];
    assert !Names("", "upc") by { SplitOnceJoins("", "="); }
    assert FirstValue([""], "upc") == FirstValue([""][1..], "upc");
    assert [""][1..] == [];
  }

  /** For a URL `base?f1&f2&...` (no fragment), the UPC is the first
      non-blank `upc` field among f1, f2, ... */
  lemma UpcOfQuery(base: string, fields: seq<string>)
    requires '?' !in base && '#' !in base && |fields| > 0
    requires forall i :: 0 <= i < |fields| ==> '&' !in fields[i] && '#' !in fields[i]
    ensures UpcFromUrl(base + "?" + Join(fields, '&')) == FirstValue(fields, "upc")
  {
    var query := Join(fields, '&');
    var url := base + "?" + query;
    assert '#' !in query by { JoinAvoids(fields, '&', '#'); }
    assert '#' !in url;
    ContainsChar(url, '#');
    SplitOnceJoins(url, "#");
    SplitOnceAtFirst(base, '?', query);
    assert QueryOf(url) == query;
    SplitJoin(fields, '&');
  }

  /** A joined string holds a character only if a part or the separator does. */
  lemma {:induction false} JoinAvoids(parts: seq<string>, sep: char, c: char)
    requires |parts| > 0 && c != sep
    requires forall i :: 0 <= i < |parts| ==> c !in parts[i]
    ensures c !in Join(parts, sep)
    decreases |parts|
  {
    if |parts| > 1 {
      JoinAvoids(parts[1..], sep, c);
    }
  }

  /** A query made of the one field `upc=v` records `v`. */
  lemma SingleUpcField(v: string)
    requires v != ""
    ensures FirstValue(["upc=" + v], "upc") == v
  {
    var field := "upc=" + v;
    assert '=' !in "upc";
    assert field == "upc" + ['='] + v;
    SplitOnceAtFirst("upc", '=', v);
    assert Names(field, "upc") && ValueOf(field) == v;
  }

  /** A jacket URL `base?upc=v` (for instance `.../medium?upc=012345`)
      carries the UPC `v`. */
  lemma UpcOfSingleField(base: string, v: string)
    requires '?' !in base && '#' !in base
    requires v != "" && '&' !in v && '#' !in v
    ensures UpcFromUrl(base + "?upc=" + v) == v
  {
    var fields := ["upc=" + v];
    assert '&' !in "upc=" && '#' !in "upc=";
    assert '&' !in fields[0] && '#' !in fields[0];
    assert base + "?upc=" + v == base + "?" + Join(fields, '&');
    UpcOfQuery(base, fields);
    SingleUpcField(v);
  }
}
