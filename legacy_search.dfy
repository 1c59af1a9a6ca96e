/**
 * The legacy single-table search: one request against the primary table with
 * five fixed fields, and a search result decoded from each response row.
 */
module LegacySearch {
  import opened Wrappers
  import opened Text
  import opened Cargo

  /** The five fields the legacy search selects, in order. */
  const SearchFields: seq<string> :=
    ["Infobox_game._pageName=Page", "Infobox_game._pageID=PageID",
     "Infobox_game.Steam_AppID", "Infobox_game.GOGcom_ID", "Infobox_game.Released"]

  /** `_build_search_request(query)`: a query of the primary table alone. */
  function BuildSearchRequest(query: string): (p: Params)
    ensures p.Keys == {"action", "tables", "where", "fields", "format"}
    ensures "join_on" !in p
    ensures p["action"] == "cargoquery" && p["format"] == "json" && p["tables"] == "Infobox_game"
    ensures p["where"] == "Infobox_game._pageName LIKE \"%" + query + "%\""
    ensures p["fields"] == Join(SearchFields, ",")
  {
    map["action" := "cargoquery",
        "tables" := "Infobox_game",
        "where" := "Infobox_game._pageName LIKE \"%" + query + "%\"",
        "fields" := Join(SearchFields, ","),
        "format" := "json"]
  }

  /** The loop `for s in pieces: try: l.append(convert(s)) except ValueError: pass`. */
  method ConvertPieces<T>(pieces: seq<string>, convert: string -> Option<T>) returns (l: seq<T>)
    ensures l == Converted(pieces, convert)
  {
    l := [];
    var i := 0;
    while i < |pieces|
      invariant 0 <= i <= |pieces|
      invariant l == Converted(pieces[..i], convert)
    {
      ConvertedAppend(pieces[..i], [pieces[i]], convert);
      assert pieces[..i + 1] == pieces[..i] + [pieces[i]];
      assert Converted([pieces[i]], convert) == (match convert(pieces[i]) case Some(v) => [v] case None => []) + Converted([], convert);
      match convert(pieces[i]) {
        case Some(v) => l := l + [v];
        case None =>
      }
      i := i + 1;
    }
    assert pieces[..i] == pieces;
  }

  /** The values of a delimited field: every piece of the split that converts,
      in order and with repetitions; nothing when the field is missing or empty. */
  function DelimitedValues<T>(j: Row, key: string, delimiter: string, convert: string -> Option<T>): seq<T>
    requires delimiter != ""
  {
    if Truthy(Get(j, key)) then Converted(Split(j[key], delimiter), convert) else []
  }

  /** A value is decoded exactly when some piece of the field converts to it,
      and there are never more values than pieces. */
  lemma DelimitedValuesSpec<T>(j: Row, key: string, delimiter: string, convert: string -> Option<T>, v: T)
    requires delimiter != ""
    ensures !Truthy(Get(j, key)) ==> DelimitedValues(j, key, delimiter, convert) == []
    ensures Truthy(Get(j, key)) ==>
      (v in DelimitedValues(j, key, delimiter, convert) <==>
         exists i :: 0 <= i < |Split(j[key], delimiter)| && convert(Split(j[key], delimiter)[i]) == Some(v))
    ensures Truthy(Get(j, key)) ==> |DelimitedValues(j, key, delimiter, convert)| <= |Split(j[key], delimiter)|
  {
    if Truthy(Get(j, key)) {
      var pieces := Split(j[key], delimiter);
      assert DelimitedValues(j, key, delimiter, convert) == Converted(pieces, convert);
      ConvertedMembers(pieces, convert, v);
      ConvertedLength(pieces, convert);
      if v in Converted(pieces, convert) {
        var i :| 0 <= i < |pieces| && convert(pieces[i]) == Some(v);
        assert convert(Split(j[key], delimiter)[i]) == Some(v);
      }
    }
  }

  /** The exception `__str__` can raise. */
  datatype PyError = AttributeError(attribute: string)

  /**
   * The `date` attribute as the constructor leaves it: never set (`None`)
   * when `Released` is missing or empty, otherwise set to the first decoded
   * date, or to Python's `None` (`Some(None)`) when no piece decoded.
   */
  function DateAttribute(released: Option<string>, dates: seq<DateTime>): Option<Option<DateTime>> {
    if Truthy(released) then Some(if dates == [] then None else Some(dates[0])) else None
  }

  /** `__str__` as written: reading the unset `date` raises. */
  function StrAsWritten(name: Option<string>, date: Option<Option<DateTime>>): Result<string, PyError> {
    if Truthy(name) then
      match date
      case None => Failure(AttributeError("date"))
      case Some(None) => Success(name.value)
      case Some(Some(d)) => Success(name.value + " (" + IntToString(d.year) + ")")
    else Success("Unknown search result")
  }

  /** The as-written `__str__` raises exactly for a named result whose `date` was never set. */
  lemma StrAsWrittenRaises(name: Option<string>, date: Option<Option<DateTime>>)
    ensures StrAsWritten(name, date).Failure? <==> Truthy(name) && date.None?
  {
  }

  /** The row `{'Page': 'Foo'}` (no `Released`) yields a result whose `str` raises. */
  lemma StrRaisesWithoutRelease()
    ensures StrAsWritten(Get(map["Page" := "Foo"], "Page"),
                         DateAttribute(Get(map["Page" := "Foo"], "Released"), [])) == Failure(AttributeError("date"))
  {
  }

  /** `__str__` as evidently intended, with `date` always set. */
  function Str(name: Option<string>, date: Option<DateTime>): (s: string)
    ensures !Truthy(name) ==> s == "Unknown search result"
    ensures Truthy(name) && date.None? ==> s == name.value
    ensures Truthy(name) && date.Some? ==> s == name.value + " (" + IntToString(date.value.year) + ")"
  {
    if Truthy(name) then
      match date
      case None => name.value
      case Some(d) => name.value + " (" + IntToString(d.year) + ")"
    else "Unknown search result"
  }

  /** The corrected `str` never raises and agrees with the as-written one
      wherever that one does not raise. */
  lemma StrCorrects(name: Option<string>, released: Option<string>, dates: seq<DateTime>)
    ensures StrAsWritten(name, DateAttribute(released, dates)).Success? ==>
      StrAsWritten(name, DateAttribute(released, dates)).value
        == Str(name, if dates == [] then None else Some(dates[0]))
  {
  }

  /** A decoded search row. */
  class SearchResult {
    const name: Option<string>
    const id: Option<int>
    const steamIds: seq<int>
    const gogIds: seq<int>
    const dates: seq<DateTime>
    const date: Option<DateTime>

    /** What `SearchResult(j)` decodes from its row: the name and id, the
        Steam and GOG id lists, the release dates and the first of them. */
    predicate DecodedFrom(j: Row, py: Builtins) {
      && name == Get(j, "Page")
      && id == py.toInt(Get(j, "PageID").GetOr(""))
      && steamIds == DelimitedValues(j, "Steam AppID", ",", py.toInt)
      && gogIds == DelimitedValues(j, "GOGcom ID", ",", py.toInt)
      && dates == DelimitedValues(j, "Released", ";", py.fromIso)
      && date == if dates == [] then None else Some(dates[0])
    }

    /** `SearchResult(j)`, with `date` set in every case. */
    constructor (j: Row, py: Builtins)
      ensures DecodedFrom(j, py)
    {
      name := Get(j, "Page");
      id := py.toInt(Get(j, "PageID").GetOr(""));
      var steam, gog, released := [], [], [];
      var s := Get(j, "Steam AppID");
      if Truthy(s) {
        steam := ConvertPieces(Split(s.value, ","), py.toInt);
      }
      s := Get(j, "GOGcom ID");
      if Truthy(s) {
        gog := ConvertPieces(Split(s.value, ","), py.toInt);
      }
      s := Get(j, "Released");
      if Truthy(s) {
        released := ConvertPieces(Split(s.value, ";"), py.fromIso);
      }
      steamIds, gogIds, dates := steam, gog, released;
      date := if released == [] then None else Some(released[0]);
    }

    /** `str(result)`: the name with the first release year, the bare name,
        or `Unknown search result`. */
    function ToString(): (s: string)
      ensures s == Str(name, date)
    {
      Str(name, date)
    }
  }

  /** `_handle_search_response(response)`: one result per entry, an entry
      without `title` giving a result decoded from `{}`. */
  method HandleSearchResponse(response: Response, py: Builtins) returns (results: seq<SearchResult>)
    ensures |results| == |Entries(response)|
    ensures forall i :: 0 <= i < |results| ==>
      fresh(results[i]) && results[i].DecodedFrom(TitleOrEmpty(Entries(response)[i]), py)
  {
    var entries := Entries(response);
    results := [];
    var i := 0;
    while i < |entries|
      invariant 0 <= i <= |entries| && |results| == i
      invariant forall k :: 0 <= k < i ==>
        fresh(results[k]) && results[k].DecodedFrom(TitleOrEmpty(entries[k]), py)
    {
      var r := new SearchResult(TitleOrEmpty(entries[i]), py);
      results := results + [r];
      i := i + 1;
    }
  }
}
