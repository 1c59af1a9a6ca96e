/**
 * The schema generator: from the `cargofields` metadata of each listed table
 * it derives one field descriptor per retained field, the persisted catalog
 * (table name to query keys, in order) and the text of the generated
 * record classes.
 */
module UpdateFields {
  import opened Wrappers
  import opened Text
  import opened Cargo

  /** The metadata of one remote field: `type`, and optionally `isList` and `delimiter`. */
  type FieldMeta = map<string, string>

  /** The `cargofields` member of a metadata response, in response order;
      `None` when the response has no such member. */
  type FieldsResponse = Option<seq<(string, FieldMeta)>>

  /** A field descriptor (class `Field`). */
  datatype Field = Field(
    queryKey: string,        // the remote identifier, as queried
    key: string,             // the identifier with `_` replaced by a space, as returned
    name: string,            // the lowercased identifier: the attribute name
    pyType: string,          // the Python type written in the generated annotation
    postProcessing: string,  // the converter written in the generated call
    isList: bool,
    delimiter: Option<string>)

  /** Why a generation run stops: `j['type']` raised `KeyError`, or `k[0]` raised `IndexError`. */
  datatype GenError = MissingType(table: string, field: string) | EmptyFieldName(table: string)

  /** `FORCED_TYPES`: per table and spaced key, the forced (type, converter). */
  const ForcedTypes: map<string, map<string, (string, string)>> :=
    map["Multiplayer" := map[
      "Local players" := ("int", "int"),
      "LAN players" := ("int", "int"),
      "Online players" := ("int", "int")]]

  /** The declared-type to Python-type table; other declared types give `Any`. */
  const TypeNames: map<string, string> :=
    map["String" := "str", "URL" := "str", "Page" := "str", "File" := "str", "Wikitext" := "str",
        "Date" := "datetime.datetime"]

  /** The declared-type to converter table; other declared types give `str`. */
  const ConverterNames: map<string, string> := map["Date" := "datetime.datetime.fromisoformat"]

  /** Whether `FORCED_TYPES` has an entry for this table and spaced key. */
  predicate IsForced(table: string, key: string) {
    table in ForcedTypes && key in ForcedTypes[table]
  }

  /** `Field(key, meta, table)`; a metadata entry without `type` raises. */
  function NewField(key: string, meta: FieldMeta, table: string): Result<Field, GenError> {
    if "type" !in meta then Failure(MissingType(table, key))
    else
      var spaced := ReplaceChar(key, '_', ' ');
      var declared := meta["type"];
      var typing :=
        if IsForced(table, spaced) then ForcedTypes[table][spaced]
        else (Get(TypeNames, declared).GetOr("Any"), Get(ConverterNames, declared).GetOr("str"));
      Success(Field(key, spaced, Lower(key), typing.0, typing.1, "isList" in meta, Get(meta, "delimiter")))
  }

  /**
   * A descriptor keeps the query key, spaces it for the returned key and
   * lowercases it for the attribute name. Its type and converter follow the
   * declared type (the text types give `str`, `Date` gives a datetime parsed
   * with `fromisoformat`, anything else `Any` converted with `str`) unless
   * `FORCED_TYPES` has an entry for the table and spaced key, which then
   * decides both. `isList` is the presence of the flag, `delimiter` the
   * metadata's if any.
   */
  lemma NewFieldSpec(key: string, meta: FieldMeta, table: string)
    ensures NewField(key, meta, table).Success? <==> "type" in meta
    ensures NewField(key, meta, table).Failure? ==> NewField(key, meta, table).error == MissingType(table, key)
    ensures NewField(key, meta, table).Success? ==>
      var f := NewField(key, meta, table).value;
      && f.queryKey == key
      && f.key == ReplaceChar(key, '_', ' ')
      && f.name == Lower(key)
      && (f.isList <==> "isList" in meta)
      && f.delimiter == Get(meta, "delimiter")
      && (IsForced(table, f.key) ==> (f.pyType, f.postProcessing) == ForcedTypes[table][f.key])
      && (!IsForced(table, f.key) ==>
        && (f.pyType == "str" <==> meta["type"] in {"String", "URL", "Page", "File", "Wikitext"})
        && (f.pyType == "datetime.datetime" <==> meta["type"] == "Date")
        && (f.pyType == "Any" <==> meta["type"] !in {"String", "URL", "Page", "File", "Wikitext", "Date"})
        && f.postProcessing == (if meta["type"] == "Date" then "datetime.datetime.fromisoformat" else "str"))
  {
  }

  /** The local, LAN and online player counts of `Multiplayer` get the `int`
      type and converter, whatever their declared type. */
  lemma PlayerCountsAreInt(meta: FieldMeta)
    requires "type" in meta
    ensures NewField("Local_players", meta, "Multiplayer").value.pyType == "int"
    ensures NewField("Local_players", meta, "Multiplayer").value.postProcessing == "int"
    ensures NewField("LAN_players", meta, "Multiplayer").value.pyType == "int"
    ensures NewField("LAN_players", meta, "Multiplayer").value.postProcessing == "int"
    ensures NewField("Online_players", meta, "Multiplayer").value.pyType == "int"
    ensures NewField("Online_players", meta, "Multiplayer").value.postProcessing == "int"
  {
    assert ReplaceChar("Local_players", '_', ' ') == "Local players";
    assert ReplaceChar("LAN_players", '_', ' ') == "LAN players";
    assert ReplaceChar("Online_players", '_', ' ') == "Online players";
  }

  /** Whether a field name is kept: its first character is a letter (system fields start with `_`). */
  predicate Retained(k: string) {
    k != "" && IsAsciiAlpha(k[0])
  }

  /** The retained keys of a metadata list, in response order. */
  function RetainedKeys(items: seq<(string, FieldMeta)>): seq<string> {
    if items == [] then []
    else (if Retained(items[0].0) then [items[0].0] else []) + RetainedKeys(items[1..])
  }

  /** The query keys of a list of descriptors, in order. */
  function QueryKeys(fields: seq<Field>): (r: seq<string>)
    ensures |r| == |fields|
    ensures forall i :: 0 <= i < |fields| ==> r[i] == fields[i].queryKey
  {
    seq(|fields|, i requires 0 <= i < |fields| => fields[i].queryKey)
  }

  /** The comprehension of `get_table_fields` over a metadata list: the first
      field that raises stops it. */
  function FieldsFrom(table: string, items: seq<(string, FieldMeta)>): Result<seq<Field>, GenError> {
    if items == [] then Success([])
    else
      var k := items[0].0;
      if k == "" then Failure(EmptyFieldName(table))
      else if !IsAsciiAlpha(k[0]) then FieldsFrom(table, items[1..])
      else
        match NewField(k, items[0].1, table)
        case Failure(e) => Failure(e)
        case Success(f) =>
          match FieldsFrom(table, items[1..])
          case Failure(e) => Failure(e)
          case Success(fs) => Success([f] + fs)
  }

  /** `get_table_fields(table)` on the decoded metadata response (missing `cargofields` is `{}`). */
  function GetTableFields(table: string, response: FieldsResponse): Result<seq<Field>, GenError> {
    FieldsFrom(table, response.GetOr([]))
  }

  /** The descriptors keep exactly the fields whose name starts with a letter, in response order,
      each built from its own metadata. */
  lemma {:induction false} FieldsFromKeys(table: string, items: seq<(string, FieldMeta)>)
    requires FieldsFrom(table, items).Success?
    ensures QueryKeys(FieldsFrom(table, items).value) == RetainedKeys(items)
    ensures forall f :: f in FieldsFrom(table, items).value ==>
      exists i :: 0 <= i < |items| && Retained(items[i].0) && NewField(items[i].0, items[i].1, table) == Success(f)
  {
    if items != [] {
      FieldsFromKeys(table, items[1..]);
      var fs := FieldsFrom(table, items).value;
      forall f | f in fs ensures
        exists i :: 0 <= i < |items| && Retained(items[i].0) && NewField(items[i].0, items[i].1, table) == Success(f)
      {
        if Retained(items[0].0) && f == fs[0] {
          assert NewField(items[0].0, items[0].1, table) == Success(f);
        } else {
          assert f in FieldsFrom(table, items[1..]).value;
          var i :| 0 <= i < |items[1..]| && Retained(items[1..][i].0)
            && NewField(items[1..][i].0, items[1..][i].1, table) == Success(f);
          assert items[1..][i] == items[i + 1];
        }
      }
    }
  }

  /** Reading the metadata fails exactly when some field name is empty or some
      retained field has no declared type. */
  lemma {:induction false} FieldsFromFails(table: string, items: seq<(string, FieldMeta)>)
    ensures FieldsFrom(table, items).Failure? <==>
      exists i :: 0 <= i < |items| && (items[i].0 == "" || (Retained(items[i].0) && "type" !in items[i].1))
  {
    if items != [] {
      FieldsFromFails(table, items[1..]);
      if exists i :: 0 <= i < |items[1..]| && (items[1..][i].0 == "" || (Retained(items[1..][i].0) && "type" !in items[1..][i].1)) {
        var i :| 0 <= i < |items[1..]| && (items[1..][i].0 == "" || (Retained(items[1..][i].0) && "type" !in items[1..][i].1));
        assert items[1..][i] == items[i + 1];
      }
      if exists i :: 0 <= i < |items| && (items[i].0 == "" || (Retained(items[i].0) && "type" !in items[i].1)) {
        var i :| 0 <= i < |items| && (items[i].0 == "" || (Retained(items[i].0) && "type" !in items[i].1));
        if i > 0 {
          assert items[1..][i - 1] == items[i];
        }
      }
    }
  }

  /** Which reader a generated line calls. */
  datatype Accessor = ParseListCall | RawGet | ParseValueCall

  /** List fields use `parse_list`; other `str` fields take the raw value with
      `j.get`; all others use `parse_value`. */
  function AccessorOf(f: Field): (r: Accessor)
    ensures r == ParseListCall <==> f.isList
    ensures r == RawGet <==> !f.isList && f.pyType == "str"
    ensures r == ParseValueCall <==> !f.isList && f.pyType != "str"
  {
    if f.isList then ParseListCall
    else if f.pyType == "str" then RawGet
    else ParseValueCall
  }

  /** The eight-space indentation of a generated attribute line. */
  const Indent: string := "        "

  /** The annotation of a generated attribute: `list[T]` for a list field, `T|None` otherwise. */
  function Annotation(f: Field): string {
    if f.isList then "list[" + f.pyType + "]" else f.pyType + "|None"
  }

  /** The annotation ends in `|None` exactly when the field is not a list. */
  lemma AnnotationOptional(f: Field)
    ensures EndsWith(Annotation(f), "|None") <==> !f.isList
    ensures f.isList ==> StartsWith(Annotation(f), "list[" + f.pyType)
    ensures !f.isList ==> StartsWith(Annotation(f), f.pyType)
  {
    var a := Annotation(f);
    assert a[|a| - 1] == if f.isList then ']' else 'e';
    if f.isList {
      assert a[..|"list[" + f.pyType|] == "list[" + f.pyType;
    } else {
      assert a[..|f.pyType|] == f.pyType;
    }
  }

  /** How a reader call opens, up to the quote before the field's key. */
  function Opening(a: Accessor): string {
    match a
    case ParseListCall => "parse_list(j, \""
    case RawGet => "j.get(\""
    case ParseValueCall => "parse_value(j, \""
  }

  /** What a reader call passes after the field's key: the quoted delimiter
      (`None` when the metadata has none) and the converter for a list, the
      converter for `parse_value`, nothing for `j.get`. */
  function CallTail(f: Field): string {
    match AccessorOf(f)
    case ParseListCall => "\", \"" + f.delimiter.GetOr("None") + "\", " + f.postProcessing + ")"
    case RawGet => "\")"
    case ParseValueCall => "\", " + f.postProcessing + ")"
  }

  /** The reader call of a generated attribute. */
  function Call(f: Field): string {
    Opening(AccessorOf(f)) + f.key + CallTail(f)
  }

  /**
   * The call's opening names the reader `AccessorOf` chooses, and no other
   * reader; the field's spaced key follows in quotes; a list call then passes
   * the delimiter and the converter, a `parse_value` call the converter.
   */
  lemma CallNamesReader(f: Field)
    ensures StartsWith(Call(f), Opening(AccessorOf(f)) + f.key + "\"")
    ensures StartsWith(Call(f), "parse_list(") <==> f.isList
    ensures StartsWith(Call(f), "j.get(") <==> !f.isList && f.pyType == "str"
    ensures StartsWith(Call(f), "parse_value(") <==> !f.isList && f.pyType != "str"
    ensures f.isList ==>
      EndsWith(Call(f), "\", \"" + f.delimiter.GetOr("None") + "\", " + f.postProcessing + ")")
    ensures !f.isList && f.pyType != "str" ==> EndsWith(Call(f), "\", " + f.postProcessing + ")")
    ensures !f.isList && f.pyType == "str" ==> EndsWith(Call(f), f.key + "\")")
  {
    var open := Opening(AccessorOf(f));
    var c := Call(f);
    var tail := CallTail(f);
    assert c == open + f.key + tail;
    assert c[..|open + f.key + "\""|] == open + f.key + "\"";
    assert c[..|open|] == open;
    assert c[|c| - |tail|..] == tail;
    assert c[0] == if AccessorOf(f) == RawGet then 'j' else 'p';
    assert AccessorOf(f) != RawGet ==> c[6] == if AccessorOf(f) == ParseListCall then 'l' else 'v';
    if AccessorOf(f) == RawGet {
      assert c[|c| - |f.key + "\")"|..] == f.key + "\")";
    }
  }

  /** The generated `self.<name>: <annotation> = <call>` line of one field. */
  function Line(f: Field): (r: string)
    ensures StartsWith(r, Indent + "self." + f.name + ": " + Annotation(f) + " = ")
    ensures EndsWith(r, Call(f) + "\n")
    ensures |r| == |Indent + "self." + f.name + ": " + Annotation(f) + " = "| + |Call(f)| + 1
  {
    var head := Indent + "self." + f.name + ": " + Annotation(f) + " = ";
    var r := head + Call(f) + "\n";
    assert r[..|head|] == head;
    assert r[|r| - |Call(f) + "\n"|..] == Call(f) + "\n";
    r
  }

  /** The lines of a list of fields, in order. */
  function Lines(fields: seq<Field>): string {
    if fields == [] then "" else Lines(fields[..|fields| - 1]) + Line(fields[|fields| - 1])
  }

  /** The lines of one more field. */
  lemma LinesStep(fields: seq<Field>, k: nat)
    requires k < |fields|
    ensures Lines(fields[..k + 1]) == Lines(fields[..k]) + Line(fields[k])
  {
    assert fields[..k + 1][..k] == fields[..k];
  }

  /** The text before the first generated class. */
  const Preamble: string := "\nimport datetime\nfrom typing import Any\n\nfrom utils import parse_list, parse_value\n"

  /** The header of the class generated for `table`. */
  function ClassHeader(table: string): string {
    "\nclass " + table + ":\n    def __init__(self, j):\n"
  }

  /** `j[table] = keys` on the catalog dict: a new table is appended, an existing one keeps its place. */
  function CatalogPut(c: Catalog, table: string, keys: seq<string>): Catalog {
    if c == [] then [TableEntry(table, keys)]
    else if c[0].name == table then [TableEntry(table, keys)] + c[1..]
    else [c[0]] + CatalogPut(c[1..], table, keys)
  }

  /** After `j[table] = keys`, `table` reads back as `keys`, every other table
      reads back as before, and the table names gain `table` and nothing else. */
  lemma {:induction false} CatalogPutLookup(c: Catalog, table: string, keys: seq<string>)
    ensures Lookup(CatalogPut(c, table, keys), table) == Some(keys)
    ensures forall t :: t != table ==> Lookup(CatalogPut(c, table, keys), t) == Lookup(c, t)
    ensures forall t :: t in TableNames(CatalogPut(c, table, keys)) <==> t in TableNames(c) || t == table
  {
    if c != [] {
      TableNamesCons(c[0], c[1..]);
      assert c == [c[0]] + c[1..];
      if c[0].name == table {
        TableNamesCons(TableEntry(table, keys), c[1..]);
      } else {
        CatalogPutLookup(c[1..], table, keys);
        TableNamesCons(c[0], CatalogPut(c[1..], table, keys));
      }
    }
  }

  /** `j[table] = keys` for a table not yet in the catalog appends it at the end. */
  lemma {:induction false} CatalogPutAppends(c: Catalog, table: string, keys: seq<string>)
    requires table !in TableNames(c)
    ensures TableNames(CatalogPut(c, table, keys)) == TableNames(c) + [table]
  {
    if c != [] {
      TableNamesCons(c[0], c[1..]);
      assert c == [c[0]] + c[1..];
      CatalogPutAppends(c[1..], table, keys);
      TableNamesCons(c[0], CatalogPut(c[1..], table, keys));
    }
  }

  /** The tables the generator runs over, in order. */
  const CuratedTables: seq<string> :=
    ["API", "Audio", "Availability", "Cloud", "Infobox_game", "Infobox_game_engine", "Input",
     "L10n", "Middleware", "Multiplayer", "Tags", "VR_support", "Video", "XDG"]

  /** What a successful run produces: the catalog and the generated source text. */
  datatype Generated = Generated(catalog: Catalog, text: string)

  /** The field lists the generator works from: `get_table_fields` per table. */
  type Fetch = string -> Result<seq<Field>, GenError>

  /** `get_table_fields` against a metadata service answering `schema(table)`. */
  function FetchFrom(schema: string -> FieldsResponse): Fetch {
    t => GetTableFields(t, schema(t))
  }

  /** The outcome of running the generator over `tables`, table by table. */
  function Generation(tables: seq<string>, fetch: Fetch): Result<Generated, GenError> {
    if tables == [] then Success(Generated([], Preamble))
    else
      var last := tables[|tables| - 1];
      match Generation(tables[..|tables| - 1], fetch)
      case Failure(e) => Failure(e)
      case Success(g) =>
        match fetch(last)
        case Failure(e) => Failure(e)
        case Success(fields) =>
          Success(Generated(CatalogPut(g.catalog, last, QueryKeys(fields)),
                            g.text + ClassHeader(last) + Lines(fields)))
  }

  /**
   * The generator's top-level loop over the curated table list. `schema`
   * stands for the metadata service. A table whose metadata cannot be read
   * aborts the run.
   */
  method Generate(tables: seq<string>, schema: string -> FieldsResponse) returns (r: Result<Generated, GenError>)
    ensures r == Generation(tables, FetchFrom(schema))
  {
    ghost var fetch := FetchFrom(schema);
    var catalog: Catalog := [];
    var text := Preamble;
    var i := 0;
    while i < |tables|
      invariant 0 <= i <= |tables|
      invariant Generation(tables[..i], fetch) == Success(Generated(catalog, text))
    {
      var table := tables[i];
      ghost var prefix := tables[..i + 1];
      assert prefix[..i] == tables[..i] && prefix[i] == table;
      var fetched := GetTableFields(table, schema(table));
      assert fetched == fetch(table);
      if fetched.Failure? {
        GenerationStops(tables, i + 1, fetch);
        return Failure(fetched.error);
      }
      var fields := fetched.value;
      catalog := CatalogPut(catalog, table, QueryKeys(fields));
      text := AppendClass(text, table, fields);
      i := i + 1;
    }
    assert tables[..i] == tables;
    r := Success(Generated(catalog, text));
  }

  /** The inner loop: the class header of `table`, then one line per field. */
  method AppendClass(text: string, table: string, fields: seq<Field>) returns (r: string)
    ensures r == text + ClassHeader(table) + Lines(fields)
  {
    var start := text + ClassHeader(table);
    r := start;
    var k := 0;
    assert fields[..0] == [];
    while k < |fields|
      invariant 0 <= k <= |fields|
      invariant r == start + Lines(fields[..k])
    {
      var line := Line(fields[k]);
      LinesStep(fields, k);
      AppendAssoc(start, Lines(fields[..k]), line);
      r := r + line;
      k := k + 1;
    }
    assert fields[..k] == fields;
  }

  /** String concatenation is associative. */
  lemma AppendAssoc(a: string, b: string, c: string)
    ensures (a + b) + c == a + (b + c)
  {
  }

  /** Once a prefix fails, the whole run fails with the same error. */
  lemma {:induction false} GenerationStops(tables: seq<string>, n: nat, fetch: Fetch)
    requires n <= |tables| && Generation(tables[..n], fetch).Failure?
    ensures Generation(tables, fetch) == Generation(tables[..n], fetch)
    decreases |tables| - n
  {
    if n < |tables| {
      var longer := tables[..n + 1];
      assert longer[..n] == tables[..n];
      GenerationStops(tables, n + 1, fetch);
    } else {
      assert tables[..n] == tables;
    }
  }

  /** A run succeeds exactly when every table's fields can be read. */
  lemma {:induction false} GenerationSucceeds(tables: seq<string>, fetch: Fetch)
    ensures Generation(tables, fetch).Success? <==> forall i :: 0 <= i < |tables| ==> fetch(tables[i]).Success?
  {
    if tables != [] {
      var init := tables[..|tables| - 1];
      GenerationSucceeds(init, fetch);
      assert forall i :: 0 <= i < |init| ==> init[i] == tables[i];
    }
  }

  /**
   * The persisted catalog lists each generated table once, and reading a
   * table back from it yields exactly the query keys of its fields, in order.
   */
  lemma {:induction false} CatalogRoundTrip(tables: seq<string>, fetch: Fetch, t: string)
    requires Generation(tables, fetch).Success?
    ensures t in TableNames(Generation(tables, fetch).value.catalog) <==> t in tables
    ensures t in tables ==>
      && fetch(t).Success?
      && Lookup(Generation(tables, fetch).value.catalog, t) == Some(QueryKeys(fetch(t).value))
  {
    if tables != [] {
      var init := tables[..|tables| - 1];
      var last := tables[|tables| - 1];
      assert tables == init + [last];
      CatalogRoundTrip(init, fetch, t);
      var g := Generation(init, fetch).value;
      var fields := fetch(last).value;
      CatalogPutLookup(g.catalog, last, QueryKeys(fields));
    }
  }

  /** Over distinct tables the catalog lists the tables in the order they were generated. */
  lemma {:induction false} CatalogOrder(tables: seq<string>, fetch: Fetch)
    requires forall i, k :: 0 <= i < k < |tables| ==> tables[i] != tables[k]
    requires Generation(tables, fetch).Success?
    ensures TableNames(Generation(tables, fetch).value.catalog) == tables
  {
    if tables != [] {
      var n := |tables| - 1;
      var init := tables[..n];
      CatalogOrder(init, fetch);
      var g := Generation(init, fetch).value;
      assert tables[n] !in init;
      CatalogPutAppends(g.catalog, tables[n], QueryKeys(fetch(tables[n]).value));
      assert init + [tables[n]] == tables;
    }
  }

  /** Against the metadata service, the keys read back for a generated table
      are the retained field names of its metadata, in response order. */
  lemma PersistedKeysAreRetained(tables: seq<string>, schema: string -> FieldsResponse, t: string)
    requires Generation(tables, FetchFrom(schema)).Success? && t in tables
    ensures Lookup(Generation(tables, FetchFrom(schema)).value.catalog, t) == Some(RetainedKeys(schema(t).GetOr([])))
  {
    CatalogRoundTrip(tables, FetchFrom(schema), t);
    FieldsFromKeys(t, schema(t).GetOr([]));
  }
}
