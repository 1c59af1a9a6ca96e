/**
 * The catalog-driven client: the game entity, and the client that turns the
 * catalog into the joined tables, join clauses and field list of every
 * request, builds the search, lookup, batch-lookup, association and
 * distinct-value requests, and maps response rows back to games.
 */
module PcgwClient {
  import opened Wrappers
  import opened Text
  import opened Cargo

  /** The primary table every other table is joined to. */
  const PrimaryTable: string := "Infobox_game"

  /** The many-valued tables, fetched on demand and never joined eagerly. */
  const AssociationTables: set<string> := {"L10n", "Infobox_game_engine"}

  // ----- Catalog to request lists -----

  /** The catalog without the association tables (the dict comprehension of `__init__`). */
  function EagerTables(c: Catalog): Catalog {
    if c == [] then []
    else (if c[0].name in AssociationTables then [] else [c[0]]) + EagerTables(c[1..])
  }

  /** The filter keeps catalog order: it distributes over concatenation. */
  lemma {:induction false} EagerTablesConcat(c1: Catalog, c2: Catalog)
    ensures EagerTables(c1 + c2) == EagerTables(c1) + EagerTables(c2)
  {
    if c1 == [] {
      assert c1 + c2 == c2;
    } else {
      assert (c1 + c2)[1..] == c1[1..] + c2;
      EagerTablesConcat(c1[1..], c2);
    }
  }

  /** The eagerly joined tables are exactly the catalog's other tables. */
  lemma {:induction false} EagerTablesMembers(c: Catalog, e: TableEntry)
    ensures e in EagerTables(c) <==> e in c && e.name !in AssociationTables
  {
    if c != [] {
      EagerTablesMembers(c[1..], e);
      assert e in c <==> e == c[0] || e in c[1..];
    }
  }

  /** The join clause of one table. */
  function JoinClause(table: string): string {
    "Infobox_game._pageID=" + table + "._pageID"
  }

  /** One join clause per table other than the primary table, in order. */
  function JoinClauses(c: Catalog): seq<string> {
    if c == [] then []
    else (if c[0].name == PrimaryTable then [] else [JoinClause(c[0].name)]) + JoinClauses(c[1..])
  }

  /** A clause is joined exactly when its table is listed and is not the primary table. */
  lemma {:induction false} JoinClausesMembers(c: Catalog, x: string)
    ensures x in JoinClauses(c) <==>
      exists i :: 0 <= i < |c| && c[i].name != PrimaryTable && x == JoinClause(c[i].name)
  {
    if c != [] {
      JoinClausesMembers(c[1..], x);
      if exists i :: 0 <= i < |c| && c[i].name != PrimaryTable && x == JoinClause(c[i].name) {
        var i :| 0 <= i < |c| && c[i].name != PrimaryTable && x == JoinClause(c[i].name);
        if i > 0 {
          assert c[1..][i - 1] == c[i];
        }
      }
      if exists i :: 0 <= i < |c[1..]| && c[1..][i].name != PrimaryTable && x == JoinClause(c[1..][i].name) {
        var i :| 0 <= i < |c[1..]| && c[1..][i].name != PrimaryTable && x == JoinClause(c[1..][i].name);
        assert c[i + 1] == c[1..][i];
      }
    }
  }

  /** Table names that occur once each. */
  ghost predicate DistinctNames(c: Catalog) {
    forall i, k :: 0 <= i < k < |c| ==> c[i].name != c[k].name
  }

  /** With distinct table names there is exactly one join clause per table
      other than the primary table. */
  lemma {:induction false} JoinClausesCount(c: Catalog)
    requires DistinctNames(c)
    ensures |JoinClauses(c)| == |c| - (if PrimaryTable in TableNames(c) then 1 else 0)
  {
    if c != [] {
      JoinClausesCount(c[1..]);
      TableNamesCons(c[0], c[1..]);
      assert c == [c[0]] + c[1..];
      if c[0].name == PrimaryTable {
        assert PrimaryTable !in TableNames(c[1..]);
      }
    }
  }

  /** The fixed first element of the field list. It already ends in a comma. */
  const FieldsPrefix: string := "Infobox_game._pageName=Page,Infobox_game._pageID=PageID,"

  /** `table.field` for each field of one table, in order. */
  function Qualify(table: string, fields: seq<string>): (r: seq<string>)
    ensures |r| == |fields|
    ensures forall k :: 0 <= k < |fields| ==> r[k] == table + "." + fields[k]
  {
    seq(|fields|, k requires 0 <= k < |fields| => table + "." + fields[k])
  }

  /** `table.field` for every table and field of a catalog, in catalog order. */
  function QualifiedFields(c: Catalog): seq<string> {
    if c == [] then [] else Qualify(c[0].name, c[0].fields) + QualifiedFields(c[1..])
  }

  /** Qualifying a longer catalog appends the new tables' fields. */
  lemma {:induction false} QualifiedFieldsConcat(c1: Catalog, c2: Catalog)
    ensures QualifiedFields(c1 + c2) == QualifiedFields(c1) + QualifiedFields(c2)
  {
    if c1 == [] {
      assert c1 + c2 == c2;
    } else {
      assert (c1 + c2)[1..] == c1[1..] + c2;
      QualifiedFieldsConcat(c1[1..], c2);
    }
  }

  /** Every qualified field names a field of a table of the catalog, and conversely. */
  lemma {:induction false} QualifiedFieldsMembers(c: Catalog, x: string)
    ensures x in QualifiedFields(c) <==>
      exists i, k :: 0 <= i < |c| && 0 <= k < |c[i].fields| && x == c[i].name + "." + c[i].fields[k]
  {
    if c != [] {
      QualifiedFieldsMembers(c[1..], x);
      var head := Qualify(c[0].name, c[0].fields);
      assert x in QualifiedFields(c) <==> x in head || x in QualifiedFields(c[1..]);
      if exists i, k :: 0 <= i < |c| && 0 <= k < |c[i].fields| && x == c[i].name + "." + c[i].fields[k] {
        var i, k :| 0 <= i < |c| && 0 <= k < |c[i].fields| && x == c[i].name + "." + c[i].fields[k];
        if i == 0 {
          assert head[k] == x;
        } else {
          assert c[1..][i - 1] == c[i];
        }
      }
      if x in head {
        var k :| 0 <= k < |head| && head[k] == x;
        assert x == c[0].name + "." + c[0].fields[k];
      }
      if exists i, k :: 0 <= i < |c[1..]| && 0 <= k < |c[1..][i].fields| && x == c[1..][i].name + "." + c[1..][i].fields[k] {
        var i, k :| 0 <= i < |c[1..]| && 0 <= k < |c[1..][i].fields| && x == c[1..][i].name + "." + c[1..][i].fields[k];
        assert c[i + 1] == c[1..][i];
      }
    }
  }

  /**
   * Because the prefix element already ends in a comma, the joined field list
   * is the same as joining the two aliased fields, an empty field and then
   * the qualified fields: the request carries `PageID,,`.
   */
  lemma FieldsHaveEmptyEntry(qualified: seq<string>)
    ensures Join([FieldsPrefix] + qualified, ",")
         == Join(["Infobox_game._pageName=Page", "Infobox_game._pageID=PageID", ""] + qualified, ",")
  {
    var a, b := "Infobox_game._pageName=Page", "Infobox_game._pageID=PageID";
    var l := [a, b, ""] + qualified;
    assert l[1..] == [b, ""] + qualified;
    assert l[1..][1..] == [""] + qualified;
    assert ([""] + qualified)[1..] == qualified;
    assert ([FieldsPrefix] + qualified)[1..] == qualified;
    assert FieldsPrefix == a + "," + b + ",";
    var rest := if qualified == [] then "" else "," + Join(qualified, ",");
    assert Join([""] + qualified, ",") == rest;
    assert Join(l[1..], ",") == b + "," + rest;
    assert Join(l, ",") == a + "," + (b + "," + rest);
    assert Join([FieldsPrefix] + qualified, ",") == FieldsPrefix + rest;
  }

  // ----- Where clauses -----

  /** The substring search clause. */
  function SearchWhere(query: string): string {
    "Infobox_game._pageName LIKE \"%" + query + "%\""
  }

  function IdClause(id: int): string { "Infobox_game._pageID=\"" + IntToString(id) + "\"" }
  function NameClause(name: string): string { "Infobox_game._pageName=\"" + name + "\"" }
  function GogClause(id: int): string { "Infobox_game.GOGcom_ID = \"" + IntToString(id) + "\"" }
  function SteamClause(id: int): string { "Infobox_game.Steam_AppID HOLDS \"" + IntToString(id) + "\"" }

  /** Python truthiness of an optional int: present and non-zero. */
  predicate TruthyInt(v: Option<int>) {
    v.Some? && v.value != 0
  }

  /**
   * The clause of a single lookup: `None` (no query) when no criterion is
   * truthy, otherwise the clause of the first truthy criterion in the order
   * page id, page name, GOG id, Steam id.
   */
  function GameWhere(pageId: Option<int>, pageName: Option<string>, gogId: Option<int>, steamId: Option<int>)
    : (r: Option<string>)
    ensures r.None? <==> !TruthyInt(pageId) && !Truthy(pageName) && !TruthyInt(gogId) && !TruthyInt(steamId)
    ensures TruthyInt(pageId) ==> r == Some(IdClause(pageId.value))
    ensures !TruthyInt(pageId) && Truthy(pageName) ==> r == Some(NameClause(pageName.value))
    ensures !TruthyInt(pageId) && !Truthy(pageName) && TruthyInt(gogId) ==> r == Some(GogClause(gogId.value))
    ensures !TruthyInt(pageId) && !Truthy(pageName) && !TruthyInt(gogId) && TruthyInt(steamId) ==>
      r == Some(SteamClause(steamId.value))
  {
    if !TruthyInt(pageId) && !Truthy(pageName) && !TruthyInt(gogId) && !TruthyInt(steamId) then None
    else if TruthyInt(pageId) then Some(IdClause(pageId.value))
    else if Truthy(pageName) then Some(NameClause(pageName.value))
    else if TruthyInt(gogId) then Some(GogClause(gogId.value))
    else Some(SteamClause(steamId.value))
  }

  /** `page_id=42` selects exactly the clause `Infobox_game._pageID="42"`,
      whatever else is given. */
  lemma LookupByPageId42(pageName: Option<string>, gogId: Option<int>, steamId: Option<int>)
    ensures GameWhere(Some(42), pageName, gogId, steamId) == Some("Infobox_game._pageID=\"42\"")
  {
    assert NatToString(4) == "4";
    assert NatToString(42) == NatToString(4) + "2";
    assert IntToString(42) == "42";
    assert IdClause(42) == "Infobox_game._pageID=\"" + "42" + "\"";
    assert "Infobox_game._pageID=\"" + "42" + "\"" == "Infobox_game._pageID=\"42\"";
  }

  /** The batch clause: the name clauses, then the id clauses, joined by `OR`. */
  function GamesWhere(pageIds: seq<int>, pageNames: seq<string>): string {
    Join(seq(|pageNames|, i requires 0 <= i < |pageNames| => NameClause(pageNames[i]))
         + seq(|pageIds|, i requires 0 <= i < |pageIds| => IdClause(pageIds[i])), " OR ")
  }

  /** The batch clause is empty, so the batch query unconstrained, exactly when
      neither ids nor names are given. */
  lemma GamesWhereEmpty(pageIds: seq<int>, pageNames: seq<string>)
    ensures GamesWhere(pageIds, pageNames) == "" <==> pageIds == [] && pageNames == []
  {
    var parts := seq(|pageNames|, i requires 0 <= i < |pageNames| => NameClause(pageNames[i]))
                 + seq(|pageIds|, i requires 0 <= i < |pageIds| => IdClause(pageIds[i]));
    forall i | 0 <= i < |parts| ensures parts[i] != "" {
      assert |parts[i]| > 0;
    }
    JoinEmpty(parts, " OR ");
  }

  // ----- Response rows -----

  /** The titles of the entries that have one, in order (`[j['title'] for j in ... if 'title' in j]`). */
  function TitledRows(entries: seq<Entry>): seq<Row> {
    if entries == [] then []
    else (if entries[0].title.Some? then [entries[0].title.value] else []) + TitledRows(entries[1..])
  }

  /** The first titled row is the title of the first entry that has one. */
  lemma {:induction false} TitledRowsFirst(entries: seq<Entry>)
    ensures TitledRows(entries) == [] <==> forall i :: 0 <= i < |entries| ==> entries[i].title.None?
    ensures TitledRows(entries) != [] ==>
      exists i :: 0 <= i < |entries| && entries[i].title == Some(TitledRows(entries)[0])
        && forall k :: 0 <= k < i ==> entries[k].title.None?
  {
    if entries != [] {
      TitledRowsFirst(entries[1..]);
      if entries[0].title.None? {
        assert forall i :: 0 < i < |entries| ==> entries[i] == entries[1..][i - 1];
        if TitledRows(entries) != [] {
          var i :| 0 <= i < |entries[1..]| && entries[1..][i].title == Some(TitledRows(entries)[0])
            && forall k :: 0 <= k < i ==> entries[1..][k].title.None?;
          assert entries[i + 1] == entries[1..][i];
          forall k | 0 <= k < i + 1 ensures entries[k].title.None? {
            if k > 0 { assert entries[k] == entries[1..][k - 1]; }
          }
        }
      }
    }
  }

  /** A record of the generated class for `table`, built from the row `source`. */
  datatype Record = Record(table: string, source: Row)

  /** The tables a game has one record of, in the order `Game.__init__` builds them. */
  const SubRecordTables: seq<string> :=
    ["API", "Audio", "Availability", "Cloud", "Infobox_game", "Input",
     "Middleware", "Multiplayer", "Tags", "VR_support", "Video", "XDG"]

  /** `j.get('Page')`. */
  function GameName(j: Row): Option<string> {
    Get(j, "Page")
  }

  /** `int(j.get('PageID', '') or '')`, `None` when `int` raises. */
  function GameId(j: Row, toInt: string -> Option<int>): Option<int> {
    toInt(Get(j, "PageID").GetOr(""))
  }

  /** A game's id is `int(PageID)`, and absent when `PageID` is missing or blank. */
  lemma GameIdSpec(j: Row, py: Builtins)
    requires py.Valid()
    ensures !Truthy(Get(j, "PageID")) ==> GameId(j, py.toInt) == None
    ensures Truthy(Get(j, "PageID")) && IsBlank(j["PageID"]) ==> GameId(j, py.toInt) == None
    ensures Truthy(Get(j, "PageID")) ==> GameId(j, py.toInt) == py.toInt(j["PageID"])
  {
    assert IsBlank("");
  }

  /** How a batch result is keyed: by id when its id was asked for, else by name
      when its name was, else it is left out. */
  datatype GameKey = IdKey(id: int) | NameKey(name: string)

  function KeyFor(row: Row, pageIds: seq<int>, pageNames: seq<string>, toInt: string -> Option<int>)
    : (r: Option<GameKey>)
    ensures forall id :: r == Some(IdKey(id)) <==> GameId(row, toInt) == Some(id) && id in pageIds
    ensures forall n :: r == Some(NameKey(n)) <==>
      !(GameId(row, toInt).Some? && GameId(row, toInt).value in pageIds) && GameName(row) == Some(n) && n in pageNames
  {
    var id := GameId(row, toInt);
    var name := GameName(row);
    if id.Some? && id.value in pageIds then Some(IdKey(id.value))
    else if name.Some? && name.value in pageNames then Some(NameKey(name.value))
    else None
  }

  /** The batch result over the rows, as the loop fills the dict: later rows overwrite earlier ones. */
  function MappedRows(rows: seq<Row>, pageIds: seq<int>, pageNames: seq<string>, toInt: string -> Option<int>)
    : map<GameKey, Row>
  {
    if rows == [] then map[]
    else
      var m := MappedRows(rows[..|rows| - 1], pageIds, pageNames, toInt);
      match KeyFor(rows[|rows| - 1], pageIds, pageNames, toInt)
      case Some(k) => m[k := rows[|rows| - 1]]
      case None => m
  }

  /**
   * A key is in the batch result exactly when some row is keyed by it, and it
   * maps to the last such row.
   */
  lemma {:induction false} MappedRowsSpec(rows: seq<Row>, pageIds: seq<int>, pageNames: seq<string>,
                                          toInt: string -> Option<int>, k: GameKey)
    ensures k in MappedRows(rows, pageIds, pageNames, toInt) <==>
      exists i :: 0 <= i < |rows| && KeyFor(rows[i], pageIds, pageNames, toInt) == Some(k)
    ensures k in MappedRows(rows, pageIds, pageNames, toInt) ==>
      exists i :: 0 <= i < |rows| && KeyFor(rows[i], pageIds, pageNames, toInt) == Some(k)
        && MappedRows(rows, pageIds, pageNames, toInt)[k] == rows[i]
        && forall l :: i < l < |rows| ==> KeyFor(rows[l], pageIds, pageNames, toInt) != Some(k)
  {
    if rows != [] {
      var init := rows[..|rows| - 1];
      var n := |rows| - 1;
      MappedRowsSpec(init, pageIds, pageNames, toInt, k);
      assert forall i :: 0 <= i < n ==> init[i] == rows[i];
      if KeyFor(rows[n], pageIds, pageNames, toInt) != Some(k) {
        if exists i :: 0 <= i < |rows| && KeyFor(rows[i], pageIds, pageNames, toInt) == Some(k) {
          var i :| 0 <= i < |rows| && KeyFor(rows[i], pageIds, pageNames, toInt) == Some(k);
          assert i < n && KeyFor(init[i], pageIds, pageNames, toInt) == Some(k);
        }
      }
    }
  }

  /** Asking for ids 1 and 2 and the name `Foo`, rows whose ids are 1 and 2 and
      a row named `Foo` that has neither id come back keyed by 1, 2 and `Foo`. */
  lemma BatchKeysExample(rows: seq<Row>, toInt: string -> Option<int>, a: nat, b: nat, c: nat)
    requires a < |rows| && b < |rows| && c < |rows|
    requires GameId(rows[a], toInt) == Some(1) && GameId(rows[b], toInt) == Some(2)
    requires GameName(rows[c]) == Some("Foo") && GameId(rows[c], toInt) !in {Some(1), Some(2)}
    ensures MappedRows(rows, [1, 2], ["Foo"], toInt).Keys >= {IdKey(1), IdKey(2), NameKey("Foo")}
  {
    MappedRowsSpec(rows, [1, 2], ["Foo"], toInt, IdKey(1));
    MappedRowsSpec(rows, [1, 2], ["Foo"], toInt, IdKey(2));
    MappedRowsSpec(rows, [1, 2], ["Foo"], toInt, NameKey("Foo"));
  }

  // ----- Association requests -----

  /** An f-string substitution of an optional string: `None` prints as `None`. */
  function FormatOptional(s: Option<string>): string {
    s.GetOr("None")
  }

  /**
   * The association fetch for one game: the primary table joined with `table`
   * on the page id, restricted to the game's page name, selecting the
   * catalog's fields of `table` (none when the catalog does not list it).
   */
  function AssociationRequest(name: Option<string>, table: string, tablesInfo: Catalog): (p: Params)
    ensures p.Keys == {"action", "where", "tables", "join_on", "fields", "format"}
    ensures p["action"] == "cargoquery" && p["format"] == "json"
    ensures p["where"] == NameClause(FormatOptional(name))
    ensures p["tables"] == PrimaryTable + "," + table && p["join_on"] == JoinClause(table)
    ensures Lookup(tablesInfo, table).None? ==> p["fields"] == ""
    ensures Lookup(tablesInfo, table).Some? ==> p["fields"] == Join(Qualify(table, Lookup(tablesInfo, table).value), ",")
  {
    map["action" := "cargoquery",
        "where" := NameClause(FormatOptional(name)),
        "tables" := PrimaryTable + "," + table,
        "join_on" := JoinClause(table),
        "fields" := Join(Qualify(table, Lookup(tablesInfo, table).GetOr([])), ","),
        "format" := "json"]
  }

  /** The association rows of a response: one record per entry, an entry
      without `title` giving a record built from `{}`. */
  function AssociationRecords(table: string, response: Response): (r: seq<Record>)
    ensures |r| == |Entries(response)|
    ensures forall i :: 0 <= i < |r| ==> r[i] == Record(table, TitleOrEmpty(Entries(response)[i]))
  {
    var entries := Entries(response);
    seq(|entries|, i requires 0 <= i < |entries| => Record(table, TitleOrEmpty(entries[i])))
  }

  /** A game: the decoded row, its id and name, one record per joined table and
      the association lists, which start empty and are fetched on demand. */
  class Game {
    const jsonData: Row
    const apiClient: PCGW?
    const name: Option<string>
    const id: Option<int>
    const records: seq<Record>
    var associations: map<string, seq<Record>>

    /** What `Game(j, client)` derives from its row: the row and client kept,
        name and id read, and one record per joined table, in order. */
    predicate FromRow(j: Row, client: PCGW?, toInt: string -> Option<int>) {
      && jsonData == j && apiClient == client
      && name == GameName(j) && id == GameId(j, toInt)
      && |records| == |SubRecordTables|
      && forall i :: 0 <= i < |records| ==> records[i] == Record(SubRecordTables[i], j)
    }

    /** The association lists before any has been fetched. */
    predicate Unfetched()
      reads this
    {
      associations == map["languages" := [], "engines" := []]
    }

    /** `Game(j, api_client)`. */
    constructor (j: Row, client: PCGW?, toInt: string -> Option<int>)
      ensures FromRow(j, client, toInt) && Unfetched()
    {
      jsonData := j;
      apiClient := client;
      name := Get(j, "Page");
      id := toInt(Get(j, "PageID").GetOr(""));
      records := seq(|SubRecordTables|, i requires 0 <= i < |SubRecordTables| => Record(SubRecordTables[i], j));
      associations := map["languages" := [], "engines" := []];
    }

    /**
     * `get_association_table(table, attr)`: without a client nothing is sent
     * and nothing changes; otherwise the association request is sent and the
     * list `attr` is replaced by the response's records. `tablesInfo` is the
     * catalog file and `response` the transport's answer.
     */
    method GetAssociationTable(table: string, attr: string, tablesInfo: Catalog, response: Response)
      returns (ok: bool, sent: Option<Params>)
      modifies this
      ensures ok <==> apiClient != null
      ensures !ok ==> sent == None && associations == old(associations)
      ensures ok ==> sent == Some(AssociationRequest(name, table, tablesInfo))
      ensures ok ==> associations == old(associations)[attr := AssociationRecords(table, response)]
    {
      if apiClient != null {
        sent := Some(AssociationRequest(name, table, tablesInfo));
        associations := associations[attr := AssociationRecords(table, response)];
        ok := true;
      } else {
        sent := None;
        ok := false;
      }
    }

    /** `get_languages()`: the `L10n` rows into `languages`. */
    method GetLanguages(tablesInfo: Catalog, response: Response) returns (ok: bool, sent: Option<Params>)
      modifies this
      ensures ok <==> apiClient != null
      ensures !ok ==> sent == None && associations == old(associations)
      ensures ok ==> sent == Some(AssociationRequest(name, "L10n", tablesInfo))
      ensures ok ==> associations == old(associations)["languages" := AssociationRecords("L10n", response)]
    {
      ok, sent := GetAssociationTable("L10n", "languages", tablesInfo, response);
    }

    /** `get_engines()`: the `Infobox_game_engine` rows into `engines`. */
    method GetEngines(tablesInfo: Catalog, response: Response) returns (ok: bool, sent: Option<Params>)
      modifies this
      ensures ok <==> apiClient != null
      ensures !ok ==> sent == None && associations == old(associations)
      ensures ok ==> sent == Some(AssociationRequest(name, "Infobox_game_engine", tablesInfo))
      ensures ok ==> associations == old(associations)["engines" := AssociationRecords("Infobox_game_engine", response)]
    {
      ok, sent := GetAssociationTable("Infobox_game_engine", "engines", tablesInfo, response);
    }

    /** `str(game)`: the name, or `Unknown game` when it is missing or empty. */
    function ToString(): (s: string)
      ensures Truthy(name) ==> s == name.value
      ensures !Truthy(name) ==> s == "Unknown game"
    {
      if Truthy(name) then name.value else "Unknown game"
    }
  }

  /** The loops of `PCGW.__init__` that append `table.field` for every table and field of `c`. */
  method QualifyAll(prefix: seq<string>, c: Catalog) returns (fields: seq<string>)
    ensures fields == prefix + QualifiedFields(c)
  {
    fields := prefix;
    var i := 0;
    while i < |c|
      invariant 0 <= i <= |c|
      invariant fields == prefix + QualifiedFields(c[..i])
    {
      fields := AppendQualified(fields, c[i].name, c[i].fields);
      assert c[..i + 1] == c[..i] + [c[i]];
      QualifiedFieldsConcat(c[..i], [c[i]]);
      assert QualifiedFields([c[i]]) == Qualify(c[i].name, c[i].fields) + QualifiedFields([]);
      i := i + 1;
    }
    assert c[..i] == c;
  }

  /** The inner loop: `table.field` appended for each field of one table. */
  method AppendQualified(fields: seq<string>, table: string, tableFields: seq<string>) returns (r: seq<string>)
    ensures r == fields + Qualify(table, tableFields)
  {
    r := fields;
    var k := 0;
    while k < |tableFields|
      invariant 0 <= k <= |tableFields|
      invariant r == fields + Qualify(table, tableFields[..k])
    {
      assert Qualify(table, tableFields[..k + 1]) == Qualify(table, tableFields[..k]) + [table + "." + tableFields[k]];
      r := r + [table + "." + tableFields[k]];
      k := k + 1;
    }
    assert tableFields[..k] == tableFields;
  }

  // ----- The client -----

  /** `Infobox_game._pageName LIKE "%"`: every game. */
  const AllGamesWhere: string := "Infobox_game._pageName LIKE \"%\""

  /** The first field of the catalog, in catalog order, whose lowercase form is `attr`. */
  function FirstField(c: Catalog, attr: string): Option<(string, string)> {
    if c == [] then None
    else
      match FirstInTable(c[0].fields, attr)
      case Some(f) => Some((c[0].name, f))
      case None => FirstField(c[1..], attr)
  }

  /** The first field of one table whose lowercase form is `attr`. */
  function FirstInTable(fields: seq<string>, attr: string): Option<string> {
    if fields == [] then None
    else if Lower(fields[0]) == attr then Some(fields[0])
    else FirstInTable(fields[1..], attr)
  }

  /** The field found in one table is its first field that lowercases to `attr`. */
  lemma {:induction false} FirstInTableSpec(fields: seq<string>, attr: string)
    ensures FirstInTable(fields, attr).None? <==> forall k :: 0 <= k < |fields| ==> Lower(fields[k]) != attr
    ensures FirstInTable(fields, attr).Some? ==>
      exists k :: 0 <= k < |fields| && fields[k] == FirstInTable(fields, attr).value && Lower(fields[k]) == attr
        && forall l :: 0 <= l < k ==> Lower(fields[l]) != attr
  {
    if fields != [] {
      FirstInTableSpec(fields[1..], attr);
      assert forall k :: 0 < k < |fields| ==> fields[k] == fields[1..][k - 1];
      if Lower(fields[0]) != attr && FirstInTable(fields, attr).Some? {
        var k :| 0 <= k < |fields[1..]| && fields[1..][k] == FirstInTable(fields, attr).value
          && Lower(fields[1..][k]) == attr && forall l :: 0 <= l < k ==> Lower(fields[1..][l]) != attr;
        assert fields[k + 1] == fields[1..][k];
      }
    }
  }

  /**
   * The catalog search of `get_possible_values`: it finds a field exactly when
   * some field of some table lowercases to `attr`, and then it is the first
   * such field of the first table that has one.
   */
  lemma {:induction false} FirstFieldSpec(c: Catalog, attr: string)
    ensures FirstField(c, attr).None? <==>
      forall i, k :: 0 <= i < |c| && 0 <= k < |c[i].fields| ==> Lower(c[i].fields[k]) != attr
    ensures FirstField(c, attr).Some? ==>
      exists i :: 0 <= i < |c| && c[i].name == FirstField(c, attr).value.0
        && FirstInTable(c[i].fields, attr) == Some(FirstField(c, attr).value.1)
        && forall j :: 0 <= j < i ==> FirstInTable(c[j].fields, attr).None?
  {
    if c != [] {
      FirstFieldSpec(c[1..], attr);
      FirstInTableSpec(c[0].fields, attr);
      assert forall i :: 0 < i < |c| ==> c[i] == c[1..][i - 1];
      if FirstInTable(c[0].fields, attr).None? {
        forall i, k | 0 <= i < |c| && 0 <= k < |c[i].fields| && Lower(c[i].fields[k]) == attr
          ensures FirstField(c, attr).Some?
        {
          if i > 0 {
            assert c[1..][i - 1].fields[k] == c[i].fields[k];
          }
        }
        if FirstField(c, attr).Some? {
          var i :| 0 <= i < |c[1..]| && c[1..][i].name == FirstField(c, attr).value.0
            && FirstInTable(c[1..][i].fields, attr) == Some(FirstField(c, attr).value.1)
            && forall j :: 0 <= j < i ==> FirstInTable(c[1..][j].fields, attr).None?;
          assert c[i + 1] == c[1..][i];
          forall j | 0 <= j < i + 1 ensures FirstInTable(c[j].fields, attr).None? {
            if j > 0 { assert c[j] == c[1..][j - 1]; }
          }
        }
      }
    }
  }

  /** The client: the joined tables, join clauses and field list it derives once
      from the catalog, and Python's `int`, used to read game ids. */
  class PCGW {
    ghost const catalog: Catalog
    const gameReqTables: seq<string>
    const gameReqJoins: seq<string>
    const gameReqFields: seq<string>
    const toInt: string -> Option<int>

    /** The request lists are those of the catalog without its association tables. */
    ghost predicate Valid() {
      && gameReqTables == TableNames(EagerTables(catalog))
      && gameReqJoins == JoinClauses(EagerTables(catalog))
      && gameReqFields == [FieldsPrefix] + QualifiedFields(EagerTables(catalog))
    }

    /** `PCGW()` with the catalog file's contents `tablesInfo`. */
    constructor (tablesInfo: Catalog, toInt: string -> Option<int>)
      ensures catalog == tablesInfo && this.toInt == toInt
      ensures Valid()
    {
      var j := EagerTables(tablesInfo);
      var fields := QualifyAll([FieldsPrefix], j);
      catalog := tablesInfo;
      gameReqTables := TableNames(j);
      gameReqJoins := JoinClauses(j);
      gameReqFields := fields;
      this.toInt := toInt;
    }

    /** The parameters common to the search and lookup requests, for one `where` clause. */
    function GameRequest(where: string): (p: Params)
      requires Valid()
      ensures p.Keys == {"action", "where", "tables", "join_on", "fields", "format"}
      ensures p["action"] == "cargoquery" && p["format"] == "json" && p["where"] == where
      ensures p["tables"] == Join(TableNames(EagerTables(catalog)), ",")
      ensures p["join_on"] == Join(JoinClauses(EagerTables(catalog)), ",")
      ensures p["fields"] == Join([FieldsPrefix] + QualifiedFields(EagerTables(catalog)), ",")
    {
      map["action" := "cargoquery",
          "where" := where,
          "tables" := Join(gameReqTables, ","),
          "join_on" := Join(gameReqJoins, ","),
          "fields" := Join(gameReqFields, ","),
          "format" := "json"]
    }

    /** `_build_search_request(query)`. */
    function BuildSearchRequest(query: string): (p: Params)
      requires Valid()
      ensures p == GameRequest(SearchWhere(query))
      ensures p["where"] == "Infobox_game._pageName LIKE \"%" + query + "%\""
    {
      GameRequest(SearchWhere(query))
    }

    /** `_handle_search_response(response)`: one game per entry, an entry
        without `title` giving a game built from `{}`. */
    method HandleSearchResponse(response: Response) returns (games: seq<Game>)
      ensures |games| == |Entries(response)|
      ensures forall i :: 0 <= i < |games| ==>
        fresh(games[i]) && games[i].FromRow(TitleOrEmpty(Entries(response)[i]), this, toInt) && games[i].Unfetched()
    {
      var entries := Entries(response);
      games := [];
      var i := 0;
      while i < |entries|
        invariant 0 <= i <= |entries| && |games| == i
        invariant forall k :: 0 <= k < i ==>
          fresh(games[k]) && games[k].FromRow(TitleOrEmpty(entries[k]), this, toInt) && games[k].Unfetched()
      {
        var g := new Game(TitleOrEmpty(entries[i]), this, toInt);
        games := games + [g];
        i := i + 1;
      }
    }

    /**
     * `get_game(...)`: no request and no game when no criterion is truthy;
     * otherwise the lookup request for the chosen clause, and a game built
     * from the first titled row of `response`, if there is one.
     */
    method GetGame(pageId: Option<int>, pageName: Option<string>, gogId: Option<int>, steamId: Option<int>,
                   response: Response)
      returns (sent: Option<Params>, game: Game?)
      requires Valid()
      ensures sent.None? <==> GameWhere(pageId, pageName, gogId, steamId).None?
      ensures sent.Some? ==> sent.value == GameRequest(GameWhere(pageId, pageName, gogId, steamId).value)
      ensures game != null <==> sent.Some? && TitledRows(Entries(response)) != []
      ensures game != null ==>
        fresh(game) && game.FromRow(TitledRows(Entries(response))[0], this, toInt) && game.Unfetched()
    {
      var clause := GameWhere(pageId, pageName, gogId, steamId);
      if clause.None? {
        return None, null;
      }
      sent := Some(GameRequest(clause.value));
      var results := TitledRows(Entries(response));
      game := null;
      if results != [] {
        game := new Game(results[0], this, toInt);
      }
    }

    /**
     * `get_games(page_ids, page_names)`: the batch request, and a game per
     * titled row of `response` keyed as `KeyFor` says, later rows replacing
     * earlier ones under the same key.
     */
    method GetGames(pageIds: seq<int>, pageNames: seq<string>, response: Response)
      returns (sent: Params, mapped: map<GameKey, Game>)
      requires Valid()
      ensures sent == GameRequest(GamesWhere(pageIds, pageNames))
      ensures mapped.Keys == MappedRows(TitledRows(Entries(response)), pageIds, pageNames, toInt).Keys
      ensures forall k :: k in mapped ==>
        fresh(mapped[k]) && mapped[k].Unfetched()
        && mapped[k].FromRow(MappedRows(TitledRows(Entries(response)), pageIds, pageNames, toInt)[k], this, toInt)
    {
      sent := GameRequest(GamesWhere(pageIds, pageNames));
      var rows := TitledRows(Entries(response));
      mapped := map[];
      var i := 0;
      while i < |rows|
        invariant 0 <= i <= |rows|
        invariant mapped.Keys == MappedRows(rows[..i], pageIds, pageNames, toInt).Keys
        invariant forall k :: k in mapped ==>
          fresh(mapped[k]) && mapped[k].Unfetched()
          && mapped[k].FromRow(MappedRows(rows[..i], pageIds, pageNames, toInt)[k], this, toInt)
      {
        var result := new Game(rows[i], this, toInt);
        assert rows[..i + 1][..i] == rows[..i];
        if result.id.Some? && result.id.value in pageIds {
          mapped := mapped[IdKey(result.id.value) := result];
        } else if result.name.Some? && result.name.value in pageNames {
          mapped := mapped[NameKey(result.name.value) := result];
        }
        i := i + 1;
      }
      assert rows[..i] == rows;
    }

    /**
     * `get_possible_values(attr)`: no request and no values when no catalog
     * field lowercases to `attr` or the match has an empty table or field
     * name; otherwise the distinct-values request for the first match, and
     * the values of that field in the response's rows (`None` where a row
     * lacks it). `tablesInfo` is the catalog file.
     */
    method GetPossibleValues(attr: string, tablesInfo: Catalog, response: Response)
      returns (sent: Option<Params>, values: seq<Option<string>>)
      ensures FirstField(tablesInfo, attr).None? ==> sent == None && values == []
      ensures FirstField(tablesInfo, attr).Some? ==>
        var (table, field) := FirstField(tablesInfo, attr).value;
        if table == "" || field == "" then sent == None && values == []
        else
          && sent.Some?
          && sent.value.Keys == {"action", "where", "tables", "fields", "group_by", "format"}
                                + (if table == PrimaryTable then {} else {"join_on"})
          && sent.value["action"] == "cargoquery" && sent.value["format"] == "json"
          && sent.value["where"] == AllGamesWhere
          && sent.value["fields"] == table + "." + field && sent.value["group_by"] == table + "." + field
          && (table == PrimaryTable ==> sent.value["tables"] == PrimaryTable)
          && (table != PrimaryTable ==>
                sent.value["tables"] in {PrimaryTable + "," + table, table + "," + PrimaryTable}
                && sent.value["join_on"] == JoinClause(table))
          && |values| == |Entries(response)|
          && forall i :: 0 <= i < |values| ==>
               values[i] == Get(TitleOrEmpty(Entries(response)[i]), ReplaceChar(field, '_', ' '))
    {
      var found := false;
      var table, field := "", "";
      var i := 0;
      while i < |tablesInfo|
        invariant 0 <= i <= |tablesInfo|
        invariant FirstField(tablesInfo, attr) == FirstField(tablesInfo[i..], attr)
        invariant !found
        decreases |tablesInfo| - i
      {
        var fields := tablesInfo[i].fields;
        var k := 0;
        while k < |fields|
          invariant 0 <= k <= |fields|
          invariant FirstInTable(fields, attr) == FirstInTable(fields[k..], attr)
          invariant !found
        {
          assert fields[k..][1..] == fields[k + 1..];
          if Lower(fields[k]) == attr {
            found := true;
            field := fields[k];
            break;
          }
          k := k + 1;
        }
        assert tablesInfo[i..][1..] == tablesInfo[i + 1..];
        if found {
          table := tablesInfo[i].name;
          assert FirstField(tablesInfo, attr) == Some((table, field));
          break;
        }
        assert FirstInTable(fields, attr).None?;
        i := i + 1;
      }
      if !found {
        return None, [];
      }
      if table == "" || field == "" {
        return None, [];
      }
      var tables: string;
      if table == PrimaryTable {
        tables := PrimaryTable;
      } else {
        var first :| first in {PrimaryTable, table};
        tables := if first == PrimaryTable then PrimaryTable + "," + table else table + "," + PrimaryTable;
      }
      var params := map["action" := "cargoquery",
                        "where" := AllGamesWhere,
                        "tables" := tables,
                        "fields" := table + "." + field,
                        "group_by" := table + "." + field,
                        "format" := "json"];
      if table != PrimaryTable {
        params := params["join_on" := JoinClause(table)];
      }
      sent := Some(params);
      var entries := Entries(response);
      values := seq(|entries|, n requires 0 <= n < |entries| => Get(TitleOrEmpty(entries[n]), ReplaceChar(field, '_', ' ')));
    }
  }
}
