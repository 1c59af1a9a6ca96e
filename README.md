# pcgw_api in Dafny

A model of the logic of `pcgw_api`, a client library for the PCGamingWiki
"cargo" query service. The HTTP calls are left out. Everything around them is
modelled:

- **Field decoding** (`src/api_pcgw/utils.py`, module `Utils`):
  - `parse_list` splits a delimited value, drops blank pieces and duplicates, and converts each piece, dropping those that fail;
  - `parse_value` converts a single value and falls back to `None`;
  - `parse_support_enum` normalises a value onto the closed `SupportEnum` set and keeps the raw value.
- **Query construction** (`src/api_pcgw/pcgw.py`, module `PcgwClient`):
  - the client derives the joined tables, join clauses and field list from the schema catalog;
  - from those it builds the search, single-lookup, batch-lookup, association and distinct-value requests;
  - it turns response rows into `Game` objects, keyed by id or name for a batch lookup.
- **Schema generation** (`update_fields.py`, module `UpdateFields`):
  - one field descriptor per retained remote field, with the declared-type table and the per-table overrides;
  - the persisted catalog, mapping each table to its query keys in order;
  - one generated source line per field.
- **Legacy search** (`pcgw.py`, module `LegacySearch`): the fixed single-table search request, and the search result decoded from each row.

Supporting modules:

- `Wrappers`: `Option` and `Result`.
- `Text`: the Python string built-ins the code relies on — `split` with a separator, `join`, `strip()` emptiness, `lower`, single-character `replace` and `str(int)`.
- `Cargo`: the shared values — a decoded row, a response, a parameter set and the catalog.
- `Consistency`: ties the generator's catalog to the client's joined tables.

Modelling choices:

- A response is the value the transport would have returned. A method that issues a request takes that value as a parameter and returns the parameters it sends.
- Python's `int()` and `datetime.datetime.fromisoformat` are abstract partial functions in a `Builtins` value. The only thing assumed about them (`Builtins.Valid`) is that neither accepts a blank string.
- The catalog file's contents are an ordered list of `(table, fields)` entries. A JSON object loaded by `json.load` has distinct keys, and the catalog is assumed to have distinct table names (see "## Left out").
- `Game` and `PCGW` are classes. The model keeps every attribute other than the association lists fixed after construction, as `const` fields. `Game.associations` holds the lists that `get_association_table` replaces: `languages` and `engines`, or whatever attribute name it is given. Replacing any other attribute through `setattr` is not modelled (see "## Left out").

Two behaviours of the code worth knowing:

- `_handle_search_response`, `get_association_table` and the legacy `_handle_search_response` build an object from `{}` for a response entry without `title`. Only `get_game` and `get_games` skip such entries.
- `get_game` returns `None` both when no criterion is given and when nothing is found. `PCGW.GetGame` also returns `sent`, which is `None` exactly when no request was sent, so the model tells the two apart.

## Model

| member | source | states |
|---|---|---|
| Cargo.Lookup | src/api_pcgw/pcgw.py:41 | the catalog has an entry for a table exactly when the table is among its names, and then the value is the keys of the first entry with that name |
| Cargo.ConvertedMembers | pcgw.py:15-19 | a value is kept exactly when some piece converts to it |
| Cargo.ConvertedLength | pcgw.py:15-19 | one value per convertible piece, never more values than pieces |
| Cargo.ConvertedAppend | pcgw.py:15-19 | converting a concatenation converts each part in order |
| Text.JoinSplit | src/api_pcgw/utils.py:7 | joining the pieces of `s.split(sep)` with `sep` gives `s` back: splitting loses and adds no character |
| Utils.NonBlankPieces | src/api_pcgw/utils.py:7 | the candidate pieces are exactly the split pieces whose `strip()` is non-empty |
| Utils.ParseList | src/api_pcgw/utils.py:4-14 | `[]` for a missing or empty value; otherwise each distinct non-blank piece is converted exactly once in some iteration order, failures are dropped, every output is the conversion of some non-blank piece and vice versa, and there are as many values as convertible distinct pieces, at most the number of distinct pieces |
| Utils.EnumeratedConversion | src/api_pcgw/utils.py:7-11 | converting any enumeration of the piece set yields exactly the conversions of its pieces, one per convertible piece |
| Utils.ParseValue | src/api_pcgw/utils.py:16-23 | `None` for a missing or empty value, else the conversion's outcome (`None` when it raises) |
| Utils.FromValue | src/api_pcgw/utils.py:27-28 | the enum lookup returns a member spelled `value`, or fails only when no member is |
| Utils.FromOwnValue | src/api_pcgw/utils.py:40-50 | every member, `NULL` included, is found by its own spelling |
| Utils.ValueInjective | src/api_pcgw/utils.py:40-50 | distinct members have distinct spellings |
| Utils.ParseSupportEnum | src/api_pcgw/utils.py:25-38 | the raw value is `j.get(key)` verbatim; `fakse`, `yes` and `partial` become `FALSE`, `TRUE` and `LIMMITED`; an absent key gives `NULL` |
| Utils.CanonicalSpelling | src/api_pcgw/utils.py:26-28 | a canonical spelling gives its own member |
| Utils.OtherValueExactly | src/api_pcgw/utils.py:27-36 | `OTHER_VALUE` results exactly from its own spelling or a value that is neither canonical nor a known misspelling (case-sensitive) |
| UpdateFields.NewField | update_fields.py:21-44 | `Field(key, j, table)`: its properties are those `NewFieldSpec` and `PlayerCountsAreInt` prove |
| UpdateFields.NewFieldSpec | update_fields.py:21-44 | a descriptor exists exactly when the metadata has `type` (else `KeyError`); `key` has `_` as a space and `name` is lowercased; the type is `str` for String/URL/Page/File/Wikitext, `datetime.datetime` for Date and `Any` otherwise; the converter is `fromisoformat` for Date and `str` otherwise, unless the forced-type table overrides both; `is_list` iff `isList` is present; `delimiter` is the metadata's, if any |
| UpdateFields.PlayerCountsAreInt | update_fields.py:10-16 | Multiplayer's local, LAN and online player counts are forced to the `int` type and the `int` converter, whatever their declared type |
| UpdateFields.FieldsFrom | update_fields.py:55-56 | the comprehension over the metadata items; `FieldsFromKeys` and `FieldsFromFails` state what it keeps and when it raises |
| UpdateFields.GetTableFields | update_fields.py:55 | `get_table_fields` on the decoded response, a missing `cargofields` read as `{}`; `PersistedKeysAreRetained` states the result |
| UpdateFields.FieldsFromKeys | update_fields.py:55-56 | the table's fields are, in response order, exactly the retained keys (first character a letter), each built from its own metadata |
| UpdateFields.FieldsFromFails | update_fields.py:55-56 | reading a table fails exactly when some key is empty or some retained key's metadata has no `type` |
| UpdateFields.AccessorOf | update_fields.py:91-97 | list fields use `parse_list`, non-list `str` fields `j.get`, all others `parse_value` |
| UpdateFields.AnnotationOptional | update_fields.py:92-97 | the annotation opens with `list[<type>` for a list field and with the type otherwise, and it ends with a bar and `None` (the optional form) exactly when the field is not a list |
| UpdateFields.CallNamesReader | update_fields.py:91-97 | the call opens with `parse_list(` exactly for a list field, `j.get(` exactly for a non-list `str` field and `parse_value(` otherwise; the quoted spaced key follows; a list call ends with the quoted delimiter (`"None"` when absent) and the converter, a `parse_value` call with the converter |
| UpdateFields.Line | update_fields.py:92-97 | a generated line is the eight-space indent, `self.<name>: `, the annotation, ` = `, then the reader call and a newline |
| UpdateFields.LinesStep | update_fields.py:90-97 | the generated lines grow by one line per field, in order |
| UpdateFields.CatalogPutLookup | update_fields.py:84 | after `j[table] = keys` the table reads back as `keys`, every other table as before, and the names gain only `table` |
| UpdateFields.CatalogPutAppends | update_fields.py:84 | a new table is appended after the existing ones |
| UpdateFields.Generate | update_fields.py:65-98 | the top-level loop computes the generation outcome (catalog and text) table by table |
| UpdateFields.AppendClass | update_fields.py:86-97 | one class header and one line per field are appended to the text |
| UpdateFields.GenerationStops | update_fields.py:65-84 | the first table whose fields cannot be read aborts the whole run with its error |
| UpdateFields.Generation | update_fields.py:65-97 | the run over the table list; `GenerationStops`, `GenerationSucceeds`, `CatalogRoundTrip` and `CatalogOrder` state its outcome |
| UpdateFields.GenerationSucceeds | update_fields.py:65-84 | a run succeeds exactly when every table's fields can be read |
| UpdateFields.CatalogRoundTrip | update_fields.py:65-84 | the catalog lists exactly the generated tables, each with the query keys of its fields |
| UpdateFields.CatalogOrder | update_fields.py:65-84 | over distinct tables the catalog keeps the generation order |
| UpdateFields.PersistedKeysAreRetained | update_fields.py:55-56 | each persisted table maps to its retained metadata keys, in response order |
| PcgwClient.EagerTablesConcat | src/api_pcgw/pcgw.py:68 | the association-table filter keeps catalog order |
| PcgwClient.EagerTablesMembers | src/api_pcgw/pcgw.py:68 | the joined tables are exactly the catalog's tables other than `L10n` and `Infobox_game_engine` |
| PcgwClient.JoinClausesMembers | src/api_pcgw/pcgw.py:70-71 | a join clause exists exactly for each listed table other than `Infobox_game` |
| PcgwClient.JoinClausesCount | src/api_pcgw/pcgw.py:70-71 | with distinct table names, one join clause per table other than `Infobox_game` |
| PcgwClient.Qualify | src/api_pcgw/pcgw.py:77-78 | `table.field` for each field, in order |
| PcgwClient.QualifiedFieldsMembers | src/api_pcgw/pcgw.py:76-78 | the qualified fields are exactly `T.f` for the catalog's tables `T` and their fields `f` |
| PcgwClient.QualifiedFieldsConcat | src/api_pcgw/pcgw.py:76-78 | qualifying a longer catalog appends the new tables' fields |
| PcgwClient.FieldsHaveEmptyEntry | src/api_pcgw/pcgw.py:72-75 | the joined field list equals the two aliases, an empty field and the qualified fields: an empty entry follows the aliases (`PageID,,` once some table has a field) |
| PcgwClient.QualifyAll | src/api_pcgw/pcgw.py:76-78 | the nested loop appends exactly the qualified fields of the catalog |
| PcgwClient.AppendQualified | src/api_pcgw/pcgw.py:77-78 | the inner loop appends `table.field` for each of the table's fields |
| PcgwClient.PCGW.constructor | src/api_pcgw/pcgw.py:65-78 | the request lists are the names, join clauses and field list of the catalog without its association tables |
| PcgwClient.PCGW.GameRequest | src/api_pcgw/pcgw.py:120-127 | the lookup parameters carry the given clause and the catalog-derived tables, joins and fields |
| PcgwClient.PCGW.BuildSearchRequest | src/api_pcgw/pcgw.py:80-88 | the search clause is `Infobox_game._pageName LIKE "%query%"` with the common parameters |
| PcgwClient.PCGW.HandleSearchResponse | src/api_pcgw/pcgw.py:90-91 | one fresh game per entry, built from its `title` or `{}` with this client: row, name, id and the twelve records, association lists empty |
| PcgwClient.GameWhere | src/api_pcgw/pcgw.py:109-119 | no clause exactly when all criteria are falsy (0 included); otherwise the first truthy of page id, page name, GOG id, Steam id picks the clause |
| PcgwClient.LookupByPageId42 | src/api_pcgw/pcgw.py:112-113 | `page_id=42` gives `Infobox_game._pageID="42"` whatever else is given |
| PcgwClient.TitledRowsFirst | src/api_pcgw/pcgw.py:129-131 | the first titled row is the title of the first entry that has one, and there is none exactly when no entry has a title |
| PcgwClient.PCGW.GetGame | src/api_pcgw/pcgw.py:105-131 | no request and no game without criteria; otherwise the lookup request, and a game exactly when some entry has a title, built from the first such (row, name, id and records as the constructor derives them) |
| PcgwClient.GamesWhere | src/api_pcgw/pcgw.py:137-140 | the name clauses, then the id clauses, joined by ` OR `; `GamesWhereEmpty` states when it is empty |
| PcgwClient.GamesWhereEmpty | src/api_pcgw/pcgw.py:137-140 | the batch clause is empty exactly when no ids and no names are given |
| PcgwClient.KeyFor | src/api_pcgw/pcgw.py:150-153 | a row is keyed by its id if that was asked for, else by its name if that was asked for |
| PcgwClient.MappedRows | src/api_pcgw/pcgw.py:148-154 | the dict the batch loop fills; `MappedRowsSpec` and `BatchKeysExample` state its keys and values |
| PcgwClient.MappedRowsSpec | src/api_pcgw/pcgw.py:148-154 | the batch result has exactly the keys of some row, each mapped to the last row with that key |
| PcgwClient.BatchKeysExample | src/api_pcgw/pcgw.py:147-154 | rows with the requested ids 1 and 2 and a row named `Foo` without such an id are all found |
| PcgwClient.PCGW.GetGames | src/api_pcgw/pcgw.py:133-154 | the batch request uses the name-then-id clause; the result maps each key to a fresh game built from the row the batch mapping assigns to it (row, name, id and records) |
| PcgwClient.GameIdSpec | src/api_pcgw/pcgw.py:14-17 | a game's id is `int(PageID)`, and `None` when `PageID` is missing, empty or blank |
| PcgwClient.Game.constructor | src/api_pcgw/pcgw.py:10-31 | keeps the row and client, reads name and id, builds one record per joined table in order (`FromRow`), and starts with empty association lists (`Unfetched`) |
| PcgwClient.AssociationRequest | src/api_pcgw/pcgw.py:35-43 | the association request joins the table on the page id, filters on the game's name (`None` printed as such) and selects the catalog's fields of that table, none if it is not listed |
| PcgwClient.AssociationRecords | src/api_pcgw/pcgw.py:45 | one record per response entry, from its `title` or `{}` |
| PcgwClient.Game.GetAssociationTable | src/api_pcgw/pcgw.py:33-47 | without a client it returns false and changes nothing; otherwise it sends the association request, replaces exactly the named list with the response's records and returns true |
| PcgwClient.Game.GetLanguages | src/api_pcgw/pcgw.py:49-50 | the `L10n` rows replace `languages` |
| PcgwClient.Game.GetEngines | src/api_pcgw/pcgw.py:52-53 | the `Infobox_game_engine` rows replace `engines` |
| PcgwClient.Game.ToString | src/api_pcgw/pcgw.py:55-59 | the name, or `Unknown game` when it is missing or empty |
| PcgwClient.FirstInTableSpec | src/api_pcgw/pcgw.py:160-163 | the field found in a table is its first one whose lowercase form is `attr` |
| PcgwClient.FirstField | src/api_pcgw/pcgw.py:159-166 | the nested catalog search; `FirstFieldSpec` and `FirstInTableSpec` state which field it finds |
| PcgwClient.FirstFieldSpec | src/api_pcgw/pcgw.py:159-166 | a field is found exactly when some catalog field lowercases to `attr`, and then it is the first match of the first table that has one |
| PcgwClient.PCGW.GetPossibleValues | src/api_pcgw/pcgw.py:156-181 | nothing for no match or an empty table or field name; otherwise the distinct-values request for the first match, with `join_on` exactly when the table is not `Infobox_game`, and the matched field's value of each row |
| LegacySearch.BuildSearchRequest | pcgw.py:54-65 | a query of `Infobox_game` alone, without `join_on`, with the `LIKE` clause and the five fixed fields |
| LegacySearch.ConvertPieces | pcgw.py:15-19 | the try/except loop keeps the converted pieces in order, duplicates included, failures dropped |
| LegacySearch.DelimitedValues | pcgw.py:13-35 | the id and date lists of a search row; `DelimitedValuesSpec` states their contents |
| LegacySearch.DelimitedValuesSpec | pcgw.py:13-35 | an id or date list is empty for a missing or empty field, otherwise holds exactly the conversions of its pieces, never more values than pieces |
| LegacySearch.SearchResult.constructor | pcgw.py:5-36 | name, id, the Steam and GOG id lists, the date list and the first date, from the row (`DecodedFrom`) |
| LegacySearch.StrAsWrittenRaises | pcgw.py:38-45 | the as-written `__str__` raises exactly for a named result whose `date` was never set |
| LegacySearch.StrRaisesWithoutRelease | pcgw.py:29-41 | `{'Page': 'Foo'}` gives a result whose `str` raises `AttributeError` |
| LegacySearch.SearchResult.ToString | pcgw.py:38-45 | `str(result)` is the corrected `Str` of the result's name and first date, which never raises |
| LegacySearch.Str | pcgw.py:38-45 | `name (year)` with a date, `name` without, `Unknown search result` without a name |
| LegacySearch.StrCorrects | pcgw.py:36-45 | the corrected `str` agrees with the as-written one wherever that does not raise |
| LegacySearch.HandleSearchResponse | pcgw.py:67-68 | one fresh result per entry, decoded from its `title` or `{}`: name, id, Steam and GOG id lists, dates and first date |
| Consistency.EagerTablesNames | src/api_pcgw/pcgw.py:68-69 | the joined table names are the catalog's names without the association tables |
| Consistency.CuratedEagerNames | update_fields.py:66-81 | dropping the association tables from the generator's list leaves the twelve tables `Game` decodes |
| Consistency.JoinedTablesHaveRecords | src/api_pcgw/pcgw.py:18-29 | for any catalog generated from the curated list, the tables joined into every game request are, in order, the tables a `Game` builds a record of |

## Left out

- HTTP transport, the async client and the `search`/`async_search` wrappers are left out. Responses are input values; requests are returned parameter maps.
- The `API_URL` constant and the `post` versus `get` choice belong to the transport.
- Reading the catalog file is left out; the catalog is passed in. The generator's writes of `tables.py` and the catalog file are also left out; they only persist the modelled outcome.
- The remote `cargofields` call and `sleep(.5)` are left out. The metadata service is the function `schema` given to `UpdateFields.Generate`.
- The progress `print` in the generator loop is left out.
- Python's `int()` and `datetime.datetime.fromisoformat` are not re-implemented. They are abstract conversion functions, and only the fact that a blank string fails is assumed.
- `str.lower` and `str.isalpha` are modelled on ASCII letters only.
- PcgwClient.Game.GetAssociationTable: only `attr` values naming an association list are modelled. The source's `setattr(self, attr, ...)` (src/api_pcgw/pcgw.py:45) would replace any attribute, for example `name`; in the model `name` and the other attributes are constants, and the new list is only stored under `attr` in `associations`.
- Cargo.Lookup: the catalog is assumed to have distinct table names, as any object `json.load` returns does. On a catalog with a repeated name the model reads the first entry, where a Python dict would have kept the last value; `PCGW` likewise would list the repeated table twice.
- JSON `null` field values are not modelled; a row maps names to strings, and a missing key stands for `None`.
- Utils.ParseList: `s.split('')` raises `ValueError` in Python. The model requires a non-empty delimiter instead of modelling that exception. The generated callers always pass a delimiter.
- Utils.ParseList: the iteration order of Python's `set` is unspecified. The method picks each next piece nondeterministically. Its contract covers every order through the ghost `order`, and does not fix one.
- LegacySearch.DelimitedValuesSpec: a `TypeError` or any exception other than `ValueError` from a converter is not modelled; a conversion either succeeds or fails.
- Utils.ParseSupportEnum: the code stores `raw_value` on a shared enum member, so later calls overwrite earlier results. That aliasing is not modelled; the result is a (tag, raw value) pair.
- PcgwClient.GameWhere: at src/api_pcgw/pcgw.py:119 a trailing comma makes the Steam clause a one-element tuple, not a string. The model uses the clause string that the form encoding of that tuple carries.
- The generated `tables` module is not part of this model. A game's per-table objects are `Record(table, row)`.
- PcgwClient.PCGW.GetGames: `get_games` returns a dict, whose iteration order is the order keys were first inserted. The model returns a Dafny `map`, which has no order; the keys and the game under each key are modelled, not their order.
- PcgwClient.PCGW.GetPossibleValues: the order Python's `set` gives the two table names is not fixed. The contract allows either order.
- The generated source text is modelled as a string. Its execution as Python is not modelled.

## Findings

| source | as written | input that shows it | evidently intended | confidence | as-written member | corrected member |
|---|---|---|---|---|---|---|
| pcgw.py:29-41 | `self.date` is assigned only inside `if s := j.get('Released')`, but `__str__` reads it for every named result | the row `{'Page': 'Foo'}`: `str(SearchResult(j))` raises `AttributeError` | `date` is `None` when there is no release date, and `str` gives the bare name | high (by reading; not executed) | LegacySearch.StrRaisesWithoutRelease | LegacySearch.StrCorrects |
