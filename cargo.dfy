/**
 * The values that cross the boundary between the client and the cargo
 * query service: a decoded row, a decoded response, a request's parameter
 * set, the persisted schema catalog, and the two library parsers
 * (`int()` and `datetime.datetime.fromisoformat`) the decoders call.
 */
module Cargo {
  import opened Wrappers
  import opened Text

  /** One flat decoded row: field name to its textual value. */
  type Row = map<string, string>

  /** `row.get(key)`. */
  function Get(row: Row, key: string): (r: Option<string>)
    ensures r.Some? <==> key in row
    ensures r.Some? ==> r.value == row[key]
  {
    if key in row then Some(row[key]) else None
  }

  /** Python truthiness of an optional string: present and non-empty. */
  predicate Truthy(v: Option<string>) {
    v.Some? && v.value != ""
  }

  /** One entry of a response's `cargoquery` list; `title` may be missing. */
  datatype Entry = Entry(title: Option<Row>)

  /** A decoded response; its `cargoquery` key may be missing. */
  datatype Response = Response(cargoquery: Option<seq<Entry>>)

  /** `response.get('cargoquery', [])`. */
  function Entries(response: Response): seq<Entry> {
    response.cargoquery.GetOr([])
  }

  /** `entry.get('title', {})`. */
  function TitleOrEmpty(e: Entry): Row {
    e.title.GetOr(map[])
  }

  /** The parameter set sent to the transport. */
  type Params = map<string, string>

  /** One table of the persisted catalog and its query keys, in order. */
  datatype TableEntry = TableEntry(name: string, fields: seq<string>)

  /** The persisted catalog: table name to query keys, in insertion order. */
  type Catalog = seq<TableEntry>

  /** The table names of a catalog, in order (`list(j.keys())`). */
  function TableNames(c: Catalog): (r: seq<string>)
    ensures |r| == |c|
    ensures forall i :: 0 <= i < |c| ==> r[i] == c[i].name
  {
    seq(|c|, i requires 0 <= i < |c| => c[i].name)
  }

  /** The names of a catalog with one more entry in front. */
  lemma TableNamesCons(e: TableEntry, c: Catalog)
    ensures TableNames([e] + c) == [e.name] + TableNames(c)
  {
  }

  /** `catalog.get(table)`: the query keys of the first entry named `table`. */
  function Lookup(c: Catalog, table: string): (r: Option<seq<string>>)
    ensures r.Some? <==> table in TableNames(c)
    ensures r.Some? ==>
      exists i :: 0 <= i < |c| && c[i].name == table && r.value == c[i].fields
        && forall k :: 0 <= k < i ==> c[k].name != table
  {
    if c == [] then None
    else if c[0].name == table then Some(c[0].fields)
    else Lookup(c[1..], table)
  }

  /** A decoded `datetime.datetime`; only the year is ever read. */
  datatype DateTime = DateTime(year: int, month: int, day: int, hour: int, minute: int, second: int, microsecond: int)

  /** The library parsers, as partial functions: `None` stands for the
      `ValueError` they raise. */
  datatype Builtins = Builtins(toInt: string -> Option<int>, fromIso: string -> Option<DateTime>) {
    /** What is known of Python's `int()` and `fromisoformat`: neither accepts
        a blank string. */
    ghost predicate Valid() {
      forall s :: IsBlank(s) ==> toInt(s).None? && fromIso(s).None?
    }
  }

  /** The converted pieces, in order, with those whose conversion fails dropped
      (a loop of `try: l.append(convert(x)) except ValueError: pass`). */
  function Converted<T>(pieces: seq<string>, convert: string -> Option<T>): seq<T> {
    if pieces == [] then []
    else
      (match convert(pieces[0]) case Some(v) => [v] case None => [])
      + Converted(pieces[1..], convert)
  }

  /** Converting a concatenation converts each part, in order. */
  lemma {:induction false} ConvertedAppend<T>(p: seq<string>, q: seq<string>, convert: string -> Option<T>)
    ensures Converted(p + q, convert) == Converted(p, convert) + Converted(q, convert)
  {
    if p != [] {
      assert (p + q)[1..] == p[1..] + q;
      ConvertedAppend(p[1..], q, convert);
    } else {
      assert p + q == q;
    }
  }

  /** Every kept value comes from a piece, and every piece that converts is kept. */
  lemma {:induction false} ConvertedMembers<T>(pieces: seq<string>, convert: string -> Option<T>, v: T)
    ensures v in Converted(pieces, convert) <==> exists i :: 0 <= i < |pieces| && convert(pieces[i]) == Some(v)
  {
    if pieces != [] {
      ConvertedMembers(pieces[1..], convert, v);
      if convert(pieces[0]) == Some(v) {
        assert v in Converted(pieces, convert);
      }
      if exists i :: 0 <= i < |pieces| && convert(pieces[i]) == Some(v) {
        var i :| 0 <= i < |pieces| && convert(pieces[i]) == Some(v);
        if i > 0 {
          assert convert(pieces[1..][i - 1]) == Some(v);
        }
      }
      if exists i :: 0 <= i < |pieces[1..]| && convert(pieces[1..][i]) == Some(v) {
        var i :| 0 <= i < |pieces[1..]| && convert(pieces[1..][i]) == Some(v);
        assert convert(pieces[i + 1]) == Some(v);
      }
    }
  }

  /** The pieces that convert, in order. */
  function Convertible<T>(pieces: seq<string>, convert: string -> Option<T>): seq<string> {
    if pieces == [] then []
    else (if convert(pieces[0]).Some? then [pieces[0]] else []) + Convertible(pieces[1..], convert)
  }

  /** One value per convertible piece: nothing is duplicated or lost. */
  lemma {:induction false} ConvertedLength<T>(pieces: seq<string>, convert: string -> Option<T>)
    ensures |Converted(pieces, convert)| == |Convertible(pieces, convert)| <= |pieces|
  {
    if pieces != [] {
      ConvertedLength(pieces[1..], convert);
    }
  }
}
