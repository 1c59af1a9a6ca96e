/**
 * How the generator's catalog and the client fit together: the tables the
 * client joins into every game request, for a catalog generated from the
 * curated table list, are exactly the tables a game builds a record of.
 */
module Consistency {
  import opened Cargo
  import opened UpdateFields
  import opened PcgwClient

  /** The names that are not association tables, in order. */
  function EagerNames(names: seq<string>): seq<string> {
    if names == [] then []
    else (if names[0] in AssociationTables then [] else [names[0]]) + EagerNames(names[1..])
  }

  /** Filtering the catalog filters its names. */
  lemma {:induction false} EagerTablesNames(c: Catalog)
    ensures TableNames(EagerTables(c)) == EagerNames(TableNames(c))
  {
    if c != [] {
      EagerTablesNames(c[1..]);
      TableNamesCons(c[0], c[1..]);
      assert c == [c[0]] + c[1..];
      assert TableNames(c)[1..] == TableNames(c[1..]);
      if c[0].name !in AssociationTables {
        TableNamesCons(c[0], EagerTables(c[1..]));
      }
    }
  }

  /**
   * For any successful generation over the curated tables, the client's
   * joined tables are, in order, the twelve tables a `Game` builds a record
   * of: nothing joined is left undecoded and nothing decoded is missing
   * from the join.
   */
  lemma JoinedTablesHaveRecords(fetch: Fetch)
    requires Generation(CuratedTables, fetch).Success?
    ensures TableNames(EagerTables(Generation(CuratedTables, fetch).value.catalog)) == SubRecordTables
  {
    CuratedTablesDistinct();
    CatalogOrder(CuratedTables, fetch);
    EagerTablesNames(Generation(CuratedTables, fetch).value.catalog);
    CuratedEagerNames();
  }

  /** No table is listed twice. */
  lemma CuratedTablesDistinct()
    ensures forall i, k :: 0 <= i < k < |CuratedTables| ==> CuratedTables[i] != CuratedTables[k]
  {
  }

  /** None of the names is an association table. */
  ghost predicate AllEager(names: seq<string>) {
    forall i :: 0 <= i < |names| ==> names[i] !in AssociationTables
  }

  /** The name filter distributes over concatenation. */
  lemma {:induction false} EagerNamesConcat(a: seq<string>, b: seq<string>)
    ensures EagerNames(a + b) == EagerNames(a) + EagerNames(b)
  {
    if a == [] {
      assert a + b == b;
    } else {
      assert (a + b)[1..] == a[1..] + b;
      EagerNamesConcat(a[1..], b);
    }
  }

  /** Names none of which is an association table pass the filter unchanged. */
  lemma {:induction false} EagerNamesKeep(a: seq<string>)
    requires AllEager(a)
    ensures EagerNames(a) == a
  {
    if a != [] {
      EagerNamesKeep(a[1..]);
    }
  }

  /** Filtering drops an association table in the middle of a list. */
  lemma DropOne(a: seq<string>, x: string, c: seq<string>)
    requires x in AssociationTables
    ensures EagerNames(a + [x] + c) == EagerNames(a) + EagerNames(c)
  {
    EagerNamesConcat(a, [x] + c);
    assert a + [x] + c == a + ([x] + c);
    assert ([x] + c)[1..] == c;
  }

  /** Filtering a list with two association tables in it leaves the other three runs. */
  lemma DropTwo(names: seq<string>, a: seq<string>, x: string, b: seq<string>, y: string, c: seq<string>)
    requires names == a + [x] + (b + [y] + c)
    requires AllEager(a) && AllEager(b) && AllEager(c)
    requires x in AssociationTables && y in AssociationTables
    ensures EagerNames(names) == a + (b + c)
  {
    DropOne(a, x, b + [y] + c);
    DropOne(b, y, c);
    EagerNamesKeep(a);
    EagerNamesKeep(b);
    EagerNamesKeep(c);
  }

  /** Where the association tables sit in the curated list. */
  lemma CuratedShape()
    ensures CuratedTables == CuratedTables[..5] + [CuratedTables[5]] + (CuratedTables[6..7] + [CuratedTables[7]] + CuratedTables[8..])
    ensures SubRecordTables == CuratedTables[..5] + (CuratedTables[6..7] + CuratedTables[8..])
    ensures AllEager(CuratedTables[..5]) && AllEager(CuratedTables[6..7]) && AllEager(CuratedTables[8..])
    ensures CuratedTables[5] in AssociationTables && CuratedTables[7] in AssociationTables
  {
  }

  /** Dropping the association tables from the curated list leaves the record tables. */
  lemma CuratedEagerNames()
    ensures EagerNames(CuratedTables) == SubRecordTables
  {
    CuratedShape();
    DropTwo(CuratedTables, CuratedTables[..5], CuratedTables[5], CuratedTables[6..7], CuratedTables[7], CuratedTables[8..]);
  }
}
