/** Schema reconciliation (`get_columns_data`): which columns the two tables share,
    which each has alone, and whether a shared column has the same type on both sides. */
module Reconcile {
  import Strings
  import opened ColumnTypes

  /** The reflected columns of one table: column name -> `str(column.type)`. */
  type Columns = map<string, string>

  /** A `{column: base}` entry of `common_columns_same_type`. */
  datatype SameTypeEntry = SameTypeEntry(column: string, base: string)

  /** A `{column: {"table_1": base1, "table_2": base2}}` entry of
      `common_columns_different_type`. */
  datatype DifferentTypeEntry = DifferentTypeEntry(column: string, table1: string, table2: string)

  /** The dictionary `get_columns_data` returns; the name lists are sets because
      they are built from Python sets, whose order is unspecified. */
  datatype ColumnsData = ColumnsData(
    table1Uncommon: set<string>,
    table2Uncommon: set<string>,
    common: set<string>,
    sameType: seq<SameTypeEntry>,
    differentType: seq<DifferentTypeEntry>)

  /** Both tables have column `c` and its raw base types are equal as strings:
      no case folding, so "INTEGER" and "integer" differ. */
  predicate SameRawBase(t1: Columns, t2: Columns, c: string)
  {
    c in t1 && c in t2 && RawBase(t1[c]) == RawBase(t2[c])
  }

  ghost function SameTypeColumns(entries: seq<SameTypeEntry>): set<string>
  {
    set i | 0 <= i < |entries| :: entries[i].column
  }

  ghost function DifferentTypeColumns(entries: seq<DifferentTypeEntry>): set<string>
  {
    set i | 0 <= i < |entries| :: entries[i].column
  }

  lemma SameTypeColumnsAppend(entries: seq<SameTypeEntry>, e: SameTypeEntry)
    ensures SameTypeColumns(entries + [e]) == SameTypeColumns(entries) + {e.column}
  {
    var all := entries + [e];
    assert all[|entries|] == e;
    forall x | x in SameTypeColumns(entries)
      ensures x in SameTypeColumns(all)
    {
      var i :| 0 <= i < |entries| && entries[i].column == x;
      assert all[i] == entries[i];
    }
  }

  lemma DifferentTypeColumnsAppend(entries: seq<DifferentTypeEntry>, e: DifferentTypeEntry)
    ensures DifferentTypeColumns(entries + [e]) == DifferentTypeColumns(entries) + {e.column}
  {
    var all := entries + [e];
    assert all[|entries|] == e;
    forall x | x in DifferentTypeColumns(entries)
      ensures x in DifferentTypeColumns(all)
    {
      var i :| 0 <= i < |entries| && entries[i].column == x;
      assert all[i] == entries[i];
    }
  }

  /** `entries` lists, once each, exactly the columns of `cols` whose raw base types
      agree, each with table_1's raw base type. */
  ghost predicate ListsSameType(t1: Columns, t2: Columns, cols: set<string>, entries: seq<SameTypeEntry>)
  {
    && SameTypeColumns(entries) == (set c | c in cols && SameRawBase(t1, t2, c))
    && (forall i :: 0 <= i < |entries| ==>
          entries[i].column in t1 && entries[i].base == RawBase(t1[entries[i].column]))
    && (forall i, j :: 0 <= i < j < |entries| ==> entries[i].column != entries[j].column)
  }

  /** `entries` lists, once each, exactly the columns of `cols` present in both tables
      whose raw base types differ, each with both raw base types. */
  ghost predicate ListsDifferentType(t1: Columns, t2: Columns, cols: set<string>, entries: seq<DifferentTypeEntry>)
  {
    && DifferentTypeColumns(entries) == (set c | c in cols && c in t1 && c in t2 && !SameRawBase(t1, t2, c))
    && (forall i :: 0 <= i < |entries| ==>
          && entries[i].column in t1 && entries[i].column in t2
          && entries[i].table1 == RawBase(t1[entries[i].column])
          && entries[i].table2 == RawBase(t2[entries[i].column]))
    && (forall i, j :: 0 <= i < j < |entries| ==> entries[i].column != entries[j].column)
  }

  /** `get_columns_data`: a column is common when its name is a key of both tables;
      common and uncommon names partition each table's names; every common column
      is listed exactly once, as same-type or as different-type. */
  method GetColumnsData(t1: Columns, t2: Columns) returns (d: ColumnsData)
    ensures d.common == t1.Keys * t2.Keys
    ensures d.common + d.table1Uncommon == t1.Keys && d.common !! d.table1Uncommon
    ensures d.common + d.table2Uncommon == t2.Keys && d.common !! d.table2Uncommon
    ensures ListsSameType(t1, t2, d.common, d.sameType)
    ensures ListsDifferentType(t1, t2, d.common, d.differentType)
    ensures SameTypeColumns(d.sameType) + DifferentTypeColumns(d.differentType) == d.common
    ensures SameTypeColumns(d.sameType) !! DifferentTypeColumns(d.differentType)
  {
    // the lookup loop: a column of table_1 is common when table_2 has the key
    var common: set<string> := {};
    var todo := t1.Keys;
    while todo != {}
      invariant todo <= t1.Keys
      invariant common == (t1.Keys - todo) * t2.Keys
      decreases todo
    {
      var c :| c in todo;
      if c in t2 {
        common := common + {c};
      }
      todo := todo - {c};
    }
    var uncommon1 := t1.Keys - common;
    var uncommon2 := t2.Keys - common;

    // the typing loop over the common columns
    var same: seq<SameTypeEntry> := [];
    var different: seq<DifferentTypeEntry> := [];
    var rest := common;
    while rest != {}
      invariant rest <= common
      invariant ListsSameType(t1, t2, common - rest, same)
      invariant ListsDifferentType(t1, t2, common - rest, different)
      decreases rest
    {
      var c :| c in rest;
      var base1 := RawBase(t1[c]);
      var base2 := RawBase(t2[c]);
      ghost var done := common - rest;
      if base1 == base2 {
        ListSame(t1, t2, done, c, same, different);
        same := same + [SameTypeEntry(c, base1)];
      } else {
        ListDifferent(t1, t2, done, c, same, different);
        different := different + [DifferentTypeEntry(c, base1, base2)];
      }
      rest := rest - {c};
      assert common - rest == done + {c};
    }
    assert common - rest == common;
    ListsCoverCommon(t1, t2, common, same, different);
    d := ColumnsData(uncommon1, uncommon2, common, same, different);
  }

  /** A common column whose raw base types agree is listed as same-type. */
  lemma ListSame(t1: Columns, t2: Columns, done: set<string>, c: string,
                 same: seq<SameTypeEntry>, different: seq<DifferentTypeEntry>)
    requires c in t1 && c in t2 && c !in done && SameRawBase(t1, t2, c)
    requires ListsSameType(t1, t2, done, same)
    requires ListsDifferentType(t1, t2, done, different)
    ensures ListsSameType(t1, t2, done + {c}, same + [SameTypeEntry(c, RawBase(t1[c]))])
    ensures ListsDifferentType(t1, t2, done + {c}, different)
  {
    SameTypeColumnsAppend(same, SameTypeEntry(c, RawBase(t1[c])));
  }

  /** A common column whose raw base types differ is listed as different-type. */
  lemma ListDifferent(t1: Columns, t2: Columns, done: set<string>, c: string,
                      same: seq<SameTypeEntry>, different: seq<DifferentTypeEntry>)
    requires c in t1 && c in t2 && c !in done && !SameRawBase(t1, t2, c)
    requires ListsSameType(t1, t2, done, same)
    requires ListsDifferentType(t1, t2, done, different)
    ensures ListsSameType(t1, t2, done + {c}, same)
    ensures ListsDifferentType(t1, t2, done + {c}, different + [DifferentTypeEntry(c, RawBase(t1[c]), RawBase(t2[c]))])
  {
    DifferentTypeColumnsAppend(different, DifferentTypeEntry(c, RawBase(t1[c]), RawBase(t2[c])));
  }

  /** Between them, the two lists name every common column once. */
  lemma ListsCoverCommon(t1: Columns, t2: Columns, common: set<string>,
                         same: seq<SameTypeEntry>, different: seq<DifferentTypeEntry>)
    requires common <= t1.Keys && common <= t2.Keys
    requires ListsSameType(t1, t2, common, same)
    requires ListsDifferentType(t1, t2, common, different)
    ensures SameTypeColumns(same) + DifferentTypeColumns(different) == common
    ensures SameTypeColumns(same) !! DifferentTypeColumns(different)
  {
  }

  /** Same-type means equal raw strings: a column declared "INTEGER" in one table and
      "integer" in the other is listed as different-type, although schema mode
      reports the same base type for both. */
  lemma TypeComparisonIsCaseSensitive(t1: Columns, t2: Columns, c: string)
    requires c in t1 && t1[c] == "INTEGER"
    requires c in t2 && t2[c] == "integer"
    ensures !SameRawBase(t1, t2, c)
    ensures SchemaBaseType(t1[c]) == SchemaBaseType(t2[c])
  {
  }
}
