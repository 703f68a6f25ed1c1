/** The table-diff endpoint (`get_table_diff`): reconcile the two schemas, pick the
    numeric same-type columns, query their statistics on both sides and report the
    percent difference of each statistic and the difference of the row counts. */
module TableDiff {
  import opened Wrappers
  import opened Strings
  import opened ColumnTypes
  import opened Reconcile
  import opened SchemaInfo
  import opened Metrics
  import opened Databases

  /** The columns of the same-type entries whose type falls in class `k`. */
  ghost function ColumnsOfClass(same: seq<SameTypeEntry>, k: DiffClass): set<string>
  {
    set i | 0 <= i < |same| && DiffClassOf(same[i].base) == k :: same[i].column
  }

  lemma ColumnsOfClassAppend(same: seq<SameTypeEntry>, e: SameTypeEntry, k: DiffClass)
    ensures ColumnsOfClass(same + [e], k)
         == ColumnsOfClass(same, k) + (if DiffClassOf(e.base) == k then {e.column} else {})
  {
    var all := same + [e];
    assert all[|same|] == e;
    forall x | x in ColumnsOfClass(same, k)
      ensures x in ColumnsOfClass(all, k)
    {
      var i :| 0 <= i < |same| && DiffClassOf(same[i].base) == k && same[i].column == x;
      assert all[i] == same[i];
    }
  }

  /** The classification loop over `common_columns_same_type`: each column goes to
      the numeric set, the text set or neither, by the diff-mode rule applied to
      the base type recorded for it. */
  method ClassifySameType(same: seq<SameTypeEntry>) returns (numeric: set<string>, text: set<string>)
    ensures numeric == ColumnsOfClass(same, Numeric)
    ensures text == ColumnsOfClass(same, Text)
  {
    numeric, text := {}, {};
    for n := 0 to |same|
      invariant numeric == ColumnsOfClass(same[..n], Numeric)
      invariant text == ColumnsOfClass(same[..n], Text)
    {
      var e := same[n];
      var cls := DiffClassOf(e.base);
      if cls == Numeric {
        numeric := numeric + {e.column};
      } else if cls == Text {
        text := text + {e.column};
      }
      assert same[..n + 1] == same[..n] + [e];
      ColumnsOfClassAppend(same[..n], e, Numeric);
      ColumnsOfClassAppend(same[..n], e, Text);
    }
    assert same[..|same|] == same;
  }

  /** The columns of two tables that the diff analyses: present in both, with equal
      raw base types, and numeric by the diff-mode rule. */
  function Analysed(t1: Columns, t2: Columns): (r: set<string>)
    ensures r <= t1.Keys * t2.Keys
  {
    set c | c in t1 && SameRawBase(t1, t2, c) && DiffClassOf(RawBase(t1[c])) == Numeric
  }

  /** Over the same-type entries of a reconciliation, class `k` holds exactly the
      common columns with equal raw base types whose type falls in `k`. */
  lemma ClassesOfSameType(t1: Columns, t2: Columns, common: set<string>,
                          same: seq<SameTypeEntry>, k: DiffClass)
    requires common == t1.Keys * t2.Keys
    requires ListsSameType(t1, t2, common, same)
    ensures ColumnsOfClass(same, k)
         == set c | c in t1 && SameRawBase(t1, t2, c) && DiffClassOf(RawBase(t1[c])) == k
  {
    var want := set c | c in t1 && SameRawBase(t1, t2, c) && DiffClassOf(RawBase(t1[c])) == k;
    forall c | c in ColumnsOfClass(same, k)
      ensures c in want
    {
      var i :| 0 <= i < |same| && DiffClassOf(same[i].base) == k && same[i].column == c;
      assert c in SameTypeColumns(same);
    }
    forall c | c in want
      ensures c in ColumnsOfClass(same, k)
    {
      assert c in SameTypeColumns(same);
      var i :| 0 <= i < |same| && same[i].column == c;
    }
  }

  /** The numeric and text columns of a diff are disjoint, and both are common
      columns whose raw base types agree. */
  lemma ClassesPartSameType(t1: Columns, t2: Columns, common: set<string>, same: seq<SameTypeEntry>)
    requires common == t1.Keys * t2.Keys
    requires ListsSameType(t1, t2, common, same)
    ensures ColumnsOfClass(same, Numeric) !! ColumnsOfClass(same, Text)
    ensures ColumnsOfClass(same, Numeric) + ColumnsOfClass(same, Text) <= SameTypeColumns(same)
    ensures ColumnsOfClass(same, Numeric) == Analysed(t1, t2)
  {
    ClassesOfSameType(t1, t2, common, same, Numeric);
    ClassesOfSameType(t1, t2, common, same, Text);
  }

  /** Every column the diff analyses is listed as numeric, for both tables, by the
      schema-mode listing of the available-columns endpoint. */
  lemma AnalysedAreListedNumeric(t1: Columns, t2: Columns, info1: ColumnsInfo, info2: ColumnsInfo, c: string)
    requires Describes(t1, info1) && Describes(t2, info2)
    requires c in Analysed(t1, t2)
    ensures c in info1.numeric && c in info2.numeric
  {
    DiffNumericIsSchemaNumeric(RawBase(t1[c]));
  }

  /** The percent difference of two statistics, before rounding; Python raises
      `ZeroDivisionError` when the first is zero. */
  function PercentDiff(v1: real, v2: real): (d: real)
    requires v1 != 0.0
    ensures d == 0.0 <==> v1 == v2
  {
    (v1 - v2) * 100.0 / v1
  }

  /** Label `k` of the first table can be compared: the second table has it and the
      first table's value is not zero. */
  predicate Comparable(o1: map<string, real>, o2: map<string, real>, k: string)
  {
    k in o1 && k in o2 && o1[k] != 0.0
  }

  /** The percent difference of every comparable label. */
  function Diffs(o1: map<string, real>, o2: map<string, real>): map<string, real>
  {
    map k | k in o1 && Comparable(o1, o2, k) :: PercentDiff(o1[k], o2[k])
  }

  /** Why the diff loop raises. */
  datatype DiffError =
    | Access(cause: AccessError)
    | MissingKey(key: string)
    | ZeroDivision(key: string)

  /** `e` is an exception the diff loop raises at some label of the first table:
      a missing label of the second table first, then a zero divisor. */
  predicate RaisedAt(o1: map<string, real>, o2: map<string, real>, e: DiffError)
  {
    || (e.MissingKey? && e.key in o1 && e.key !in o2)
    || (e.ZeroDivision? && e.key in o1 && e.key in o2 && o1[e.key] == 0.0)
  }

  /** `metrics_diff`: the percent differences filed by statistic and column, and the
      difference of the row counts. */
  datatype MetricsDiff = MetricsDiff(mean: map<string, real>, stddev: map<string, real>, rowCountDiff: int)

  /** The diff loop and the row-count difference: the loop succeeds exactly when
      every label of the first table is comparable; then each "mean" and "stddev"
      label's percent difference is filed under the column it names, other labels
      are dropped, and the row-count difference is the plain integer difference. */
  method DiffMetrics(o1: map<string, real>, o2: map<string, real>, rowCount1: int, rowCount2: int)
    returns (r: Result<MetricsDiff, DiffError>)
    ensures r.Success? <==> forall k :: k in o1 ==> Comparable(o1, o2, k)
    ensures r.Failure? ==> RaisedAt(o1, o2, r.error)
    ensures r.Success? ==> FiledStatistic(Diffs(o1, o2), o1.Keys, "mean", r.value.mean)
    ensures r.Success? ==> FiledStatistic(Diffs(o1, o2), o1.Keys, "stddev", r.value.stddev)
    ensures r.Success? ==> r.value.rowCountDiff == rowCount1 - rowCount2
  {
    ghost var results := Diffs(o1, o2);
    var mean: map<string, real> := map[];
    var stddev: map<string, real> := map[];
    var todo := o1.Keys;
    assert ColumnsNamed({}, "mean") == {} && ColumnsNamed({}, "stddev") == {};
    while todo != {}
      invariant todo <= o1.Keys
      invariant forall k :: k in o1 && k !in todo ==> Comparable(o1, o2, k)
      invariant FiledStatistic(results, o1.Keys - todo, "mean", mean)
      invariant FiledStatistic(results, o1.Keys - todo, "stddev", stddev)
      decreases todo
    {
      var key :| key in todo;
      ghost var done := o1.Keys - todo;
      if key !in o2 {
        return Failure(MissingKey(key));
      }
      var v1, v2 := o1[key], o2[key];
      if v1 == 0.0 {
        return Failure(ZeroDivision(key));
      }
      var d := PercentDiff(v1, v2);
      var parts := RPartition(key, '_');
      ghost var mean0, stddev0 := mean, stddev;
      if parts.tail == "mean" {
        mean := mean[parts.head := d];
      } else if parts.tail == "stddev" {
        stddev := stddev[parts.head := d];
      }
      RouteStep(results, done, key, parts.head, parts.tail, d, mean0, stddev0, mean, stddev);
      todo := todo - {key};
      assert o1.Keys - todo == done + {key};
    }
    r := Success(MetricsDiff(mean, stddev, rowCount1 - rowCount2));
  }

  /** Routing one more label's difference keeps both diff maps exact. */
  lemma RouteStep(results: map<string, real>, done: set<string>, key: string,
                  column: string, agg: string, d: real,
                  mean: map<string, real>, stddev: map<string, real>,
                  mean': map<string, real>, stddev': map<string, real>)
    requires key in results && results[key] == d
    requires ColumnOf(key) == column && AggOf(key) == agg
    requires FiledStatistic(results, done, "mean", mean)
    requires FiledStatistic(results, done, "stddev", stddev)
    requires mean' == if agg == "mean" then mean[column := d] else mean
    requires stddev' == if agg == "stddev" then stddev[column := d] else stddev
    ensures FiledStatistic(results, done + {key}, "mean", mean')
    ensures FiledStatistic(results, done + {key}, "stddev", stddev')
  {
    if AggOf(key) == "mean" {
      FileOne(results, done, key, mean);
      KeepOther(results, done, key, "stddev", stddev);
    } else if AggOf(key) == "stddev" {
      KeepOther(results, done, key, "mean", mean);
      FileOne(results, done, key, stddev);
    } else {
      KeepOther(results, done, key, "mean", mean);
      KeepOther(results, done, key, "stddev", stddev);
    }
  }

  /** When the first table's statistics are exactly those requested for `columns`
      and all are comparable, each statistic's diff map holds every requested column
      and nothing else, with the percent difference of that column's label. */
  lemma LabelledDiffs(columns: set<string>, o1: map<string, real>, o2: map<string, real>,
                      kind: string, values: map<string, real>)
    requires kind in AvailableMetrics
    requires o1.Keys == Labels(columns)
    requires forall k :: k in o1 ==> Comparable(o1, o2, k)
    requires FiledStatistic(Diffs(o1, o2), o1.Keys, kind, values)
    ensures forall c :: c in columns ==> Comparable(o1, o2, Label(c, kind))
    ensures values.Keys == columns
    ensures forall c :: c in columns ==> values[c] == PercentDiff(o1[Label(c, kind)], o2[Label(c, kind)])
  {
    ghost var results := Diffs(o1, o2);
    assert results.Keys == o1.Keys;
    FiledLabels(columns, results, kind, values);
  }

  /** `columns_data` as reported: the reconciliation without its same-type list,
      which the endpoint pops. */
  datatype ColumnsReport = ColumnsReport(
    table1Uncommon: set<string>,
    table2Uncommon: set<string>,
    common: set<string>,
    differentType: seq<DifferentTypeEntry>)

  /** The endpoint's answer: the columns report, each table's formatted metrics under
      `rows_data` (the flat statistics are popped from those same dictionaries before
      the answer is returned), and `metrics_diff`. */
  datatype DiffReport = DiffReport(
    columns: ColumnsReport,
    rows1: map<string, MetricEntry>,
    rows2: map<string, MetricEntry>,
    metricsDiff: MetricsDiff)

  /** The flat statistics the service keeps for the `columns` of a table: the query
      row rounded to two places, or `{}` when the query raises. */
  function Statistics(db: Catalog, conn: string, table: string, columns: set<string>): map<string, real>
  {
    RoundAll(db.aggregates(conn, table, Labels(columns)).GetOr(map[]))
  }

  /** Rounding comes before the division: a label of the first table can be compared
      exactly when the second table has it and the first table's unrounded value lies
      farther than 0.005 from zero, so a mean of 0.004 raises `ZeroDivisionError`. */
  lemma ComparableAfterRounding(raw1: map<string, real>, o2: map<string, real>, k: string)
    ensures Comparable(RoundAll(raw1), o2, k) <==> k in raw1 && k in o2 && !(-0.005 <= raw1[k] <= 0.005)
  {
    if k in raw1 {
      Round2Zero(raw1[k]);
    }
  }

  /** The row count a table answers: 0 when the query raises. */
  function RowCountOf(db: Catalog, conn: string, table: string): int
  {
    db.rowCount(conn, table).GetOr(0)
  }

  /** Both connection strings open an engine and both tables exist. */
  predicate Reachable(db: Catalog, conn1: string, table1: string, conn2: string, table2: string)
  {
    db.connects(conn1) && db.connects(conn2) && table1 in db.tables(conn1) && table2 in db.tables(conn2)
  }

  /** `report` is the answer for tables `t1` and `t2`, whose statistics are `o1` and `o2`
      and whose row counts are `count1` and `count2`. */
  ghost predicate Reports(t1: Columns, t2: Columns, o1: map<string, real>, o2: map<string, real>,
                          count1: int, count2: int, report: DiffReport)
  {
    && report.columns.common == t1.Keys * t2.Keys
    && report.columns.table1Uncommon == t1.Keys - t2.Keys
    && report.columns.table2Uncommon == t2.Keys - t1.Keys
    && ListsDifferentType(t1, t2, report.columns.common, report.columns.differentType)
    && RekeyedOver(o1, o1.Keys, count1, report.rows1)
    && RekeyedOver(o2, o2.Keys, count2, report.rows2)
    && FiledStatistic(Diffs(o1, o2), o1.Keys, "mean", report.metricsDiff.mean)
    && FiledStatistic(Diffs(o1, o2), o1.Keys, "stddev", report.metricsDiff.stddev)
    && report.metricsDiff.rowCountDiff == count1 - count2
  }

  /** `get_table_diff`: the four access checks in the endpoint's order; then the
      statistics of the analysed columns are requested from both tables, and the
      answer is reported exactly when the diff loop does not raise. */
  method GetTableDiff(db: Catalog, conn1: string, table1: string, conn2: string, table2: string)
    returns (r: Result<DiffReport, DiffError>)
    ensures !db.connects(conn1) ==> r == Failure(Access(CannotConnect(conn1)))
    ensures db.connects(conn1) && !db.connects(conn2) ==> r == Failure(Access(CannotConnect(conn2)))
    ensures db.connects(conn1) && db.connects(conn2) && table1 !in db.tables(conn1) ==>
              r == Failure(Access(NoSuchTable(conn1, table1)))
    ensures db.connects(conn1) && db.connects(conn2) && table1 in db.tables(conn1) && table2 !in db.tables(conn2) ==>
              r == Failure(Access(NoSuchTable(conn2, table2)))
    ensures Reachable(db, conn1, table1, conn2, table2) ==>
              var t1, t2 := db.columns(conn1, table1), db.columns(conn2, table2);
              var o1 := Statistics(db, conn1, table1, Analysed(t1, t2));
              var o2 := Statistics(db, conn2, table2, Analysed(t1, t2));
              && (r.Success? <==> forall k :: k in o1 ==> Comparable(o1, o2, k))
              && (r.Failure? ==> RaisedAt(o1, o2, r.error))
              && (r.Success? ==> Reports(t1, t2, o1, o2, RowCountOf(db, conn1, table1),
                                         RowCountOf(db, conn2, table2), r.value))
  {
    if !db.connects(conn1) {
      return Failure(Access(CannotConnect(conn1)));
    }
    if !db.connects(conn2) {
      return Failure(Access(CannotConnect(conn2)));
    }
    if table1 !in db.tables(conn1) {
      return Failure(Access(NoSuchTable(conn1, table1)));
    }
    if table2 !in db.tables(conn2) {
      return Failure(Access(NoSuchTable(conn2, table2)));
    }
    var t1, t2 := db.columns(conn1, table1), db.columns(conn2, table2);
    var data := GetColumnsData(t1, t2);
    var numeric, text := ClassifySameType(data.sameType);
    ClassesPartSameType(t1, t2, data.common, data.sameType);
    var m1 := GetTableMetric(db.aggregates(conn1, table1, Labels(numeric)), db.rowCount(conn1, table1));
    var m2 := GetTableMetric(db.aggregates(conn2, table2, Labels(numeric)), db.rowCount(conn2, table2));
    var diff := DiffMetrics(m1.original, m2.original, m1.metrics[RowCountKey].count, m2.metrics[RowCountKey].count);
    if diff.Failure? {
      return Failure(diff.error);
    }
    var columns := ColumnsReport(data.table1Uncommon, data.table2Uncommon, data.common, data.differentType);
    r := Success(DiffReport(columns, m1.metrics, m2.metrics, diff.value));
  }
}
