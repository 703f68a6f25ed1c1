/** One table's statistics: the labels they are requested under, and their
    re-keying (`get_table_metric`) from flat labels "{column}_{agg}" into
    `formatted[agg][column]` beside the row count. */
module Metrics {
  import opened Strings
  import opened Wrappers

  /** `get_available_metrics`: the only statistics computed and compared. */
  const AvailableMetrics: seq<string> := ["mean", "stddev"]

  /** The key of the row count in the formatted metrics. */
  const RowCountKey: string := "row_count"

  /** The label `f"{column}_{kind}"` under which one statistic of one column is requested. */
  function Label(column: string, kind: string): string
  {
    column + "_" + kind
  }

  /** The labels under which the statistics of `columns` are requested:
      `"{column}_mean"` and `"{column}_stddev"` for each column. */
  function Labels(columns: set<string>): set<string>
  {
    (set c | c in columns :: Label(c, "mean")) + (set c | c in columns :: Label(c, "stddev"))
  }

  /** The column a label names: what precedes its last "_" (`rpartition("_")[0]`). */
  function ColumnOf(key: string): string
  {
    RPartition(key, '_').head
  }

  /** The statistic a label names: what follows its last "_" (`rpartition("_")[2]`). */
  function AggOf(key: string): string
  {
    RPartition(key, '_').tail
  }

  /** A value of the formatted metrics: the row count, or one statistic's
      column -> value map. */
  datatype MetricEntry = RowCount(count: int) | PerColumn(values: map<string, real>)

  /** What `get_table_metric` returns: `{"metrics": ..., "original_metrics": ...}`. */
  datatype TableMetric = TableMetric(metrics: map<string, MetricEntry>, original: map<string, real>)

  /** The statistics named by the labels `keys`. */
  ghost function StatisticsNamed(keys: set<string>): set<string>
  {
    set k | k in keys :: AggOf(k)
  }

  /** The columns named by those labels of `keys` that name statistic `agg`. */
  ghost function ColumnsNamed(keys: set<string>, agg: string): set<string>
  {
    set k | k in keys && AggOf(k) == agg :: ColumnOf(k)
  }

  /** `v` is the value of some label among `keys` that splits into `(col, agg)`. */
  ghost predicate FiledFrom(results: map<string, real>, keys: set<string>, agg: string, col: string, v: real)
  {
    exists k :: k in keys && k in results && ColumnOf(k) == col && AggOf(k) == agg && results[k] == v
  }

  /** `values` holds statistic `agg` of the labels `keys`: one entry per column
      named under `agg`, holding the value of a label that names it. */
  ghost predicate FiledStatistic(results: map<string, real>, keys: set<string>, agg: string,
                                 values: map<string, real>)
  {
    && values.Keys == ColumnsNamed(keys, agg)
    && forall col :: col in values ==> FiledFrom(results, keys, agg, col, values[col])
  }

  /** `metrics` is the re-keying of the labels `keys` of `results` beside the row
      count `count`: the row count, plus one column map per statistic named. */
  ghost predicate RekeyedOver(results: map<string, real>, keys: set<string>, count: int,
                              metrics: map<string, MetricEntry>)
  {
    && keys <= results.Keys
    && metrics.Keys == {RowCountKey} + StatisticsNamed(keys)
    && metrics[RowCountKey] == RowCount(count)
    && (forall agg :: agg in metrics && agg != RowCountKey ==>
          metrics[agg].PerColumn? && FiledStatistic(results, keys, agg, metrics[agg].values))
  }

  /** No label can name the statistic "row_count", since what follows the last "_"
      of a label has no "_": the row count is never overwritten. */
  lemma AggIsNeverRowCount(key: string)
    ensures AggOf(key) != RowCountKey
  {
  }

  /** `round(x, 2)` on the exact value of `x`: the nearest multiple of 0.01,
      ties going to the even multiple. */
  function Round2(x: real): (r: real)
    ensures (r * 100.0).Floor as real == r * 100.0
    ensures x - 0.005 <= r <= x + 0.005
  {
    var scaled := x * 100.0;
    var n := scaled.Floor;
    var frac := scaled - n as real;
    var m := if frac < 0.5 then n else if frac > 0.5 then n + 1 else if n % 2 == 0 then n else n + 1;
    assert m as real - 0.5 <= scaled <= m as real + 0.5;
    assert (m as real / 100.0) * 100.0 == m as real;
    m as real / 100.0
  }

  /** A value already rounded to two places is left as it is. */
  lemma Round2Idempotent(x: real)
    ensures Round2(Round2(x)) == Round2(x)
  {
    var r := Round2(x);
    var n := (r * 100.0).Floor;
    assert (r * 100.0) - n as real == 0.0;
  }

  /** A statistic rounds to zero exactly when it lies within 0.005 of zero. */
  lemma Round2Zero(x: real)
    ensures Round2(x) == 0.0 <==> -0.005 <= x <= 0.005
  {
    var scaled := x * 100.0;
    var n := scaled.Floor;
    if -0.005 <= x <= 0.005 {
      assert -0.5 <= scaled <= 0.5;
      assert n == 0 || n == -1;
    } else {
      assert scaled < -0.5 || scaled > 0.5;
    }
  }

  /** The flat statistics as the service keeps them (api.py:65-67): every value
      rounded to two places, under the same label. */
  function RoundAll(raw: map<string, real>): (r: map<string, real>)
    ensures r.Keys == raw.Keys
  {
    map k | k in raw :: Round2(raw[k])
  }

  /** Each kept statistic has two decimals and lies within 0.005 of the answered one. */
  lemma RoundAllClose(raw: map<string, real>, k: string)
    requires k in raw
    ensures (RoundAll(raw)[k] * 100.0).Floor as real == RoundAll(raw)[k] * 100.0
    ensures raw[k] - 0.005 <= RoundAll(raw)[k] <= raw[k] + 0.005
  {
    assert RoundAll(raw)[k] == Round2(raw[k]);
  }

  /** `get_table_metric` after the two queries: a failed statistics query leaves no
      statistics and a failed count query a row count of 0; every value is rounded
      to two places; every label is filed under the statistic and column it names;
      the rounded flat map is returned beside. */
  method GetTableMetric(aggregates: Option<map<string, real>>, rowCount: Option<int>) returns (m: TableMetric)
    ensures m.original == RoundAll(aggregates.GetOr(map[]))
    ensures RekeyedOver(m.original, m.original.Keys, rowCount.GetOr(0), m.metrics)
  {
    var results := RoundAll(aggregates.GetOr(map[]));
    var count := rowCount.GetOr(0);
    var formatted: map<string, MetricEntry> := map[RowCountKey := RowCount(count)];
    var todo := results.Keys;
    while todo != {}
      invariant todo <= results.Keys
      invariant RekeyedOver(results, results.Keys - todo, count, formatted)
      decreases todo
    {
      var key :| key in todo;
      ghost var done := results.Keys - todo;
      ghost var before := formatted;
      var parts := RPartition(key, '_');
      var column, agg := parts.head, parts.tail;
      AggIsNeverRowCount(key);
      var values: map<string, real> := map[];
      if agg in formatted {
        values := formatted[agg].values;
      }
      formatted := formatted[agg := PerColumn(values[column := results[key]])];
      RekeyStep(results, done, count, before, key, formatted);
      todo := todo - {key};
      assert results.Keys - todo == done + {key};
    }
    assert results.Keys - todo == results.Keys;
    m := TableMetric(formatted, results);
  }

  /** Filing one more label keeps the re-keying relation. */
  lemma RekeyStep(results: map<string, real>, done: set<string>, count: int,
                  before: map<string, MetricEntry>, key: string, after: map<string, MetricEntry>)
    requires RekeyedOver(results, done, count, before)
    requires key in results && key !in done
    requires AggOf(key) != RowCountKey
    requires after == before[AggOf(key) := PerColumn(
               (if AggOf(key) in before then before[AggOf(key)].values else map[])[ColumnOf(key) := results[key]])]
    ensures RekeyedOver(results, done + {key}, count, after)
  {
    var now := done + {key};
    var agg := AggOf(key);
    assert StatisticsNamed(now) == StatisticsNamed(done) + {agg};
    if agg !in before {
      assert ColumnsNamed(done, agg) == {};
      assert FiledStatistic(results, done, agg, map[]);
    }
    FileOne(results, done, key, if agg in before then before[agg].values else map[]);
    forall a | a in after && a != RowCountKey && a != agg
      ensures FiledStatistic(results, now, a, after[a].values)
    {
      KeepOther(results, done, key, a, before[a].values);
    }
  }

  /** Filing the value of `key` under its own statistic. */
  lemma FileOne(results: map<string, real>, done: set<string>, key: string, values: map<string, real>)
    requires key in results
    requires FiledStatistic(results, done, AggOf(key), values)
    ensures FiledStatistic(results, done + {key}, AggOf(key), values[ColumnOf(key) := results[key]])
  {
  }

  /** A statistic other than the one `key` names is untouched by filing `key`. */
  lemma KeepOther(results: map<string, real>, done: set<string>, key: string, agg: string, values: map<string, real>)
    requires AggOf(key) != agg
    requires FiledStatistic(results, done, agg, values)
    ensures FiledStatistic(results, done + {key}, agg, values)
  {
  }

  /** A label built as `f"{column}_{kind}"` splits back into `column` and `kind`
      whenever `kind` has no "_", even if `column` has some. */
  lemma LabelSplit(column: string, kind: string)
    requires '_' !in kind
    ensures ColumnOf(Label(column, kind)) == column
    ensures AggOf(Label(column, kind)) == kind
  {
    RPartitionOfJoin(column, '_', kind);
  }

  /** Every requested label names one of the requested columns and one of the
      available statistics, and is rebuilt from the two. */
  lemma LabelParts(columns: set<string>, key: string)
    requires key in Labels(columns)
    ensures ColumnOf(key) in columns
    ensures AggOf(key) in AvailableMetrics
    ensures key == Label(ColumnOf(key), AggOf(key))
  {
    var c :| c in columns && (key == Label(c, "mean") || key == Label(c, "stddev"));
    if key == Label(c, "mean") {
      LabelSplit(c, "mean");
    } else {
      LabelSplit(c, "stddev");
    }
  }

  /** When the statistics query returns exactly the requested labels, the formatted
      metrics hold the row count and one map per available statistic, and each map
      holds, for every requested column, the value of that column's label. */
  lemma RekeyedLabels(columns: set<string>, results: map<string, real>, count: int,
                      metrics: map<string, MetricEntry>)
    requires columns != {}
    requires results.Keys == Labels(columns)
    requires RekeyedOver(results, results.Keys, count, metrics)
    ensures metrics.Keys == {RowCountKey} + (set m | m in AvailableMetrics)
    ensures metrics[RowCountKey] == RowCount(count)
  {
    StatisticsOfLabels(columns);
  }

  /** The requested labels of at least one column name exactly the two available
      statistics. */
  lemma StatisticsOfLabels(columns: set<string>)
    requires columns != {}
    ensures StatisticsNamed(Labels(columns)) == {"mean", "stddev"}
  {
    var c0 :| c0 in columns;
    LabelSplit(c0, "mean");
    LabelSplit(c0, "stddev");
    assert Label(c0, "mean") in Labels(columns) && Label(c0, "stddev") in Labels(columns);
    forall k | k in Labels(columns)
      ensures AggOf(k) in AvailableMetrics
    {
      LabelParts(columns, k);
    }
  }

  /** In the same setting, each available statistic's map holds, for every requested
      column, the value of that column's label, and nothing else. */
  lemma RekeyedStatistic(columns: set<string>, results: map<string, real>, count: int,
                         metrics: map<string, MetricEntry>, kind: string)
    requires columns != {} && kind in AvailableMetrics
    requires results.Keys == Labels(columns)
    requires RekeyedOver(results, results.Keys, count, metrics)
    ensures kind in metrics
    ensures forall c :: c in columns ==> Label(c, kind) in results
    ensures metrics[kind].PerColumn? && metrics[kind].values.Keys == columns
    ensures forall c :: c in columns ==> metrics[kind].values[c] == results[Label(c, kind)]
  {
    RekeyedLabels(columns, results, count, metrics);
    AggIsNeverRowCount(Label("", kind));
    FiledLabels(columns, results, kind, metrics[kind].values);
  }

  /** The column map of one statistic, when the labels are exactly the requested ones. */
  lemma FiledLabels(columns: set<string>, results: map<string, real>, kind: string, values: map<string, real>)
    requires kind in AvailableMetrics
    requires results.Keys == Labels(columns)
    requires FiledStatistic(results, results.Keys, kind, values)
    ensures forall c :: c in columns ==> Label(c, kind) in results
    ensures values.Keys == columns
    ensures forall c :: c in columns ==> values[c] == results[Label(c, kind)]
  {
    forall c | c in columns
      ensures Label(c, kind) in results && c in values && values[c] == results[Label(c, kind)]
    {
      LabelValue(columns, results, kind, values, c);
    }
    forall c | c in values
      ensures c in columns
    {
      ValueColumn(columns, results, kind, values, c);
    }
  }

  /** A requested column has an entry holding the value of its label. */
  lemma LabelValue(columns: set<string>, results: map<string, real>, kind: string, values: map<string, real>, c: string)
    requires kind in AvailableMetrics && c in columns
    requires results.Keys == Labels(columns)
    requires FiledStatistic(results, results.Keys, kind, values)
    ensures Label(c, kind) in results && c in values && values[c] == results[Label(c, kind)]
  {
    LabelSplit(c, kind);
    assert c in ColumnsNamed(results.Keys, kind);
    var k :| k in results && ColumnOf(k) == c && AggOf(k) == kind && results[k] == values[c];
    LabelParts(columns, k);
  }

  /** Every entry is for a requested column. */
  lemma ValueColumn(columns: set<string>, results: map<string, real>, kind: string, values: map<string, real>, c: string)
    requires results.Keys == Labels(columns)
    requires FiledStatistic(results, results.Keys, kind, values) && c in values
    ensures c in columns
  {
    var k :| k in results && AggOf(k) == kind && ColumnOf(k) == c;
    LabelParts(columns, k);
  }

}
