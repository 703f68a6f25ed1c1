# data_compare_service: a verified model of the comparison core

The service compares two relational tables, possibly on two different
databases. Its table-diff endpoint reports which columns exist on one side
only, which shared columns have the same base type, and, for the shared
numeric columns, the percent difference of each column's mean and standard
deviation together with the difference of the row counts. Its
available-columns endpoint lists one or two tables' columns with their base
types and marks the numeric ones.

This project models the logic under the HTTP and SQL layers of `api.py`:

- schema reconciliation (`get_columns_data`): which column names are shared,
  which belong to one table only, and whether a shared column has the same raw
  base type (the declared type cut at its first `(`, compared without case
  folding) — `Reconcile`;
- schema-mode column info (`get_all_columns_info`): each column's case-folded
  base type and the numeric columns by the schema-mode rule (`float`,
  `integer` or `precision`) — `SchemaInfo`, with the type rules in
  `ColumnTypes`;
- diff-mode classification of the same-type columns (`float` or `integer`, or
  `double precision` without `[]`; else text on `char` or `text`) —
  `TableDiff.ClassifySameType`;
- rounding of the flat statistics `"{column}_{agg}"` to two places and their
  re-keying into `formatted[agg][column]` beside `row_count`, splitting at the
  last `_` (`get_table_metric`) — `Metrics`;
- the diff loop and `row_count_diff` — `TableDiff.DiffMetrics`, and the whole
  table-diff endpoint with its four access checks — `TableDiff.GetTableDiff`;
- the request-parameter resolution of `get_available_columns` and that
  endpoint — `AvailableColumns`.

The databases are represented by their answers (`Databases.Catalog`): whether
a connection string opens an engine, which tables it lists, a table's reflected
columns (name to `str(column.type)`), the result of the statistics query for a
set of labels (`None` when it raises) and the row count (`None` when it
raises). Python dictionaries are maps, the lists built from Python sets are
sets, and the lists of one-entry dictionaries are sequences of entry
datatypes. Loops over dictionaries and sets take their keys in an unspecified
order, so every contract holds whatever the iteration order.

Three behaviours of `api.py` differ from what a reader of the endpoints might
expect, and the model follows the code:

- one might expect the same-type test to fold case as the listing does, but it
  compares the raw base types as declared (api.py:130-132), so "INTEGER" and
  "integer" are different types (`Reconcile.TypeComparisonIsCaseSensitive`);
- one might expect a zero divisor to give a placeholder such as "N/A", but a
  first value of zero raises `ZeroDivisionError` (api.py:330), and a label
  missing from the second table raises `KeyError` (api.py:327). Since the
  values are rounded to two places first (api.py:65-67), any first value
  within 0.005 of zero raises (`TableDiff.ComparableAfterRounding`);
- one might expect more statistics (quartiles, ranges, raw differences), but
  only `mean` and `stddev` are computed, re-keyed and diffed (api.py:149,
  291, 296-297, 338-341), under the keys `mean` and `stddev`.

## Model

| member | source | states |
|---|---|---|
| Strings.Before | api.py:93 | `partition("(")[0]` is a prefix of the string without the separator, ending just before the first separator when there is one |
| Strings.BeforeIgnoresSuffix | api.py:93 | whatever follows the first separator does not change the prefix |
| Strings.BeforeAbsent | api.py:93 | without the separator the prefix is the whole string |
| Strings.RPartition | api.py:77 | `rpartition("_")` returns three parts that concatenate to the label, a tail without `_`, and `("", "", s)` when `_` is absent |
| Strings.RPartitionOfJoin | api.py:77 | splitting `head + "_" + tail` at its last `_` gives back `head` and `tail` whenever `tail` has no `_`, however many `_` `head` has |
| Strings.CaseFold | api.py:95 | the folded string has the same length, no upper-case letter, and every character that is not an upper-case letter unchanged |
| Strings.CaseFoldIdempotent | api.py:95 | folding case twice is folding it once |
| Strings.CaseFoldNoUpper | api.py:95 | a string without upper-case letters is unchanged by folding |
| Strings.CaseFoldBefore | api.py:93-95 | cutting at `(` and then folding equals folding and then cutting |
| Strings.Contains | api.py:97 | `sub in s` holds when `sub` occurs at some index of `s`; its properties are stated by NotContainedWithout and ContainsTransitive |
| Strings.NotContainedWithout | api.py:97 | a word with a character absent from the type string is not in it |
| Strings.ContainsTransitive | api.py:279-280 | a substring of a substring is a substring (`double precision` carries `precision`) |
| ColumnTypes.RawBase | api.py:93 | the raw base type is a prefix of the declared type and holds no `(`; reconciliation compares it without folding (api.py:130-131) |
| ColumnTypes.SchemaBaseType | api.py:93-95 | the listed base type is no longer than the declared type, holds no `(` and no upper-case letter |
| ColumnTypes.IsSchemaNumeric | api.py:97 | schema mode calls a base type numeric when it contains `float`, `integer` or `precision`; DiffNumericIsSchemaNumeric and ModesDiverge relate it to the diff-mode rule |
| ColumnTypes.DiffClassOf | api.py:278-284 | diff mode folds the raw base, calls it numeric on `float`, `integer`, or `double precision` without `[]`, else text on `char` or `text`; ClassifySameType and ModesDiverge state its consequences |
| ColumnTypes.ParametersIgnored | api.py:93 | `b(...)` has raw base `b` and schema-mode base `b` case-folded, whatever the parameters, so `varchar(10)` and `varchar(50)` agree |
| ColumnTypes.SchemaBaseTypeIsFoldedPrefix | api.py:93-95 | the listed base type is the folded declaration cut at `(`, and is already folded |
| ColumnTypes.DiffNumericIsSchemaNumeric | api.py:97 | every type the diff-mode rule calls numeric is numeric by the schema-mode rule |
| ColumnTypes.ModesDiverge | api.py:279-281 | `double precision[]` is numeric in schema mode but neither numeric nor text in diff mode |
| Reconcile.GetColumnsData | api.py:106-143 | common names are exactly the names of both tables; common and uncommon names partition each table's names; every common column is listed once, as same-type with table_1's raw base when the raw bases are equal, else as different-type with both raw bases |
| Reconcile.ListSame | api.py:132-133 | listing a column with equal raw bases as same-type keeps both lists exact |
| Reconcile.ListDifferent | api.py:134-141 | listing a column with unequal raw bases as different-type keeps both lists exact |
| Reconcile.ListsCoverCommon | api.py:129-141 | the same-type and different-type lists together name every common column, and no column twice |
| Reconcile.TypeComparisonIsCaseSensitive | api.py:130-132 | "INTEGER" against "integer" is different-type although both list as "integer" |
| SchemaInfo.GetAllColumnsInfo | api.py:87-103 | the type map has exactly the table's columns, each mapped to its case-folded base type; a column is numeric iff that type contains `float`, `integer` or `precision` |
| SchemaInfo.ParametersDoNotChangeListing | api.py:93-98 | two columns `b(p1)` and `b(p2)` get the same listed type and the same numeric verdict |
| Metrics.Label | api.py:296-297 | a statistic of a column is requested under `f"{column}_{kind}"`; LabelSplit states that it splits back |
| Metrics.Labels | api.py:294-300 | the labels requested for a set of columns are their `_mean` and `_stddev` labels; LabelParts and StatisticsOfLabels state what they name |
| Metrics.ColumnOf | api.py:77 | the column a label names is what precedes its last `_` |
| Metrics.AggOf | api.py:336 | the statistic a label names is what follows its last `_`; AggIsNeverRowCount states it is never `row_count` |
| Metrics.Round2 | api.py:66 | `round(x, 2)` has at most two decimals and lies within 0.005 of `x` |
| Metrics.Round2Idempotent | api.py:66 | rounding a rounded value changes nothing |
| Metrics.Round2Zero | api.py:66 | a value rounds to zero exactly when it lies within 0.005 of zero |
| Metrics.RoundAll | api.py:65-67 | the rounded statistics have exactly the labels of the answered ones |
| Metrics.RoundAllClose | api.py:65-67 | each rounded statistic has at most two decimals and lies within 0.005 of the answered value |
| Metrics.GetTableMetric | api.py:60-84 | a failed statistics query gives no statistics and a failed count a row count of 0; the flat map returned is the answered one with every value rounded to two places; the formatted map holds `row_count` and, per statistic named, the rounded value of a label naming each column |
| Metrics.AggIsNeverRowCount | api.py:74-82 | no label names the statistic `row_count`, so the row count is never overwritten |
| Metrics.RekeyStep | api.py:76-82 | filing one more label keeps the formatted map exact |
| Metrics.FileOne | api.py:78-82 | filing a label's value under its own statistic and column |
| Metrics.KeepOther | api.py:78-82 | filing a label leaves every other statistic's map alone |
| Metrics.LabelSplit | api.py:77 | the label `f"{column}_{kind}"` splits back into `column` and `kind` |
| Metrics.LabelParts | api.py:296-297 | every requested label names a requested column and an available statistic |
| Metrics.StatisticsOfLabels | api.py:294-300 | the labels requested for some columns name exactly `mean` and `stddev` |
| Metrics.RekeyedLabels | api.py:74-84 | when the query answers exactly the requested labels, the formatted map has the keys `row_count`, `mean` and `stddev` |
| Metrics.RekeyedStatistic | api.py:76-84 | in that case each statistic's map has exactly the requested columns, each with the value of its own label |
| Metrics.FiledLabels | api.py:76-84 | a statistic filed from exactly the requested labels maps each requested column to its label's value |
| TableDiff.ClassifySameType | api.py:271-284 | a same-type column is numeric iff its folded type passes the diff-mode numeric test, and text iff it fails it and contains `char` or `text` |
| TableDiff.Analysed | api.py:271-284 | the columns the diff analyses (`numeric_columns`) are columns of both tables |
| TableDiff.ClassesOfSameType | api.py:269-284 | over a reconciliation, each class holds exactly the common columns with equal raw bases whose type falls in it |
| TableDiff.ClassesPartSameType | api.py:271-284 | the numeric and text columns are disjoint same-type columns, and the numeric ones are the analysed columns |
| TableDiff.AnalysedAreListedNumeric | api.py:97 | every column the diff analyses is listed as numeric for both tables by the available-columns endpoint |
| TableDiff.PercentDiff | api.py:329-330 | the percent difference is zero exactly when the two values are equal |
| TableDiff.DiffMetrics | api.py:322-346 | the loop succeeds iff every label of table_1 is in table_2 with a non-zero table_1 value, and otherwise raises `KeyError` or `ZeroDivisionError` at an offending label; `mean` and `stddev` labels are filed by column, others dropped; `row_count_diff` is the integer difference |
| TableDiff.RouteStep | api.py:336-341 | routing one more label's difference by the part after its last `_` keeps both diff maps exact |
| TableDiff.LabelledDiffs | api.py:325-341 | with exactly the requested labels, each diff map has exactly the analysed columns, each with the percent difference of its own label |
| TableDiff.ComparableAfterRounding | api.py:325-330 | since values are rounded before the division, a label of table_1 divides without error exactly when table_2 has it and table_1's unrounded value lies farther than 0.005 from zero |
| TableDiff.GetTableDiff | api.py:234-348 | the four access checks fail in the endpoint's order; otherwise the report holds the reconciliation without the same-type list, both tables' formatted metrics over the rounded statistics and their diff, and the call fails exactly when the diff loop raises |
| AvailableColumns.ResolveSecondTable | api.py:169-187 | with neither `table_2` nor `conn_2` there is no second table; a missing `table_2` defaults to `table_1`, a missing `conn_2` to `conn_1`; the second table is processed iff it is not the first one again |
| AvailableColumns.ResolutionIsStable | api.py:169-187 | resolving an already resolved request changes nothing |
| AvailableColumns.GetAvailableColumns | api.py:159-230 | table_1 is checked before the resolved table_2; the answer lists table_1 alone, or both tables, each in schema mode |

## Left out

- Connecting to a database, inspecting its tables, reflecting columns and
  running queries (api.py:22-45, 57-72): these are calls into SQLAlchemy and
  the databases, given to the model as `Databases.Catalog`'s answers.
- FastAPI routing, status codes and the text of error bodies (api.py:146-262):
  an access failure is an `AccessError` value naming the connection or table.
- Building the `func.avg` and `func.stddev` select expressions (api.py:49-55,
  294-314): the model keeps only the set of labels they request.
- Metrics.Round2: rounds the exact real value, ties to even; the conversion
  with `float` (api.py:66) to a binary double is not modelled, so a value such
  as 2.675, stored as a double just below it, rounds up here and down in Python.
- TableDiff.PercentDiff: is not rounded to five places and not formatted with
  a trailing `%` (api.py:329-333).
- A statistic that the database answers as `NULL` (which makes `float(None)`
  raise at api.py:66) is not modelled: every answered value is a number.
- Strings.CaseFold: folds only the ASCII letters A-Z; full Unicode case folding
  is not modelled.
- TableDiff.DiffMetrics: when several labels would raise, which one raises
  depends on dictionary order, so the contract names an offending label, not
  the first.
- The order of the lists returned to the caller: they are built from Python
  sets and dictionaries whose order is unspecified, so the model returns sets
  and states the list contents.
- `get_available_metrics` (api.py:146-149) is only the constant
  `Metrics.AvailableMetrics`.
- `async`/`await`: every helper is a plain sequential method.
