/** Schema-mode column information (`get_all_columns_info`), as listed by the
    available-columns endpoint for each table. */
module SchemaInfo {
  import Strings
  import opened ColumnTypes
  import opened Reconcile

  /** `{"columns_type_map": ..., "numeric_columns": ...}`; the numeric column list
      is built from a Python set, so it is a set here. */
  datatype ColumnsInfo = ColumnsInfo(typeMap: map<string, string>, numeric: set<string>)

  /** `info` describes the table `cols` in schema mode: every column, and only
      those, is mapped to its case-folded base type, and a column is numeric
      exactly when that base type passes the schema-mode rule. */
  ghost predicate Describes(cols: Columns, info: ColumnsInfo)
  {
    && info.typeMap.Keys == cols.Keys
    && (forall c :: c in cols ==> info.typeMap[c] == SchemaBaseType(cols[c]))
    && info.numeric <= cols.Keys
    && (forall c :: c in cols ==> (c in info.numeric <==> IsSchemaNumeric(info.typeMap[c])))
  }

  /** `get_all_columns_info`: one pass over the columns, filling the type map and
      collecting the numeric ones. */
  method GetAllColumnsInfo(cols: Columns) returns (info: ColumnsInfo)
    ensures Describes(cols, info)
  {
    var typeMap: map<string, string> := map[];
    var numeric: set<string> := {};
    var todo := cols.Keys;
    while todo != {}
      invariant todo <= cols.Keys
      invariant typeMap.Keys == cols.Keys - todo
      invariant forall c :: c in typeMap ==> typeMap[c] == SchemaBaseType(cols[c])
      invariant numeric == set c | c in typeMap && IsSchemaNumeric(typeMap[c])
      decreases todo
    {
      var name :| name in todo;
      var colType := SchemaBaseType(cols[name]);
      typeMap := typeMap[name := colType];
      if IsSchemaNumeric(colType) {
        numeric := numeric + {name};
      }
      todo := todo - {name};
    }
    info := ColumnsInfo(typeMap, numeric);
  }

  /** Two columns whose declarations differ only inside their parameter lists get the
      same listed type, and the same numeric verdict. */
  lemma ParametersDoNotChangeListing(cols: Columns, info: ColumnsInfo, c1: string, c2: string,
                                     base: string, params1: string, params2: string)
    requires Describes(cols, info)
    requires '(' !in base
    requires c1 in cols && cols[c1] == base + "(" + params1
    requires c2 in cols && cols[c2] == base + "(" + params2
    ensures info.typeMap[c1] == info.typeMap[c2] == Strings.CaseFold(base)
    ensures c1 in info.numeric <==> c2 in info.numeric
  {
    ParametersIgnored(base, params1, params2);
  }
}
