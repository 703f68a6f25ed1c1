/** The available-columns endpoint (`get_available_columns`): resolve which second
    table, if any, is asked for, check access, and list each table's columns in
    schema mode. */
module AvailableColumns {
  import opened Wrappers
  import opened SchemaInfo
  import opened Databases

  /** The resolved `conn_2` and `table_2`, and whether table_2 is processed. */
  datatype Resolution = Resolution(conn2: string, table2: string, processSecond: bool)

  /** The request-parameter rules: with neither `table_2` nor `conn_2` there is no
      second table; a missing `table_2` defaults to `table_1` and a missing `conn_2`
      to `conn_1`; and the second table is processed only when it is not the first
      table over again. */
  ghost predicate ResolvedFrom(conn1: string, table1: string, conn2: string, table2: string, r: Resolution)
  {
    && (table2 == "" && conn2 == "" ==> r == Resolution("", "", false))
    && (table2 == "" && conn2 != "" ==> r.conn2 == conn2 && r.table2 == table1)
    && (table2 != "" ==> r.table2 == table2 && r.conn2 == (if conn2 == "" then conn1 else conn2))
    && (r.processSecond <==> (table2 != "" || conn2 != "") && (r.conn2 != conn1 || r.table2 != table1))
  }

  /** The branches that reassign `conn_2`, `table_2` and `engine_2`. */
  method ResolveSecondTable(conn1: string, table1: string, conn2: string, table2: string)
    returns (r: Resolution)
    ensures ResolvedFrom(conn1, table1, conn2, table2, r)
  {
    var c2, t2 := conn2, table2;
    var engine2 := true;
    if t2 == "" {
      if c2 == "" {
        engine2 := false;
      } else {
        t2 := table1;
      }
    } else {
      if c2 == "" {
        c2 := conn1;
      }
    }
    if c2 == conn1 && t2 == table1 {
      engine2 := false;
    }
    r := Resolution(c2, t2, engine2);
  }

  /** Resolving an already resolved request changes nothing: the defaults are
      applied once and for all. */
  lemma ResolutionIsStable(conn1: string, table1: string, conn2: string, table2: string, r: Resolution)
    requires ResolvedFrom(conn1, table1, conn2, table2, r)
    ensures ResolvedFrom(conn1, table1, r.conn2, r.table2, r)
  {
  }

  /** `{"table": ...}` for one table, `{"table_1": ..., "table_2": ...}` for two. */
  datatype Listing = Single(table: ColumnsInfo) | Pair(table1: ColumnsInfo, table2: ColumnsInfo)

  /** `get_available_columns`: table_1 is checked first, then, when it is processed,
      the resolved table_2; the answer lists each processed table in schema mode. */
  method GetAvailableColumns(db: Catalog, conn1: string, table1: string, conn2: string, table2: string)
    returns (second: Resolution, r: Result<Listing, AccessError>)
    ensures ResolvedFrom(conn1, table1, conn2, table2, second)
    ensures !db.connects(conn1) ==> r == Failure(CannotConnect(conn1))
    ensures db.connects(conn1) && table1 !in db.tables(conn1) ==> r == Failure(NoSuchTable(conn1, table1))
    ensures db.connects(conn1) && table1 in db.tables(conn1) && second.processSecond ==>
              if !db.connects(second.conn2) then r == Failure(CannotConnect(second.conn2))
              else if second.table2 !in db.tables(second.conn2) then
                r == Failure(NoSuchTable(second.conn2, second.table2))
              else
                && r.Success? && r.value.Pair?
                && Describes(db.columns(conn1, table1), r.value.table1)
                && Describes(db.columns(second.conn2, second.table2), r.value.table2)
    ensures db.connects(conn1) && table1 in db.tables(conn1) && !second.processSecond ==>
              r.Success? && r.value.Single? && Describes(db.columns(conn1, table1), r.value.table)
  {
    second := ResolveSecondTable(conn1, table1, conn2, table2);
    if !db.connects(conn1) {
      return second, Failure(CannotConnect(conn1));
    }
    if table1 !in db.tables(conn1) {
      return second, Failure(NoSuchTable(conn1, table1));
    }
    if second.processSecond {
      if !db.connects(second.conn2) {
        return second, Failure(CannotConnect(second.conn2));
      }
      if second.table2 !in db.tables(second.conn2) {
        return second, Failure(NoSuchTable(second.conn2, second.table2));
      }
    }
    var info1 := GetAllColumnsInfo(db.columns(conn1, table1));
    if !second.processSecond {
      return second, Success(Single(info1));
    }
    var info2 := GetAllColumnsInfo(db.columns(second.conn2, second.table2));
    r := Success(Pair(info1, info2));
  }
}
