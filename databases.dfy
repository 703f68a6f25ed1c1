/** What the service asks of its databases, as answers rather than connections:
    whether a connection string opens an engine, which tables an engine lists, a
    table's reflected columns, and the results of the two metric queries. */
module Databases {
  import opened Wrappers
  import opened Reconcile

  /** The databases reachable from the service. `aggregates(conn, table, labels)` is
      the single row of the statistics query that requests `labels`, before the
      service rounds it, or `None` when that query raises; `rowCount(conn, table)` is `count(*)`, or `None`
      when that query raises. */
  datatype Catalog = Catalog(
    connects: string -> bool,
    tables: string -> set<string>,
    columns: (string, string) -> Columns,
    aggregates: (string, string, set<string>) -> Option<map<string, real>>,
    rowCount: (string, string) -> Option<int>)

  /** The two checks that end a request with status 400. */
  datatype AccessError = CannotConnect(conn: string) | NoSuchTable(conn: string, table: string)
}
