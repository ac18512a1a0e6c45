/**
 * The execute adapter of multi-db/mysql/db.go: identifier quoting, the
 * placeholder token, the nil-connection guard in front of the driver, and
 * the insert transaction.  The driver itself (statement preparation and
 * execution, beginning and committing a transaction) is an oracle the
 * caller supplies.
 */
module Db {
  import opened Wrappers
  import opened Values

  /** QuoteField: the name between backticks. */
  function QuoteField(name: string): (r: string)
    ensures |r| == |name| + 2
    ensures r[0] == '`' && r[|r| - 1] == '`' && r[1..|r| - 1] == name
  {
    "`" + name + "`"
  }

  /** Different names stay different once quoted. */
  lemma QuoteFieldInjective(a: string, b: string)
    requires QuoteField(a) == QuoteField(b)
    ensures a == b
  {
    assert a == QuoteField(a)[1..|a| + 1];
  }

  /** Placeholder: MySQL's positional marker, the same for every position. */
  function Placeholder(i: int): (r: string)
    ensures |r| == 1 && r[0] == '?'
  {
    "?"
  }

  /** ReplaceArgPlaceholder: MySQL needs no rewriting of the statement. */
  function ReplaceArgPlaceholder(sql: string, args: seq<Value>): (r: string)
    ensures r == sql
  {
    sql
  }

  /** A live connection handle (Go's *sql.DB). */
  datatype Handle = Handle(id: nat)

  /** What sql.Result reports after a write. */
  datatype Summary = Summary(rowsAffected: Result<int, string>, lastInsertId: Result<int, string>)

  /** One row of a cursor: what Scan reports when it fills one interface{}
      slot per column, and what it reports when it fills a single *int64. */
  datatype Row = Row(scan: Result<seq<Value>, string>, scanInt: Result<int, string>)

  /** A cursor: the outcome of Columns() and the rows Next() walks through. */
  datatype RowSet = RowSet(columns: Result<seq<string>, string>, rows: seq<Row>)

  /** An open transaction (Go's *sql.Tx). */
  datatype Tx = Tx(id: nat)

  /** The driver behind a handle: prepare-and-query, prepare-and-exec,
      and beginning and committing a transaction (None: committed). */
  datatype Driver = Driver(
    query: (Handle, string, seq<Value>) -> Result<RowSet, string>,
    exec: (Handle, string, seq<Value>) -> Result<Summary, string>,
    begin: Handle -> Result<Tx, string>,
    commit: Tx -> Option<string>)

  /** The errors the adapter and the builder return. */
  datatype Error =
    | NoDatabase(message: string)              // no handle bound
    | DriverError(message: string)             // prepare, execute, scan or commit failed
    | RowsError(cause: Error)                  // "Error querying database for rows"
    | ColumnsError(message: string)            // "Error fetching columns"
    | FetchRowError(cause: Error)              // "Error fetching row"
    | ScanError(message: string)               // "Error scanning row"
    | CountError(cause: Error, query: string)  // "Error querying database for count"
    | NoResults                                // "No results"
    | Panicked(reason: string)                 // a Go run-time panic

  const NoDatabaseForQuery: string := "No database available"
  const NoDatabaseForExec: string := "No database available."

  /** QuerySql: without a handle it fails before anything is prepared;
      otherwise the driver prepares and runs the query. */
  function QuerySql(conn: Option<Handle>, query: string, args: seq<Value>, driver: Driver): (r: Result<RowSet, Error>)
    ensures r == Failure(NoDatabase(NoDatabaseForQuery)) <==> conn.None?
    ensures conn.Some? && driver.query(conn.value, query, args).Success? ==> r == Success(driver.query(conn.value, query, args).value)
    ensures conn.Some? && driver.query(conn.value, query, args).Failure? ==> r == Failure(DriverError(driver.query(conn.value, query, args).error))
  {
    match conn
    case None => Failure(NoDatabase(NoDatabaseForQuery))
    case Some(h) =>
      match driver.query(h, query, args)
      case Success(rows) => Success(rows)
      case Failure(e) => Failure(DriverError(e))
  }

  /** Exec: the same guard, in front of prepare-and-exec. */
  function Exec(conn: Option<Handle>, query: string, args: seq<Value>, driver: Driver): (r: Result<Summary, Error>)
    ensures r == Failure(NoDatabase(NoDatabaseForExec)) <==> conn.None?
    ensures conn.Some? && driver.exec(conn.value, query, args).Success? ==> r == Success(driver.exec(conn.value, query, args).value)
    ensures conn.Some? && driver.exec(conn.value, query, args).Failure? ==> r == Failure(DriverError(driver.exec(conn.value, query, args).error))
  {
    match conn
    case None => Failure(NoDatabase(NoDatabaseForExec))
    case Some(h) =>
      match driver.exec(h, query, args)
      case Success(s) => Success(s)
      case Failure(e) => Failure(DriverError(e))
  }

  /** Without a handle the outcome does not depend on the driver at all:
      nothing is prepared or run. */
  lemma NoHandlePreparesNothing(query: string, args: seq<Value>, d1: Driver, d2: Driver)
    ensures QuerySql(None, query, args, d1) == QuerySql(None, query, args, d2)
    ensures Exec(None, query, args, d1) == Exec(None, query, args, d2)
  {
  }

  const NilBegin: string := "nil pointer dereference in Begin"

  /** Insert: begin a transaction on the current connection, execute the
      statement, read the new row's id and commit.  Begin on a nil
      connection panics; the first step that fails decides the error. */
  function Insert(conn: Option<Handle>, query: string, args: seq<Value>, driver: Driver): (r: Result<int, Error>)
    ensures conn.None? ==> r == Failure(Panicked(NilBegin))
    ensures r.Success? <==>
      conn.Some? && driver.begin(conn.value).Success? &&
      driver.exec(conn.value, query, args).Success? &&
      driver.exec(conn.value, query, args).value.lastInsertId.Success? &&
      driver.commit(driver.begin(conn.value).value).None?
    ensures r.Success? ==> r.value == driver.exec(conn.value, query, args).value.lastInsertId.value
    ensures conn.Some? && driver.begin(conn.value).Failure? ==> r == Failure(DriverError(driver.begin(conn.value).error))
    ensures conn.Some? && driver.begin(conn.value).Success? && driver.exec(conn.value, query, args).Failure? ==>
      r == Failure(DriverError(driver.exec(conn.value, query, args).error))
  {
    match conn
    case None => Failure(Panicked(NilBegin))
    case Some(h) =>
      match driver.begin(h)
      case Failure(e) => Failure(DriverError(e))
      case Success(tx) =>
        match Exec(conn, query, args, driver)
        case Failure(e) => Failure(e)
        case Success(summary) =>
          match summary.lastInsertId
          case Failure(e) => Failure(DriverError(e))
          case Success(id) =>
            match driver.commit(tx)
            case Some(e) => Failure(DriverError(e))
            case None => Success(id)
  }

  /** A failed exec is never committed: the commit outcome does not matter. */
  lemma InsertExecFailureSkipsCommit(conn: Option<Handle>, query: string, args: seq<Value>, d: Driver, commit: Tx -> Option<string>)
    requires conn.Some? && d.begin(conn.value).Success? && d.exec(conn.value, query, args).Failure?
    ensures Insert(conn, query, args, d) == Insert(conn, query, args, d.(commit := commit))
    ensures Insert(conn, query, args, d) == Failure(DriverError(d.exec(conn.value, query, args).error))
  {
  }
}
