/**
 * The Query builder of multi-db/mysql/builder.go: a mutable object holding
 * the clause fragments of one statement and a cache of the rendered SQL.
 * Every setter rewrites exactly one fragment and clears the cache;
 * QueryString renders and caches; the executing methods render and hand the
 * statement and its bound arguments to the adapter of db.go.
 *
 * The package variables that hold the two connections and the current one
 * are the fields of a Connections object; the driver behind a connection
 * is a parameter of every executing method.
 */
module Builder {
  import opened Wrappers
  import opened GoStrings
  import opened Values
  import opened Db
  import opened Params
  import opened Rendering
  import opened Clauses
  import opened Mapping

  /** The two database names New recognises. */
  const Database1: string := "bg_dsp4"
  const Database2: string := "bg_email"

  /** The package's connection variables: the two configured databases and
      DbConnection, the one every statement runs on. */
  class Connections {
    var db1: Option<Handle>
    var db2: Option<Handle>
    var current: Option<Handle>

    constructor (db1: Option<Handle>, db2: Option<Handle>)
      ensures this.db1 == db1 && this.db2 == db2 && current == None
    {
      this.db1 := db1;
      this.db2 := db2;
      current := None;
    }
  }

  /** The connection New picks: the second one for Database2, the first one
      for Database1 and for any other name. */
  function Chosen(name: string, db1: Option<Handle>, db2: Option<Handle>): Option<Handle>
  {
    if name == Database1 then db1 else if name == Database2 then db2 else db1
  }

  /** An unknown database name falls back to the first connection. */
  lemma ChosenFallsBack(name: string, db1: Option<Handle>, db2: Option<Handle>)
    requires name != Database2
    ensures Chosen(name, db1, db2) == db1
  {
  }

  // ---------------------------------------------------------------------
  // The loops of the setters

  /** The terms of a Where/OrWhere condition: the type switch on the third
      argument, the string assertion on every other one. */
  method ParamSlice(values: seq<Value>, orWhere: bool) returns (slice: seq<string>)
    requires ArgsOk(values, orWhere)
    ensures slice == Terms(values, orWhere)
  {
    slice := [];
    for i := 0 to |values|
      invariant ArgsOk(values[..i], orWhere)
      invariant slice == Terms(values[..i], orWhere)
    {
      var param := values[i];
      if i == 2 {
        match param {
          case Text(s) => slice := slice + ["'" + s + "'"];
          case Int(n) => slice := slice + [Itoa(n)];
          case Int64(n) => slice := slice + [Itoa(n)];
          case Float(text) => slice := slice + [text];
          case Bool(b) => slice := slice + [FormatBool(b)];
        }
      } else {
        slice := slice + [param.s];
      }
      assert values[..i + 1][..i] == values[..i];
    }
    assert values[..|values|] == values;
  }

  /** The IN list of WhereIn/OrWhereIn: each comma separated token as a
      number or a quoted string, each followed by a comma, and the trailing
      commas trimmed. */
  method BuildInList(values: string) returns (list: string)
    ensures list == InList(values)
  {
    var paramSlice := Split(values, ',');
    list := "";
    for i := 0 to |paramSlice|
      invariant list == Terminated(RenderTokens(paramSlice[..i]))
    {
      var tok := ParamToken(paramSlice[i]);
      TokensSnoc(paramSlice, i);
      TerminatedSnoc(RenderTokens(paramSlice[..i]), tok);
      list := list + tok + ",";
    }
    assert paramSlice[..|paramSlice|] == paramSlice;
    TrimmedInList(values);
    list := TrimRightChar(list, ',');
  }

  /** One token of the IN list: the number strconv.Atoi reads, or the
      token between single quotes. */
  method ParamToken(param: string) returns (tok: string)
    ensures tok == RenderToken(param)
  {
    match Atoi(param) {
      case Parsed(n) => tok := Itoa(n);
      case _ => tok := "'" + param + "'";
    }
  }

  lemma TokensSnoc(ps: seq<string>, i: nat)
    requires i < |ps|
    ensures RenderTokens(ps[..i + 1]) == RenderTokens(ps[..i]) + [RenderToken(ps[i])]
  {
  }

  lemma TerminatedSnoc(ts: seq<string>, t: string)
    ensures Terminated(ts + [t]) == Terminated(ts) + t + ","
  {
    assert (ts + [t])[..|ts|] == ts;
  }

  /** The first loop of QueryString: every select field trimmed, into a
      slice of the same length. */
  method TrimAll(sel: seq<string>) returns (fields: seq<string>)
    ensures fields == TrimEach(sel)
  {
    var selectSlice := new string[|sel|];
    for i := 0 to |sel|
      invariant forall k :: 0 <= k < i ==> selectSlice[k] == TrimEach(sel)[k]
    {
      TrimField(sel, i);
      selectSlice[i] := Trim(sel[i]);
    }
    fields := selectSlice[..];
    assert forall k :: 0 <= k < |sel| ==> fields[k] == TrimEach(sel)[k];
  }

  lemma TrimField(sel: seq<string>, i: nat)
    requires i < |sel|
    ensures TrimEach(sel)[i] == Trim(sel[i])
  {
  }

  /** The arguments of a join: the first is the table, the rest make up the
      condition. */
  method JoinArguments(values: seq<Value>) returns (tableJoin: string, paramSlice: seq<string>)
    requires AllText(values)
    ensures tableJoin == (if |values| > 0 then values[0].s else "")
    ensures paramSlice == (if |values| > 0 then Texts(values[1..]) else [])
  {
    tableJoin := "";
    paramSlice := [];
    for i := 0 to |values|
      invariant tableJoin == (if i > 0 then values[0].s else "")
      invariant paramSlice == (if i > 0 then Texts(values[1..i]) else [])
    {
      if i == 0 {
        tableJoin := values[i].s;
      } else {
        assert Texts(values[1..i + 1]) == Texts(values[1..i]) + [values[i].s];
        paramSlice := paramSlice + [values[i].s];
      }
    }
    if |values| > 0 {
      assert values[1..|values|] == values[1..];
    }
  }

  // ---------------------------------------------------------------------
  // Reading a cursor

  /** The outcome of ScanRow for one row. */
  function Scanned(cols: seq<string>, row: Row): Result<ResultMap, Error>
  {
    if row.scan.Failure? then Failure(ScanError(row.scan.error))
    else if |row.scan.value| != |cols| then Failure(ScanError(ScanCountMismatch))
    else Success(RowMap(cols, row.scan.value))
  }

  /** The loop of Results: rows scanned in order until the first failure,
      which is returned with the rows scanned before it. */
  function Collect(cols: seq<string>, rows: seq<Row>): (seq<ResultMap>, Option<Error>)
    decreases |rows|
  {
    if |rows| == 0 then ([], None)
    else match Scanned(cols, rows[0])
      case Failure(e) => ([], Some(FetchRowError(e)))
      case Success(m) =>
        var rest := Collect(cols, rows[1..]);
        ([m] + rest.0, rest.1)
  }

  /** Either every row is returned, each as its row map, or the first row
      that fails to scan is reported and the rows before it are returned. */
  lemma {:induction false} CollectOutcome(cols: seq<string>, rows: seq<Row>)
    ensures var c := Collect(cols, rows);
      |c.0| <= |rows| && (c.1.None? <==> |c.0| == |rows|)
    ensures var c := Collect(cols, rows);
      forall i :: 0 <= i < |c.0| ==> Scanned(cols, rows[i]) == Success(c.0[i])
    ensures var c := Collect(cols, rows);
      c.1.Some? ==> Scanned(cols, rows[|c.0|]).Failure? && c.1 == Some(FetchRowError(Scanned(cols, rows[|c.0|]).error))
    decreases |rows|
  {
    if |rows| > 0 {
      CollectOutcome(cols, rows[1..]);
      var c := Collect(cols, rows);
      var rest := Collect(cols, rows[1..]);
      if Scanned(cols, rows[0]).Success? {
        forall i | 0 <= i < |c.0| ensures Scanned(cols, rows[i]) == Success(c.0[i]) {
          if i > 0 { assert rows[1..][i - 1] == rows[i]; }
        }
        if c.1.Some? { assert rows[1..][|rest.0|] == rows[|c.0|]; }
      }
    }
  }

  /** What Results returns for the outcome of the query. */
  function Fetched(q: Result<RowSet, Error>): (seq<ResultMap>, Option<Error>)
  {
    match q
    case Failure(e) => ([], Some(RowsError(e)))
    case Success(rs) =>
      match rs.columns
      case Failure(e) => ([], Some(ColumnsError(e)))
      case Success(cols) => Collect(cols, rs.rows)
  }

  /** What FirstResult returns for the outcome of Results. */
  function First(f: (seq<ResultMap>, Option<Error>)): Result<ResultMap, Error>
  {
    if f.1.Some? then Failure(f.1.value)
    else if |f.0| == 0 then Failure(NoResults)
    else Success(f.0[0])
  }

  /** FirstResult succeeds exactly when there is a row and every row scans,
      and then it is the first row's map. */
  lemma FirstOfRows(cols: seq<string>, rows: seq<Row>)
    ensures First(Collect(cols, rows)).Success? <==>
      |rows| > 0 && forall i :: 0 <= i < |rows| ==> Scanned(cols, rows[i]).Success?
    ensures First(Collect(cols, rows)).Success? ==> First(Collect(cols, rows)).value == Scanned(cols, rows[0]).value
    ensures |rows| == 0 ==> First(Collect(cols, rows)) == Failure(NoResults)
  {
    CollectOutcome(cols, rows);
  }

  /** The scan loop of Count: each row overwrites the count, and the first
      failed scan ends the loop with its error. */
  function CountRows(rows: seq<Row>, count: int): Result<int, Error>
    decreases |rows|
  {
    if |rows| == 0 then Success(count)
    else match rows[0].scanInt
      case Failure(e) => Failure(DriverError(e))
      case Success(n) => CountRows(rows[1..], n)
  }

  /** The count is the value scanned from the last row, 0 when there is no
      row, and a failure exactly when some row fails to scan. */
  lemma {:induction false} CountRowsOutcome(rows: seq<Row>, count: int)
    ensures CountRows(rows, count).Success? <==> forall i :: 0 <= i < |rows| ==> rows[i].scanInt.Success?
    ensures CountRows(rows, count).Success? ==>
      CountRows(rows, count).value == if |rows| == 0 then count else rows[|rows| - 1].scanInt.value
    decreases |rows|
  {
    if |rows| > 0 {
      if rows[0].scanInt.Success? {
        CountRowsOutcome(rows[1..], rows[0].scanInt.value);
        forall i | 0 < i < |rows| ensures rows[i] == rows[1..][i - 1] { }
        if |rows| > 1 { assert rows[|rows| - 1] == rows[1..][|rows| - 2]; }
      }
    }
  }

  /** The select field Count renders. */
  function CountSelect(primaryKey: string, from: string, tableName: string): string
  {
    "SELECT COUNT(" + Pk(primaryKey) + ") FROM " + Table(from, tableName)
  }

  /** The select field DeleteAll renders. */
  function DeleteSelect(from: string, tableName: string): string
  {
    "DELETE FROM " + Table(from, tableName)
  }

  /** UpdateAll's reading of the write summary: a failed Exec leaves no
      summary, and asking it for the affected rows panics. */
  function Affected(e: Result<Summary, Error>): (r: Result<int, Error>)
    ensures e.Failure? ==> r == Failure(Panicked(NilSummary))
    ensures r.Success? <==> e.Success? && e.value.rowsAffected.Success?
    ensures r.Success? ==> r.value == e.value.rowsAffected.value
  {
    match e
    case Failure(_) => Failure(Panicked(NilSummary))
    case Success(s) =>
      match s.rowsAffected
      case Failure(msg) => Failure(DriverError(msg))
      case Success(n) => Success(n)
  }

  const NilSummary: string := "nil pointer dereference in RowsAffected"

  // ---------------------------------------------------------------------
  // The query object

  class Query {
    const tableName: string
    const primaryKey: string

    var sql: string
    var sel: seq<string>
    var from: string
    var update: string
    var join: string
    var where: string
    var group: string
    var having: string
    var order: string
    var offset: string
    var limit: string
    var args: seq<Value>

    /** The clause fragments and arguments, without the cache. */
    function Parts(): QueryParts
      reads this
    {
      QueryParts(sel, from, update, join, where, group, having, order, limit, offset, args)
    }

    /** The statement QueryString returns: the cached one, or a fresh rendering. */
    function Statement(): string
      reads this
    {
      if sql == "" then Render(tableName, Parts()) else sql
    }

    /** The order fragment has the shape Order gives it.  Every setter other
        than Order and Count leaves `order` as it was (its ensures fixes
        `Parts()` up to one other field), and Order writes
        `Prefixed(OrderBy, s)`, so every setter keeps Valid. */
    predicate Valid()
      reads this
    {
      OrderForm(order)
    }

    constructor (t: string, pk: string)
      ensures tableName == t && primaryKey == pk
      ensures sql == "" && Parts() == EmptyParts && Valid()
    {
      tableName := t;
      primaryKey := pk;
      sql := "";
      sel := [];
      from := "";
      update := "";
      join := "";
      where := "";
      group := "";
      having := "";
      order := "";
      offset := "";
      limit := "";
      args := [];
    }

    /** New: pick the connection named by the first database argument and
      make it current; no query when that connection is not open. */
    static method New(t: string, pk: string, db: seq<string>, conns: Connections) returns (q: Query?)
      requires |db| > 0
      modifies conns
      ensures conns.db1 == old(conns.db1) && conns.db2 == old(conns.db2)
      ensures q == null <==> Chosen(db[0], conns.db1, conns.db2).None?
      ensures q == null ==> conns.current == old(conns.current)
      ensures q != null ==> fresh(q) && conns.current == Chosen(db[0], conns.db1, conns.db2)
      ensures q != null ==> q.tableName == t && q.primaryKey == pk && q.sql == "" && q.Parts() == EmptyParts
    {
      var chosen: Option<Handle>;
      if db[0] == Database1 {
        chosen := conns.db1;
      } else if db[0] == Database2 {
        chosen := conns.db2;
      } else {
        chosen := conns.db1;
      }
      if chosen.None? {
        return null;
      }
      conns.current := chosen;
      q := new Query(t, pk);
    }

    /** reset: clear the cached statement. */
    method Reset()
      modifies this
      ensures sql == "" && Parts() == old(Parts())
    {
      sql := "";
    }

    // -------------------------------------------------------------------
    // Setters

    method Limit(n: int)
      modifies this
      ensures sql == "" && Parts() == old(Parts()).(limit := NumberClause("LIMIT", n))
    {
      limit := "LIMIT " + Itoa(n);
      Reset();
    }

    method Offset(n: int)
      modifies this
      ensures sql == "" && Parts() == old(Parts()).(offset := NumberClause("OFFSET", n))
    {
      offset := "OFFSET " + Itoa(n);
      Reset();
    }

    /** Where: the condition ANDed to the where fragment. */
    method Where(values: seq<Value>)
      requires ArgsOk(values, false)
      modifies this
      ensures sql == "" && Parts() == old(Parts()).(where := AndGroup(old(where), Condition(values, false)))
    {
      var paramSlice := ParamSlice(values, false);
      var cond := Join(paramSlice, "");
      GroupSpelling(where, cond);
      if |where| > 0 {
        where := where + " AND (" + cond + ")";
      } else {
        where := " WHERE (" + cond + ")";
      }
      Reset();
    }

    method AndWhere(values: seq<Value>)
      requires ArgsOk(values, false)
      modifies this
      ensures sql == "" && Parts() == old(Parts()).(where := AndGroup(old(where), Condition(values, false)))
    {
      Where(values);
    }

    /** OrWhere: the condition ORed to the where fragment. */
    method OrWhere(values: seq<Value>)
      requires ArgsOk(values, true)
      modifies this
      ensures sql == "" && Parts() == old(Parts()).(where := OrGroup(old(where), Condition(values, true)))
    {
      var paramSlice := ParamSlice(values, true);
      var cond := Join(paramSlice, "");
      GroupSpelling(where, cond);
      if |where| > 0 {
        where := where + " OR (" + cond + ")";
      } else {
        where := "WHERE (" + cond + ")";
      }
      Reset();
    }

    /** WhereIn: `col IN (list)` ANDed to the where fragment; an empty value
      string sets LIMIT 0 instead. */
    method WhereIn(col: string, values: string)
      modifies this
      ensures sql == ""
      ensures |values| == 0 ==> Parts() == old(Parts()).(limit := NumberClause("LIMIT", 0))
      ensures |values| > 0 ==> Parts() == old(Parts()).(where := InGroup(old(where), InClause(col, values)))
    {
      if |values| == 0 {
        Limit(0);
        Reset();
        return;
      }
      var list := BuildInList(values);
      var s := col + " IN (" + list + ")";
      if |where| > 0 {
        where := where + " AND (" + s + ")";
      } else {
        where := "WHERE (" + s + ")";
      }
      Reset();
    }

    /** OrWhereIn: `col IN (list)` joined with OR inside the last group. */
    method OrWhereIn(col: string, values: string)
      modifies this
      ensures sql == ""
      ensures |values| == 0 ==> Parts() == old(Parts()).(limit := NumberClause("LIMIT", 0))
      ensures |values| > 0 ==> Parts() == old(Parts()).(where := OrInGroup(old(where), InClause(col, values)))
    {
      if |values| == 0 {
        Limit(0);
        Reset();
        return;
      }
      var list := BuildInList(values);
      var s := col + " IN (" + list + ")";
      if |where| > 0 {
        where := TrimSuffix(where, ")") + " OR " + s + ")";
      } else {
        where := "WHERE (" + s + ")";
      }
      Reset();
    }

    /** The body the four join setters share. */
    method AddJoinClause(k: JoinKind, values: seq<Value>)
      requires AllText(values)
      modifies this
      ensures sql == "" && Parts() == old(Parts()).(join := AddJoin(old(join), JoinClause(k, values)))
    {
      var tableJoin, paramSlice := JoinArguments(values);
      var s := Keyword(k) + " " + tableJoin + " ON " + Join(paramSlice, "");
      if |join| > 0 {
        join := join + " " + s;
      } else {
        join := s;
      }
      Reset();
    }

    method InnerJoin(values: seq<Value>)
      requires AllText(values)
      modifies this
      ensures sql == "" && Parts() == old(Parts()).(join := AddJoin(old(join), JoinClause(Inner, values)))
    {
      AddJoinClause(Inner, values);
    }

    method LeftJoin(values: seq<Value>)
      requires AllText(values)
      modifies this
      ensures sql == "" && Parts() == old(Parts()).(join := AddJoin(old(join), JoinClause(Left, values)))
    {
      AddJoinClause(Left, values);
    }

    method RightJoin(values: seq<Value>)
      requires AllText(values)
      modifies this
      ensures sql == "" && Parts() == old(Parts()).(join := AddJoin(old(join), JoinClause(Right, values)))
    {
      AddJoinClause(Right, values);
    }

    method FullJoin(values: seq<Value>)
      requires AllText(values)
      modifies this
      ensures sql == "" && Parts() == old(Parts()).(join := AddJoin(old(join), JoinClause(FullOuter, values)))
    {
      AddJoinClause(FullOuter, values);
    }

    /** Order: `ORDER BY list`, or no order for an empty list. */
    method Order(s: string)
      modifies this
      ensures sql == "" && Parts() == old(Parts()).(order := Prefixed(OrderBy, s)) && Valid()
    {
      if s == "" {
        order := "";
      } else {
        order := "ORDER BY " + s;
      }
      Reset();
    }

    method Group(s: string)
      modifies this
      ensures sql == "" && Parts() == old(Parts()).(group := Prefixed(GroupBy, s))
    {
      if s == "" {
        group := "";
      } else {
        group := "GROUP BY " + s;
      }
      Reset();
    }

    method Having(s: string)
      modifies this
      ensures sql == "" && Parts() == old(Parts()).(having := Prefixed(HavingKw, s))
    {
      if s == "" {
        having := "";
      } else {
        having := "HAVING " + s;
      }
      Reset();
    }

    method From(s: string)
      modifies this
      ensures sql == "" && Parts() == old(Parts()).(from := s)
    {
      from := s;
      Reset();
    }

    method Select(fields: seq<string>)
      modifies this
      ensures sql == "" && Parts() == old(Parts()).(sel := fields)
    {
      sel := fields;
      Reset();
    }

    /** AddSelect: the fields appended to the select list, in order. */
    method AddSelect(fields: seq<string>)
      modifies this
      ensures sql == "" && Parts() == old(Parts()).(sel := old(sel) + fields)
    {
      for i := 0 to |fields|
        invariant Parts() == old(Parts()).(sel := old(sel) + fields[..i]) && sql == old(sql)
      {
        assert fields[..i + 1] == fields[..i] + [fields[i]];
        sel := sel + [fields[i]];
      }
      assert fields[..|fields|] == fields;
      Reset();
    }

    method UpdateSql(s: string)
      modifies this
      ensures sql == "" && Parts() == old(Parts()).(update := s)
    {
      update := s;
      Reset();
    }

    /** ResetSelect empties the select list but keeps the cached statement. */
    method ResetSelect()
      modifies this
      ensures sql == old(sql) && Parts() == old(Parts()).(sel := [])
    {
      sel := [];
    }

    // -------------------------------------------------------------------
    // Rendering

    /** replaceArgPlaceholders: one leftmost `?` per argument replaced by
      the driver's marker, which for MySQL is `?` again. */
    method ReplaceArgPlaceholders()
      modifies this
      ensures sql == old(sql) && Parts() == old(Parts())
    {
      for i := 0 to |args|
        invariant sql == old(sql) && Parts() == old(Parts())
      {
        ReplaceFirstSelf(sql, "?");
        sql := ReplaceFirst(sql, "?", Placeholder(i + 1));
      }
    }

    /** The base clause QueryString formats first: the update template,
      or a SELECT of the trimmed fields, or of every column, from table(). */
    method SelectClause() returns (selectSql: string)
      ensures selectSql == Base(tableName, Parts())
    {
      var fields := TrimAll(sel);
      var t := Table(from, tableName);
      if |sel| <= 0 {
        selectSql := "SELECT " + t + ".* FROM " + t;
      } else {
        selectSql := "SELECT " + Join(fields, ",") + " FROM " + t;
      }
      if |update| > 0 {
        selectSql := update;
      }
    }

    /** The format string of QueryString, filled in. */
    method Assembled() returns (s: string)
      ensures s == Assemble(tableName, Parts())
    {
      var selectSql := SelectClause();
      s := selectSql + " " + join + " " + where + " " + group + " " + having + " " + order + " " + limit + " " + offset;
      JoinEight(selectSql, join, where, group, having, order, limit, offset);
    }

    /** The rendering branch of QueryString: clean up the spacing, put the
      driver's placeholders in and terminate the statement. */
    method Build()
      modifies this
      ensures sql == Render(tableName, Parts()) && Parts() == old(Parts())
    {
      var s := Assembled();
      s := TrimRightChar(s, ' ');
      s := ReplaceAll(s, "  ", " ");
      s := ReplaceAll(s, "   ", " ");
      sql := s;
      ReplaceArgPlaceholders();
      sql := sql + ";";
    }

    /** QueryString: the cached statement, or a fresh rendering that is then
      cached, so that asking again gives the same text. */
    method QueryString() returns (r: string)
      modifies this
      ensures r == old(Statement()) && sql == r && Statement() == r && Parts() == old(Parts())
    {
      if sql == "" {
        Build();
        RenderEnds(tableName, Parts());
      }
      r := sql;
    }

    // -------------------------------------------------------------------
    // Executing

    /** Result: execute the statement with the bound arguments. */
    method ExecResult(conns: Connections, driver: Driver) returns (r: Result<Summary, Error>)
      modifies this
      ensures sql == old(Statement()) && Parts() == old(Parts())
      ensures r == Exec(conns.current, old(Statement()), args, driver)
    {
      var s := QueryString();
      r := Exec(conns.current, s, args, driver);
    }

    /** Rows: run the statement as a query with the bound arguments. */
    method Rows(conns: Connections, driver: Driver) returns (r: Result<RowSet, Error>)
      modifies this
      ensures sql == old(Statement()) && Parts() == old(Parts())
      ensures r == QuerySql(conns.current, old(Statement()), args, driver)
    {
      var s := QueryString();
      r := QuerySql(conns.current, s, args, driver);
    }

    /** Results: every row as a map from column name to value; the rows read
      before a failure are returned with the error. */
    method Results(conns: Connections, driver: Driver) returns (results: seq<ResultMap>, err: Option<Error>)
      modifies this
      ensures sql == old(Statement()) && Parts() == old(Parts())
      ensures (results, err) == Fetched(QuerySql(conns.current, old(Statement()), args, driver))
    {
      var rows := Rows(conns, driver);
      if rows.Failure? {
        return [], Some(RowsError(rows.error));
      }
      var rs := rows.value;
      if rs.columns.Failure? {
        return [], Some(ColumnsError(rs.columns.error));
      }
      var cols := rs.columns.value;
      results := [];
      var i := 0;
      assert rs.rows[0..] == rs.rows;
      while i < |rs.rows|
        invariant 0 <= i <= |rs.rows|
        invariant sql == old(Statement()) && Parts() == old(Parts())
        invariant Collect(cols, rs.rows).0 == results + Collect(cols, rs.rows[i..]).0
        invariant Collect(cols, rs.rows).1 == Collect(cols, rs.rows[i..]).1
      {
        var row := ScanRow(cols, rs.rows[i]);
        assert row == Scanned(cols, rs.rows[i]);
        assert rs.rows[i..][0] == rs.rows[i];
        assert rs.rows[i..][1..] == rs.rows[i + 1..];
        if row.Failure? {
          assert results + [] == results;
          return results, Some(FetchRowError(row.error));
        }
        assert results + ([row.value] + Collect(cols, rs.rows[i + 1..]).0)
          == (results + [row.value]) + Collect(cols, rs.rows[i + 1..]).0;
        results := results + [row.value];
        i := i + 1;
      }
      assert rs.rows[i..] == [];
      assert results + [] == results;
      return results, None;
    }

    /** ResultsSimple: the cursor and its column names, unread. */
    method ResultsSimple(conns: Connections, driver: Driver) returns (rows: Option<RowSet>, cols: seq<string>, err: Option<Error>)
      modifies this
      ensures sql == old(Statement()) && Parts() == old(Parts())
      ensures var q := QuerySql(conns.current, old(Statement()), args, driver);
        && (q.Failure? ==> rows == None && cols == [] && err == Some(RowsError(q.error)))
        && (q.Success? ==> rows == Some(q.value))
        && (q.Success? && q.value.columns.Failure? ==> cols == [] && err == Some(ColumnsError(q.value.columns.error)))
        && (q.Success? && q.value.columns.Success? ==> cols == q.value.columns.value && err == None)
    {
      var r := Rows(conns, driver);
      cols := [];
      if r.Failure? {
        return None, cols, Some(RowsError(r.error));
      }
      rows := Some(r.value);
      match r.value.columns {
        case Failure(e) => return rows, [], Some(ColumnsError(e));
        case Success(c) => return rows, c, None;
      }
    }

    /** FirstResult: LIMIT 1, then the first row, or NoResults. */
    method FirstResult(conns: Connections, driver: Driver) returns (r: Result<ResultMap, Error>)
      modifies this
      ensures var p := old(Parts()).(limit := NumberClause("LIMIT", 1));
        Parts() == p && sql == Render(tableName, p)
        && r == First(Fetched(QuerySql(conns.current, Render(tableName, p), p.args, driver)))
    {
      Limit(1);
      var results, err := Results(conns, driver);
      if err.Some? {
        return Failure(err.value);
      }
      if |results| == 0 {
        return Failure(NoResults);
      }
      return Success(results[0]);
    }

    /** Count: render the count with no order, scan it, and put the select
      list and the order back; on an error the query keeps the count form. */
    method Count(conns: Connections, driver: Driver) returns (r: Result<int, Error>)
      modifies this
      ensures Valid()
      ensures var cp := old(Parts()).(sel := [CountSelect(primaryKey, old(from), tableName)], order := "");
        var cq := Render(tableName, cp);
        var rows := QuerySql(conns.current, cq, old(args), driver);
        && (rows.Failure? ==> r == Failure(CountError(rows.error, cq)))
        && (rows.Success? ==> r == CountRows(rows.value.rows, 0))
        && (r.Failure? ==> Parts() == cp && sql == cq)
        && (r.Success? ==> sql == "" && Parts() == old(Parts()).(order := Prefixed(OrderBy, ReplaceFirst(old(order), OrderBy, ""))))
      ensures r.Success? && old(Valid()) ==> Parts() == old(Parts())
    {
      var s := sel;
      var countSelect := "SELECT COUNT(" + Pk(primaryKey) + ") FROM " + Table(from, tableName);
      Select([countSelect]);
      var o := ReplaceFirst(order, "ORDER BY ", "");
      order := "";
      var count := 0;
      var rows := Rows(conns, driver);
      if rows.Failure? {
        var qs := QueryString();
        return Failure(CountError(rows.error, qs));
      }
      var rs := rows.value.rows;
      for i := 0 to |rs|
        invariant CountRows(rs, 0) == CountRows(rs[i..], count)
      {
        assert rs[i..][1..] == rs[i + 1..];
        match rs[i].scanInt {
          case Failure(e) => return Failure(DriverError(e));
          case Success(n) => count := n;
        }
      }
      Select(s);
      Order(o);
      Reset();
      if old(Valid()) {
        OrderRestore(old(order));
      }
      return Success(count);
    }

    /** UpdateAll: an UPDATE of every parameter, in ascending key order, with
      the parameter values bound before the existing arguments. */
    method UpdateAll(params: ParamMap, conns: Connections, driver: Driver) returns (r: Result<int, Error>)
      modifies this
      ensures var keys := SortedKeys(params.Keys);
        var up := old(Parts()).(update := "UPDATE " + Table(old(from), tableName) + " SET " + SetList(keys),
                                args := ValuesFor(keys, params) + old(args));
        Parts() == up && sql == Render(tableName, up)
        && r == Affected(Exec(conns.current, Render(tableName, up), up.args, driver))
    {
      var setList := QuerySQL(params);
      UpdateSql("UPDATE " + Table(from, tableName) + " SET " + setList);
      var values := ValuesFromParams(params);
      args := values + args;
      var rs := ExecResult(conns, driver);
      r := Affected(rs);
    }

    method Update(params: ParamMap, conns: Connections, driver: Driver) returns (r: Result<int, Error>)
      modifies this
      ensures var keys := SortedKeys(params.Keys);
        var up := old(Parts()).(update := "UPDATE " + Table(old(from), tableName) + " SET " + SetList(keys),
                                args := ValuesFor(keys, params) + old(args));
        Parts() == up && sql == Render(tableName, up)
        && r == Affected(Exec(conns.current, Render(tableName, up), up.args, driver))
    {
      r := UpdateAll(params, conns, driver);
    }

    /** DeleteAll: the DELETE put in the select list, then executed. */
    method DeleteAll(conns: Connections, driver: Driver) returns (err: Option<Error>)
      modifies this
      ensures var dp := old(Parts()).(sel := [DeleteSelect(old(from), tableName)]);
        var e := Exec(conns.current, Render(tableName, dp), dp.args, driver);
        Parts() == dp && sql == Render(tableName, dp)
        && err == (if e.Failure? then Some(e.error) else None)
    {
      Select(["DELETE FROM " + Table(from, tableName)]);
      var rs := ExecResult(conns, driver);
      err := if rs.Failure? then Some(rs.error) else None;
    }

    /** Insert: the INSERT of every parameter in ascending key order, run in
      a transaction; the new row's id on success. */
    method Insert(params: ParamMap, conns: Connections, driver: Driver) returns (r: Result<int, Error>)
      ensures var keys := SortedKeys(params.Keys);
        r == Db.Insert(conns.current, InsertStatement(tableName, keys), ValuesFor(keys, params), driver)
    {
      var s := FormatInsertSQL(tableName, params);
      var values := ValuesFromParams(params);
      r := Db.Insert(conns.current, s, values, driver);
    }

    /** InsertObject: the same insert for the parameter map of a record. */
    method InsertObject(ms: seq<Member>, conns: Connections, driver: Driver) returns (r: Result<int, Error>)
      requires AllFit(ms)
      ensures var p := ObjectParams(ms);
        var keys := SortedKeys(p.Keys);
        r == Db.Insert(conns.current, InsertStatement(tableName, keys), ValuesFor(keys, p), driver)
    {
      var params := InsertObjectParams(ms);
      var s := FormatInsertSQL(tableName, params);
      var values := ValuesFromParams(params);
      r := Db.Insert(conns.current, s, values, driver);
    }
  }

  // ---------------------------------------------------------------------
  // The statements DeleteAll and Count render on a fresh query

  /** Text without `\s` other than the space stays so when concatenated. */
  lemma ControlFreeConcat(a: string, b: string)
    requires NoControlSpace(a) && NoControlSpace(b)
    ensures NoControlSpace(a + b)
  {
    var s := a + b;
    forall i | 0 <= i < |s| ensures !IsReSpace(s[i]) || s[i] == ' ' {
      if i >= |a| { assert s[i] == b[i - |a|]; }
    }
  }

  /** A quoted name without `\s` holds none either, and no space at all. */
  lemma QuotedPlain(x: string)
    requires NoReSpace(x)
    ensures NoControlSpace(QuoteField(x)) && ' ' !in QuoteField(x) && ' ' !in x
  {
    assert ' ' !in x by { assert forall i :: 0 <= i < |x| ==> x[i] != ' '; }
    ControlFreeConcat("`", x);
    ControlFreeConcat("`" + x, "`");
  }

  /** A table name without `\s` gives a DELETE field trim keeps as it is. */
  lemma DeleteFieldNormal(t: string)
    requires NoReSpace(t)
    ensures var f := DeleteSelect("", t); Normal(f) && Word(f)
  {
    var q := QuoteField(t);
    QuotedPlain(t);
    SpaceFreeWord("DELETE");
    SpaceFreeWord("FROM");
    SpaceFreeWord(q);
    WordsJoin("DELETE", "FROM");
    WordsJoin("DELETE" + " " + "FROM", q);
    var f := DeleteSelect("", t);
    assert f == "DELETE" + " " + "FROM" + " " + q;
    ControlFreeConcat("DELETE FROM ", q);
  }

  /** DeleteAll on a fresh query puts its DELETE inside a SELECT:
      `SELECT DELETE FROM <tbl> FROM <tbl>;`. */
  lemma DeleteAllStatement(t: string)
    requires NoReSpace(t)
    ensures Render(t, EmptyParts.(sel := [DeleteSelect("", t)])) ==
      "SELECT " + "DELETE FROM " + QuoteField(t) + " FROM " + QuoteField(t) + ";"
  {
    DeleteFieldNormal(t);
    QuotedPlain(t);
    RenderOneField(t, DeleteSelect("", t));
    Regroup("SELECT ", "DELETE FROM ", QuoteField(t), " FROM " + QuoteField(t) + ";");
  }

  /** `COUNT(<key>)` holds no space when the quoted key holds none. */
  lemma CountCallPlain(k: string)
    requires ' ' !in k
    ensures ' ' !in "COUNT(" + k + ")"
  {
    var c := "COUNT(" + k + ")";
    forall i | 0 <= i < |c| ensures c[i] != ' ' {
      if 6 <= i < |c| - 1 { assert c[i] == k[i - 6]; }
    }
  }

  /** The COUNT field as four words joined by single spaces. */
  lemma CountFieldWord(k: string, q: string)
    requires ' ' !in k && ' ' !in q && |q| > 0
    ensures Word("SELECT COUNT(" + k + ") FROM " + q)
  {
    var c := "COUNT(" + k + ")";
    CountCallPlain(k);
    SpaceFreeWord("SELECT");
    SpaceFreeWord(c);
    SpaceFreeWord("FROM");
    SpaceFreeWord(q);
    WordsJoin("SELECT", c);
    WordsJoin("SELECT" + " " + c, "FROM");
    WordsJoin("SELECT" + " " + c + " " + "FROM", q);
    assert "SELECT" + " " + c + " " + "FROM" + " " + q == "SELECT COUNT(" + k + ") FROM " + q;
  }

  /** The COUNT field holds no `\s` but spaces. */
  lemma CountFieldControlFree(k: string, q: string)
    requires NoControlSpace(k) && NoControlSpace(q)
    ensures NoControlSpace("SELECT COUNT(" + k + ") FROM " + q)
  {
    ControlFreeConcat("SELECT COUNT(", k);
    ControlFreeConcat("SELECT COUNT(" + k, ") FROM ");
    ControlFreeConcat("SELECT COUNT(" + k + ") FROM ", q);
  }

  /** Table and key names without `\s` give a COUNT field trim keeps as it is. */
  lemma CountFieldNormal(pk: string, t: string)
    requires NoReSpace(pk) && NoReSpace(t)
    ensures var f := CountSelect(pk, "", t); Normal(f) && Word(f)
  {
    var k := QuoteField(pk);
    var q := QuoteField(t);
    QuotedPlain(pk);
    QuotedPlain(t);
    CountFieldWord(k, q);
    CountFieldControlFree(k, q);
  }

  /** Count on a fresh query nests its own SELECT inside the select list:
      `SELECT SELECT COUNT(<pk>) FROM <tbl> FROM <tbl>;`. */
  lemma CountStatement(pk: string, t: string)
    requires NoReSpace(pk) && NoReSpace(t)
    ensures Render(t, EmptyParts.(sel := [CountSelect(pk, "", t)])) ==
      "SELECT " + "SELECT COUNT(" + QuoteField(pk) + ") FROM " + QuoteField(t) + " FROM " + QuoteField(t) + ";"
  {
    var k := QuoteField(pk);
    var q := QuoteField(t);
    CountFieldNormal(pk, t);
    QuotedPlain(t);
    RenderOneField(t, CountSelect(pk, "", t));
    Regroup("SELECT ", "SELECT COUNT(" + k + ") FROM ", q, " FROM " + q + ";");
  }

  /** A fresh query on table `t` with Where("id", "=", 5) renders with the
      integer inlined and two spaces before WHERE. */
  method WhereIdScenario() returns (r: string)
    ensures r == "SELECT `t`.* FROM `t`  WHERE (id=5);"
  {
    var q := new Query("t", "id");
    q.Where([Text("id"), Text("="), Int(5)]);
    r := q.QueryString();
    ConditionExample();
    WhereIdRender();
  }

  lemma WhereIdRender()
    ensures Render("t", EmptyParts.(where := AndGroup("", "id=5"))) == "SELECT `t`.* FROM `t`  WHERE (id=5);"
  {
    GroupSpelling("", "id=5");
    assert NoDoubleSpace("id=5");
    RenderWhereOnly("t", "id=5");
    ScenarioSpelling();
  }

  lemma ScenarioSpelling()
    ensures "SELECT " + QuoteField("t") + ".* FROM " + QuoteField("t") + "  " + "WHERE (" + "id=5" + ")" + ";"
      == "SELECT `t`.* FROM `t`  WHERE (id=5);"
  {
  }
}
