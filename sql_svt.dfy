// The SQL builders of the SVT database agent. Every identifier the builders
// are given is stored double-quoted; the statement texts put the schema in
// front of the (quoted) table name. Executing a statement is left out: the
// statement text is what the model produces.
module SqlSvt {
  import opened Wrappers
  import opened Text
  import opened SqlText

  /** The clause of a string equality test: "\"col\" = 'v'". */
  function StringEquals(column: string, value: string): string
  {
    FormatStr(column) + " = '" + value + "'"
  }

  /** The clause of an integer equality test: "\"col\" = <decimal>". */
  function IntEquals(column: string, value: int): string
  {
    FormatStr(column) + " = " + IntToString(value)
  }

  /** The clause the JSON overload of addWhereEquals adds, if any. */
  function JsonEquals(column: string, value: JsonValue): (r: seq<string>)
    ensures |r| <= 1
    ensures |r| == 1 <==> value.JsonInt? || value.JsonString?
  {
    match value
    case JsonInt(i) => [IntEquals(column, i)]
    case JsonString(s) => [StringEquals(column, s)]
    case _ => []
  }

  /** The text SimpleQuery::doQuery sends. */
  function QueryText(schema: string, table: string, columns: seq<string>, clauses: seq<string>, orderById: bool): string
  {
    "SELECT " + Join(columns, ", ") + " FROM " + AddSchema(schema, table)
    + (if |clauses| == 0 then "" else " WHERE " + Join(clauses, " AND "))
    + (if orderById then " ORDER BY id " else "")
  }

  /** The text SimpleInsert::doInsert sends. */
  function InsertText(schema: string, table: string, columns: seq<string>, values: seq<string>): string
  {
    "INSERT INTO " + AddSchema(schema, table) + " (" + Join(columns, ", ") + ")"
    + " VALUES(" + Join(values, ", ") + ")"
  }

  /** The text SimpleUpdate::doUpdate sends. */
  function UpdateText(schema: string, table: string, assignments: seq<string>, clauses: seq<string>): string
  {
    "UPDATE " + AddSchema(schema, table) + " SET " + Join(assignments, ", ")
    + (if |clauses| == 0 then "" else " WHERE " + Join(clauses, " AND "))
  }

  /**
   * The text VersionedQuery::doQuery sends: the rows of the base and the
   * requested version, keeping for each primary key the row of the higher
   * version. None where the program throws: there is no primary key.
   */
  function VersionedQueryText(schema: string, table: string, columns: seq<string>, clauses: seq<string>,
                              keys: seq<string>, baseVersionId: int, versionId: int): Option<string>
  {
    if |keys| == 0 then None
    else Some(
      "WITH T0 AS (SELECT *" + " FROM " + AddSchema(schema, table)
      + " WHERE versionId IN (" + IntToString(baseVersionId) + "," + IntToString(versionId) + ")"
      + (if |clauses| == 0 then "" else " AND " + Join(clauses, " AND ")) + ")"
      + " SELECT " + Join(Prefixed(columns, "T1."), ", ") + " FROM T0 T1"
      + " LEFT OUTER JOIN T0 T2" + " ON T1.versionId < T2.versionId"
      + " AND " + Join(PkTerms(keys), " AND ")
      + " WHERE T2." + keys[0] + " IS NULL")
  }

  // ---------------------------------------------------------------------
  // SimpleQuery

  class SimpleQuery {
    var tableName: string
    var columnNames: seq<string>
    var whereClauses: seq<string>
    var orderById: bool

    constructor()
      ensures tableName == "" && columnNames == [] && whereClauses == [] && !orderById
    {
      tableName, columnNames, whereClauses, orderById := "", [], [], false;
    }

    method SetTableName(name: string)
      modifies this
      ensures tableName == FormatStr(name)
      ensures columnNames == old(columnNames) && whereClauses == old(whereClauses) && orderById == old(orderById)
    {
      tableName := FormatStr(name);
    }

    method AddColumn(name: string)
      modifies this
      ensures columnNames == old(columnNames) + [FormatStr(name)]
      ensures tableName == old(tableName) && whereClauses == old(whereClauses) && orderById == old(orderById)
    {
      columnNames := columnNames + [FormatStr(name)];
    }

    method AddWhereClause(clause: string)
      modifies this
      ensures whereClauses == old(whereClauses) + [clause]
      ensures tableName == old(tableName) && columnNames == old(columnNames) && orderById == old(orderById)
    {
      whereClauses := whereClauses + [clause];
    }

    method AddWhereEqualsString(column: string, value: string)
      modifies this
      ensures whereClauses == old(whereClauses) + [StringEquals(column, value)]
      ensures tableName == old(tableName) && columnNames == old(columnNames) && orderById == old(orderById)
    {
      whereClauses := whereClauses + [FormatStr(column) + " = '" + value + "'"];
    }

    method AddWhereEqualsInt(column: string, value: int)
      modifies this
      ensures whereClauses == old(whereClauses) + [IntEquals(column, value)]
      ensures tableName == old(tableName) && columnNames == old(columnNames) && orderById == old(orderById)
    {
      whereClauses := whereClauses + [FormatStr(column) + " = " + IntToString(value)];
    }

    /** The JSON overload: an integer or a string is compared, null and anything else add nothing. */
    method AddWhereEqualsJson(column: string, value: JsonValue)
      modifies this
      ensures whereClauses == old(whereClauses) + JsonEquals(column, value)
      ensures tableName == old(tableName) && columnNames == old(columnNames) && orderById == old(orderById)
    {
      match value {
        case JsonInt(i) => AddWhereEqualsInt(column, i);
        case JsonString(s) => AddWhereEqualsString(column, s);
        case _ =>
      }
    }

    /** No clause for no values, otherwise the one clause "col IN (v1,...,vn)". */
    method AddWhereIn(column: string, values: seq<int>)
      modifies this
      ensures whereClauses == old(whereClauses) + (if |values| == 0 then [] else [InClause(column, values)])
      ensures tableName == old(tableName) && columnNames == old(columnNames) && orderById == old(orderById)
    {
      if |values| == 0 {
        return;
      }
      var clause := InClauseText(column, values);
      whereClauses := whereClauses + [clause];
    }

    method SetOrderById(order: bool)
      modifies this
      ensures orderById == order
      ensures tableName == old(tableName) && columnNames == old(columnNames) && whereClauses == old(whereClauses)
    {
      orderById := order;
    }

    /** The statement doQuery sends, for the schema the agent runs with. */
    method QueryString(schema: string) returns (text: string)
      ensures text == QueryText(schema, tableName, columnNames, whereClauses, orderById)
    {
      var columns := StringJoin(columnNames, ", ");
      text := "SELECT " + columns;
      text := text + " FROM " + AddSchema(schema, tableName);
      if |whereClauses| != 0 {
        var where := StringJoin(whereClauses, " AND ");
        text := text + " WHERE " + where;
      }
      if orderById {
        text := text + " ORDER BY id ";
      }
    }
  }

  // ---------------------------------------------------------------------
  // SimpleInsert

  class SimpleInsert {
    var tableName: string
    var columnNames: seq<string>
    var values: seq<string>

    /** Every call appends one column and one value, so the two lists stay aligned. */
    predicate Aligned()
      reads this
    {
      |columnNames| == |values|
    }

    constructor()
      ensures tableName == "" && columnNames == [] && values == []
      ensures Aligned()
    {
      tableName, columnNames, values := "", [], [];
    }

    method SetTableName(name: string)
      modifies this
      ensures tableName == FormatStr(name)
      ensures columnNames == old(columnNames) && values == old(values)
    {
      tableName := FormatStr(name);
    }

    /** A string value is stored between single quotes. */
    method AddColumnAndValueString(column: string, value: string)
      modifies this
      ensures columnNames == old(columnNames) + [FormatStr(column)]
      ensures values == old(values) + ["'" + value + "'"]
      ensures tableName == old(tableName)
      ensures old(Aligned()) ==> Aligned()
    {
      columnNames := columnNames + [FormatStr(column)];
      values := values + ["'" + value + "'"];
    }

    /** An integer value is stored in decimal. */
    method AddColumnAndValueInt(column: string, value: int)
      modifies this
      ensures columnNames == old(columnNames) + [FormatStr(column)]
      ensures values == old(values) + [IntToString(value)]
      ensures tableName == old(tableName)
      ensures old(Aligned()) ==> Aligned()
    {
      columnNames := columnNames + [FormatStr(column)];
      values := values + [IntToString(value)];
    }

    /** The JSON overload: null and anything but an integer or a string add nothing. */
    method AddColumnAndValueJson(column: string, value: JsonValue)
      modifies this
      ensures columnNames == old(columnNames) + (if value.JsonInt? || value.JsonString? then [FormatStr(column)] else [])
      ensures values == old(values) + match value
                                      case JsonInt(i) => [IntToString(i)]
                                      case JsonString(s) => ["'" + s + "'"]
                                      case _ => []
      ensures tableName == old(tableName)
      ensures old(Aligned()) ==> Aligned()
    {
      match value {
        case JsonInt(i) => AddColumnAndValueInt(column, i);
        case JsonString(s) => AddColumnAndValueString(column, s);
        case _ =>
      }
    }

    /** The statement doInsert sends. */
    method InsertString(schema: string) returns (text: string)
      ensures text == InsertText(schema, tableName, columnNames, values)
    {
      var columns := StringJoin(columnNames, ", ");
      var vals := StringJoin(values, ", ");
      text := "INSERT INTO " + AddSchema(schema, tableName);
      text := text + " (" + columns + ")";
      text := text + " VALUES(" + vals + ")";
    }
  }

  // ---------------------------------------------------------------------
  // SimpleUpdate

  class SimpleUpdate {
    var tableName: string
    var assignments: seq<string>
    var whereClauses: seq<string>

    constructor()
      ensures tableName == "" && assignments == [] && whereClauses == []
    {
      tableName, assignments, whereClauses := "", [], [];
    }

    method SetTableName(name: string)
      modifies this
      ensures tableName == FormatStr(name)
      ensures assignments == old(assignments) && whereClauses == old(whereClauses)
    {
      tableName := FormatStr(name);
    }

    method AddColumnAndValueString(column: string, value: string)
      modifies this
      ensures assignments == old(assignments) + [StringEquals(column, value)]
      ensures tableName == old(tableName) && whereClauses == old(whereClauses)
    {
      assignments := assignments + [FormatStr(column) + " = '" + value + "'"];
    }

    method AddColumnAndValueInt(column: string, value: int)
      modifies this
      ensures assignments == old(assignments) + [IntEquals(column, value)]
      ensures tableName == old(tableName) && whereClauses == old(whereClauses)
    {
      assignments := assignments + [FormatStr(column) + " = " + IntToString(value)];
    }

    method AddColumnAndValueJson(column: string, value: JsonValue)
      modifies this
      ensures assignments == old(assignments) + JsonEquals(column, value)
      ensures tableName == old(tableName) && whereClauses == old(whereClauses)
    {
      match value {
        case JsonInt(i) => AddColumnAndValueInt(column, i);
        case JsonString(s) => AddColumnAndValueString(column, s);
        case _ =>
      }
    }

    method AddWhereEqualsString(column: string, value: string)
      modifies this
      ensures whereClauses == old(whereClauses) + [StringEquals(column, value)]
      ensures tableName == old(tableName) && assignments == old(assignments)
    {
      whereClauses := whereClauses + [FormatStr(column) + " = '" + value + "'"];
    }

    method AddWhereEqualsInt(column: string, value: int)
      modifies this
      ensures whereClauses == old(whereClauses) + [IntEquals(column, value)]
      ensures tableName == old(tableName) && assignments == old(assignments)
    {
      whereClauses := whereClauses + [FormatStr(column) + " = " + IntToString(value)];
    }

    method AddWhereEqualsJson(column: string, value: JsonValue)
      modifies this
      ensures whereClauses == old(whereClauses) + JsonEquals(column, value)
      ensures tableName == old(tableName) && assignments == old(assignments)
    {
      match value {
        case JsonInt(i) => AddWhereEqualsInt(column, i);
        case JsonString(s) => AddWhereEqualsString(column, s);
        case _ =>
      }
    }

    /** The statement doUpdate sends. */
    method UpdateString(schema: string) returns (text: string)
      ensures text == UpdateText(schema, tableName, assignments, whereClauses)
    {
      var set_ := StringJoin(assignments, ", ");
      text := "UPDATE " + AddSchema(schema, tableName);
      text := text + " SET " + set_;
      if |whereClauses| != 0 {
        var where := StringJoin(whereClauses, " AND ");
        text := text + " WHERE " + where;
      }
    }
  }

  // ---------------------------------------------------------------------
  // Versioned statements

  /** A SimpleQuery extended with primary keys and a version id. */
  class VersionedQuery {
    const query: SimpleQuery
    var primaryKeys: seq<string>
    var versionId: int

    constructor()
      ensures fresh(query)
      ensures query.tableName == "" && query.columnNames == [] && query.whereClauses == [] && !query.orderById
      ensures primaryKeys == [] && versionId == 0
    {
      query := new SimpleQuery();
      primaryKeys, versionId := [], 0;
    }

    /** The key is stored as given, unquoted. */
    method AddPrimaryKey(key: string)
      modifies this
      ensures primaryKeys == old(primaryKeys) + [key] && versionId == old(versionId)
    {
      primaryKeys := primaryKeys + [key];
    }

    method SetVersionId(id: int)
      modifies this
      ensures versionId == id && primaryKeys == old(primaryKeys)
    {
      versionId := id;
    }

    /** The statement doQuery sends, given the base version the database reports. */
    method QueryString(schema: string, baseVersionId: int) returns (text: Option<string>)
      ensures text == VersionedQueryText(schema, query.tableName, query.columnNames, query.whereClauses,
                                         primaryKeys, baseVersionId, versionId)
      ensures text.None? <==> |primaryKeys| == 0
    {
      var restriction := "";
      if |query.whereClauses| != 0 {
        var where := StringJoin(query.whereClauses, " AND ");
        restriction := " AND " + where;
      }
      var columns := StringJoinPrefix(query.columnNames, "T1.", ", ");
      var pk := PkString(primaryKeys);
      if |primaryKeys| == 0 {
        return None;
      }
      text := Some(
        "WITH T0 AS (SELECT *" + " FROM " + AddSchema(schema, query.tableName)
        + " WHERE versionId IN (" + IntToString(baseVersionId) + "," + IntToString(versionId) + ")"
        + restriction + ")"
        + " SELECT " + columns + " FROM T0 T1"
        + " LEFT OUTER JOIN T0 T2" + " ON T1.versionId < T2.versionId"
        + " AND " + pk
        + " WHERE T2." + primaryKeys[0] + " IS NULL");
    }
  }

  /**
   * A SimpleInsert that also records, for every column, an equality test on
   * the query that looks for the same row in the base version.
   */
  class VersionedInsert {
    const insert: SimpleInsert
    const query: SimpleQuery
    var versionId: int

    constructor()
      ensures fresh(insert) && fresh(query)
      ensures insert.tableName == "" && insert.columnNames == [] && insert.values == []
      ensures query.tableName == "" && query.columnNames == [] && query.whereClauses == [] && !query.orderById
      ensures versionId == 0
    {
      insert := new SimpleInsert();
      query := new SimpleQuery();
      versionId := 0;
    }

    /** Records the id and inserts it as the VERSION_ID column. */
    method SetVersionId(id: int)
      modifies this, insert
      ensures versionId == id
      ensures insert.columnNames == old(insert.columnNames) + [FormatStr("VERSION_ID")]
      ensures insert.values == old(insert.values) + [IntToString(id)]
      ensures insert.tableName == old(insert.tableName)
    {
      versionId := id;
      insert.AddColumnAndValueInt("VERSION_ID", id);
    }

    /**
     * One insert column and one where-clause per call; the name is quoted
     * here and quoted again by the methods it is passed to.
     */
    method AddColumnAndValueString(column: string, value: string)
      modifies insert, query
      ensures insert.columnNames == old(insert.columnNames) + [FormatStr(FormatStr(column))]
      ensures insert.values == old(insert.values) + ["'" + value + "'"]
      ensures query.whereClauses == old(query.whereClauses) + [StringEquals(FormatStr(column), value)]
      ensures insert.tableName == old(insert.tableName)
      ensures query.tableName == old(query.tableName) && query.columnNames == old(query.columnNames)
      ensures query.orderById == old(query.orderById)
    {
      insert.AddColumnAndValueString(FormatStr(column), value);
      query.AddWhereEqualsString(FormatStr(column), value);
    }

    method AddColumnAndValueInt(column: string, value: int)
      modifies insert, query
      ensures insert.columnNames == old(insert.columnNames) + [FormatStr(FormatStr(column))]
      ensures insert.values == old(insert.values) + [IntToString(value)]
      ensures query.whereClauses == old(query.whereClauses) + [IntEquals(FormatStr(column), value)]
      ensures insert.tableName == old(insert.tableName)
      ensures query.tableName == old(query.tableName) && query.columnNames == old(query.columnNames)
      ensures query.orderById == old(query.orderById)
    {
      insert.AddColumnAndValueInt(FormatStr(column), value);
      query.AddWhereEqualsInt(FormatStr(column), value);
    }

    /**
     * doInsert: the look-up query is completed (the table name, already
     * quoted, is quoted again) and the insert is sent only when the database
     * reports no such row in the base version. The base version and the row
     * count come from the database; the result is the look-up statement and
     * the insert statement, if one is sent.
     */
    method DoInsert(schema: string, baseVersionId: int, rowCount: int) returns (lookup: string, inserted: Option<string>)
      modifies query
      ensures query.tableName == FormatStr(insert.tableName)
      ensures query.columnNames == old(query.columnNames) + [FormatStr("COUNT(*)")]
      ensures query.whereClauses == old(query.whereClauses) + [IntEquals("versionId", baseVersionId)]
      ensures lookup == QueryText(schema, query.tableName, query.columnNames, query.whereClauses, query.orderById)
      ensures inserted == if rowCount == 0
                          then Some(InsertText(schema, insert.tableName, insert.columnNames, insert.values))
                          else None
    {
      query.SetTableName(insert.tableName);
      query.AddColumn("COUNT(*)");
      query.AddWhereEqualsInt("versionId", baseVersionId);
      lookup := query.QueryString(schema);
      inserted := None;
      if rowCount == 0 {
        var text := insert.InsertString(schema);
        inserted := Some(text);
      }
    }
  }

  // ---------------------------------------------------------------------
  // Properties

  /** Clauses and ordering only ever extend the bare query, the ordering at the very end. */
  lemma QueryTextExtends(schema: string, table: string, columns: seq<string>, clauses: seq<string>, orderById: bool)
    ensures var bare := QueryText(schema, table, columns, [], false);
            var full := QueryText(schema, table, columns, clauses, orderById);
            StartsWith(full, bare)
            && (|clauses| == 0 && !orderById ==> full == bare)
            && (orderById ==> |" ORDER BY id "| <= |full| && full[|full| - |" ORDER BY id "|..] == " ORDER BY id ")
  {
    var bare := QueryText(schema, table, columns, [], false);
    var full := QueryText(schema, table, columns, clauses, orderById);
    var w := if |clauses| == 0 then "" else " WHERE " + Join(clauses, " AND ");
    var o := if orderById then " ORDER BY id " else "";
    assert full == bare + w + o;
    assert full[..|bare|] == bare;
  }
}
