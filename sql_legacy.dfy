// The older SQL builders of the first database agent: the same classes as
// the SVT agent's, but table and column names are stored verbatim, with no
// quoting, and there is no ordering flag and no JSON overload. Only the
// builder state is modelled; the statement texts of this agent live in a
// file that is not part of this model.
module SqlLegacy {
  import opened Text
  import opened SqlText

  /** "col = 'v'". */
  function StringEquals(column: string, value: string): string
  {
    column + " = '" + value + "'"
  }

  /** "col = <decimal>". */
  function IntEquals(column: string, value: int): string
  {
    column + " = " + IntToString(value)
  }

  class SimpleQuery {
    var tableName: string
    var columnNames: seq<string>
    var whereClauses: seq<string>

    constructor()
      ensures tableName == "" && columnNames == [] && whereClauses == []
    {
      tableName, columnNames, whereClauses := "", [], [];
    }

    method SetTableName(name: string)
      modifies this
      ensures tableName == name
      ensures columnNames == old(columnNames) && whereClauses == old(whereClauses)
    {
      tableName := name;
    }

    method AddColumn(name: string)
      modifies this
      ensures columnNames == old(columnNames) + [name]
      ensures tableName == old(tableName) && whereClauses == old(whereClauses)
    {
      columnNames := columnNames + [name];
    }

    method AddWhereClause(clause: string)
      modifies this
      ensures whereClauses == old(whereClauses) + [clause]
      ensures tableName == old(tableName) && columnNames == old(columnNames)
    {
      whereClauses := whereClauses + [clause];
    }

    method AddWhereEqualsString(column: string, value: string)
      modifies this
      ensures whereClauses == old(whereClauses) + [StringEquals(column, value)]
      ensures tableName == old(tableName) && columnNames == old(columnNames)
    {
      whereClauses := whereClauses + [column + " = '" + value + "'"];
    }

    method AddWhereEqualsInt(column: string, value: int)
      modifies this
      ensures whereClauses == old(whereClauses) + [IntEquals(column, value)]
      ensures tableName == old(tableName) && columnNames == old(columnNames)
    {
      whereClauses := whereClauses + [column + " = " + IntToString(value)];
    }
  }

  class SimpleInsert {
    var tableName: string
    var columnNames: seq<string>
    var values: seq<string>

    /** Column i was added together with value i. */
    predicate Aligned()
      reads this
    {
      |columnNames| == |values|
    }

    constructor()
      ensures tableName == "" && columnNames == [] && values == []
      ensures Aligned()
    {
      tableName, columnNames, values := "", [], [];
    }

    method SetTableName(name: string)
      modifies this
      ensures tableName == name
      ensures columnNames == old(columnNames) && values == old(values)
    {
      tableName := name;
    }

    method AddColumnAndValueString(column: string, value: string)
      modifies this
      ensures columnNames == old(columnNames) + [column]
      ensures values == old(values) + ["'" + value + "'"]
      ensures tableName == old(tableName)
      ensures old(Aligned()) ==> Aligned()
    {
      columnNames := columnNames + [column];
      values := values + ["'" + value + "'"];
    }

    method AddColumnAndValueInt(column: string, value: int)
      modifies this
      ensures columnNames == old(columnNames) + [column]
      ensures values == old(values) + [IntToString(value)]
      ensures tableName == old(tableName)
      ensures old(Aligned()) ==> Aligned()
    {
      columnNames := columnNames + [column];
      values := values + [IntToString(value)];
    }
  }

  /** A SimpleQuery extended with primary keys and a version id. */
  class VersionedQuery {
    const query: SimpleQuery
    var primaryKeys: seq<string>
    var versionId: int

    constructor()
      ensures fresh(query)
      ensures query.tableName == "" && query.columnNames == [] && query.whereClauses == []
      ensures primaryKeys == [] && versionId == 0
    {
      query := new SimpleQuery();
      primaryKeys, versionId := [], 0;
    }

    method AddPrimaryKey(key: string)
      modifies this
      ensures primaryKeys == old(primaryKeys) + [key] && versionId == old(versionId)
    {
      primaryKeys := primaryKeys + [key];
    }

    method SetVersionId(id: int)
      modifies this
      ensures versionId == id && primaryKeys == old(primaryKeys)
    {
      versionId := id;
    }

    /** getPkString: "T1.k = T2.k" per key, joined with " AND ". */
    method GetPkString() returns (pk: string)
      ensures pk == Join(PkTerms(primaryKeys), " AND ")
    {
      pk := PkString(primaryKeys);
    }
  }

  /** A SimpleInsert that also adds a matching where-clause per column to its look-up query. */
  class VersionedInsert {
    const insert: SimpleInsert
    const query: SimpleQuery
    var versionId: int

    constructor()
      ensures fresh(insert) && fresh(query)
      ensures insert.tableName == "" && insert.columnNames == [] && insert.values == []
      ensures query.tableName == "" && query.columnNames == [] && query.whereClauses == []
      ensures versionId == 0
    {
      insert := new SimpleInsert();
      query := new SimpleQuery();
      versionId := 0;
    }

    method SetVersionId(id: int)
      modifies this, insert
      ensures versionId == id
      ensures insert.columnNames == old(insert.columnNames) + ["VERSION_ID"]
      ensures insert.values == old(insert.values) + [IntToString(id)]
      ensures insert.tableName == old(insert.tableName)
    {
      versionId := id;
      insert.AddColumnAndValueInt("VERSION_ID", id);
    }

    method AddColumnAndValueString(column: string, value: string)
      modifies insert, query
      ensures insert.columnNames == old(insert.columnNames) + [column]
      ensures insert.values == old(insert.values) + ["'" + value + "'"]
      ensures query.whereClauses == old(query.whereClauses) + [StringEquals(column, value)]
      ensures insert.tableName == old(insert.tableName)
      ensures query.tableName == old(query.tableName) && query.columnNames == old(query.columnNames)
    {
      insert.AddColumnAndValueString(column, value);
      query.AddWhereEqualsString(column, value);
    }

    method AddColumnAndValueInt(column: string, value: int)
      modifies insert, query
      ensures insert.columnNames == old(insert.columnNames) + [column]
      ensures insert.values == old(insert.values) + [IntToString(value)]
      ensures query.whereClauses == old(query.whereClauses) + [IntEquals(column, value)]
      ensures insert.tableName == old(insert.tableName)
      ensures query.tableName == old(query.tableName) && query.columnNames == old(query.columnNames)
    {
      insert.AddColumnAndValueInt(column, value);
      query.AddWhereEqualsInt(column, value);
    }
  }
}
