// The statement texts of the EPIC database agent. Its builders keep the
// table name as given (no schema is added, no quoting) and its query has no
// ordering. The builder classes are declared in a header that is not part of
// this model, so their state (table, columns, values, clauses, keys) is
// passed here as values.
module SqlEpic {
  import opened Wrappers
  import opened Text
  import opened SqlText

  /** "SELECT cols FROM t [WHERE c1 AND ...]". */
  function QueryText(table: string, columns: seq<string>, clauses: seq<string>): string
  {
    "SELECT " + Join(columns, ", ") + " FROM " + table
    + (if |clauses| == 0 then "" else " WHERE " + Join(clauses, " AND "))
  }

  /** "INSERT INTO t (cols) VALUES(vals)". */
  function InsertText(table: string, columns: seq<string>, values: seq<string>): string
  {
    "INSERT INTO " + table + " (" + Join(columns, ", ") + ")" + " VALUES(" + Join(values, ", ") + ")"
  }

  /**
   * The versioned query: rows of versionId base or version, for each key the
   * row of the higher version. None where the program throws: no primary key.
   */
  function VersionedQueryText(table: string, columns: seq<string>, clauses: seq<string>,
                              keys: seq<string>, baseVersionId: int, versionId: int): Option<string>
  {
    if |keys| == 0 then None
    else Some(
      "WITH T0 AS (SELECT *" + " FROM " + table
      + " WHERE versionId IN (" + IntToString(baseVersionId) + "," + IntToString(versionId) + ")"
      + (if |clauses| == 0 then "" else " AND " + Join(clauses, " AND ")) + ")"
      + " SELECT " + Join(Prefixed(columns, "T1."), ", ") + " FROM T0 T1"
      + " LEFT OUTER JOIN T0 T2" + " ON T1.versionId < T2.versionId"
      + " AND " + Join(PkTerms(keys), " AND ")
      + " WHERE T2." + keys[0] + " IS NULL")
  }

  /** SimpleQuery::doQuery. */
  method QueryString(table: string, columns: seq<string>, clauses: seq<string>) returns (text: string)
    ensures text == QueryText(table, columns, clauses)
  {
    var cols := StringJoin(columns, ", ");
    text := "SELECT " + cols;
    text := text + " FROM " + table;
    if |clauses| != 0 {
      var where := StringJoin(clauses, " AND ");
      text := text + " WHERE " + where;
    }
  }

  /** SimpleQuery::addWhereIn on the clause list. */
  method AddWhereIn(clauses: seq<string>, column: string, values: seq<int>) returns (clauses': seq<string>)
    ensures clauses' == clauses + (if |values| == 0 then [] else [InClause(column, values)])
  {
    if |values| == 0 {
      return clauses;
    }
    var clause := InClauseText(column, values);
    clauses' := clauses + [clause];
  }

  /** SimpleInsert::doInsert. */
  method InsertString(table: string, columns: seq<string>, values: seq<string>) returns (text: string)
    ensures text == InsertText(table, columns, values)
  {
    var cols := StringJoin(columns, ", ");
    var vals := StringJoin(values, ", ");
    text := "INSERT INTO " + table;
    text := text + " (" + cols + ")";
    text := text + " VALUES(" + vals + ")";
  }

  /** VersionedQuery::doQuery, given the base version the database reports. */
  method VersionedQueryString(table: string, columns: seq<string>, clauses: seq<string>,
                              keys: seq<string>, baseVersionId: int, versionId: int)
    returns (text: Option<string>)
    ensures text == VersionedQueryText(table, columns, clauses, keys, baseVersionId, versionId)
    ensures text.None? <==> |keys| == 0
  {
    var restriction := "";
    if |clauses| != 0 {
      var where := StringJoin(clauses, " AND ");
      restriction := " AND " + where;
    }
    var cols := StringJoinPrefix(columns, "T1.", ", ");
    var pk := PkString(keys);
    if |keys| == 0 {
      return None;
    }
    text := Some(
      "WITH T0 AS (SELECT *" + " FROM " + table
      + " WHERE versionId IN (" + IntToString(baseVersionId) + "," + IntToString(versionId) + ")"
      + restriction + ")"
      + " SELECT " + cols + " FROM T0 T1"
      + " LEFT OUTER JOIN T0 T2" + " ON T1.versionId < T2.versionId"
      + " AND " + pk
      + " WHERE T2." + keys[0] + " IS NULL");
  }

  // ---------------------------------------------------------------------
  // Properties

  /** The query is the bare SELECT ... FROM t, extended by a WHERE part only when there are clauses. */
  lemma QueryTextShape(table: string, columns: seq<string>, clauses: seq<string>)
    ensures var bare := "SELECT " + Join(columns, ", ") + " FROM " + table;
            var q := QueryText(table, columns, clauses);
            StartsWith(q, bare)
            && (|clauses| == 0 <==> q == bare)
  {
    var bare := "SELECT " + Join(columns, ", ") + " FROM " + table;
    var q := QueryText(table, columns, clauses);
    if |clauses| != 0 {
      assert q == bare + " WHERE " + Join(clauses, " AND ");
      assert |q| > |bare|;
    }
    assert q[..|bare|] == bare;
  }

  /** The versioned query ends with the IS NULL test on the first key. */
  lemma VersionedQueryEnds(table: string, columns: seq<string>, clauses: seq<string>,
                           keys: seq<string>, baseVersionId: int, versionId: int)
    requires 0 < |keys|
    ensures var q := VersionedQueryText(table, columns, clauses, keys, baseVersionId, versionId);
            var tail := " WHERE T2." + keys[0] + " IS NULL";
            q.Some? && |tail| <= |q.value| && q.value[|q.value| - |tail|..] == tail
  {
    var q := VersionedQueryText(table, columns, clauses, keys, baseVersionId, versionId).value;
    var tail := " WHERE T2." + keys[0] + " IS NULL";
    var head := "WITH T0 AS (SELECT *" + " FROM " + table
      + " WHERE versionId IN (" + IntToString(baseVersionId) + "," + IntToString(versionId) + ")"
      + (if |clauses| == 0 then "" else " AND " + Join(clauses, " AND ")) + ")"
      + " SELECT " + Join(Prefixed(columns, "T1."), ", ") + " FROM T0 T1"
      + " LEFT OUTER JOIN T0 T2" + " ON T1.versionId < T2.versionId"
      + " AND " + Join(PkTerms(keys), " AND ");
    assert q == head + tail;
    assert q[|head|..] == tail;
  }
}
