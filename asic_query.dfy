// The ASIC table of the SVT agent: the validation in front of an insert, the
// query built from a filter, the decoding of the rows the database returns,
// the check on the number of rows returned for an id filter, and the paging
// of the reply. The database is an input: the rows of a query are a
// parameter, an insert appends to the table.
module AsicDb {
  import opened Wrappers
  import opened Text
  import opened SqlText
  import opened DbValue
  import SqlSvt

  /** The columns of an Asic the agent writes; the database assigns the id. */
  datatype AsicFields = AsicFields(
    waferId: int,
    serialNumber: string,
    familyType: string,
    waferMapPosition: string,
    quality: string)

  /** An Asic as read back, with its id. */
  datatype AsicRecord = AsicRecord(id: int, fields: AsicFields)

  /** What createAsicInDB accepts: a wafer id of at least 0 and no empty text. */
  predicate Insertable(a: AsicFields)
  {
    && a.waferId >= 0
    && |a.serialNumber| > 0
    && |a.familyType| > 0
    && |a.waferMapPosition| > 0
    && |a.quality| > 0
  }

  /** The Asic table, as far as the agent changes it. */
  class AsicTable {
    var rows: seq<AsicFields>

    constructor(initial: seq<AsicFields>)
      ensures rows == initial
    {
      rows := initial;
    }

    /** createAsicInDB: the record is inserted exactly when it passes the checks. */
    method CreateAsicInDB(a: AsicFields) returns (ok: bool)
      modifies this
      ensures ok == Insertable(a)
      ensures rows == if ok then old(rows) + [a] else old(rows)
    {
      if a.waferId < 0 || |a.serialNumber| == 0 || |a.familyType| == 0
         || |a.waferMapPosition| == 0 || |a.quality| == 0 {
        return false;
      }
      rows := rows + [a];
      ok := true;
    }
  }

  // ---------------------------------------------------------------------
  // The query

  /** The filter of getAllAsics; a negative wafer id and empty texts filter nothing. */
  datatype AsicFilters = AsicFilters(ids: seq<int>, waferId: int, familyType: string, quality: string)

  /** The where-clauses the filter turns into, in the order they are added. */
  function WhereClauses(f: AsicFilters): (r: seq<string>)
    ensures |r| == (if |f.ids| > 0 then 1 else 0) + (if f.waferId >= 0 then 1 else 0)
                   + (if |f.familyType| > 0 then 1 else 0) + (if |f.quality| > 0 then 1 else 0)
  {
    (if |f.ids| > 0 then [InClause("id", f.ids)] else [])
    + (if f.waferId >= 0 then [SqlSvt.IntEquals("waferId", f.waferId)] else [])
    + (if |f.familyType| > 0 then [SqlSvt.StringEquals("familyType", f.familyType)] else [])
    + (if |f.quality| > 0 then [SqlSvt.StringEquals("quality", f.quality)] else [])
  }

  const AsicColumns: seq<string> := ["id", "waferId", "serialNumber", "familyType", "waferMapPosition", "quality"]

  /** The query getAllAsicsFromDB sends, built step by step on a SimpleQuery. */
  method BuildAsicQuery(schema: string, f: AsicFilters) returns (q: SqlSvt.SimpleQuery)
    ensures fresh(q)
    ensures q.tableName == FormatStr(schema + ".Asic")
    ensures q.columnNames == Quoted(AsicColumns)
    ensures q.whereClauses == WhereClauses(f)
    ensures !q.orderById
  {
    q := new SqlSvt.SimpleQuery();
    q.SetTableName(schema + ".Asic");
    AddAsicColumns(q);
    AddFilterClauses(q, f);
  }

  method AddAsicColumns(q: SqlSvt.SimpleQuery)
    requires q.columnNames == []
    modifies q
    ensures q.columnNames == Quoted(AsicColumns)
    ensures q.tableName == old(q.tableName) && q.whereClauses == old(q.whereClauses) && q.orderById == old(q.orderById)
  {
    q.AddColumn("id");
    q.AddColumn("waferId");
    q.AddColumn("serialNumber");
    q.AddColumn("familyType");
    q.AddColumn("waferMapPosition");
    q.AddColumn("quality");
  }

  /** Adds the clause of every filter field that is set. */
  method AddFilterClauses(q: SqlSvt.SimpleQuery, f: AsicFilters)
    requires q.whereClauses == []
    modifies q
    ensures q.whereClauses == WhereClauses(f)
    ensures q.tableName == old(q.tableName) && q.columnNames == old(q.columnNames) && q.orderById == old(q.orderById)
  {
    if |f.ids| != 0 {
      q.AddWhereIn("id", f.ids);
    }
    if f.waferId >= 0 {
      q.AddWhereEqualsInt("waferId", f.waferId);
    }
    if |f.familyType| != 0 {
      q.AddWhereEqualsString("familyType", f.familyType);
    }
    if |f.quality| != 0 {
      q.AddWhereEqualsString("quality", f.quality);
    }
  }

  /** A filter with nothing set adds no clause; each set field adds its own clause. */
  lemma NoFilterNoClause(f: AsicFilters)
    requires |f.ids| == 0 && f.waferId < 0 && |f.familyType| == 0 && |f.quality| == 0
    ensures WhereClauses(f) == []
  {
  }

  lemma IdsClauseFirst(f: AsicFilters)
    requires |f.ids| > 0
    ensures 0 < |WhereClauses(f)| && WhereClauses(f)[0] == "id IN (" + Join(Decimals(f.ids), ",") + ")"
  {
  }

  // ---------------------------------------------------------------------
  // Decoding the rows

  /** One row of six cells; null cells become -1 or "". */
  function DecodeAsic(row: seq<Cell>): AsicRecord
    requires |row| == 6
  {
    AsicRecord(IntOr(row[0], -1),
               AsicFields(IntOr(row[1], -1), StringOr(row[2], ""), StringOr(row[3], ""),
                          StringOr(row[4], ""), StringOr(row[5], "")))
  }

  predicate AllSix(rows: seq<seq<Cell>>)
  {
    forall i :: 0 <= i < |rows| ==> |rows[i]| == 6
  }

  /** Every row decoded, in order. */
  function DecodeAll(rows: seq<seq<Cell>>): (r: seq<AsicRecord>)
    requires AllSix(rows)
    ensures |r| == |rows| && forall i :: 0 <= i < |rows| ==> r[i] == DecodeAsic(rows[i])
  {
    seq(|rows|, i requires 0 <= i < |rows| && AllSix(rows) => DecodeAsic(rows[i]))
  }

  /**
   * getAllAsicsFromDB on the rows the query returned: None (false, output
   * cleared) if a row does not have six cells or an id filter was given and
   * the number of rows differs from the number of ids.
   */
  function AsicsFromRows(rows: seq<seq<Cell>>, f: AsicFilters): (r: Option<seq<AsicRecord>>)
    ensures r.Some? <==> AllSix(rows) && (|f.ids| == 0 || |rows| == |f.ids|)
    ensures r.Some? ==> |r.value| == |rows|
  {
    if !AllSix(rows) then None
    else if |f.ids| != 0 && |rows| != |f.ids| then None
    else Some(DecodeAll(rows))
  }

  /** The loop of getAllAsicsFromDB: decode and push each row; a wrong row or count clears the output. */
  method GetAllAsicsFromDB(rows: seq<seq<Cell>>, f: AsicFilters) returns (ok: bool, asics: seq<AsicRecord>)
    ensures ok == AsicsFromRows(rows, f).Some?
    ensures asics == if ok then AsicsFromRows(rows, f).value else []
  {
    asics := [];
    var k := 0;
    while k < |rows|
      invariant k <= |rows|
      invariant AllSix(rows[..k])
      invariant asics == DecodeAll(rows[..k])
    {
      if |rows[k]| != 6 {
        return false, [];
      }
      asics := asics + [DecodeAsic(rows[k])];
      k := k + 1;
    }
    assert rows[..k] == rows;
    if |f.ids| != 0 && |asics| != |f.ids| {
      return false, [];
    }
    ok := true;
  }

  // ---------------------------------------------------------------------
  // Paging

  /** Most ASICs a reply without a pager carries. */
  const MaxUnpaged := 5000

  datatype Pager = Pager(limit: nat, offset: nat)

  /** The reply: the items sent and the number of ASICs the filter matched. */
  datatype AsicsReply = AsicsReply(items: seq<AsicRecord>, totalCount: nat)

  function Min(a: nat, b: nat): nat { if a < b then a else b }

  /**
   * getAllAsics once the filtered ASICs are known: without a pager all of
   * them, or none when there are more than 5000; with a pager the slice from
   * the offset of at most `limit` ASICs, or an error when the offset is past
   * the end.
   */
  function PageOf(all: seq<AsicRecord>, pager: Option<Pager>): (r: Result<AsicsReply, string>)
    ensures r.Success? ==> r.value.totalCount == |all|
    ensures pager.None? ==> r.Success? && r.value.items == (if |all| <= MaxUnpaged then all else [])
    ensures pager.Some? ==> (r.Failure? <==> |all| < pager.value.offset)
    ensures pager.Some? && r.Success? ==>
              var p := pager.value;
              && |r.value.items| == Min(|all| - p.offset, p.limit)
              && forall k :: 0 <= k < |r.value.items| ==> r.value.items[k] == all[p.offset + k]
  {
    match pager
    case None => Success(AsicsReply(if |all| <= MaxUnpaged then all else [], |all|))
    case Some(p) =>
      if |all| < p.offset then
        Failure("Pager offset out of range, filtered asic size: " + IntToString(|all|))
      else
        var tail := |all| - p.offset;
        Success(AsicsReply(all[p.offset..p.offset + (if tail < p.limit then tail else p.limit)], |all|))
  }

  /** An offset equal to the number of ASICs gives an empty page. */
  lemma OffsetAtEndIsEmpty(all: seq<AsicRecord>, limit: nat)
    ensures PageOf(all, Some(Pager(limit, |all|))) == Success(AsicsReply([], |all|))
  {
  }

  /** Consecutive pages of the same limit cover the list in order. */
  lemma PagesConcatenate(all: seq<AsicRecord>, limit: nat, offset: nat)
    requires offset + limit <= |all|
    ensures var first := PageOf(all, Some(Pager(limit, offset)));
            var next := PageOf(all, Some(Pager(limit, offset + limit)));
            first.Success? && next.Success?
            && first.value.items + next.value.items == all[offset..offset + limit + Min(|all| - offset - limit, limit)]
  {
    var first := PageOf(all, Some(Pager(limit, offset))).value.items;
    var next := PageOf(all, Some(Pager(limit, offset + limit))).value.items;
    assert first == all[offset..offset + limit];
    var m := Min(|all| - offset - limit, limit);
    assert next == all[offset + limit..offset + limit + m];
    assert all[offset..offset + limit + m] == all[offset..offset + limit] + all[offset + limit..offset + limit + m];
  }

  /** getAllAsics: no reply when the rows cannot be read, otherwise the (possibly paged) reply. */
  function GetAllAsics(rows: seq<seq<Cell>>, f: AsicFilters, pager: Option<Pager>): (r: Option<Result<AsicsReply, string>>)
    ensures r.Some? <==> AsicsFromRows(rows, f).Some?
    ensures r.Some? && r.value.Success? ==> r.value.value.totalCount == |rows|
  {
    match AsicsFromRows(rows, f)
    case None => None
    case Some(all) => Some(PageOf(all, pager))
  }
}
