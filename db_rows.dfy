// The row readers and the wafer inserts of the database interfaces: the
// version list (the same reader in the SVT library, the SVT agent and the
// EPIC agent), the wafer list of the SVT agent and of the EPIC agent, and the
// columns the two agents' wafer inserts carry. The rows a query returns are a
// parameter; the database's answer to an insert is a parameter too.
module DbRows {
  import opened Wrappers
  import opened Text
  import opened SqlText
  import opened DbValue
  import opened WaferRecords
  import SqlSvt

  /** Every item decoded: None as soon as one of them could not be. */
  function AllDecoded<T>(items: seq<Option<T>>): (r: Option<seq<T>>)
    ensures r.Some? <==> forall i :: 0 <= i < |items| ==> items[i].Some?
    ensures r.Some? ==> |r.value| == |items| && forall i :: 0 <= i < |items| ==> items[i] == Some(r.value[i])
  {
    if forall i :: 0 <= i < |items| ==> items[i].Some? then
      Some(seq(|items|, i requires 0 <= i < |items| && items[i].Some? => items[i].value))
    else
      None
  }

  /** The placeholder a reader writes for a missing text: the prefix and the row's id. */
  function Placeholder(prefix: string, id: int): string
  {
    prefix + IntToString(id)
  }

  /** Placeholders of one prefix name their ids: different ids give different texts. */
  lemma PlaceholderNamesId(prefix: string, a: int, b: int)
    requires Placeholder(prefix, a) == Placeholder(prefix, b)
    ensures a == b
  {
    assert IntToString(a) == Placeholder(prefix, a)[|prefix|..];
    assert IntToString(b) == Placeholder(prefix, b)[|prefix|..];
    IntToStringRoundTrip(a);
    IntToStringRoundTrip(b);
  }

  // ---------------------------------------------------------------------
  // getAllVersions

  /** A row of the version table. */
  datatype Version = Version(id: int, baseVersion: int, name: string, description: string)

  /**
   * One row of the version query: id, name, baseVersion, description. None
   * where the reader fails: cell 0 missing (the row is empty) or null.
   */
  function DecodeVersion(row: seq<Cell>): Option<Version>
  {
    match CellAt(row, 0)
    case None => None
    case Some(v) =>
      var id := v.GetInt();
      Some(Version(id, IntOr(CellAt(row, 2), -1), StringOr(CellAt(row, 1), Placeholder("NONAME_ID", id)),
                   StringOr(CellAt(row, 3), "Empty")))
  }

  /** Every row decoded, in order, or None when one of them cannot be. */
  function Versions(rows: seq<seq<Cell>>): Option<seq<Version>>
  {
    AllDecoded(seq(|rows|, i requires 0 <= i < |rows| => DecodeVersion(rows[i])))
  }

  /** The four cells the version query asks for, all set. */
  function VersionRow(v: Version): seq<Cell>
  {
    [Some(IntValue(v.id)), Some(StringValue(v.name)), Some(IntValue(v.baseVersion)), Some(StringValue(v.description))]
  }

  /** A complete row reads back as the version it holds. */
  lemma VersionRowRoundTrip(v: Version)
    ensures DecodeVersion(VersionRow(v)) == Some(v)
  {
  }

  /** A row with only an id gets the placeholder name, base version -1 and description "Empty". */
  lemma VersionDefaults(row: seq<Cell>, id: int)
    requires 0 < |row| && row[0] == Some(IntValue(id))
    requires forall k :: 1 <= k < |row| ==> row[k].None?
    ensures DecodeVersion(row) == Some(Version(id, -1, "NONAME_ID" + IntToString(id), "Empty"))
  {
    assert CellAt(row, 1).None? && CellAt(row, 2).None? && CellAt(row, 3).None?;
  }

  /** Only the first four cells are read: cells past them, and a missing cell against a null one, change nothing. */
  lemma VersionReadsFourCells(a: seq<Cell>, b: seq<Cell>)
    requires forall k :: 0 <= k < 4 ==> CellAt(a, k) == CellAt(b, k)
    ensures DecodeVersion(a) == DecodeVersion(b)
  {
    assert CellAt(a, 0) == CellAt(b, 0) && CellAt(a, 1) == CellAt(b, 1);
    assert CellAt(a, 2) == CellAt(b, 2) && CellAt(a, 3) == CellAt(b, 3);
  }

  /** Two versions that both lack a name have different names when their ids differ. */
  lemma UnnamedVersionsDistinct(a: seq<Cell>, b: seq<Cell>)
    requires DecodeVersion(a).Some? && DecodeVersion(b).Some?
    requires CellAt(a, 1).None? && CellAt(b, 1).None?
    requires DecodeVersion(a).value.id != DecodeVersion(b).value.id
    ensures DecodeVersion(a).value.name != DecodeVersion(b).value.name
  {
    var x, y := DecodeVersion(a).value, DecodeVersion(b).value;
    if x.name == y.name {
      PlaceholderNamesId("NONAME_ID", x.id, y.id);
    }
  }

  /**
   * getAllVersions on the rows of the query: each row decoded and pushed in
   * order; None where the reader fails on a row. The count it returns is the
   * number of versions.
   */
  method GetAllVersions(rows: seq<seq<Cell>>) returns (versions: Option<seq<Version>>, count: int)
    ensures versions == Versions(rows)
    ensures versions.Some? ==> count == |versions.value| == |rows|
  {
    var acc: seq<Version> := [];
    var k := 0;
    while k < |rows|
      invariant k <= |rows| && |acc| == k
      invariant forall i :: 0 <= i < k ==> DecodeVersion(rows[i]) == Some(acc[i])
    {
      var v := DecodeVersion(rows[k]);
      if v.None? {
        ghost var items := seq(|rows|, i requires 0 <= i < |rows| => DecodeVersion(rows[i]));
        assert items[k].None?;
        return None, 0;
      }
      acc := acc + [v.value];
      k := k + 1;
    }
    ghost var items := seq(|rows|, i requires 0 <= i < |rows| => DecodeVersion(rows[i]));
    assert forall i :: 0 <= i < |items| ==> items[i] == Some(acc[i]);
    ghost var all := AllDecoded(items);
    assert all.Some? && |all.value| == |acc|;
    assert forall i :: 0 <= i < |acc| ==> all.value[i] == acc[i];
    assert all.value == acc;
    versions := Some(acc);
    count := |acc|;
  }

  // ---------------------------------------------------------------------
  // getAllWafers of the SVT agent

  /**
   * The query of getAllWafers: the Wafer table of the schema, one column per
   * entry of the record's column list, and an IN clause on the id when ids
   * are given.
   */
  method BuildWaferQuery(schema: string, columns: seq<string>, ids: seq<int>) returns (q: SqlSvt.SimpleQuery)
    ensures fresh(q)
    ensures q.tableName == FormatStr(schema + ".Wafer")
    ensures q.columnNames == Quoted(columns)
    ensures q.whereClauses == if |ids| == 0 then [] else [InClause("id", ids)]
    ensures !q.orderById
  {
    q := new SqlSvt.SimpleQuery();
    q.SetTableName(schema + ".Wafer");
    for k := 0 to |columns|
      invariant q.columnNames == Quoted(columns[..k])
      invariant q.tableName == FormatStr(schema + ".Wafer") && q.whereClauses == [] && !q.orderById
    {
      q.AddColumn(columns[k]);
      assert Quoted(columns[..k + 1]) == Quoted(columns[..k]) + [FormatStr(columns[k])];
    }
    assert columns[..|columns|] == columns;
    if |ids| != 0 {
      q.AddWhereIn("id", ids);
    }
  }

  /** One row of seven cells: null cells become -1 or ""; the location is not read. */
  function DecodeSvtWafer(row: seq<Cell>): WaferRecord
  {
    WaferRecord(IntOr(CellAt(row, 0), -1), StringOr(CellAt(row, 1), ""), IntOr(CellAt(row, 2), -1),
                IntOr(CellAt(row, 3), -1), "", StringOr(CellAt(row, 4), ""), StringOr(CellAt(row, 5), ""),
                StringOr(CellAt(row, 6), ""))
  }

  /**
   * Every row has the width of the record's column list, and that width
   * reaches the seven cells the reader takes; otherwise the reader throws.
   */
  predicate SvtReadable(rows: seq<seq<Cell>>, width: nat)
  {
    forall i :: 0 <= i < |rows| ==> |rows[i]| == width && 7 <= |rows[i]|
  }

  /** The wafers getAllWafers leaves: every row decoded, or none at all after a throw. */
  function SvtWafers(rows: seq<seq<Cell>>, width: nat): seq<WaferRecord>
  {
    if SvtReadable(rows, width) then
      seq(|rows|, i requires 0 <= i < |rows| => DecodeSvtWafer(rows[i]))
    else
      []
  }

  /**
   * The loop of getAllWafers: a row of the wrong width throws, the handler
   * clears the output, and the count is the size of what is left.
   */
  method GetAllSvtWafers(rows: seq<seq<Cell>>, width: nat) returns (wafers: seq<WaferRecord>, count: int)
    ensures wafers == SvtWafers(rows, width)
    ensures count == |wafers|
  {
    wafers := [];
    var k := 0;
    while k < |rows|
      invariant k <= |rows| && |wafers| == k
      invariant forall i :: 0 <= i < k ==> |rows[i]| == width && 7 <= |rows[i]|
      invariant forall i :: 0 <= i < k ==> wafers[i] == DecodeSvtWafer(rows[i])
    {
      if |rows[k]| != width || |rows[k]| < 7 {
        return [], 0;
      }
      wafers := wafers + [DecodeSvtWafer(rows[k])];
      k := k + 1;
    }
    count := |wafers|;
  }

  /** The seven cells of a stored wafer, all set. */
  function SvtWaferRow(w: WaferRecord): seq<Cell>
  {
    [Some(IntValue(w.id)), Some(StringValue(w.serialNumber)), Some(IntValue(w.batchNumber)),
     Some(IntValue(w.waferTypeId)), Some(StringValue(w.thinningDate)), Some(StringValue(w.dicingDate)),
     Some(StringValue(w.productionDate))]
  }

  /** A complete row reads back as the wafer it holds, except the location, which is not read. */
  lemma SvtWaferRoundTrip(w: WaferRecord)
    ensures DecodeSvtWafer(SvtWaferRow(w)) == w.(generalLocation := "")
  {
  }

  /** A single row of the wrong width empties the whole result. */
  lemma SvtBadRowClears(rows: seq<seq<Cell>>, width: nat, i: nat)
    requires i < |rows| && |rows[i]| != width
    ensures SvtWafers(rows, width) == []
  {
  }

  /** The result keeps the order of the rows, and the rows before a point read the same with or without what follows. */
  lemma SvtWafersPrefix(rows: seq<seq<Cell>>, more: seq<seq<Cell>>, width: nat)
    requires SvtReadable(rows + more, width)
    ensures SvtWafers(rows + more, width) == SvtWafers(rows, width) + SvtWafers(more, width)
  {
    assert SvtReadable(rows, width) by {
      forall i | 0 <= i < |rows| ensures |rows[i]| == width && 7 <= |rows[i]| {
        assert rows[i] == (rows + more)[i];
      }
    }
    assert SvtReadable(more, width) by {
      forall i | 0 <= i < |more| ensures |more[i]| == width && 7 <= |more[i]| {
        assert more[i] == (rows + more)[|rows| + i];
      }
    }
  }

  // ---------------------------------------------------------------------
  // getAllWafers of the EPIC agent

  /** A row of the EPIC wafer table. */
  datatype EpicWafer = EpicWafer(
    id: int,
    serialNumber: string,
    batchNumber: int,
    engineeringRun: string,
    foundry: string,
    technology: string,
    thinningDate: string,
    dicingDate: string,
    productionDate: string,
    waferType: string)

  /**
   * One row of the EPIC wafer query: a missing or null text becomes a
   * placeholder carrying the id, a missing batch number -1; the production
   * date is not read. None where cell 0 is missing or null.
   */
  function DecodeEpicWafer(row: seq<Cell>): Option<EpicWafer>
  {
    match CellAt(row, 0)
    case None => None
    case Some(v) =>
      var id := v.GetInt();
      Some(EpicWafer(id,
                     StringOr(CellAt(row, 1), Placeholder("NO_SERIAL_NUMBER_", id)),
                     IntOr(CellAt(row, 2), -1),
                     StringOr(CellAt(row, 3), Placeholder("NO_ENGINEERING_", id)),
                     StringOr(CellAt(row, 4), Placeholder("NO_FOUNDRY_", id)),
                     StringOr(CellAt(row, 5), Placeholder("NO_TECH_", id)),
                     StringOr(CellAt(row, 6), Placeholder("N/A_", id)),
                     StringOr(CellAt(row, 7), Placeholder("N/A_", id)),
                     "",
                     StringOr(CellAt(row, 8), Placeholder("N/A_", id))))
  }

  function EpicWafers(rows: seq<seq<Cell>>): Option<seq<EpicWafer>>
  {
    AllDecoded(seq(|rows|, i requires 0 <= i < |rows| => DecodeEpicWafer(rows[i])))
  }

  /** getAllWafers of the EPIC agent: each row decoded and pushed in order; the count is their number. */
  method GetAllEpicWafers(rows: seq<seq<Cell>>) returns (wafers: Option<seq<EpicWafer>>, count: int)
    ensures wafers == EpicWafers(rows)
    ensures wafers.Some? ==> count == |wafers.value| == |rows|
  {
    var acc: seq<EpicWafer> := [];
    var k := 0;
    while k < |rows|
      invariant k <= |rows| && |acc| == k
      invariant forall i :: 0 <= i < k ==> DecodeEpicWafer(rows[i]) == Some(acc[i])
    {
      var w := DecodeEpicWafer(rows[k]);
      if w.None? {
        ghost var items := seq(|rows|, i requires 0 <= i < |rows| => DecodeEpicWafer(rows[i]));
        assert items[k].None?;
        return None, 0;
      }
      acc := acc + [w.value];
      k := k + 1;
    }
    ghost var items := seq(|rows|, i requires 0 <= i < |rows| => DecodeEpicWafer(rows[i]));
    assert forall i :: 0 <= i < |items| ==> items[i] == Some(acc[i]);
    ghost var all := AllDecoded(items);
    assert all.Some? && |all.value| == |acc|;
    assert forall i :: 0 <= i < |acc| ==> all.value[i] == acc[i];
    assert all.value == acc;
    wafers := Some(acc);
    count := |acc|;
  }

  /** A read EPIC wafer never has an empty serial number, run, foundry or technology when the cell is null. */
  lemma EpicPlaceholdersNotEmpty(row: seq<Cell>)
    requires DecodeEpicWafer(row).Some?
    ensures CellAt(row, 1).None? ==> |DecodeEpicWafer(row).value.serialNumber| > 0
    ensures CellAt(row, 3).None? ==> |DecodeEpicWafer(row).value.engineeringRun| > 0
    ensures CellAt(row, 4).None? ==> |DecodeEpicWafer(row).value.foundry| > 0
    ensures CellAt(row, 5).None? ==> |DecodeEpicWafer(row).value.technology| > 0
  {
  }

  /** Two wafers without a serial number get different placeholders when their ids differ. */
  lemma UnserialedWafersDistinct(a: seq<Cell>, b: seq<Cell>)
    requires DecodeEpicWafer(a).Some? && DecodeEpicWafer(b).Some?
    requires CellAt(a, 1).None? && CellAt(b, 1).None?
    requires DecodeEpicWafer(a).value.id != DecodeEpicWafer(b).value.id
    ensures DecodeEpicWafer(a).value.serialNumber != DecodeEpicWafer(b).value.serialNumber
  {
    var x, y := DecodeEpicWafer(a).value, DecodeEpicWafer(b).value;
    if x.serialNumber == y.serialNumber {
      PlaceholderNamesId("NO_SERIAL_NUMBER_", x.id, y.id);
    }
  }

  /** A row whose id cell is null makes the whole read fail. */
  lemma EpicNullIdFails(rows: seq<seq<Cell>>, i: nat)
    requires i < |rows| && CellAt(rows[i], 0).None?
    ensures EpicWafers(rows).None?
  {
    var items := seq(|rows|, j requires 0 <= j < |rows| => DecodeEpicWafer(rows[j]));
    assert items[i].None?;
  }

  // ---------------------------------------------------------------------
  // The wafer inserts

  /** The field, if the number is at least 0. */
  function IfNatural(column: string, i: int): seq<Field>
  {
    if i < 0 then [] else [IntField(column, i)]
  }

  /** insertWafer of the SVT agent: the serial number, batch number and dates that are set, in this order. */
  function SvtInsertFields(w: WaferRecord): seq<Field>
  {
    IfSet("serialNumber", w.serialNumber) + IfNatural("batchNumber", w.batchNumber)
    + IfSet("thinningDate", w.thinningDate) + IfSet("dicingDate", w.dicingDate)
    + IfSet("productionDate", w.productionDate)
  }

  /** A column is written exactly when its value is set, and then with that value; nothing else is. */
  lemma SvtInsertPresence(w: WaferRecord)
    ensures StrField("serialNumber", w.serialNumber) in SvtInsertFields(w) <==> |w.serialNumber| > 0
    ensures IntField("batchNumber", w.batchNumber) in SvtInsertFields(w) <==> w.batchNumber >= 0
    ensures StrField("thinningDate", w.thinningDate) in SvtInsertFields(w) <==> |w.thinningDate| > 0
    ensures StrField("dicingDate", w.dicingDate) in SvtInsertFields(w) <==> |w.dicingDate| > 0
    ensures StrField("productionDate", w.productionDate) in SvtInsertFields(w) <==> |w.productionDate| > 0
    ensures forall f :: f in SvtInsertFields(w) ==>
              f.column in {"serialNumber", "batchNumber", "thinningDate", "dicingDate", "productionDate"}
  {
  }

  /** A wafer with everything set writes all five columns in order; one with nothing set writes none. */
  lemma SvtInsertExtremes(w: WaferRecord)
    ensures (|w.serialNumber| > 0 && w.batchNumber >= 0 && |w.thinningDate| > 0 && |w.dicingDate| > 0
             && |w.productionDate| > 0) ==>
              InsertColumns(SvtInsertFields(w)) ==
              Quoted(["serialNumber", "batchNumber", "thinningDate", "dicingDate", "productionDate"])
    ensures (|w.serialNumber| == 0 && w.batchNumber < 0 && |w.thinningDate| == 0 && |w.dicingDate| == 0
             && |w.productionDate| == 0) ==> SvtInsertFields(w) == []
  {
  }

  /** Columns and values of a concatenation are the concatenated columns and values. */
  lemma FieldsConcat(a: seq<Field>, b: seq<Field>)
    ensures InsertColumns(a + b) == InsertColumns(a) + InsertColumns(b)
    ensures InsertValues(a + b) == InsertValues(a) + InsertValues(b)
  {
  }

  /** How a transaction of the interface ends. */
  datatype TransactionEnd = Committed | RolledBack | LeftOpen

  /**
   * insertWafer of the SVT agent. `dbError` is what the database answers to
   * the statement: None when it executes it, or the message it refuses it
   * with. A refusal reaches raiseError, which throws that message, so the
   * rollback and the `return -1` after the failed doInsert never run: the
   * call either commits and returns true or throws, leaving the transaction
   * open. The thrown error is the Failure of the reply.
   */
  method InsertWafer(schema: string, w: WaferRecord, dbError: Option<string>)
    returns (statement: string, reply: Result<bool, string>, ending: TransactionEnd)
    ensures statement == SqlSvt.InsertText(schema, WaferTable(schema), InsertColumns(SvtInsertFields(w)),
                                           InsertValues(SvtInsertFields(w)))
    ensures reply.Success? <==> dbError.None?
    ensures reply.Success? ==> reply.value
    ensures reply.Failure? ==> reply.error == dbError.value
    ensures ending == Committed <==> dbError.None?
    ensures ending != RolledBack
  {
    var insert := new SqlSvt.SimpleInsert();
    insert.SetTableName(schema + ".Wafer");
    var fields := SvtInsertFields(w);
    AddFields(insert, fields);
    assert insert.columnNames == [] + InsertColumns(fields) == InsertColumns(fields);
    assert insert.values == [] + InsertValues(fields) == InsertValues(fields);
    statement := insert.InsertString(schema);
    match dbError {
      case Some(message) =>
        reply, ending := Failure(message), LeftOpen;
      case None =>
        reply, ending := Success(true), Committed;
    }
  }

  /**
   * Adds the fields in order, a text as a quoted string and a number in
   * decimal: the run of conditional adds of an insert, once the fields that
   * are set have been chosen.
   */
  method AddFields(insert: SqlSvt.SimpleInsert, fields: seq<Field>)
    modifies insert
    ensures insert.columnNames == old(insert.columnNames) + InsertColumns(fields)
    ensures insert.values == old(insert.values) + InsertValues(fields)
    ensures insert.tableName == old(insert.tableName)
  {
    for k := 0 to |fields|
      invariant insert.columnNames == old(insert.columnNames) + InsertColumns(fields[..k])
      invariant insert.values == old(insert.values) + InsertValues(fields[..k])
      invariant insert.tableName == old(insert.tableName)
    {
      AddField(insert, fields[k]);
      FieldsConcat(fields[..k], [fields[k]]);
      assert fields[..k + 1] == fields[..k] + [fields[k]];
    }
    assert fields[..|fields|] == fields;
  }

  /** One conditional add: the column and the value of one chosen field. */
  method AddField(insert: SqlSvt.SimpleInsert, field: Field)
    modifies insert
    ensures insert.columnNames == old(insert.columnNames) + InsertColumns([field])
    ensures insert.values == old(insert.values) + InsertValues([field])
    ensures insert.tableName == old(insert.tableName)
  {
    match field {
      case StrField(c, text) => insert.AddColumnAndValueString(c, text);
      case IntField(c, i) => insert.AddColumnAndValueInt(c, i);
    }
  }

  /** insertWaferRecords of the EPIC agent: each text that is set and a batch number of at least 0, in this order. */
  function EpicInsertFields(w: EpicWafer): seq<Field>
  {
    IfSet("serialNumber", w.serialNumber) + IfNatural("batchNumber", w.batchNumber)
    + IfSet("engineeringRun", w.engineeringRun) + IfSet("foundry", w.foundry)
    + IfSet("technology", w.technology) + IfSet("thinningDate", w.thinningDate)
    + IfSet("dicingDate", w.dicingDate) + IfSet("waferType", w.waferType)
  }

  /** A column is written exactly when its value is set. */
  lemma EpicInsertPresence(w: EpicWafer)
    ensures StrField("serialNumber", w.serialNumber) in EpicInsertFields(w) <==> |w.serialNumber| > 0
    ensures IntField("batchNumber", w.batchNumber) in EpicInsertFields(w) <==> w.batchNumber >= 0
    ensures StrField("engineeringRun", w.engineeringRun) in EpicInsertFields(w) <==> |w.engineeringRun| > 0
    ensures StrField("foundry", w.foundry) in EpicInsertFields(w) <==> |w.foundry| > 0
  {
  }

  lemma EpicInsertPresenceLate(w: EpicWafer)
    ensures StrField("technology", w.technology) in EpicInsertFields(w) <==> |w.technology| > 0
    ensures StrField("thinningDate", w.thinningDate) in EpicInsertFields(w) <==> |w.thinningDate| > 0
    ensures StrField("dicingDate", w.dicingDate) in EpicInsertFields(w) <==> |w.dicingDate| > 0
    ensures StrField("waferType", w.waferType) in EpicInsertFields(w) <==> |w.waferType| > 0
  {
  }

  /** No empty text and no negative number is written. */
  lemma EpicInsertNothingUnset(w: EpicWafer)
    ensures forall f :: f in EpicInsertFields(w) ==> (f.StrField? ==> |f.s| > 0) && (f.IntField? ==> f.i >= 0)
  {
  }

  /** The production date is never written, and a wafer read back by the reader writes every text column. */
  lemma EpicReadBackWritesTexts(row: seq<Cell>)
    requires DecodeEpicWafer(row).Some?
    requires forall k :: 1 <= k < |row| ==> row[k].None?
    ensures |EpicInsertFields(DecodeEpicWafer(row).value)| == 7
    ensures forall f :: f in EpicInsertFields(DecodeEpicWafer(row).value) ==> f.column != "productionDate"
  {
    var w := DecodeEpicWafer(row).value;
    assert forall k :: 1 <= k <= 8 ==> CellAt(row, k).None?;
    assert w.batchNumber == -1;
  }
}
