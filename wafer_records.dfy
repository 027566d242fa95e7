// The wafer record of the SVT agent: the checks in front of the insert of a
// new wafer, the columns that insert and the update carry, and the request
// handling of updateWafer. A statement is the text handed to the database;
// running it is not part of this model.
module WaferRecords {
  import opened Wrappers
  import opened Text
  import opened SqlText
  import SqlSvt

  /** A row of the Wafer table; an empty date is a date not yet known. */
  datatype WaferRecord = WaferRecord(
    id: int,
    serialNumber: string,
    batchNumber: int,
    waferTypeId: int,
    generalLocation: string,
    thinningDate: string,
    dicingDate: string,
    productionDate: string)

  /** One column of a statement with the value written into it. */
  datatype Field = StrField(column: string, s: string) | IntField(column: string, i: int)

  /** The value as the insert writes it: text single-quoted, integers in decimal. */
  function Literal(f: Field): string
  {
    match f
    case StrField(_, s) => "'" + s + "'"
    case IntField(_, i) => IntToString(i)
  }

  /** The "col" = value term the update writes for a field. */
  function Assignment(f: Field): string
  {
    match f
    case StrField(c, s) => SqlSvt.StringEquals(c, s)
    case IntField(c, i) => SqlSvt.IntEquals(c, i)
  }

  function InsertColumns(fields: seq<Field>): (r: seq<string>)
    ensures |r| == |fields| && forall k :: 0 <= k < |fields| ==> r[k] == FormatStr(fields[k].column)
  {
    seq(|fields|, k requires 0 <= k < |fields| => FormatStr(fields[k].column))
  }

  function InsertValues(fields: seq<Field>): (r: seq<string>)
    ensures |r| == |fields| && forall k :: 0 <= k < |fields| ==> r[k] == Literal(fields[k])
  {
    seq(|fields|, k requires 0 <= k < |fields| => Literal(fields[k]))
  }

  function Assignments(fields: seq<Field>): (r: seq<string>)
    ensures |r| == |fields| && forall k :: 0 <= k < |fields| ==> r[k] == Assignment(fields[k])
  {
    seq(|fields|, k requires 0 <= k < |fields| => Assignment(fields[k]))
  }

  /** The field, if its text is not empty. */
  function IfSet(column: string, s: string): seq<Field>
  {
    if |s| == 0 then [] else [StrField(column, s)]
  }

  // ---------------------------------------------------------------------
  // createWaferInDB

  /** The checks createWaferInDB makes before it builds the insert. */
  predicate Creatable(w: WaferRecord)
  {
    |w.serialNumber| > 0 && |w.generalLocation| > 0 && w.batchNumber >= 0 && w.waferTypeId >= 0
  }

  /** The four fields every insert carries. */
  function BaseFields(w: WaferRecord): seq<Field>
  {
    [StrField("serialNumber", w.serialNumber), IntField("batchNumber", w.batchNumber),
     IntField("waferTypeId", w.waferTypeId), StrField("generalLocation", w.generalLocation)]
  }

  /** The fields of the insert: four always, then each date that is set. */
  function CreateFields(w: WaferRecord): (r: seq<Field>)
    ensures 4 <= |r| <= 7
    ensures r[..4] == BaseFields(w)
    ensures forall k :: 4 <= k < |r| ==> r[k].StrField? && |r[k].s| > 0
  {
    BaseFields(w) + IfSet("thinningDate", w.thinningDate) + IfSet("dicingDate", w.dicingDate)
    + IfSet("productionDate", w.productionDate)
  }

  /** The table name the agent sets; the builder adds the schema again when it writes the statement. */
  function WaferTable(schema: string): string
  {
    FormatStr(schema + ".Wafer")
  }

  /**
   * createWaferInDB up to the insert: None when a check fails (nothing is
   * sent), otherwise the insert statement.
   */
  method CreateWaferInDB(schema: string, w: WaferRecord) returns (statement: Option<string>)
    ensures statement.Some? <==> Creatable(w)
    ensures statement.Some? ==>
              statement.value == SqlSvt.InsertText(schema, WaferTable(schema),
                                                   InsertColumns(CreateFields(w)), InsertValues(CreateFields(w)))
  {
    var insert := new SqlSvt.SimpleInsert();
    insert.SetTableName(schema + ".Wafer");
    if |w.serialNumber| == 0 || |w.generalLocation| == 0 || w.batchNumber < 0 || w.waferTypeId < 0 {
      return None;
    }
    AddBaseFields(insert, w);
    AddIfSet(insert, "thinningDate", w.thinningDate);
    AddIfSet(insert, "dicingDate", w.dicingDate);
    AddIfSet(insert, "productionDate", w.productionDate);
    FieldsAppend(BaseFields(w), IfSet("thinningDate", w.thinningDate), IfSet("dicingDate", w.dicingDate),
                 IfSet("productionDate", w.productionDate));
    var text := insert.InsertString(schema);
    statement := Some(text);
  }

  method AddBaseFields(insert: SqlSvt.SimpleInsert, w: WaferRecord)
    requires insert.columnNames == [] && insert.values == []
    modifies insert
    ensures insert.columnNames == InsertColumns(BaseFields(w))
    ensures insert.values == InsertValues(BaseFields(w))
    ensures insert.tableName == old(insert.tableName)
  {
    insert.AddColumnAndValueString("serialNumber", w.serialNumber);
    insert.AddColumnAndValueInt("batchNumber", w.batchNumber);
    insert.AddColumnAndValueInt("waferTypeId", w.waferTypeId);
    insert.AddColumnAndValueString("generalLocation", w.generalLocation);
  }

  /** Columns and values of consecutive field lists are the consecutive columns and values. */
  lemma FieldsAppend(a: seq<Field>, b: seq<Field>, c: seq<Field>, d: seq<Field>)
    ensures InsertColumns(a + b + c + d) == InsertColumns(a) + InsertColumns(b) + InsertColumns(c) + InsertColumns(d)
    ensures InsertValues(a + b + c + d) == InsertValues(a) + InsertValues(b) + InsertValues(c) + InsertValues(d)
    ensures Assignments(a + b + c + d) == Assignments(a) + Assignments(b) + Assignments(c) + Assignments(d)
  {
    FieldsAppendTwo(a, b);
    FieldsAppendTwo(a + b, c);
    FieldsAppendTwo(a + b + c, d);
  }

  /** Columns, values and assignments of two consecutive field lists. */
  lemma FieldsAppendTwo(a: seq<Field>, b: seq<Field>)
    ensures InsertColumns(a + b) == InsertColumns(a) + InsertColumns(b)
    ensures InsertValues(a + b) == InsertValues(a) + InsertValues(b)
    ensures Assignments(a + b) == Assignments(a) + Assignments(b)
  {
  }

  /** Adds a text column and its value when the text is set. */
  method AddIfSet(insert: SqlSvt.SimpleInsert, column: string, date: string)
    modifies insert
    ensures insert.columnNames == old(insert.columnNames) + InsertColumns(IfSet(column, date))
    ensures insert.values == old(insert.values) + InsertValues(IfSet(column, date))
    ensures insert.tableName == old(insert.tableName)
  {
    if |date| != 0 {
      insert.AddColumnAndValueString(column, date);
    }
  }

  /** A date is written exactly when it is set, under its own column. */
  lemma CreateDatePresence(w: WaferRecord)
    ensures StrField("thinningDate", w.thinningDate) in CreateFields(w) <==> |w.thinningDate| > 0
    ensures StrField("dicingDate", w.dicingDate) in CreateFields(w) <==> |w.dicingDate| > 0
    ensures StrField("productionDate", w.productionDate) in CreateFields(w) <==> |w.productionDate| > 0
    ensures |CreateFields(w)| == 4 + |IfSet("thinningDate", w.thinningDate)| + |IfSet("dicingDate", w.dicingDate)|
                                   + |IfSet("productionDate", w.productionDate)|
  {
  }

  // ---------------------------------------------------------------------
  // updateWaferInDB

  /** The fields of the update: the location and each date, when set. */
  function UpdateFields(w: WaferRecord): (r: seq<Field>)
    ensures |r| <= 4
    ensures forall k :: 0 <= k < |r| ==> r[k].StrField? && |r[k].s| > 0
  {
    IfSet("generalLocation", w.generalLocation) + IfSet("thinningDate", w.thinningDate)
    + IfSet("dicingDate", w.dicingDate) + IfSet("productionDate", w.productionDate)
  }

  /** The update as the agent writes it: no where-clause at all. */
  function UpdateStatementAsWritten(schema: string, w: WaferRecord): string
  {
    SqlSvt.UpdateText(schema, WaferTable(schema), Assignments(UpdateFields(w)), [])
  }

  /** The update restricted to the wafer's own row. */
  function UpdateStatement(schema: string, w: WaferRecord): string
  {
    SqlSvt.UpdateText(schema, WaferTable(schema), Assignments(UpdateFields(w)), [SqlSvt.IntEquals("id", w.id)])
  }

  /** updateWaferInDB as written: the SET list is built, no clause is added. */
  method UpdateWaferInDBAsWritten(schema: string, w: WaferRecord) returns (statement: string)
    ensures statement == UpdateStatementAsWritten(schema, w)
  {
    var update := new SqlSvt.SimpleUpdate();
    AddUpdateFields(update, schema, w);
    statement := update.UpdateString(schema);
  }

  /** updateWaferInDB with the row selected by the wafer id. */
  method UpdateWaferInDB(schema: string, w: WaferRecord) returns (statement: string)
    ensures statement == UpdateStatement(schema, w)
  {
    var update := new SqlSvt.SimpleUpdate();
    AddUpdateFields(update, schema, w);
    update.AddWhereEqualsInt("id", w.id);
    statement := update.UpdateString(schema);
  }

  method AddUpdateFields(update: SqlSvt.SimpleUpdate, schema: string, w: WaferRecord)
    requires update.assignments == [] && update.whereClauses == []
    modifies update
    ensures update.tableName == WaferTable(schema)
    ensures update.assignments == Assignments(UpdateFields(w))
    ensures update.whereClauses == []
  {
    update.SetTableName(schema + ".Wafer");
    AddAssignment(update, "generalLocation", w.generalLocation);
    assert update.assignments == Assignments(IfSet("generalLocation", w.generalLocation));
    AddAssignment(update, "thinningDate", w.thinningDate);
    AddAssignment(update, "dicingDate", w.dicingDate);
    AddAssignment(update, "productionDate", w.productionDate);
    FieldsAppend(IfSet("generalLocation", w.generalLocation), IfSet("thinningDate", w.thinningDate),
                 IfSet("dicingDate", w.dicingDate), IfSet("productionDate", w.productionDate));
  }

  method AddAssignment(update: SqlSvt.SimpleUpdate, column: string, value: string)
    modifies update
    ensures update.assignments == old(update.assignments) + Assignments(IfSet(column, value))
    ensures update.tableName == old(update.tableName) && update.whereClauses == old(update.whereClauses)
  {
    if |value| != 0 {
      update.AddColumnAndValueString(column, value);
    }
  }

  /** As written, the statement does not depend on the wafer id: it rewrites every wafer. */
  lemma UpdateAsWrittenIgnoresId(schema: string, w: WaferRecord, otherId: int)
    ensures UpdateStatementAsWritten(schema, w) == UpdateStatementAsWritten(schema, w.(id := otherId))
  {
  }

  /** With the clause, wafers with different ids give different statements. */
  lemma UpdateSelectsOneWafer(schema: string, w: WaferRecord, otherId: int)
    requires otherId != w.id
    ensures UpdateStatement(schema, w) != UpdateStatement(schema, w.(id := otherId))
  {
    var head := UpdateStatementAsWritten(schema, w) + " WHERE " + FormatStr("id") + " = ";
    UpdateWithClause(schema, w);
    UpdateWithClause(schema, w.(id := otherId));
    if UpdateStatement(schema, w) == UpdateStatement(schema, w.(id := otherId)) {
      AppendCancel(head, IntToString(w.id), IntToString(otherId));
      IntToStringInjective(w.id, otherId);
    }
  }

  /** The update with its clause is the update as written followed by the clause on the id. */
  lemma UpdateWithClause(schema: string, w: WaferRecord)
    ensures UpdateStatement(schema, w)
            == UpdateStatementAsWritten(schema, w) + " WHERE " + FormatStr("id") + " = " + IntToString(w.id)
  {
    assert Join([SqlSvt.IntEquals("id", w.id)], " AND ") == SqlSvt.IntEquals("id", w.id);
  }

  lemma AppendCancel(p: string, x: string, y: string)
    requires p + x == p + y
    ensures x == y
  {
    assert x == (p + x)[|p|..];
    assert y == (p + y)[|p|..];
  }

  // ---------------------------------------------------------------------
  // updateWafer

  /**
   * The "update" object of an updateWafer request, which holds the three
   * date members; None is a date whose value is null.
   */
  datatype UpdateRequest = UpdateRequest(id: int, thinningDate: Option<string>, dicingDate: Option<string>,
                                         productionDate: Option<string>)

  /**
   * updateWafer up to the database update: the error it throws, or the
   * record it hands to updateWaferInDB. `idExists` is what the database
   * says about the id.
   */
  function UpdateWafer(req: UpdateRequest, idExists: bool): (r: Result<WaferRecord, string>)
    ensures !idExists ==> r == Failure("Wafer with id " + IntToString(req.id) + " does not found.")
    ensures idExists && req.thinningDate.None? && req.dicingDate.None? && req.productionDate.None?
            ==> r == Failure("no entry to update found")
    ensures r.Success? <==> idExists && (req.thinningDate.Some? || req.dicingDate.Some? || req.productionDate.Some?)
    ensures r.Success? ==> && r.value.id == req.id
                           && r.value.thinningDate == req.thinningDate.GetOr("")
                           && r.value.dicingDate == req.dicingDate.GetOr("")
                           && r.value.productionDate == req.productionDate.GetOr("")
                           && |r.value.generalLocation| == 0
  {
    if !idExists then Failure("Wafer with id " + IntToString(req.id) + " does not found.")
    else if req.thinningDate.None? && req.dicingDate.None? && req.productionDate.None? then
      Failure("no entry to update found")
    else
      Success(WaferRecord(req.id, "", 0, 0, "", req.thinningDate.GetOr(""), req.dicingDate.GetOr(""),
                          req.productionDate.GetOr("")))
  }

  /**
   * An update request whose dates are all given but empty passes the checks
   * of updateWafer, yet the update it leads to sets no column.
   */
  lemma EmptyDatesSetNothing(req: UpdateRequest)
    requires req.thinningDate == Some("") && req.dicingDate.None? && req.productionDate.None?
    ensures UpdateWafer(req, true).Success?
    ensures UpdateFields(UpdateWafer(req, true).value) == []
  {
  }

  /** The update changes only the dates the request gives, and never the location. */
  lemma UpdateOnlyGivenDates(req: UpdateRequest)
    requires UpdateWafer(req, true).Success?
    ensures var fields := UpdateFields(UpdateWafer(req, true).value);
            && |fields| <= 3
            && (forall k :: 0 <= k < |fields| ==> fields[k].column != "generalLocation")
            && (req.thinningDate.Some? ==>
                  (StrField("thinningDate", req.thinningDate.value) in fields <==> |req.thinningDate.value| > 0))
            && (req.dicingDate.Some? ==>
                  (StrField("dicingDate", req.dicingDate.value) in fields <==> |req.dicingDate.value| > 0))
            && (req.productionDate.Some? ==>
                  (StrField("productionDate", req.productionDate.value) in fields <==> |req.productionDate.value| > 0))
  {
  }
}
