// createAllAsics of the SVT agent: for every row of "MapGroups" and every
// block of the row, one ASIC record per entry of the block's ExistingAsics
// list, numbered by a per-row column counter, with the quality its property
// lists give it and the family type of its slot. The wafer map is the parsed
// document; each record goes through createAsicInDB, which appends it to the
// ASIC table. The first error ends the run; records created before it stay.
module WaferAsics {
  import opened Wrappers
  import opened Text
  import opened WaferDoc
  import opened WaferTypeCheck
  import opened AsicDb
  import opened WaferRecords

  /**
   * Why createAllAsics stops: a row key whose number stoi cannot read, a
   * block without a group name, a property list parse_range refuses, an
   * index in none of the property lists, an index with no slot or a slot
   * without a FamilyType member (the JSON library throws), or a FamilyType
   * that is empty or null (get_v reads null as the empty string).
   */
  datatype AsicError =
    | BadRowKey(key: string)
    | NoGroupName
    | BadArray
    | WrongQuality(index: int)
    | SlotNotFound(index: int)
    | InvalidFamilyType

  const QualityMessagePrefix := "Wrong Asic quality property for asic  "

  /**
   * The text of the exceptions the agent raises itself; None for the
   * exceptions the JSON library and stoi raise.
   */
  function ErrorMessage(e: AsicError): (r: Option<string>)
    ensures r.Some? <==> e.BadArray? || e.WrongQuality? || e.InvalidFamilyType?
    ensures e.WrongQuality? ==>
              && r.Some? && |QualityMessagePrefix| <= |r.value|
              && r.value[..|QualityMessagePrefix|] == QualityMessagePrefix
              && ParseInt(r.value[|QualityMessagePrefix|..]) == Some(e.index)
  {
    match e
    case BadArray => Some("Wrong array found")
    case WrongQuality(x) =>
      IntToStringRoundTrip(x);
      assert (QualityMessagePrefix + IntToString(x))[|QualityMessagePrefix|..] == IntToString(x);
      Some(QualityMessagePrefix + IntToString(x))
    case InvalidFamilyType => Some("invalid familyType")
    case _ => None
  }

  // ---------------------------------------------------------------------
  // Row number, position and serial number

  /** The length of "MapGroupsRow", the part of a row key before the row number. */
  const RowKeyPrefixLength := 12

  /** The row number: stoi of the key with its first 12 characters erased. */
  function RowNumber(key: string): Option<int>
  {
    Stoi(key[if |key| < RowKeyPrefixLength then |key| else RowKeyPrefixLength..])
  }

  /** The key the wafer-map format gives row n reads back as n. */
  lemma RowNumberOfKey(n: int)
    requires InInt32(n)
    ensures RowNumber("MapGroupsRow" + IntToString(n)) == Some(n)
  {
    var key := "MapGroupsRow" + IntToString(n);
    assert key[RowKeyPrefixLength..] == IntToString(n) + [];
    StoiOfIntToString(n, []);
  }

  /** waferMapPosition: "<row>_<col>". */
  function Position(row: int, col: int): string
  {
    IntToString(row) + "_" + IntToString(col)
  }

  /** The position names its row and column unambiguously: both read back from it. */
  lemma PositionRoundTrip(row: int, col: int)
    ensures var parts := Split(Position(row, col), '_');
            |parts| == 2 && ParseInt(parts[0]) == Some(row) && ParseInt(parts[1]) == Some(col)
  {
    IntToStringShape(row);
    IntToStringShape(col);
    assert Position(row, col) == Join([IntToString(row), IntToString(col)], ['_']);
    SplitJoin([IntToString(row), IntToString(col)], '_');
    IntToStringRoundTrip(row);
    IntToStringRoundTrip(col);
  }

  // ---------------------------------------------------------------------
  // One entry

  /** The quality of index x: the first property list holding it, in precedence order. */
  function Quality(x: int, damaged: seq<int>, covered: seq<int>, integer: seq<int>): (r: Option<string>)
    ensures r.Some? <==> x in damaged || x in covered || x in integer
    ensures r == Some("MechanicallyDamaged") <==> x in damaged
    ensures r == Some("CoveredByGreenLayer") <==> x !in damaged && x in covered
    ensures r == Some("MechanicallyInteger") <==> x !in damaged && x !in covered && x in integer
  {
    if x in damaged then Some("MechanicallyDamaged")
    else if x in covered then Some("CoveredByGreenLayer")
    else if x in integer then Some("MechanicallyInteger")
    else None
  }

  /** When the index is in exactly one list, as the type check demands, precedence plays no part. */
  lemma QualityOfExactlyOne(x: int, damaged: seq<int>, covered: seq<int>, integer: seq<int>)
    requires ExactlyOne(x, damaged, covered, integer)
    ensures Quality(x, damaged, covered, integer).Some?
    ensures x in damaged ==> Quality(x, damaged, covered, integer) == Some("MechanicallyDamaged")
    ensures x in covered ==> Quality(x, damaged, covered, integer) == Some("CoveredByGreenLayer")
    ensures x in integer ==> Quality(x, damaged, covered, integer) == Some("MechanicallyInteger")
  {
  }

  /** The family type of slot x of the group, as get_v reads it. */
  function FamilyOf(slots: Option<seq<Slot>>, x: int): (r: Result<string, AsicError>)
    ensures r.Success? ==> |r.value| > 0
    ensures r.Success? <==> slots.Some? && 0 <= x < |slots.value| && slots.value[x].familyType.Present?
                            && |slots.value[x].familyType.value| > 0
    ensures slots.Some? && 0 <= x < |slots.value| && slots.value[x].familyType.Null? ==> r == Failure(InvalidFamilyType)
    ensures r == Failure(SlotNotFound(x)) <==>
              slots.None? || x < 0 || x >= |slots.value| || slots.value[x].familyType.Absent?
  {
    if slots.None? || x < 0 || x >= |slots.value| || slots.value[x].familyType.Absent? then Failure(SlotNotFound(x))
    else if |slots.value[x].familyType.GetOr("")| == 0 then Failure(InvalidFamilyType)
    else Success(slots.value[x].familyType.value)
  }

  /** The parsed lists of one block and the slots of its group. */
  datatype BlockLists = BlockLists(slots: Option<seq<Slot>>, existing: seq<int>, damaged: seq<int>,
                                   covered: seq<int>, integer: seq<int>)

  /** The record made for index x at column col of row row, or the error that stops the run. */
  function EntryAsic(w: WaferRecord, row: int, col: int, lists: BlockLists, x: int): (r: Result<AsicFields, AsicError>)
    ensures r.Success? ==>
              && r.value.waferId == w.id
              && r.value.waferMapPosition == Position(row, col)
              && r.value.serialNumber == w.serialNumber + "_" + Position(row, col)
              && (Insertable(r.value) <==> w.id >= 0)
    ensures r.Failure? <==> Quality(x, lists.damaged, lists.covered, lists.integer).None?
                            || FamilyOf(lists.slots, x).Failure?
  {
    match Quality(x, lists.damaged, lists.covered, lists.integer)
    case None => Failure(WrongQuality(x))
    case Some(quality) =>
      match FamilyOf(lists.slots, x)
      case Failure(e) => Failure(e)
      case Success(family) =>
        var pos := Position(row, col);
        assert |pos| > 0 by { IntToStringShape(row); }
        Success(AsicFields(w.id, w.serialNumber + "_" + pos, family, pos, quality))
  }

  // ---------------------------------------------------------------------
  // The run as a function of the document

  /** The records created so far and the error that ended the run, if any. */
  datatype Outcome = Outcome(created: seq<AsicFields>, error: Option<AsicError>)

  /** What a run that has made `done` records does next: its records, then `next`'s. */
  function Then(done: Outcome, next: Outcome): Outcome
  {
    Outcome(done.created + next.created, next.error)
  }

  /** Every record carries the wafer id, and record j sits at column col0 + j of the row. */
  predicate Numbered(created: seq<AsicFields>, w: WaferRecord, row: int, col0: int)
  {
    forall j :: 0 <= j < |created| ==>
      && created[j].waferId == w.id
      && created[j].waferMapPosition == Position(row, col0 + j)
      && created[j].serialNumber == w.serialNumber + "_" + Position(row, col0 + j)
      && (Insertable(created[j]) <==> w.id >= 0)
  }

  /** The first k entries of a block whose first record goes to column col0. */
  function EntriesRun(w: WaferRecord, row: int, col0: int, lists: BlockLists, k: nat): (r: Outcome)
    requires k <= |lists.existing|
    ensures |r.created| <= k
    ensures r.error.None? ==> |r.created| == k
  {
    if k == 0 then Outcome([], None)
    else
      var prev := EntriesRun(w, row, col0, lists, k - 1);
      if prev.error.Some? then prev
      else
        match EntryAsic(w, row, col0 + |prev.created|, lists, lists.existing[k - 1])
        case Failure(e) => Outcome(prev.created, Some(e))
        case Success(a) => Outcome(prev.created + [a], None)
  }

  /** The slots and lists of a block, or the error the agent raises before its first entry. */
  function ListsOf(groups: Groups, b: Block): (r: Result<BlockLists, AsicError>)
    ensures r.Failure? ==> r.error == NoGroupName || r.error == BadArray
  {
    match b.groupName
    case None => Failure(NoGroupName)
    case Some(name) =>
      var slots := FindGroup(groups, name);
      var gSize := if slots.Some? then |slots.value| else 0;
      var e := ParseRange(gSize, b.existing, []);
      var d := ParseRange(gSize, b.damaged, []);
      var c := ParseRange(gSize, b.covered, []);
      var i := ParseRange(gSize, b.integer, []);
      if !(e.0 && d.0 && c.0 && i.0) then Failure(BadArray)
      else Success(BlockLists(slots, e.1, d.1, c.1, i.1))
  }

  /** The number of records a block yields when nothing goes wrong. */
  function BlockWidth(groups: Groups, b: Block): nat
  {
    match ListsOf(groups, b)
    case Failure(_) => 0
    case Success(lists) => |lists.existing|
  }

  /** One block, its first record at column col0. */
  function BlockRun(w: WaferRecord, groups: Groups, row: int, col0: int, b: Block): (r: Outcome)
    ensures r.error.None? ==> |r.created| == BlockWidth(groups, b)
  {
    match ListsOf(groups, b)
    case Failure(e) => Outcome([], Some(e))
    case Success(lists) => EntriesRun(w, row, col0, lists, |lists.existing|)
  }

  function Widths(groups: Groups, blocks: seq<Block>, k: nat): nat
    requires k <= |blocks|
  {
    if k == 0 then 0 else Widths(groups, blocks, k - 1) + BlockWidth(groups, blocks[k - 1])
  }

  /** The first k blocks of a row: the column counter runs on from block to block. */
  function BlocksRun(w: WaferRecord, groups: Groups, row: int, blocks: seq<Block>, k: nat): (r: Outcome)
    requires k <= |blocks|
    ensures r.error.None? ==> |r.created| == Widths(groups, blocks, k)
  {
    if k == 0 then Outcome([], None)
    else
      var prev := BlocksRun(w, groups, row, blocks, k - 1);
      if prev.error.Some? then prev
      else
        Then(prev, BlockRun(w, groups, row, |prev.created|, blocks[k - 1]))
  }

  lemma NumberedAppend(a: seq<AsicFields>, b: seq<AsicFields>, w: WaferRecord, row: int)
    requires Numbered(a, w, row, 0) && Numbered(b, w, row, |a|)
    ensures Numbered(a + b, w, row, 0)
  {
    forall j | |a| <= j < |a + b|
      ensures (a + b)[j] == b[j - |a|] && |a| + (j - |a|) == j
    {
    }
  }

  /** One row: its number, then its blocks. */
  function RowRun(w: WaferRecord, groups: Groups, r: Row): (o: Outcome)
  {
    match RowNumber(r.key)
    case None => Outcome([], Some(BadRowKey(r.key)))
    case Some(n) => BlocksRun(w, groups, n, r.blocks, |r.blocks|)
  }

  /** What each row would do on its own. */
  function RowOutcomes(w: WaferRecord, groups: Groups, rows: seq<Row>): (r: seq<Outcome>)
    ensures |r| == |rows| && forall i :: 0 <= i < |rows| ==> r[i] == RowRun(w, groups, rows[i])
  {
    seq(|rows|, i requires 0 <= i < |rows| => RowRun(w, groups, rows[i]))
  }

  /** The first k outcomes one after the other, up to the first error. */
  function Chain(outs: seq<Outcome>, k: nat): Outcome
    requires k <= |outs|
  {
    if k == 0 then Outcome([], None)
    else
      var prev := Chain(outs, k - 1);
      if prev.error.Some? then prev
      else Then(prev, outs[k - 1])
  }

  /**
   * createAllAsics on the wafer map: every row in order. A missing "Groups"
   * makes every group unknown; a missing "MapGroups" has no rows.
   */
  function AllAsics(w: WaferRecord, doc: WaferMap): Outcome
  {
    var rows := doc.rows.GetOr([]);
    Chain(RowOutcomes(w, doc.groups.GetOr([]), rows), |rows|)
  }

  /** The records the table keeps: createAsicInDB refuses all of them when the wafer id is negative. */
  function Kept(created: seq<AsicFields>, waferId: int): seq<AsicFields>
  {
    if waferId >= 0 then created else []
  }

  lemma KeptAppend(before: seq<AsicFields>, a: seq<AsicFields>, b: seq<AsicFields>, waferId: int)
    ensures before + Kept(a + b, waferId) == before + Kept(a, waferId) + Kept(b, waferId)
  {
  }

  // ---------------------------------------------------------------------
  // The loops

  /** createAllAsics: the table gains the records the run makes (those createAsicInDB accepts). */
  method CreateAllAsics(w: WaferRecord, doc: WaferMap, table: AsicTable) returns (error: Option<AsicError>)
    modifies table
    ensures error == AllAsics(w, doc).error
    ensures table.rows == old(table.rows) + Kept(AllAsics(w, doc).created, w.id)
  {
    var groups := doc.groups.GetOr([]);
    var rows := doc.rows.GetOr([]);
    ghost var outs := RowOutcomes(w, groups, rows);
    assert AllAsics(w, doc) == Chain(outs, |rows|);
    assert old(table.rows) + Kept(Chain(outs, 0).created, w.id) == old(table.rows);
    error := None;
    var k := 0;
    while k < |rows| && error.None?
      invariant k <= |rows|
      invariant error == Chain(outs, k).error
      invariant table.rows == old(table.rows) + Kept(Chain(outs, k).created, w.id)
    {
      error := CreateNextRow(w, groups, rows, k, table, outs, old(table.rows));
      k := k + 1;
    }
    ChainStops(outs, k);
  }

  /** One turn of createAllAsics' loop: row k runs after the k rows before it. */
  method CreateNextRow(w: WaferRecord, groups: Groups, rows: seq<Row>, k: nat, table: AsicTable,
                       ghost outs: seq<Outcome>, ghost before: seq<AsicFields>)
    returns (error: Option<AsicError>)
    requires k < |rows| && outs == RowOutcomes(w, groups, rows) && Chain(outs, k).error.None?
    requires table.rows == before + Kept(Chain(outs, k).created, w.id)
    modifies table
    ensures error == Chain(outs, k + 1).error
    ensures table.rows == before + Kept(Chain(outs, k + 1).created, w.id)
  {
    ChainNext(outs, k);
    KeptAppend(before, Chain(outs, k).created, outs[k].created, w.id);
    error := CreateRowAsics(w, groups, rows[k], table);
  }

  lemma ChainNext(outs: seq<Outcome>, k: nat)
    requires k < |outs| && Chain(outs, k).error.None?
    ensures Chain(outs, k + 1) == Then(Chain(outs, k), outs[k])
  {
  }

  lemma {:induction false} ChainStops(outs: seq<Outcome>, k: nat)
    requires k <= |outs|
    requires k == |outs| || Chain(outs, k).error.Some?
    ensures Chain(outs, |outs|) == Chain(outs, k)
    decreases |outs| - k
  {
    if k < |outs| {
      ChainStops(outs, k + 1);
    }
  }

  /** One row of MapGroups: the column counter starts at 0 and runs through all its blocks. */
  method CreateRowAsics(w: WaferRecord, groups: Groups, r: Row, table: AsicTable) returns (error: Option<AsicError>)
    modifies table
    ensures error == RowRun(w, groups, r).error
    ensures table.rows == old(table.rows) + Kept(RowRun(w, groups, r).created, w.id)
  {
    var rowNumber := RowNumber(r.key);
    if rowNumber.None? {
      return Some(BadRowKey(r.key));
    }
    error := CreateBlocksAsics(w, groups, rowNumber.value, r.blocks, table);
  }

  /** The blocks of a row in order, the column counter running on from one block to the next. */
  method CreateBlocksAsics(w: WaferRecord, groups: Groups, row: int, blocks: seq<Block>, table: AsicTable)
    returns (error: Option<AsicError>)
    modifies table
    ensures error == BlocksRun(w, groups, row, blocks, |blocks|).error
    ensures table.rows == old(table.rows) + Kept(BlocksRun(w, groups, row, blocks, |blocks|).created, w.id)
  {
    var col := 0;
    error := None;
    var k := 0;
    while k < |blocks| && error.None?
      invariant k <= |blocks|
      invariant error == BlocksRun(w, groups, row, blocks, k).error
      invariant col == |BlocksRun(w, groups, row, blocks, k).created|
      invariant table.rows == old(table.rows) + Kept(BlocksRun(w, groups, row, blocks, k).created, w.id)
    {
      BlocksRunNext(w, groups, row, blocks, k);
      KeptAppend(old(table.rows), BlocksRun(w, groups, row, blocks, k).created,
                 BlockRun(w, groups, row, col, blocks[k]).created, w.id);
      var blockError, col' := CreateBlockAsics(w, groups, row, col, blocks[k], table);
      error, col := blockError, col';
      k := k + 1;
    }
    BlocksRunStops(w, groups, row, blocks, k);
  }

  lemma BlocksRunNext(w: WaferRecord, groups: Groups, row: int, blocks: seq<Block>, k: nat)
    requires k < |blocks| && BlocksRun(w, groups, row, blocks, k).error.None?
    ensures var prev := BlocksRun(w, groups, row, blocks, k);
            BlocksRun(w, groups, row, blocks, k + 1) == Then(prev, BlockRun(w, groups, row, |prev.created|, blocks[k]))
  {
  }

  lemma {:induction false} BlocksRunStops(w: WaferRecord, groups: Groups, row: int, blocks: seq<Block>, k: nat)
    requires k <= |blocks|
    requires k == |blocks| || BlocksRun(w, groups, row, blocks, k).error.Some?
    ensures BlocksRun(w, groups, row, blocks, |blocks|) == BlocksRun(w, groups, row, blocks, k)
    decreases |blocks| - k
  {
    if k < |blocks| {
      BlocksRunStops(w, groups, row, blocks, k + 1);
    }
  }

  /** One block: one record per existing index, the counter going up by one per record. */
  method CreateBlockAsics(w: WaferRecord, groups: Groups, row: int, col0: int, b: Block, table: AsicTable)
    returns (error: Option<AsicError>, col: int)
    modifies table
    ensures error == BlockRun(w, groups, row, col0, b).error
    ensures col == col0 + |BlockRun(w, groups, row, col0, b).created|
    ensures table.rows == old(table.rows) + Kept(BlockRun(w, groups, row, col0, b).created, w.id)
  {
    var parsed := ListsOf(groups, b);
    if parsed.Failure? {
      return Some(parsed.error), col0;
    }
    error, col := CreateEntriesAsics(w, row, col0, parsed.value, table);
  }

  /** The existing indices of a block in order, one column per record. */
  method CreateEntriesAsics(w: WaferRecord, row: int, col0: int, lists: BlockLists, table: AsicTable)
    returns (error: Option<AsicError>, col: int)
    modifies table
    ensures error == EntriesRun(w, row, col0, lists, |lists.existing|).error
    ensures col == col0 + |EntriesRun(w, row, col0, lists, |lists.existing|).created|
    ensures table.rows == old(table.rows) + Kept(EntriesRun(w, row, col0, lists, |lists.existing|).created, w.id)
  {
    col := col0;
    error := None;
    var k := 0;
    while k < |lists.existing| && error.None?
      invariant k <= |lists.existing|
      invariant error == EntriesRun(w, row, col0, lists, k).error
      invariant col == col0 + |EntriesRun(w, row, col0, lists, k).created|
      invariant table.rows == old(table.rows) + Kept(EntriesRun(w, row, col0, lists, k).created, w.id)
    {
      EntriesRunNext(w, row, col0, lists, k);
      error := CreateEntryAsic(w, row, col, lists, lists.existing[k], table);
      if error.None? {
        col := col + 1;
      }
      k := k + 1;
    }
    EntriesRunStops(w, row, col0, lists, k);
  }

  /** One existing index: its quality, its family type, then the insert of its record. */
  method CreateEntryAsic(w: WaferRecord, row: int, col: int, lists: BlockLists, x: int, table: AsicTable)
    returns (error: Option<AsicError>)
    modifies table
    ensures var e := EntryAsic(w, row, col, lists, x);
            && (error.None? <==> e.Success?)
            && (e.Failure? ==> error == Some(e.error))
            && table.rows == old(table.rows) + (if e.Success? then Kept([e.value], w.id) else [])
  {
    var quality := Quality(x, lists.damaged, lists.covered, lists.integer);
    if quality.None? {
      return Some(WrongQuality(x));
    }
    var family := FamilyOf(lists.slots, x);
    if family.Failure? {
      return Some(family.error);
    }
    var pos := Position(row, col);
    var asic := AsicFields(w.id, w.serialNumber + "_" + pos, family.value, pos, quality.value);
    assert EntryAsic(w, row, col, lists, x) == Success(asic);
    var _ := table.CreateAsicInDB(asic);
    error := None;
  }

  lemma EntriesRunNext(w: WaferRecord, row: int, col0: int, lists: BlockLists, k: nat)
    requires k < |lists.existing| && EntriesRun(w, row, col0, lists, k).error.None?
    ensures var prev := EntriesRun(w, row, col0, lists, k);
            EntriesRun(w, row, col0, lists, k + 1)
            == match EntryAsic(w, row, col0 + k, lists, lists.existing[k])
               case Failure(e) => Outcome(prev.created, Some(e))
               case Success(a) => Outcome(prev.created + [a], None)
  {
  }

  lemma {:induction false} EntriesRunStops(w: WaferRecord, row: int, col0: int, lists: BlockLists, k: nat)
    requires k <= |lists.existing|
    requires k == |lists.existing| || EntriesRun(w, row, col0, lists, k).error.Some?
    ensures EntriesRun(w, row, col0, lists, |lists.existing|) == EntriesRun(w, row, col0, lists, k)
    decreases |lists.existing| - k
  {
    if k < |lists.existing| {
      EntriesRunStops(w, row, col0, lists, k + 1);
    }
  }

  // ---------------------------------------------------------------------
  // Properties of the run

  /** Record j of a block's entries sits at column col0 + j and carries the wafer's id and serial number. */
  lemma {:induction false} EntriesNumbered(w: WaferRecord, row: int, col0: int, lists: BlockLists, k: nat)
    requires k <= |lists.existing|
    ensures Numbered(EntriesRun(w, row, col0, lists, k).created, w, row, col0)
  {
    if k > 0 {
      EntriesNumbered(w, row, col0, lists, k - 1);
    }
  }

  lemma BlockNumbered(w: WaferRecord, groups: Groups, row: int, col0: int, b: Block)
    ensures Numbered(BlockRun(w, groups, row, col0, b).created, w, row, col0)
  {
    match ListsOf(groups, b)
    case Failure(_) =>
    case Success(lists) => EntriesNumbered(w, row, col0, lists, |lists.existing|);
  }

  /** Across the blocks of a row the columns run on: record j of the row sits at column j. */
  lemma {:induction false} BlocksNumbered(w: WaferRecord, groups: Groups, row: int, blocks: seq<Block>, k: nat)
    requires k <= |blocks|
    ensures Numbered(BlocksRun(w, groups, row, blocks, k).created, w, row, 0)
  {
    if k > 0 {
      BlocksNumbered(w, groups, row, blocks, k - 1);
      var prev := BlocksRun(w, groups, row, blocks, k - 1);
      if prev.error.None? {
        var next := BlockRun(w, groups, row, |prev.created|, blocks[k - 1]);
        BlockNumbered(w, groups, row, |prev.created|, blocks[k - 1]);
        NumberedAppend(prev.created, next.created, w, row);
      }
    }
  }

  /** Every record carries the wafer id, and createAsicInDB accepts it exactly when that id is at least 0. */
  predicate Stamped(created: seq<AsicFields>, w: WaferRecord)
  {
    forall j :: 0 <= j < |created| ==> created[j].waferId == w.id && (Insertable(created[j]) <==> w.id >= 0)
  }

  /** A chain of outcomes whose records are all stamped has its records stamped. */
  lemma {:induction false} ChainStamped(outs: seq<Outcome>, k: nat, w: WaferRecord)
    requires k <= |outs|
    requires forall i :: 0 <= i < |outs| ==> Stamped(outs[i].created, w)
    ensures Stamped(Chain(outs, k).created, w)
  {
    if k > 0 {
      ChainStamped(outs, k - 1, w);
      var prev := Chain(outs, k - 1);
      if prev.error.None? {
        StampedAppend(prev.created, outs[k - 1].created, w);
      }
    }
  }

  lemma RowStamped(w: WaferRecord, groups: Groups, r: Row)
    ensures Stamped(RowRun(w, groups, r).created, w)
  {
    if RowNumber(r.key).Some? {
      BlocksNumbered(w, groups, RowNumber(r.key).value, r.blocks, |r.blocks|);
    }
  }

  lemma StampedAppend(a: seq<AsicFields>, b: seq<AsicFields>, w: WaferRecord)
    requires Stamped(a, w) && Stamped(b, w)
    ensures Stamped(a + b, w)
  {
    forall j | |a| <= j < |a + b|
      ensures (a + b)[j] == b[j - |a|]
    {
    }
  }

  /**
   * A row that runs to the end yields one record per existing entry of its
   * blocks, at positions "<row>_0" to "<row>_<n-1>", each serial number
   * being the wafer's followed by the position.
   */
  lemma RowPositions(w: WaferRecord, groups: Groups, r: Row)
    requires RowNumber(r.key).Some? && RowRun(w, groups, r).error.None?
    ensures var created := RowRun(w, groups, r).created;
            var n := RowNumber(r.key).value;
            && |created| == Widths(groups, r.blocks, |r.blocks|)
            && forall j :: 0 <= j < |created| ==>
                 && created[j].waferMapPosition == Position(n, j)
                 && created[j].serialNumber == w.serialNumber + "_" + Position(n, j)
  {
    BlocksNumbered(w, groups, RowNumber(r.key).value, r.blocks, |r.blocks|);
  }

  /** The table keeps every record when the wafer id is valid, and none otherwise. */
  lemma KeptRecords(w: WaferRecord, doc: WaferMap)
    ensures w.id >= 0 ==> Kept(AllAsics(w, doc).created, w.id) == AllAsics(w, doc).created
    ensures w.id < 0 ==> Kept(AllAsics(w, doc).created, w.id) == []
    ensures forall a :: a in Kept(AllAsics(w, doc).created, w.id) ==> a.waferId == w.id && Insertable(a)
  {
    var groups := doc.groups.GetOr([]);
    var rows := doc.rows.GetOr([]);
    var outs := RowOutcomes(w, groups, rows);
    forall i | 0 <= i < |outs|
      ensures Stamped(outs[i].created, w)
    {
      RowStamped(w, groups, rows[i]);
    }
    ChainStamped(outs, |rows|, w);
  }

  /**
   * On a wafer map the type check accepts as written (an unknown group
   * counts as an empty one), the run can still stop, but only for a row key
   * without a number or an index that has no slot in its group: the lists
   * parse, every index has a quality and every slot a non-empty family
   * type. The corrected check accepts fewer maps, so the same holds there.
   */
  lemma CheckedMapErrors(w: WaferRecord, doc: WaferMap, families: set<string>)
    requires WellFormedMap(AsWritten, doc, families)
    ensures Expected(AllAsics(w, doc).error)
  {
    var groups := doc.groups.value;
    var rows := doc.rows.value;
    var outs := RowOutcomes(w, groups, rows);
    forall i | 0 <= i < |outs|
      ensures Expected(outs[i].error)
    {
      assert BlocksOkUpTo(AsWritten, groups, rows[i].blocks, |rows[i].blocks|);
      CheckedRowErrors(w, groups, families, rows[i]);
    }
    ChainErrors(outs, |rows|);
  }

  /** The errors the run can still end with once the type check has passed. */
  predicate Expected(e: Option<AsicError>)
  {
    e.Some? ==> e.value.BadRowKey? || e.value.SlotNotFound?
  }

  lemma {:induction false} ChainErrors(outs: seq<Outcome>, k: nat)
    requires k <= |outs|
    requires forall i :: 0 <= i < |outs| ==> Expected(outs[i].error)
    ensures Expected(Chain(outs, k).error)
  {
    if k > 0 {
      ChainErrors(outs, k - 1);
    }
  }

  lemma CheckedRowErrors(w: WaferRecord, groups: Groups, families: set<string>, r: Row)
    requires GroupsOkUpTo(groups, families, |groups|)
    requires BlocksOkUpTo(AsWritten, groups, r.blocks, |r.blocks|)
    ensures Expected(RowRun(w, groups, r).error)
  {
    if RowNumber(r.key).Some? {
      CheckedBlocksErrors(w, groups, families, RowNumber(r.key).value, r.blocks, |r.blocks|);
    }
  }

  lemma {:induction false} CheckedBlocksErrors(w: WaferRecord, groups: Groups, families: set<string>, row: int,
                                               blocks: seq<Block>, k: nat)
    requires k <= |blocks|
    requires GroupsOkUpTo(groups, families, |groups|)
    requires BlocksOkUpTo(AsWritten, groups, blocks, |blocks|)
    ensures var e := BlocksRun(w, groups, row, blocks, k).error;
            e.Some? ==> e.value.SlotNotFound?
  {
    if k > 0 {
      CheckedBlocksErrors(w, groups, families, row, blocks, k - 1);
      var prev := BlocksRun(w, groups, row, blocks, k - 1);
      if prev.error.None? {
        BlocksRunNext(w, groups, row, blocks, k - 1);
        CheckedBlockErrors(w, groups, families, row, |prev.created|, blocks[k - 1]);
      }
    }
  }

  lemma CheckedBlockErrors(w: WaferRecord, groups: Groups, families: set<string>, row: int, col0: int, b: Block)
    requires GroupsOkUpTo(groups, families, |groups|)
    requires BlockOk(AsWritten, groups, b)
    ensures var e := BlockRun(w, groups, row, col0, b).error;
            e.Some? ==> e.value.SlotNotFound?
  {
    var lists := ListsOf(groups, b).value;
    var name := b.groupName.value;
    if FindGroup(groups, name).Some? {
      var slots := FindGroup(groups, name).value;
      var g :| 0 <= g < |groups| && groups[g] == (name, slots);
      assert GroupOkUpTo(slots, families, |slots|);
    }
    CheckedEntriesErrors(w, row, col0, lists, families, |lists.existing|);
  }

  lemma {:induction false} CheckedEntriesErrors(w: WaferRecord, row: int, col0: int, lists: BlockLists,
                                                families: set<string>, k: nat)
    requires k <= |lists.existing|
    requires lists.slots.Some? ==> GroupOkUpTo(lists.slots.value, families, |lists.slots.value|)
    requires forall x :: x in lists.existing ==> ExactlyOne(x, lists.damaged, lists.covered, lists.integer)
    ensures var e := EntriesRun(w, row, col0, lists, k).error;
            e.Some? ==> e.value.SlotNotFound?
  {
    if k > 0 {
      CheckedEntriesErrors(w, row, col0, lists, families, k - 1);
      var x := lists.existing[k - 1];
      assert x in lists.existing;
      if lists.slots.Some? && 0 <= x < |lists.slots.value| {
        assert SlotOk(lists.slots.value[x], x, families);
      }
    }
  }

  /**
   * The type check does not compare the indices with the size of the group:
   * a map it accepts, with an index past the end of its one-slot group.
   */
  lemma CheckedMapCanStillFail(w: WaferRecord)
    ensures var doc := WaferMap(Some([("G", [Slot(Present(0), Present("F"))])]),
                                Some([Row("MapGroupsRow0", [Block(Some("G"), Some([Num(3)]), Some([Num(3)]), None, None)])]));
            && WellFormedMap(AsWritten, doc, {"F"})
            && AllAsics(w, doc) == Outcome([], Some(SlotNotFound(3)))
  {
    var slots := [Slot(Present(0), Present("F"))];
    var groups := [("G", slots)];
    var b := Block(Some("G"), Some([Num(3)]), Some([Num(3)]), None, None);
    var rows := [Row("MapGroupsRow0", [b])];
    var doc := WaferMap(Some(groups), Some(rows));
    assert FindGroup(groups, "G") == Some(slots);
    assert GroupOkUpTo(slots, {"F"}, 1) by { assert SlotOk(slots[0], 0, {"F"}); }
    assert BlockOk(AsWritten, groups, b);
    assert BlocksOkUpTo(AsWritten, groups, [b], 1);
    RowNumberOfKey(0);
    assert "MapGroupsRow" + IntToString(0) == "MapGroupsRow0";
    var lists := ListsOf(groups, b).value;
    assert lists.existing == [3] && lists.damaged == [3] && lists.slots == Some(slots);
    assert EntryAsic(w, 0, 0, lists, 3) == Failure(SlotNotFound(3));
    assert EntriesRun(w, 0, 0, lists, 1) == Outcome([], Some(SlotNotFound(3)));
    assert BlockRun(w, groups, 0, 0, b) == Outcome([], Some(SlotNotFound(3)));
    assert BlocksRun(w, groups, 0, [b], 1) == Outcome([], Some(SlotNotFound(3)));
    assert RowRun(w, groups, rows[0]) == Outcome([], Some(SlotNotFound(3)));
    assert Chain(RowOutcomes(w, groups, rows), 1) == Outcome([], Some(SlotNotFound(3)));
  }

  /**
   * A block naming an unknown group gets through the check as written and
   * the wafer type is stored; only building the asics from it stops, since
   * no slot exists for its index. The corrected check refuses the map.
   */
  lemma UnknownGroupFailsLater(w: WaferRecord)
    ensures var doc := WaferMap(Some([("G", [Slot(Present(0), Present("F"))])]),
                                Some([Row("MapGroupsRow0", [Block(Some("H"), Some([Num(0)]), Some([Num(0)]), None, None)])]));
            && WellFormedMap(AsWritten, doc, {"F"})
            && !WellFormedMap(Corrected, doc, {"F"})
            && AllAsics(w, doc) == Outcome([], Some(SlotNotFound(0)))
  {
    var slots := [Slot(Present(0), Present("F"))];
    var groups := [("G", slots)];
    var b := Block(Some("H"), Some([Num(0)]), Some([Num(0)]), None, None);
    var rows := [Row("MapGroupsRow0", [b])];
    assert FindGroup(groups, "H") == None;
    assert GroupOkUpTo(slots, {"F"}, 1) by { assert SlotOk(slots[0], 0, {"F"}); }
    assert BlockOk(AsWritten, groups, b);
    assert BlocksOkUpTo(AsWritten, groups, [b], 1);
    assert !BlockOk(Corrected, groups, b);
    assert [b][0] == b;
    assert !BlocksOkUpTo(Corrected, groups, [b], 1);
    assert !RowsOkUpTo(Corrected, groups, rows, 1) by { assert rows[0].blocks == [b]; }
    RowNumberOfKey(0);
    assert "MapGroupsRow" + IntToString(0) == "MapGroupsRow0";
    var lists := ListsOf(groups, b).value;
    assert lists.existing == [0] && lists.damaged == [0] && lists.slots == None;
    assert EntryAsic(w, 0, 0, lists, 0) == Failure(SlotNotFound(0));
    assert EntriesRun(w, 0, 0, lists, 1) == Outcome([], Some(SlotNotFound(0)));
    assert BlockRun(w, groups, 0, 0, b) == Outcome([], Some(SlotNotFound(0)));
    assert BlocksRun(w, groups, 0, [b], 1) == Outcome([], Some(SlotNotFound(0)));
    assert RowRun(w, groups, rows[0]) == Outcome([], Some(SlotNotFound(0)));
    assert Chain(RowOutcomes(w, groups, rows), 1) == Outcome([], Some(SlotNotFound(0)));
  }
}
