// The earlier NKF7 accumulator of the SENTIO export, kept under the wafer-type
// mappings: a match is placed at the index of its block in the row, whatever
// the widths of the blocks before it, and ExistingAsics is never looked at.
module SentioMapPositional {
  import opened Wrappers
  import opened Text
  import opened WaferDoc
  import opened SentioMap

  /**
   * Whether a block yields a match: it names Group2 or Group9, that group
   * exists, its testable list is ["All"] or holds the target slot, the slot
   * is inside the group and its FamilyType contains "NKF7".
   */
  predicate BlockMatches(groups: Groups, b: Block)
  {
    match TargetPosition(b.groupName)
    case None => false
    case Some(t) =>
      match FindGroup(groups, b.groupName.value)
      case None => false
      case Some(slots) =>
        var integer := b.integer.GetOr([]);
        && (IsAll(integer) || Num(t) in integer)
        && t < |slots|
        && Contains(Family(slots[t]), "NKF7")
  }

  /** The block indices among the first k blocks that yield a match. */
  function PositionalColumns(groups: Groups, blocks: seq<Block>, k: nat): seq<int>
    requires k <= |blocks|
  {
    if k == 0 then []
    else PositionalColumns(groups, blocks, k - 1) + (if BlockMatches(groups, blocks[k - 1]) then [k - 1] else [])
  }

  function PositionalRowColumns(groups: Groups, row: Row): seq<int>
  {
    PositionalColumns(groups, row.blocks, |row.blocks|)
  }

  function PositionalOutcome(groups: Groups, row: Row): Option<RowSummary>
  {
    match RowIndex(row.key)
    case None => None
    case Some(_) =>
      var cols := PositionalRowColumns(groups, row);
      if 0 < |cols| then Some(RowSummary(|cols|, cols)) else None
  }

  function PositionalOutcomes(groups: Groups, rows: seq<Row>): (es: seq<Option<RowSummary>>)
    ensures |es| == |rows|
  {
    if rows == [] then []
    else PositionalOutcomes(groups, rows[..|rows| - 1]) + [PositionalOutcome(groups, rows[|rows| - 1])]
  }

  /** Both outputs after the first k rows. */
  function PositionalScan(groups: Groups, rows: seq<Row>, k: nat): (Coords, map<string, RowSummary>)
    requires k <= |rows|
  {
    if k == 0 then (map[], map[])
    else
      var before := PositionalScan(groups, rows, k - 1);
      var row := rows[k - 1];
      match RowIndex(row.key)
      case None => before
      case Some(r) =>
        var cols := PositionalRowColumns(groups, row);
        (Register(before.0, cols, r),
         if 0 < |cols| then before.1[row.key := RowSummary(|cols|, cols)] else before.1)
  }

  function PositionalNkf7Scan(doc: WaferMap): (Coords, map<string, RowSummary>)
  {
    var rows := doc.rows.GetOr([]);
    PositionalScan(doc.groups.GetOr([]), rows, |rows|)
  }

  /** The earlier accumulator: the coordinate map and the per-row summary. */
  method ExtractNkf7CoordsPositional(doc: WaferMap) returns (coords: Coords, summary: map<string, RowSummary>)
    ensures (coords, summary) == PositionalNkf7Scan(doc)
  {
    var rows := doc.rows.GetOr([]);
    var groups := doc.groups.GetOr([]);
    coords, summary := map[], map[];
    var k := 0;
    while k < |rows|
      invariant k <= |rows|
      invariant (coords, summary) == PositionalScan(groups, rows, k)
    {
      var row := rows[k];
      var rowIndex := RowIndex(row.key);
      if rowIndex.Some? {
        var count, active;
        coords, count, active := PositionalScanRow(groups, row.blocks, rowIndex.value, coords);
        if count > 0 {
          summary := summary[row.key := RowSummary(count, active)];
        }
      }
      k := k + 1;
    }
  }

  /** The enumerated loop over one row's blocks. */
  method PositionalScanRow(groups: Groups, blocks: seq<Block>, r: int, coords: Coords)
    returns (coords': Coords, count: nat, active: seq<int>)
    ensures active == PositionalColumns(groups, blocks, |blocks|)
    ensures count == |active|
    ensures coords' == Register(coords, active, r)
  {
    coords' := coords;
    count, active := 0, [];
    var col := 0;
    while col < |blocks|
      invariant col <= |blocks|
      invariant active == PositionalColumns(groups, blocks, col)
      invariant count == |active|
      invariant coords' == Register(coords, active, r)
    {
      if BlockMatches(groups, blocks[col]) {
        coords' := coords'[Key(col, r) := (-col, -r)];
        assert (active + [col])[..|active|] == active;
        count := count + 1;
        active := active + [col];
      }
      col := col + 1;
    }
  }

  // ---------------------------------------------------------------------
  // Properties

  /**
   * A column is matched exactly when it is the index of a block that
   * matches; so each block yields at most one match and the columns are
   * increasing.
   */
  lemma {:induction false} PositionalColumnIsBlockIndex(groups: Groups, blocks: seq<Block>, k: nat, c: int)
    requires k <= |blocks|
    ensures c in PositionalColumns(groups, blocks, k) <==> 0 <= c < k && BlockMatches(groups, blocks[c])
  {
    if k > 0 {
      PositionalColumnIsBlockIndex(groups, blocks, k - 1, c);
    }
  }

  lemma {:induction false} PositionalColumnsBounds(groups: Groups, blocks: seq<Block>, k: nat)
    requires k <= |blocks|
    ensures var cols := PositionalColumns(groups, blocks, k);
            StrictlyIncreasing(cols) && |cols| <= k && forall c :: c in cols ==> 0 <= c < k
  {
    if k > 0 {
      var prev := PositionalColumns(groups, blocks, k - 1);
      PositionalColumnsBounds(groups, blocks, k - 1);
      if BlockMatches(groups, blocks[k - 1]) {
        var next := prev + [k - 1];
        assert forall i :: 0 <= i < |prev| ==> prev[i] in prev;
        assert forall i :: 0 <= i < |next| ==> next[i] in prev || next[i] == k - 1;
      }
    }
  }

  /** Two rows whose blocks agree on GroupName and MechanicallyIntergerASICs get the same columns. */
  lemma {:induction false} ExistingAsicsIgnored(groups: Groups, blocks: seq<Block>, blocks': seq<Block>, k: nat)
    requires k <= |blocks| == |blocks'|
    requires forall i :: 0 <= i < |blocks| ==>
               blocks[i].groupName == blocks'[i].groupName && blocks[i].integer == blocks'[i].integer
    ensures PositionalColumns(groups, blocks, k) == PositionalColumns(groups, blocks', k)
  {
    if k > 0 {
      ExistingAsicsIgnored(groups, blocks, blocks', k - 1);
      assert BlockMatches(groups, blocks[k - 1]) == BlockMatches(groups, blocks'[k - 1]);
    }
  }

  /** Blocks of a group missing from Groups never match. */
  lemma UnknownGroupNeverMatches(groups: Groups, b: Block)
    requires b.groupName.Some? && FindGroup(groups, b.groupName.value).None?
    ensures !BlockMatches(groups, b)
  {
  }

  /** The coordinate map is well keyed after any number of rows. */
  lemma {:induction false} PositionalScanWellKeyed(groups: Groups, rows: seq<Row>, k: nat)
    requires k <= |rows|
    ensures WellKeyed(PositionalScan(groups, rows, k).0)
  {
    if k > 0 {
      PositionalScanWellKeyed(groups, rows, k - 1);
      PositionalStepWellKeyed(groups, rows, k);
    }
  }

  lemma PositionalStepWellKeyed(groups: Groups, rows: seq<Row>, k: nat)
    requires 0 < k <= |rows| && WellKeyed(PositionalScan(groups, rows, k - 1).0)
    ensures WellKeyed(PositionalScan(groups, rows, k).0)
  {
    var row := rows[k - 1];
    match RowIndex(row.key)
    case None =>
    case Some(r) =>
      RegisterWellKeyed(PositionalScan(groups, rows, k - 1).0, PositionalRowColumns(groups, row), r);
  }

  /** With distinct row keys, the summary after k rows tabulates their outcomes. */
  lemma {:induction false} PositionalSummaryRows(groups: Groups, rows: seq<Row>, k: nat)
    requires k <= |rows| && Distinct(RowKeys(rows))
    ensures Tabulates(RowKeys(rows[..k]), PositionalOutcomes(groups, rows[..k]), PositionalScan(groups, rows, k).1)
  {
    if k > 0 {
      PositionalSummaryRows(groups, rows, k - 1);
      var init := rows[..k - 1];
      assert rows[..k][..k - 1] == init;
      RowKeysPrefix(rows, k);
      PositionalSummaryStep(groups, rows, k);
      TabulatesStep(RowKeys(init), PositionalOutcomes(groups, init), PositionalScan(groups, rows, k - 1).1,
                    rows[k - 1].key, PositionalOutcome(groups, rows[k - 1]));
    } else {
      assert rows[..0] == [];
    }
  }

  lemma PositionalSummaryStep(groups: Groups, rows: seq<Row>, k: nat)
    requires 0 < k <= |rows|
    ensures PositionalScan(groups, rows, k).1
            == Store(PositionalScan(groups, rows, k - 1).1, rows[k - 1].key, PositionalOutcome(groups, rows[k - 1]))
  {
  }

  // ---------------------------------------------------------------------
  // Where the two accumulators disagree

  /** A group of n slots whose slot `nkf7` (if any) has FamilyType "NKF7". */
  function SampleSlots(n: nat, nkf7: int): seq<Slot>
  {
    seq(n, i => Slot(Present(i), Present(if i == nkf7 then "NKF7" else "NKF2")))
  }

  function AllBlock(name: string): Block
  {
    Block(Some(name), Some([Str("All")]), None, None, Some([Str("All")]))
  }

  /**
   * A row holding all six ASICs of Group1 and then all ten of Group2, whose
   * slot 8 is an NKF7: the NKF7 sits in physical column 6 + 8 = 14, which the
   * cursor walk reports, while the positional variant reports column 1, the
   * index of the Group2 block.
   */
  lemma PositionalMisplacesColumns(groups: Groups, row: Row)
    requires groups == [("Group1", SampleSlots(6, -1)), ("Group2", SampleSlots(10, 8))]
    requires row == Row("MapGroupsRow1", [AllBlock("Group1"), AllBlock("Group2")])
    ensures RowColumns(groups, row) == [14]
    ensures PositionalRowColumns(groups, row) == [1]
  {
    var g2 := SampleSlots(10, 8);
    assert FindGroup(groups, "Group1") == Some(SampleSlots(6, -1));
    assert FindGroup(groups, "Group2") == Some(g2);
    assert Contains(Family(g2[8]), "NKF7") by {
      assert OccursAt("NKF7", "NKF7", 0);
    }
    var b1, b2 := AllBlock("Group1"), AllBlock("Group2");
    assert BlockColumns(groups, b1, 0) == [];
    assert Width(groups, b1) == 6;
    AllAllBlockColumns(groups, b2, 6);
    assert BlockColumns(groups, b2, 6) == [14];
    assert row.blocks == [b1, b2];
    assert ColumnsAfter(groups, row.blocks, 1) == [];
    assert CursorAfter(groups, row.blocks, 1) == 6;
    assert ColumnsAfter(groups, row.blocks, 2) == [] + [14];
    assert !BlockMatches(groups, b1);
    assert BlockMatches(groups, b2);
    assert PositionalColumns(groups, row.blocks, 1) == [];
    assert PositionalColumns(groups, row.blocks, 2) == [] + [1];
  }
}
