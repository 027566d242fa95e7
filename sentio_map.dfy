// The NKF7 column accumulator of the SENTIO wafer-map export: every row is
// walked left to right with a column cursor that advances by each block's
// width; in the blocks of Group2 and Group9 the entries at the NKF7 slot that
// are mechanically intact are recorded at their physical column.
module SentioMap {
  import opened Wrappers
  import opened Text
  import opened WaferDoc

  const RowPrefix := "MapGroupsRow"
  const KeyPrefix := "NKF7_S_"

  /**
   * The row index of a row key, or None when the row is skipped: the key must
   * start with "MapGroupsRow" and what is left once every occurrence of that
   * prefix is removed must parse with int().
   */
  function RowIndex(key: string): Option<int>
  {
    if StartsWith(key, RowPrefix) then PyInt(RemoveAll(key, RowPrefix)) else None
  }

  /** The key of row n, "MapGroupsRow" followed by n in decimal, gives back n. */
  lemma RowIndexOfKey(n: int)
    ensures RowIndex(RowPrefix + IntToString(n)) == Some(n)
  {
    var digits := IntToString(n);
    var key := RowPrefix + digits;
    assert key[..|RowPrefix|] == RowPrefix;
    assert key[|RowPrefix|..] == digits;
    assert RowPrefix[0] !in digits by {
      IntToStringShape(n);
    }
    RemoveAllAbsent(digits, RowPrefix);
    PyIntOfIntToString(n);
  }

  /** Python's `lst == ["All"]`. */
  predicate IsAll(items: seq<Item>)
  {
    items == [Str("All")]
  }

  /** groups.get(name, []) */
  function GroupSlots(groups: Groups, name: Option<string>): seq<Slot>
  {
    match name
    case None => []
    case Some(n) => FindGroup(groups, n).GetOr([])
  }

  /** The entries of a block: its ExistingAsics, with ["All"] standing for 0..size-1 of its group. */
  function Entries(groups: Groups, b: Block): seq<Item>
  {
    var existing := b.existing.GetOr([]);
    if IsAll(existing) then seq(|GroupSlots(groups, b.groupName)|, i => Num(i)) else existing
  }

  /** How far a block moves the cursor; target and other blocks alike cover one column per entry. */
  function Width(groups: Groups, b: Block): (w: nat)
    ensures w == |Entries(groups, b)|
  {
    var existing := b.existing.GetOr([]);
    if IsAll(existing) then |GroupSlots(groups, b.groupName)| else |existing|
  }

  /** The NKF7 slot of the two target groups; the other groups are not examined. */
  function TargetPosition(name: Option<string>): Option<nat>
  {
    if name == Some("Group2") then Some(8)
    else if name == Some("Group9") then Some(7)
    else None
  }

  /** The testable entries: MechanicallyIntergerASICs, with ["All"] standing for every entry. */
  function Testable(groups: Groups, b: Block): set<Item>
  {
    var integer := b.integer.GetOr([]);
    if IsAll(integer) then set e | e in Entries(groups, b) else set e | e in integer
  }

  /** The FamilyType of a slot, "" when it is missing or null. */
  function Family(slot: Slot): string
  {
    slot.familyType.GetOr("")
  }

  /** The filter chain applied to one entry of a target block. */
  predicate IsNkf7Entry(groups: Groups, b: Block, target: nat, entry: Item)
  {
    var slots := GroupSlots(groups, b.groupName);
    && entry == Num(target)
    && entry in Testable(groups, b)
    && target < |slots|
    && Contains(Family(slots[target]), "NKF7")
  }

  /** The columns matched among the first k entries of a block whose first entry sits at `cursor`. */
  function MatchesBefore(groups: Groups, b: Block, target: nat, entries: seq<Item>, cursor: int, k: nat): seq<int>
    requires k <= |entries|
  {
    if k == 0 then []
    else
      MatchesBefore(groups, b, target, entries, cursor, k - 1)
      + (if IsNkf7Entry(groups, b, target, entries[k - 1]) then [cursor + k - 1] else [])
  }

  /** The columns a block contributes when it starts at `cursor`. */
  function BlockColumns(groups: Groups, b: Block, cursor: int): seq<int>
  {
    match TargetPosition(b.groupName)
    case None => []
    case Some(t) =>
      var entries := Entries(groups, b);
      MatchesBefore(groups, b, t, entries, cursor, |entries|)
  }

  /** The cursor once the first k blocks of a row are done. */
  function CursorAfter(groups: Groups, blocks: seq<Block>, k: nat): nat
    requires k <= |blocks|
  {
    if k == 0 then 0 else CursorAfter(groups, blocks, k - 1) + Width(groups, blocks[k - 1])
  }

  /** The columns matched in the first k blocks of a row. */
  function ColumnsAfter(groups: Groups, blocks: seq<Block>, k: nat): seq<int>
    requires k <= |blocks|
  {
    if k == 0 then []
    else ColumnsAfter(groups, blocks, k - 1) + BlockColumns(groups, blocks[k - 1], CursorAfter(groups, blocks, k - 1))
  }

  function RowColumns(groups: Groups, row: Row): seq<int>
  {
    ColumnsAfter(groups, row.blocks, |row.blocks|)
  }

  datatype RowSummary = RowSummary(count: nat, columns: seq<int>)

  type Coords = map<string, (int, int)>

  /** The key under which the match at (col, row) is stored. */
  function Key(col: int, row: int): string
  {
    KeyPrefix + IntToString(-col) + "_" + IntToString(-row)
  }

  /** Reads a key back into the (col, row) it was made from. */
  function ParseKey(key: string): Option<(int, int)>
  {
    if !StartsWith(key, KeyPrefix) then None
    else
      var rest := key[|KeyPrefix|..];
      if '_' !in rest then None
      else
        var i := IndexOf(rest, '_');
        match (ParseInt(rest[..i]), ParseInt(rest[i + 1..]))
        case (Some(c), Some(r)) => Some((-c, -r))
        case _ => None
  }

  /** coords after storing every column of `cols` for the given row, in order. */
  function Register(coords: Coords, cols: seq<int>, row: int): Coords
  {
    if cols == [] then coords
    else
      var c := cols[|cols| - 1];
      Register(coords, cols[..|cols| - 1], row)[Key(c, row) := (-c, -row)]
  }

  /** Both outputs after the first k rows. */
  function Scan(groups: Groups, rows: seq<Row>, k: nat): (Coords, map<string, RowSummary>)
    requires k <= |rows|
  {
    if k == 0 then (map[], map[])
    else
      var before := Scan(groups, rows, k - 1);
      var row := rows[k - 1];
      match RowIndex(row.key)
      case None => before
      case Some(r) =>
        var cols := RowColumns(groups, row);
        (Register(before.0, cols, r),
         if 0 < |cols| then before.1[row.key := RowSummary(|cols|, cols)] else before.1)
  }

  function Nkf7Scan(doc: WaferMap): (Coords, map<string, RowSummary>)
  {
    var rows := doc.rows.GetOr([]);
    Scan(doc.groups.GetOr([]), rows, |rows|)
  }

  /**
   * The accumulator: returns the coordinate map and the per-row summary of
   * every NKF7 entry found.
   */
  method ExtractNkf7Coords(doc: WaferMap) returns (coords: Coords, summary: map<string, RowSummary>)
    ensures (coords, summary) == Nkf7Scan(doc)
  {
    var rows := doc.rows.GetOr([]);
    var groups := doc.groups.GetOr([]);
    coords, summary := map[], map[];
    var k := 0;
    while k < |rows|
      invariant k <= |rows|
      invariant coords == Scan(groups, rows, k).0 && summary == Scan(groups, rows, k).1
    {
      coords, summary := ScanNextRow(groups, rows, k, coords, summary);
      k := k + 1;
    }
  }

  /** One turn of the loop over the rows: a row with a valid key has its blocks scanned. */
  method ScanNextRow(groups: Groups, rows: seq<Row>, k: nat, coords: Coords, summary: map<string, RowSummary>)
    returns (coords': Coords, summary': map<string, RowSummary>)
    requires k < |rows| && (coords, summary) == Scan(groups, rows, k)
    ensures (coords', summary') == Scan(groups, rows, k + 1)
  {
    coords', summary' := coords, summary;
    var row := rows[k];
    var rowIndex := RowIndex(row.key);
    if rowIndex.Some? {
      var count, active;
      coords', count, active := ScanRow(groups, row.blocks, rowIndex.value, coords);
      if count > 0 {
        summary' := summary[row.key := RowSummary(count, active)];
      }
    }
  }

  /** One processed row: the cursor walk over its blocks. */
  method ScanRow(groups: Groups, blocks: seq<Block>, r: int, coords: Coords)
    returns (coords': Coords, count: nat, active: seq<int>)
    ensures active == ColumnsAfter(groups, blocks, |blocks|)
    ensures count == |active|
    ensures coords' == Register(coords, active, r)
  {
    coords' := coords;
    var cursor := 0;
    count, active := 0, [];
    var j := 0;
    while j < |blocks|
      invariant j <= |blocks|
      invariant cursor == CursorAfter(groups, blocks, j)
      invariant active == ColumnsAfter(groups, blocks, j)
      invariant count == |active|
      invariant coords' == Register(coords, active, r)
    {
      var found, width;
      coords', found, width := ScanBlock(groups, blocks[j], cursor, r, coords');
      ColumnsStep(groups, blocks, j);
      RegisterAppend(coords, active, found, r);
      count := count + |found|;
      active := active + found;
      cursor := cursor + width;
      j := j + 1;
    }
  }

  lemma ColumnsStep(groups: Groups, blocks: seq<Block>, j: nat)
    requires j < |blocks|
    ensures ColumnsAfter(groups, blocks, j + 1)
            == ColumnsAfter(groups, blocks, j) + BlockColumns(groups, blocks[j], CursorAfter(groups, blocks, j))
    ensures CursorAfter(groups, blocks, j + 1) == CursorAfter(groups, blocks, j) + Width(groups, blocks[j])
  {
  }

  /** One block of a row: a target block's entries are examined, any other block is skipped over. */
  method ScanBlock(groups: Groups, b: Block, cursor: nat, r: int, coords: Coords)
    returns (coords': Coords, found: seq<int>, width: nat)
    ensures found == BlockColumns(groups, b, cursor)
    ensures width == Width(groups, b)
    ensures coords' == Register(coords, found, r)
  {
    var existing := b.existing.GetOr([]);
    var target := TargetPosition(b.groupName);
    if target.None? {
      coords', found := coords, [];
    } else {
      coords', found := ScanTargetBlock(groups, b, target.value, cursor, r, coords);
    }
    if IsAll(existing) {
      width := |GroupSlots(groups, b.groupName)|;
    } else {
      width := |existing|;
    }
  }

  /** The entry loop of a Group2 or Group9 block whose first entry is at `cursor`. */
  method ScanTargetBlock(groups: Groups, b: Block, t: nat, cursor: nat, r: int, coords: Coords)
    returns (coords': Coords, found: seq<int>)
    requires TargetPosition(b.groupName) == Some(t)
    ensures found == BlockColumns(groups, b, cursor)
    ensures coords' == Register(coords, found, r)
  {
    var slots := GroupSlots(groups, b.groupName);
    var entries := Entries(groups, b);
    var testable := Testable(groups, b);
    coords', found := coords, [];
    var i := 0;
    while i < |entries|
      invariant i <= |entries|
      invariant found == MatchesBefore(groups, b, t, entries, cursor, i)
      invariant coords' == Register(coords, found, r)
    {
      var col := cursor + i;
      if entries[i] == Num(t) && entries[i] in testable && t < |slots|
        && Contains(Family(slots[t]), "NKF7")
      {
        coords' := coords'[Key(col, r) := (-col, -r)];
        assert (found + [col])[..|found|] == found;
        found := found + [col];
      }
      i := i + 1;
    }
  }

  /** Storing two runs of columns one after the other stores their concatenation. */
  lemma {:induction false} RegisterAppend(coords: Coords, a: seq<int>, b: seq<int>, r: int)
    ensures Register(Register(coords, a, r), b, r) == Register(coords, a + b, r)
  {
    if b != [] {
      var init := b[..|b| - 1];
      RegisterAppend(coords, a, init, r);
      assert (a + b)[..|a + b| - 1] == a + init;
    } else {
      assert a + b == a;
    }
  }

  // ---------------------------------------------------------------------
  // Properties of the specification

  predicate StrictlyIncreasing(s: seq<int>)
  {
    forall i, j :: 0 <= i < j < |s| ==> s[i] < s[j]
  }

  /** A target block's matches are increasing and lie within its own columns. */
  lemma {:induction false} MatchesBeforeBounds(groups: Groups, b: Block, t: nat, entries: seq<Item>, cursor: int, k: nat)
    requires k <= |entries|
    ensures StrictlyIncreasing(MatchesBefore(groups, b, t, entries, cursor, k))
    ensures forall c :: c in MatchesBefore(groups, b, t, entries, cursor, k) ==> cursor <= c < cursor + k
  {
    if k > 0 {
      var prev := MatchesBefore(groups, b, t, entries, cursor, k - 1);
      MatchesBeforeBounds(groups, b, t, entries, cursor, k - 1);
      if IsNkf7Entry(groups, b, t, entries[k - 1]) {
        var next := prev + [cursor + k - 1];
        assert forall i :: 0 <= i < |prev| ==> prev[i] in prev;
        assert forall i :: 0 <= i < |next| ==> next[i] in prev || next[i] == cursor + k - 1;
      }
    }
  }

  /**
   * An entry is recorded at the cursor plus its position in the list, not at
   * its value: c is matched exactly when it is cursor + i for an entry i that
   * passes the filter chain.
   */
  lemma {:induction false} MatchedColumnIsPosition(groups: Groups, b: Block, t: nat, entries: seq<Item>, cursor: int, k: nat, c: int)
    requires k <= |entries|
    ensures c in MatchesBefore(groups, b, t, entries, cursor, k)
        <==> cursor <= c < cursor + k && IsNkf7Entry(groups, b, t, entries[c - cursor])
  {
    if k > 0 {
      MatchedColumnIsPosition(groups, b, t, entries, cursor, k - 1, c);
    }
  }

  /** Within a row the columns are increasing and all lie before the final cursor. */
  lemma {:induction false} RowColumnsBounds(groups: Groups, blocks: seq<Block>, k: nat)
    requires k <= |blocks|
    ensures StrictlyIncreasing(ColumnsAfter(groups, blocks, k))
    ensures forall c :: c in ColumnsAfter(groups, blocks, k) ==> 0 <= c < CursorAfter(groups, blocks, k)
  {
    if k > 0 {
      RowColumnsBounds(groups, blocks, k - 1);
      var b := blocks[k - 1];
      var cursor := CursorAfter(groups, blocks, k - 1);
      BlockColumnsBounds(groups, b, cursor);
      IncreasingAppend(ColumnsAfter(groups, blocks, k - 1), BlockColumns(groups, b, cursor), cursor);
    }
  }

  /** The columns of one block are increasing and lie within the block's width from the cursor. */
  lemma BlockColumnsBounds(groups: Groups, b: Block, cursor: int)
    ensures StrictlyIncreasing(BlockColumns(groups, b, cursor))
    ensures forall c :: c in BlockColumns(groups, b, cursor) ==> cursor <= c < cursor + Width(groups, b)
  {
    match TargetPosition(b.groupName)
    case None =>
    case Some(t) =>
      MatchesBeforeBounds(groups, b, t, Entries(groups, b), cursor, |Entries(groups, b)|);
  }

  /** An increasing run below m followed by an increasing run from m on is increasing. */
  lemma IncreasingAppend(a: seq<int>, b: seq<int>, m: int)
    requires StrictlyIncreasing(a) && StrictlyIncreasing(b)
    requires forall c :: c in a ==> c < m
    requires forall c :: c in b ==> m <= c
    ensures StrictlyIncreasing(a + b)
  {
    forall i, j | 0 <= i < j < |a + b|
      ensures (a + b)[i] < (a + b)[j]
    {
      if i < |a| <= j {
        assert a[i] in a;
        assert b[j - |a|] in b;
      }
    }
  }

  /**
   * For a target block whose ExistingAsics and MechanicallyIntergerASICs are
   * both ["All"], only the entry at the target slot can match, and it does
   * exactly when the group is large enough and that slot's FamilyType
   * contains "NKF7".
   */
  lemma AllAllBlockColumns(groups: Groups, b: Block, cursor: int)
    requires TargetPosition(b.groupName).Some?
    requires b.existing == Some([Str("All")]) && b.integer == Some([Str("All")])
    ensures var t := TargetPosition(b.groupName).value;
            var slots := GroupSlots(groups, b.groupName);
            BlockColumns(groups, b, cursor)
            == if t < |slots| && Contains(Family(slots[t]), "NKF7") then [cursor + t] else []
  {
    var t := TargetPosition(b.groupName).value;
    var slots := GroupSlots(groups, b.groupName);
    var entries := Entries(groups, b);
    assert entries == seq(|slots|, i => Num(i));
    AllAllPrefix(groups, b, t, entries, cursor, |entries|);
  }

  lemma {:induction false} AllAllPrefix(groups: Groups, b: Block, t: nat, entries: seq<Item>, cursor: int, k: nat)
    requires b.existing == Some([Str("All")]) && b.integer == Some([Str("All")])
    requires entries == Entries(groups, b) && k <= |entries|
    ensures var slots := GroupSlots(groups, b.groupName);
            MatchesBefore(groups, b, t, entries, cursor, k)
            == if t < k && t < |slots| && Contains(Family(slots[t]), "NKF7") then [cursor + t] else []
  {
    if k > 0 {
      AllAllPrefix(groups, b, t, entries, cursor, k - 1);
      var slots := GroupSlots(groups, b.groupName);
      assert entries[k - 1] == Num(k - 1);
      if k - 1 == t {
        assert entries[k - 1] in entries;
      }
    }
  }

  /** Keys read back into the coordinates they were made from. */
  lemma KeyRoundTrip(col: int, row: int)
    ensures ParseKey(Key(col, row)) == Some((col, row))
  {
    RenderedField(-col);
    RenderedField(-row);
    ParseAssembledKey(IntToString(-col), IntToString(-row), -col, -row);
  }

  /** What a key needs of each rendered coordinate. */
  lemma RenderedField(x: int)
    ensures '_' !in IntToString(x) && ParseInt(IntToString(x)) == Some(x)
  {
    NoUnderscore(x);
    IntToStringRoundTrip(x);
  }

  lemma ParseAssembledKey(a: string, b: string, x: int, y: int)
    requires '_' !in a && ParseInt(a) == Some(x) && ParseInt(b) == Some(y)
    ensures ParseKey(KeyPrefix + a + "_" + b) == Some((-x, -y))
  {
    var key := KeyPrefix + a + "_" + b;
    assert key[..|KeyPrefix|] == KeyPrefix;
    var rest := key[|KeyPrefix|..];
    assert rest == a + "_" + b;
    SplitAtSeparator(a, b, '_');
  }

  lemma NoUnderscore(i: int)
    ensures '_' !in IntToString(i)
  {
    IntToStringShape(i);
    var s := IntToString(i);
    assert forall k :: 0 <= k < |s| ==> s[k] != '_';
  }

  lemma SplitAtSeparator(a: string, b: string, c: char)
    requires c !in a
    ensures c in a + [c] + b
    ensures IndexOf(a + [c] + b, c) == |a|
    ensures (a + [c] + b)[..|a|] == a && (a + [c] + b)[|a| + 1..] == b
  {
    var s := a + [c] + b;
    assert s[|a|] == c;
    assert s[..|a|] == a;
  }

  /** Distinct coordinates get distinct keys. */
  lemma KeyInjective(c1: int, r1: int, c2: int, r2: int)
    requires Key(c1, r1) == Key(c2, r2)
    ensures c1 == c2 && r1 == r2
  {
    KeyRoundTrip(c1, r1);
    KeyRoundTrip(c2, r2);
  }

  /** Every stored value is the pair its key names. */
  predicate WellKeyed(coords: Coords)
  {
    forall key :: key in coords ==> key == Key(-coords[key].0, -coords[key].1)
  }

  /** Storing a row's columns adds exactly the keys of those columns. */
  lemma {:induction false} RegisterKeys(coords: Coords, cols: seq<int>, row: int)
    ensures Register(coords, cols, row).Keys == coords.Keys + (set c | c in cols :: Key(c, row))
  {
    if cols != [] {
      var init := cols[..|cols| - 1];
      var last := cols[|cols| - 1];
      RegisterKeys(coords, init, row);
      assert cols == init + [last];
      assert (set c | c in cols :: Key(c, row)) == (set c | c in init :: Key(c, row)) + {Key(last, row)};
    }
  }

  /** Every stored column maps to (-col, -row), whatever was stored after it. */
  lemma {:induction false} RegisterValue(coords: Coords, cols: seq<int>, row: int, c: int)
    requires c in cols
    ensures Key(c, row) in Register(coords, cols, row)
    ensures Register(coords, cols, row)[Key(c, row)] == (-c, -row)
  {
    var init := cols[..|cols| - 1];
    var last := cols[|cols| - 1];
    if c != last {
      assert cols == init + [last];
      assert c in init;
      RegisterValue(coords, init, row, c);
      if Key(c, row) == Key(last, row) {
        KeyInjective(c, row, last, row);
      }
    }
  }

  /** Storing a row's columns keeps the map well keyed. */
  lemma {:induction false} RegisterWellKeyed(coords: Coords, cols: seq<int>, row: int)
    requires WellKeyed(coords)
    ensures WellKeyed(Register(coords, cols, row))
  {
    if cols != [] {
      RegisterWellKeyed(coords, cols[..|cols| - 1], row);
      StoreWellKeyed(Register(coords, cols[..|cols| - 1], row), cols[|cols| - 1], row);
    }
  }

  lemma StoreWellKeyed(coords: Coords, c: int, row: int)
    requires WellKeyed(coords)
    ensures WellKeyed(coords[Key(c, row) := (-c, -row)])
  {
    var k := Key(c, row);
    var m := coords[k := (-c, -row)];
    forall key | key in m
      ensures key == Key(-m[key].0, -m[key].1)
    {
      if key == k {
        assert m[key] == (-c, -row);
      } else {
        assert m[key] == coords[key];
      }
    }
  }

  /** The coordinate map is well keyed after any number of rows. */
  lemma {:induction false} ScanWellKeyed(groups: Groups, rows: seq<Row>, k: nat)
    requires k <= |rows|
    ensures WellKeyed(Scan(groups, rows, k).0)
  {
    if k > 0 {
      ScanWellKeyed(groups, rows, k - 1);
      ScanStepWellKeyed(groups, rows, k);
    }
  }

  lemma ScanStepWellKeyed(groups: Groups, rows: seq<Row>, k: nat)
    requires 0 < k <= |rows| && WellKeyed(Scan(groups, rows, k - 1).0)
    ensures WellKeyed(Scan(groups, rows, k).0)
  {
    var row := rows[k - 1];
    match RowIndex(row.key)
    case None =>
    case Some(r) =>
      RegisterWellKeyed(Scan(groups, rows, k - 1).0, RowColumns(groups, row), r);
  }

  /** A row whose key gives no index adds nothing to either output. */
  lemma SkippedRowAddsNothing(groups: Groups, rows: seq<Row>, k: nat)
    requires k < |rows| && RowIndex(rows[k].key).None?
    ensures Scan(groups, rows, k + 1) == Scan(groups, rows, k)
  {
  }

  /** The summary entry a row gets: its columns and their count, when its key gives an index and it has a match. */
  function Outcome(groups: Groups, row: Row): Option<RowSummary>
  {
    match RowIndex(row.key)
    case None => None
    case Some(_) =>
      var cols := RowColumns(groups, row);
      if 0 < |cols| then Some(RowSummary(|cols|, cols)) else None
  }

  function RowKeys(rows: seq<Row>): (keys: seq<string>)
    ensures |keys| == |rows|
  {
    if rows == [] then [] else RowKeys(rows[..|rows| - 1]) + [rows[|rows| - 1].key]
  }

  function Outcomes(groups: Groups, rows: seq<Row>): (es: seq<Option<RowSummary>>)
    ensures |es| == |rows|
  {
    if rows == [] then [] else Outcomes(groups, rows[..|rows| - 1]) + [Outcome(groups, rows[|rows| - 1])]
  }

  /** dict[key] = e when e is present. */
  function Store(summary: map<string, RowSummary>, key: string, e: Option<RowSummary>): map<string, RowSummary>
  {
    if e.Some? then summary[key := e.value] else summary
  }

  predicate Distinct(keys: seq<string>)
  {
    forall i, j :: 0 <= i < j < |keys| ==> keys[i] != keys[j]
  }

  /**
   * A summary table for rows with the given keys and outcomes: a key is in it
   * exactly when its row has an outcome, with that outcome as its value, and
   * nothing else is.
   */
  predicate Tabulates(keys: seq<string>, es: seq<Option<RowSummary>>, summary: map<string, RowSummary>)
    requires |keys| == |es|
  {
    && (forall j :: 0 <= j < |keys| ==> (keys[j] in summary <==> es[j].Some?))
    && (forall j :: 0 <= j < |keys| && keys[j] in summary ==> summary[keys[j]] == es[j].value)
    && (forall key :: key in summary ==> key in keys)
  }

  lemma TabulatesStep(keys: seq<string>, es: seq<Option<RowSummary>>, summary: map<string, RowSummary>, key: string, e: Option<RowSummary>)
    requires |keys| == |es| && Distinct(keys + [key]) && Tabulates(keys, es, summary)
    ensures Tabulates(keys + [key], es + [e], Store(summary, key, e))
  {
    assert forall i :: 0 <= i < |keys| ==> keys[i] == (keys + [key])[i];
    assert key == (keys + [key])[|keys|];
  }

  /** With distinct row keys, the summary after k rows tabulates their outcomes. */
  lemma {:induction false} SummaryRows(groups: Groups, rows: seq<Row>, k: nat)
    requires k <= |rows| && Distinct(RowKeys(rows))
    ensures Tabulates(RowKeys(rows[..k]), Outcomes(groups, rows[..k]), Scan(groups, rows, k).1)
  {
    if k > 0 {
      SummaryRows(groups, rows, k - 1);
      var init := rows[..k - 1];
      assert rows[..k][..k - 1] == init;
      RowKeysPrefix(rows, k);
      SummaryStep(groups, rows, k);
      TabulatesStep(RowKeys(init), Outcomes(groups, init), Scan(groups, rows, k - 1).1, rows[k - 1].key, Outcome(groups, rows[k - 1]));
    } else {
      assert rows[..0] == [];
    }
  }

  lemma SummaryStep(groups: Groups, rows: seq<Row>, k: nat)
    requires 0 < k <= |rows|
    ensures Scan(groups, rows, k).1 == Store(Scan(groups, rows, k - 1).1, rows[k - 1].key, Outcome(groups, rows[k - 1]))
  {
  }

  /** The keys of a prefix of the rows are a prefix of the keys, and stay distinct. */
  lemma {:induction false} RowKeysPrefix(rows: seq<Row>, k: nat)
    requires 0 < k <= |rows| && Distinct(RowKeys(rows))
    ensures RowKeys(rows[..k]) == RowKeys(rows[..k - 1]) + [rows[k - 1].key]
    ensures Distinct(RowKeys(rows[..k - 1]) + [rows[k - 1].key])
  {
    assert rows[..k][..k - 1] == rows[..k - 1];
    RowKeysOfPrefix(rows, k);
    var all := RowKeys(rows);
    assert RowKeys(rows[..k]) == all[..k];
  }

  lemma {:induction false} RowKeysOfPrefix(rows: seq<Row>, k: nat)
    requires k <= |rows|
    ensures RowKeys(rows[..k]) == RowKeys(rows)[..k]
    decreases |rows|
  {
    if k < |rows| {
      var init := rows[..|rows| - 1];
      assert rows[..k] == init[..k];
      RowKeysOfPrefix(init, k);
    } else {
      assert rows[..k] == rows;
    }
  }

  /**
   * The summary holds the key of a row exactly when that row has an outcome,
   * and then holds that outcome.
   */
  lemma SummaryOfRow(groups: Groups, rows: seq<Row>, j: nat)
    requires j < |rows| && Distinct(RowKeys(rows))
    ensures var summary := Scan(groups, rows, |rows|).1;
            (rows[j].key in summary <==> Outcome(groups, rows[j]).Some?)
            && (rows[j].key in summary ==> summary[rows[j].key] == Outcome(groups, rows[j]).value)
  {
    SummaryRows(groups, rows, |rows|);
    assert rows[..|rows|] == rows;
    RowKeysAt(rows, j);
    OutcomesAt(groups, rows, j);
  }

  lemma {:induction false} RowKeysAt(rows: seq<Row>, j: nat)
    requires j < |rows|
    ensures RowKeys(rows)[j] == rows[j].key
  {
    if j < |rows| - 1 {
      RowKeysAt(rows[..|rows| - 1], j);
    }
  }

  lemma {:induction false} OutcomesAt(groups: Groups, rows: seq<Row>, j: nat)
    requires j < |rows|
    ensures Outcomes(groups, rows)[j] == Outcome(groups, rows[j])
  {
    if j < |rows| - 1 {
      OutcomesAt(groups, rows[..|rows| - 1], j);
    }
  }
}
