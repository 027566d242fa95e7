// The wafer-type validator of the database agent: parse_range reads one index
// list of a MapGroups block, and checkWaferMap checks a whole wafer map before
// a wafer type is stored. Group problems are appended to the error text and the
// scan goes on; the first block problem replaces the error text and ends the
// check.
module WaferTypeCheck {
  import opened Wrappers
  import opened Text
  import opened WaferDoc
  import opened SentioMap

  // ---------------------------------------------------------------------
  // parse_range

  /** The C++ test for "All": the first element is the string "All", whatever follows. */
  predicate LeadsWithAll(items: seq<Item>)
  {
    0 < |items| && items[0] == Str("All")
  }

  predicate AllNumbers(items: seq<Item>)
  {
    forall k :: 0 <= k < |items| ==> items[k].Num?
  }

  /**
   * parse_range: whether the list is accepted and the range it leaves. A null
   * or empty list is accepted and leaves the range as it was; a leading "All"
   * stands for every slot of the group; a list of numbers is taken as it is;
   * anything else is refused and leaves the range as it was.
   */
  function ParseRange(gSize: nat, arr: Option<seq<Item>>, range: seq<int>): (r: (bool, seq<int>))
    ensures !r.0 ==> r.1 == range
    ensures (arr.None? || arr.value == []) ==> r == (true, range)
    ensures arr.Some? && LeadsWithAll(arr.value) ==>
              r.0 && |r.1| == gSize && forall k :: 0 <= k < gSize ==> r.1[k] == k
    ensures arr.Some? && 0 < |arr.value| && !LeadsWithAll(arr.value) ==>
              (r.0 <==> AllNumbers(arr.value))
    ensures arr.Some? && 0 < |arr.value| && !LeadsWithAll(arr.value) && r.0 ==>
              |r.1| == |arr.value| && forall k :: 0 <= k < |r.1| ==> arr.value[k] == Num(r.1[k])
  {
    match arr
    case None => (true, range)
    case Some(items) =>
      if items == [] then (true, range)
      else if items[0].Str? && items[0].s == "All" then (true, seq(gSize, k => k))
      else if AllNumbers(items) then (true, seq(|items|, k requires 0 <= k < |items| && AllNumbers(items) => items[k].n))
      else (false, range)
  }

  /** Every list the Python scripts read as "All" the C++ agent reads as "All" too. */
  lemma AllDialectsAgree(items: seq<Item>)
    requires IsAll(items)
    ensures LeadsWithAll(items)
  {
  }

  /** The converse fails: a list that merely starts with "All" is "All" to the agent only. */
  lemma AllDialectsDiffer(items: seq<Item>)
    requires items == [Str("All"), Num(3)]
    ensures LeadsWithAll(items) && !IsAll(items)
  {
    assert items != [Str("All")] by {
      assert |items| == 2;
    }
  }

  // ---------------------------------------------------------------------
  // The outcome of checkWaferMap

  /**
   * What checkWaferMap ends with: its verdict and the error text, or the type
   * error the JSON library raises when a slot member is null or a block has
   * no GroupName.
   */
  datatype Verdict = Verdict(ok: bool, err: string) | TypeError

  const MissingMessage := "Wrong json format. Missing Groups or MapGroups objects.\n"

  // ---------------------------------------------------------------------
  // The Groups part: every slot is checked, and every problem appended

  /** A slot at index `expected` is well formed: its PosInGroup is that index and its family is a known one. */
  predicate SlotOk(slot: Slot, expected: nat, families: set<string>)
  {
    slot.posInGroup == Present(expected) && |Family(slot)| > 0 && Family(slot) in families
  }

  /** Reading a null PosInGroup or FamilyType with `value` throws a type error. */
  predicate SlotThrows(slot: Slot)
  {
    slot.posInGroup.Null? || slot.familyType.Null?
  }

  /** One of the first k slots of a group throws. */
  predicate GroupThrowsUpTo(slots: seq<Slot>, k: nat)
    requires k <= |slots|
  {
    k > 0 && (GroupThrowsUpTo(slots, k - 1) || SlotThrows(slots[k - 1]))
  }

  /** A slot of one of the first k groups throws. */
  predicate GroupsThrowUpTo(groups: Groups, k: nat)
    requires k <= |groups|
  {
    k > 0 && (GroupsThrowUpTo(groups, k - 1) || GroupThrowsUpTo(groups[k - 1].1, |groups[k - 1].1|))
  }

  /** The line for a PosInGroup that is not the expected index. */
  function PosLine(name: string, pos: int, expected: nat): string
  {
    "Unmatching PosInGroup index: " + IntToString(pos) + " from expected " + IntToString(expected) + " in group " + name + "\n"
  }

  /** The line for a family that is empty or unknown. */
  function FamilyLine(family: string): string
  {
    "Asic Family type: " + family + " is not part of enum value in the DB\n"
  }

  /** The line appended when a slot's PosInGroup (-1 when absent) is not its index, or nothing. */
  function PosPart(name: string, slot: Slot, expected: nat): string
  {
    var pos := slot.posInGroup.GetOr(-1);
    if pos != expected then PosLine(name, pos, expected) else ""
  }

  /** The line appended when a slot's FamilyType ("" when absent) is empty or unknown, or nothing. */
  function FamilyPart(slot: Slot, families: set<string>): string
  {
    var family := Family(slot);
    if |family| == 0 || family !in families then FamilyLine(family) else ""
  }

  /** The lines appended for one slot. */
  function SlotMessage(name: string, slot: Slot, expected: nat, families: set<string>): string
  {
    PosPart(name, slot, expected) + FamilyPart(slot, families)
  }

  /** The lines appended for the first k slots of a group. */
  function GroupMessages(name: string, slots: seq<Slot>, families: set<string>, k: nat): string
    requires k <= |slots|
  {
    if k == 0 then ""
    else GroupMessages(name, slots, families, k - 1) + SlotMessage(name, slots[k - 1], k - 1, families)
  }

  /** The lines appended for the first k groups. */
  function GroupsMessages(groups: Groups, families: set<string>, k: nat): string
    requires k <= |groups|
  {
    if k == 0 then ""
    else GroupsMessages(groups, families, k - 1) + GroupMessages(groups[k - 1].0, groups[k - 1].1, families, |groups[k - 1].1|)
  }

  predicate GroupOkUpTo(slots: seq<Slot>, families: set<string>, k: nat)
    requires k <= |slots|
  {
    forall j :: 0 <= j < k ==> SlotOk(slots[j], j, families)
  }

  predicate GroupsOkUpTo(groups: Groups, families: set<string>, k: nat)
    requires k <= |groups|
  {
    forall g :: 0 <= g < k ==> GroupOkUpTo(groups[g].1, families, |groups[g].1|)
  }

  /**
   * A slot adds no line exactly when it is well formed, and a well-formed
   * slot has no null member, so it does not throw.
   */
  lemma SlotPartsEmpty(name: string, slot: Slot, expected: nat, families: set<string>)
    ensures |PosPart(name, slot, expected)| == 0 && |FamilyPart(slot, families)| == 0 <==> SlotOk(slot, expected, families)
    ensures SlotOk(slot, expected, families) ==> !SlotThrows(slot)
  {
    var pos := slot.posInGroup.GetOr(-1);
    assert |PosLine(name, pos, expected)| > 0;
    assert |FamilyLine(Family(slot))| > 0;
    if pos == expected {
      assert slot.posInGroup == Present(expected);
    }
  }

  /** When every group is well formed, no slot throws. */
  lemma {:induction false} OkGroupsDoNotThrow(groups: Groups, families: set<string>, k: nat)
    requires k <= |groups| && GroupsOkUpTo(groups, families, k)
    ensures !GroupsThrowUpTo(groups, k)
  {
    if k > 0 {
      OkGroupsDoNotThrow(groups, families, k - 1);
      OkSlotsDoNotThrow(groups[k - 1].0, groups[k - 1].1, families, |groups[k - 1].1|);
    }
  }

  /** Within one group: well-formed slots do not throw. */
  lemma {:induction false} OkSlotsDoNotThrow(name: string, slots: seq<Slot>, families: set<string>, k: nat)
    requires k <= |slots| && GroupOkUpTo(slots, families, k)
    ensures !GroupThrowsUpTo(slots, k)
  {
    if k > 0 {
      OkSlotsDoNotThrow(name, slots, families, k - 1);
      SlotPartsEmpty(name, slots[k - 1], k - 1, families);
    }
  }

  /** A group adds no line exactly when all its slots are well formed. */
  lemma {:induction false} GroupMessagesEmpty(name: string, slots: seq<Slot>, families: set<string>, k: nat)
    requires k <= |slots|
    ensures |GroupMessages(name, slots, families, k)| == 0 <==> GroupOkUpTo(slots, families, k)
  {
    if k > 0 {
      GroupMessagesEmpty(name, slots, families, k - 1);
      SlotPartsEmpty(name, slots[k - 1], k - 1, families);
      GroupOkStep(slots, families, k);
      GroupMessagesNext(name, slots, families, k - 1);
    }
  }

  /** The Groups part adds no line exactly when every slot of every group is well formed. */
  lemma {:induction false} GroupsMessagesEmpty(groups: Groups, families: set<string>, k: nat)
    requires k <= |groups|
    ensures |GroupsMessages(groups, families, k)| == 0 <==> GroupsOkUpTo(groups, families, k)
  {
    if k > 0 {
      GroupsMessagesEmpty(groups, families, k - 1);
      GroupMessagesEmpty(groups[k - 1].0, groups[k - 1].1, families, |groups[k - 1].1|);
      GroupsOkStep(groups, families, k);
      GroupsMessagesNext(groups, families, k - 1);
    }
  }

  lemma GroupMessagesNext(name: string, slots: seq<Slot>, families: set<string>, k: nat)
    requires k < |slots|
    ensures GroupMessages(name, slots, families, k + 1)
            == GroupMessages(name, slots, families, k) + SlotMessage(name, slots[k], k, families)
  {
  }

  lemma GroupsMessagesNext(groups: Groups, families: set<string>, k: nat)
    requires k < |groups|
    ensures GroupsMessages(groups, families, k + 1)
            == GroupsMessages(groups, families, k) + GroupMessages(groups[k].0, groups[k].1, families, |groups[k].1|)
  {
  }

  lemma GroupOkStep(slots: seq<Slot>, families: set<string>, k: nat)
    requires 0 < k <= |slots|
    ensures GroupOkUpTo(slots, families, k) <==> GroupOkUpTo(slots, families, k - 1) && SlotOk(slots[k - 1], k - 1, families)
  {
  }

  lemma GroupsOkStep(groups: Groups, families: set<string>, k: nat)
    requires 0 < k <= |groups|
    ensures GroupsOkUpTo(groups, families, k)
            <==> GroupsOkUpTo(groups, families, k - 1) && GroupOkUpTo(groups[k - 1].1, families, |groups[k - 1].1|)
  {
  }

  // ---------------------------------------------------------------------
  // The MapGroups part: the first bad block ends the check

  /** Why a block is refused. */
  datatype BlockError = GroupNotFound(name: string) | WrongArray | SizeMismatch | Ambiguous(index: int)

  /** The outcome for a block or a run of blocks: the first refusal, or the type error of a missing GroupName. */
  datatype BlockCheck = Pass | Reject(rowKey: string, col: int, error: BlockError) | Throw

  /** How many of the lists hold x (the n_found counter). */
  function PropertyCount(x: int, lists: seq<seq<int>>): nat
  {
    if lists == [] then 0
    else PropertyCount(x, lists[..|lists| - 1]) + (if x in lists[|lists| - 1] then 1 else 0)
  }

  /** x is in exactly one of the three property lists. */
  predicate ExactlyOne(x: int, damaged: seq<int>, covered: seq<int>, integer: seq<int>)
  {
    || (x in damaged && x !in covered && x !in integer)
    || (x !in damaged && x in covered && x !in integer)
    || (x !in damaged && x !in covered && x in integer)
  }

  lemma PropertyCountOne(x: int, damaged: seq<int>, covered: seq<int>, integer: seq<int>)
    ensures PropertyCount(x, [damaged, covered, integer]) == 1 <==> ExactlyOne(x, damaged, covered, integer)
  {
    var lists := [damaged, covered, integer];
    assert lists[..2] == [damaged, covered];
    assert lists[..2][..1] == [damaged];
    assert lists[..2][..1][..0] == [];
    var n1 := if x in damaged then 1 else 0;
    var n2 := if x in covered then 1 else 0;
    var n3 := if x in integer then 1 else 0;
    assert PropertyCount(x, [damaged]) == n1;
    assert PropertyCount(x, [damaged, covered]) == n1 + n2;
    assert PropertyCount(x, lists) == n1 + n2 + n3;
  }

  /** The first existing index that is not in exactly one property list, if any. */
  function FirstAmbiguous(existing: seq<int>, damaged: seq<int>, covered: seq<int>, integer: seq<int>): (r: Option<int>)
    ensures r.None? <==> forall k :: 0 <= k < |existing| ==> ExactlyOne(existing[k], damaged, covered, integer)
    ensures r.Some? ==> exists k :: 0 <= k < |existing| && existing[k] == r.value
                                     && !ExactlyOne(r.value, damaged, covered, integer)
                                     && forall j :: 0 <= j < k ==> ExactlyOne(existing[j], damaged, covered, integer)
  {
    if existing == [] then None
    else if !ExactlyOne(existing[0], damaged, covered, integer) then Some(existing[0])
    else
      var r := FirstAmbiguous(existing[1..], damaged, covered, integer);
      assert forall k :: 1 <= k < |existing| ==> existing[k] == existing[1..][k - 1];
      if r.Some? then
        var k :| 0 <= k < |existing[1..]| && existing[1..][k] == r.value
                 && !ExactlyOne(r.value, damaged, covered, integer)
                 && forall j :: 0 <= j < k ==> ExactlyOne(existing[1..][j], damaged, covered, integer);
        assert existing[k + 1] == r.value;
        r
      else r
  }

  /** The error text that replaces the incoming one when block `col` of row `rowKey` is refused. */
  function BlockMessage(rowKey: string, col: int, error: BlockError): string
  {
    var head := "Map Group: " + rowKey + " Col: " + IntToString(col);
    match error
    case GroupNotFound(name) => head + " group name " + name + "was not found"
    case WrongArray => head + " Wrong array found"
    case SizeMismatch => head + ", unmaching number of asics and properties size"
    case Ambiguous(x) => head + ", asic index " + IntToString(x) + " has more than one property"
  }

  /** The checks that follow the group lookup, for a group of gSize slots. */
  function RangesCheck(rowKey: string, col: int, gSize: nat, b: Block): BlockCheck
  {
    var e := ParseRange(gSize, b.existing, []);
    var d := ParseRange(gSize, b.damaged, []);
    var c := ParseRange(gSize, b.covered, []);
    var i := ParseRange(gSize, b.integer, []);
    if !(e.0 && d.0 && c.0 && i.0) then Reject(rowKey, col, WrongArray)
    else if |e.1| != |d.1| + |c.1| + |i.1| then
      Reject(rowKey, col, SizeMismatch)
    else
      match FirstAmbiguous(e.1, d.1, c.1, i.1)
      case None => Pass
      case Some(x) => Reject(rowKey, col, Ambiguous(x))
  }

  /**
   * Which group lookup the block check runs. AsWritten is the agent's own:
   * the size is read through the inserting operator[], which adds an unknown
   * name to Groups as null, so the unknown-group test after it never fires
   * and the block is checked against a group of size 0. Corrected is the
   * evident intent: the unknown-group test refuses the block.
   */
  datatype GroupTest = AsWritten | Corrected

  /** The size of the named group, or 0 for an unknown name (the size of the inserted null entry). */
  function GroupSize(groups: Groups, name: string): (n: nat)
    ensures FindGroup(groups, name).Some? ==> n == |FindGroup(groups, name).value|
    ensures FindGroup(groups, name).None? ==> n == 0
  {
    match FindGroup(groups, name)
    case None => 0
    case Some(slots) => |slots|
  }

  /** The check of one block, the one at index `col` of its row. */
  function BlockCheckOf(test: GroupTest, groups: Groups, rowKey: string, col: int, b: Block): BlockCheck
  {
    match b.groupName
    case None => Throw
    case Some(name) =>
      if test.Corrected? && FindGroup(groups, name).None? then Reject(rowKey, col, GroupNotFound(name))
      else RangesCheck(rowKey, col, GroupSize(groups, name), b)
  }

  /** The outcome for the first k blocks of a row: the first one that does not pass. */
  function BlocksCheck(test: GroupTest, groups: Groups, rowKey: string, blocks: seq<Block>, k: nat): BlockCheck
    requires k <= |blocks|
  {
    if k == 0 then Pass
    else
      var before := BlocksCheck(test, groups, rowKey, blocks, k - 1);
      if before.Pass? then BlockCheckOf(test, groups, rowKey, k - 1, blocks[k - 1]) else before
  }

  /** The outcome for the first k rows. */
  function RowsCheck(test: GroupTest, groups: Groups, rows: seq<Row>, k: nat): BlockCheck
    requires k <= |rows|
  {
    if k == 0 then Pass
    else
      var before := RowsCheck(test, groups, rows, k - 1);
      if before.Pass? then BlocksCheck(test, groups, rows[k - 1].key, rows[k - 1].blocks, |rows[k - 1].blocks|) else before
  }

  /** What checkWaferMap ends with for a parsed document, the family list of the database and the incoming error text. */
  function WaferMapVerdict(test: GroupTest, doc: WaferMap, families: set<string>, errIn: string): Verdict
  {
    var missing := doc.groups.None? || doc.rows.None?;
    var groups := doc.groups.GetOr([]);
    var rows := doc.rows.GetOr([]);
    var err := errIn + (if missing then MissingMessage else "") + GroupsMessages(groups, families, |groups|);
    if GroupsThrowUpTo(groups, |groups|) then TypeError
    else
      match RowsCheck(test, groups, rows, |rows|)
      case Pass => Verdict(!missing && GroupsOkUpTo(groups, families, |groups|), err)
      case Reject(key, col, error) => Verdict(false, BlockMessage(key, col, error))
      case Throw => TypeError
  }

  // ---------------------------------------------------------------------
  // The check, loop by loop

  /** checkWaferMap. */
  method CheckWaferMap(test: GroupTest, doc: WaferMap, families: set<string>, errIn: string) returns (v: Verdict)
    ensures v == WaferMapVerdict(test, doc, families, errIn)
  {
    var ret := true;
    var err := errIn;
    if doc.groups.None? || doc.rows.None? {
      err := err + MissingMessage;
      ret := false;
    } else {
      assert err == errIn + "";
    }
    var groups := doc.groups.GetOr([]);
    var thrown, groupsOk, lines := CheckGroups(groups, families);
    if thrown {
      return TypeError;
    }
    err := err + lines;
    ret := ret && groupsOk;
    var c := CheckMapGroups(test, groups, doc.rows.GetOr([]));
    match c
    case Pass => v := Verdict(ret, err);
    case Reject(key, col, error) => v := Verdict(false, BlockMessage(key, col, error));
    case Throw => v := TypeError;
  }

  /** The loop over the groups; `thrown` when a null slot member ends the check with a type error. */
  method CheckGroups(groups: Groups, families: set<string>) returns (thrown: bool, ok: bool, lines: string)
    ensures thrown <==> GroupsThrowUpTo(groups, |groups|)
    ensures !thrown ==> ok == GroupsOkUpTo(groups, families, |groups|)
    ensures !thrown ==> lines == GroupsMessages(groups, families, |groups|)
  {
    thrown, ok, lines := false, true, "";
    var g := 0;
    while g < |groups| && !thrown
      invariant g <= |groups|
      invariant thrown ==> GroupsThrowUpTo(groups, |groups|)
      invariant !thrown ==> !GroupsThrowUpTo(groups, g)
      invariant !thrown ==> ok == GroupsOkUpTo(groups, families, g)
      invariant !thrown ==> lines == GroupsMessages(groups, families, g)
    {
      thrown, ok, lines := CheckNextGroup(groups, families, g, ok, lines);
      g := g + 1;
    }
  }

  /** One turn of the loop over the groups: the next group's verdict and messages are added, unless it throws. */
  method CheckNextGroup(groups: Groups, families: set<string>, g: nat, ok: bool, lines: string)
    returns (thrown: bool, ok': bool, lines': string)
    requires g < |groups| && !GroupsThrowUpTo(groups, g)
    requires ok == GroupsOkUpTo(groups, families, g) && lines == GroupsMessages(groups, families, g)
    ensures thrown <==> GroupsThrowUpTo(groups, g + 1)
    ensures thrown ==> GroupsThrowUpTo(groups, |groups|)
    ensures !thrown ==> ok' == GroupsOkUpTo(groups, families, g + 1)
    ensures !thrown ==> lines' == GroupsMessages(groups, families, g + 1)
  {
    var groupThrown, groupOk, groupLines := CheckGroup(groups[g].0, groups[g].1, families);
    GroupsThrowStep(groups, g);
    GroupsOkStep(groups, families, g + 1);
    GroupsMessagesNext(groups, families, g);
    thrown, ok', lines' := groupThrown, ok && groupOk, lines + groupLines;
  }

  lemma GroupThrowsStep(slots: seq<Slot>, k: nat)
    requires k < |slots|
    ensures GroupThrowsUpTo(slots, k + 1) <==> GroupThrowsUpTo(slots, k) || SlotThrows(slots[k])
    ensures GroupThrowsUpTo(slots, k + 1) ==> GroupThrowsUpTo(slots, |slots|)
  {
    GroupThrowsGrows(slots, k + 1, |slots|);
  }

  /** A throw among the first i slots is a throw among the first j. */
  lemma {:induction false} GroupThrowsGrows(slots: seq<Slot>, i: nat, j: nat)
    requires i <= j <= |slots|
    ensures GroupThrowsUpTo(slots, i) ==> GroupThrowsUpTo(slots, j)
    decreases j
  {
    if i < j {
      GroupThrowsGrows(slots, i, j - 1);
    }
  }

  lemma GroupsThrowStep(groups: Groups, g: nat)
    requires g < |groups|
    ensures GroupsThrowUpTo(groups, g + 1)
            <==> GroupsThrowUpTo(groups, g) || GroupThrowsUpTo(groups[g].1, |groups[g].1|)
    ensures GroupsThrowUpTo(groups, g + 1) ==> GroupsThrowUpTo(groups, |groups|)
  {
    GroupsThrowGrows(groups, g + 1, |groups|);
  }

  lemma {:induction false} GroupsThrowGrows(groups: Groups, i: nat, j: nat)
    requires i <= j <= |groups|
    ensures GroupsThrowUpTo(groups, i) ==> GroupsThrowUpTo(groups, j)
    decreases j
  {
    if i < j {
      GroupsThrowGrows(groups, i, j - 1);
    }
  }

  /** The loop over the slots of one group, with its expected_index counter; `thrown` when a member is null. */
  method CheckGroup(name: string, slots: seq<Slot>, families: set<string>) returns (thrown: bool, ok: bool, lines: string)
    ensures thrown <==> GroupThrowsUpTo(slots, |slots|)
    ensures !thrown ==> ok == GroupOkUpTo(slots, families, |slots|)
    ensures !thrown ==> lines == GroupMessages(name, slots, families, |slots|)
  {
    thrown, ok, lines := false, true, "";
    var expected := 0;
    while expected < |slots| && !thrown
      invariant expected <= |slots|
      invariant thrown ==> GroupThrowsUpTo(slots, |slots|)
      invariant !thrown ==> !GroupThrowsUpTo(slots, expected)
      invariant !thrown ==> ok == GroupOkUpTo(slots, families, expected)
      invariant !thrown ==> lines == GroupMessages(name, slots, families, expected)
    {
      thrown, ok, lines := CheckNextSlot(name, slots, families, expected, ok, lines);
      expected := expected + 1;
    }
  }

  /** One turn of the loop over a group's slots: the slot's verdict and message are added, unless it throws. */
  method CheckNextSlot(name: string, slots: seq<Slot>, families: set<string>, expected: nat, ok: bool, lines: string)
    returns (thrown: bool, ok': bool, lines': string)
    requires expected < |slots| && !GroupThrowsUpTo(slots, expected)
    requires ok == GroupOkUpTo(slots, families, expected) && lines == GroupMessages(name, slots, families, expected)
    ensures thrown <==> GroupThrowsUpTo(slots, expected + 1)
    ensures thrown ==> GroupThrowsUpTo(slots, |slots|)
    ensures !thrown ==> ok' == GroupOkUpTo(slots, families, expected + 1)
    ensures !thrown ==> lines' == GroupMessages(name, slots, families, expected + 1)
  {
    var slotThrown, slotOk, slotLines := CheckSlot(name, slots[expected], expected, families);
    GroupThrowsStep(slots, expected);
    GroupOkStep(slots, families, expected + 1);
    GroupMessagesNext(name, slots, families, expected);
    thrown, ok', lines' := slotThrown, ok && slotOk, lines + slotLines;
  }

  /**
   * One pass of the slot loop: the PosInGroup test, then the FamilyType
   * test; reading either member throws when it is null.
   */
  method CheckSlot(name: string, slot: Slot, expected: nat, families: set<string>)
    returns (thrown: bool, ok: bool, lines: string)
    ensures thrown <==> SlotThrows(slot)
    ensures !thrown ==> ok == SlotOk(slot, expected, families)
    ensures !thrown ==> lines == SlotMessage(name, slot, expected, families)
  {
    thrown, ok, lines := false, true, "";
    if slot.posInGroup.Null? {
      return true, false, "";
    }
    var pos := slot.posInGroup.GetOr(-1);
    if pos != expected {
      lines := lines + PosLine(name, pos, expected);
      ok := false;
    }
    ghost var mid := lines;
    if slot.familyType.Null? {
      return true, false, "";
    }
    var family := slot.familyType.GetOr("");
    if |family| == 0 || family !in families {
      lines := lines + FamilyLine(family);
      ok := false;
    }
    AppendParts(mid, lines, PosLine(name, pos, expected), FamilyLine(family),
                pos != expected, |family| == 0 || family !in families);
  }

  /** Two conditional appends in a row append the two conditional parts. */
  lemma AppendParts(mid: string, after: string, a: string, b: string, pa: bool, pb: bool)
    requires mid == if pa then "" + a else ""
    requires after == if pb then mid + b else mid
    ensures after == (if pa then a else "") + (if pb then b else "")
  {
  }

  /** The loop over the rows of MapGroups. */
  method CheckMapGroups(test: GroupTest, groups: Groups, rows: seq<Row>) returns (c: BlockCheck)
    ensures c == RowsCheck(test, groups, rows, |rows|)
  {
    c := Pass;
    var k := 0;
    while k < |rows| && c.Pass?
      invariant k <= |rows|
      invariant c == RowsCheck(test, groups, rows, k)
    {
      c := CheckRow(test, groups, rows[k].key, rows[k].blocks);
      RowsCheckNext(test, groups, rows, k);
      k := k + 1;
    }
    RowsCheckStops(test, groups, rows, k);
  }

  lemma RowsCheckNext(test: GroupTest, groups: Groups, rows: seq<Row>, k: nat)
    requires k < |rows| && RowsCheck(test, groups, rows, k) == Pass
    ensures RowsCheck(test, groups, rows, k + 1) == BlocksCheck(test, groups, rows[k].key, rows[k].blocks, |rows[k].blocks|)
  {
  }

  /** Once a prefix of the rows fails, the outcome stays that failure. */
  lemma {:induction false} RowsCheckStops(test: GroupTest, groups: Groups, rows: seq<Row>, k: nat)
    requires k <= |rows| && (k == |rows| || !RowsCheck(test, groups, rows, k).Pass?)
    ensures RowsCheck(test, groups, rows, |rows|) == RowsCheck(test, groups, rows, k)
    decreases |rows| - k
  {
    if k < |rows| {
      RowsCheckStops(test, groups, rows, k + 1);
    }
  }

  /** The loop over the blocks of one row, with its asic_col counter. */
  method CheckRow(test: GroupTest, groups: Groups, rowKey: string, blocks: seq<Block>) returns (c: BlockCheck)
    ensures c == BlocksCheck(test, groups, rowKey, blocks, |blocks|)
  {
    c := Pass;
    var col := 0;
    while col < |blocks| && c.Pass?
      invariant col <= |blocks|
      invariant c == BlocksCheck(test, groups, rowKey, blocks, col)
    {
      c := CheckBlock(test, groups, rowKey, col, blocks[col]);
      BlocksCheckNext(test, groups, rowKey, blocks, col);
      col := col + 1;
    }
    BlocksCheckStops(test, groups, rowKey, blocks, col);
  }

  lemma BlocksCheckNext(test: GroupTest, groups: Groups, rowKey: string, blocks: seq<Block>, k: nat)
    requires k < |blocks| && BlocksCheck(test, groups, rowKey, blocks, k) == Pass
    ensures BlocksCheck(test, groups, rowKey, blocks, k + 1) == BlockCheckOf(test, groups, rowKey, k, blocks[k])
  {
  }

  /** Once a prefix of the blocks fails, the outcome stays that failure. */
  lemma {:induction false} BlocksCheckStops(test: GroupTest, groups: Groups, rowKey: string, blocks: seq<Block>, k: nat)
    requires k <= |blocks| && (k == |blocks| || !BlocksCheck(test, groups, rowKey, blocks, k).Pass?)
    ensures BlocksCheck(test, groups, rowKey, blocks, |blocks|) == BlocksCheck(test, groups, rowKey, blocks, k)
    decreases |blocks| - k
  {
    if k < |blocks| {
      BlocksCheckStops(test, groups, rowKey, blocks, k + 1);
    }
  }

  /** One block: the group lookup, the four lists, their sizes and the one-property rule. */
  method CheckBlock(test: GroupTest, groups: Groups, rowKey: string, col: int, b: Block) returns (c: BlockCheck)
    ensures c == BlockCheckOf(test, groups, rowKey, col, b)
  {
    if b.groupName.None? {
      return Throw;
    }
    var name := b.groupName.value;
    var slots := FindGroup(groups, name);
    var gSize := if slots.Some? then |slots.value| else 0;
    if test.Corrected? && slots.None? {
      return Reject(rowKey, col, GroupNotFound(name));
    }
    var e := ParseRange(gSize, b.existing, []);
    var d := ParseRange(gSize, b.damaged, []);
    var cv := ParseRange(gSize, b.covered, []);
    var i := ParseRange(gSize, b.integer, []);
    if !(e.0 && d.0 && cv.0 && i.0) {
      return Reject(rowKey, col, WrongArray);
    }
    if |e.1| != |d.1| + |cv.1| + |i.1| {
      return Reject(rowKey, col, SizeMismatch);
    }
    var bad := FindAmbiguous(e.1, d.1, cv.1, i.1);
    if bad.Some? {
      return Reject(rowKey, col, Ambiguous(bad.value));
    }
    return Pass;
  }

  /** The loop over the existing indices, counting for each the lists that hold it. */
  method FindAmbiguous(existing: seq<int>, damaged: seq<int>, covered: seq<int>, integer: seq<int>) returns (r: Option<int>)
    ensures r == FirstAmbiguous(existing, damaged, covered, integer)
  {
    var k := 0;
    while k < |existing|
      invariant k <= |existing|
      invariant FirstAmbiguous(existing, damaged, covered, integer) == FirstAmbiguous(existing[k..], damaged, covered, integer)
    {
      var found := CountProperties(existing[k], [damaged, covered, integer]);
      PropertyCountOne(existing[k], damaged, covered, integer);
      if found != 1 {
        return Some(existing[k]);
      }
      assert existing[k..][1..] == existing[k + 1..];
      k := k + 1;
    }
    r := None;
  }

  /** n_found: the number of lists that hold x. */
  method CountProperties(x: int, lists: seq<seq<int>>) returns (n: nat)
    ensures n == PropertyCount(x, lists)
  {
    n := 0;
    var k := 0;
    while k < |lists|
      invariant k <= |lists|
      invariant n == PropertyCount(x, lists[..k])
    {
      assert lists[..k + 1][..k] == lists[..k];
      if x in lists[k] {
        n := n + 1;
      }
      k := k + 1;
    }
    assert lists[..|lists|] == lists;
  }

  // ---------------------------------------------------------------------
  // What the check accepts

  /**
   * A block the check lets through: it names a group (a known one, under the
   * corrected test), its lists parse against that group's size, their sizes
   * agree and every existing index has one property.
   */
  predicate BlockOk(test: GroupTest, groups: Groups, b: Block)
  {
    && b.groupName.Some?
    && (test.Corrected? ==> FindGroup(groups, b.groupName.value).Some?)
    && var n := GroupSize(groups, b.groupName.value);
       var e := ParseRange(n, b.existing, []);
       var d := ParseRange(n, b.damaged, []);
       var c := ParseRange(n, b.covered, []);
       var i := ParseRange(n, b.integer, []);
       && e.0 && d.0 && c.0 && i.0
       && |e.1| == |d.1| + |c.1| + |i.1|
       && forall x :: x in e.1 ==> ExactlyOne(x, d.1, c.1, i.1)
  }

  /** A wafer map the check accepts. */
  predicate WellFormedMap(test: GroupTest, doc: WaferMap, families: set<string>)
  {
    && doc.groups.Some? && doc.rows.Some?
    && GroupsOkUpTo(doc.groups.value, families, |doc.groups.value|)
    && RowsOkUpTo(test, doc.groups.value, doc.rows.value, |doc.rows.value|)
  }

  predicate BlocksOkUpTo(test: GroupTest, groups: Groups, blocks: seq<Block>, k: nat)
    requires k <= |blocks|
  {
    forall j :: 0 <= j < k ==> BlockOk(test, groups, blocks[j])
  }

  predicate RowsOkUpTo(test: GroupTest, groups: Groups, rows: seq<Row>, k: nat)
    requires k <= |rows|
  {
    forall r :: 0 <= r < k ==> BlocksOkUpTo(test, groups, rows[r].blocks, |rows[r].blocks|)
  }

  lemma BlockCheckPasses(test: GroupTest, groups: Groups, rowKey: string, col: int, b: Block)
    ensures BlockCheckOf(test, groups, rowKey, col, b) == Pass <==> BlockOk(test, groups, b)
  {
    if b.groupName.Some? && (test.AsWritten? || FindGroup(groups, b.groupName.value).Some?) {
      var n := GroupSize(groups, b.groupName.value);
      var e := ParseRange(n, b.existing, []);
      var d := ParseRange(n, b.damaged, []);
      var c := ParseRange(n, b.covered, []);
      var i := ParseRange(n, b.integer, []);
      if e.0 && d.0 && c.0 && i.0 && |e.1| == |d.1| + |c.1| + |i.1| {
        var r := FirstAmbiguous(e.1, d.1, c.1, i.1);
        assert r.None? <==> forall x :: x in e.1 ==> ExactlyOne(x, d.1, c.1, i.1) by {
          assert forall x :: x in e.1 ==> exists k :: 0 <= k < |e.1| && e.1[k] == x;
        }
      }
    }
  }

  lemma {:induction false} BlocksCheckPasses(test: GroupTest, groups: Groups, rowKey: string, blocks: seq<Block>, k: nat)
    requires k <= |blocks|
    ensures BlocksCheck(test, groups, rowKey, blocks, k) == Pass <==> BlocksOkUpTo(test, groups, blocks, k)
  {
    if k > 0 {
      BlocksCheckPasses(test, groups, rowKey, blocks, k - 1);
      BlockCheckPasses(test, groups, rowKey, k - 1, blocks[k - 1]);
      BlocksOkStep(test, groups, blocks, k - 1);
      PassStep(BlocksCheck(test, groups, rowKey, blocks, k - 1), BlockCheckOf(test, groups, rowKey, k - 1, blocks[k - 1]),
               BlocksCheck(test, groups, rowKey, blocks, k),
               BlocksOkUpTo(test, groups, blocks, k - 1), BlockOk(test, groups, blocks[k - 1]), BlocksOkUpTo(test, groups, blocks, k));
    }
  }

  lemma BlocksOkStep(test: GroupTest, groups: Groups, blocks: seq<Block>, k: nat)
    requires k < |blocks|
    ensures BlocksOkUpTo(test, groups, blocks, k + 1)
            <==> BlocksOkUpTo(test, groups, blocks, k) && BlockOk(test, groups, blocks[k])
  {
  }

  lemma {:induction false} RowsCheckPasses(test: GroupTest, groups: Groups, rows: seq<Row>, k: nat)
    requires k <= |rows|
    ensures RowsCheck(test, groups, rows, k) == Pass <==> RowsOkUpTo(test, groups, rows, k)
  {
    if k > 0 {
      var r := rows[k - 1];
      RowsCheckPasses(test, groups, rows, k - 1);
      BlocksCheckPasses(test, groups, r.key, r.blocks, |r.blocks|);
      RowsOkStep(test, groups, rows, k - 1);
      PassStep(RowsCheck(test, groups, rows, k - 1), BlocksCheck(test, groups, r.key, r.blocks, |r.blocks|),
               RowsCheck(test, groups, rows, k),
               RowsOkUpTo(test, groups, rows, k - 1), BlocksOkUpTo(test, groups, r.blocks, |r.blocks|), RowsOkUpTo(test, groups, rows, k));
    }
  }

  /** One step of a first-failure scan: it passes exactly when the part before and the new part both pass. */
  lemma PassStep(before: BlockCheck, next: BlockCheck, after: BlockCheck, okBefore: bool, okNext: bool, okAfter: bool)
    requires after == if before.Pass? then next else before
    requires before == Pass <==> okBefore
    requires next == Pass <==> okNext
    requires okAfter <==> okBefore && okNext
    ensures after == Pass <==> okAfter
  {
  }

  lemma RowsOkStep(test: GroupTest, groups: Groups, rows: seq<Row>, k: nat)
    requires k < |rows|
    ensures RowsOkUpTo(test, groups, rows, k + 1)
            <==> RowsOkUpTo(test, groups, rows, k) && BlocksOkUpTo(test, groups, rows[k].blocks, |rows[k].blocks|)
  {
  }

  /**
   * The check accepts a wafer map exactly when the map is well formed, and
   * then leaves the incoming error text as it was.
   */
  lemma AcceptsWellFormed(test: GroupTest, doc: WaferMap, families: set<string>, errIn: string)
    ensures WaferMapVerdict(test, doc, families, errIn) == Verdict(true, errIn) <==> WellFormedMap(test, doc, families)
    ensures WaferMapVerdict(test, doc, families, errIn).Verdict? && WaferMapVerdict(test, doc, families, errIn).ok <==> WellFormedMap(test, doc, families)
  {
    var groups := doc.groups.GetOr([]);
    var rows := doc.rows.GetOr([]);
    RowsCheckPasses(test, groups, rows, |rows|);
    GroupsMessagesEmpty(groups, families, |groups|);
    if GroupsOkUpTo(groups, families, |groups|) {
      OkGroupsDoNotThrow(groups, families, |groups|);
    }
    if GroupsOkUpTo(groups, families, |groups|) {
      assert errIn + "" + "" == errIn;
    }
  }

  /**
   * Without a block failure the check ends with a verdict exactly when no
   * slot member is null, and the group lines are then appended after the
   * incoming text.
   */
  lemma GroupLinesAppended(test: GroupTest, doc: WaferMap, families: set<string>, errIn: string)
    requires RowsCheck(test, doc.groups.GetOr([]), doc.rows.GetOr([]), |doc.rows.GetOr([])|).Pass?
    ensures WaferMapVerdict(test, doc, families, errIn).Verdict?
            <==> !GroupsThrowUpTo(doc.groups.GetOr([]), |doc.groups.GetOr([])|)
    ensures WaferMapVerdict(test, doc, families, errIn).Verdict? ==>
              StartsWith(WaferMapVerdict(test, doc, families, errIn).err, errIn)
  {
  }

  /**
   * A block failure replaces the error text: the incoming text plays no part
   * in it, and the map is not accepted.
   */
  lemma BlockFailureOverwrites(test: GroupTest, doc: WaferMap, families: set<string>, errIn: string, errIn': string)
    requires RowsCheck(test, doc.groups.GetOr([]), doc.rows.GetOr([]), |doc.rows.GetOr([])|).Reject?
    ensures WaferMapVerdict(test, doc, families, errIn) == WaferMapVerdict(test, doc, families, errIn')
    ensures WaferMapVerdict(test, doc, families, errIn) != Verdict(true, errIn)
    ensures WaferMapVerdict(test, doc, families, errIn).Verdict? ==> !WaferMapVerdict(test, doc, families, errIn).ok
  {
  }

  /** A slot whose FamilyType is null ends the check in the library's type error. */
  lemma NullFamilyThrows(test: GroupTest, doc: WaferMap, errIn: string)
    requires doc == WaferMap(Some([("Group1", [Slot(Present(0), Null)])]), Some([]))
    ensures WaferMapVerdict(test, doc, {"NKF7"}, errIn) == TypeError
  {
  }

  /**
   * With the FamilyType member missing instead, the same map gets a verdict:
   * it is refused, with the line for an empty family.
   */
  lemma AbsentFamilyRefused(test: GroupTest, doc: WaferMap, errIn: string)
    requires doc == WaferMap(Some([("Group1", [Slot(Present(0), Absent)])]), Some([]))
    ensures WaferMapVerdict(test, doc, {"NKF7"}, errIn) == Verdict(false, errIn + FamilyLine(""))
  {
    var groups := doc.groups.value;
    var slots := groups[0].1;
    assert !GroupsThrowUpTo(groups, 1) by {
      GroupsThrowStep(groups, 0);
      GroupThrowsStep(slots, 0);
    }
    assert !GroupsOkUpTo(groups, {"NKF7"}, 1) by {
      assert !SlotOk(slots[0], 0, {"NKF7"});
      assert !GroupOkUpTo(slots, {"NKF7"}, 1);
    }
    assert GroupsMessages(groups, {"NKF7"}, 1) == FamilyLine("") by {
      assert SlotMessage("Group1", slots[0], 0, {"NKF7"}) == FamilyLine("");
      GroupMessagesNext("Group1", slots, {"NKF7"}, 0);
      GroupsMessagesNext(groups, {"NKF7"}, 0);
    }
    assert RowsCheck(test, groups, [], 0) == Pass;
    assert errIn + "" == errIn;
  }



  // ---------------------------------------------------------------------
  // The unknown-group test as written and corrected

  /** The two lookups agree on every block whose group exists. */
  lemma AsWrittenAgreesOnKnownGroups(groups: Groups, rowKey: string, col: int, b: Block)
    requires b.groupName.Some? && FindGroup(groups, b.groupName.value).Some?
    ensures BlockCheckOf(AsWritten, groups, rowKey, col, b) == BlockCheckOf(Corrected, groups, rowKey, col, b)
  {
  }

  /** Every map the corrected check accepts, the check as written accepts too. */
  lemma {:induction false} CorrectedAcceptsLess(doc: WaferMap, families: set<string>)
    ensures WellFormedMap(Corrected, doc, families) ==> WellFormedMap(AsWritten, doc, families)
  {
    if WellFormedMap(Corrected, doc, families) {
      var groups, rows := doc.groups.value, doc.rows.value;
      forall r, j | 0 <= r < |rows| && 0 <= j < |rows[r].blocks|
        ensures BlockOk(AsWritten, groups, rows[r].blocks[j])
      {
        assert BlocksOkUpTo(Corrected, groups, rows[r].blocks, |rows[r].blocks|);
        assert BlockOk(Corrected, groups, rows[r].blocks[j]);
      }
    }
  }

  /**
   * A block naming a group that does not exist, with all four lists absent,
   * passes the check as written, though the evident intent is to reject it.
   */
  lemma UnknownGroupAccepted(groups: Groups, b: Block)
    requires groups == [("Group1", [Slot(Present(0), Present("NKF7"))])]
    requires b == Block(Some("Group7"), None, None, None, None)
    ensures BlockCheckOf(AsWritten, groups, "MapGroupsRow1", 0, b) == Pass
    ensures BlockCheckOf(Corrected, groups, "MapGroupsRow1", 0, b) == Reject("MapGroupsRow1", 0, GroupNotFound("Group7"))
  {
    assert FindGroup(groups, "Group7") == None;
    assert FirstAmbiguous([], [], [], []) == None;
  }

  /**
   * Lifted to the whole map: a wafer map whose only block names an unknown
   * group is stored by the check as written, with the incoming error text
   * untouched, and refused by the corrected one.
   */
  lemma UnknownGroupMapAccepted(doc: WaferMap, errIn: string)
    requires doc == WaferMap(Some([("Group1", [Slot(Present(0), Present("NKF7"))])]),
                             Some([Row("MapGroupsRow1", [Block(Some("Group7"), None, None, None, None)])]))
    ensures WaferMapVerdict(AsWritten, doc, {"NKF7"}, errIn) == Verdict(true, errIn)
    ensures WaferMapVerdict(Corrected, doc, {"NKF7"}, errIn)
            == Verdict(false, BlockMessage("MapGroupsRow1", 0, GroupNotFound("Group7")))
  {
    var groups, rows := doc.groups.value, doc.rows.value;
    var b := rows[0].blocks[0];
    UnknownGroupAccepted(groups, b);
    assert BlocksCheck(AsWritten, groups, "MapGroupsRow1", rows[0].blocks, 1) == Pass;
    assert RowsCheck(AsWritten, groups, rows, 1) == Pass;
    assert BlocksCheck(Corrected, groups, "MapGroupsRow1", rows[0].blocks, 1).Reject?;
    assert RowsCheck(Corrected, groups, rows, 1).Reject?;
    assert GroupOkUpTo(groups[0].1, {"NKF7"}, 1) by {
      assert SlotOk(groups[0].1[0], 0, {"NKF7"});
    }
    assert GroupsOkUpTo(groups, {"NKF7"}, 1) by {
      GroupsOkStep(groups, {"NKF7"}, 1);
    }
    OkGroupsDoNotThrow(groups, {"NKF7"}, |groups|);
    AcceptsWellFormed(AsWritten, doc, {"NKF7"}, errIn);
  }
}
