// The parsed wafer-map document read by the Python SENTIO scripts and by the
// C++ agent. "Groups" maps a group name to its ordered die slots; "MapGroups"
// maps a row key to its blocks of columns ("MapGroupsColumns").
module WaferDoc {
  import opened Wrappers

  /**
   * An element of a JSON index list: an integer, a string, or anything else
   * (a boolean or null), which neither program treats as an index.
   */
  datatype Item = Num(n: int) | Str(s: string) | Other

  /**
   * A member of a JSON object: missing, present with the value null, or
   * present with a value. The readers tell the first two apart: the C++
   * `value(key, default)` gives the default for a missing member and throws
   * for a null one, and Python's `get(key, default)` gives the default for a
   * missing member and None for a null one.
   */
  datatype Member<T> = Absent | Null | Present(value: T)
  {
    /** The value, or `d` for a member that is missing or null. */
    function GetOr(d: T): T
    {
      if Present? then value else d
    }
  }

  /** One die slot of a group: its PosInGroup and FamilyType members. */
  datatype Slot = Slot(posInGroup: Member<int>, familyType: Member<string>)

  /**
   * One block of a row. A member that is absent is None; the C++ code treats
   * a JSON null the same way.
   */
  datatype Block = Block(
    groupName: Option<string>,
    existing: Option<seq<Item>>,
    damaged: Option<seq<Item>>,
    covered: Option<seq<Item>>,
    integer: Option<seq<Item>>)

  datatype Row = Row(key: string, blocks: seq<Block>)

  /** The "Groups" object, in the order the reading library iterates it; names are distinct. */
  type Groups = seq<(string, seq<Slot>)>

  /** The document; a top-level member that is missing is None. */
  datatype WaferMap = WaferMap(groups: Option<Groups>, rows: Option<seq<Row>>)

  /** The slots of the named group, if the document has that group. */
  function FindGroup(groups: Groups, name: string): (r: Option<seq<Slot>>)
    ensures r.Some? <==> exists k :: 0 <= k < |groups| && groups[k].0 == name
    ensures r.Some? ==> exists k :: 0 <= k < |groups| && groups[k] == (name, r.value)
  {
    if groups == [] then None
    else if groups[0].0 == name then Some(groups[0].1)
    else
      var r := FindGroup(groups[1..], name);
      assert forall k :: 1 <= k < |groups| ==> groups[k] == groups[1..][k - 1];
      r
  }
}
