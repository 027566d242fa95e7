// The tagged cell value the database layer hands back for every column: a
// MultiType<int> or a MultiType<std::string> behind a MultiBase pointer. The
// type tag is fixed when the object is made; the accessors convert between
// the two kinds.
module DbValue {
  import opened Wrappers
  import opened Text

  /** The content of a cell: the instantiation it was made with and its value. */
  datatype Value = IntValue(i: int) | StringValue(s: string)
  {
    predicate IsInt() { IntValue? }

    /** No double instantiation is modelled, so this never holds. */
    predicate IsDouble() { false }

    predicate IsString() { StringValue? }

    predicate IsNumeric() { IsInt() || IsDouble() }

    /** getInt: the value of an int cell, 0 for a string cell. */
    function GetInt(): (r: int)
      ensures IsInt() ==> r == i
      ensures IsString() ==> r == 0
    {
      match this
      case IntValue(v) => v
      case StringValue(_) => 0
    }

    /** getString: the text of a string cell, the decimal rendering of an int cell. */
    function GetString(): (r: string)
      ensures IsString() ==> r == s
      ensures IsInt() ==> ParseInt(r) == Some(i)
    {
      match this
      case IntValue(v) => IntToStringRoundTrip(v); IntToString(v)
      case StringValue(v) => v
    }
  }

  /** A cell of a result row as the database layer hands it over; None is a null pointer. */
  type Cell = Option<Value>

  /** The int of a cell, or the default for a null cell. */
  function IntOr(c: Cell, default: int): int
  {
    if c.Some? then c.value.GetInt() else default
  }

  /** The text of a cell, or the default for a null cell. */
  function StringOr(c: Cell, default: string): string
  {
    if c.Some? then c.value.GetString() else default
  }

  /** Cell k of a row: None when the row is shorter or the cell is null. */
  function CellAt(row: seq<Cell>, k: nat): Cell
  {
    if k < |row| then row[k] else None
  }

  /** The same kind of value, so the one the C++ template parameter allows. */
  predicate SameKind(a: Value, b: Value)
  {
    a.IsInt() == b.IsInt()
  }

  /** A MultiType object: its value changes, its instantiation does not. */
  class MultiType {
    var value: Value

    /** MultiType(val) stores its argument. */
    constructor(v: Value)
      ensures value == v
    {
      value := v;
    }

    /** operator()(): the stored value. */
    method Get() returns (v: Value)
      ensures v == value
    {
      v := value;
    }

    /** operator()(val): stores val and returns it. */
    method Set(v: Value) returns (r: Value)
      requires SameKind(v, value)
      modifies this
      ensures value == v && r == v
    {
      value := v;
      r := value;
    }
  }

  /** Storing a value and reading it back gives that value; the kind never changes. */
  method SetThenGet(m: MultiType, v: Value) returns (r: Value)
    requires SameKind(v, m.value)
    modifies m
    ensures r == v && m.value.IsInt() == old(m.value.IsInt())
  {
    var _ := m.Set(v);
    r := m.Get();
  }
}
