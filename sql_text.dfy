// The string helpers shared by the agents' SQL builders: double-quoting an
// identifier, prefixing the schema, joining on a delimiter (with or without a
// prefix on every element) and the text of an "IN (...)" clause. The join
// loops and the IN loop are written as the programs write them and proved
// against Text.Join.
module SqlText {
  import opened Wrappers
  import opened Text

  /** formatStr: the identifier between double quotes. */
  function FormatStr(s: string): (r: string)
    ensures |r| == |s| + 2
    ensures r[0] == '"' && r[|r| - 1] == '"' && r[1..|r| - 1] == s
  {
    "\"" + s + "\""
  }

  /** Every name in double quotes, in order. */
  function Quoted(names: seq<string>): (r: seq<string>)
    ensures |r| == |names| && forall i :: 0 <= i < |names| ==> r[i] == FormatStr(names[i])
  {
    seq(|names|, i requires 0 <= i < |names| => FormatStr(names[i]))
  }

  /** addSchema: "<schema>.<name>". */
  function AddSchema(schema: string, name: string): (r: string)
    ensures |r| == |schema| + 1 + |name|
    ensures r[..|schema|] == schema && r[|schema|] == '.' && r[|schema| + 1..] == name
  {
    schema + "." + name
  }

  /**
   * A JSON value handed to the JSON overloads of the builders: an integer, a
   * string, null, or anything else (a boolean, array or object), for which
   * the overloads add nothing.
   */
  datatype JsonValue = JsonNull | JsonInt(i: int) | JsonString(s: string) | JsonOther

  /** The term getPkString writes for one primary key. */
  function PkTerm(key: string): string
  {
    "T1." + key + " = T2." + key
  }

  /** Every element with the prefix put in front of it. */
  function Prefixed(parts: seq<string>, prefix: string): (r: seq<string>)
    ensures |r| == |parts|
    ensures forall i :: 0 <= i < |parts| ==> r[i] == prefix + parts[i]
  {
    seq(|parts|, i requires 0 <= i < |parts| => prefix + parts[i])
  }

  /** The decimal rendering of every value. */
  function Decimals(values: seq<int>): (r: seq<string>)
    ensures |r| == |values|
    ensures forall i :: 0 <= i < |values| ==> r[i] == IntToString(values[i])
  {
    seq(|values|, i requires 0 <= i < |values| => IntToString(values[i]))
  }

  /** The clause addWhereIn adds for a non-empty list of values. */
  function InClause(column: string, values: seq<int>): string
  {
    column + " IN (" + Join(Decimals(values), ",") + ")"
  }

  // ---------------------------------------------------------------------
  // The loops

  /** stringJoin: each element, then the delimiter unless it is the last one. */
  method StringJoin(strings: seq<string>, delimiter: string) returns (joined: string)
    ensures joined == Join(strings, delimiter)
  {
    joined := "";
    var i := 0;
    while i < |strings|
      invariant i <= |strings|
      invariant joined == JoinedUpTo(strings, delimiter, i)
    {
      JoinedUpToNext(strings, delimiter, i);
      joined := joined + strings[i];
      if i != |strings| - 1 {
        joined := joined + delimiter;
      }
      i := i + 1;
    }
    assert strings[..|strings|] == strings;
  }

  /** stringJoinPrefix: the same loop with the prefix put before every element. */
  method StringJoinPrefix(strings: seq<string>, prefix: string, delimiter: string) returns (joined: string)
    ensures joined == Join(Prefixed(strings, prefix), delimiter)
  {
    ghost var parts := Prefixed(strings, prefix);
    joined := "";
    var i := 0;
    while i < |strings|
      invariant i <= |strings|
      invariant joined == JoinedUpTo(parts, delimiter, i)
    {
      JoinedUpToNext(parts, delimiter, i);
      joined := joined + prefix;
      joined := joined + strings[i];
      if i != |strings| - 1 {
        joined := joined + delimiter;
      }
      i := i + 1;
    }
    assert parts[..|parts|] == parts;
  }

  /** The clause text built by addWhereIn's loop. */
  method InClauseText(column: string, values: seq<int>) returns (clause: string)
    ensures clause == InClause(column, values)
  {
    ghost var parts := Decimals(values);
    var list := "";
    var i := 0;
    while i < |values|
      invariant i <= |values|
      invariant list == JoinedUpTo(parts, ",", i)
    {
      JoinedUpToNext(parts, ",", i);
      list := list + IntToString(values[i]);
      if i < |values| - 1 {
        list := list + ",";
      }
      i := i + 1;
    }
    assert parts[..|parts|] == parts;
    clause := column + " IN (" + list + ")";
  }

  /** getPkString: one "T1.k = T2.k" term per key, joined with " AND ". */
  method PkString(keys: seq<string>) returns (pk: string)
    ensures pk == Join(PkTerms(keys), " AND ")
  {
    ghost var parts := PkTerms(keys);
    pk := "";
    var i := 0;
    while i < |keys|
      invariant i <= |keys|
      invariant pk == JoinedUpTo(parts, " AND ", i)
    {
      JoinedUpToNext(parts, " AND ", i);
      pk := pk + PkTerm(keys[i]);
      if i != |keys| - 1 {
        pk := pk + " AND ";
      }
      i := i + 1;
    }
    assert parts[..|parts|] == parts;
  }

  function PkTerms(keys: seq<string>): (r: seq<string>)
    ensures |r| == |keys|
    ensures forall i :: 0 <= i < |keys| ==> r[i] == PkTerm(keys[i])
  {
    seq(|keys|, i requires 0 <= i < |keys| => PkTerm(keys[i]))
  }

  /** What a join loop has built after its first i elements. */
  function JoinedUpTo(parts: seq<string>, sep: string, i: nat): string
    requires i <= |parts|
  {
    if i == 0 then ""
    else if i < |parts| then Join(parts[..i], sep) + sep
    else Join(parts[..i], sep)
  }

  lemma JoinedUpToNext(parts: seq<string>, sep: string, i: nat)
    requires i < |parts|
    ensures JoinedUpTo(parts, sep, i + 1)
            == JoinedUpTo(parts, sep, i) + parts[i] + (if i != |parts| - 1 then sep else "")
  {
    assert parts[..i + 1] == parts[..i] + [parts[i]];
    if i > 0 {
      JoinSnoc(parts[..i], parts[i], sep);
    } else {
      assert Join([parts[0]], sep) == parts[0];
    }
  }

  // ---------------------------------------------------------------------
  // Properties of the joined text

  /** The join starts with its first element and ends with its last one. */
  lemma {:induction false} JoinEnds(parts: seq<string>, sep: string)
    requires 0 < |parts|
    ensures var s := Join(parts, sep);
            StartsWith(s, parts[0]) && |parts[|parts| - 1]| <= |s|
            && s[|s| - |parts[|parts| - 1]|..] == parts[|parts| - 1]
  {
    if |parts| > 1 {
      JoinEnds(parts[1..], sep);
      var s := Join(parts, sep);
      assert s == parts[0] + sep + Join(parts[1..], sep);
      assert s[..|parts[0]|] == parts[0];
    }
  }

  /** The empty list joins to "", a single element to itself. */
  lemma JoinSmall(parts: seq<string>, sep: string)
    requires |parts| <= 1
    ensures Join(parts, sep) == if |parts| == 0 then "" else parts[0]
  {
  }

  /** The rendering of an int holds no comma. */
  lemma DecimalHasNoComma(i: int)
    ensures ',' !in IntToString(i)
  {
    IntToStringShape(i);
    var s := IntToString(i);
    forall k | 0 <= k < |s|
      ensures s[k] != ','
    {
    }
  }

  /**
   * The value list of an IN clause has exactly one comma fewer than there are
   * values, and cutting it at the commas gives back the decimal renderings.
   */
  lemma InListShape(values: seq<int>)
    requires 0 < |values|
    ensures var list := Join(Decimals(values), ",");
            Split(list, ',') == Decimals(values)
            && multiset(list)[','] == |values| - 1
  {
    var parts := Decimals(values);
    forall k | 0 <= k < |parts|
      ensures ',' !in parts[k]
    {
      DecimalHasNoComma(values[k]);
    }
    SplitJoin(parts, ',');
    SplitCount(Join(parts, ","), ',');
  }

  /** Every piece of an IN list reads back as the value it renders. */
  lemma InListRoundTrip(values: seq<int>, k: nat)
    requires k < |values|
    ensures var pieces := Split(Join(Decimals(values), ","), ',');
            |pieces| == |values| && ParseInt(pieces[k]) == Some(values[k])
  {
    InListShape(values);
    IntToStringRoundTrip(values[k]);
  }
}
