// The enum registry of the SVT agent: for every enum type the values read for
// it, a map kept in ascending key order; the splitter that turns the text
// PostgreSQL returns for enum_range(...) into values; the schema filter on
// the enum types the catalogue lists; and the reply carrying the values of
// the requested types. The database is an input: the catalogue rows and the
// enum_range text are parameters.
module EnumRegistry {
  import opened Wrappers
  import opened Text
  import opened DbValue

  // ---------------------------------------------------------------------
  // Key order

  /** a comes strictly before b in std::string order: character by character, a proper prefix first. */
  predicate Below(a: string, b: string)
  {
    0 < |b| && (|a| == 0 || a[0] < b[0] || (a[0] == b[0] && Below(a[1..], b[1..])))
  }

  lemma {:induction false} BelowIrreflexive(a: string)
    ensures !Below(a, a)
  {
    if 0 < |a| {
      BelowIrreflexive(a[1..]);
    }
  }

  lemma {:induction false} BelowTransitive(a: string, b: string, c: string)
    requires Below(a, b) && Below(b, c)
    ensures Below(a, c)
  {
    if 0 < |a| && a[0] == b[0] && b[0] == c[0] {
      BelowTransitive(a[1..], b[1..], c[1..]);
    }
  }

  lemma {:induction false} BelowTotal(a: string, b: string)
    requires a != b
    ensures Below(a, b) || Below(b, a)
  {
    if 0 < |a| && 0 < |b| && a[0] == b[0] {
      assert a == [a[0]] + a[1..] && b == [b[0]] + b[1..];
      BelowTotal(a[1..], b[1..]);
    }
  }

  /** Strictly ascending, so every key once, in the order std::map iterates. */
  predicate Ascending(keys: seq<string>)
  {
    forall i, j :: 0 <= i < j < |keys| ==> Below(keys[i], keys[j])
  }

  /** Two ascending sequences of the same keys are the same sequence: the key order is determined. */
  lemma {:induction false} AscendingDetermined(a: seq<string>, b: seq<string>)
    requires Ascending(a) && Ascending(b)
    requires forall t :: t in a <==> t in b
    ensures a == b
  {
    if 0 < |a| {
      assert a[0] in b;
      assert 0 < |b|;
      if a[0] != b[0] {
        assert b[0] in a;
        var i :| 0 <= i < |a| && a[i] == b[0];
        var j :| 0 <= j < |b| && b[j] == a[0];
        assert Below(a[0], b[0]);
        assert Below(b[0], a[0]);
        BelowTransitive(a[0], b[0], a[0]);
        BelowIrreflexive(a[0]);
      }
      forall t | t in a[1..]
        ensures t in b[1..]
      {
        var k :| 0 <= k < |a[1..]| && a[1..][k] == t;
        assert a[k + 1] == t && t in a && t in b;
        BelowIrreflexive(a[0]);
        var j :| 0 <= j < |b| && b[j] == t;
        assert j != 0;
      }
      forall t | t in b[1..]
        ensures t in a[1..]
      {
        var k :| 0 <= k < |b[1..]| && b[1..][k] == t;
        assert b[k + 1] == t && t in b && t in a;
        BelowIrreflexive(b[0]);
        var i :| 0 <= i < |a| && a[i] == t;
        assert i != 0;
      }
      AscendingDetermined(a[1..], b[1..]);
      assert a == [a[0]] + a[1..] && b == [b[0]] + b[1..];
    } else if 0 < |b| {
      FirstIn(b);
      assert false;
    }
  }

  lemma FirstIn(s: seq<string>)
    requires 0 < |s|
    ensures s[0] in s
  {
  }

  // ---------------------------------------------------------------------
  // The map

  type EnumMap = map<string, seq<string>>

  /** GetEnumValues on a map: the list of a known type, an empty list otherwise. */
  function Lookup(m: EnumMap, t: string): seq<string>
  {
    if t in m then m[t] else []
  }

  /** The map after AddValue(t, v): enum_type_value_map[t] creates an empty list for a new type. */
  function Added(m: EnumMap, t: string, v: string): EnumMap
  {
    m[t := Lookup(m, t) + [v]]
  }

  /** Every registered type has at least one value. */
  predicate NonEmptyLists(m: EnumMap)
  {
    forall t :: t in m ==> 0 < |m[t]|
  }

  /** After AddValue(t, v) the list of t is one longer and ends with v; no other type changes. */
  lemma AddedLookup(m: EnumMap, t: string, v: string, u: string)
    ensures Lookup(Added(m, t, v), t) == Lookup(m, t) + [v]
    ensures |Lookup(Added(m, t, v), t)| == |Lookup(m, t)| + 1
    ensures u != t ==> Lookup(Added(m, t, v), u) == Lookup(m, u)
    ensures Added(m, t, v).Keys == m.Keys + {t}
  {
  }

  /** A type enters the map only with a value, so no registered type has an empty list. */
  lemma AddedKeepsNonEmpty(m: EnumMap, t: string, v: string)
    requires NonEmptyLists(m)
    ensures NonEmptyLists(Added(m, t, v))
  {
  }

  /** Adding the same value twice keeps both copies. */
  lemma AddedTwiceKeepsDuplicates(m: EnumMap, t: string, v: string)
    ensures Lookup(Added(Added(m, t, v), t, v), t) == Lookup(m, t) + [v, v]
  {
  }

  /** The enum registry: SvtDbAgentEnum, and SvtDbEnumDto on its static map. */
  class Registry {
    var values: EnumMap

    constructor()
      ensures values == map[]
    {
      values := map[];
    }

    /** AddValue / addValue. */
    method AddValue(t: string, v: string)
      modifies this
      ensures values == Added(old(values), t, v)
    {
      var list := GetEnumValues(t);
      values := values[t := list + [v]];
    }

    /** GetEnumValues / getEnumValues: a const read. */
    function GetEnumValues(t: string): seq<string>
      reads this
    {
      Lookup(values, t)
    }

    /** GetTypeNames / getTypeNames: the keys in the order the map iterates them. */
    method GetTypeNames() returns (keys: seq<string>)
      ensures Ascending(keys)
      ensures forall t :: t in keys <==> t in values
    {
      keys := [];
      var rest := values.Keys;
      while rest != {}
        invariant rest <= values.Keys
        invariant Ascending(keys)
        invariant forall t :: t in keys ==> t in values && t !in rest
        invariant forall t :: t in values ==> t in keys || t in rest
        invariant forall i, t :: 0 <= i < |keys| && t in rest ==> Below(keys[i], t)
        decreases rest
      {
        var m := Smallest(rest);
        keys := keys + [m];
        rest := rest - {m};
      }
    }

    /** getAllEnumValuesReplyMsg: one array per requested type, holding its values. */
    method ValuesReply(types: seq<string>) returns (data: Reply)
      ensures data == ReplyOf(values, types)
    {
      data := [];
      for k := 0 to |types|
        invariant data == ReplyOf(values, types[..k])
      {
        var items := CopyValues(GetEnumValues(types[k]));
        assert types[..k + 1][..k] == types[..k];
        data := Put(data, types[k], items);
      }
      assert types[..|types|] == types;
    }

    /** getAllEnumValues: the requested names, or every registered type when "enumNames" is absent. */
    method GetAllEnumValues(enumNames: Option<seq<string>>) returns (data: Reply)
      ensures enumNames.Some? ==> data == ReplyOf(values, enumNames.value)
      ensures enumNames.None? ==> Ascending(Keys(data)) && (forall t :: t in Keys(data) <==> t in values)
      ensures forall i :: 0 <= i < |data| ==> data[i].1 == Lookup(values, data[i].0)
    {
      var types: seq<string>;
      if enumNames.Some? {
        types := enumNames.value;
      } else {
        types := GetTypeNames();
        AscendingDistinct(types);
        ReplyKeysOfDistinct(values, types);
      }
      data := ValuesReply(types);
      ReplyEntries(values, types);
    }
  }

  /** The inner loop of the reply: a fresh array, every value pushed in order. */
  method CopyValues(list: seq<string>) returns (items: seq<string>)
    ensures items == list
  {
    items := [];
    for j := 0 to |list|
      invariant items == list[..j]
    {
      items := items + [list[j]];
    }
  }

  /** The smallest key of a non-empty set. */
  method Smallest(s: set<string>) returns (m: string)
    requires s != {}
    ensures m in s && forall t :: t in s && t != m ==> Below(m, t)
  {
    m :| m in s;
    var rest := s - {m};
    while rest != {}
      invariant m in s && m !in rest && rest <= s
      invariant forall t :: t in s && t !in rest && t != m ==> Below(m, t)
      decreases rest
    {
      var t :| t in rest;
      if Below(t, m) {
        forall u | u in s && u !in rest && u != t && u != m
          ensures Below(t, u)
        {
          BelowTransitive(t, m, u);
        }
        m := t;
      } else {
        BelowTotal(t, m);
      }
      rest := rest - {t};
    }
  }

  // ---------------------------------------------------------------------
  // The reply

  /** The reply data: an ordered JSON object from type name to values. */
  type Reply = seq<(string, seq<string>)>

  /** The names of the reply, in order. */
  function Keys(data: Reply): (r: seq<string>)
    ensures |r| == |data|
  {
    if |data| == 0 then [] else [data[0].0] + Keys(data[1..])
  }

  lemma {:induction false} KeysAt(data: Reply, i: nat)
    requires i < |data|
    ensures Keys(data)[i] == data[i].0
  {
    if 0 < i {
      KeysAt(data[1..], i - 1);
    }
  }

  /** data[key] = value: an existing key keeps its place and takes the new value, a new key goes last. */
  function Put(data: Reply, key: string, value: seq<string>): (r: Reply)
    ensures forall i :: 0 <= i < |r| ==> (r[i].0 == key && r[i].1 == value) || r[i] in data
  {
    if |data| == 0 then [(key, value)]
    else if data[0].0 == key then [(key, value)] + data[1..]
    else [data[0]] + Put(data[1..], key, value)
  }

  /** Put keeps the names in place and adds a new one at the end. */
  lemma {:induction false} PutKeys(data: Reply, key: string, value: seq<string>)
    ensures key in Keys(data) ==> Keys(Put(data, key, value)) == Keys(data)
    ensures key !in Keys(data) ==> Keys(Put(data, key, value)) == Keys(data) + [key]
  {
    if 0 < |data| && data[0].0 != key {
      PutKeys(data[1..], key, value);
    }
  }

  /** The reply for the requested types, in order. */
  function ReplyOf(m: EnumMap, types: seq<string>): Reply
  {
    if |types| == 0 then []
    else
      var last := types[|types| - 1];
      Put(ReplyOf(m, types[..|types| - 1]), last, Lookup(m, last))
  }

  predicate Distinct(keys: seq<string>)
  {
    forall i, j :: 0 <= i < j < |keys| ==> keys[i] != keys[j]
  }

  lemma AscendingDistinct(keys: seq<string>)
    requires Ascending(keys)
    ensures Distinct(keys)
  {
    forall i, j | 0 <= i < j < |keys|
      ensures keys[i] != keys[j]
    {
      BelowIrreflexive(keys[i]);
    }
  }

  /**
   * Every requested type is in the reply with its values (an empty array for
   * an unknown type), and the reply holds nothing else; each name appears
   * once, at its first request.
   */
  lemma {:induction false} ReplyEntries(m: EnumMap, types: seq<string>)
    ensures var r := ReplyOf(m, types);
            && (forall i :: 0 <= i < |r| ==> r[i].1 == Lookup(m, r[i].0))
            && (forall t :: t in Keys(r) <==> t in types)
            && Distinct(Keys(r))
  {
    if 0 < |types| {
      var init := types[..|types| - 1];
      var last := types[|types| - 1];
      ReplyEntries(m, init);
      PutKeys(ReplyOf(m, init), last, Lookup(m, last));
      assert types == init + [last];
    }
  }

  /** With no name requested twice, the reply's keys are the requested names in order. */
  lemma {:induction false} ReplyKeysOfDistinct(m: EnumMap, types: seq<string>)
    requires Distinct(types)
    ensures Keys(ReplyOf(m, types)) == types
  {
    if 0 < |types| {
      var init := types[..|types| - 1];
      ReplyKeysOfDistinct(m, init);
      PutKeys(ReplyOf(m, init), types[|types| - 1], Lookup(m, types[|types| - 1]));
      assert types[|types| - 1] !in init;
      assert types == init + [types[|types| - 1]];
    }
  }

  // ---------------------------------------------------------------------
  // The enum_range splitter

  /** std::string_view::find(c, from): the first index at or after from holding c, None for npos. */
  function FindFrom(s: string, c: char, from: nat): (r: Option<nat>)
    requires from <= |s|
    ensures r.Some? ==> from <= r.value < |s| && s[r.value] == c && c !in s[from..r.value]
    ensures r.None? ==> c !in s[from..]
    decreases |s| - from
  {
    if from == |s| then None
    else if s[from] == c then Some(from)
    else
      var r := FindFrom(s, c, from + 1);
      assert s[from..] == [s[from]] + s[from + 1..];
      assert r.Some? ==> s[from..r.value] == [s[from]] + s[from + 1..r.value];
      r
  }

  /** std::string_view::find_last_of(c): the last index holding c, None for npos. */
  function FindLast(s: string, c: char): (r: Option<nat>)
    ensures r.Some? ==> r.value < |s| && s[r.value] == c && c !in s[r.value + 1..]
    ensures r.None? ==> c !in s
  {
    if |s| == 0 then None
    else if s[|s| - 1] == c then Some(|s| - 1)
    else
      var r := FindLast(s[..|s| - 1], c);
      assert s == s[..|s| - 1] + [s[|s| - 1]];
      assert r.Some? ==> s[r.value + 1..] == s[..|s| - 1][r.value + 1..] + [s[|s| - 1]];
      r
  }

  /** Where the text is cut at the front: after the first '{', or nowhere when there is none (npos + 1 wraps to 0). */
  function Opening(text: string): (i: nat)
    ensures i <= |text|
    ensures '{' in text ==> 0 < i && text[i - 1] == '{' && '{' !in text[..i - 1]
    ensures '{' !in text ==> i == 0
  {
    match FindFrom(text, '{', 0)
    case None => 0
    case Some(i) => i + 1
  }

  /**
   * The text between the first '{' and the last '}' after it. With no '}'
   * left, remove_suffix is given more than the view holds, which the library
   * does not allow: None.
   */
  function EnumBody(text: string): (r: Option<string>)
    ensures r.None? <==> '}' !in text[Opening(text)..]
  {
    var res := text[Opening(text)..];
    match FindLast(res, '}')
    case None => None
    case Some(close) => Some(res[..close])
  }

  /** The values enum_range's text holds. */
  function EnumValues(text: string): Option<seq<string>>
  {
    match EnumBody(text)
    case None => None
    case Some(body) => Some(Split(body, ','))
  }

  /** The splitting loop of getAllEnumValuesInDB / getAllEnumValues. */
  method SplitEnumRange(text: string) returns (values: Option<seq<string>>)
    ensures values == EnumValues(text)
  {
    var res := text[Opening(text)..];
    var close := FindLast(res, '}');
    if close.None? {
      return None;
    }
    var parts := SplitOnCommas(res[..close.value]);
    values := Some(parts);
  }

  /** The start/end loop: a piece per comma found, then the piece after the last one. */
  method SplitOnCommas(res: string) returns (parts: seq<string>)
    ensures parts == Split(res, ',')
  {
    parts := [];
    var start := 0;
    var end := FindFrom(res, ',', 0);
    assert parts + Split(res[start..], ',') == Split(res, ',') by {
      assert res[0..] == res;
    }
    while end.Some?
      invariant start <= |res|
      invariant end == FindFrom(res, ',', start)
      invariant parts + Split(res[start..], ',') == Split(res, ',')
      decreases |res| - start
    {
      var e := end.value;
      ghost var before, from := parts, start;
      parts, start := parts + [res[start..e]], e + 1;
      SplitStep(res, before, from, e, parts, start);
      end := FindFrom(res, ',', start);
    }
    SplitLast(res, ',', start);
    parts := parts + [res[start..]];
  }

  /** One turn of the loop: the piece before the comma joins the pieces found. */
  lemma SplitStep(s: string, parts: seq<string>, start: nat, end: nat, parts': seq<string>, start': nat)
    requires start <= end < |s| && s[end] == ',' && ',' !in s[start..end]
    requires parts + Split(s[start..], ',') == Split(s, ',')
    requires parts' == parts + [s[start..end]] && start' == end + 1
    ensures parts' + Split(s[start'..], ',') == Split(s, ',')
  {
    SplitAt(s, ',', start, end);
    AppendAssociates(parts, [s[start..end]], Split(s[end + 1..], ','));
  }

  /** With no c left, the rest is the last piece. */
  lemma SplitLast(s: string, c: char, start: nat)
    requires start <= |s| && c !in s[start..]
    ensures Split(s[start..], c) == [s[start..]]
  {
  }

  /** Cutting at the first c from start: the piece up to it, then the pieces of the rest. */
  lemma SplitAt(s: string, c: char, start: nat, end: nat)
    requires start <= end < |s| && s[end] == c && c !in s[start..end]
    ensures Split(s[start..], c) == [s[start..end]] + Split(s[end + 1..], c)
  {
    var t := s[start..];
    assert t[end - start] == c;
    var i := IndexOf(t, c);
    assert t[..i] == s[start..end];
    assert t[i + 1..] == s[end + 1..];
  }

  /** There is one more value than there are commas, so always at least one. */
  lemma EnumValuesCount(text: string)
    requires EnumValues(text).Some?
    ensures |EnumValues(text).value| == multiset(EnumBody(text).value)[','] + 1
    ensures 1 <= |EnumValues(text).value|
  {
    SplitCount(EnumBody(text).value, ',');
  }

  /** Joining the values with ',' gives back the text between the braces. */
  lemma EnumValuesJoin(text: string)
    requires EnumValues(text).Some?
    ensures Join(EnumValues(text).value, ",") == EnumBody(text).value
  {
    JoinSplit(EnumBody(text).value, ',');
  }

  /** "{}" holds one empty value. */
  lemma EmptyBraces()
    ensures EnumValues("{}") == Some([""])
  {
    assert FindFrom("{}", '{', 0) == Some(0);
    assert "{}"[1..] == "}";
    assert FindLast("}", '}') == Some(0);
  }

  /** The braced list of values without commas reads back as those values. */
  lemma EnumValuesRoundTrip(values: seq<string>)
    requires 0 < |values|
    requires forall k :: 0 <= k < |values| ==> ',' !in values[k]
    ensures EnumValues("{" + Join(values, ",") + "}") == Some(values)
  {
    var body := Join(values, ",");
    var text := "{" + body + "}";
    assert text[0] == '{';
    assert FindFrom(text, '{', 0) == Some(0);
    assert text[1..] == body + "}";
    var res := body + "}";
    assert FindLast(res, '}') == Some(|body|);
    assert res[..|body|] == body;
    SplitJoin(values, ',');
  }

  // ---------------------------------------------------------------------
  // The schema filter

  /** What one catalogue row (schema, type name) contributes. */
  datatype RowTake = Skip | Take(name: string) | Broken

  /** Broken where row.at throws or a cell is a null pointer. */
  function SchemaRow(schema: string, row: seq<Cell>): RowTake
  {
    if |row| == 0 || row[0].None? then Broken
    else if row[0].value.GetString() != schema then Skip
    else if |row| < 2 || row[1].None? then Broken
    else Take(row[1].value.GetString())
  }

  /** getAllEnumTypesInDB on the rows of the catalogue query; None where it throws. */
  function TypesInSchema(schema: string, rows: seq<seq<Cell>>): (r: Option<seq<string>>)
    ensures r.Some? ==> |r.value| <= |rows|
  {
    if |rows| == 0 then Some([])
    else
      match TypesInSchema(schema, rows[..|rows| - 1])
      case None => None
      case Some(names) =>
        match SchemaRow(schema, rows[|rows| - 1])
        case Broken => None
        case Skip => Some(names)
        case Take(n) => Some(names + [n])
  }

  /** The filter runs row by row: the names of a + b are those of a, then those of b. */
  lemma {:induction false} TypesInSchemaAppend(schema: string, a: seq<seq<Cell>>, b: seq<seq<Cell>>)
    requires TypesInSchema(schema, a).Some? && TypesInSchema(schema, b).Some?
    ensures TypesInSchema(schema, a + b) == Some(TypesInSchema(schema, a).value + TypesInSchema(schema, b).value)
  {
    if 0 < |b| {
      var init := b[..|b| - 1];
      assert (a + b)[..|a + b| - 1] == a + init;
      assert (a + b)[|a + b| - 1] == b[|b| - 1];
      TypesInSchemaAppend(schema, a, init);
      var ta := TypesInSchema(schema, a).value;
      var ti := TypesInSchema(schema, init).value;
      match SchemaRow(schema, b[|b| - 1])
      case Take(n) => assert ta + ti + [n] == ta + (ti + [n]);
      case _ =>
    } else {
      assert a + b == a;
      assert TypesInSchema(schema, b).value == [];
      assert TypesInSchema(schema, a).value + [] == TypesInSchema(schema, a).value;
    }
  }

  /** One row: its name exactly when its schema cell is the schema asked for. */
  lemma TypesInSchemaOne(schema: string, row: seq<Cell>, name: string)
    requires |row| == 2 && row[0].Some? && row[1].Some?
    ensures row[0].value.GetString() == schema && row[1].value.GetString() == name
            ==> TypesInSchema(schema, [row]) == Some([name])
    ensures row[0].value.GetString() != schema ==> TypesInSchema(schema, [row]) == Some([])
  {
    assert [row][..|[row]| - 1] == [];
    assert [row][|[row]| - 1] == row;
    assert [] + [name] == [name];
  }

  /** Once a row is broken the whole filter fails. */
  lemma {:induction false} TypesInSchemaBroken(schema: string, rows: seq<seq<Cell>>, k: nat)
    requires k <= |rows| && TypesInSchema(schema, rows[..k]).None?
    ensures TypesInSchema(schema, rows).None?
    decreases |rows| - k
  {
    if k < |rows| {
      assert rows[..k + 1][..k] == rows[..k];
      TypesInSchemaBroken(schema, rows, k + 1);
    } else {
      assert rows[..k] == rows;
    }
  }

  /** The loop of getAllEnumTypesInDB: the output is cleared, then filled; it is cleared again where the program throws. */
  method GetAllEnumTypesInDB(schema: string, rows: seq<seq<Cell>>) returns (ok: bool, types: seq<string>)
    ensures ok == TypesInSchema(schema, rows).Some?
    ensures types == if ok then TypesInSchema(schema, rows).value else []
  {
    types := [];
    var k := 0;
    while k < |rows|
      invariant k <= |rows|
      invariant TypesInSchema(schema, rows[..k]) == Some(types)
    {
      assert rows[..k + 1][..k] == rows[..k];
      var row := rows[k];
      if |row| == 0 || row[0].None? {
        TypesInSchemaBroken(schema, rows, k + 1);
        return false, [];
      }
      if row[0].value.GetString() == schema {
        if |row| < 2 || row[1].None? {
          TypesInSchemaBroken(schema, rows, k + 1);
          return false, [];
        }
        types := types + [row[1].value.GetString()];
      }
      k := k + 1;
    }
    assert rows[..k] == rows;
    ok := true;
  }
}
