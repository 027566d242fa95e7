// The request names of the SVT agent: the table that names every request
// type and the lookup from the name carried by a message to its type.
module Requests {
  /** The request types, in the order of their enumerators. */
  datatype RequestType = GetAllEnums | GetAllWaferTypes | CreateWaferType | GetAllWafers | CreateWafer | NotFound

  /** The name table, in the order the map iterates it (by enumerator value). */
  const RequestNames: seq<(RequestType, string)> := [
    (GetAllEnums, "GetAllEnums"),
    (GetAllWaferTypes, "GetAllWaferTypes"),
    (CreateWaferType, "CreateWaferType"),
    (GetAllWafers, "GetAllWafers"),
    (CreateWafer, "CreateWafer"),
    (NotFound, "NotFound")]

  /** The name the table gives a type. */
  function Name(t: RequestType): (r: string)
    ensures (t, r) in RequestNames
  {
    match t
    case GetAllEnums => "GetAllEnums"
    case GetAllWaferTypes => "GetAllWaferTypes"
    case CreateWaferType => "CreateWaferType"
    case GetAllWafers => "GetAllWafers"
    case CreateWafer => "CreateWafer"
    case NotFound => "NotFound"
  }

  /** The first entry of the table whose name equals the text exactly; NotFound when none does. */
  function FirstMatch(table: seq<(RequestType, string)>, text: string): (r: RequestType)
    ensures r == NotFound || exists i :: 0 <= i < |table| && table[i] == (r, text)
    ensures (forall i :: 0 <= i < |table| ==> table[i].1 != text) ==> r == NotFound
  {
    if |table| == 0 then NotFound
    else if table[0].1 == text then table[0].0
    else FirstMatch(table[1..], text)
  }

  /** getRequestType: the type whose name is the text, compared exactly and case-sensitively. */
  function GetRequestType(text: string): RequestType
  {
    FirstMatch(RequestNames, text)
  }

  /** No two types share a name. */
  lemma NamesDistinct(a: RequestType, b: RequestType)
    ensures Name(a) == Name(b) <==> a == b
  {
  }

  /** A type's own name looks it up. */
  lemma LookupOfName(t: RequestType)
    ensures GetRequestType(Name(t)) == t
  {
    var i := match t
             case GetAllEnums => 0
             case GetAllWaferTypes => 1
             case CreateWaferType => 2
             case GetAllWafers => 3
             case CreateWafer => 4
             case NotFound => 5;
    FirstMatchAt(RequestNames, i);
  }

  /** In a table of distinct names, the entry whose name is asked for is the one found. */
  lemma {:induction false} FirstMatchAt(table: seq<(RequestType, string)>, i: nat)
    requires i < |table|
    requires forall j :: 0 <= j < i ==> table[j].1 != table[i].1
    ensures FirstMatch(table, table[i].1) == table[i].0
  {
    if i > 0 {
      assert table[0].1 != table[i].1;
      assert table[1..][i - 1] == table[i];
      FirstMatchAt(table[1..], i - 1);
    }
  }

  /** The lookup returns a type other than NotFound exactly when the text is that type's name. */
  lemma LookupFindsOnlyNames(text: string)
    ensures GetRequestType(text) != NotFound ==> Name(GetRequestType(text)) == text
    ensures (forall t :: Name(t) != text) ==> GetRequestType(text) == NotFound
  {
    var r := GetRequestType(text);
    if r != NotFound {
      var i :| 0 <= i < |RequestNames| && RequestNames[i] == (r, text);
    }
    if forall t :: Name(t) != text {
      forall i | 0 <= i < |RequestNames| ensures RequestNames[i].1 != text {
        assert RequestNames[i].1 == Name(RequestNames[i].0);
      }
    }
  }

  /** Matching is exact: a name with a different letter case is not a request. */
  lemma CaseSensitive()
    ensures GetRequestType("getAllEnums") == NotFound
    ensures GetRequestType("GetAllEnums") == GetAllEnums
  {
    LookupOfName(GetAllEnums);
    LookupFindsOnlyNames("getAllEnums");
    assert "getAllEnums"[0] != Name(GetAllEnums)[0];
  }
}
