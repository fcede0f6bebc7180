/** grngo's DataType: a builtin type id of the engine kept as a Go int, and its
    String method (grngo.go:56-95). */
module DataTypes {
  import opened Common
  import opened Engine
  import Strings

  /** The seventeen builtin types with a name of their own; the engine's DB and OBJECT types
      are not among them. */
  function DataTypeName(t: int): (r: Option<string>)
    ensures r.Some? <==> 0 <= t <= MAX_BUILTIN_TYPE_ID && t != DB && t != OBJECT
    ensures r.Some? ==> |r.value| > 0 && '(' !in r.value
  {
    if t == VOID then Some("Void")
    else if t == BOOL then Some("Bool")
    else if t == INT8 then Some("Int8")
    else if t == INT16 then Some("Int16")
    else if t == INT32 then Some("Int32")
    else if t == INT64 then Some("Int64")
    else if t == UINT8 then Some("UInt8")
    else if t == UINT16 then Some("UInt16")
    else if t == UINT32 then Some("UInt32")
    else if t == UINT64 then Some("UInt64")
    else if t == FLOAT then Some("Float")
    else if t == TIME then Some("Time")
    else if t == SHORT_TEXT then Some("ShortText")
    else if t == TEXT then Some("Text")
    else if t == LONG_TEXT then Some("LongText")
    else if t == TOKYO_GEO_POINT then Some("TokyoGeoPoint")
    else if t == WGS84_GEO_POINT then Some("WGS84GeoPoint")
    else None
  }

  /** The type a builtin type name stands for: the inverse of DataTypeName. */
  function ParseDataType(s: string): (r: Option<TypeId>)
    ensures r.Some? ==> IsBuiltinType(r.value) && r.value != DB && r.value != OBJECT
  {
    if s == "Void" then Some(VOID)
    else if s == "Bool" then Some(BOOL)
    else if s == "Int8" then Some(INT8)
    else if s == "Int16" then Some(INT16)
    else if s == "Int32" then Some(INT32)
    else if s == "Int64" then Some(INT64)
    else if s == "UInt8" then Some(UINT8)
    else if s == "UInt16" then Some(UINT16)
    else if s == "UInt32" then Some(UINT32)
    else if s == "UInt64" then Some(UINT64)
    else if s == "Float" then Some(FLOAT)
    else if s == "Time" then Some(TIME)
    else if s == "ShortText" then Some(SHORT_TEXT)
    else if s == "Text" then Some(TEXT)
    else if s == "LongText" then Some(LONG_TEXT)
    else if s == "TokyoGeoPoint" then Some(TOKYO_GEO_POINT)
    else if s == "WGS84GeoPoint" then Some(WGS84_GEO_POINT)
    else None
  }

  lemma NameParses(t: int)
    requires DataTypeName(t).Some?
    ensures ParseDataType(DataTypeName(t).value) == Some(t)
  {
    if t == VOID {} else if t == BOOL {} else if t == INT8 {} else if t == UINT8 {}
    else if t == INT16 {} else if t == UINT16 {} else if t == INT32 {} else if t == UINT32 {}
    else if t == INT64 {} else if t == UINT64 {} else if t == FLOAT {} else if t == TIME {}
    else if t == SHORT_TEXT {} else if t == TEXT {} else if t == LONG_TEXT {}
    else if t == TOKYO_GEO_POINT {} else {}
  }

  lemma ParsedNames(s: string)
    requires ParseDataType(s).Some?
    ensures DataTypeName(ParseDataType(s).value) == Some(s)
  {
  }

  /** No name of a type holds a '('. */
  lemma ParsedNamesHaveNoParen(s: string)
    ensures ParseDataType(s).Some? ==> '(' !in s
  {
    if ParseDataType(s).Some? {
      ParsedNames(s);
    }
  }

  /** The DataType(n) spelling of an unnamed number is no type's name. */
  lemma SprintfIsNoName(n: int)
    ensures ParseDataType(Strings.Sprintf("DataType", n)).None?
  {
    var s := Strings.Sprintf("DataType", n);
    ParsedNamesHaveNoParen(s);
    assert s[8] == '(';
  }

  /** Names and types correspond one to one. */
  lemma ParseDataTypeName(t: int, s: string)
    ensures DataTypeName(t) == Some(s) <==> ParseDataType(s) == Some(t)
  {
    if DataTypeName(t) == Some(s) {
      NameParses(t);
    }
    if ParseDataType(s) == Some(t) {
      ParsedNames(s);
    }
  }

  /** DataType.String: the name, or DataType(n) for any other number. */
  function DataTypeString(t: int): (s: string)
    ensures DataTypeName(t).Some? ==> ParseDataType(s) == Some(t)
    ensures DataTypeName(t).None? ==> ParseDataType(s).None? && s == Strings.Sprintf("DataType", t)
  {
    match DataTypeName(t)
    case Some(name) => ParseDataTypeName(t, name); name
    case None => SprintfIsNoName(t); Strings.Sprintf("DataType", t)
  }

  /** No two DataTypes print alike, named or not. */
  lemma DataTypeStringInjective(a: int, b: int)
    requires DataTypeString(a) == DataTypeString(b)
    ensures a == b
  {
    if DataTypeName(a).None? && DataTypeName(b).None? {
      Strings.SprintfInjective("DataType", a, b);
    }
  }
}
