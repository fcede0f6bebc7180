/** CreateTable and CreateColumn of both Go APIs: the options of a table_create or
    column_create command built from the caller's options, the command sent through
    SendEx, its reply checked, and the new object looked up (grngo.go:407-473 and
    792-847, grn.go:234-310 and 576-641).  What the engine does with the command
    is outside the model: the reply and the engine state afterwards are
    parameters. */
module Schema {
  import opened Common
  import opened Engine
  import Strings
  import Commands
  import DataTypes
  import GnxValues
  import opened Handles

  // ---- Flag bits of a Go options struct (the values groonga.h gives them) ----

  const TABLE_HASH_KEY: bv64 := 0x00
  const TABLE_PAT_KEY: bv64 := 0x01
  const TABLE_DAT_KEY: bv64 := 0x02
  const TABLE_NO_KEY: bv64 := 0x03
  const TABLE_TYPE_MASK: bv64 := 0x07
  const KEY_WITH_SIS: bv64 := 0x40
  const COMPRESS_NONE: bv64 := 0x00
  const COMPRESS_ZLIB: bv64 := 0x10
  const COMPRESS_LZ4: bv64 := 0x20
  const COMPRESS_MASK: bv64 := 0x70
  const WITH_SECTION: bv64 := 0x80
  const WITH_WEIGHT: bv64 := 0x100
  const WITH_POSITION: bv64 := 0x200

  predicate HasFlag(flags: bv64, bit: bv64) {
    flags & bit == bit
  }

  // ---- The flags parameter: a first word and "|"-prefixed words after it ----

  /** The words appended to a flags string, each after a '|'. */
  function Suffixes(words: seq<string>): string {
    if words == [] then "" else "|" + words[0] + Suffixes(words[1..])
  }

  predicate FlagWord(w: string) {
    '|' !in w
  }

  /** A first word, a '|' and more text split into that word and the split of the
      text. */
  lemma SplitAfterBar(first: string, rest: string, parts: seq<string>)
    requires FlagWord(first) && Strings.Split(rest, '|') == parts
    ensures Strings.Split(first + ("|" + rest), '|') == [first] + parts
  {
    assert first + ("|" + rest) == first + ['|'] + rest;
    Strings.SplitHead(first, '|', rest);
  }

  /** Suffixes of a non-empty list: a '|', the first word and the rest. */
  lemma SuffixesCons(words: seq<string>)
    requires words != []
    ensures Suffixes(words) == "|" + (words[0] + Suffixes(words[1..]))
  {
  }

  lemma HeadTail(words: seq<string>)
    requires words != []
    ensures [words[0]] + words[1..] == words
  {
  }

  /** A flags string splits back into its first word and the words appended. */
  lemma {:induction false} SplitSuffixes(first: string, words: seq<string>)
    requires FlagWord(first) && forall i :: 0 <= i < |words| ==> FlagWord(words[i])
    ensures Strings.Split(first + Suffixes(words), '|') == [first] + words
    decreases |words|
  {
    if words == [] {
      assert first + Suffixes(words) == first;
      assert Strings.IndexOf(first, '|') == -1;
    } else {
      var tail := words[1..];
      assert forall i :: 0 <= i < |tail| ==> FlagWord(tail[i]) by {
        forall i | 0 <= i < |tail| ensures FlagWord(tail[i]) {
          assert tail[i] == words[i + 1];
        }
      }
      HeadTail(words);
      SplitSuffixes(words[0], tail);
      SuffixesCons(words);
      SplitAfterBar(first, words[0] + Suffixes(tail), [words[0]] + tail);
    }
  }

  /** Appending one word. */
  lemma SuffixesOne(w: string)
    ensures Suffixes([w]) == "|" + w
  {
    assert [w][1..] == [];
  }

  /** The words of the flags table_create and column_create understand. */
  const TABLE_FLAG_WORDS: set<string> := {"TABLE_NO_KEY", "TABLE_HASH_KEY", "TABLE_PAT_KEY", "TABLE_DAT_KEY", "KEY_WITH_SIS"}
  const COLUMN_TYPE_WORDS: set<string> := {"COLUMN_SCALAR", "COLUMN_VECTOR", "COLUMN_INDEX"}
  const COLUMN_FLAG_WORDS: set<string> :=
    COLUMN_TYPE_WORDS + {"COMPRESS_ZLIB", "COMPRESS_LZ4", "COMPRESS_LZO", "WITH_SECTION", "WITH_WEIGHT", "WITH_POSITION"}

  datatype SchemaError =
    | UndefinedTableType
    | InvalidKeyType(keyType: string)
    | InvalidValueType(valueType: string)
    | UndefinedColumnType
    | UndefinedCompressionType
    | UnsupportedColumnType(typeName: string)
    | CommandRefused(commandError: Commands.CommandError)
    | QueryFailed
    | CreateFailed(name: string)
    | LookupFailed(lookupError: HandleError)

  // ---- grngo: TableOptions and the table_create options ----

  /** grngo's TableOptions; Flags is a Go int, kept as its 64 bits. */
  datatype TableOptions = TableOptions(
    flags: bv64, keyType: string, valueType: string,
    defaultTokenizer: string, normalizer: string, tokenFilters: seq<string>)

  /** NewTableOptions: a hash table, everything else unset (grngo.go:136-141). */
  function NewTableOptions(): TableOptions {
    TableOptions(TABLE_HASH_KEY, "", "", "", "", [])
  }

  /** The table-type word of CreateTable: TABLE_NO_KEY without a key type,
      otherwise the one the type bits of Flags select (grngo.go:416-432). */
  function TableTypeWord(o: TableOptions): (r: Option<string>)
    ensures r.Some? <==> o.keyType == "" || o.flags & TABLE_TYPE_MASK in {TABLE_NO_KEY, TABLE_HASH_KEY, TABLE_PAT_KEY, TABLE_DAT_KEY}
    ensures r.Some? ==> r.value in TABLE_FLAG_WORDS - {"KEY_WITH_SIS"}
    ensures r == Some("TABLE_NO_KEY") <==> o.keyType == "" || o.flags & TABLE_TYPE_MASK == TABLE_NO_KEY
  {
    if o.keyType == "" then Some("TABLE_NO_KEY")
    else
      var bits := o.flags & TABLE_TYPE_MASK;
      if bits == TABLE_NO_KEY then Some("TABLE_NO_KEY")
      else if bits == TABLE_HASH_KEY then Some("TABLE_HASH_KEY")
      else if bits == TABLE_PAT_KEY then Some("TABLE_PAT_KEY")
      else if bits == TABLE_DAT_KEY then Some("TABLE_DAT_KEY")
      else None
  }

  function SisWords(sis: bool): seq<string> {
    if sis then ["KEY_WITH_SIS"] else []
  }

  /** The flags option of table_create. */
  function TableFlags(word: string, sis: bool): string {
    word + Suffixes(SisWords(sis))
  }

  /** The flags string names the table type first, then KEY_WITH_SIS exactly when
      it was asked for, and only words table_create understands. */
  lemma TableFlagsWords(word: string, sis: bool)
    requires word in TABLE_FLAG_WORDS - {"KEY_WITH_SIS"}
    ensures var words := Strings.Split(TableFlags(word, sis), '|');
      && words[0] == word
      && ("KEY_WITH_SIS" in words <==> sis)
      && forall i :: 0 <= i < |words| ==> words[i] in TABLE_FLAG_WORDS
  {
    SplitSuffixes(word, SisWords(sis));
  }

  /** The builtin names grngo passes on as they are: as key types every builtin
      type but Void, Text and LongText; as value types none of the text types;
      as column types the text types too (grngo.go:437-439, 448-449, 810-812). */
  const GRNGO_KEY_TYPES: set<string> :=
    {"Bool", "Int8", "Int16", "Int32", "Int64", "UInt8", "UInt16", "UInt32", "UInt64",
     "Float", "Time", "ShortText", "TokyoGeoPoint", "WGS84GeoPoint"}
  const GRNGO_VALUE_TYPES: set<string> := GRNGO_KEY_TYPES - {"ShortText"}
  const GRNGO_COLUMN_TYPES: set<string> := GRNGO_KEY_TYPES + {"Text", "LongText"}

  /** Each listed name is the DataType name of a builtin type of the matching kind. */
  lemma GrngoTypeNames(s: string)
    ensures s in GRNGO_KEY_TYPES <==>
      DataTypes.ParseDataType(s).Some? && DataTypes.ParseDataType(s).value !in {VOID, TEXT, LONG_TEXT}
    ensures s in GRNGO_VALUE_TYPES <==>
      DataTypes.ParseDataType(s).Some? && DataTypes.ParseDataType(s).value !in {VOID, SHORT_TEXT, TEXT, LONG_TEXT}
    ensures s in GRNGO_COLUMN_TYPES <==>
      DataTypes.ParseDataType(s).Some? && DataTypes.ParseDataType(s).value != VOID
  {
  }

  /** A type name CreateTable or CreateColumn accepts: a listed builtin name or
      the name of a table the DB has found. */
  ghost predicate TypeNameFound(s: string, builtins: set<string>, tables: map<string, Table>) {
    s in builtins || s in tables
  }

  /** A table name FindTable is sure to accept: one already cached, or one whose
      key and value checks resolve down to builtin types. */
  ghost predicate Findable(b: Binding, e: Engine, s: string, tables: map<string, Table>)
    requires WellFormed(e)
  {
    s in tables || Resolvable(b, e, s)
  }

  /** A key_type, value_type or type argument grngo is sure to accept: unset, a
      listed builtin, or a table FindTable finds. */
  ghost predicate GrngoTypeKnown(b: Binding, e: Engine, s: string, builtins: set<string>, tables: map<string, Table>)
    requires WellFormed(e)
  {
    s == "" || s in builtins || Findable(b, e, s, tables)
  }

  /** The options of table_create other than the flags: each one only when set. */
  function TableArgs(name: string, flags: string, keyType: string, valueType: string,
                     defaultTokenizer: string, normalizer: string, tokenFilters: seq<string>): (m: map<string, string>)
    ensures m.Keys <= {"name", "flags", "key_type", "value_type", "default_tokenizer", "normalizer", "token_filters"}
    ensures "name" in m && m["name"] == name && "flags" in m && m["flags"] == flags
    ensures "key_type" in m <==> keyType != ""
    ensures "value_type" in m <==> valueType != ""
    ensures "token_filters" in m <==> tokenFilters != []
    ensures "key_type" in m ==> m["key_type"] == keyType
    ensures "value_type" in m ==> m["value_type"] == valueType
  {
    TokenArgs(TypeArgs(map["name" := name, "flags" := flags], keyType, valueType), defaultTokenizer, normalizer, tokenFilters)
  }

  /** An option that is set only when its value is not empty. */
  function SetOption(m: map<string, string>, key: string, value: string): map<string, string> {
    if value == "" then m else m[key := value]
  }

  function TypeArgs(m: map<string, string>, keyType: string, valueType: string): map<string, string> {
    SetOption(SetOption(m, "key_type", keyType), "value_type", valueType)
  }

  /** The tokenizer, normalizer and token filter options, the filters joined by
      commas (grngo.go:454-462, grn.go:293-301). */
  function TokenArgs(m: map<string, string>, defaultTokenizer: string, normalizer: string, tokenFilters: seq<string>): map<string, string> {
    var m := SetOption(SetOption(m, "default_tokenizer", defaultTokenizer), "normalizer", normalizer);
    if tokenFilters != [] then m["token_filters" := Strings.Join(tokenFilters, ",")] else m
  }

  /** Every option name is a valid SendEx key, so SendEx never refuses a table_create. */
  lemma TableArgsSendable(name: string, flags: string, keyType: string, valueType: string,
                          defaultTokenizer: string, normalizer: string, tokenFilters: seq<string>)
    ensures var m := TableArgs(name, flags, keyType, valueType, defaultTokenizer, normalizer, tokenFilters);
      Commands.ValidName("table_create") && forall k :: k in m ==> Commands.ValidName(k)
  {
    TableOptionNamesValid();
    assert Commands.ValidName("table_create");
  }

  lemma TableOptionNamesValid()
    ensures forall k :: k in {"name", "flags", "key_type", "value_type", "default_tokenizer", "normalizer", "token_filters"} ==> Commands.ValidName(k)
  {
    assert Commands.ValidName("name") && Commands.ValidName("flags");
    assert Commands.ValidName("key_type") && Commands.ValidName("value_type");
    assert Commands.ValidName("default_tokenizer") && Commands.ValidName("normalizer");
    assert Commands.ValidName("token_filters");
  }

  /** The check made of a type name that is not a listed builtin: FindTable must
      find a table of that name. */
  method CheckTypeName(db: DB, e: Engine, s: string, builtins: set<string>) returns (ok: bool)
    requires WellFormed(e) && db.Valid()
    modifies db
    ensures db.Valid() && Grows(old(db.tables), db.tables) && db.columns == old(db.columns)
    ensures ok ==> TypeNameFound(s, builtins, db.tables)
    ensures !ok ==> s !in builtins && s !in old(db.tables)
    ensures s in builtins ==> ok && db.tables == old(db.tables)
    ensures Findable(db.binding, e, s, old(db.tables)) ==> ok
  {
    if s in builtins {
      return true;
    }
    var found := db.FindTable(e, s);
    return found.Ok?;
  }

  /** A key_type or value_type option of grngo's CreateTable: nothing when unset,
      otherwise the name itself once CheckTypeName accepts it. */
  method AddTypeOption(db: DB, e: Engine, m: map<string, string>, key: string, s: string, builtins: set<string>)
    returns (ok: bool, m': map<string, string>)
    requires WellFormed(e) && db.Valid()
    modifies db
    ensures db.Valid() && Grows(old(db.tables), db.tables) && db.columns == old(db.columns)
    ensures ok ==> m' == SetOption(m, key, s) && (s == "" || TypeNameFound(s, builtins, db.tables))
    ensures !ok ==> s != "" && s !in builtins && s !in old(db.tables)
    ensures s == "" || s in builtins ==> ok && db.tables == old(db.tables)
    ensures GrngoTypeKnown(db.binding, e, s, builtins, old(db.tables)) ==> ok
  {
    if s == "" {
      return true, m;
    }
    ok := CheckTypeName(db, e, s, builtins);
    m' := m[key := s];
  }

  /** The name and flags options of CreateTable: the table-type word, then
      "|KEY_WITH_SIS" when asked for. */
  method TableNameAndFlags(name: string, word: string, sis: bool) returns (m: map<string, string>)
    ensures m == map["name" := name, "flags" := TableFlags(word, sis)]
  {
    var flags := word;
    if sis {
      flags := flags + "|KEY_WITH_SIS";
      SuffixesOne("KEY_WITH_SIS");
      assert TableFlags(word, sis) == word + "|KEY_WITH_SIS";
    } else {
      assert SisWords(sis) == [];
      assert TableFlags(word, sis) == word + "" == word;
    }
    m := map["name" := name, "flags" := flags];
  }

  /** The key_type and value_type options of grngo's CreateTable: each name that
      is not a listed builtin must be the name of a table FindTable finds
      (grngo.go:434-453). */
  method GrngoTableTypes(db: DB, e: Engine, m: map<string, string>, o: TableOptions)
    returns (r: Result<map<string, string>, SchemaError>)
    requires WellFormed(e) && db.Valid()
    modifies db
    ensures db.Valid() && Grows(old(db.tables), db.tables) && db.columns == old(db.columns)
    ensures r.Ok? ==>
      && (o.keyType == "" || TypeNameFound(o.keyType, GRNGO_KEY_TYPES, db.tables))
      && (o.valueType == "" || TypeNameFound(o.valueType, GRNGO_VALUE_TYPES, db.tables))
      && r.value == TypeArgs(m, o.keyType, o.valueType)
    ensures r == Err(InvalidKeyType(o.keyType)) ==> !GrngoTypeKnown(db.binding, e, o.keyType, GRNGO_KEY_TYPES, old(db.tables))
    ensures r == Err(InvalidValueType(o.valueType)) ==> !GrngoTypeKnown(db.binding, e, o.valueType, GRNGO_VALUE_TYPES, old(db.tables))
    ensures r.Err? ==> r.error == InvalidKeyType(o.keyType) || r.error == InvalidValueType(o.valueType)
    ensures (&& GrngoTypeKnown(db.binding, e, o.keyType, GRNGO_KEY_TYPES, old(db.tables))
             && GrngoTypeKnown(db.binding, e, o.valueType, GRNGO_VALUE_TYPES, old(db.tables))) ==> r.Ok?
  {
    var keyOk, withKey := AddTypeOption(db, e, m, "key_type", o.keyType, GRNGO_KEY_TYPES);
    if !keyOk {
      return Err(InvalidKeyType(o.keyType));
    }
    ghost var keyTables := db.tables;
    var valueOk, withValue := AddTypeOption(db, e, withKey, "value_type", o.valueType, GRNGO_VALUE_TYPES);
    if !valueOk {
      return Err(InvalidValueType(o.valueType));
    }
    assert o.keyType == "" || TypeNameFound(o.keyType, GRNGO_KEY_TYPES, db.tables) by {
      assert Grows(keyTables, db.tables);
    }
    return Ok(withValue);
  }

  /** The options map of grngo's CreateTable, up to QueryEx: each non-builtin key
      or value type must be the name of a table FindTable finds (grngo.go:407-463). */
  method GrngoTableArgs(db: DB, e: Engine, name: string, options: Option<TableOptions>)
    returns (r: Result<map<string, string>, SchemaError>)
    requires WellFormed(e) && db.Valid()
    modifies db
    ensures db.Valid() && Grows(old(db.tables), db.tables) && db.columns == old(db.columns)
    ensures var o := if options.Some? then options.value else NewTableOptions();
      var keyKnown := GrngoTypeKnown(db.binding, e, o.keyType, GRNGO_KEY_TYPES, old(db.tables));
      var valueKnown := GrngoTypeKnown(db.binding, e, o.valueType, GRNGO_VALUE_TYPES, old(db.tables));
      && (r == Err(UndefinedTableType) <==> TableTypeWord(o).None?)
      && (r.Ok? ==>
            && TableTypeWord(o).Some?
            && (o.keyType == "" || TypeNameFound(o.keyType, GRNGO_KEY_TYPES, db.tables))
            && (o.valueType == "" || TypeNameFound(o.valueType, GRNGO_VALUE_TYPES, db.tables))
            && r.value == TableArgs(name, TableFlags(TableTypeWord(o).value, HasFlag(o.flags, KEY_WITH_SIS)),
                                    o.keyType, o.valueType, o.defaultTokenizer, o.normalizer, o.tokenFilters))
      && (r == Err(InvalidKeyType(o.keyType)) ==> !keyKnown)
      && (r == Err(InvalidValueType(o.valueType)) ==> !valueKnown)
      && (r.Err? ==> r.error == UndefinedTableType || r.error == InvalidKeyType(o.keyType) || r.error == InvalidValueType(o.valueType))
      && (TableTypeWord(o).Some? && keyKnown && valueKnown ==> r.Ok?)
  {
    var o := if options.Some? then options.value else NewTableOptions();
    var word := TableTypeWord(o);
    if word.None? {
      return Err(UndefinedTableType);
    }
    var optionsMap := TableNameAndFlags(name, word.value, HasFlag(o.flags, KEY_WITH_SIS));
    var typed := GrngoTableTypes(db, e, optionsMap, o);
    if typed.Err? {
      return Err(typed.error);
    }
    return Ok(TokenArgs(typed.value, o.defaultTokenizer, o.normalizer, o.tokenFilters));
  }

  // ---- grngo: the valueType of CreateColumn ----

  datatype ColumnKind = ScalarColumn | VectorColumn | IndexColumn

  /** What CreateColumn reads from its valueType argument: the kind of column, the
      type parameter and, for an index, the source parameter. */
  datatype ValueTypeSpec = ValueTypeSpec(kind: ColumnKind, typeName: string, source: Option<string>)

  /** A "[]" prefix makes a vector of the rest; otherwise a dot makes an index on
      the type before the first dot, whose source is the rest from the dot on;
      otherwise a scalar of the whole (grngo.go:800-809). */
  function ParseValueType(v: string): (r: ValueTypeSpec)
    ensures r.kind.VectorColumn? <==> Strings.HasPrefix(v, "[]")
    ensures r.kind.IndexColumn? <==> !Strings.HasPrefix(v, "[]") && '.' in v
    ensures r.source.Some? <==> r.kind.IndexColumn?
    ensures r.kind.IndexColumn? ==> '.' !in r.typeName && |r.source.value| > 0 && r.source.value[0] == '.'
  {
    if Strings.HasPrefix(v, "[]") then ValueTypeSpec(VectorColumn, v[2..], None)
    else
      var d := Strings.IndexOf(v, '.');
      if d != -1 then ValueTypeSpec(IndexColumn, v[..d], Some(v[d..]))
      else ValueTypeSpec(ScalarColumn, v, None)
  }

  /** The valueType that asks for spec. */
  function UnparseValueType(spec: ValueTypeSpec): string {
    match spec.kind
    case VectorColumn => "[]" + spec.typeName
    case IndexColumn => spec.typeName + (if spec.source.Some? then spec.source.value else "")
    case ScalarColumn => spec.typeName
  }

  /** The specs ParseValueType can produce: a scalar type neither starting with
      "[]" nor holding a dot; an index type without a dot and a source starting
      with one; any vector type. */
  predicate WellFormedSpec(spec: ValueTypeSpec) {
    match spec.kind
    case VectorColumn => spec.source.None?
    case IndexColumn =>
      && spec.source.Some? && |spec.source.value| > 0 && spec.source.value[0] == '.'
      && '.' !in spec.typeName && !Strings.HasPrefix(spec.typeName, "[]")
    case ScalarColumn => spec.source.None? && '.' !in spec.typeName && !Strings.HasPrefix(spec.typeName, "[]")
  }

  /** ParseValueType loses nothing of its argument. */
  lemma UnparseParseValueType(v: string)
    ensures WellFormedSpec(ParseValueType(v)) && UnparseValueType(ParseValueType(v)) == v
  {
    var spec := ParseValueType(v);
    if spec.kind.IndexColumn? {
      var d := Strings.IndexOf(v, '.');
      assert v[..d] + v[d..] == v;
      if |spec.typeName| >= 2 {
        assert spec.typeName[..2] == v[..2];
      }
    }
  }

  /** Every well-formed spec is read back from the valueType that asks for it. */
  lemma ParseUnparseValueType(spec: ValueTypeSpec)
    requires WellFormedSpec(spec)
    ensures ParseValueType(UnparseValueType(spec)) == spec
  {
    var v := UnparseValueType(spec);
    match spec.kind
    case VectorColumn =>
      assert v[2..] == spec.typeName;
    case IndexColumn =>
      var source := spec.source.value;
      assert v == spec.typeName + source;
      assert v[|spec.typeName|] == '.';
      assert v[..|spec.typeName|] == spec.typeName;
      assert !Strings.HasPrefix(v, "[]") by {
        if |spec.typeName| >= 2 {
          assert v[..2] == spec.typeName[..2];
        }
      }
      assert Strings.IndexOf(v, '.') == |spec.typeName|;
      assert v[|spec.typeName|..] == source;
    case ScalarColumn =>
  }

  /** The source of an index keeps the dot: "Docs.title" asks for an index on Docs
      with the source ".title". */
  lemma IndexSourceKeepsDot()
    ensures ParseValueType("Docs.title") == ValueTypeSpec(IndexColumn, "Docs", Some(".title"))
  {
    var spec := ValueTypeSpec(IndexColumn, "Docs", Some(".title"));
    assert "Docs"[..2] == "Do";
    ParseUnparseValueType(spec);
    assert UnparseValueType(spec) == "Docs.title";
  }

  // ---- The flags of column_create ----

  function ColumnTypeWord(kind: ColumnKind): (w: string)
    ensures w in COLUMN_TYPE_WORDS
  {
    match kind
    case ScalarColumn => "COLUMN_SCALAR"
    case VectorColumn => "COLUMN_VECTOR"
    case IndexColumn => "COLUMN_INDEX"
  }

  function WithWords(section: bool, weight: bool, position: bool): seq<string> {
    (if section then ["WITH_SECTION"] else []) + (if weight then ["WITH_WEIGHT"] else [])
      + (if position then ["WITH_POSITION"] else [])
  }

  const COMPRESSION_WORDS: set<string> := {"COMPRESS_ZLIB", "COMPRESS_LZ4", "COMPRESS_LZO"}

  /** The flags option of column_create: the column-type word, then the
      compression word, then the WITH_ words. */
  function ColumnFlags(kind: ColumnKind, compression: seq<string>, section: bool, weight: bool, position: bool): string {
    ColumnTypeWord(kind) + Suffixes(compression + WithWords(section, weight, position))
  }

  const WITH_WORDS: set<string> := {"WITH_SECTION", "WITH_WEIGHT", "WITH_POSITION"}

  lemma KnownColumnWords()
    ensures COLUMN_FLAG_WORDS == COLUMN_TYPE_WORDS + COMPRESSION_WORDS + WITH_WORDS
    ensures forall w :: w in COLUMN_FLAG_WORDS ==> FlagWord(w)
    ensures COLUMN_TYPE_WORDS !! COMPRESSION_WORDS && COLUMN_TYPE_WORDS !! WITH_WORDS && COMPRESSION_WORDS !! WITH_WORDS
  {
  }

  /** The words the code sends by mistake are not column_create's. */
  lemma UnknownColumnWords()
    ensures "" !in COLUMN_FLAG_WORDS && "COMRESS_LZ4" !in COLUMN_FLAG_WORDS && "COMRESS_LZO" !in COLUMN_FLAG_WORDS
  {
  }

  /** The WITH_ words name exactly the flags asked for. */
  lemma WithWordsNamed(section: bool, weight: bool, position: bool)
    ensures var w := WithWords(section, weight, position);
      && (forall i :: 0 <= i < |w| ==> w[i] in WITH_WORDS)
      && ("WITH_SECTION" in w <==> section) && ("WITH_WEIGHT" in w <==> weight) && ("WITH_POSITION" in w <==> position)
  {
  }

  /** The words after the column type are compression and WITH_ words. */
  lemma TrailingWordsKnown(compression: seq<string>, section: bool, weight: bool, position: bool)
    requires forall i :: 0 <= i < |compression| ==> compression[i] in COMPRESSION_WORDS
    ensures var rest := compression + WithWords(section, weight, position);
      forall i :: 0 <= i < |rest| ==> rest[i] in COMPRESSION_WORDS + WITH_WORDS
  {
    var with := WithWords(section, weight, position);
    WithWordsNamed(section, weight, position);
    var rest := compression + with;
    forall i | 0 <= i < |rest|
      ensures rest[i] in COMPRESSION_WORDS + WITH_WORDS
    {
      if i < |compression| {
        assert rest[i] == compression[i];
      } else {
        assert rest[i] == with[i - |compression|];
      }
    }
  }

  /** A column type followed by compression and WITH_ words: all of them words
      column_create knows, none holding a '|'. */
  lemma ColumnWordsKnown(first: string, rest: seq<string>)
    requires first in COLUMN_TYPE_WORDS && forall i :: 0 <= i < |rest| ==> rest[i] in COMPRESSION_WORDS + WITH_WORDS
    ensures FlagWord(first) && forall i :: 0 <= i < |rest| ==> FlagWord(rest[i])
    ensures var words := [first] + rest;
      && (forall i :: 0 <= i < |words| ==> words[i] in COLUMN_FLAG_WORDS)
      && (forall i :: 0 < i < |words| ==> words[i] in COMPRESSION_WORDS + WITH_WORDS)
  {
    KnownColumnWords();
    var words := [first] + rest;
    assert forall i :: 0 < i < |words| ==> words[i] == rest[i - 1];
  }

  /** column_create is told the column type, the compression and each WITH_ flag
      exactly as asked, in words it understands. */
  lemma ColumnFlagsWords(kind: ColumnKind, compression: seq<string>, section: bool, weight: bool, position: bool)
    requires |compression| <= 1 && forall i :: 0 <= i < |compression| ==> compression[i] in COMPRESSION_WORDS
    ensures var words := Strings.Split(ColumnFlags(kind, compression, section, weight, position), '|');
      && words == [ColumnTypeWord(kind)] + compression + WithWords(section, weight, position)
      && (forall i :: 0 <= i < |words| ==> words[i] in COLUMN_FLAG_WORDS)
      && (forall i :: 0 < i < |words| ==> words[i] in COMPRESSION_WORDS + WITH_WORDS)
  {
    var rest := compression + WithWords(section, weight, position);
    TrailingWordsKnown(compression, section, weight, position);
    ColumnWordsKnown(ColumnTypeWord(kind), rest);
    SplitSuffixes(ColumnTypeWord(kind), rest);
    assert [ColumnTypeWord(kind)] + rest == [ColumnTypeWord(kind)] + compression + WithWords(section, weight, position);
  }

  /** Which compression and WITH_ words the flags hold: exactly those asked for. */
  lemma ColumnFlagsNamed(kind: ColumnKind, compression: seq<string>, section: bool, weight: bool, position: bool)
    requires |compression| <= 1 && forall i :: 0 <= i < |compression| ==> compression[i] in COMPRESSION_WORDS
    ensures var words := Strings.Split(ColumnFlags(kind, compression, section, weight, position), '|');
      && words[0] == ColumnTypeWord(kind)
      && (forall i :: 0 <= i < |words| ==> words[i] in COLUMN_FLAG_WORDS)
      && (forall c :: c in COMPRESSION_WORDS ==> (c in words <==> c in compression))
      && ("WITH_SECTION" in words <==> section)
      && ("WITH_WEIGHT" in words <==> weight)
      && ("WITH_POSITION" in words <==> position)
  {
    var with := WithWords(section, weight, position);
    ColumnFlagsWords(kind, compression, section, weight, position);
    WithWordsNamed(section, weight, position);
    KnownColumnWords();
    var words := Strings.Split(ColumnFlags(kind, compression, section, weight, position), '|');
    forall c | c in COMPRESSION_WORDS
      ensures c in words <==> c in compression
    {
      assert c != ColumnTypeWord(kind) && c !in with;
    }
    forall w | w in WITH_WORDS
      ensures w in words <==> w in with
    {
      assert w != ColumnTypeWord(kind) && w !in compression;
    }
  }

  /** grngo's ColumnOptions: Flags is a Go int, kept as its 64 bits. */
  datatype ColumnOptions = ColumnOptions(flags: bv64)

  /** NewColumnOptions: no flag set (grngo.go:155-158). */
  function NewColumnOptions(): ColumnOptions {
    ColumnOptions(0)
  }

  /** The compression word the compression bits of Flags ask for, None for bits
      that name no compression. */
  function GrngoCompression(flags: bv64): (r: Option<seq<string>>)
    ensures r.Some? <==> flags & COMPRESS_MASK in {COMPRESS_NONE, COMPRESS_ZLIB, COMPRESS_LZ4}
    ensures r.Some? ==> (r.value == [] <==> flags & COMPRESS_MASK == COMPRESS_NONE)
    ensures r == Some(["COMPRESS_ZLIB"]) <==> flags & COMPRESS_MASK == COMPRESS_ZLIB
    ensures r == Some(["COMPRESS_LZ4"]) <==> flags & COMPRESS_MASK == COMPRESS_LZ4
  {
    var bits := flags & COMPRESS_MASK;
    if bits == COMPRESS_NONE then Some([])
    else if bits == COMPRESS_ZLIB then Some(["COMPRESS_ZLIB"])
    else if bits == COMPRESS_LZ4 then Some(["COMPRESS_LZ4"])
    else None
  }

  /** grngo's flags option as the code builds it: a compression word REPLACES the
      column-type word, spelled "|COMPRESS_ZLIB" or "|COMRESS_LZ4"
      (grngo.go:818-836). */
  function GrngoColumnFlagsAsWritten(kind: ColumnKind, flags: bv64): Option<string> {
    var with := Suffixes(WithWords(HasFlag(flags, WITH_SECTION), HasFlag(flags, WITH_WEIGHT), HasFlag(flags, WITH_POSITION)));
    var bits := flags & COMPRESS_MASK;
    if bits == COMPRESS_NONE then Some(ColumnTypeWord(kind) + with)
    else if bits == COMPRESS_ZLIB then Some("|COMPRESS_ZLIB" + with)
    else if bits == COMPRESS_LZ4 then Some("|COMRESS_LZ4" + with)
    else None
  }

  /** A flags string that starts with '|' splits into an empty first word. */
  lemma SplitLeadingBar(w: string)
    requires FlagWord(w)
    ensures Strings.Split("|" + w, '|') == ["", w]
  {
    SplitSuffixes("", [w]);
    SuffixesOne(w);
    assert "" + Suffixes([w]) == "|" + w;
  }

  /** CompressionZlib and CompressionLZ4 set the flags to one word behind a '|'. */
  lemma GrngoCompressedFlagsValue(bits: bv64, word: string)
    requires (bits, word) in {(COMPRESS_ZLIB, "|COMPRESS_ZLIB"), (COMPRESS_LZ4, "|COMRESS_LZ4")}
    ensures GrngoColumnFlagsAsWritten(VectorColumn, bits) == Some(word)
    ensures GrngoColumnFlagsAsWritten(ScalarColumn, bits) == Some(word)
  {
    assert !HasFlag(bits, WITH_SECTION) && !HasFlag(bits, WITH_WEIGHT) && !HasFlag(bits, WITH_POSITION);
    assert WithWords(false, false, false) == [];
    assert Suffixes([]) == "";
    assert bits & COMPRESS_MASK == bits;
    assert word + "" == word;
  }

  /** A compressed column loses its column type: CompressZlib on a vector column
      sends the flags "|COMPRESS_ZLIB", whose first word is empty (SplitLeadingBar:
      its words are "" and COMPRESS_ZLIB). */
  lemma GrngoZlibFlagsAsWritten()
    ensures GrngoColumnFlagsAsWritten(VectorColumn, COMPRESS_ZLIB) == Some("|COMPRESS_ZLIB")
    ensures Strings.Split("|COMPRESS_ZLIB", '|')[0] == "" && "" !in COLUMN_FLAG_WORDS
  {
    GrngoCompressedFlagsValue(COMPRESS_ZLIB, "|COMPRESS_ZLIB");
    UnknownColumnWords();
  }

  /** CompressLZ4 sends the word COMRESS_LZ4, which column_create does not know,
      and no column type either. */
  lemma GrngoLz4FlagsAsWritten()
    ensures GrngoColumnFlagsAsWritten(ScalarColumn, COMPRESS_LZ4) == Some("|COMRESS_LZ4")
    ensures Strings.Split("|COMRESS_LZ4", '|')[0] == "" && "COMRESS_LZ4" !in COLUMN_FLAG_WORDS
  {
    GrngoCompressedFlagsValue(COMPRESS_LZ4, "|COMRESS_LZ4");
    UnknownColumnWords();
  }

  /** grngo's flags option as intended: the compression word after the column
      type. */
  function GrngoColumnFlags(kind: ColumnKind, flags: bv64): (r: Option<string>)
    ensures r.Some? <==> GrngoCompression(flags).Some?
  {
    match GrngoCompression(flags)
    case None => None
    case Some(compression) =>
      Some(ColumnFlags(kind, compression, HasFlag(flags, WITH_SECTION), HasFlag(flags, WITH_WEIGHT), HasFlag(flags, WITH_POSITION)))
  }

  /** With the corrected flags column_create is told every bit grngo's Flags set. */
  lemma GrngoColumnFlagsWords(kind: ColumnKind, flags: bv64)
    requires GrngoCompression(flags).Some?
    ensures var words := Strings.Split(GrngoColumnFlags(kind, flags).value, '|');
      && words[0] == ColumnTypeWord(kind)
      && (forall i :: 0 <= i < |words| ==> words[i] in COLUMN_FLAG_WORDS)
      && ("COMPRESS_ZLIB" in words <==> flags & COMPRESS_MASK == COMPRESS_ZLIB)
      && ("COMPRESS_LZ4" in words <==> flags & COMPRESS_MASK == COMPRESS_LZ4)
      && ("WITH_SECTION" in words <==> HasFlag(flags, WITH_SECTION))
      && ("WITH_WEIGHT" in words <==> HasFlag(flags, WITH_WEIGHT))
      && ("WITH_POSITION" in words <==> HasFlag(flags, WITH_POSITION))
  {
    var compression := GrngoCompression(flags).value;
    ColumnFlagsNamed(kind, compression, HasFlag(flags, WITH_SECTION), HasFlag(flags, WITH_WEIGHT), HasFlag(flags, WITH_POSITION));
  }

  /** The flags of two word lists, one after the other. */
  lemma {:induction false} SuffixesConcat(a: seq<string>, b: seq<string>)
    ensures Suffixes(a + b) == Suffixes(a) + Suffixes(b)
    decreases |a|
  {
    if a == [] {
      assert a + b == b;
    } else {
      assert (a + b)[0] == a[0] && (a + b)[1..] == a[1..] + b;
      SuffixesConcat(a[1..], b);
    }
  }

  /** "|" + w for a word asked for, nothing otherwise. */
  function OptionalWord(asked: bool, w: string): string {
    if asked then "|" + w else ""
  }

  lemma OptionalWordSuffixes(asked: bool, w: string)
    ensures Suffixes(if asked then [w] else []) == OptionalWord(asked, w)
  {
    if asked {
      SuffixesOne(w);
    }
  }

  lemma AppendFive(t: string, a: string, b: string, c: string, d: string)
    ensures t + (a + ((b + c) + d)) == t + a + b + c + d
  {
  }

  /** The column flags as the strings appended one after another. */
  lemma ColumnFlagsText(kind: ColumnKind, compression: seq<string>, section: bool, weight: bool, position: bool)
    requires |compression| <= 1
    ensures ColumnFlags(kind, compression, section, weight, position) ==
      ColumnTypeWord(kind) + OptionalWord(compression != [], if compression == [] then "" else compression[0])
        + OptionalWord(section, "WITH_SECTION") + OptionalWord(weight, "WITH_WEIGHT") + OptionalWord(position, "WITH_POSITION")
  {
    var s: seq<string> := if section then ["WITH_SECTION"] else [];
    var w: seq<string> := if weight then ["WITH_WEIGHT"] else [];
    var p: seq<string> := if position then ["WITH_POSITION"] else [];
    var first := if compression == [] then "" else compression[0];
    assert compression == (if compression != [] then [first] else []);
    assert WithWords(section, weight, position) == s + w + p;
    SuffixesConcat(compression, s + w + p);
    SuffixesConcat(s + w, p);
    SuffixesConcat(s, w);
    OptionalWordSuffixes(compression != [], first);
    OptionalWordSuffixes(section, "WITH_SECTION");
    OptionalWordSuffixes(weight, "WITH_WEIGHT");
    OptionalWordSuffixes(position, "WITH_POSITION");
    AppendFive(ColumnTypeWord(kind), OptionalWord(compression != [], first), OptionalWord(section, "WITH_SECTION"),
      OptionalWord(weight, "WITH_WEIGHT"), OptionalWord(position, "WITH_POSITION"));
  }

  /** The options of column_create: the source only for an index. */
  function ColumnArgs(table: string, name: string, flags: string, typeName: string, source: Option<string>): (m: map<string, string>)
    ensures m.Keys == {"table", "name", "flags", "type"} + (if source.Some? then {"source"} else {})
    ensures m["table"] == table && m["name"] == name && m["flags"] == flags && m["type"] == typeName
    ensures source.Some? ==> m["source"] == source.value
  {
    var m := map["table" := table, "name" := name, "flags" := flags, "type" := typeName];
    if source.Some? then m["source" := source.value] else m
  }

  /** SendEx never refuses a column_create either. */
  lemma ColumnArgsSendable(table: string, name: string, flags: string, typeName: string, source: Option<string>)
    ensures var m := ColumnArgs(table, name, flags, typeName, source);
      Commands.ValidName("column_create") && forall k :: k in m ==> Commands.ValidName(k)
  {
    ColumnOptionNamesValid();
    assert Commands.ValidName("column_create");
  }

  lemma ColumnOptionNamesValid()
    ensures forall k :: k in {"table", "name", "flags", "type", "source"} ==> Commands.ValidName(k)
  {
    assert Commands.ValidName("table") && Commands.ValidName("name") && Commands.ValidName("flags");
    assert Commands.ValidName("type") && Commands.ValidName("source");
  }

  /** The words after the column type, appended one at a time: the compression
      word if any, then each WITH_ word asked for. */
  method AppendColumnWords(kind: ColumnKind, compression: seq<string>, section: bool, weight: bool, position: bool)
    returns (flags: string)
    requires |compression| <= 1
    ensures flags == ColumnFlags(kind, compression, section, weight, position)
  {
    ColumnFlagsText(kind, compression, section, weight, position);
    flags := ColumnTypeWord(kind);
    flags := flags + OptionalWord(compression != [], if compression == [] then "" else compression[0]);
    flags := flags + OptionalWord(section, "WITH_SECTION");
    flags := flags + OptionalWord(weight, "WITH_WEIGHT");
    flags := flags + OptionalWord(position, "WITH_POSITION");
  }

  /** The flags string of grngo's CreateColumn, built word by word: the column
      type, the compression, then each WITH_ flag; None for compression bits that
      name no compression (grngo.go:818-836, with the corrected compression). */
  method BuildGrngoColumnFlags(kind: ColumnKind, optionFlags: bv64) returns (r: Option<string>)
    ensures r == GrngoColumnFlags(kind, optionFlags)
  {
    var compression := GrngoCompression(optionFlags);
    if compression.None? {
      return None;
    }
    var flags := AppendColumnWords(kind, compression.value, HasFlag(optionFlags, WITH_SECTION), HasFlag(optionFlags, WITH_WEIGHT), HasFlag(optionFlags, WITH_POSITION));
    return Some(flags);
  }

  /** The options map of grngo's CreateColumn, up to QueryEx, with the flags as
      intended: the kind of column from valueType, the type a listed builtin or a
      table FindTable finds, then the compression and the WITH_ words
      (grngo.go:792-836). */
  method GrngoColumnArgs(db: DB, e: Engine, table: string, name: string, valueType: string, options: Option<ColumnOptions>)
    returns (r: Result<map<string, string>, SchemaError>)
    requires WellFormed(e) && db.Valid()
    modifies db
    ensures db.Valid() && Grows(old(db.tables), db.tables) && db.columns == old(db.columns)
    ensures var o := if options.Some? then options.value else NewColumnOptions();
      var spec := ParseValueType(valueType);
      var known := spec.typeName in GRNGO_COLUMN_TYPES || Findable(db.binding, e, spec.typeName, old(db.tables));
      && (r.Ok? ==>
            && TypeNameFound(spec.typeName, GRNGO_COLUMN_TYPES, db.tables)
            && GrngoColumnFlags(spec.kind, o.flags).Some?
            && r.value == ColumnArgs(table, name, GrngoColumnFlags(spec.kind, o.flags).value, spec.typeName, spec.source))
      && (r == Err(UnsupportedColumnType(spec.typeName)) ==> !known)
      && (known && GrngoCompression(o.flags).None? ==> r == Err(UndefinedCompressionType))
      && (known && GrngoCompression(o.flags).Some? ==> r.Ok?)
      && (r.Err? ==> r.error == UnsupportedColumnType(spec.typeName) || r.error == UndefinedCompressionType)
  {
    var o := if options.Some? then options.value else NewColumnOptions();
    var optionsMap: map<string, string> := map["table" := table, "name" := name];
    var spec := ParseValueType(valueType);
    optionsMap := optionsMap["flags" := ColumnTypeWord(spec.kind)];
    if spec.source.Some? {
      optionsMap := optionsMap["source" := spec.source.value];
    }
    var typeOk := CheckTypeName(db, e, spec.typeName, GRNGO_COLUMN_TYPES);
    if !typeOk {
      return Err(UnsupportedColumnType(spec.typeName));
    }
    optionsMap := optionsMap["type" := spec.typeName];
    var flags := BuildGrngoColumnFlags(spec.kind, o.flags);
    if flags.None? {
      return Err(UndefinedCompressionType);
    }
    optionsMap := optionsMap["flags" := flags.value];
    ghost var m := ColumnArgs(table, name, flags.value, spec.typeName, spec.source);
    assert optionsMap.Keys == m.Keys;
    assert forall k :: k in m ==> optionsMap[k] == m[k];
    return Ok(optionsMap);
  }

  // ---- gnx: TableOptions, ColumnOptions and their type names ----

  /** gnx's TableOptions (options.go:20-28). */
  datatype GnxTableOptions = GnxTableOptions(
    tableType: int, withSIS: bool, keyType: string, valueType: string,
    defaultTokenizer: string, normalizer: string, tokenFilters: seq<string>)

  /** NewTableOptions: Go's zero value, an ArrayTable (options.go:32-35). */
  function NewGnxTableOptions(): GnxTableOptions {
    GnxTableOptions(0, false, "", "", "", "", [])
  }

  /** The table-type word of ArrayTable, HashTable, PatTable and DatTable, numbered
      from 0 (options.go:11-16, grn.go:240-251). */
  function GnxTableTypeWord(tableType: int): (r: Option<string>)
    ensures r.Some? <==> 0 <= tableType <= 3
    ensures r.Some? ==> r.value in TABLE_FLAG_WORDS - {"KEY_WITH_SIS"}
    ensures r == Some("TABLE_NO_KEY") <==> tableType == 0
  {
    if tableType == 0 then Some("TABLE_NO_KEY")
    else if tableType == 1 then Some("TABLE_HASH_KEY")
    else if tableType == 2 then Some("TABLE_PAT_KEY")
    else if tableType == 3 then Some("TABLE_DAT_KEY")
    else None
  }

  /** The builtin type a gnx type name stands for: Bool, Int, Float and GeoPoint
      always, Text only where a text type is given for it (ShortText for keys,
      LongText for columns, none for table values) (grn.go:257-296, 582-595). */
  function GnxTypeAlias(s: string, text: Option<string>): (r: Option<string>)
    ensures r.Some? <==> s in {"Bool", "Int", "Float", "GeoPoint"} || (s == "Text" && text.Some?)
  {
    if s == "Bool" then Some("Bool")
    else if s == "Int" then Some("Int64")
    else if s == "Float" then Some("Float")
    else if s == "GeoPoint" then Some("WGS84GeoPoint")
    else if s == "Text" && text.Some? then text
    else None
  }

  /** The type gnx names: the builtin of an alias, otherwise the name itself. */
  function GnxTypeArg(s: string, text: Option<string>): (r: string)
    ensures s != "" && text != Some("") ==> r != ""
  {
    if GnxTypeAlias(s, text).Some? then GnxTypeAlias(s, text).value else s
  }

  /** An alias names a builtin type that gnx's handles read back as the TypeID of
      the same name: CreateTable and FindTable agree on what Int or Text means. */
  lemma GnxTypeAliasRoundTrip(s: string, text: Option<string>)
    requires text in {None, Some("ShortText"), Some("LongText")}
    requires GnxTypeAlias(s, text).Some?
    ensures var t := DataTypes.ParseDataType(GnxTypeAlias(s, text).value);
      && t.Some?
      && var id := if text == Some("LongText") then ColumnType(Gnx, t.value) else TableType(Gnx, t.value);
      && id.Some? && GnxValues.TypeIDName(id.value) == Some(s)
  {
  }

  /** A key_type, value_type or type argument gnx is sure to accept: unset, an
      alias, or a table FindTable finds. */
  ghost predicate GnxTypeKnown(b: Binding, e: Engine, s: string, text: Option<string>, tables: map<string, Table>)
    requires WellFormed(e)
  {
    s == "" || GnxTypeAlias(s, text).Some? || Findable(b, e, s, tables)
  }

  /** A key_type, value_type or type option of gnx: nothing when unset, the
      builtin of an alias, otherwise the name of a table FindTable finds. */
  method GnxTypeOption(db: DB, e: Engine, m: map<string, string>, key: string, s: string, text: Option<string>)
    returns (ok: bool, m': map<string, string>)
    requires WellFormed(e) && db.Valid() && text != Some("")
    modifies db
    ensures db.Valid() && Grows(old(db.tables), db.tables) && db.columns == old(db.columns)
    ensures ok ==> m' == SetOption(m, key, if s == "" then "" else GnxTypeArg(s, text))
    ensures ok && s != "" ==> GnxTypeAlias(s, text).Some? || s in db.tables
    ensures !ok ==> s != "" && GnxTypeAlias(s, text).None? && s !in old(db.tables)
    ensures s == "" || GnxTypeAlias(s, text).Some? ==> ok && db.tables == old(db.tables)
    ensures GnxTypeKnown(db.binding, e, s, text, old(db.tables)) ==> ok
  {
    if s == "" {
      return true, m;
    }
    var alias := GnxTypeAlias(s, text);
    if alias.Some? {
      return true, m[key := alias.value];
    }
    var found := db.FindTable(e, s);
    return found.Ok?, m[key := s];
  }

  /** The key_type and value_type options of gnx's CreateTable (grn.go:254-292). */
  method GnxTableTypes(db: DB, e: Engine, m: map<string, string>, o: GnxTableOptions)
    returns (r: Result<map<string, string>, SchemaError>)
    requires WellFormed(e) && db.Valid()
    modifies db
    ensures db.Valid() && Grows(old(db.tables), db.tables) && db.columns == old(db.columns)
    ensures r.Ok? ==>
      && (o.keyType == "" || GnxTypeAlias(o.keyType, Some("ShortText")).Some? || o.keyType in db.tables)
      && (o.valueType == "" || GnxTypeAlias(o.valueType, None).Some? || o.valueType in db.tables)
      && r.value == TypeArgs(m, if o.keyType == "" then "" else GnxTypeArg(o.keyType, Some("ShortText")),
                             if o.valueType == "" then "" else GnxTypeArg(o.valueType, None))
    ensures r == Err(InvalidKeyType(o.keyType)) ==> !GnxTypeKnown(db.binding, e, o.keyType, Some("ShortText"), old(db.tables))
    ensures r == Err(InvalidValueType(o.valueType)) ==> !GnxTypeKnown(db.binding, e, o.valueType, None, old(db.tables))
    ensures r.Err? ==> r.error == InvalidKeyType(o.keyType) || r.error == InvalidValueType(o.valueType)
    ensures (&& GnxTypeKnown(db.binding, e, o.keyType, Some("ShortText"), old(db.tables))
             && GnxTypeKnown(db.binding, e, o.valueType, None, old(db.tables))) ==> r.Ok?
  {
    var keyOk, withKey := GnxTypeOption(db, e, m, "key_type", o.keyType, Some("ShortText"));
    if !keyOk {
      return Err(InvalidKeyType(o.keyType));
    }
    ghost var keyTables := db.tables;
    var valueOk, withValue := GnxTypeOption(db, e, withKey, "value_type", o.valueType, None);
    if !valueOk {
      return Err(InvalidValueType(o.valueType));
    }
    assert o.keyType == "" || GnxTypeAlias(o.keyType, Some("ShortText")).Some? || o.keyType in db.tables by {
      assert Grows(keyTables, db.tables);
    }
    return Ok(withValue);
  }

  /** The options map of gnx's CreateTable, up to QueryEx (grn.go:234-302). */
  method GnxTableArgs(db: DB, e: Engine, name: string, options: Option<GnxTableOptions>)
    returns (r: Result<map<string, string>, SchemaError>)
    requires WellFormed(e) && db.Valid()
    modifies db
    ensures db.Valid() && Grows(old(db.tables), db.tables) && db.columns == old(db.columns)
    ensures var o := if options.Some? then options.value else NewGnxTableOptions();
      var keyArg := if o.keyType == "" then "" else GnxTypeArg(o.keyType, Some("ShortText"));
      var valueArg := if o.valueType == "" then "" else GnxTypeArg(o.valueType, None);
      var keyKnown := GnxTypeKnown(db.binding, e, o.keyType, Some("ShortText"), old(db.tables));
      var valueKnown := GnxTypeKnown(db.binding, e, o.valueType, None, old(db.tables));
      && (r == Err(UndefinedTableType) <==> GnxTableTypeWord(o.tableType).None?)
      && (r.Ok? ==>
            && GnxTableTypeWord(o.tableType).Some?
            && (o.keyType == "" || GnxTypeAlias(o.keyType, Some("ShortText")).Some? || o.keyType in db.tables)
            && (o.valueType == "" || GnxTypeAlias(o.valueType, None).Some? || o.valueType in db.tables)
            && r.value == TableArgs(name, TableFlags(GnxTableTypeWord(o.tableType).value, o.withSIS),
                                    keyArg, valueArg, o.defaultTokenizer, o.normalizer, o.tokenFilters))
      && (r == Err(InvalidKeyType(o.keyType)) ==> !keyKnown)
      && (r == Err(InvalidValueType(o.valueType)) ==> !valueKnown)
      && (r.Err? ==> r.error == UndefinedTableType || r.error == InvalidKeyType(o.keyType) || r.error == InvalidValueType(o.valueType))
      && (GnxTableTypeWord(o.tableType).Some? && keyKnown && valueKnown ==> r.Ok?)
  {
    var o := if options.Some? then options.value else NewGnxTableOptions();
    var word := GnxTableTypeWord(o.tableType);
    if word.None? {
      return Err(UndefinedTableType);
    }
    var optionsMap := TableNameAndFlags(name, word.value, o.withSIS);
    var typed := GnxTableTypes(db, e, optionsMap, o);
    if typed.Err? {
      return Err(typed.error);
    }
    return Ok(TokenArgs(typed.value, o.defaultTokenizer, o.normalizer, o.tokenFilters));
  }

  /** gnx's ColumnOptions (options.go:54-61). */
  datatype GnxColumnOptions = GnxColumnOptions(
    columnType: int, compressionType: int,
    withSection: bool, withWeight: bool, withPosition: bool, source: string)

  /** NewColumnOptions: Go's zero value, a scalar column without compression
      (options.go:65-68). */
  function NewGnxColumnOptions(): GnxColumnOptions {
    GnxColumnOptions(0, 0, false, false, false, "")
  }

  /** ScalarColumn, VectorColumn and IndexColumn, numbered from 0 (options.go:40-45). */
  function GnxColumnKind(columnType: int): (r: Option<ColumnKind>)
    ensures r.Some? <==> 0 <= columnType <= 2
  {
    if columnType == 0 then Some(ScalarColumn)
    else if columnType == 1 then Some(VectorColumn)
    else if columnType == 2 then Some(IndexColumn)
    else None
  }

  /** NoCompression, ZlibCompression and LzoCompression, numbered from 0
      (options.go:47-52). */
  function GnxCompression(compressionType: int): (r: Option<seq<string>>)
    ensures r.Some? <==> 0 <= compressionType <= 2
    ensures r == Some([]) <==> compressionType == 0
    ensures r == Some(["COMPRESS_ZLIB"]) <==> compressionType == 1
    ensures r == Some(["COMPRESS_LZO"]) <==> compressionType == 2
  {
    if compressionType == 0 then Some([])
    else if compressionType == 1 then Some(["COMPRESS_ZLIB"])
    else if compressionType == 2 then Some(["COMPRESS_LZO"])
    else None
  }

  /** gnx's flags option as the code builds it: as in grngo, a compression word
      replaces the column-type word, and LzoCompression is spelled "|COMRESS_LZO"
      (grn.go:596-621). */
  function GnxColumnFlagsAsWritten(kind: ColumnKind, o: GnxColumnOptions): Option<string> {
    var with := Suffixes(WithWords(o.withSection, o.withWeight, o.withPosition));
    if o.compressionType == 0 then Some(ColumnTypeWord(kind) + with)
    else if o.compressionType == 1 then Some("|COMPRESS_ZLIB" + with)
    else if o.compressionType == 2 then Some("|COMRESS_LZO" + with)
    else None
  }

  /** LzoCompression sends the unknown word COMRESS_LZO and no column type. */
  lemma GnxLzoFlagsAsWritten()
    ensures GnxColumnFlagsAsWritten(IndexColumn, GnxColumnOptions(2, 2, false, false, false, "")) == Some("|COMRESS_LZO")
    ensures Strings.Split("|COMRESS_LZO", '|')[0] == "" && "COMRESS_LZO" !in COLUMN_FLAG_WORDS
  {
    assert WithWords(false, false, false) == [];
    assert Suffixes([]) == "";
    assert "|COMRESS_LZO" + "" == "|COMRESS_LZO";
    UnknownColumnWords();
  }

  /** gnx's flags option as intended. */
  function GnxColumnFlags(kind: ColumnKind, compressionType: int, section: bool, weight: bool, position: bool): (r: Option<string>)
    ensures r.Some? <==> GnxCompression(compressionType).Some?
  {
    match GnxCompression(compressionType)
    case None => None
    case Some(compression) => Some(ColumnFlags(kind, compression, section, weight, position))
  }

  /** With the corrected flags column_create is told every option gnx was given. */
  lemma GnxColumnFlagsWords(kind: ColumnKind, compressionType: int, section: bool, weight: bool, position: bool)
    requires GnxCompression(compressionType).Some?
    ensures var words := Strings.Split(GnxColumnFlags(kind, compressionType, section, weight, position).value, '|');
      && words[0] == ColumnTypeWord(kind)
      && (forall i :: 0 <= i < |words| ==> words[i] in COLUMN_FLAG_WORDS)
      && ("COMPRESS_ZLIB" in words <==> compressionType == 1)
      && ("COMPRESS_LZO" in words <==> compressionType == 2)
      && ("WITH_SECTION" in words <==> section)
      && ("WITH_WEIGHT" in words <==> weight)
      && ("WITH_POSITION" in words <==> position)
  {
    ColumnFlagsNamed(kind, GnxCompression(compressionType).value, section, weight, position);
  }

  /** The flags string of gnx's CreateColumn, built word by word (grn.go:596-621,
      with the corrected compression). */
  method BuildGnxColumnFlags(kind: ColumnKind, compressionType: int, section: bool, weight: bool, position: bool)
    returns (r: Option<string>)
    ensures r == GnxColumnFlags(kind, compressionType, section, weight, position)
  {
    var compression := GnxCompression(compressionType);
    if compression.None? {
      return None;
    }
    var flags := AppendColumnWords(kind, compression.value, section, weight, position);
    return Some(flags);
  }

  /** The type check of gnx's CreateColumn: an alias, or else the name of a table
      FindTable finds (grn.go:582-597). */
  method GnxColumnTypeFound(db: DB, e: Engine, valueType: string) returns (ok: bool)
    requires WellFormed(e) && db.Valid()
    modifies db
    ensures db.Valid() && Grows(old(db.tables), db.tables) && db.columns == old(db.columns)
    ensures ok ==> GnxTypeAlias(valueType, Some("LongText")).Some? || valueType in db.tables
    ensures !ok ==> GnxTypeAlias(valueType, Some("LongText")).None? && valueType !in old(db.tables)
    ensures GnxTypeAlias(valueType, Some("LongText")).Some? ==> ok && db.tables == old(db.tables)
    ensures Findable(db.binding, e, valueType, old(db.tables)) ==> ok
  {
    if GnxTypeAlias(valueType, Some("LongText")).Some? {
      return true;
    }
    var found := db.FindTable(e, valueType);
    return found.Ok?;
  }

  /** The options map of gnx's CreateColumn, up to QueryEx: the type an alias or a
      table FindTable finds, then the column type, the compression, the WITH_
      words and the source when set (grn.go:576-624). */
  method GnxColumnArgs(db: DB, e: Engine, table: string, name: string, valueType: string, options: Option<GnxColumnOptions>)
    returns (r: Result<map<string, string>, SchemaError>)
    requires WellFormed(e) && db.Valid()
    modifies db
    ensures db.Valid() && Grows(old(db.tables), db.tables) && db.columns == old(db.columns)
    ensures var o := if options.Some? then options.value else NewGnxColumnOptions();
      var known := GnxTypeAlias(valueType, Some("LongText")).Some? || Findable(db.binding, e, valueType, old(db.tables));
      var kind := GnxColumnKind(o.columnType);
      && (r.Ok? ==>
            && (GnxTypeAlias(valueType, Some("LongText")).Some? || valueType in db.tables)
            && kind.Some? && GnxColumnFlags(kind.value, o.compressionType, o.withSection, o.withWeight, o.withPosition).Some?
            && r.value == ColumnArgs(table, name, GnxColumnFlags(kind.value, o.compressionType, o.withSection, o.withWeight, o.withPosition).value,
                                     GnxTypeArg(valueType, Some("LongText")), if o.source == "" then None else Some(o.source)))
      && (r == Err(UnsupportedColumnType(valueType)) ==> !known)
      && (known && kind.None? ==> r == Err(UndefinedColumnType))
      && (known && kind.Some? && GnxCompression(o.compressionType).None? ==> r == Err(UndefinedCompressionType))
      && (known && kind.Some? && GnxCompression(o.compressionType).Some? ==> r.Ok?)
      && (r.Err? ==> r.error == UnsupportedColumnType(valueType) || r.error == UndefinedColumnType || r.error == UndefinedCompressionType)
  {
    var o := if options.Some? then options.value else NewGnxColumnOptions();
    var typeOk := GnxColumnTypeFound(db, e, valueType);
    if !typeOk {
      return Err(UnsupportedColumnType(valueType));
    }
    var kind := GnxColumnKind(o.columnType);
    if kind.None? {
      return Err(UndefinedColumnType);
    }
    var flags := BuildGnxColumnFlags(kind.value, o.compressionType, o.withSection, o.withWeight, o.withPosition);
    if flags.None? {
      return Err(UndefinedCompressionType);
    }
    var source := if o.source != "" then Some(o.source) else None;
    return Ok(ColumnArgs(table, name, flags.value, GnxTypeArg(valueType, Some("LongText")), source));
  }

  // ---- Sending the command and looking the new object up ----

  /** QueryEx and the reply check that CreateTable and CreateColumn make: the
      command goes through SendEx, and only the reply "true" means the object was
      created.  reply is what Recv returns, None when it fails (grngo.go:378-386,
      464-470 and 837-843; grn.go:219-226, 303-309 and 625-631). */
  method QueryCreate(command: string, args: map<string, string>, name: string, reply: Option<string>)
    returns (r: Result<(), SchemaError>, sent: string)
    ensures var valid := Commands.ValidName(command) && forall k :: k in args ==> Commands.ValidName(k);
      && (r.Ok? <==> valid && reply == Some("true"))
      && (!valid ==> r.Err? && r.error.CommandRefused?)
      && (valid ==> var p := Commands.ParseCommand(sent); p.Some? && p.value.0 == command && Commands.Lists(p.value.1, args))
      && (valid && reply.None? ==> r == Err(QueryFailed))
      && (valid && reply.Some? && reply.value != "true" ==> r == Err(CreateFailed(name)))
  {
    var command := Commands.SendEx(command, args);
    if command.Err? {
      return Err(CommandRefused(command.error)), "";
    }
    sent := command.value;
    if reply.None? {
      return Err(QueryFailed), sent;
    }
    if reply.value != "true" {
      return Err(CreateFailed(name)), sent;
    }
    return Ok(()), sent;
  }

  /** What a successful CreateTable has sent: a table_create command whose options
      read back as args. */
  ghost predicate SentCreate(sent: string, command: string, args: map<string, string>) {
    var p := Commands.ParseCommand(sent);
    p.Some? && p.value.0 == command && Commands.Lists(p.value.1, args)
  }

  /** grngo's DB.CreateTable: the options, table_create, then FindTable on the
      engine as the command left it, after (grngo.go:407-473). */
  method GrngoCreateTable(db: DB, e: Engine, name: string, options: Option<TableOptions>, reply: Option<string>, after: Engine)
    returns (r: Result<Table, SchemaError>, sent: string)
    requires WellFormed(e) && WellFormed(after) && db.Valid()
    modifies db
    ensures db.Valid() && Grows(old(db.tables), db.tables)
    ensures var o := if options.Some? then options.value else NewTableOptions();
      var valid := && TableTypeWord(o).Some?
                   && GrngoTypeKnown(db.binding, e, o.keyType, GRNGO_KEY_TYPES, old(db.tables))
                   && GrngoTypeKnown(db.binding, e, o.valueType, GRNGO_VALUE_TYPES, old(db.tables));
      && (r == Err(UndefinedTableType) <==> TableTypeWord(o).None?)
      && (r.Ok? ==>
            && reply == Some("true") && name in db.tables && db.tables[name] == r.value && r.value.name == name
            && (o.keyType == "" || TypeNameFound(o.keyType, GRNGO_KEY_TYPES, db.tables))
            && (o.valueType == "" || TypeNameFound(o.valueType, GRNGO_VALUE_TYPES, db.tables))
            && SentCreate(sent, "table_create",
                 TableArgs(name, TableFlags(TableTypeWord(o).value, HasFlag(o.flags, KEY_WITH_SIS)),
                           o.keyType, o.valueType, o.defaultTokenizer, o.normalizer, o.tokenFilters)))
      && (reply != Some("true") ==> r.Err?)
      && (valid && reply == Some("true") && r.Err? ==> r.error.LookupFailed?)
      && (valid && reply == Some("true") && Resolvable(db.binding, after, name) ==> r.Ok?)
  {
    var args := GrngoTableArgs(db, e, name, options);
    if args.Err? {
      return Err(args.error), "";
    }
    var o := if options.Some? then options.value else NewTableOptions();
    TableArgsSendable(name, TableFlags(TableTypeWord(o).value, HasFlag(o.flags, KEY_WITH_SIS)),
                      o.keyType, o.valueType, o.defaultTokenizer, o.normalizer, o.tokenFilters);
    var created;
    created, sent := QueryCreate("table_create", args.value, name, reply);
    if created.Err? {
      return Err(created.error), sent;
    }
    ghost var argTables := db.tables;
    var found := db.FindTable(after, name);
    if found.Err? {
      return Err(LookupFailed(found.error)), sent;
    }
    assert Grows(argTables, db.tables);
    return Ok(found.value), sent;
  }

  /** grngo's Table.CreateColumn: the options, column_create, then FindColumn on
      the engine as the command left it (grngo.go:792-847). */
  method GrngoCreateColumn(table: Table, e: Engine, name: string, valueType: string, options: Option<ColumnOptions>,
                           reply: Option<string>, after: Engine)
    returns (r: Result<Column, SchemaError>, sent: string)
    requires WellFormed(e) && WellFormed(after) && table.db.Valid() && table.db.Cached(table)
    modifies table.db
    ensures table.db.Valid() && Grows(old(table.db.tables), table.db.tables)
    ensures var o := if options.Some? then options.value else NewColumnOptions();
      var spec := ParseValueType(valueType);
      var known := spec.typeName in GRNGO_COLUMN_TYPES || Findable(table.db.binding, e, spec.typeName, old(table.db.tables));
      && (r.Ok? ==>
            && reply == Some("true") && r.value.table == table && r.value.name == name
            && (table.name, name) in table.db.columns && table.db.columns[(table.name, name)] == r.value
            && TypeNameFound(spec.typeName, GRNGO_COLUMN_TYPES, table.db.tables)
            && GrngoColumnFlags(spec.kind, o.flags).Some?
            && SentCreate(sent, "column_create",
                 ColumnArgs(table.name, name, GrngoColumnFlags(spec.kind, o.flags).value, spec.typeName, spec.source)))
      && (reply != Some("true") ==> r.Err?)
      && (known && GrngoCompression(o.flags).Some? && reply == Some("true") && r.Err? ==> r.error.LookupFailed?)
  {
    var db := table.db;
    var args := GrngoColumnArgs(db, e, table.name, name, valueType, options);
    if args.Err? {
      return Err(args.error), "";
    }
    var o := if options.Some? then options.value else NewColumnOptions();
    var spec := ParseValueType(valueType);
    ColumnArgsSendable(table.name, name, GrngoColumnFlags(spec.kind, o.flags).value, spec.typeName, spec.source);
    var created;
    created, sent := QueryCreate("column_create", args.value, name, reply);
    if created.Err? {
      return Err(created.error), sent;
    }
    ghost var argTables := db.tables;
    var found, _ := table.FindColumn(after, name);
    if found.Err? {
      return Err(LookupFailed(found.error)), sent;
    }
    assert Grows(argTables, db.tables);
    return Ok(found.value), sent;
  }

  /** gnx's GrnDB.CreateTable (grn.go:234-310). */
  method GnxCreateTable(db: DB, e: Engine, name: string, options: Option<GnxTableOptions>, reply: Option<string>, after: Engine)
    returns (r: Result<Table, SchemaError>, sent: string)
    requires WellFormed(e) && WellFormed(after) && db.Valid()
    modifies db
    ensures db.Valid() && Grows(old(db.tables), db.tables)
    ensures var o := if options.Some? then options.value else NewGnxTableOptions();
      var keyArg := if o.keyType == "" then "" else GnxTypeArg(o.keyType, Some("ShortText"));
      var valueArg := if o.valueType == "" then "" else GnxTypeArg(o.valueType, None);
      var valid := && GnxTableTypeWord(o.tableType).Some?
                   && GnxTypeKnown(db.binding, e, o.keyType, Some("ShortText"), old(db.tables))
                   && GnxTypeKnown(db.binding, e, o.valueType, None, old(db.tables));
      && (r == Err(UndefinedTableType) <==> GnxTableTypeWord(o.tableType).None?)
      && (r.Ok? ==>
            && reply == Some("true") && name in db.tables && db.tables[name] == r.value && r.value.name == name
            && (o.keyType == "" || GnxTypeAlias(o.keyType, Some("ShortText")).Some? || o.keyType in db.tables)
            && (o.valueType == "" || GnxTypeAlias(o.valueType, None).Some? || o.valueType in db.tables)
            && SentCreate(sent, "table_create",
                 TableArgs(name, TableFlags(GnxTableTypeWord(o.tableType).value, o.withSIS),
                           keyArg, valueArg, o.defaultTokenizer, o.normalizer, o.tokenFilters)))
      && (reply != Some("true") ==> r.Err?)
      && (valid && reply == Some("true") && r.Err? ==> r.error.LookupFailed?)
      && (valid && reply == Some("true") && Resolvable(db.binding, after, name) ==> r.Ok?)
  {
    var args := GnxTableArgs(db, e, name, options);
    if args.Err? {
      return Err(args.error), "";
    }
    var o := if options.Some? then options.value else NewGnxTableOptions();
    TableArgsSendable(name, TableFlags(GnxTableTypeWord(o.tableType).value, o.withSIS),
                      if o.keyType == "" then "" else GnxTypeArg(o.keyType, Some("ShortText")),
                      if o.valueType == "" then "" else GnxTypeArg(o.valueType, None),
                      o.defaultTokenizer, o.normalizer, o.tokenFilters);
    var created;
    created, sent := QueryCreate("table_create", args.value, name, reply);
    if created.Err? {
      return Err(created.error), sent;
    }
    ghost var argTables := db.tables;
    var found := db.FindTable(after, name);
    if found.Err? {
      return Err(LookupFailed(found.error)), sent;
    }
    assert Grows(argTables, db.tables);
    return Ok(found.value), sent;
  }

  /** gnx's GrnTable.CreateColumn (grn.go:576-641). */
  method GnxCreateColumn(table: Table, e: Engine, name: string, valueType: string, options: Option<GnxColumnOptions>,
                         reply: Option<string>, after: Engine)
    returns (r: Result<Column, SchemaError>, sent: string)
    requires WellFormed(e) && WellFormed(after) && table.db.Valid() && table.db.Cached(table)
    modifies table.db
    ensures table.db.Valid() && Grows(old(table.db.tables), table.db.tables)
    ensures var o := if options.Some? then options.value else NewGnxColumnOptions();
      var kind := GnxColumnKind(o.columnType);
      var known := GnxTypeAlias(valueType, Some("LongText")).Some? || Findable(table.db.binding, e, valueType, old(table.db.tables));
      && (r.Ok? ==>
            && reply == Some("true") && r.value.table == table && r.value.name == name
            && (table.name, name) in table.db.columns && table.db.columns[(table.name, name)] == r.value
            && kind.Some? && GnxColumnFlags(kind.value, o.compressionType, o.withSection, o.withWeight, o.withPosition).Some?
            && SentCreate(sent, "column_create",
                 ColumnArgs(table.name, name, GnxColumnFlags(kind.value, o.compressionType, o.withSection, o.withWeight, o.withPosition).value,
                            GnxTypeArg(valueType, Some("LongText")), if o.source == "" then None else Some(o.source))))
      && (reply != Some("true") ==> r.Err?)
      && (known && kind.Some? && GnxCompression(o.compressionType).Some? && reply == Some("true") && r.Err? ==> r.error.LookupFailed?)
  {
    var db := table.db;
    var args := GnxColumnArgs(db, e, table.name, name, valueType, options);
    if args.Err? {
      return Err(args.error), "";
    }
    var o := if options.Some? then options.value else NewGnxColumnOptions();
    var kind := GnxColumnKind(o.columnType);
    ColumnArgsSendable(table.name, name, GnxColumnFlags(kind.value, o.compressionType, o.withSection, o.withWeight, o.withPosition).value,
                       GnxTypeArg(valueType, Some("LongText")), if o.source == "" then None else Some(o.source));
    var created;
    created, sent := QueryCreate("column_create", args.value, name, reply);
    if created.Err? {
      return Err(created.error), sent;
    }
    var found, _ := table.FindColumn(after, name);
    if found.Err? {
      return Err(LookupFailed(found.error)), sent;
    }
    return Ok(found.value), sent;
  }

  // ---- DB wrappers ----

  /** DB.CreateColumn (grngo.go:549-570): the table looked up by name, then
      Table.CreateColumn. */
  method GrngoDBCreateColumn(db: DB, e: Engine, tableName: string, columnName: string, valueType: string,
                             options: Option<ColumnOptions>, reply: Option<string>, after: Engine)
    returns (r: Result<Column, SchemaError>)
    requires WellFormed(e) && WellFormed(after) && db.Valid()
    modifies db
    ensures db.Valid() && Grows(old(db.tables), db.tables)
    ensures tableName !in db.tables ==> r.Err? && r.error.LookupFailed?
    ensures r.Ok? ==>
      && reply == Some("true") && tableName in db.tables
      && r.value.table == db.tables[tableName] && r.value.name == columnName
      && (tableName, columnName) in db.columns && db.columns[(tableName, columnName)] == r.value
    ensures reply != Some("true") ==> r.Err?
  {
    var table := db.FindTable(e, tableName);
    if table.Err? {
      return Err(LookupFailed(table.error));
    }
    var sent;
    r, sent := GrngoCreateColumn(table.value, e, columnName, valueType, options, reply, after);
  }

  /** GrnDB.CreateColumn (grn.go:421-430). */
  method GnxDBCreateColumn(db: DB, e: Engine, tableName: string, columnName: string, valueType: string,
                           options: Option<GnxColumnOptions>, reply: Option<string>, after: Engine)
    returns (r: Result<Column, SchemaError>)
    requires WellFormed(e) && WellFormed(after) && db.Valid()
    modifies db
    ensures db.Valid() && Grows(old(db.tables), db.tables)
    ensures tableName !in db.tables ==> r.Err? && r.error.LookupFailed?
    ensures r.Ok? ==>
      && reply == Some("true") && tableName in db.tables
      && r.value.table == db.tables[tableName] && r.value.name == columnName
      && (tableName, columnName) in db.columns && db.columns[(tableName, columnName)] == r.value
    ensures reply != Some("true") ==> r.Err?
  {
    var table := db.FindTable(e, tableName);
    if table.Err? {
      return Err(LookupFailed(table.error));
    }
    var sent;
    r, sent := GnxCreateColumn(table.value, e, columnName, valueType, options, reply, after);
  }
}
