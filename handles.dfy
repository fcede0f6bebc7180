/** The Go handle layer shared by grngo.go and the older grn.go: a DB caches a Table
    per table name, a Table caches a Column per column name, and looking a name up
    fills the cache, following key and value references to the tables they name.
    Both files do this identically except for how a builtin type id becomes a Go
    type: grngo's DataType keeps the engine's number, gnx's TypeID supports six. */
module Handles {
  import opened Common
  import opened Engine
  import Strings
  import GrngoC
  import GrnCgo
  import GnxValues

  /** The Go API a handle belongs to. */
  datatype Binding = Grngo | Gnx

  /** The Go type of a table's builtin key or value type: grngo's DataType(t), or the
      TypeID of one of the six types gnx supports (grn.go:331-348, 372-389). */
  function TableType(b: Binding, t: TypeId): (r: Option<int>)
    ensures b.Grngo? ==> r == Some(t)
    ensures b.Gnx? ==> (r.Some? <==> t in {VOID, BOOL, INT64, FLOAT, WGS84_GEO_POINT, SHORT_TEXT})
    ensures b.Gnx? && r.Some? ==> GnxValues.TypeIDName(r.value).Some?
  {
    match b
    case Grngo => Some(t)
    case Gnx =>
      if t == VOID then Some(GnxValues.VoidID)
      else if t == BOOL then Some(GnxValues.BoolID)
      else if t == INT64 then Some(GnxValues.IntID)
      else if t == FLOAT then Some(GnxValues.FloatID)
      else if t == WGS84_GEO_POINT then Some(GnxValues.GeoPointID)
      else if t == SHORT_TEXT then Some(GnxValues.TextID)
      else None
  }

  /** The Go type of a column's builtin value type: gnx drops Void and reads both
      ShortText and LongText as Text (grn.go:675-689). */
  function ColumnType(b: Binding, t: TypeId): (r: Option<int>)
    ensures b.Grngo? ==> r == Some(t)
    ensures b.Gnx? ==> (r.Some? <==> t in {BOOL, INT64, FLOAT, WGS84_GEO_POINT, SHORT_TEXT, LONG_TEXT})
    ensures b.Gnx? && r.Some? ==> r.value != GnxValues.VoidID && GnxValues.TypeIDName(r.value).Some?
  {
    match b
    case Grngo => Some(t)
    case Gnx =>
      if t in {SHORT_TEXT, LONG_TEXT} then Some(GnxValues.TextID)
      else if t == VOID then None
      else TableType(b, t)
  }

  function VoidType(b: Binding): int {
    match b
    case Grngo => VOID
    case Gnx => GnxValues.VoidID
  }

  /** The value type of the _id accessor. */
  function IdType(b: Binding): int {
    match b
    case Grngo => UINT32
    case Gnx => GnxValues.IntID
  }

  datatype HandleError =
    | TableNotFound(name: string)
    | KeyInfoFailed(name: string)
    | ValueInfoFailed(name: string)
    | ColumnValueInfoFailed(name: string)
    | UnsupportedKeyType(dataType: TypeId)
    | UnsupportedValueType(dataType: TypeId)
    | ReferenceToVoid(name: string)
    | TableNameFailed
    | ColumnNotFound(name: string)
    | NotTableReference(name: string)
    | VectorOfVector

  /** The errors a single table or column lookup can report; the other two belong
      to the walk along a dotted path. */
  predicate LookupError(x: HandleError) {
    !x.NotTableReference? && !x.VectorOfVector?
  }

  /** Which type a lookup is reading. */
  datatype Role = Key | TableValue | ColumnValue

  /** How FindTable and findColumn read a type info: a failed info call, an
      unsupported type, a reference whose key type is Void, and a referenced table
      without a name are errors; otherwise the Go type and the name of the
      referenced table, if any. */
  function TypeCheck(b: Binding, e: Engine, name: string, role: Role, ok: bool, info: GrnCgo.TypeInfo): (r: Result<(int, Option<string>), HandleError>)
    requires GrngoC.Live(e, info.refTable)
    ensures r.Ok? ==> ok
    ensures r.Err? ==> LookupError(r.error)
    ensures r.Ok? && r.value.1.Some? ==> info.refTable.Some? && r.value.0 != VoidType(b)
    ensures r.Ok? && info.refTable.Some? ==> r.value.1 == GrnCgo.TableGetName(e, info.refTable)
    ensures r.Ok? && info.refTable.None? ==> r.value.1 == None
    ensures r.Ok? ==> Some(r.value.0) == (if role.ColumnValue? then ColumnType(b, info.dataType) else TableType(b, info.dataType))
  {
    if !ok then
      Err(match role case Key => KeyInfoFailed(name) case TableValue => ValueInfoFailed(name) case ColumnValue => ColumnValueInfoFailed(name))
    else
      var mapped := if role.ColumnValue? then ColumnType(b, info.dataType) else TableType(b, info.dataType);
      match mapped
      case None => Err(if role.Key? then UnsupportedKeyType(info.dataType) else UnsupportedValueType(info.dataType))
      case Some(t) =>
        if info.refTable.None? then Ok((t, None))
        else if t == VoidType(b) then Err(ReferenceToVoid(name))
        else match GrnCgo.TableGetName(e, info.refTable)
          case None => Err(TableNameFailed)
          case Some(n) => Ok((t, Some(n)))
  }

  /** gnx never reports a column as a reference to Void: Void is not among its column types. */
  lemma GnxColumnNeverVoid(e: Engine, name: string, ok: bool, info: GrnCgo.TypeInfo)
    requires GrngoC.Live(e, info.refTable)
    ensures TypeCheck(Gnx, e, name, ColumnValue, ok, info) != Err(ReferenceToVoid(name))
  {
  }

  /** The order in which lookups recurse: a table's object id, 0 for an unknown name. */
  function Rank(e: Engine, name: string): nat {
    match CtxGet(e, name)
    case Some(id) => id + 1
    case None => 0
  }

  /** A reference reported for a table names a table created before it. */
  lemma ReferenceRank(e: Engine, name: string, ref: Option<ObjId>, refName: string)
    requires WellFormed(e) && GrnCgo.FindTable(e, name).Some?
    requires var obj := GrnCgo.FindTable(e, name).value;
      || ref == GrnCgo.KeyInfo(e, Some(obj)).1.refTable
      || ref == GrnCgo.TableValueInfo(e, Some(obj)).1.refTable
    requires GrngoC.Live(e, ref) && GrnCgo.TableGetName(e, ref) == Some(refName)
    ensures Rank(e, refName) < Rank(e, name)
  {
    var obj := GrnCgo.FindTable(e, name).value;
    assert CtxGet(e, refName) == ref;
  }

  ghost predicate Grows<K, V>(m: map<K, V>, m': map<K, V>) {
    forall k :: k in m ==> k in m' && m'[k] == m[k]
  }

  /** FindTable's reading of the key info, then of the value info, of the table
      called name. */
  function KeyCheck(b: Binding, e: Engine, name: string): Result<(int, Option<string>), HandleError>
    requires WellFormed(e) && GrnCgo.FindTable(e, name).Some?
  {
    var obj := GrnCgo.FindTable(e, name);
    TypeCheck(b, e, name, Key, GrnCgo.KeyInfo(e, obj).0, GrnCgo.KeyInfo(e, obj).1)
  }

  function ValueCheck(b: Binding, e: Engine, name: string): Result<(int, Option<string>), HandleError>
    requires WellFormed(e) && GrnCgo.FindTable(e, name).Some?
  {
    var obj := GrnCgo.FindTable(e, name);
    TypeCheck(b, e, name, TableValue, GrnCgo.TableValueInfo(e, obj).0, GrnCgo.TableValueInfo(e, obj).1)
  }

  /** What a freshly built handle for the table called name holds; the tables it
      refers to are the cached handles of the names KeyCheck and ValueCheck give. */
  ghost predicate Describes(b: Binding, e: Engine, name: string, t: Table)
    requires WellFormed(e)
  {
    && GrnCgo.FindTable(e, name) == Some(t.obj)
    && t.name == name
    && KeyCheck(b, e, name).Ok? && ValueCheck(b, e, name).Ok?
    && t.keyType == KeyCheck(b, e, name).value.0 && t.valueType == ValueCheck(b, e, name).value.0
    && (KeyCheck(b, e, name).value.1.None? <==> t.keyTable == null)
    && (ValueCheck(b, e, name).value.1.None? <==> t.valueTable == null)
  }

  /** A key (or value) reference reported for the table called name names a
      table created before it. */
  lemma CheckRank(b: Binding, e: Engine, name: string, role: Role)
    requires WellFormed(e) && GrnCgo.FindTable(e, name).Some? && !role.ColumnValue?
    requires var check := if role.Key? then KeyCheck(b, e, name) else ValueCheck(b, e, name);
      check.Ok? && check.value.1.Some?
    ensures var check := if role.Key? then KeyCheck(b, e, name) else ValueCheck(b, e, name);
      Rank(e, check.value.1.value) < Rank(e, name)
  {
    var obj := GrnCgo.FindTable(e, name);
    if role.Key? {
      ReferenceRank(e, name, GrnCgo.KeyInfo(e, obj).1.refTable, KeyCheck(b, e, name).value.1.value);
    } else {
      ReferenceRank(e, name, GrnCgo.TableValueInfo(e, obj).1.refTable, ValueCheck(b, e, name).value.1.value);
    }
  }

  /** The tables FindTable can build a handle for whatever it has cached: the
      table exists, its key and value infos pass their checks, and the tables they
      refer to can be built in turn. */
  ghost predicate Resolvable(b: Binding, e: Engine, name: string)
    requires WellFormed(e)
    decreases Rank(e, name)
  {
    && GrnCgo.FindTable(e, name).Some?
    && CheckResolvable(b, e, name, Key)
    && CheckResolvable(b, e, name, TableValue)
  }

  /** One side of Resolvable: the check passes and the table it names, if any, is
      resolvable. */
  ghost predicate CheckResolvable(b: Binding, e: Engine, name: string, role: Role)
    requires WellFormed(e) && GrnCgo.FindTable(e, name).Some? && !role.ColumnValue?
    decreases Rank(e, name), 0
  {
    var check := if role.Key? then KeyCheck(b, e, name) else ValueCheck(b, e, name);
    if check.Err? then false
    else if check.value.1.None? then true
    else CheckRank(b, e, name, role); Resolvable(b, e, check.value.1.value)
  }

  /** findColumn's reading of the value info of an ordinary column. */
  function ColumnCheck(b: Binding, e: Engine, name: string, column: ObjId): Result<(int, Option<string>), HandleError>
    requires WellFormed(e) && column in e.objs
  {
    TypeCheck(b, e, name, ColumnValue, GrnCgo.ColumnValueInfo(e, Some(column)).0, GrnCgo.ColumnValueInfo(e, Some(column)).1)
  }

  /** The columns a walk along a dotted path has found, the last one outermost. */
  datatype Path = Origin | Hop(before: Path, column: Column)

  function Len(p: Path): nat {
    match p
    case Origin => 0
    case Hop(before, _) => Len(before) + 1
  }

  /** The columns of a path in the order they were found. */
  function Columns(p: Path): (cs: seq<Column>)
    ensures |cs| == Len(p)
  {
    match p
    case Origin => []
    case Hop(before, c) => Columns(before) + [c]
  }

  /** The first column of a path. */
  function First(p: Path): Column
    requires p.Hop?
  {
    if p.before.Origin? then p.column else First(p.before)
  }

  /** The checks FindColumn's loop has made once it has found the columns of p: a
      column may be followed only when it refers to a table, and at most one may
      be a vector; the value is whether the path is a vector. */
  function PathState(p: Path): Result<bool, HandleError>
    requires p.Hop?
  {
    match p.before
    case Origin => Ok(p.column.isVector)
    case Hop(_, previous) =>
      match PathState(p.before)
      case Err(x) => Err(x)
      case Ok(isVector) =>
        if previous.valueTable == null then Err(NotTableReference(previous.name))
        else if p.column.isVector && isVector then Err(VectorOfVector)
        else Ok(isVector || p.column.isVector)
  }

  /** Every column of p refers to a table. */
  predicate AllRefer(p: Path) {
    match p
    case Origin => true
    case Hop(before, c) => AllRefer(before) && c.valueTable != null
  }

  function VectorCount(p: Path): nat {
    match p
    case Origin => 0
    case Hop(before, c) => VectorCount(before) + if c.isVector then 1 else 0
  }

  /** A path is accepted exactly when every column but the last refers to a table
      and at most one column is a vector, and it is a vector exactly when one
      column is. */
  lemma {:induction false} PathStateAccepts(p: Path)
    requires p.Hop?
    ensures PathState(p).Ok? <==> AllRefer(p.before) && VectorCount(p) <= 1
    ensures PathState(p).Ok? ==> (PathState(p).value <==> VectorCount(p) == 1)
  {
    if p.before.Hop? {
      PathStateAccepts(p.before);
    }
  }

  /** What findColumn makes of name on table t when it is not cached: no column
      is an error; _id, _key and _value take fixed types; any other column takes
      the type of its value info and the cached handle of the table it refers to. */
  ghost predicate ResolvesColumn(e: Engine, t: Table, name: string, r: Result<Column, HandleError>, tables: map<string, Table>)
    requires WellFormed(e)
  {
    var found := ObjColumn(e, t.obj, name);
    && (found.None? ==> r == Err(ColumnNotFound(name)))
    && (r.Ok? ==> found == Some(r.value.obj))
    && (found.Some? && name == "_id" ==> r == Ok(Column(t, found.value, name, IdType(t.db.binding), false, null)))
    && (found.Some? && name == "_key" ==> r == Ok(Column(t, found.value, name, t.keyType, false, t.keyTable)))
    && (found.Some? && name == "_value" ==> r == Ok(Column(t, found.value, name, t.valueType, false, t.valueTable)))
    && (found.Some? && name !in {"_id", "_key", "_value"} ==>
          var check := ColumnCheck(t.db.binding, e, name, found.value);
          && (check.Err? ==> r == Err(check.error))
          && (check.Ok? && (check.value.1.Some? ==> Resolvable(t.db.binding, e, check.value.1.value)) ==> r.Ok?)
          && (r.Ok? ==>
                && check.Ok? && r.value.valueType == check.value.0
                && (r.value.isVector <==> GrnCgo.ColumnValueInfo(e, found).1.dimension > 0)
                && (check.value.1.None? <==> r.value.valueTable == null)
                && (check.value.1.Some? ==>
                      check.value.1.value in tables && tables[check.value.1.value] == r.value.valueTable)))
  }

  /** p is a walk from table t along the first parts of a dotted path: each
      column is named by its part and lies in t, for the first, or in the table
      the column before it refers to. */
  predicate Follows(p: Path, parts: seq<string>, t: Table) {
    match p
    case Origin => true
    case Hop(before, c) =>
      && Len(before) < |parts| && c.name == parts[Len(before)] && Follows(before, parts, t)
      && c.table == if before.Origin? then t else before.column.valueTable
  }

  /** Follows, column by column. */
  lemma {:induction false} FollowsHopByHop(p: Path, parts: seq<string>, t: Table)
    ensures Follows(p, parts, t) <==>
      var cs := Columns(p);
      && |cs| <= |parts|
      && (|cs| > 0 ==> cs[0].table == t)
      && (forall i :: 0 <= i < |cs| ==> cs[i].name == parts[i])
      && (forall i :: 0 < i < |cs| ==> cs[i].table == cs[i - 1].valueTable)
  {
    match p
    case Origin =>
    case Hop(before, c) =>
      FollowsHopByHop(before, parts, t);
      var cs := Columns(before);
      assert Columns(p) == cs + [c];
      assert forall i :: 0 <= i < |cs| ==> Columns(p)[i] == cs[i];
      assert Columns(p)[|cs|] == c;
      if before.Hop? {
        assert cs == Columns(before.before) + [before.column];
        assert cs[|cs| - 1] == before.column;
      } else {
        assert cs == [];
      }
  }

  /** How a walk over n parts that found p ends: with the last column, the path's
      vector flag and the first column's value table once every part is found;
      with NotTableReference at a column that refers to no table before the last
      part; with VectorOfVector at a second vector column; or with the failure of
      a lookup before every part is found. */
  predicate WalkEnds(p: Path, n: nat, r: Result<(Column, bool, Table?), HandleError>) {
    match r
    case Ok(v) => p.Hop? && Len(p) == n && PathState(p) == Ok(v.1) && v.0 == p.column && v.2 == First(p).valueTable
    case Err(x) =>
      if x.NotTableReference? then
        p.Hop? && Len(p) < n && PathState(p).Ok? && p.column.valueTable == null && x.name == p.column.name
      else if x.VectorOfVector? then
        p.Hop? && p.before.Hop? && PathState(p) == Err(VectorOfVector)
      else
        Len(p) < n && (p.Hop? ==> PathState(p).Ok?)
  }

  /** A column handle; the Go struct is never changed once built. */
  datatype Column = Column(table: Table, obj: ObjId, name: string, valueType: int, isVector: bool, valueTable: Table?)

  class DB {
    const binding: Binding
    var tables: map<string, Table>
    /** The column caches of the tables (Table.columns), keyed by the name of the
        table and the name of the column. */
    var columns: map<(string, string), Column>

    constructor (binding: Binding)
      ensures this.binding == binding && tables == map[] && columns == map[] && Valid()
    {
      this.binding := binding;
      tables := map[];
      columns := map[];
    }

    /** t is null or the handle cached under its name. */
    ghost predicate Cached(t: Table?)
      reads this
    {
      t == null || (t.name in tables && tables[t.name] == t)
    }

    /** Every cached table belongs to this DB under its own name, every cached
        column belongs to the cached table it is keyed by, and every table a cached
        handle refers to is cached too. */
    ghost predicate Valid()
      reads this
    {
      && (forall n :: n in tables ==>
            && tables[n].db == this && tables[n].name == n
            && Cached(tables[n].keyTable) && Cached(tables[n].valueTable))
      && (forall k :: k in columns ==>
            && k.0 in tables && columns[k].table == tables[k.0] && columns[k].name == k.1
            && Cached(columns[k].valueTable))
    }

    /** DB.FindTable: the cached handle, or a new one built from the key and value
        infos, the tables they refer to looked up first (grngo.go:475-538,
        grn.go:312-410). */
    method FindTable(e: Engine, name: string) returns (r: Result<Table, HandleError>)
      requires WellFormed(e) && Valid()
      modifies this
      decreases Rank(e, name), 3
      ensures Valid() && Grows(old(tables), tables) && columns == old(columns)
      ensures forall n :: n in tables && n !in old(tables) ==> 0 < Rank(e, n) <= Rank(e, name)
      ensures name in old(tables) ==> r == Ok(old(tables[name])) && tables == old(tables)
      ensures r.Ok? ==> name in tables && tables[name] == r.value
      ensures r.Err? ==> LookupError(r.error)
      ensures name !in old(tables) && r.Ok? ==>
        && fresh(r.value) && r.value.db == this
        && Describes(binding, e, name, r.value)
        && (KeyCheck(binding, e, name).value.1.Some? ==>
              KeyCheck(binding, e, name).value.1.value in tables && tables[KeyCheck(binding, e, name).value.1.value] == r.value.keyTable)
        && (ValueCheck(binding, e, name).value.1.Some? ==>
              ValueCheck(binding, e, name).value.1.value in tables && tables[ValueCheck(binding, e, name).value.1.value] == r.value.valueTable)
      ensures name !in old(tables) && GrnCgo.FindTable(e, name).None? ==> r == Err(TableNotFound(name))
      ensures name !in old(tables) && GrnCgo.FindTable(e, name).Some? && KeyCheck(binding, e, name).Err? ==>
        r == Err(KeyCheck(binding, e, name).error)
      ensures name !in old(tables) && GrnCgo.FindTable(e, name).Some? ==>
        (KeyCheck(binding, e, name).Ok? && ValueCheck(binding, e, name).Err? ==> r.Err?)
      ensures Resolvable(binding, e, name) ==> r.Ok?
    {
      if name in tables {
        return Ok(tables[name]);
      }
      var obj := GrnCgo.FindTable(e, name);
      if obj.None? {
        return Err(TableNotFound(name));
      }
      assert Resolvable(binding, e, name) ==>
        CheckResolvable(binding, e, name, Key) && CheckResolvable(binding, e, name, TableValue);
      var key := Resolve(e, name, Key);
      if key.Err? {
        return Err(key.error);
      }
      var value := Resolve(e, name, TableValue);
      if value.Err? {
        return Err(value.error);
      }
      var table := new Table(this, obj.value, name, key.value.0, key.value.1, value.value.0, value.value.1);
      Add(name, table);
      return Ok(table);
    }

    /** One half of FindTable: read the key (or value) info of the table called
        name and look up the table it refers to. */
    method Resolve(e: Engine, name: string, role: Role) returns (r: Result<(int, Table?), HandleError>)
      requires WellFormed(e) && Valid() && GrnCgo.FindTable(e, name).Some? && !role.ColumnValue?
      modifies this
      decreases Rank(e, name), 2
      ensures Valid() && Grows(old(tables), tables) && columns == old(columns)
      ensures forall n :: n in tables && n !in old(tables) ==> 0 < Rank(e, n) < Rank(e, name)
      ensures r.Err? ==> LookupError(r.error)
      ensures var check := if role.Key? then KeyCheck(binding, e, name) else ValueCheck(binding, e, name);
        && (check.Err? ==> r == Err(check.error))
        && (r.Ok? ==>
              && check.Ok? && r.value.0 == check.value.0
              && (check.value.1.None? <==> r.value.1 == null)
              && (check.value.1.Some? ==> check.value.1.value in tables && tables[check.value.1.value] == r.value.1))
      ensures CheckResolvable(binding, e, name, role) ==> r.Ok?
    {
      var obj := GrnCgo.FindTable(e, name);
      var ok, info;
      if role.Key? {
        ok, info := GrnCgo.TableGetKeyInfo(e, obj);
      } else {
        ok, info := GrnCgo.TableGetValueInfo(e, obj);
      }
      var check := TypeCheck(binding, e, name, role, ok, info);
      assert check == if role.Key? then KeyCheck(binding, e, name) else ValueCheck(binding, e, name);
      if check.Err? {
        return Err(check.error);
      }
      if check.value.1.Some? {
        ReferenceRank(e, name, info.refTable, check.value.1.value);
      }
      var found := FindReferenced(e, name, check.value.1);
      if found.Err? {
        return Err(found.error);
      }
      return Ok((check.value.0, found.value));
    }

    /** The handle of a table that name's table refers to, null for no reference. */
    method FindReferenced(e: Engine, name: string, ref: Option<string>) returns (r: Result<Table?, HandleError>)
      requires WellFormed(e) && Valid()
      requires ref.Some? ==> Rank(e, ref.value) < Rank(e, name)
      modifies this
      decreases Rank(e, name), 1
      ensures Valid() && Grows(old(tables), tables) && columns == old(columns)
      ensures forall n :: n in tables && n !in old(tables) ==> 0 < Rank(e, n) < Rank(e, name)
      ensures r.Err? ==> LookupError(r.error)
      ensures r.Ok? ==> (ref.None? <==> r.value == null)
      ensures r.Ok? && ref.Some? ==> ref.value in tables && tables[ref.value] == r.value
      ensures ref.None? ==> r == Ok(null) && tables == old(tables)
      ensures ref.Some? && Resolvable(binding, e, ref.value) ==> r.Ok?
    {
      if ref.None? {
        return Ok(null);
      }
      var found := FindTable(e, ref.value);
      if found.Err? {
        return Err(found.error);
      }
      return Ok(found.value);
    }

    /** db.tables[name] = table, for a new handle whose references are cached. */
    method Add(name: string, table: Table)
      requires Valid() && name !in tables
      requires table.db == this && table.name == name
      requires Cached(table.keyTable) && Cached(table.valueTable)
      modifies this
      ensures Valid() && tables == old(tables)[name := table] && columns == old(columns)
    {
      tables := tables[name := table];
    }

    /** table.columns[name] = column, for a handle whose reference is cached. */
    method AddColumn(key: (string, string), column: Column)
      requires Valid() && key.0 in tables && column.table == tables[key.0] && column.name == key.1
      requires Cached(column.valueTable)
      modifies this
      ensures Valid() && tables == old(tables) && columns == old(columns)[key := column]
    {
      columns := columns[key := column];
    }
  }

  /** A table handle; grngo's Table struct without its column cache, which lives in
      DB.columns. */
  class Table {
    const db: DB
    const obj: ObjId
    const name: string
    const keyType: int
    const keyTable: Table?
    const valueType: int
    const valueTable: Table?

    constructor (db: DB, obj: ObjId, name: string, keyType: int, keyTable: Table?, valueType: int, valueTable: Table?)
      ensures this.db == db && this.obj == obj && this.name == name
      ensures this.keyType == keyType && this.keyTable == keyTable
      ensures this.valueType == valueType && this.valueTable == valueTable
    {
      this.db := db;
      this.obj := obj;
      this.name := name;
      this.keyType := keyType;
      this.keyTable := keyTable;
      this.valueType := valueType;
      this.valueTable := valueTable;
    }

    /** Table.findColumn: the cached handle, or a new one for the column or accessor
        the table resolves name to.  _id, _key and _value take fixed types; any
        other column is read through its value info (grngo.go:849-903,
        grn.go:643-711). */
    method FindSimpleColumn(e: Engine, name: string) returns (r: Result<Column, HandleError>)
      requires WellFormed(e) && db.Valid() && db.Cached(this)
      modifies db
      ensures db.Valid() && db.Cached(this) && Grows(old(db.tables), db.tables) && Grows(old(db.columns), db.columns)
      ensures (this.name, name) in old(db.columns) ==>
        r == Ok(old(db.columns[(this.name, name)])) && db.columns == old(db.columns) && db.tables == old(db.tables)
      ensures (this.name, name) !in old(db.columns) ==>
        db.columns == if r.Ok? then old(db.columns)[(this.name, name) := r.value] else old(db.columns)
      ensures r.Ok? ==> r.value.table == this && r.value.name == name && db.Cached(r.value.valueTable)
      ensures r.Err? ==> LookupError(r.error)
      ensures (this.name, name) !in old(db.columns) ==> ResolvesColumn(e, this, name, r, db.tables)
    {
      if (this.name, name) in db.columns {
        return Ok(db.columns[(this.name, name)]);
      }
      var column := ObjColumn(e, obj, name);
      if column.None? {
        return Err(ColumnNotFound(name));
      }
      var valueType: int;
      var valueTable: Table?;
      var isVector := false;
      if name == "_id" {
        valueType, valueTable := IdType(db.binding), null;
      } else if name == "_key" {
        valueType, valueTable := keyType, keyTable;
      } else if name == "_value" {
        valueType, valueTable := this.valueType, this.valueTable;
      } else {
        var ok, info := GrnCgo.ColumnGetValueInfo(e, column);
        var check := TypeCheck(db.binding, e, name, ColumnValue, ok, info);
        assert check == ColumnCheck(db.binding, e, name, column.value);
        if check.Err? {
          return Err(check.error);
        }
        valueType := check.value.0;
        isVector := info.dimension > 0;
        valueTable := null;
        if check.value.1.Some? {
          var found := db.FindTable(e, check.value.1.value);
          if found.Err? {
            return Err(found.error);
          }
          valueTable := found.value;
        }
      }
      r := Ok(Column(this, column.value, name, valueType, isVector, valueTable));
      db.AddColumn((this.name, name), r.value);
    }

    /** One step of the walk from this table: findColumn on t, which is this table
        for the first part and the table the last column refers to after it, and
        what the step makes of the path. */
    method NextHop(e: Engine, t: Table, part: string, ghost parts: seq<string>, ghost path: Path, ghost isVector: bool)
      returns (r: Result<Column, HandleError>)
      requires WellFormed(e) && db.Valid() && db.Cached(this) && db.Cached(t)
      requires Len(path) < |parts| && part == parts[Len(path)] && Follows(path, parts, this)
      requires path.Origin? ==> t == this
      requires path.Hop? ==> PathState(path) == Ok(isVector) && t == path.column.valueTable
      modifies db
      ensures db.Valid() && Grows(old(db.tables), db.tables) && Grows(old(db.columns), db.columns)
      ensures r.Err? ==> LookupError(r.error)
      ensures r.Ok? ==> Follows(Hop(path, r.value), parts, this) && db.Cached(r.value.valueTable)
      ensures r.Ok? && path.Origin? ==> PathState(Hop(path, r.value)) == Ok(r.value.isVector)
      ensures r.Ok? && path.Hop? ==>
        PathState(Hop(path, r.value)) == if r.value.isVector && isVector then Err(VectorOfVector) else Ok(isVector || r.value.isVector)
    {
      r := t.FindSimpleColumn(e, part);
    }

    /** The walk of Table.FindColumn along the parts of a dotted path: findColumn on
        each part, starting at this table and following the value references; each
        column but the last must refer to a table and at most one may be a vector.
        Returns the last column, whether the path is a vector, and the first
        column's value table. */
    method WalkPath(e: Engine, parts: seq<string>) returns (r: Result<(Column, bool, Table?), HandleError>, ghost path: Path)
      requires WellFormed(e) && db.Valid() && db.Cached(this) && |parts| >= 1
      modifies db
      ensures db.Valid() && db.Cached(this) && Grows(old(db.tables), db.tables) && Grows(old(db.columns), db.columns)
      ensures Follows(path, parts, this) && WalkEnds(path, |parts|, r)
      ensures r.Ok? ==> db.Cached(r.value.2)
    {
      var first := NextHop(e, this, parts[0], parts, Origin, false);
      if first.Err? {
        return Err(first.error), Origin;
      }
      var column := first.value;
      path := Hop(Origin, column);
      var isVector := column.isVector;
      var valueTable := column.valueTable;
      var i := 1;
      while i < |parts|
        invariant 1 <= i <= |parts| && path.Hop? && Len(path) == i && path.column == column
        invariant Follows(path, parts, this) && PathState(path) == Ok(isVector)
        invariant valueTable == First(path).valueTable && db.Cached(valueTable)
        invariant db.Valid() && db.Cached(this) && db.Cached(column.valueTable)
        invariant Grows(old(db.tables), db.tables) && Grows(old(db.columns), db.columns)
      {
        if column.valueTable == null {
          return Err(NotTableReference(column.name)), path;
        }
        var found := NextHop(e, column.valueTable, parts[i], parts, path, isVector);
        if found.Err? {
          return Err(found.error), path;
        }
        column := found.value;
        path := Hop(path, column);
        if column.isVector && isVector {
          return Err(VectorOfVector), path;
        }
        isVector := isVector || column.isVector;
        i := i + 1;
      }
      return Ok((column, isVector, valueTable)), path;
    }

    /** The dotted branch of Table.FindColumn on a cache miss: the walk along the
        parts of name, then one handle for the whole path with the last column's
        value type, the first column's value table and the path's vector flag,
        which is cached under the whole name (grngo.go:914-947, grn.go:722-755). */
    method FindPathColumn(e: Engine, name: string) returns (r: Result<Column, HandleError>, ghost path: Path)
      requires WellFormed(e) && db.Valid() && db.Cached(this) && (this.name, name) !in db.columns
      modifies db
      ensures db.Valid() && Grows(old(db.tables), db.tables) && Grows(old(db.columns), db.columns)
      ensures r.Ok? ==> (this.name, name) in db.columns && db.columns[(this.name, name)] == r.value
      ensures r.Ok? ==> r.value.table == this && r.value.name == name
      ensures
        var parts := Strings.Split(name, '.');
        && Follows(path, parts, this)
        && (r.Ok? ==>
              && path.Hop? && Len(path) == |parts| && PathState(path) == Ok(r.value.isVector)
              && r.value.valueType == path.column.valueType && r.value.valueTable == First(path).valueTable
              && ObjColumn(e, obj, name) == Some(r.value.obj))
        && (r.Err? ==>
              || WalkEnds(path, |parts|, Err(r.error))
              || (path.Hop? && Len(path) == |parts| && PathState(path).Ok?
                  && r == Err(ColumnNotFound(name)) && ObjColumn(e, obj, name).None?))
    {
      var parts := Strings.Split(name, '.');
      var walked;
      walked, path := WalkPath(e, parts);
      if walked.Err? {
        return Err(walked.error), path;
      }
      var found := ObjColumn(e, obj, name);
      if found.None? {
        return Err(ColumnNotFound(name)), path;
      }
      r := Ok(Column(this, found.value, name, walked.value.0.valueType, walked.value.1, walked.value.2));
      db.AddColumn((this.name, name), r.value);
    }

    /** Table.FindColumn: the cached handle; for a name without a dot, findColumn;
        for a dotted path, FindPathColumn (grngo.go:906-948, grn.go:714-756). */
    method FindColumn(e: Engine, name: string) returns (r: Result<Column, HandleError>, ghost path: Path)
      requires WellFormed(e) && db.Valid() && db.Cached(this)
      modifies db
      ensures db.Valid() && Grows(old(db.tables), db.tables) && Grows(old(db.columns), db.columns)
      ensures (this.name, name) in old(db.columns) ==> r == Ok(old(db.columns[(this.name, name)]))
      ensures r.Ok? ==> (this.name, name) in db.columns && db.columns[(this.name, name)] == r.value
      ensures r.Ok? ==> r.value.table == this && r.value.name == name
      ensures (this.name, name) !in old(db.columns) && '.' !in name ==> ResolvesColumn(e, this, name, r, db.tables)
      ensures (this.name, name) !in old(db.columns) && '.' in name ==>
        var parts := Strings.Split(name, '.');
        && Follows(path, parts, this)
        && (r.Ok? ==>
              && path.Hop? && Len(path) == |parts| && PathState(path) == Ok(r.value.isVector)
              && r.value.valueType == path.column.valueType && r.value.valueTable == First(path).valueTable
              && ObjColumn(e, obj, name) == Some(r.value.obj))
        && (r.Err? ==>
              || WalkEnds(path, |parts|, Err(r.error))
              || (path.Hop? && Len(path) == |parts| && PathState(path).Ok?
                  && r == Err(ColumnNotFound(name)) && ObjColumn(e, obj, name).None?))
    {
      path := Origin;
      if (this.name, name) in db.columns {
        return Ok(db.columns[(this.name, name)]), path;
      }
      if Strings.IndexOf(name, '.') == -1 {
        r := FindSimpleColumn(e, name);
      } else {
        r, path := FindPathColumn(e, name);
      }
    }
  }
}
