/** grngo.c, the rc-returning C layer: finding a table, classifying the key and value
    types of tables and columns, and validating row insertions before the engine's
    add-or-find.  The out-parameter structs become returned records; a NULL object
    pointer is None. */
module GrngoC {
  import opened Common
  import opened Ints
  import opened Engine

  /** grngo_table_type_info: a builtin data type, or VOID and the referenced table. */
  datatype TableTypeInfo = TableTypeInfo(dataType: TypeId, refTable: Option<ObjId>)

  /** grngo_column_type_info: the same, and whether the column holds vectors. */
  datatype ColumnTypeInfo = ColumnTypeInfo(dataType: TypeId, isVector: bool, refTable: Option<ObjId>)

  /** A pointer the caller passes is NULL or a live object. */
  predicate Live(e: Engine, obj: Option<ObjId>) {
    obj.Some? ==> obj.value in e.objs
  }

  predicate IsTableObj(e: Engine, obj: Option<ObjId>) {
    obj.Some? && obj.value in e.objs && IsTable(e.objs[obj.value].kind)
  }

  /** The code reported when an engine lookup or add yields nothing: ctx->rc when it
      is set, UNKNOWN_ERROR otherwise.  Never SUCCESS. */
  function FailureRc(e: Engine): (rc: Rc)
    ensures rc != Success
    ensures e.rc != Success ==> rc == e.rc
    ensures e.rc == Success ==> rc == UnknownError
  {
    if e.rc != Success then e.rc else UnknownError
  }

  /** grngo_find_table. */
  function FindTable(e: Engine, name: Option<string>): (r: Result<ObjId, Rc>)
    ensures name.None? ==> r == Err(InvalidArgument)
    ensures r.Ok? <==> name.Some? && IsTableObj(e, CtxGet(e, name.value))
    ensures r.Ok? ==> Some(r.value) == CtxGet(e, name.value)
    ensures name.Some? && CtxGet(e, name.value).None? ==> r == Err(FailureRc(e))
    ensures name.Some? && CtxGet(e, name.value).Some? && !IsTableObj(e, CtxGet(e, name.value)) ==>
      r == Err(InvalidFormat)
  {
    if name.None? then Err(InvalidArgument)
    else match CtxGet(e, name.value)
      case None => Err(FailureRc(e))
      case Some(obj) => if !IsTable(e.objs[obj].kind) then Err(InvalidFormat) else Ok(obj)
  }

  /** How the three info functions read a domain or range id: a builtin id is the data
      type itself; a larger id must name a table, which becomes the reference and
      leaves the data type VOID. */
  function ResolveType(e: Engine, id: TypeId): (r: Result<TableTypeInfo, Rc>)
    ensures r.Ok? ==> IsBuiltinType(r.value.dataType)
    ensures IsBuiltinType(id) <==> r == Ok(TableTypeInfo(id, None))
    ensures !IsBuiltinType(id) && IsTableObj(e, CtxAt(e, id)) <==> r == Ok(TableTypeInfo(VOID, Some(id)))
    ensures !IsBuiltinType(id) && !IsTableObj(e, CtxAt(e, id)) <==> r == Err(FailureRc(e))
  {
    if IsBuiltinType(id) then Ok(TableTypeInfo(id, None))
    else
      var ref := CtxAt(e, id);
      if !IsTableObj(e, ref) then Err(FailureRc(e)) else Ok(TableTypeInfo(VOID, ref))
  }

  /** grngo_table_get_key_info. */
  function TableGetKeyInfo(e: Engine, table: Option<ObjId>): (r: Result<TableTypeInfo, Rc>)
    requires Live(e, table)
    ensures !IsTableObj(e, table) ==> r == Err(InvalidArgument)
    ensures r.Err? ==> r.error != Success
    ensures r.Ok? ==> IsBuiltinType(r.value.dataType)
    ensures r.Ok? && r.value.refTable.Some? ==>
      && r.value.dataType == VOID
      && IsTableObj(e, r.value.refTable)
      && r.value.refTable.value == e.objs[table.value].domain
  {
    if !IsTableObj(e, table) then Err(InvalidArgument)
    else
      var t := e.objs[table.value];
      if t.kind.NoKeyTable? then Ok(TableTypeInfo(VOID, None))
      else ResolveType(e, t.domain)
  }

  /** The three outcomes of the key-info lookup on a table, each in both directions. */
  lemma TableGetKeyInfoCases(e: Engine, table: ObjId)
    requires table in e.objs && IsTable(e.objs[table].kind)
    ensures var t := e.objs[table];
            var r := TableGetKeyInfo(e, Some(table));
            && (t.kind.NoKeyTable? ==> r == Ok(TableTypeInfo(VOID, None)))
            && (IsKeyedTable(t.kind) && IsBuiltinType(t.domain) <==> r.Ok? && r.value.dataType == t.domain && r.value.refTable.None? && !t.kind.NoKeyTable?)
            && (IsKeyedTable(t.kind) && !IsBuiltinType(t.domain) ==>
                  (r.Ok? <==> IsTableObj(e, CtxAt(e, t.domain))) && (r.Ok? ==> r.value == TableTypeInfo(VOID, Some(t.domain))))
  {
  }

  /** grngo_table_get_value_info. */
  function TableGetValueInfo(e: Engine, table: Option<ObjId>): (r: Result<TableTypeInfo, Rc>)
    requires Live(e, table)
    ensures !IsTableObj(e, table) ==> r == Err(InvalidArgument)
    ensures IsTableObj(e, table) ==> r == ResolveType(e, e.objs[table.value].range)
  {
    if !IsTableObj(e, table) then Err(InvalidArgument)
    else ResolveType(e, e.objs[table.value].range)
  }

  /** grngo_column_get_value_info. */
  function ColumnGetValueInfo(e: Engine, column: Option<ObjId>): (r: Result<ColumnTypeInfo, Rc>)
    requires Live(e, column)
    ensures column.None? ==> r == Err(InvalidArgument)
    ensures column.Some? && !IsDataColumn(e.objs[column.value].kind) ==> r == Err(InvalidArgument)
    ensures r.Ok? ==> (r.value.isVector <==> e.objs[column.value].kind == VarSizeColumn(true))
    ensures r.Ok? ==> IsDataColumn(e.objs[column.value].kind)
    ensures column.Some? && IsDataColumn(e.objs[column.value].kind) ==>
      match ResolveType(e, e.objs[column.value].range)
        case Ok(info) => r.Ok? && r.value.dataType == info.dataType && r.value.refTable == info.refTable
        case Err(rc) => r == Err(rc)
  {
    if column.None? then Err(InvalidArgument)
    else
      var c := e.objs[column.value];
      if !IsDataColumn(c.kind) then Err(InvalidArgument)
      else
        var isVector := c.kind.VarSizeColumn? && c.kind.vector;
        match ResolveType(e, c.range)
          case Err(rc) => Err(rc)
          case Ok(info) => Ok(ColumnTypeInfo(info.dataType, isVector, info.refTable))
  }

  // ---- Row insertion ----

  /** grngo_table_insertion_result. */
  datatype InsertionResult = InsertionResult(rc: Rc, inserted: bool, id: RowId)

  /** The promise of the result struct: SUCCESS exactly when a row id comes back,
      and a failed insertion inserts nothing. */
  predicate ValidInsertionResult(r: InsertionResult) {
    && (r.rc == Success <==> r.id != ID_NIL)
    && (r.rc != Success ==> !r.inserted)
  }

  /** grngo_table_insertion_error. */
  function InsertionError(rc: Rc): (r: InsertionResult)
    requires rc != Success
    ensures ValidInsertionResult(r) && r.rc == rc
  {
    InsertionResult(rc, false, ID_NIL)
  }

  /** The key bytes grn_table_add receives: NULL with size 0 is the empty key. */
  function KeyBytes(key: Option<Bytes>): Bytes {
    if key.Some? then key.value else []
  }

  /** grngo_table_insert_row: argument checks, then the engine's add-or-find.  key is
      NULL or the keySize bytes it points to. */
  function InsertRow(e: Engine, table: Option<ObjId>, key: Option<Bytes>, keySize: nat): (r: (Engine, InsertionResult))
    requires Live(e, table)
    requires key.Some? ==> |key.value| == keySize
    ensures ValidInsertionResult(r.1)
    ensures r.1.rc != Success ==> r.0 == e
    ensures !IsTableObj(e, table) || (key.None? && keySize != 0) ==> r == (e, InsertionError(InvalidArgument))
    ensures IsTableObj(e, table) && (key.Some? || keySize == 0) ==>
      var (e', id, inserted) := TableAdd(e, table.value, KeyBytes(key));
      if id == ID_NIL then r == (e, InsertionError(FailureRc(e)))
      else r == (e', InsertionResult(Success, inserted, id))
  {
    if !IsTableObj(e, table) || (key.None? && keySize != 0) then (e, InsertionError(InvalidArgument))
    else
      var (e', id, inserted) := TableAdd(e, table.value, KeyBytes(key));
      if id == ID_NIL then (e, InsertionError(FailureRc(e)))
      else (e', InsertionResult(Success, inserted, id))
  }

  /** grngo_table_insert_void. */
  function InsertVoid(e: Engine, table: Option<ObjId>): (r: (Engine, InsertionResult))
    requires Live(e, table)
    ensures ValidInsertionResult(r.1)
    ensures IsTableObj(e, table) && r.1.rc == Success ==>
      (r.0, r.1.id, r.1.inserted) == TableAdd(e, table.value, [])
  {
    InsertRow(e, table, None, 0)
  }

  /** grngo_table_insert_bool: the grn_bool byte as the key. */
  function InsertBool(e: Engine, table: Option<ObjId>, key: uint8): (r: (Engine, InsertionResult))
    requires Live(e, table)
    ensures ValidInsertionResult(r.1)
    ensures IsTableObj(e, table) && r.1.rc == Success ==>
      (r.0, r.1.id, r.1.inserted) == TableAdd(e, table.value, [key])
  {
    InsertRow(e, table, Some([key]), 1)
  }

  /** The integer builtin types and the values and width of each. */
  predicate IsIntType(t: TypeId) {
    t in {INT8, INT16, INT32, INT64, UINT8, UINT16, UINT32, UINT64, TIME}
  }

  function IntTypeMin(t: TypeId): int
    requires IsIntType(t)
  {
    if t == INT8 then MIN_INT8
    else if t == INT16 then MIN_INT16
    else if t == INT32 then MIN_INT32
    else if t == INT64 || t == TIME then MIN_INT64
    else 0
  }

  function IntTypeMax(t: TypeId): int
    requires IsIntType(t)
  {
    if t == INT8 then MAX_INT8
    else if t == INT16 then MAX_INT16
    else if t == INT32 then MAX_INT32
    else if t == INT64 || t == TIME then MAX_INT64
    else if t == UINT8 then MAX_UINT8
    else if t == UINT16 then MAX_UINT16
    else if t == UINT32 then MAX_UINT32
    else MAX_UINT64
  }

  /** sizeof the C integer type. */
  function IntTypeSize(t: TypeId): (n: nat)
    requires IsIntType(t)
    ensures 1 <= n <= 8 && -(Pow256(n) as int) <= 2 * IntTypeMin(t) && IntTypeMax(t) < Pow256(n)
    ensures IsSignedIntType(t) ==> 2 * IntTypeMax(t) < Pow256(n)
    ensures !IsSignedIntType(t) ==> IntTypeMin(t) == 0
  {
    assert Pow256(1) == 256;
    assert Pow256(2) == 0x1_0000;
    assert Pow256(4) == 0x1_0000_0000 by { assert Pow256(3) == 0x100_0000; }
    assert Pow256(8) == 0x1_0000_0000_0000_0000 by {
      assert Pow256(4) == 0x1_0000_0000 by { assert Pow256(3) == 0x100_0000; }
      assert Pow256(6) == 0x1_0000_0000_0000 by { assert Pow256(5) == 0x100_0000_0000; }
      assert Pow256(7) == 0x100_0000_0000_0000;
    }
    if t == INT8 || t == UINT8 then 1
    else if t == INT16 || t == UINT16 then 2
    else if t == INT32 || t == UINT32 then 4
    else 8
  }

  predicate IsSignedIntType(t: TypeId) {
    t in {INT8, INT16, INT32, INT64, TIME}
  }

  /** grngo_table_insert_int: an int64 key for a table of any integer key type.  The
      key must lie in the range of that type; it is then passed as a C integer of
      that type.  Any other type is UNKNOWN_ERROR. */
  function InsertInt(e: Engine, table: Option<ObjId>, t: TypeId, key: int64): (r: (Engine, InsertionResult))
    requires Live(e, table)
    ensures ValidInsertionResult(r.1)
    ensures !IsIntType(t) ==> r == (e, InsertionError(UnknownError))
    ensures IsIntType(t) && (key < IntTypeMin(t) || key > IntTypeMax(t)) ==> r == (e, InsertionError(InvalidArgument))
    ensures IsIntType(t) && IntTypeMin(t) <= key <= IntTypeMax(t) ==>
      var n := IntTypeSize(t);
      r == InsertRow(e, table, Some(EncodeInt(key, n)), n) && DecodeInt(EncodeInt(key, n), IsSignedIntType(t)) == key
  {
    if !IsIntType(t) then (e, InsertionError(UnknownError))
    else if key < IntTypeMin(t) || key > IntTypeMax(t) then (e, InsertionError(InvalidArgument))
    else
      var n := IntTypeSize(t);
      EncodeIntRoundTrip(key, n, IsSignedIntType(t));
      InsertRow(e, table, Some(EncodeInt(key, n)), n)
  }

  /** The range each integer key type accepts, spelled out: Int8/16/32 their signed
      range, UInt8/16/32 zero to their maximum, UInt64 any non-negative int64, and
      Int64 and Time every int64. */
  lemma InsertIntAccepts(t: TypeId, key: int64)
    requires IsIntType(t)
    ensures IntTypeMin(t) <= key <= IntTypeMax(t) <==>
      if t == INT8 then -128 <= key <= 127
      else if t == INT16 then -32768 <= key <= 32767
      else if t == INT32 then -0x8000_0000 <= key <= 0x7fff_ffff
      else if t == UINT8 then 0 <= key <= 255
      else if t == UINT16 then 0 <= key <= 65535
      else if t == UINT32 then 0 <= key <= 0xffff_ffff
      else if t == UINT64 then 0 <= key
      else true
  {
  }

  /** grngo_text: a pointer (NULL or the bytes it points to) and a size. */
  datatype Text = Text(ptr: Option<Bytes>, size: nat)

  /** grngo_table_insert_text: a NULL key struct, or a NULL body with a non-zero size,
      is INVALID_ARGUMENT; otherwise the first size bytes are the key. */
  function InsertText(e: Engine, table: Option<ObjId>, key: Option<Text>): (r: (Engine, InsertionResult))
    requires Live(e, table)
    requires key.Some? && key.value.ptr.Some? ==> key.value.size <= |key.value.ptr.value|
    ensures ValidInsertionResult(r.1)
    ensures key.None? || (key.value.ptr.None? && key.value.size != 0) ==> r == (e, InsertionError(InvalidArgument))
    ensures key.Some? && key.value.ptr.Some? ==>
      r == InsertRow(e, table, Some(key.value.ptr.value[..key.value.size]), key.value.size)
    ensures key.Some? && key.value.ptr.None? && key.value.size == 0 ==> r == InsertRow(e, table, None, 0)
  {
    if key.None? || (key.value.ptr.None? && key.value.size != 0) then (e, InsertionError(InvalidArgument))
    else if key.value.ptr.None? then InsertRow(e, table, None, 0)
    else InsertRow(e, table, Some(key.value.ptr.value[..key.value.size]), key.value.size)
  }

  predicate IsGeoPoint32(p: GeoPoint) {
    MIN_INT32 <= p.latitude <= MAX_INT32 && MIN_INT32 <= p.longitude <= MAX_INT32
  }

  /** grngo_table_insert_geo_point: the point is passed through unchecked; a NULL
      point is caught by the size check of InsertRow. */
  function InsertGeoPoint(e: Engine, table: Option<ObjId>, key: Option<GeoPoint>): (r: (Engine, InsertionResult))
    requires Live(e, table)
    requires key.Some? ==> IsGeoPoint32(key.value)
    ensures ValidInsertionResult(r.1)
    ensures key.None? ==> r == (e, InsertionError(InvalidArgument))
    ensures key.Some? ==> r == InsertRow(e, table, Some(EncodeGeoPoint(key.value)), 8)
  {
    if key.None? then InsertRow(e, table, None, 8)
    else InsertRow(e, table, Some(EncodeGeoPoint(key.value)), 8)
  }

  /** Inserting the same key twice into a keyed table: the second call reports the row
      of the first and inserts nothing. */
  lemma InsertRowIdempotent(e: Engine, table: ObjId, key: Bytes)
    requires table in e.objs && IsKeyedTable(e.objs[table].kind)
    ensures var (e1, r1) := InsertRow(e, Some(table), Some(key), |key|);
            var (e2, r2) := InsertRow(e1, Some(table), Some(key), |key|);
            r1.rc == Success ==> e2 == e1 && r2 == InsertionResult(Success, false, r1.id)
  {
    TableAddTwice(e, table, key);
  }
}
