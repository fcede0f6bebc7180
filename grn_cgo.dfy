/** grn_cgo.c, the older bool-returning C layer that the Go handle layer calls: table
    lookup, the key-type walk along chains of referenced tables, value types with a
    vector dimension, and row insertion without argument checks. */
module GrnCgo {
  import opened Common
  import opened Ints
  import opened Engine
  import GrngoC

  /** grn_cgo_type_info: the builtin data type (for a reference, the key type reached
      through it), the vector dimension, and the first referenced table. */
  datatype TypeInfo = TypeInfo(dataType: TypeId, dimension: nat, refTable: Option<ObjId>)

  /** What grn_cgo_init_type_info leaves: a valid Void type. */
  const InitTypeInfo := TypeInfo(VOID, 0, None)

  /** grn_cgo_find_table: the named object if it is one of the four kinds of table. */
  function FindTable(e: Engine, name: string): (r: Option<ObjId>)
    ensures r.Some? <==> GrngoC.IsTableObj(e, CtxGet(e, name))
    ensures r.Some? ==> r == CtxGet(e, name)
  {
    var obj := CtxGet(e, name);
    if GrngoC.IsTableObj(e, obj) then obj else None
  }

  /** grn_cgo_table_get_name: the name of a named table; NULL for a NULL pointer, an
      object that is not a table, or an anonymous table. */
  function TableGetName(e: Engine, table: Option<ObjId>): (r: Option<string>)
    requires GrngoC.Live(e, table)
    ensures r.Some? <==> GrngoC.IsTableObj(e, table) && e.objs[table.value].name != ""
    ensures r.Some? ==> r.value == e.objs[table.value].name
    ensures NamesConsistent(e) && r.Some? ==> CtxGet(e, r.value) == table
  {
    if GrngoC.IsTableObj(e, table) && e.objs[table.value].name != "" then Some(e.objs[table.value].name)
    else None
  }

  /** The key-type walk as a recursive definition: from table t, with ref the first
      reference met so far, follow key domains until a builtin key type (success), a
      table without keys (success, Void), a missing object or a non-table (failure). */
  function KeyInfoFrom(e: Engine, t: Option<ObjId>, ref: Option<ObjId>): (r: (bool, TypeInfo))
    requires ReferencesPrecede(e) && GrngoC.Live(e, t)
    ensures r.1.dimension == 0
    ensures r.0 ==> IsBuiltinType(r.1.dataType)
    ensures ref.Some? ==> r.1.refTable == ref
    ensures ref.None? && r.1.refTable.Some? ==>
      && t.Some? && IsKeyedTable(e.objs[t.value].kind) && !IsBuiltinType(e.objs[t.value].domain)
      && r.1.refTable == CtxAt(e, e.objs[t.value].domain)
    decreases if t.Some? then t.value + 1 else 0
  {
    if t.None? then (false, TypeInfo(VOID, 0, ref))
    else
      var o := e.objs[t.value];
      if IsKeyedTable(o.kind) then
        if IsBuiltinType(o.domain) then (true, TypeInfo(o.domain, 0, ref))
        else
          var next := CtxAt(e, o.domain);
          if next.None? then (false, TypeInfo(VOID, 0, ref))
          else KeyInfoFrom(e, next, if ref.None? then next else ref)
      else if o.kind.NoKeyTable? then (true, TypeInfo(VOID, 0, ref))
      else (false, TypeInfo(VOID, 0, ref))
  }

  function KeyInfo(e: Engine, table: Option<ObjId>): (bool, TypeInfo)
    requires ReferencesPrecede(e) && GrngoC.Live(e, table)
  {
    KeyInfoFrom(e, table, None)
  }

  /** grn_cgo_table_get_key_info: the while loop that reassigns table along the chain
      and records the first referenced table. */
  method TableGetKeyInfo(e: Engine, table: Option<ObjId>) returns (ok: bool, info: TypeInfo)
    requires ReferencesPrecede(e) && GrngoC.Live(e, table)
    ensures (ok, info) == KeyInfo(e, table)
  {
    info := InitTypeInfo;
    var t := table;
    while t.Some?
      invariant GrngoC.Live(e, t)
      invariant info.dataType == VOID && info.dimension == 0
      invariant KeyInfoFrom(e, t, info.refTable) == KeyInfo(e, table)
      decreases if t.Some? then t.value + 1 else 0
    {
      var o := e.objs[t.value];
      if IsKeyedTable(o.kind) {
        if IsBuiltinType(o.domain) {
          info := info.(dataType := o.domain);
          return true, info;
        }
        t := CtxAt(e, o.domain);
        if t.None? {
          return false, info;
        }
        if info.refTable.None? {
          info := info.(refTable := t);
        }
      } else if o.kind.NoKeyTable? {
        return true, info;
      } else {
        return false, info;
      }
    }
    return false, info;
  }

  /** The success flag and data type of the walk do not depend on the reference already recorded. */
  lemma {:induction false} KeyInfoFromRefIrrelevant(e: Engine, t: Option<ObjId>, r1: Option<ObjId>, r2: Option<ObjId>)
    requires ReferencesPrecede(e) && GrngoC.Live(e, t)
    ensures KeyInfoFrom(e, t, r1).0 == KeyInfoFrom(e, t, r2).0
    ensures KeyInfoFrom(e, t, r1).1.dataType == KeyInfoFrom(e, t, r2).1.dataType
    decreases if t.Some? then t.value + 1 else 0
  {
    if t.Some? {
      var o := e.objs[t.value];
      if IsKeyedTable(o.kind) && !IsBuiltinType(o.domain) {
        var next := CtxAt(e, o.domain);
        if next.Some? {
          KeyInfoFromRefIrrelevant(e, next, if r1.None? then next else r1, if r2.None? then next else r2);
        }
      }
    }
  }

  /** Through a reference, a keyed table has the key type of the table it refers to,
      and records that table (the first hop) as its reference. */
  lemma KeyInfoFollowsReference(e: Engine, table: ObjId)
    requires ReferencesPrecede(e) && table in e.objs
    requires IsKeyedTable(e.objs[table].kind) && !IsBuiltinType(e.objs[table].domain)
    requires e.objs[table].domain in e.objs
    ensures var d := e.objs[table].domain;
            && KeyInfo(e, Some(table)).0 == KeyInfo(e, Some(d)).0
            && KeyInfo(e, Some(table)).1.dataType == KeyInfo(e, Some(d)).1.dataType
            && KeyInfo(e, Some(table)).1.refTable == Some(d)
  {
    var d := e.objs[table].domain;
    KeyInfoFromRefIrrelevant(e, Some(d), Some(d), None);
  }

  /** Where the walk stops at once: a builtin key type, a table without keys, a
      non-table, a NULL table, or a reference to nothing. */
  lemma KeyInfoEnds(e: Engine, table: Option<ObjId>)
    requires ReferencesPrecede(e) && GrngoC.Live(e, table)
    ensures table.None? ==> KeyInfo(e, table) == (false, InitTypeInfo)
    ensures table.Some? ==>
      var o := e.objs[table.value];
      && (IsKeyedTable(o.kind) && IsBuiltinType(o.domain) ==> KeyInfo(e, table) == (true, TypeInfo(o.domain, 0, None)))
      && (o.kind.NoKeyTable? ==> KeyInfo(e, table) == (true, InitTypeInfo))
      && (!IsTable(o.kind) ==> KeyInfo(e, table) == (false, InitTypeInfo))
      && (IsKeyedTable(o.kind) && !IsBuiltinType(o.domain) && o.domain !in e.objs ==> KeyInfo(e, table) == (false, InitTypeInfo))
  {
  }

  /** How a range id is read by the two value-info functions: a builtin range is the
      data type; otherwise the object it names becomes ref_table (even when it then
      fails) and the data type is that table's resolved key type. */
  function RangeInfo(e: Engine, range: TypeId, dimension: nat): (r: (bool, TypeInfo))
    requires ReferencesPrecede(e)
    ensures r.1.dimension == dimension
    ensures r.0 ==> IsBuiltinType(r.1.dataType)
    ensures IsBuiltinType(range) ==> r == (true, TypeInfo(range, dimension, None))
    ensures !IsBuiltinType(range) ==>
      && r.1.refTable == CtxAt(e, range)
      && r.0 == KeyInfo(e, CtxAt(e, range)).0
      && (r.0 ==> r.1.dataType == KeyInfo(e, CtxAt(e, range)).1.dataType)
  {
    if IsBuiltinType(range) then (true, TypeInfo(range, dimension, None))
    else
      var ref := CtxAt(e, range);
      var (ok, keyInfo) := KeyInfo(e, ref);
      if !ok then (false, TypeInfo(VOID, dimension, ref))
      else (true, TypeInfo(keyInfo.dataType, dimension, ref))
  }

  /** The results of the two value-info functions, as definitions. */
  function TableValueInfo(e: Engine, table: Option<ObjId>): (bool, TypeInfo)
    requires ReferencesPrecede(e) && GrngoC.Live(e, table)
  {
    if GrngoC.IsTableObj(e, table) then RangeInfo(e, e.objs[table.value].range, 0) else (false, InitTypeInfo)
  }

  function ColumnValueInfo(e: Engine, column: Option<ObjId>): (bool, TypeInfo)
    requires ReferencesPrecede(e) && GrngoC.Live(e, column)
  {
    if column.Some? && IsDataColumn(e.objs[column.value].kind) then
      RangeInfo(e, e.objs[column.value].range, if e.objs[column.value].kind == VarSizeColumn(true) then 1 else 0)
    else (false, InitTypeInfo)
  }

  /** grn_cgo_table_get_value_info. */
  method TableGetValueInfo(e: Engine, table: Option<ObjId>) returns (ok: bool, info: TypeInfo)
    requires ReferencesPrecede(e) && GrngoC.Live(e, table)
    ensures !GrngoC.IsTableObj(e, table) ==> !ok && info == InitTypeInfo
    ensures GrngoC.IsTableObj(e, table) ==> (ok, info) == RangeInfo(e, e.objs[table.value].range, 0)
    ensures (ok, info) == TableValueInfo(e, table)
  {
    info := InitTypeInfo;
    if table.None? {
      return false, info;
    }
    var o := e.objs[table.value];
    if !IsTable(o.kind) {
      return false, info;
    }
    if IsBuiltinType(o.range) {
      info := info.(dataType := o.range);
      return true, info;
    }
    info := info.(refTable := CtxAt(e, o.range));
    var keyOk, keyInfo := TableGetKeyInfo(e, info.refTable);
    if !keyOk {
      return false, info;
    }
    info := info.(dataType := keyInfo.dataType);
    return true, info;
  }

  /** grn_cgo_column_get_value_info: a vector column counts one dimension. */
  method ColumnGetValueInfo(e: Engine, column: Option<ObjId>) returns (ok: bool, info: TypeInfo)
    requires ReferencesPrecede(e) && GrngoC.Live(e, column)
    ensures ok ==> column.Some? && IsDataColumn(e.objs[column.value].kind)
    ensures column.None? || !IsDataColumn(e.objs[column.value].kind) ==> !ok && info == InitTypeInfo
    ensures column.Some? && IsDataColumn(e.objs[column.value].kind) ==>
      var dimension := if e.objs[column.value].kind == VarSizeColumn(true) then 1 else 0;
      (ok, info) == RangeInfo(e, e.objs[column.value].range, dimension)
    ensures (ok, info) == ColumnValueInfo(e, column)
  {
    info := InitTypeInfo;
    if column.None? {
      return false, info;
    }
    var o := e.objs[column.value];
    match o.kind {
      case FixSizeColumn =>
      case VarSizeColumn(vector) =>
        if vector {
          info := info.(dimension := info.dimension + 1);
        }
      case _ =>
        return false, info;
    }
    if IsBuiltinType(o.range) {
      info := info.(dataType := o.range);
      return true, info;
    }
    info := info.(refTable := CtxAt(e, o.range));
    var keyOk, keyInfo := TableGetKeyInfo(e, info.refTable);
    if !keyOk {
      return false, info;
    }
    info := info.(dataType := keyInfo.dataType);
    return true, info;
  }

  /** Where grngo.c stops at the first reference and reports VOID, grn_cgo.c follows
      the chain: both record the same referenced table, and they agree outright on a
      table whose key is builtin or absent. */
  lemma KeyInfoVersions(e: Engine, table: ObjId)
    requires ReferencesPrecede(e) && table in e.objs && IsTable(e.objs[table].kind)
    ensures var old_ := GrngoC.TableGetKeyInfo(e, Some(table));
            var (ok, info) := KeyInfo(e, Some(table));
            && (old_.Ok? && old_.value.refTable.None? ==> ok && info == TypeInfo(old_.value.dataType, 0, None))
            && (old_.Ok? && old_.value.refTable.Some? ==> info.refTable == old_.value.refTable)
  {
    var o := e.objs[table];
    if IsKeyedTable(o.kind) && !IsBuiltinType(o.domain) && o.domain in e.objs {
      KeyInfoFollowsReference(e, table);
    }
  }

  /** grn_cgo_row_info. */
  datatype RowInfo = RowInfo(id: RowId, inserted: bool)

  /** grn_cgo_table_insert_row: grn_table_add, its int flag read as a boolean.  No
      argument is checked here. */
  function TableInsertRow(e: Engine, table: ObjId, key: Bytes): (r: (Engine, RowInfo))
    ensures r.1.id == ID_NIL ==> !r.1.inserted && r.0 == e
    ensures (r.0, r.1.id, r.1.inserted) == TableAdd(e, table, key)
  {
    var (e', id, inserted) := TableAdd(e, table, key);
    (e', RowInfo(id, inserted))
  }

  /** On a table and a key that pass grngo.c's checks, the unchecked insertion does
      exactly what the checked one does. */
  lemma InsertRowVersions(e: Engine, table: ObjId, key: Bytes)
    requires table in e.objs && IsTable(e.objs[table].kind)
    ensures var (e1, r1) := GrngoC.InsertRow(e, Some(table), Some(key), |key|);
            var (e2, r2) := TableInsertRow(e, table, key);
            && (r2.id != ID_NIL ==> e1 == e2 && r1 == GrngoC.InsertionResult(Success, r2.inserted, r2.id))
            && (r2.id == ID_NIL ==> e1 == e2 && r1.rc != Success && r1.id == ID_NIL)
  {
  }

  /** (grn_id)ids[i]: an int64_t id narrowed to the 32-bit grn_id. */
  function GrnId(x: int64): (r: RowId)
    ensures r < 0x1_0000_0000
    ensures 0 <= x < 0x1_0000_0000 ==> r == x
  {
    WrapInto(x, 0, 0x1_0000_0000)
  }

  /** What grn_obj_get_value appends to a Bool bulk for a row: its stored value,
      or nothing when the row holds no Bool. */
  function GetBoolInto(e: Engine, column: ObjId, id: RowId): (r: seq<bool>)
    ensures |r| <= 1
    ensures |r| == 1 <==> CellOf(e, column, id).Some? && CellOf(e, column, id).value.BoolValue?
  {
    match CellOf(e, column, id)
    case Some(BoolValue(b)) => [b]
    case _ => []
  }

  /** GRN_BOOL_VALUE of a rewound bulk after one read: the value read, FALSE when none was. */
  function BoolOf(e: Engine, column: ObjId, id: RowId): (r: bool)
    ensures r <==> CellOf(e, column, id) == Some(BoolValue(true))
  {
    var bulk := GetBoolInto(e, column, id);
    |bulk| > 0 && bulk[0]
  }

  /** grn_cgo_column_get_bools: values[i] is the value of row ids[i], for every i < n,
      through one scratch bulk rewound before each read. */
  method ColumnGetBools(e: Engine, column: ObjId, n: nat, ids: array<int64>, values: array<bool>) returns (ok: bool)
    requires n <= ids.Length && n <= values.Length
    modifies values
    ensures ok
    ensures forall i :: 0 <= i < n ==> values[i] == BoolOf(e, column, GrnId(ids[i]))
    ensures forall i :: 0 <= i < n ==> (values[i] <==> CellOf(e, column, GrnId(ids[i])) == Some(BoolValue(true)))
    ensures forall i :: n <= i < values.Length ==> values[i] == old(values[i])
  {
    var bulk: seq<bool> := [];
    for i := 0 to n
      invariant forall j :: 0 <= j < i ==> values[j] == BoolOf(e, column, GrnId(ids[j]))
      invariant forall j :: i <= j < values.Length ==> values[j] == old(values[j])
    {
      bulk := [];
      bulk := bulk + GetBoolInto(e, column, GrnId(ids[i]));
      values[i] := if |bulk| > 0 then bulk[0] else false;
    }
    return true;
  }
}
