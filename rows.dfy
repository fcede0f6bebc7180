/** Table.InsertRow of both Go APIs: a type switch on the key, a check of the key
    against the table's key type, and then the engine's find-or-add.  The
    per-type entry points grngo.go calls (grngo_table_insert_int8 to
    grngo_table_insert_time) are not defined in grngo.c, so the insertion is that
    of grn_cgo_table_insert_row, which checks no argument (grngo.go:627-758,
    grn.go:469-573). */
module Rows {
  import opened Common
  import opened Ints
  import opened Engine
  import GrngoC
  import GrnCgo
  import Buffers
  import GnxValues
  import V = GoValues
  import Handles

  datatype RowError =
    | KeyTypeConflict
    | InsertFailed
    | UnsupportedKeyType(typeName: string)
    | LookupFailed(lookupError: Handles.HandleError)

  // ---- grngo ----

  /** The Go types InsertRow's switch lists: nil, bool, int64, float64, GeoPoint and []byte. */
  predicate IsGrngoKey(key: V.GrngoValue) {
    key.Nil? || key.Bool? || key.Int? || key.Float? || key.Point? || key.Text?
  }

  /** Which key types each Go key type may be inserted into. */
  predicate GrngoKeyFits(keyType: int, key: V.GrngoValue) {
    match key
    case Nil => keyType == VOID
    case Bool(_) => keyType == BOOL
    case Int(_) => keyType in {INT8, INT16, INT32, INT64, UINT8, UINT16, UINT32, UINT64, TIME}
    case Float(_) => keyType == FLOAT
    case Point(_) => keyType == TOKYO_GEO_POINT || keyType == WGS84_GEO_POINT
    case Text(_) => keyType == SHORT_TEXT
    case _ => false
  }

  /** The engine's point for a Go point (C.int of an int32 loses nothing). */
  function EnginePoint(p: V.GeoPoint): (q: GeoPoint)
    ensures q.latitude == p.latitude && q.longitude == p.longitude
  {
    GeoPoint(p.latitude, p.longitude)
  }

  /** The bytes grn_table_add receives for a key insert* accepts, or None where it
      reports a key type conflict.  An int64 key is converted to the C type of the
      key type, C.int8_t(key) and the like, so that it wraps. */
  function GrngoKeyBytes(keyType: int, key: V.GrngoValue): (r: Option<Bytes>)
    requires IsGrngoKey(key)
    ensures r.Some? <==> GrngoKeyFits(keyType, key)
  {
    match key
    case Nil => if keyType == VOID then Some([]) else None
    case Bool(b) => if keyType == BOOL then Some(EncodeBool(b)) else None
    case Int(i) =>
      if keyType >= 0 && GrngoC.IsIntType(keyType) then
        var t: TypeId := keyType;
        var n := GrngoC.IntTypeSize(t);
        var k := Buffers.Narrow(t, i);
        Some(EncodeInt(k, n))
      else None
    case Float(f) => if keyType == FLOAT then Some(EncodeFloat(f)) else None
    case Point(p) =>
      if keyType == TOKYO_GEO_POINT || keyType == WGS84_GEO_POINT then Some(EncodeGeoPoint(EnginePoint(p))) else None
    case Text(t) => if keyType == SHORT_TEXT then Some(t) else None
  }

  /** Table.InsertRow: whether a row was inserted and its id. */
  function GrngoInsertRow(e: Engine, table: Handles.Table, key: V.GrngoValue): (r: (Engine, Result<(bool, RowId), RowError>))
    ensures !IsGrngoKey(key) ==> r == (e, Err(UnsupportedKeyType(if key.Other? then key.typeName else "")))
    ensures r.1 == Err(KeyTypeConflict) <==> IsGrngoKey(key) && !GrngoKeyFits(table.keyType, key)
    ensures r.1.Err? ==> r.0 == e
    ensures r.1.Ok? ==>
      && GrngoKeyFits(table.keyType, key)
      && var (e', id, inserted) := TableAdd(e, table.obj, GrngoKeyBytes(table.keyType, key).value);
         id != ID_NIL && r == (e', Ok((inserted, id)))
    ensures IsGrngoKey(key) && GrngoKeyFits(table.keyType, key) && TableAdd(e, table.obj, GrngoKeyBytes(table.keyType, key).value).1 == ID_NIL ==>
      r == (e, Err(InsertFailed))
    ensures IsGrngoKey(key) && GrngoKeyFits(table.keyType, key) && TableAdd(e, table.obj, GrngoKeyBytes(table.keyType, key).value).1 != ID_NIL ==>
      var (e', id, inserted) := TableAdd(e, table.obj, GrngoKeyBytes(table.keyType, key).value);
      r == (e', Ok((inserted, id)))
  {
    if !IsGrngoKey(key) then (e, Err(UnsupportedKeyType(if key.Other? then key.typeName else "")))
    else
      match GrngoKeyBytes(table.keyType, key)
      case None => (e, Err(KeyTypeConflict))
      case Some(bytes) =>
        var (e', info) := GrnCgo.TableInsertRow(e, table.obj, bytes);
        if info.id == ID_NIL then (e, Err(InsertFailed)) else (e', Ok((info.inserted, info.id)))
  }

  /** Inserting the same key twice into a table with keys gives the same row, and
      only the first call inserts. */
  lemma GrngoInsertRowTwice(e: Engine, table: Handles.Table, key: V.GrngoValue)
    requires table.obj in e.objs && IsKeyedTable(e.objs[table.obj].kind)
    ensures var (e1, r1) := GrngoInsertRow(e, table, key);
            var (e2, r2) := GrngoInsertRow(e1, table, key);
            r1.Ok? ==> e2 == e1 && r2 == Ok((false, r1.value.1))
  {
    var (e1, r1) := GrngoInsertRow(e, table, key);
    if r1.Ok? {
      TableAddTwice(e, table.obj, GrngoKeyBytes(table.keyType, key).value);
    }
  }

  /** An int64 key that fits the key type is inserted as grngo_table_insert_int
      inserts it; one that does not is wrapped into the type and inserted, where
      grngo_table_insert_int refuses it with INVALID_ARGUMENT. */
  lemma GrngoInsertIntVersions(e: Engine, table: Handles.Table, key: int64)
    requires table.obj in e.objs && IsTable(e.objs[table.obj].kind)
    requires table.keyType >= 0 && GrngoC.IsIntType(table.keyType)
    ensures var (e1, r1) := GrngoInsertRow(e, table, V.GrngoValue.Int(key));
            var (e2, r2) := GrngoC.InsertInt(e, Some(table.obj), table.keyType, key);
            && (Buffers.InRange(table.keyType, key) ==>
                  && (r1.Ok? <==> r2.rc == Success)
                  && (r1.Ok? ==> e1 == e2 && r1.value == (r2.inserted, r2.id)))
            && (!Buffers.InRange(table.keyType, key) ==>
                  && r2.rc == InvalidArgument && e2 == e
                  && (r1.Ok? ==> r1.value.1 == TableAdd(e, table.obj, EncodeInt(Buffers.Narrow(table.keyType, key), GrngoC.IntTypeSize(table.keyType))).1))
  {
    if Buffers.InRange(table.keyType, key) {
      GrngoInsertIntInRange(e, table, key);
    } else {
      GrngoInsertIntOutOfRange(e, table, key);
    }
  }

  lemma GrngoInsertIntInRange(e: Engine, table: Handles.Table, key: int64)
    requires table.obj in e.objs && IsTable(e.objs[table.obj].kind)
    requires table.keyType >= 0 && GrngoC.IsIntType(table.keyType) && Buffers.InRange(table.keyType, key)
    ensures var (e1, r1) := GrngoInsertRow(e, table, V.GrngoValue.Int(key));
            var (e2, r2) := GrngoC.InsertInt(e, Some(table.obj), table.keyType, key);
            && (r1.Ok? <==> r2.rc == Success)
            && (r1.Ok? ==> e1 == e2 && r1.value == (r2.inserted, r2.id))
  {
    var t: TypeId := table.keyType;
    var n := GrngoC.IntTypeSize(t);
    assert Buffers.Narrow(t, key) == key;
    var bytes := EncodeInt(key, n);
    assert GrngoKeyBytes(t, V.GrngoValue.Int(key)) == Some(bytes);
    assert GrngoC.InsertInt(e, Some(table.obj), t, key) == GrngoC.InsertRow(e, Some(table.obj), Some(bytes), n);
    GrnCgo.InsertRowVersions(e, table.obj, bytes);
  }

  lemma GrngoInsertIntOutOfRange(e: Engine, table: Handles.Table, key: int64)
    requires table.obj in e.objs && IsTable(e.objs[table.obj].kind)
    requires table.keyType >= 0 && GrngoC.IsIntType(table.keyType) && !Buffers.InRange(table.keyType, key)
    ensures var (e1, r1) := GrngoInsertRow(e, table, V.GrngoValue.Int(key));
            var (e2, r2) := GrngoC.InsertInt(e, Some(table.obj), table.keyType, key);
            && r2.rc == InvalidArgument && e2 == e
            && (r1.Ok? ==> r1.value.1 == TableAdd(e, table.obj, EncodeInt(Buffers.Narrow(table.keyType, key), GrngoC.IntTypeSize(table.keyType))).1)
  {
    var t: TypeId := table.keyType;
    var bytes := EncodeInt(Buffers.Narrow(t, key), GrngoC.IntTypeSize(t));
    assert GrngoKeyBytes(t, V.GrngoValue.Int(key)) == Some(bytes);
  }

  // ---- gnx ----

  predicate IsGnxKey(key: V.GnxValue) {
    key.Nil? || key.Bool? || key.Int? || key.Float? || key.Point? || key.Text?
  }

  /** Each Go key type goes into a table of exactly one TypeID. */
  function GnxKeyType(key: V.GnxValue): (id: GnxValues.TypeID)
    requires IsGnxKey(key)
    ensures GnxValues.TypeIDName(id).Some?
  {
    match key
    case Nil => GnxValues.VoidID
    case Bool(_) => GnxValues.BoolID
    case Int(_) => GnxValues.IntID
    case Float(_) => GnxValues.FloatID
    case Point(_) => GnxValues.GeoPointID
    case Text(_) => GnxValues.TextID
  }

  /** The bytes gnx passes for a key: a Bool is GRN_TRUE only when it is True, an
      Int is an int64_t, and a nil Text is the empty key. */
  function GnxKeyBytes(key: V.GnxValue): (r: Bytes)
    requires IsGnxKey(key)
  {
    match key
    case Nil => []
    case Bool(b) => EncodeBool(b == GnxValues.True)
    case Int(i) => EncodeInt(i, 8)
    case Float(f) => EncodeFloat(f)
    case Point(p) => EncodeGeoPoint(GeoPoint(p.latitude, p.longitude))
    case Text(t) => if t.Some? then t.value else []
  }

  /** GrnTable.InsertRow. */
  function GnxInsertRow(e: Engine, table: Handles.Table, key: V.GnxValue): (r: (Engine, Result<(bool, RowId), RowError>))
    ensures !IsGnxKey(key) ==> r == (e, Err(UnsupportedKeyType(if key.Other? then key.typeName else "")))
    ensures r.1 == Err(KeyTypeConflict) <==> IsGnxKey(key) && table.keyType != GnxKeyType(key)
    ensures r.1.Err? ==> r.0 == e
    ensures r.1.Ok? ==>
      && table.keyType == GnxKeyType(key)
      && var (e', id, inserted) := TableAdd(e, table.obj, GnxKeyBytes(key));
         id != ID_NIL && r == (e', Ok((inserted, id)))
    ensures IsGnxKey(key) && table.keyType == GnxKeyType(key) && TableAdd(e, table.obj, GnxKeyBytes(key)).1 == ID_NIL ==>
      r == (e, Err(InsertFailed))
    ensures IsGnxKey(key) && table.keyType == GnxKeyType(key) && TableAdd(e, table.obj, GnxKeyBytes(key)).1 != ID_NIL ==>
      var (e', id, inserted) := TableAdd(e, table.obj, GnxKeyBytes(key));
      r == (e', Ok((inserted, id)))
  {
    if !IsGnxKey(key) then (e, Err(UnsupportedKeyType(if key.Other? then key.typeName else "")))
    else if table.keyType != GnxKeyType(key) then (e, Err(KeyTypeConflict))
    else
      var (e', info) := GrnCgo.TableInsertRow(e, table.obj, GnxKeyBytes(key));
      if info.id == ID_NIL then (e, Err(InsertFailed)) else (e', Ok((info.inserted, info.id)))
  }

  /** Every Bool other than True, NullBool() among them, is the key False. */
  lemma GnxBoolKeys(b: GnxValues.Bool)
    ensures GnxKeyBytes(V.GnxValue.Bool(b)) == GnxKeyBytes(V.GnxValue.Bool(GnxValues.False)) <==> b != GnxValues.True
  {
  }

  lemma GnxInsertRowTwice(e: Engine, table: Handles.Table, key: V.GnxValue)
    requires table.obj in e.objs && IsKeyedTable(e.objs[table.obj].kind)
    ensures var (e1, r1) := GnxInsertRow(e, table, key);
            var (e2, r2) := GnxInsertRow(e1, table, key);
            r1.Ok? ==> e2 == e1 && r2 == Ok((false, r1.value.1))
  {
    var (e1, r1) := GnxInsertRow(e, table, key);
    if r1.Ok? {
      TableAddTwice(e, table.obj, GnxKeyBytes(key));
    }
  }

  // ---- DB.InsertRow ----

  /** DB.InsertRow: FindTable, then the table's InsertRow (grngo.go:540-547). */
  method GrngoDBInsertRow(db: Handles.DB, e: Engine, tableName: string, key: V.GrngoValue)
    returns (e': Engine, r: Result<(bool, RowId), RowError>)
    requires WellFormed(e) && db.Valid() && db.binding.Grngo?
    modifies db
    ensures db.Valid() && Handles.Grows(old(db.tables), db.tables)
    ensures r.Err? && r.error.LookupFailed? ==> e' == e && tableName !in old(db.tables)
    ensures !(r.Err? && r.error.LookupFailed?) ==>
      tableName in db.tables && (e', r) == GrngoInsertRow(e, db.tables[tableName], key)
  {
    var table := db.FindTable(e, tableName);
    if table.Err? {
      return e, Err(LookupFailed(table.error));
    }
    var inserted := GrngoInsertRow(e, table.value, key);
    e', r := inserted.0, inserted.1;
  }

  /** GrnDB.InsertRow (grn.go:412-419). */
  method GnxDBInsertRow(db: Handles.DB, e: Engine, tableName: string, key: V.GnxValue)
    returns (e': Engine, r: Result<(bool, RowId), RowError>)
    requires WellFormed(e) && db.Valid() && db.binding.Gnx?
    modifies db
    ensures db.Valid() && Handles.Grows(old(db.tables), db.tables)
    ensures r.Err? && r.error.LookupFailed? ==> e' == e && tableName !in old(db.tables)
    ensures !(r.Err? && r.error.LookupFailed?) ==>
      tableName in db.tables && (e', r) == GnxInsertRow(e, db.tables[tableName], key)
  {
    var table := db.FindTable(e, tableName);
    if table.Err? {
      return e, Err(LookupFailed(table.error));
    }
    var inserted := GnxInsertRow(e, table.value, key);
    e', r := inserted.0, inserted.1;
  }
}
