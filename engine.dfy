/** The part of the Groonga engine the binding talks to, as plain data: the objects
    of a database (tables, columns, types) with their names, key domains and value
    ranges, the row ids each table hands out for its keys, and the values stored in
    columns.  The engine itself is not modelled; this is the state its calls read
    and write. */
module Engine {
  import opened Common

  /** Builtin type ids, numbered in the engine's own order.  The binding relies only
      on their being distinct and on WGS84_GEO_POINT being the largest. */
  type TypeId = nat
  const VOID: TypeId := 0
  /** The type of the database object itself. */
  const DB: TypeId := 1
  const OBJECT: TypeId := 2
  const BOOL: TypeId := 3
  const INT8: TypeId := 4
  const UINT8: TypeId := 5
  const INT16: TypeId := 6
  const UINT16: TypeId := 7
  const INT32: TypeId := 8
  const UINT32: TypeId := 9
  const INT64: TypeId := 10
  const UINT64: TypeId := 11
  const FLOAT: TypeId := 12
  const TIME: TypeId := 13
  const SHORT_TEXT: TypeId := 14
  const TEXT: TypeId := 15
  const LONG_TEXT: TypeId := 16
  const TOKYO_GEO_POINT: TypeId := 17
  const WGS84_GEO_POINT: TypeId := 18

  /** The largest builtin type id: any larger domain or range is a table. */
  const MAX_BUILTIN_TYPE_ID: TypeId := WGS84_GEO_POINT

  predicate IsBuiltinType(id: nat) {
    id <= MAX_BUILTIN_TYPE_ID
  }

  type ObjId = nat
  type RowId = nat

  /** The id that means "no row". */
  const ID_NIL: RowId := 0
  /** The largest row id a table hands out. */
  const ID_MAX: RowId := 0x3fff_ffff

  /** Return codes.  Only the distinctions the binding makes are kept. */
  datatype Rc = Success | UnknownError | InvalidArgument | InvalidFormat | OtherError(code: int)

  /** The object types the binding distinguishes (header.type, and for a
      variable-size column whether its column-type flags say COLUMN_VECTOR). */
  datatype ObjKind =
    | HashKeyTable | PatKeyTable | DatKeyTable | NoKeyTable
    | FixSizeColumn | VarSizeColumn(vector: bool)
    | OtherObject

  predicate IsKeyedTable(k: ObjKind) {
    k.HashKeyTable? || k.PatKeyTable? || k.DatKeyTable?
  }

  predicate IsTable(k: ObjKind) {
    IsKeyedTable(k) || k.NoKeyTable?
  }

  predicate IsDataColumn(k: ObjKind) {
    k.FixSizeColumn? || k.VarSizeColumn?
  }

  /** An object header: its type, its name ("" when anonymous), header.domain
      (a table's key type) and the range (a table's value type, a column's value type). */
  datatype Obj = Obj(kind: ObjKind, name: string, domain: TypeId, range: TypeId)

  /** The rows of one table: the row id of each key, and how many ids were handed out. */
  datatype Rows = Rows(keys: map<Bytes, RowId>, count: nat)

  datatype GeoPoint = GeoPoint(latitude: int, longitude: int)

  /** A cell value, in the representation a column stores. */
  datatype Value =
    | BoolValue(b: bool)
    | IntValue(t: TypeId, i: int)
    | FloatValue(f: Float64)
    | GeoPointValue(t: TypeId, p: GeoPoint)
    | TextValue(t: TypeId, bytes: Bytes)
    | BoolVector(bs: seq<bool>)
    | IntVector(t: TypeId, ints: seq<int>)
    | FloatVector(fs: seq<Float64>)
    | GeoPointVector(t: TypeId, ps: seq<GeoPoint>)
    | TextVector(ts: seq<Bytes>)

  /** A context with its database.  rc is what the context reports in ctx->rc after
      a call that failed; columns is what grn_obj_column resolves, accessors such as
      _id, _key and dotted paths included. */
  datatype Engine = Engine(
    objs: map<ObjId, Obj>,
    names: map<string, ObjId>,
    columns: map<(ObjId, string), ObjId>,
    rows: map<ObjId, Rows>,
    cells: map<(ObjId, RowId), Value>,
    rc: Rc)

  /** Every name resolves to the object carrying it and every named object is found by its name. */
  ghost predicate NamesConsistent(e: Engine) {
    && (forall n :: n in e.names ==> e.names[n] in e.objs && e.objs[e.names[n]].name == n && n != "")
    && (forall id :: id in e.objs && e.objs[id].name != "" ==> e.objs[id].name in e.names && e.names[e.objs[id].name] == id)
  }

  /** A table refers only to tables created before it: a domain or range that is not
      a builtin type is a smaller object id.  This is why chains of references end. */
  ghost predicate ReferencesPrecede(e: Engine) {
    forall id :: id in e.objs && IsTable(e.objs[id].kind) ==>
      && (!IsBuiltinType(e.objs[id].domain) ==> e.objs[id].domain < id)
      && (!IsBuiltinType(e.objs[id].range) ==> e.objs[id].range < id)
  }

  ghost predicate WellFormed(e: Engine) {
    NamesConsistent(e) && ReferencesPrecede(e)
  }

  /** grn_ctx_get: the object registered under a name. */
  function CtxGet(e: Engine, name: string): (r: Option<ObjId>)
    ensures r.Some? ==> r.value in e.objs
    ensures NamesConsistent(e) && r.Some? ==> e.objs[r.value].name == name
  {
    if name in e.names && e.names[name] in e.objs then Some(e.names[name]) else None
  }

  /** grn_ctx_at: the object with an id, if there is one. */
  function CtxAt(e: Engine, id: ObjId): (r: Option<ObjId>)
    ensures r.Some? <==> id in e.objs
    ensures r.Some? ==> r.value == id
  {
    if id in e.objs then Some(id) else None
  }

  /** grn_obj_column: the column or accessor a table resolves a name to. */
  function ObjColumn(e: Engine, table: ObjId, name: string): (r: Option<ObjId>)
    ensures r.Some? <==> (table, name) in e.columns && e.columns[(table, name)] in e.objs
    ensures r.Some? ==> r.value in e.objs
  {
    if (table, name) in e.columns && e.columns[(table, name)] in e.objs then Some(e.columns[(table, name)]) else None
  }

  function RowsOf(e: Engine, table: ObjId): Rows {
    if table in e.rows then e.rows[table] else Rows(map[], 0)
  }

  /** grn_table_add: find the row of a key, or add one.  A keyed table gives a key the
      row it already has; a table without keys adds a row every time.  Adding fails,
      with ID_NIL and no change, on an object that is not a table and on a full table. */
  function TableAdd(e: Engine, table: ObjId, key: Bytes): (r: (Engine, RowId, bool))
    ensures r.1 == ID_NIL ==> r.0 == e && !r.2
    ensures r.2 ==> r.1 != ID_NIL && r.0.objs == e.objs && RowsOf(r.0, table).count == r.1
    ensures !r.2 ==> r.0 == e
    ensures table in e.objs && IsKeyedTable(e.objs[table].kind) && key in RowsOf(e, table).keys ==>
      r == (e, RowsOf(e, table).keys[key], false)
  {
    if table !in e.objs || !IsTable(e.objs[table].kind) then (e, ID_NIL, false)
    else
      var rs := RowsOf(e, table);
      var keyed := IsKeyedTable(e.objs[table].kind);
      if keyed && key in rs.keys then (e, rs.keys[key], false)
      else if rs.count >= ID_MAX then (e, ID_NIL, false)
      else
        var id := rs.count + 1;
        var rs' := Rows(if keyed then rs.keys[key := id] else rs.keys, id);
        (e.(rows := e.rows[table := rs']), id, true)
  }

  /** Adding a key to a keyed table twice gives the same row, inserted only the first time. */
  lemma TableAddTwice(e: Engine, table: ObjId, key: Bytes)
    requires table in e.objs && IsKeyedTable(e.objs[table].kind)
    ensures var (e1, id1, ins1) := TableAdd(e, table, key);
            var (e2, id2, ins2) := TableAdd(e1, table, key);
            id1 != ID_NIL ==> e2 == e1 && id2 == id1 && !ins2
  {
    var (e1, id1, ins1) := TableAdd(e, table, key);
    if id1 != ID_NIL && ins1 {
      assert RowsOf(e1, table).keys == RowsOf(e, table).keys[key := id1];
    }
  }

  /** An object that holds values: a data column. */
  function CellOf(e: Engine, column: ObjId, id: RowId): Option<Value> {
    if (column, id) in e.cells then Some(e.cells[(column, id)]) else None
  }

  /** grn_obj_set_value with GRN_OBJ_SET: store a value in a column's cell.  It fails,
      with no change, on an object that is not a data column and on ID_NIL. */
  function ObjSetValue(e: Engine, column: ObjId, id: RowId, v: Value): (r: (Engine, Rc))
    ensures r.1 == Success <==> column in e.objs && IsDataColumn(e.objs[column].kind) && id != ID_NIL
    ensures r.1 == Success ==> CellOf(r.0, column, id) == Some(v)
    ensures r.1 == Success ==> forall c: ObjId, i: RowId :: (c, i) != (column, id) ==> CellOf(r.0, c, i) == CellOf(e, c, i)
    ensures r.0.objs == e.objs
    ensures r.1 != Success ==> r.0 == e
  {
    if column in e.objs && IsDataColumn(e.objs[column].kind) && id != ID_NIL then
      (e.(cells := e.cells[(column, id) := v]), Success)
    else
      (e, InvalidArgument)
  }

  // ---- The bytes a key is passed as ----

  function Pow256(n: nat): (p: nat)
    ensures p >= 1
  {
    if n == 0 then 1 else 256 * Pow256(n - 1)
  }

  /** The n low bytes of x, least significant first. */
  function LittleEndian(x: nat, n: nat): (b: Bytes)
    ensures |b| == n
  {
    if n == 0 then [] else [(x % 256) as uint8] + LittleEndian(x / 256, n - 1)
  }

  function FromLittleEndian(b: Bytes): nat {
    if b == [] then 0 else (b[0] as nat) + 256 * FromLittleEndian(b[1..])
  }

  lemma {:induction false} LittleEndianRoundTrip(x: nat, n: nat)
    requires x < Pow256(n)
    ensures FromLittleEndian(LittleEndian(x, n)) == x
  {
    if n > 0 {
      assert x / 256 < Pow256(n - 1);
      LittleEndianRoundTrip(x / 256, n - 1);
      var b := LittleEndian(x, n);
      assert b[1..] == LittleEndian(x / 256, n - 1);
    }
  }

  /** The n-byte two's-complement image of an integer, as a C integer of that size is laid out. */
  function EncodeInt(v: int, n: nat): (b: Bytes)
    requires -(Pow256(n) as int) <= v < Pow256(n)
    ensures |b| == n
  {
    if v < 0 then LittleEndian(v + Pow256(n), n) else LittleEndian(v, n)
  }

  /** Reads n bytes back as a signed (two's-complement) or unsigned integer. */
  function DecodeInt(b: Bytes, signed: bool): int {
    var u := FromLittleEndian(b);
    if signed && 2 * u >= Pow256(|b|) then u - Pow256(|b|) else u
  }

  /** A key passed as the bytes of a signed integer of its range is read back as that integer. */
  lemma EncodeIntSigned(v: int, n: nat)
    requires -(Pow256(n) as int) <= 2 * v < Pow256(n)
    ensures DecodeInt(EncodeInt(v, n), true) == v
  {
    if v < 0 {
      LittleEndianRoundTrip(v + Pow256(n), n);
    } else {
      LittleEndianRoundTrip(v, n);
    }
  }

  /** A key passed as the bytes of an unsigned integer of its range is read back as that integer. */
  lemma EncodeIntUnsigned(v: int, n: nat)
    requires 0 <= v < Pow256(n)
    ensures DecodeInt(EncodeInt(v, n), false) == v
  {
    LittleEndianRoundTrip(v, n);
  }

  lemma EncodeIntRoundTrip(v: int, n: nat, signed: bool)
    requires signed ==> -(Pow256(n) as int) <= 2 * v < Pow256(n)
    requires !signed ==> 0 <= v < Pow256(n)
    ensures -(Pow256(n) as int) <= v < Pow256(n)
    ensures DecodeInt(EncodeInt(v, n), signed) == v
  {
    if signed { EncodeIntSigned(v, n); } else { EncodeIntUnsigned(v, n); }
  }

  /** A grn_bool key: one byte, GRN_TRUE (1) or GRN_FALSE (0). */
  function EncodeBool(b: bool): (r: Bytes)
    ensures |r| == 1 && (r[0] == 1 <==> b)
  {
    [if b then 1 else 0]
  }

  /** A double key: the eight bytes of its bit pattern. */
  function EncodeFloat(f: Float64): (r: Bytes)
    ensures |r| == 8
  {
    LittleEndian(f, 8)
  }

  /** A grn_geo_point key: latitude then longitude, each a 32-bit int. */
  function EncodeGeoPoint(p: GeoPoint): (r: Bytes)
    requires -0x8000_0000 <= p.latitude < 0x8000_0000 && -0x8000_0000 <= p.longitude < 0x8000_0000
    ensures |r| == 8
    ensures DecodeInt(r[..4], true) == p.latitude && DecodeInt(r[4..], true) == p.longitude
  {
    var r := EncodeInt(p.latitude, 4) + EncodeInt(p.longitude, 4);
    EncodeIntSigned(p.latitude, 4);
    EncodeIntSigned(p.longitude, 4);
    assert r[..4] == EncodeInt(p.latitude, 4) && r[4..] == EncodeInt(p.longitude, 4);
    r
  }
}
