/** The single-value setters and getters of grngo.c (grngo.c:267-404 and
    596-702) and grn_cgo.c (grn_cgo.c:204-383), and what a read of a cell gives.
    A getter reads a row through grn_obj_get_value into a bulk of the type it asks
    for; a row that holds no value of that type reads as zero, or as an empty text
    or vector, as the fixed-size and variable-size columns of the engine give for
    a row never written. */
module Scalars {
  import opened Common
  import opened Ints
  import opened Engine
  import GrngoC
  import GrnCgo
  import Buffers

  // ---- What a row reads as ----

  /** The integer a row of a column holds, read as the integer type t; 0 for a row
      that holds no integer of type t in range. */
  function StoredInt(e: Engine, column: ObjId, id: RowId, t: TypeId): (r: int)
    requires GrngoC.IsIntType(t)
    ensures Buffers.InRange(t, r)
    ensures CellOf(e, column, id) == Some(IntValue(t, r)) || r == 0
  {
    match CellOf(e, column, id)
    case Some(IntValue(t', i)) => if t' == t && Buffers.InRange(t, i) then i else 0
    case _ => 0
  }

  function StoredFloat(e: Engine, column: ObjId, id: RowId): (r: Float64)
    ensures CellOf(e, column, id) == Some(FloatValue(r)) || r == 0
  {
    match CellOf(e, column, id)
    case Some(FloatValue(f)) => f
    case _ => 0
  }

  /** The point a row holds.  The getters read into a WGS84 bulk whatever the
      column's point type, so a Tokyo point reads the same. */
  function StoredGeoPoint(e: Engine, column: ObjId, id: RowId): (r: GeoPoint)
    ensures forall t :: CellOf(e, column, id) == Some(GeoPointValue(t, r)) ==> r == CellOf(e, column, id).value.p
    ensures CellOf(e, column, id).Some? && CellOf(e, column, id).value.GeoPointValue? ==> r == CellOf(e, column, id).value.p
    ensures !(CellOf(e, column, id).Some? && CellOf(e, column, id).value.GeoPointValue?) ==> r == GeoPoint(0, 0)
  {
    match CellOf(e, column, id)
    case Some(GeoPointValue(_, p)) => p
    case _ => GeoPoint(0, 0)
  }

  function StoredText(e: Engine, column: ObjId, id: RowId): (r: Bytes)
    ensures CellOf(e, column, id).Some? && CellOf(e, column, id).value.TextValue? ==> r == CellOf(e, column, id).value.bytes
    ensures !(CellOf(e, column, id).Some? && CellOf(e, column, id).value.TextValue?) ==> r == []
  {
    match CellOf(e, column, id)
    case Some(TextValue(_, bytes)) => bytes
    case _ => []
  }

  function StoredBools(e: Engine, column: ObjId, id: RowId): (r: seq<bool>)
    ensures CellOf(e, column, id) == Some(BoolVector(r)) || r == []
  {
    match CellOf(e, column, id)
    case Some(BoolVector(bs)) => bs
    case _ => []
  }

  /** The integers of a vector row of type t, every one of them in its range. */
  function StoredInts(e: Engine, column: ObjId, id: RowId, t: TypeId): (r: seq<int>)
    requires GrngoC.IsIntType(t)
    ensures forall i :: 0 <= i < |r| ==> Buffers.InRange(t, r[i])
    ensures CellOf(e, column, id) == Some(IntVector(t, r)) || r == []
  {
    match CellOf(e, column, id)
    case Some(IntVector(t', ints)) =>
      if t' == t && forall i :: 0 <= i < |ints| ==> Buffers.InRange(t, ints[i]) then ints else []
    case _ => []
  }

  function StoredFloats(e: Engine, column: ObjId, id: RowId): (r: seq<Float64>)
    ensures CellOf(e, column, id) == Some(FloatVector(r)) || r == []
  {
    match CellOf(e, column, id)
    case Some(FloatVector(fs)) => fs
    case _ => []
  }

  function StoredGeoPoints(e: Engine, column: ObjId, id: RowId): (r: seq<GeoPoint>)
    ensures CellOf(e, column, id).Some? && CellOf(e, column, id).value.GeoPointVector? ==> r == CellOf(e, column, id).value.ps
    ensures !(CellOf(e, column, id).Some? && CellOf(e, column, id).value.GeoPointVector?) ==> r == []
  {
    match CellOf(e, column, id)
    case Some(GeoPointVector(_, ps)) => ps
    case _ => []
  }

  function StoredTexts(e: Engine, column: ObjId, id: RowId): (r: seq<Bytes>)
    ensures CellOf(e, column, id) == Some(TextVector(r)) || r == []
  {
    match CellOf(e, column, id)
    case Some(TextVector(ts)) => ts
    case _ => []
  }

  // ---- Setters ----

  /** What grn_obj_set_value accepts: a row other than ID_NIL of a data column. */
  predicate Settable(e: Engine, column: ObjId, id: RowId) {
    column in e.objs && IsDataColumn(e.objs[column].kind) && id != ID_NIL
  }

  /** A setter's outcome: it reports success exactly when the row is settable, and
      then the row holds v and nothing else changed; otherwise nothing changed. */
  ghost predicate Wrote(e: Engine, e': Engine, ok: bool, column: ObjId, id: RowId, v: Value) {
    && (ok <==> Settable(e, column, id))
    && (ok ==> CellOf(e', column, id) == Some(v) && e'.objs == e.objs)
    && (ok ==> forall c: ObjId, i: RowId :: (c, i) != (column, id) ==> CellOf(e', c, i) == CellOf(e, c, i))
    && (!ok ==> e' == e)
  }

  /** grngo_column_set_bool and grn_cgo_column_set_bool. */
  function SetBool(e: Engine, column: ObjId, id: RowId, value: bool): (r: (Engine, bool))
    ensures Wrote(e, r.0, r.1, column, id, BoolValue(value))
    ensures r.1 ==> GrnCgo.BoolOf(r.0, column, id) == value
  {
    Buffers.Store(e, column, id, BoolValue(value))
  }

  /** grngo_column_set_int8 .. _set_time, one per integer type t, whose parameter
      has the C type of t; grn_cgo_column_set_int is the one for INT64. */
  function SetInt(e: Engine, column: ObjId, id: RowId, t: TypeId, value: int): (r: (Engine, bool))
    requires GrngoC.IsIntType(t) && Buffers.InRange(t, value)
    ensures Wrote(e, r.0, r.1, column, id, IntValue(t, value))
    ensures r.1 ==> StoredInt(r.0, column, id, t) == value
  {
    Buffers.Store(e, column, id, IntValue(t, value))
  }

  /** grngo_column_set_float and grn_cgo_column_set_float. */
  function SetFloat(e: Engine, column: ObjId, id: RowId, value: Float64): (r: (Engine, bool))
    ensures Wrote(e, r.0, r.1, column, id, FloatValue(value))
    ensures r.1 ==> StoredFloat(r.0, column, id) == value
  {
    Buffers.Store(e, column, id, FloatValue(value))
  }

  /** The bytes of a text struct passed by pointer: a NULL struct, like a NULL body
      of size 0, is the empty text. */
  function TextBytes(value: Option<GrngoC.Text>): (r: Bytes)
    requires value.Some? ==> (value.value.ptr.Some? ==> value.value.size <= |value.value.ptr.value|)
    ensures value.None? || value.value.ptr.None? ==> r == []
    ensures value.Some? && value.value.ptr.Some? ==> r == value.value.ptr.value[..value.value.size]
  {
    if value.None? || value.value.ptr.None? then [] else value.value.ptr.value[..value.value.size]
  }

  /** grngo_column_set_text and grn_cgo_column_set_text.  A NULL body must come with
      size 0. */
  function SetText(e: Engine, column: ObjId, id: RowId, value: Option<GrngoC.Text>): (r: (Engine, bool))
    requires value.Some? ==> (value.value.ptr.Some? ==> value.value.size <= |value.value.ptr.value|)
    requires value.Some? && value.value.ptr.None? ==> value.value.size == 0
    ensures Wrote(e, r.0, r.1, column, id, TextValue(TEXT, TextBytes(value)))
    ensures r.1 ==> StoredText(r.0, column, id) == TextBytes(value)
  {
    Buffers.Store(e, column, id, TextValue(TEXT, TextBytes(value)))
  }

  /** The point type of the bulk grngo_column_set_geo_point builds. */
  function GeoPointType(dataType: TypeId): (t: TypeId)
    ensures t == TOKYO_GEO_POINT <==> dataType == TOKYO_GEO_POINT
    ensures t == TOKYO_GEO_POINT || t == WGS84_GEO_POINT
  {
    if dataType == TOKYO_GEO_POINT then TOKYO_GEO_POINT else WGS84_GEO_POINT
  }

  /** grngo_column_set_geo_point: a Tokyo point for a TOKYO_GEO_POINT column and a
      WGS84 point for any other; grn_cgo_column_set_geo_point always writes WGS84. */
  function SetGeoPoint(e: Engine, column: ObjId, dataType: TypeId, id: RowId, value: GeoPoint): (r: (Engine, bool))
    ensures Wrote(e, r.0, r.1, column, id, GeoPointValue(GeoPointType(dataType), value))
    ensures r.1 ==> StoredGeoPoint(r.0, column, id) == value
  {
    Buffers.Store(e, column, id, GeoPointValue(GeoPointType(dataType), value))
  }

  // ---- Getters ----

  /** grngo_column_get_int: the row read as the integer type t and widened into the
      int64_t *value.  The C switch has no default, so for any other type it
      finalises an uninitialised bulk; the model leaves *value as it was there. */
  function GetInt(e: Engine, column: ObjId, t: TypeId, id: RowId, value: int64): (r: int64)
    ensures !GrngoC.IsIntType(t) ==> r == value
    ensures GrngoC.IsIntType(t) ==> Buffers.Narrow(t, r) == StoredInt(e, column, id, t)
    ensures GrngoC.IsIntType(t) && t != UINT64 ==> r == StoredInt(e, column, id, t)
  {
    if GrngoC.IsIntType(t) then
      Buffers.NarrowWiden(t, StoredInt(e, column, id, t));
      Buffers.Widen(t, StoredInt(e, column, id, t))
    else value
  }

  /** grngo_column_get_text and grn_cgo_column_get_text: the caller-buffer protocol
      applied to the row's text. */
  method GetText(e: Engine, column: ObjId, id: RowId, value: Buffers.Buffer<uint8>)
    requires value.Valid()
    modifies value, value.ptr
    ensures value.ptr == old(value.ptr) && value.size == |StoredText(e, column, id)|
    ensures |StoredText(e, column, id)| <= old(value.size) ==> value.ptr[..|StoredText(e, column, id)|] == StoredText(e, column, id)
    ensures |StoredText(e, column, id)| > old(value.size) ==> value.ptr[..] == old(value.ptr[..])
  {
    Buffers.GetVector(StoredText(e, column, id), value);
  }

  // ---- Set, then get ----

  /** An int64 narrowed to t and widened back is itself exactly when it lies in the
      range of t, or t is UINT64, whose bit pattern carries every int64. */
  lemma NarrowedRoundTrip(t: TypeId, v: int64)
    requires GrngoC.IsIntType(t)
    ensures Buffers.Widen(t, Buffers.Narrow(t, v)) == v <==> Buffers.InRange(t, v) || t == UINT64
  {
    var n := Buffers.Narrow(t, v);
    if t == UINT64 {
      if v < 0 {
        assert n == v + 0x1_0000_0000_0000_0000;
      }
    }
  }

  lemma {:induction false} NarrowedAllRoundTrip(t: TypeId, vs: seq<int64>)
    requires GrngoC.IsIntType(t)
    requires forall i :: 0 <= i < |vs| ==> Buffers.InRange(t, vs[i]) || t == UINT64
    ensures Buffers.WidenAll(t, Buffers.NarrowAll(t, vs)) == vs
  {
    forall i | 0 <= i < |vs|
      ensures Buffers.WidenAll(t, Buffers.NarrowAll(t, vs))[i] == vs[i]
    {
      NarrowedRoundTrip(t, vs[i]);
    }
  }
}
