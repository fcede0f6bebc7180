/** gnx's GrnColumn.SetValue, GetValue and GetValues (grn.go:782-1219): the same
    caller-buffer protocol as grngo, on the grn_cgo.c functions, which always store
    Int64, WGS84 points and Text; gnx's Bool is a byte and its Text a byte slice
    that may be nil. */
module GnxCells {
  import opened Common
  import opened Ints
  import Engine
  import Buffers
  import Scalars
  import GrngoC
  import GrnCgo
  import Handles
  import G = GnxValues
  import V = GoValues
  import opened Cells

  /** The bytes a Text hands to C: none for nil. */
  function Body(t: G.Text): (r: Bytes)
    ensures |r| == G.Len(t)
    ensures t.Some? ==> r == t.value
  {
    if t.None? then [] else t.value
  }

  function Bodies(ts: seq<G.Text>): (r: seq<Bytes>)
    ensures |r| == |ts| && forall i :: 0 <= i < |ts| ==> r[i] == Body(ts[i])
  {
    seq(|ts|, i requires 0 <= i < |ts| => Body(ts[i]))
  }

  /** The grn_bool a Bool becomes: only True is GRN_TRUE. */
  function Truths(bs: seq<G.Bool>): (r: seq<bool>)
    ensures |r| == |bs| && forall i :: 0 <= i < |bs| ==> (r[i] <==> bs[i] == G.True)
  {
    seq(|bs|, i requires 0 <= i < |bs| => bs[i] == G.True)
  }

  function EnginePoints(ps: seq<G.GeoPoint>): (r: seq<Engine.GeoPoint>)
    ensures |r| == |ps| && forall i :: 0 <= i < |ps| ==> r[i] == Engine.GeoPoint(ps[i].latitude, ps[i].longitude)
  {
    seq(|ps|, i requires 0 <= i < |ps| => Engine.GeoPoint(ps[i].latitude, ps[i].longitude))
  }

  predicate IsCellValue(value: V.GnxValue) {
    !value.Nil? && !value.Other?
  }

  /** Which columns each value type may be assigned to: a scalar setter wants a
      scalar column of its own TypeID; the vector setters check nothing. */
  predicate SetAccepts(column: Handles.Column, value: V.GnxValue) {
    match value
    case Bool(_) => column.valueType == G.BoolID && !column.isVector
    case Int(_) => column.valueType == G.IntID && !column.isVector
    case Float(_) => column.valueType == G.FloatID && !column.isVector
    case Point(_) => column.valueType == G.GeoPointID && !column.isVector
    case Text(_) => column.valueType == G.TextID && !column.isVector
    case BoolVector(_) => true
    case IntVector(_) => true
    case FloatVector(_) => true
    case PointVector(_) => true
    case TextVector(_) => true
    case _ => false
  }

  /** The value an accepted assignment stores: grn_cgo.c always builds Bool, Int64,
      Float, WGS84 point and Text bulks. */
  function Stored(value: V.GnxValue): (r: Engine.Value)
    requires IsCellValue(value)
  {
    match value
    case Bool(b) => Engine.BoolValue(b == G.True)
    case Int(i) => Engine.IntValue(Engine.INT64, i)
    case Float(f) => Engine.FloatValue(f)
    case Point(p) => Engine.GeoPointValue(Engine.WGS84_GEO_POINT, Engine.GeoPoint(p.latitude, p.longitude))
    case Text(t) => Engine.TextValue(Engine.TEXT, Body(t))
    case BoolVector(bs) => Engine.BoolVector(Truths(bs))
    case IntVector(ints) => Engine.IntVector(Engine.INT64, ints)
    case FloatVector(fs) => Engine.FloatVector(fs)
    case PointVector(ps) => Engine.GeoPointVector(Engine.WGS84_GEO_POINT, EnginePoints(ps))
    case TextVector(ts) => Engine.TextVector(Bodies(ts))
  }

  predicate IsVectorValue(value: V.GnxValue) {
    value.BoolVector? || value.IntVector? || value.FloatVector? || value.PointVector? || value.TextVector?
  }

  /** GrnColumn.SetValue, as the setters decide it: the row is C.grn_id(id), the
      low 32 bits of the Int. */
  function Assign(e: Engine.Engine, column: Handles.Column, id: G.Int, value: V.GnxValue)
    : (r: (Engine.Engine, Result<(), CellError>))
    ensures !IsCellValue(value) ==> r == (e, Err(UnsupportedValueType(if value.Other? then value.typeName else "")))
    ensures IsCellValue(value) && !SetAccepts(column, value) ==> r == (e, Err(ValueTypeConflict))
    ensures r.1.Err? ==> r.0 == e
    ensures SetAccepts(column, value) ==>
      && Scalars.Wrote(e, r.0, r.1.Ok?, column.obj, GrnCgo.GrnId(id), Stored(value))
      && (r.1.Err? ==> r.1 == Err(SetFailed))
  {
    if value.Nil? then (e, Err(UnsupportedValueType("")))
    else if value.Other? then (e, Err(UnsupportedValueType(value.typeName)))
    else if IsVectorValue(value) then AssignVector(e, column, id, value)
    else AssignScalar(e, column, id, value)
  }

  /** The scalar cases: each setter checks the column first. */
  function AssignScalar(e: Engine.Engine, column: Handles.Column, id: G.Int, value: V.GnxValue)
    : (r: (Engine.Engine, Result<(), CellError>))
    requires IsCellValue(value) && !IsVectorValue(value)
    ensures !SetAccepts(column, value) ==> r == (e, Err(ValueTypeConflict))
    ensures r.1.Err? ==> r.0 == e
    ensures SetAccepts(column, value) ==>
      && Scalars.Wrote(e, r.0, r.1.Ok?, column.obj, GrnCgo.GrnId(id), Stored(value))
      && (r.1.Err? ==> r.1 == Err(SetFailed))
  {
    var obj, row := column.obj, GrnCgo.GrnId(id);
    match value
    case Bool(b) =>
      if column.valueType != G.BoolID || column.isVector then (e, Err(ValueTypeConflict))
      else Done(e, Scalars.SetBool(e, obj, row, b == G.True))
    case Int(i) =>
      if column.valueType != G.IntID || column.isVector then (e, Err(ValueTypeConflict))
      else Done(e, Scalars.SetInt(e, obj, row, Engine.INT64, i))
    case Float(f) =>
      if column.valueType != G.FloatID || column.isVector then (e, Err(ValueTypeConflict))
      else Done(e, Scalars.SetFloat(e, obj, row, f))
    case Point(p) =>
      if column.valueType != G.GeoPointID || column.isVector then (e, Err(ValueTypeConflict))
      else Done(e, Scalars.SetGeoPoint(e, obj, Engine.WGS84_GEO_POINT, row, Engine.GeoPoint(p.latitude, p.longitude)))
    case Text(t) =>
      if column.valueType != G.TextID || column.isVector then (e, Err(ValueTypeConflict))
      else
        var body := Body(t);
        assert body[..|body|] == body;
        Done(e, Scalars.SetText(e, obj, row, Some(if |body| == 0 then GrngoC.Text(None, 0) else GrngoC.Text(Some(body), |body|))))
  }

  /** The vector cases: no setter looks at the column. */
  function AssignVector(e: Engine.Engine, column: Handles.Column, id: G.Int, value: V.GnxValue)
    : (r: (Engine.Engine, Result<(), CellError>))
    requires IsVectorValue(value)
    ensures !SetAccepts(column, value) ==> r == (e, Err(ValueTypeConflict))
    ensures r.1.Err? ==> r.0 == e
    ensures SetAccepts(column, value) ==>
      && Scalars.Wrote(e, r.0, r.1.Ok?, column.obj, GrnCgo.GrnId(id), Stored(value))
      && (r.1.Err? ==> r.1 == Err(SetFailed))
  {
    var obj, row := column.obj, GrnCgo.GrnId(id);
    match value
    case BoolVector(bs) => Done(e, Buffers.Store(e, obj, row, Engine.BoolVector(Truths(bs))))
    case IntVector(ints) => Done(e, Buffers.Store(e, obj, row, Engine.IntVector(Engine.INT64, ints)))
    case FloatVector(fs) => Done(e, Buffers.Store(e, obj, row, Engine.FloatVector(fs)))
    case PointVector(ps) => Done(e, Buffers.Store(e, obj, row, Engine.GeoPointVector(Engine.WGS84_GEO_POINT, EnginePoints(ps))))
    case TextVector(ts) => Done(e, Buffers.Store(e, obj, row, Engine.TextVector(Bodies(ts))))
  }

  /** GrnColumn.SetValue (grn.go:782-965): the vector setters pass a grn_cgo_vector
      over the slice, setBoolVector over a grn_bool copy of it. */
  method SetValue(e: Engine.Engine, column: Handles.Column, id: G.Int, value: V.GnxValue)
    returns (e': Engine.Engine, r: Result<(), CellError>)
    ensures (e', r) == Assign(e, column, id, value)
  {
    var obj, row := column.obj, GrnCgo.GrnId(id);
    var ok: bool;
    match value {
      case BoolVector(bs) =>
        var v := VectorOf(Truths(bs));
        e', ok := Buffers.SetBoolVector(e, obj, row, v);
      case IntVector(ints) =>
        var v := VectorOf(ints);
        e', ok := Buffers.SetIntVector(e, obj, row, Engine.INT64, v);
        assert Buffers.NarrowAll(Engine.INT64, ints) == ints;
      case FloatVector(fs) =>
        var v := VectorOf(fs);
        e', ok := Buffers.SetFloatVector(e, obj, row, v);
      case PointVector(ps) =>
        var v := VectorOf(EnginePoints(ps));
        e', ok := Buffers.SetGeoPointVector(e, obj, Engine.WGS84_GEO_POINT, row, v);
      case TextVector(ts) =>
        var v := TextSlotsOf(Bodies(ts));
        ghost var texts := Buffers.SlotTexts(v.ptr, v.size);
        e', ok := Buffers.SetTextVector(e, obj, row, v);
        assert (e', ok) == Buffers.Store(e, obj, row, Engine.TextVector(Buffers.SlotTexts(v.ptr, v.size)));
        assert Buffers.SlotTexts(v.ptr, v.size) == texts == Bodies(ts);
      case _ =>
        var a := Assign(e, column, id, value);
        return a.0, a.1;
    }
    if !ok {
      return e, Err(SetFailed);
    }
    r := Ok(());
  }

  // ---- Getters ----

  function GnxPoint(p: Engine.GeoPoint): (r: G.GeoPoint)
    ensures MIN_INT32 <= p.latitude <= MAX_INT32 ==> r.latitude == p.latitude
    ensures MIN_INT32 <= p.longitude <= MAX_INT32 ==> r.longitude == p.longitude
  {
    G.GeoPoint(WrapInto(p.latitude, MIN_INT32, 0x1_0000_0000), WrapInto(p.longitude, MIN_INT32, 0x1_0000_0000))
  }

  function GnxPoints(ps: seq<Engine.GeoPoint>): (r: seq<G.GeoPoint>)
    ensures |r| == |ps| && forall i :: 0 <= i < |ps| ==> r[i] == GnxPoint(ps[i])
  {
    seq(|ps|, i requires 0 <= i < |ps| => GnxPoint(ps[i]))
  }

  /** A C truth value as a gnx Bool. */
  function ToBool(b: bool): (r: G.Bool)
    ensures r == G.True || r == G.False
    ensures r == G.True <==> b
  {
    if b then G.True else G.False
  }

  function ToBools(bs: seq<bool>): (r: seq<G.Bool>)
    ensures |r| == |bs| && forall i :: 0 <= i < |bs| ==> r[i] == ToBool(bs[i])
  {
    seq(|bs|, i requires 0 <= i < |bs| => ToBool(bs[i]))
  }

  /** getTextVector's result: a slice of its size for every non-empty text, and nil
      for every empty one. */
  function ToTexts(ts: seq<Bytes>): (r: seq<G.Text>)
    ensures |r| == |ts| && forall i :: 0 <= i < |ts| ==> r[i] == (if |ts[i]| == 0 then None else Some(ts[i]))
  {
    seq(|ts|, i requires 0 <= i < |ts| => if |ts[i]| == 0 then None else Some(ts[i]))
  }

  /** GrnColumn.GetValue, as the getters decide it.  getText returns make(Text, 0)
      for an empty text, which is not nil. */
  function Read(e: Engine.Engine, column: Handles.Column, id: G.Int): (r: Result<V.GnxValue, CellError>)
    ensures r.Err? <==> !(G.BoolID <= column.valueType <= G.TextID)
    ensures r.Err? ==> r == Err(UndefinedValueType(column.valueType))
    ensures r.Ok? ==> (column.isVector <==> r.value.BoolVector? || r.value.IntVector? || r.value.FloatVector? || r.value.PointVector? || r.value.TextVector?)
    ensures r.Ok? && r.value.Bool? ==> r.value.b == G.True || r.value.b == G.False
    ensures r.Ok? && r.value.Text? ==> r.value.t.Some?
    ensures r.Ok? && r.value.TextVector? ==> forall k :: 0 <= k < |r.value.ts| ==> r.value.ts[k] != Some([])
  {
    var obj, row, t := column.obj, GrnCgo.GrnId(id), column.valueType;
    if !column.isVector then
      if t == G.BoolID then Ok(V.GnxValue.Bool(ToBool(GrnCgo.BoolOf(e, obj, row))))
      else if t == G.IntID then Ok(V.GnxValue.Int(Buffers.Widen(Engine.INT64, Scalars.StoredInt(e, obj, row, Engine.INT64))))
      else if t == G.FloatID then Ok(V.GnxValue.Float(Scalars.StoredFloat(e, obj, row)))
      else if t == G.GeoPointID then Ok(V.GnxValue.Point(GnxPoint(Scalars.StoredGeoPoint(e, obj, row))))
      else if t == G.TextID then Ok(V.GnxValue.Text(Some(Scalars.StoredText(e, obj, row))))
      else Err(UndefinedValueType(t))
    else
      if t == G.BoolID then Ok(V.GnxValue.BoolVector(ToBools(Scalars.StoredBools(e, obj, row))))
      else if t == G.IntID then Ok(V.GnxValue.IntVector(Buffers.WidenAll(Engine.INT64, Scalars.StoredInts(e, obj, row, Engine.INT64))))
      else if t == G.FloatID then Ok(V.GnxValue.FloatVector(Scalars.StoredFloats(e, obj, row)))
      else if t == G.GeoPointID then Ok(V.GnxValue.PointVector(GnxPoints(Scalars.StoredGeoPoints(e, obj, row))))
      else if t == G.TextID then Ok(V.GnxValue.TextVector(ToTexts(Scalars.StoredTexts(e, obj, row))))
      else Err(UndefinedValueType(t))
  }

  /** GrnColumn.GetValue (grn.go:966-1172). */
  method GetValue(e: Engine.Engine, column: Handles.Column, id: G.Int) returns (r: Result<V.GnxValue, CellError>)
    ensures r == Read(e, column, id)
  {
    var obj, row, t := column.obj, GrnCgo.GrnId(id), column.valueType;
    if !(G.BoolID <= t <= G.TextID) {
      return Err(UndefinedValueType(t));
    }
    if !column.isVector {
      if t == G.TextID {
        var text := FetchText(e, obj, row);
        return Ok(V.GnxValue.Text(Some(text)));
      }
      return Read(e, column, id);
    }
    if t == G.BoolID {
      var bs := Fetch(Scalars.StoredBools(e, obj, row));
      r := Ok(V.GnxValue.BoolVector(ToBools(bs)));
    } else if t == G.IntID {
      var ints := Fetch(Buffers.WidenAll(Engine.INT64, Scalars.StoredInts(e, obj, row, Engine.INT64)));
      r := Ok(V.GnxValue.IntVector(ints));
    } else if t == G.FloatID {
      var fs := Fetch(Scalars.StoredFloats(e, obj, row));
      r := Ok(V.GnxValue.FloatVector(fs));
    } else if t == G.GeoPointID {
      var ps := Fetch(Scalars.StoredGeoPoints(e, obj, row));
      r := Ok(V.GnxValue.PointVector(GnxPoints(ps)));
    } else {
      var ts := FetchTexts(Scalars.StoredTexts(e, obj, row));
      r := Ok(V.GnxValue.TextVector(ToTexts(ts)));
    }
  }

  // ---- Set, then get ----

  /** A value of the column's own shape and TypeID. */
  predicate ReadsBack(column: Handles.Column, value: V.GnxValue) {
    var t := column.valueType;
    match value
    case Bool(_) => t == G.BoolID && !column.isVector
    case Int(_) => t == G.IntID && !column.isVector
    case Float(_) => t == G.FloatID && !column.isVector
    case Point(_) => t == G.GeoPointID && !column.isVector
    case Text(_) => t == G.TextID && !column.isVector
    case BoolVector(_) => t == G.BoolID && column.isVector
    case IntVector(_) => t == G.IntID && column.isVector
    case FloatVector(_) => t == G.FloatID && column.isVector
    case PointVector(_) => t == G.GeoPointID && column.isVector
    case TextVector(_) => t == G.TextID && column.isVector
    case _ => false
  }

  /** The value as gnx reads it back: a Bool other than True as False, a nil Text
      as an empty one, and in a text vector every empty text as nil. */
  function Normal(value: V.GnxValue): V.GnxValue {
    match value
    case Bool(b) => V.GnxValue.Bool(ToBool(b == G.True))
    case Text(t) => V.GnxValue.Text(Some(Body(t)))
    case BoolVector(bs) => V.GnxValue.BoolVector(ToBools(Truths(bs)))
    case TextVector(ts) => V.GnxValue.TextVector(ToTexts(Bodies(ts)))
    case _ => value
  }

  /** Normalising twice is normalising once: what GetValue returns reads back
      unchanged. */
  lemma NormalIdempotent(value: V.GnxValue)
    ensures Normal(Normal(value)) == Normal(value)
  {
    match value
    case TextVector(ts) =>
      assert Bodies(ToTexts(Bodies(ts))) == Bodies(ts);
    case BoolVector(bs) =>
      assert Truths(ToBools(Truths(bs))) == Truths(bs);
    case _ =>
  }

  /** A successful SetValue followed by GetValue on the same row returns the value
      assigned, normalised. */
  lemma AssignThenRead(e: Engine.Engine, column: Handles.Column, id: G.Int, value: V.GnxValue)
    requires Assign(e, column, id, value).1.Ok? && ReadsBack(column, value)
    ensures Read(Assign(e, column, id, value).0, column, id) == Ok(Normal(value))
  {
    if IsVectorValue(value) {
      VectorThenRead(e, column, id, value);
    } else {
      ScalarThenRead(e, column, id, value);
    }
  }

  lemma ScalarThenRead(e: Engine.Engine, column: Handles.Column, id: G.Int, value: V.GnxValue)
    requires !IsVectorValue(value) && Assign(e, column, id, value).1.Ok? && ReadsBack(column, value)
    ensures Read(Assign(e, column, id, value).0, column, id) == Ok(Normal(value))
  {
    var e' := Assign(e, column, id, value).0;
    assert Engine.CellOf(e', column.obj, GrnCgo.GrnId(id)) == Some(Stored(value));
  }

  lemma VectorThenRead(e: Engine.Engine, column: Handles.Column, id: G.Int, value: V.GnxValue)
    requires IsVectorValue(value) && Assign(e, column, id, value).1.Ok? && ReadsBack(column, value)
    ensures Read(Assign(e, column, id, value).0, column, id) == Ok(Normal(value))
  {
    var e' := Assign(e, column, id, value).0;
    var obj, row := column.obj, GrnCgo.GrnId(id);
    assert Engine.CellOf(e', obj, row) == Some(Stored(value));
    if value.IntVector? {
      assert Scalars.StoredInts(e', obj, row, Engine.INT64) == value.ints;
      assert Buffers.WidenAll(Engine.INT64, value.ints) == value.ints;
    } else if value.PointVector? {
      assert GnxPoints(EnginePoints(value.ps)) == value.ps;
    }
  }

  /** Only the canonical Bools survive a round trip unchanged: True and False. */
  lemma BoolReadsBack(e: Engine.Engine, column: Handles.Column, id: G.Int, b: G.Bool)
    requires Assign(e, column, id, V.GnxValue.Bool(b)).1.Ok?
    ensures Read(Assign(e, column, id, V.GnxValue.Bool(b)).0, column, id) == Ok(V.GnxValue.Bool(b))
      <==> b == G.True || b == G.False
  {
    AssignThenRead(e, column, id, V.GnxValue.Bool(b));
  }

  // ---- GetValues ----

  /** The values getBools gives for the rows ids: True where the row holds true. */
  function BoolsOf(e: Engine.Engine, column: Engine.ObjId, ids: seq<G.Int>): (r: seq<G.Bool>)
    ensures |r| == |ids| && forall i :: 0 <= i < |ids| ==> (r[i] == G.True <==> GrnCgo.BoolOf(e, column, GrnCgo.GrnId(ids[i])))
  {
    seq(|ids|, i requires 0 <= i < |ids| => ToBool(GrnCgo.BoolOf(e, column, GrnCgo.GrnId(ids[i]))))
  }

  /** getBools as written (grn.go:1174-1188): &ids[0] and &grnValues[0] index an
      empty slice and panic, shown here as None. */
  function BoolsAsWritten(e: Engine.Engine, column: Engine.ObjId, ids: seq<G.Int>): (r: Option<seq<G.Bool>>)
    ensures r.None? <==> |ids| == 0
    ensures r.Some? ==> r.value == BoolsOf(e, column, ids)
  {
    if |ids| == 0 then None else Some(BoolsOf(e, column, ids))
  }

  /** The empty list of ids, whose evident answer is the empty list, makes getBools panic. */
  lemma BoolsOfNoIds(e: Engine.Engine, column: Engine.ObjId)
    ensures BoolsAsWritten(e, column, []) == None
    ensures BoolsOf(e, column, []) == []
  {
  }

  /** getBools, corrected: an empty list of ids gives an empty list of values,
      otherwise one grn_cgo_column_get_bools call over copies of the slices. */
  method GetBools(e: Engine.Engine, column: Engine.ObjId, ids: seq<G.Int>) returns (r: seq<G.Bool>)
    ensures r == BoolsOf(e, column, ids)
    ensures |ids| > 0 ==> BoolsAsWritten(e, column, ids) == Some(r)
  {
    if |ids| == 0 {
      return [];
    }
    var idArray := new int64[|ids|](i requires 0 <= i < |ids| => ids[i]);
    var values := new bool[|ids|];
    var _ := GrnCgo.ColumnGetBools(e, column, |ids|, idArray, values);
    r := [];
    for i := 0 to |ids|
      invariant r == BoolsOf(e, column, ids)[..i]
    {
      r := r + [if values[i] then G.True else G.False];
    }
  }

  /** GrnColumn.GetValues (grn.go:1190-1219): only scalar Bool columns are supported;
      on them, every value is the one GetValue gives for that row. */
  method GetValues(e: Engine.Engine, column: Handles.Column, ids: seq<G.Int>) returns (r: Result<seq<G.Bool>, CellError>)
    ensures r.Ok? <==> column.valueType == G.BoolID && !column.isVector
    ensures r.Err? ==> r == Err(UndefinedValueType(column.valueType))
    ensures r.Ok? ==> |r.value| == |ids| && forall i :: 0 <= i < |ids| ==> Read(e, column, ids[i]) == Ok(V.GnxValue.Bool(r.value[i]))
  {
    if column.isVector || column.valueType != G.BoolID {
      return Err(UndefinedValueType(column.valueType));
    }
    var bs := GetBools(e, column.obj, ids);
    r := Ok(bs);
  }
}
