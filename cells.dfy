/** grngo's Column.SetValue and Column.GetValue: type switches over the Go value
    and the column's value type, the checks the setters make before any engine
    call, and the getters' "probe the size, allocate, fetch" use of the C
    caller-buffer protocol (grngo.go:974-1430). */
module Cells {
  import opened Common
  import opened Ints
  import Engine
  import GrngoC
  import GrnCgo
  import Buffers
  import Scalars
  import Handles
  import V = GoValues

  datatype CellError =
    | ValueTypeConflict
    | SetFailed
    | UnsupportedValueType(typeName: string)
    | UndefinedValueType(valueType: int)
    | LookupFailed(lookupError: Handles.HandleError)

  predicate IsIntDataType(t: int) {
    t >= 0 && GrngoC.IsIntType(t)
  }

  predicate IsTextDataType(t: int) {
    t == Engine.SHORT_TEXT || t == Engine.TEXT || t == Engine.LONG_TEXT
  }

  predicate IsGeoPointDataType(t: int) {
    t == Engine.TOKYO_GEO_POINT || t == Engine.WGS84_GEO_POINT
  }

  /** The Go types SetValue's switch lists. */
  predicate IsCellValue(value: V.GrngoValue) {
    !value.Nil? && !value.Other?
  }

  /** Which columns each Go value type may be assigned to: every scalar setter wants
      its own value types and a scalar column; of the vector setters only
      setIntVector looks at the column at all. */
  predicate SetAccepts(column: Handles.Column, value: V.GrngoValue) {
    match value
    case Bool(_) => column.valueType == Engine.BOOL && !column.isVector
    case Int(_) => IsIntDataType(column.valueType) && !column.isVector
    case Float(_) => column.valueType == Engine.FLOAT && !column.isVector
    case Point(_) => IsGeoPointDataType(column.valueType) && !column.isVector
    case Text(_) => IsTextDataType(column.valueType) && !column.isVector
    case IntVector(_) => IsIntDataType(column.valueType)
    case BoolVector(_) => true
    case FloatVector(_) => true
    case PointVector(_) => true
    case TextVector(_) => true
    case _ => false
  }

  function EnginePoints(ps: seq<V.GeoPoint>): (r: seq<Engine.GeoPoint>)
    ensures |r| == |ps| && forall i :: 0 <= i < |ps| ==> r[i] == Engine.GeoPoint(ps[i].latitude, ps[i].longitude)
  {
    seq(|ps|, i requires 0 <= i < |ps| => Engine.GeoPoint(ps[i].latitude, ps[i].longitude))
  }

  /** The value an accepted assignment stores: integers wrapped into the column's
      type (C.int8_t(value) and the like for a scalar, the C setter for a
      vector), points of the column's point type, texts as they are. */
  function Stored(valueType: int, value: V.GrngoValue): (r: Engine.Value)
    requires IsCellValue(value)
    requires value.Int? || value.IntVector? ==> IsIntDataType(valueType)
  {
    match value
    case Bool(b) => Engine.BoolValue(b)
    case Int(i) => Engine.IntValue(valueType, Buffers.Narrow(valueType, i))
    case Float(f) => Engine.FloatValue(f)
    case Point(p) => Engine.GeoPointValue(Scalars.GeoPointType(if valueType >= 0 then valueType else 0), Engine.GeoPoint(p.latitude, p.longitude))
    case Text(t) => Engine.TextValue(Engine.TEXT, t)
    case BoolVector(bs) => Engine.BoolVector(bs)
    case IntVector(ints) => Engine.IntVector(valueType, Buffers.NarrowAll(valueType, ints))
    case FloatVector(fs) => Engine.FloatVector(fs)
    case PointVector(ps) => Engine.GeoPointVector(Scalars.GeoPointType(if valueType >= 0 then valueType else 0), EnginePoints(ps))
    case TextVector(ts) => Engine.TextVector(ts)
  }

  /** A C setter's boolean as the Go setter's error. */
  function Done(e: Engine.Engine, w: (Engine.Engine, bool)): (r: (Engine.Engine, Result<(), CellError>))
    ensures w.1 ==> r == (w.0, Ok(()))
    ensures !w.1 ==> r == (e, Err(SetFailed))
  {
    if w.1 then (w.0, Ok(())) else (e, Err(SetFailed))
  }

  predicate IsVectorValue(value: V.GrngoValue) {
    value.BoolVector? || value.IntVector? || value.FloatVector? || value.PointVector? || value.TextVector?
  }

  /** Column.SetValue, as the setters decide it: the new engine and the error. */
  function Assign(e: Engine.Engine, column: Handles.Column, id: uint32, value: V.GrngoValue): (r: (Engine.Engine, Result<(), CellError>))
    ensures !IsCellValue(value) ==> r == (e, Err(UnsupportedValueType(if value.Other? then value.typeName else "")))
    ensures IsCellValue(value) && !SetAccepts(column, value) ==> r == (e, Err(ValueTypeConflict))
    ensures r.1.Err? ==> r.0 == e && !r.1.error.LookupFailed?
    ensures SetAccepts(column, value) ==>
      && Scalars.Wrote(e, r.0, r.1.Ok?, column.obj, id, Stored(column.valueType, value))
      && (r.1.Err? ==> r.1 == Err(SetFailed))
  {
    if value.Nil? then (e, Err(UnsupportedValueType("")))
    else if value.Other? then (e, Err(UnsupportedValueType(value.typeName)))
    else if IsVectorValue(value) then AssignVector(e, column, id, value)
    else AssignScalar(e, column, id, value)
  }

  /** The scalar cases of Column.SetValue: each setter checks the column first. */
  function AssignScalar(e: Engine.Engine, column: Handles.Column, id: uint32, value: V.GrngoValue): (r: (Engine.Engine, Result<(), CellError>))
    requires IsCellValue(value) && !IsVectorValue(value)
    ensures !SetAccepts(column, value) ==> r == (e, Err(ValueTypeConflict))
    ensures r.1.Err? ==> r.0 == e && !r.1.error.LookupFailed?
    ensures SetAccepts(column, value) ==>
      && Scalars.Wrote(e, r.0, r.1.Ok?, column.obj, id, Stored(column.valueType, value))
      && (r.1.Err? ==> r.1 == Err(SetFailed))
  {
    var obj := column.obj;
    match value
    case Bool(b) =>
      if column.valueType != Engine.BOOL || column.isVector then (e, Err(ValueTypeConflict))
      else Done(e, Scalars.SetBool(e, obj, id, b))
    case Int(i) =>
      if column.isVector || !IsIntDataType(column.valueType) then (e, Err(ValueTypeConflict))
      else Done(e, Scalars.SetInt(e, obj, id, column.valueType, Buffers.Narrow(column.valueType, i)))
    case Float(f) =>
      if column.valueType != Engine.FLOAT || column.isVector then (e, Err(ValueTypeConflict))
      else Done(e, Scalars.SetFloat(e, obj, id, f))
    case Point(p) =>
      if !IsGeoPointDataType(column.valueType) || column.isVector then (e, Err(ValueTypeConflict))
      else Done(e, Scalars.SetGeoPoint(e, obj, column.valueType, id, Engine.GeoPoint(p.latitude, p.longitude)))
    case Text(t) =>
      if !IsTextDataType(column.valueType) || column.isVector then (e, Err(ValueTypeConflict))
      else assert t[..|t|] == t; Done(e, Scalars.SetText(e, obj, id, Some(if |t| == 0 then GrngoC.Text(None, 0) else GrngoC.Text(Some(t), |t|))))
  }

  /** The vector cases of Column.SetValue: only setIntVector looks at the column. */
  function AssignVector(e: Engine.Engine, column: Handles.Column, id: uint32, value: V.GrngoValue): (r: (Engine.Engine, Result<(), CellError>))
    requires IsVectorValue(value)
    ensures !SetAccepts(column, value) ==> r == (e, Err(ValueTypeConflict))
    ensures r.1.Err? ==> r.0 == e && !r.1.error.LookupFailed?
    ensures SetAccepts(column, value) ==>
      && Scalars.Wrote(e, r.0, r.1.Ok?, column.obj, id, Stored(column.valueType, value))
      && (r.1.Err? ==> r.1 == Err(SetFailed))
  {
    var obj := column.obj;
    match value
    case BoolVector(bs) => Done(e, Buffers.Store(e, obj, id, Engine.BoolVector(bs)))
    case IntVector(ints) =>
      if !IsIntDataType(column.valueType) then (e, Err(ValueTypeConflict))
      else Done(e, Buffers.Store(e, obj, id, Engine.IntVector(column.valueType, Buffers.NarrowAll(column.valueType, ints))))
    case FloatVector(fs) => Done(e, Buffers.Store(e, obj, id, Engine.FloatVector(fs)))
    case PointVector(ps) =>
      Done(e, Buffers.Store(e, obj, id, Engine.GeoPointVector(Scalars.GeoPointType(if column.valueType >= 0 then column.valueType else 0), EnginePoints(ps))))
    case TextVector(ts) => Done(e, Buffers.Store(e, obj, id, Engine.TextVector(ts)))
  }

  /** A Go slice as the grngo_vector a vector setter passes: a fresh array holding
      its elements. */
  method VectorOf<T>(s: seq<T>) returns (v: Buffers.Buffer<T>)
    ensures fresh(v) && v.Valid() && v.ptr[..v.size] == s
  {
    var ptr := new T[|s|](i requires 0 <= i < |s| => s[i]);
    v := new Buffers.Buffer(ptr, |s|);
  }

  /** setTextVector's grngo_text array: a slot per text, holding its body, or an
      empty body for an empty text. */
  method TextSlotsOf(ts: seq<Bytes>) returns (v: Buffers.Buffer<Buffers.TextSlot>)
    ensures fresh(v) && v.Valid() && forall i :: 0 <= i < v.size ==> v.ptr[i].size <= v.ptr[i].ptr.Length
    ensures Buffers.SlotTexts(v.ptr, v.size) == ts
  {
    var none := new uint8[0];
    var slots := new Buffers.TextSlot[|ts|](_ => Buffers.TextSlot(none, 0));
    for i := 0 to |ts|
      invariant forall j :: 0 <= j < |ts| ==> slots[j].size <= slots[j].ptr.Length
      invariant forall j :: 0 <= j < i ==> slots[j].ptr[..slots[j].size] == ts[j]
      invariant forall j :: i <= j < |ts| ==> slots[j] == Buffers.TextSlot(none, 0)
    {
      if |ts[i]| != 0 {
        var body := new uint8[|ts[i]|](k requires 0 <= k < |ts[i]| => ts[i][k]);
        slots[i] := Buffers.TextSlot(body, |ts[i]|);
      }
    }
    v := new Buffers.Buffer(slots, |ts|);
  }

  /** Column.SetValue (grngo.go:974-1222): the scalar setters pass the value itself,
      the vector setters a grngo_vector over the slice. */
  method SetValue(e: Engine.Engine, column: Handles.Column, id: uint32, value: V.GrngoValue)
    returns (e': Engine.Engine, r: Result<(), CellError>)
    ensures (e', r) == Assign(e, column, id, value)
  {
    var obj := column.obj;
    var ok: bool;
    match value {
      case BoolVector(bs) =>
        var v := VectorOf(bs);
        e', ok := Buffers.SetBoolVector(e, obj, id, v);
      case IntVector(ints) =>
        if !IsIntDataType(column.valueType) {
          return e, Err(ValueTypeConflict);
        }
        var v := VectorOf(ints);
        e', ok := Buffers.SetIntVector(e, obj, id, column.valueType, v);
      case FloatVector(fs) =>
        var v := VectorOf(fs);
        e', ok := Buffers.SetFloatVector(e, obj, id, v);
      case PointVector(ps) =>
        var v := VectorOf(EnginePoints(ps));
        e', ok := Buffers.SetGeoPointVector(e, obj, if column.valueType >= 0 then column.valueType else 0, id, v);
      case TextVector(ts) =>
        var v := TextSlotsOf(ts);
        ghost var texts := Buffers.SlotTexts(v.ptr, v.size);
        e', ok := Buffers.SetTextVector(e, obj, id, v);
        assert (e', ok) == Buffers.Store(e, obj, id, Engine.TextVector(Buffers.SlotTexts(v.ptr, v.size)));
        assert Buffers.SlotTexts(v.ptr, v.size) == texts == ts;
      case _ =>
        var a := Assign(e, column, id, value);
        return a.0, a.1;
    }
    if !ok {
      return e, Err(SetFailed);
    }
    r := Ok(());
  }

  // ---- Getters ----

  /** int32(grnValue.latitude) and int32(grnValue.longitude): the C int fields of a
      grn_geo_point as Go's GeoPoint. */
  function GoPoint(p: Engine.GeoPoint): (r: V.GeoPoint)
    ensures MIN_INT32 <= p.latitude <= MAX_INT32 ==> r.latitude == p.latitude
    ensures MIN_INT32 <= p.longitude <= MAX_INT32 ==> r.longitude == p.longitude
  {
    V.GeoPoint(WrapInto(p.latitude, MIN_INT32, 0x1_0000_0000), WrapInto(p.longitude, MIN_INT32, 0x1_0000_0000))
  }

  function GoPoints(ps: seq<Engine.GeoPoint>): (r: seq<V.GeoPoint>)
    ensures |r| == |ps| && forall i :: 0 <= i < |ps| ==> r[i] == GoPoint(ps[i])
  {
    seq(|ps|, i requires 0 <= i < |ps| => GoPoint(ps[i]))
  }

  /** Column.GetValue, as the getters decide it: the value a row reads as, by the
      column's shape and value type; the C getters themselves cannot fail. */
  function Read(e: Engine.Engine, column: Handles.Column, id: uint32): (r: Result<V.GrngoValue, CellError>)
    ensures r.Err? <==> !(Engine.BOOL <= column.valueType <= Engine.WGS84_GEO_POINT)
    ensures r.Err? ==> r == Err(UndefinedValueType(column.valueType))
    ensures r.Ok? ==> (r.value.Bool? || r.value.BoolVector? <==> column.valueType == Engine.BOOL)
    ensures r.Ok? ==> (r.value.Int? <==> IsIntDataType(column.valueType) && !column.isVector)
    ensures r.Ok? ==> (r.value.IntVector? <==> IsIntDataType(column.valueType) && column.isVector)
    ensures r.Ok? ==> (r.value.Text? || r.value.TextVector? <==> IsTextDataType(column.valueType))
    ensures r.Ok? ==> (r.value.Point? || r.value.PointVector? <==> IsGeoPointDataType(column.valueType))
    ensures r.Ok? ==> (column.isVector <==> r.value.BoolVector? || r.value.IntVector? || r.value.FloatVector? || r.value.PointVector? || r.value.TextVector?)
  {
    var obj, t := column.obj, column.valueType;
    if !column.isVector then
      if t == Engine.BOOL then Ok(V.GrngoValue.Bool(GrnCgo.BoolOf(e, obj, id)))
      else if IsIntDataType(t) then Ok(V.GrngoValue.Int(Buffers.Widen(t, Scalars.StoredInt(e, obj, id, t))))
      else if t == Engine.FLOAT then Ok(V.GrngoValue.Float(Scalars.StoredFloat(e, obj, id)))
      else if IsTextDataType(t) then Ok(V.GrngoValue.Text(Scalars.StoredText(e, obj, id)))
      else if IsGeoPointDataType(t) then Ok(V.GrngoValue.Point(GoPoint(Scalars.StoredGeoPoint(e, obj, id))))
      else Err(UndefinedValueType(t))
    else
      if t == Engine.BOOL then Ok(V.GrngoValue.BoolVector(Scalars.StoredBools(e, obj, id)))
      else if IsIntDataType(t) then Ok(V.GrngoValue.IntVector(Buffers.WidenAll(t, Scalars.StoredInts(e, obj, id, t))))
      else if t == Engine.FLOAT then Ok(V.GrngoValue.FloatVector(Scalars.StoredFloats(e, obj, id)))
      else if IsTextDataType(t) then Ok(V.GrngoValue.TextVector(Scalars.StoredTexts(e, obj, id)))
      else if IsGeoPointDataType(t) then Ok(V.GrngoValue.PointVector(GoPoints(Scalars.StoredGeoPoints(e, obj, id))))
      else Err(UndefinedValueType(t))
  }

  /** A vector getter called the way grngo calls it: once with capacity 0 for the
      size, and when that is not 0, again into a slice of that size. */
  method Fetch<T(0)>(stored: seq<T>) returns (r: seq<T>)
    ensures r == stored
  {
    var nothing := new T[0];
    var probe := new Buffers.Buffer<T>(nothing, 0);
    Buffers.GetVector(stored, probe);
    if probe.size == 0 {
      return [];
    }
    var ptr := new T[probe.size];
    probe.ptr := ptr;
    Buffers.GetVector(stored, probe);
    r := ptr[..];
  }

  /** getIntVector: the same two calls of grngo_column_get_int_vector. */
  method FetchInts(t: Engine.TypeId, stored: seq<int>) returns (r: seq<int64>)
    requires GrngoC.IsIntType(t) && forall i :: 0 <= i < |stored| ==> Buffers.InRange(t, stored[i])
    ensures r == Buffers.WidenAll(t, stored)
  {
    var nothing := new int64[0];
    var probe := new Buffers.Buffer<int64>(nothing, 0);
    Buffers.GetIntVector(t, stored, probe);
    if probe.size == 0 {
      return [];
    }
    var ptr := new int64[probe.size];
    probe.ptr := ptr;
    Buffers.GetIntVector(t, stored, probe);
    r := ptr[..];
  }

  /** getText: grngo_column_get_text once for the size, then into a body of that size. */
  method FetchText(e: Engine.Engine, column: Engine.ObjId, id: Engine.RowId) returns (r: Bytes)
    ensures r == Scalars.StoredText(e, column, id)
  {
    var nothing := new uint8[0];
    var probe := new Buffers.Buffer<uint8>(nothing, 0);
    Scalars.GetText(e, column, id, probe);
    if probe.size == 0 {
      return [];
    }
    var body := new uint8[probe.size];
    probe.ptr := body;
    Scalars.GetText(e, column, id, probe);
    r := body[..];
  }

  /** Gives every non-empty slot of a text-vector buffer a fresh body of its size;
      an empty slot keeps its empty body. */
  method AllocateBodies(slots: array<Buffers.TextSlot>)
    requires forall i :: 0 <= i < slots.Length ==> slots[i].ptr.Length == 0
    modifies slots
    ensures forall i :: 0 <= i < slots.Length ==> slots[i].size == old(slots[i].size) && slots[i].ptr.Length == slots[i].size
    ensures forall i :: 0 <= i < slots.Length ==> fresh(slots[i].ptr) || slots[i].ptr == old(slots[i].ptr)
    ensures Buffers.BodiesDisjoint(slots)
  {
    for i := 0 to slots.Length
      invariant forall j :: 0 <= j < slots.Length ==> slots[j].size == old(slots[j].size)
      invariant forall j :: 0 <= j < i ==> slots[j].ptr.Length == slots[j].size
      invariant forall j :: i <= j < slots.Length ==> slots[j] == old(slots[j])
      invariant forall j :: 0 <= j < i ==> fresh(slots[j].ptr) || slots[j].ptr == old(slots[j].ptr)
      invariant forall j, k :: 0 <= j < i && 0 <= k < slots.Length && j != k && slots[j].ptr == slots[k].ptr ==> slots[j].ptr.Length == 0
    {
      if slots[i].size != 0 {
        var body := new uint8[slots[i].size];
        slots[i] := slots[i].(ptr := body);
      }
    }
  }

  /** The last getTextVector call: every slot sized to its text gets that text. */
  method FillBodies(stored: seq<Bytes>, value: Buffers.Buffer<Buffers.TextSlot>)
    requires value.Valid() && value.size == |stored| && Buffers.BodiesDisjoint(value.ptr)
    requires forall i :: 0 <= i < value.size ==> value.ptr[i].size == |stored[i]| == value.ptr[i].ptr.Length
    modifies value, value.ptr, Buffers.Bodies(value.ptr)
    ensures value.ptr == old(value.ptr) && forall i :: 0 <= i < |stored| ==> value.ptr[i].ptr[..] == stored[i]
  {
    Buffers.GetTextVector(stored, value);
    forall i | 0 <= i < |stored|
      ensures value.ptr[i].ptr[..] == stored[i]
    {
      assert value.ptr[i].ptr[..] == value.ptr[i].ptr[..|stored[i]|];
    }
  }

  /** The first two getTextVector calls: the number of texts, then their sizes
      written into that many slots without bodies. */
  method ProbeSizes(stored: seq<Bytes>) returns (probe: Buffers.Buffer<Buffers.TextSlot>)
    ensures fresh(probe) && fresh(probe.ptr) && probe.Valid() && probe.size == |stored|
    ensures probe.size > 0 ==>
      && probe.ptr.Length == |stored| && Buffers.BodiesDisjoint(probe.ptr)
      && forall i :: 0 <= i < |stored| ==> probe.ptr[i].size == |stored[i]| && probe.ptr[i].ptr.Length == 0 && fresh(probe.ptr[i].ptr)
  {
    var nothing := new Buffers.TextSlot[0];
    probe := new Buffers.Buffer<Buffers.TextSlot>(nothing, 0);
    Buffers.GetTextVector(stored, probe);
    if probe.size == 0 {
      return;
    }
    var none := new uint8[0];
    var slots := new Buffers.TextSlot[probe.size](_ => Buffers.TextSlot(none, 0));
    probe.ptr := slots;
    Buffers.GetTextVector(stored, probe);
  }

  /** The bodies of the first n slots, in order. */
  method CollectBodies(slots: array<Buffers.TextSlot>, n: nat) returns (r: seq<Bytes>)
    requires n <= slots.Length
    ensures |r| == n && forall i :: 0 <= i < n ==> r[i] == slots[i].ptr[..]
  {
    r := [];
    for i := 0 to n
      invariant |r| == i && forall j :: 0 <= j < i ==> r[j] == slots[j].ptr[..]
    {
      r := r + [slots[i].ptr[..]];
    }
  }

  /** getTextVector: once for the number of texts, once into that many empty
      slots for their sizes, and once more with a body of its size for every
      non-empty text. */
  method FetchTexts(stored: seq<Bytes>) returns (r: seq<Bytes>)
    ensures r == stored
  {
    var probe := ProbeSizes(stored);
    if probe.size == 0 {
      return [];
    }
    var slots := probe.ptr;
    AllocateBodies(slots);
    FillBodies(stored, probe);
    r := CollectBodies(slots, |stored|);
  }

  /** Column.GetValue (grngo.go:1224-1430). */
  method GetValue(e: Engine.Engine, column: Handles.Column, id: uint32) returns (r: Result<V.GrngoValue, CellError>)
    ensures r == Read(e, column, id)
  {
    var obj, t := column.obj, column.valueType;
    if !(Engine.BOOL <= t <= Engine.WGS84_GEO_POINT) {
      return Err(UndefinedValueType(t));
    }
    if !column.isVector {
      if IsTextDataType(t) {
        var text := FetchText(e, obj, id);
        return Ok(V.GrngoValue.Text(text));
      }
      return Read(e, column, id);
    }
    if t == Engine.BOOL {
      var bs := Fetch(Scalars.StoredBools(e, obj, id));
      r := Ok(V.GrngoValue.BoolVector(bs));
    } else if IsIntDataType(t) {
      var ints := FetchInts(t, Scalars.StoredInts(e, obj, id, t));
      r := Ok(V.GrngoValue.IntVector(ints));
    } else if t == Engine.FLOAT {
      var fs := Fetch(Scalars.StoredFloats(e, obj, id));
      r := Ok(V.GrngoValue.FloatVector(fs));
    } else if IsTextDataType(t) {
      var ts := FetchTexts(Scalars.StoredTexts(e, obj, id));
      r := Ok(V.GrngoValue.TextVector(ts));
    } else {
      var ps := Fetch(Scalars.StoredGeoPoints(e, obj, id));
      r := Ok(V.GrngoValue.PointVector(GoPoints(ps)));
    }
  }

  // ---- Set, then get ----

  /** The values a column gives back exactly as they were assigned: of the column's
      own shape and type, integers in the range of the column's type (every int64
      comes back from a UInt64 column, whose bits carry it). */
  predicate ReadsBack(column: Handles.Column, value: V.GrngoValue) {
    var t := column.valueType;
    match value
    case Bool(_) => t == Engine.BOOL && !column.isVector
    case Int(i) => IsIntDataType(t) && !column.isVector && (Buffers.InRange(t, i) || t == Engine.UINT64)
    case Float(_) => t == Engine.FLOAT && !column.isVector
    case Point(_) => IsGeoPointDataType(t) && !column.isVector
    case Text(_) => IsTextDataType(t) && !column.isVector
    case BoolVector(_) => t == Engine.BOOL && column.isVector
    case IntVector(ints) =>
      IsIntDataType(t) && column.isVector && forall k :: 0 <= k < |ints| ==> Buffers.InRange(t, ints[k]) || t == Engine.UINT64
    case FloatVector(_) => t == Engine.FLOAT && column.isVector
    case PointVector(_) => IsGeoPointDataType(t) && column.isVector
    case TextVector(_) => IsTextDataType(t) && column.isVector
    case _ => false
  }

  /** A successful SetValue followed by GetValue on the same row returns the value
      assigned, for every value the column reads back. */
  lemma AssignThenRead(e: Engine.Engine, column: Handles.Column, id: uint32, value: V.GrngoValue)
    requires Assign(e, column, id, value).1.Ok? && ReadsBack(column, value)
    ensures Read(Assign(e, column, id, value).0, column, id) == Ok(value)
  {
    if IsVectorValue(value) {
      VectorThenRead(e, column, id, value);
    } else {
      ScalarThenRead(e, column, id, value);
    }
  }

  lemma ScalarThenRead(e: Engine.Engine, column: Handles.Column, id: uint32, value: V.GrngoValue)
    requires !IsVectorValue(value) && Assign(e, column, id, value).1.Ok? && ReadsBack(column, value)
    ensures Read(Assign(e, column, id, value).0, column, id) == Ok(value)
  {
    var e' := Assign(e, column, id, value).0;
    assert Engine.CellOf(e', column.obj, id) == Some(Stored(column.valueType, value));
    if value.Int? {
      Scalars.NarrowedRoundTrip(column.valueType, value.i);
    }
  }

  lemma VectorThenRead(e: Engine.Engine, column: Handles.Column, id: uint32, value: V.GrngoValue)
    requires IsVectorValue(value) && Assign(e, column, id, value).1.Ok? && ReadsBack(column, value)
    ensures Read(Assign(e, column, id, value).0, column, id) == Ok(value)
  {
    var e' := Assign(e, column, id, value).0;
    var obj, t := column.obj, column.valueType;
    assert Engine.CellOf(e', obj, id) == Some(Stored(t, value));
    if value.IntVector? {
      assert Scalars.StoredInts(e', obj, id, t) == Buffers.NarrowAll(t, value.ints);
      Scalars.NarrowedAllRoundTrip(t, value.ints);
    } else if value.PointVector? {
      assert GoPoints(EnginePoints(value.ps)) == value.ps;
    }
  }

  /** An integer outside the range of its column reads back as the engine wrapped
      it: a successful SetValue of Int(i) is read back as Int(i) exactly when i is
      in range, or the column is UInt64. */
  lemma AssignIntThenRead(e: Engine.Engine, column: Handles.Column, id: uint32, i: int64)
    requires Assign(e, column, id, V.GrngoValue.Int(i)).1.Ok?
    ensures IsIntDataType(column.valueType) && !column.isVector
    ensures Read(Assign(e, column, id, V.GrngoValue.Int(i)).0, column, id)
      == Ok(V.GrngoValue.Int(Buffers.Widen(column.valueType, Buffers.Narrow(column.valueType, i))))
    ensures Read(Assign(e, column, id, V.GrngoValue.Int(i)).0, column, id) == Ok(V.GrngoValue.Int(i))
      <==> Buffers.InRange(column.valueType, i) || column.valueType == Engine.UINT64
  {
    Scalars.NarrowedRoundTrip(column.valueType, i);
  }

  // ---- Table and DB wrappers ----

  /** Table.SetValue (grngo.go:760-767): the column looked up by name, then assigned. */
  method TableSetValue(table: Handles.Table, e: Engine.Engine, columnName: string, id: uint32, value: V.GrngoValue)
    returns (e': Engine.Engine, r: Result<(), CellError>)
    requires Engine.WellFormed(e) && table.db.Valid() && table.db.Cached(table)
    modifies table.db
    ensures table.db.Valid() && Handles.Grows(old(table.db.tables), table.db.tables)
    ensures r.Err? && r.error.LookupFailed? ==> e' == e && (table.name, columnName) !in old(table.db.columns)
    ensures !(r.Err? && r.error.LookupFailed?) ==>
      && (table.name, columnName) in table.db.columns
      && (e', r) == Assign(e, table.db.columns[(table.name, columnName)], id, value)
  {
    var column, _ := table.FindColumn(e, columnName);
    if column.Err? {
      return e, Err(LookupFailed(column.error));
    }
    e', r := SetValue(e, column.value, id, value);
    assert !(r.Err? && r.error.LookupFailed?);
  }

  /** Table.GetValue (grngo.go:769-776). */
  method TableGetValue(table: Handles.Table, e: Engine.Engine, columnName: string, id: uint32)
    returns (r: Result<V.GrngoValue, CellError>)
    requires Engine.WellFormed(e) && table.db.Valid() && table.db.Cached(table)
    modifies table.db
    ensures table.db.Valid() && Handles.Grows(old(table.db.tables), table.db.tables)
    ensures r.Err? && r.error.LookupFailed? ==> (table.name, columnName) !in old(table.db.columns)
    ensures !(r.Err? && r.error.LookupFailed?) ==>
      && (table.name, columnName) in table.db.columns
      && r == Read(e, table.db.columns[(table.name, columnName)], id)
  {
    var column, _ := table.FindColumn(e, columnName);
    if column.Err? {
      return Err(LookupFailed(column.error));
    }
    r := GetValue(e, column.value, id);
  }

  /** DB.SetValue (grngo.go:581-588): the table looked up by name, then Table.SetValue. */
  method DBSetValue(db: Handles.DB, e: Engine.Engine, tableName: string, columnName: string, id: uint32, value: V.GrngoValue)
    returns (e': Engine.Engine, r: Result<(), CellError>)
    requires Engine.WellFormed(e) && db.Valid()
    modifies db
    ensures db.Valid() && Handles.Grows(old(db.tables), db.tables)
    ensures r.Err? && r.error.LookupFailed? ==> e' == e && (tableName, columnName) !in old(db.columns)
    ensures !(r.Err? && r.error.LookupFailed?) ==>
      && (tableName, columnName) in db.columns
      && (e', r) == Assign(e, db.columns[(tableName, columnName)], id, value)
  {
    var table := db.FindTable(e, tableName);
    if table.Err? {
      assert forall k :: k in db.columns ==> k.0 in db.tables;
      return e, Err(LookupFailed(table.error));
    }
    e', r := TableSetValue(table.value, e, columnName, id, value);
  }

  /** DB.GetValue (grngo.go:590-597). */
  method DBGetValue(db: Handles.DB, e: Engine.Engine, tableName: string, columnName: string, id: uint32)
    returns (r: Result<V.GrngoValue, CellError>)
    requires Engine.WellFormed(e) && db.Valid()
    modifies db
    ensures db.Valid() && Handles.Grows(old(db.tables), db.tables)
    ensures r.Err? && r.error.LookupFailed? ==> (tableName, columnName) !in old(db.columns)
    ensures !(r.Err? && r.error.LookupFailed?) ==>
      && (tableName, columnName) in db.columns
      && r == Read(e, db.columns[(tableName, columnName)], id)
  {
    var table := db.FindTable(e, tableName);
    if table.Err? {
      assert forall k :: k in db.columns ==> k.0 in db.tables;
      return Err(LookupFailed(table.error));
    }
    r := TableGetValue(table.value, e, columnName, id);
  }

  /** DB.FindColumn (grngo.go:572-579). */
  method DBFindColumn(db: Handles.DB, e: Engine.Engine, tableName: string, columnName: string)
    returns (r: Result<Handles.Column, Handles.HandleError>)
    requires Engine.WellFormed(e) && db.Valid()
    modifies db
    ensures db.Valid() && Handles.Grows(old(db.tables), db.tables) && Handles.Grows(old(db.columns), db.columns)
    ensures (tableName, columnName) in old(db.columns) ==> r == Ok(old(db.columns[(tableName, columnName)]))
    ensures r.Ok? ==> (tableName, columnName) in db.columns && db.columns[(tableName, columnName)] == r.value
    ensures r.Ok? ==> r.value.table.name == tableName && r.value.name == columnName
  {
    var table := db.FindTable(e, tableName);
    if table.Err? {
      return Err(table.error);
    }
    ghost var path;
    r, path := table.value.FindColumn(e, columnName);
  }
}
