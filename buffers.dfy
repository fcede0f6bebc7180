/** The caller-buffer protocol of the C getters and the bulks the vector setters
    build.  A caller passes a vector or text struct whose size is the capacity of
    its ptr; a getter copies the stored value only when all of it fits, and always
    writes the actual size back, so that a first call with capacity 0 reports the
    size to allocate. */
module Buffers {
  import opened Common
  import opened Ints
  import opened Engine
  import GrngoC

  /** A grngo_vector or grngo_text passed by pointer: ptr and the capacity size. */
  class Buffer<T> {
    var ptr: array<T>
    var size: nat

    constructor (ptr: array<T>, size: nat)
      ensures this.ptr == ptr && this.size == size
    {
      this.ptr := ptr;
      this.size := size;
    }

    /** ptr really holds size elements. */
    predicate Valid()
      reads this
    {
      size <= ptr.Length
    }
  }

  /** A grngo_text element of a text-vector buffer: a struct held by value in the
      outer array, whose body ptr is written in place. */
  datatype TextSlot = TextSlot(ptr: array<uint8>, size: nat)

  /** The contents of a buffer of capacity cap after a getter offers it the stored
      value s: s followed by the untouched rest when s fits, else all untouched. */
  function Fill<T>(cap: nat, buf: seq<T>, s: seq<T>): (r: seq<T>)
    requires cap <= |buf|
    ensures |r| == |buf|
    ensures |s| <= cap ==> r[..|s|] == s && r[|s|..] == buf[|s|..]
    ensures |s| > cap ==> r == buf
  {
    if |s| <= cap then s + buf[|s|..] else buf
  }

  /** memcpy of a whole sequence into the front of an array. */
  method CopyInto<T>(dst: array<T>, src: seq<T>)
    requires |src| <= dst.Length
    modifies dst
    ensures dst[..] == src + old(dst[|src|..])
  {
    for i := 0 to |src|
      invariant forall j :: 0 <= j < i ==> dst[j] == src[j]
      invariant forall j :: i <= j < dst.Length ==> dst[j] == old(dst[j])
    {
      dst[i] := src[i];
    }
    assert dst[..] == src + old(dst[|src|..]);
  }

  /** The getters that memcpy the stored bulk: grngo_column_get_text and the bool,
      float and geo-point vector getters of both C files, and grn_cgo's int64
      vector getter. */
  method GetVector<T>(stored: seq<T>, value: Buffer<T>)
    requires value.Valid()
    modifies value, value.ptr
    ensures value.ptr == old(value.ptr) && value.size == |stored|
    ensures value.ptr[..] == Fill(old(value.size), old(value.ptr[..]), stored)
  {
    if |stored| <= value.size {
      CopyInto(value.ptr, stored);
    }
    value.size := |stored|;
  }

  /** The values of the integer type t. */
  predicate InRange(t: TypeId, x: int)
    requires GrngoC.IsIntType(t)
  {
    GrngoC.IntTypeMin(t) <= x <= GrngoC.IntTypeMax(t)
  }

  /** A stored integer read into an int64_t: every type fits except UInt64, whose
      upper half wraps to negative. */
  function Widen(t: TypeId, x: int): (r: int64)
    requires GrngoC.IsIntType(t) && InRange(t, x)
    ensures t != UINT64 ==> r == x
    ensures t == UINT64 ==> r == x || r == x - 0x1_0000_0000_0000_0000
  {
    if t == UINT64 then WrapInto(x, MIN_INT64, 0x1_0000_0000_0000_0000) else x
  }

  /** An int64_t converted to the C integer type t (GRN_*_SET_AT, or a Go
      conversion C.int8_t(v) and the like): reduction modulo the width. */
  function Narrow(t: TypeId, x: int): (r: int)
    requires GrngoC.IsIntType(t)
    ensures InRange(t, r)
    ensures InRange(t, x) ==> r == x
  {
    WrapInto(x, GrngoC.IntTypeMin(t), GrngoC.IntTypeMax(t) - GrngoC.IntTypeMin(t) + 1)
  }

  /** Narrowing undoes widening: what is read back from a column is what is stored. */
  lemma NarrowWiden(t: TypeId, x: int)
    requires GrngoC.IsIntType(t) && InRange(t, x)
    ensures Narrow(t, Widen(t, x)) == x
  {
    if t == UINT64 && x > MAX_INT64 {
      var w := Widen(t, x);
      assert w == x - 0x1_0000_0000_0000_0000;
      assert Narrow(t, w) == (w as int) % 0x1_0000_0000_0000_0000;
    }
  }

  function WidenAll(t: TypeId, s: seq<int>): (r: seq<int64>)
    requires GrngoC.IsIntType(t) && forall i :: 0 <= i < |s| ==> InRange(t, s[i])
    ensures |r| == |s| && forall i :: 0 <= i < |s| ==> r[i] == Widen(t, s[i])
  {
    seq(|s|, i requires 0 <= i < |s| => Widen(t, s[i]))
  }

  function NarrowAll(t: TypeId, s: seq<int>): (r: seq<int>)
    requires GrngoC.IsIntType(t)
    ensures |r| == |s| && forall i :: 0 <= i < |s| ==> r[i] == Narrow(t, s[i])
  {
    seq(|s|, i requires 0 <= i < |s| => Narrow(t, s[i]))
  }

  lemma NarrowAllWidenAll(t: TypeId, s: seq<int>)
    requires GrngoC.IsIntType(t) && forall i :: 0 <= i < |s| ==> InRange(t, s[i])
    ensures NarrowAll(t, WidenAll(t, s)) == s
  {
    forall i | 0 <= i < |s|
      ensures NarrowAll(t, WidenAll(t, s))[i] == s[i]
    {
      NarrowWiden(t, s[i]);
    }
  }

  /** grngo_column_get_int_vector: the stored elements of type t, widened one by one
      into the caller's int64_t buffer.  The C switch has no default, so for any
      other type it finalises an uninitialised bulk; the model leaves the buffer and
      its size as they were there. */
  method GetIntVector(t: TypeId, stored: seq<int>, value: Buffer<int64>)
    requires value.Valid()
    requires GrngoC.IsIntType(t) ==> forall i :: 0 <= i < |stored| ==> InRange(t, stored[i])
    modifies value, value.ptr
    ensures value.ptr == old(value.ptr)
    ensures !GrngoC.IsIntType(t) ==> value.size == old(value.size) && value.ptr[..] == old(value.ptr[..])
    ensures GrngoC.IsIntType(t) ==>
      value.size == |stored| && value.ptr[..] == Fill(old(value.size), old(value.ptr[..]), WidenAll(t, stored))
  {
    if !GrngoC.IsIntType(t) {
      return;
    }
    if |stored| <= value.size {
      for i := 0 to |stored|
        invariant value.ptr == old(value.ptr) && value.size == old(value.size)
        invariant forall j :: 0 <= j < i ==> value.ptr[j] == Widen(t, stored[j])
        invariant forall j :: i <= j < value.ptr.Length ==> value.ptr[j] == old(value.ptr[j])
      {
        value.ptr[i] := Widen(t, stored[i]);
      }
      assert value.ptr[..] == Fill(old(value.size), old(value.ptr[..]), WidenAll(t, stored));
    }
    value.size := |stored|;
  }

  /** The bodies of a text-vector buffer: distinct, except that empty bodies may be
      shared (nothing is ever written into them). */
  ghost predicate BodiesDisjoint(slots: array<TextSlot>)
    reads slots
  {
    forall i, j :: 0 <= i < slots.Length && 0 <= j < slots.Length && i != j && slots[i].ptr == slots[j].ptr ==>
      slots[i].ptr.Length == 0
  }

  ghost function Bodies(slots: array<TextSlot>): set<array<uint8>>
    reads slots
  {
    set i | 0 <= i < slots.Length :: slots[i].ptr
  }

  /** The text-vector getter of both C files: when the vector fits, each element's
      size is written, and its body copied only when it fits that element's
      capacity; the vector's size is always written. */
  method GetTextVector(stored: seq<Bytes>, value: Buffer<TextSlot>)
    requires value.Valid() && BodiesDisjoint(value.ptr)
    requires forall i :: 0 <= i < value.size ==> value.ptr[i].size <= value.ptr[i].ptr.Length
    modifies value, value.ptr, Bodies(value.ptr)
    ensures value.ptr == old(value.ptr) && value.size == |stored|
    ensures |stored| > old(value.size) ==>
      forall i :: 0 <= i < value.ptr.Length ==> value.ptr[i] == old(value.ptr[i]) && value.ptr[i].ptr[..] == old(value.ptr[i].ptr[..])
    ensures |stored| <= old(value.size) ==>
      forall i :: 0 <= i < |stored| ==>
        && value.ptr[i] == old(value.ptr[i]).(size := |stored[i]|)
        && value.ptr[i].ptr[..] == Fill(old(value.ptr[i].size), old(value.ptr[i].ptr[..]), stored[i])
    ensures |stored| <= old(value.size) ==>
      forall i :: |stored| <= i < value.ptr.Length ==> value.ptr[i] == old(value.ptr[i]) && value.ptr[i].ptr[..] == old(value.ptr[i].ptr[..])
  {
    if |stored| <= value.size {
      for i := 0 to |stored|
        invariant value.ptr == old(value.ptr) && value.size == old(value.size)
        invariant forall j :: 0 <= j < value.ptr.Length ==> value.ptr[j].ptr == old(value.ptr[j].ptr)
        invariant forall j :: 0 <= j < i ==>
          && value.ptr[j] == old(value.ptr[j]).(size := |stored[j]|)
          && value.ptr[j].ptr[..] == Fill(old(value.ptr[j].size), old(value.ptr[j].ptr[..]), stored[j])
        invariant forall j :: i <= j < value.ptr.Length ==>
          value.ptr[j] == old(value.ptr[j]) && value.ptr[j].ptr[..] == old(value.ptr[j].ptr[..])
      {
        var slot := value.ptr[i];
        if |stored[i]| <= slot.size {
          CopyInto(slot.ptr, stored[i]);
        }
        value.ptr[i] := slot.(size := |stored[i]|);
      }
    }
    value.size := |stored|;
  }

  // ---- Vector setters: a bulk built element by element, then grn_obj_set_value ----

  /** The elements a caller's vector holds, read one by one. */
  method ReadBulk<T>(value: Buffer<T>) returns (bulk: seq<T>)
    requires value.Valid()
    ensures bulk == value.ptr[..value.size]
  {
    bulk := [];
    for i := 0 to value.size
      invariant bulk == value.ptr[..i]
    {
      bulk := bulk + [value.ptr[i]];
    }
  }

  /** The engine state and the boolean a setter reports for storing v. */
  function Store(e: Engine, column: ObjId, id: RowId, v: Value): (r: (Engine, bool))
    ensures r.1 <==> column in e.objs && IsDataColumn(e.objs[column].kind) && id != ID_NIL
    ensures r.1 ==> CellOf(r.0, column, id) == Some(v)
    ensures r.1 ==> r.0.objs == e.objs && forall c: ObjId, i: RowId :: (c, i) != (column, id) ==> CellOf(r.0, c, i) == CellOf(e, c, i)
    ensures !r.1 ==> r.0 == e
  {
    var (e', rc) := ObjSetValue(e, column, id, v);
    (e', rc == Success)
  }

  /** grngo_column_set_bool_vector. */
  method SetBoolVector(e: Engine, column: ObjId, id: RowId, value: Buffer<bool>) returns (e': Engine, ok: bool)
    requires value.Valid()
    ensures (e', ok) == Store(e, column, id, BoolVector(value.ptr[..value.size]))
  {
    var bulk := ReadBulk(value);
    var r := Store(e, column, id, BoolVector(bulk));
    e', ok := r.0, r.1;
  }

  /** grngo_column_set_int8_vector .. _set_time_vector, one per integer type t: each
      int64_t element is reduced to the width of t as it is appended. */
  method SetIntVector(e: Engine, column: ObjId, id: RowId, t: TypeId, value: Buffer<int64>) returns (e': Engine, ok: bool)
    requires GrngoC.IsIntType(t) && value.Valid()
    ensures (e', ok) == Store(e, column, id, IntVector(t, NarrowAll(t, value.ptr[..value.size])))
  {
    var bulk: seq<int> := [];
    for i := 0 to value.size
      invariant bulk == NarrowAll(t, value.ptr[..i])
    {
      bulk := bulk + [Narrow(t, value.ptr[i])];
    }
    var r := Store(e, column, id, IntVector(t, bulk));
    e', ok := r.0, r.1;
  }

  /** grngo_column_set_float_vector. */
  method SetFloatVector(e: Engine, column: ObjId, id: RowId, value: Buffer<Float64>) returns (e': Engine, ok: bool)
    requires value.Valid()
    ensures (e', ok) == Store(e, column, id, FloatVector(value.ptr[..value.size]))
  {
    var bulk := ReadBulk(value);
    var r := Store(e, column, id, FloatVector(bulk));
    e', ok := r.0, r.1;
  }

  /** grngo_column_set_geo_point_vector: a Tokyo bulk for TOKYO_GEO_POINT and a
      WGS84 bulk for any other data type. */
  method SetGeoPointVector(e: Engine, column: ObjId, dataType: TypeId, id: RowId, value: Buffer<GeoPoint>)
    returns (e': Engine, ok: bool)
    requires value.Valid()
    ensures var t := if dataType == TOKYO_GEO_POINT then TOKYO_GEO_POINT else WGS84_GEO_POINT;
            (e', ok) == Store(e, column, id, GeoPointVector(t, value.ptr[..value.size]))
  {
    var t := if dataType == TOKYO_GEO_POINT then TOKYO_GEO_POINT else WGS84_GEO_POINT;
    var bulk := ReadBulk(value);
    var r := Store(e, column, id, GeoPointVector(t, bulk));
    e', ok := r.0, r.1;
  }

  /** The texts a text-vector buffer holds: each slot's first size bytes. */
  function SlotTexts(slots: array<TextSlot>, n: nat): (r: seq<Bytes>)
    requires n <= slots.Length && forall i :: 0 <= i < n ==> slots[i].size <= slots[i].ptr.Length
    reads slots, Bodies(slots)
    ensures |r| == n && forall i :: 0 <= i < n ==> r[i] == slots[i].ptr[..slots[i].size]
  {
    seq(n, i requires 0 <= i < n && i < slots.Length && slots[i].size <= slots[i].ptr.Length
              reads slots, Bodies(slots) => slots[i].ptr[..slots[i].size])
  }

  /** grngo_column_set_text_vector: one element added per slot. */
  method SetTextVector(e: Engine, column: ObjId, id: RowId, value: Buffer<TextSlot>) returns (e': Engine, ok: bool)
    requires value.Valid()
    requires forall i :: 0 <= i < value.size ==> value.ptr[i].size <= value.ptr[i].ptr.Length
    ensures (e', ok) == Store(e, column, id, TextVector(SlotTexts(value.ptr, value.size)))
  {
    var texts := [];
    for i := 0 to value.size
      invariant texts == SlotTexts(value.ptr, i)
    {
      texts := texts + [value.ptr[i].ptr[..value.ptr[i].size]];
    }
    var r := Store(e, column, id, TextVector(texts));
    e', ok := r.0, r.1;
  }
}
