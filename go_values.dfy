/** The dynamically typed values the two Go APIs pass as interface{}: the keys of
    InsertRow and the cell values of SetValue and GetValue.  Other(typeName) is any
    Go value of a type their type switches do not list. */
module GoValues {
  import opened Common
  import opened Ints
  import GnxValues

  /** grngo's GeoPoint. */
  datatype GeoPoint = GeoPoint(latitude: int32, longitude: int32)

  /** A value of the grngo API: nil, bool, int64, float64, GeoPoint, []byte and the
      slices of each.  A nil []byte is not told apart from an empty one. */
  datatype GrngoValue =
    | Nil
    | Bool(b: bool)
    | Int(i: int64)
    | Float(f: Float64)
    | Point(p: GeoPoint)
    | Text(t: Bytes)
    | BoolVector(bs: seq<bool>)
    | IntVector(ints: seq<int64>)
    | FloatVector(fs: seq<Float64>)
    | PointVector(ps: seq<GeoPoint>)
    | TextVector(ts: seq<Bytes>)
    | Other(typeName: string)

  /** A value of the gnx API, in gnx's own types: Bool is a byte and a Text may be nil. */
  datatype GnxValue =
    | Nil
    | Bool(b: GnxValues.Bool)
    | Int(i: GnxValues.Int)
    | Float(f: Float64)
    | Point(p: GnxValues.GeoPoint)
    | Text(t: GnxValues.Text)
    | BoolVector(bs: seq<GnxValues.Bool>)
    | IntVector(ints: seq<GnxValues.Int>)
    | FloatVector(fs: seq<Float64>)
    | PointVector(ps: seq<GnxValues.GeoPoint>)
    | TextVector(ts: seq<GnxValues.Text>)
    | Other(typeName: string)
}
