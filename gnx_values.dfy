/** gnx.go: the value encodings of the older gnx API, their Null sentinels, and the
    TypeID enumeration with its names. */
module GnxValues {
  import opened Common
  import opened Ints
  import Strings

  /** A Bool is a byte: True and False, and a third value for "no value". */
  type Bool = uint8
  const True: Bool := 3
  const False: Bool := 0

  function NullBool(): (b: Bool)
    ensures b != True && b != False
  {
    1
  }

  type Int = int64

  /** The smallest Int stands for "no value". */
  function NullInt(): (r: Int)
    ensures r == MIN_INT64
  {
    MIN_INT64
  }

  datatype GeoPoint = GeoPoint(latitude: int32, longitude: int32)

  /** The point whose two coordinates are both the smallest int32. */
  function NullGeoPoint(): (p: GeoPoint)
    ensures forall q: GeoPoint :: p.latitude <= q.latitude && p.longitude <= q.longitude
  {
    GeoPoint(MIN_INT32, MIN_INT32)
  }

  /** A Text is a Go byte slice, nil (None) or not. */
  type Text = Option<Bytes>

  function Len(t: Text): nat {
    if t.None? then 0 else |t.value|
  }

  /** The nil slice: of length 0 like an empty text, yet distinct from every non-nil text. */
  function NullText(): (t: Text)
    ensures Len(t) == 0
    ensures forall bytes: Bytes :: t != Some(bytes)
  {
    None
  }

  /** TypeID, numbered consecutively from VoidID (iota). */
  type TypeID = int
  const VoidID: TypeID := 0
  const BoolID: TypeID := 1
  const IntID: TypeID := 2
  const FloatID: TypeID := 3
  const GeoPointID: TypeID := 4
  const TextID: TypeID := 5

  /** The names of the six ids. */
  function TypeIDName(id: TypeID): Option<string> {
    if id == VoidID then Some("Void")
    else if id == BoolID then Some("Bool")
    else if id == IntID then Some("Int")
    else if id == FloatID then Some("Float")
    else if id == GeoPointID then Some("GeoPoint")
    else if id == TextID then Some("Text")
    else None
  }

  /** TypeID.String: one of the six names, which hold no '(', or TypeID(n). */
  function TypeIDString(id: TypeID): (s: string)
    ensures VoidID <= id <= TextID <==> TypeIDName(id).Some?
    ensures VoidID <= id <= TextID ==> |s| > 0 && '(' !in s
    ensures !(VoidID <= id <= TextID) ==> s == Strings.Sprintf("TypeID", id) && s[6] == '('
  {
    match TypeIDName(id)
    case Some(name) => name
    case None => Strings.Sprintf("TypeID", id)
  }

  /** Each TypeID has its own name: String is injective on all ints. */
  lemma TypeIDStringInjective(a: TypeID, b: TypeID)
    requires TypeIDString(a) == TypeIDString(b)
    ensures a == b
  {
    if TypeIDName(a).None? && TypeIDName(b).None? {
      Strings.SprintfInjective("TypeID", a, b);
    }
  }
}
