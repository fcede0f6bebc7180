# grngo in Dafny

This project models grngo, the Go binding of the Groonga full-text search
engine, together with gnx, the older binding that ships beside it. Both are
thin layers over Groonga's C library:

- `grngo.c` and `grn_cgo.c` are the C helpers that cgo calls. They look tables
  up, read key and value types, insert rows and move values in and out of
  caller buffers.
- `grngo.go` and `grn.go` are the Go APIs. They keep the init/fin counter, build
  `table_create` and `column_create` commands, cache table and column handles,
  resolve dotted column paths, and run type switches for InsertRow, SetValue
  and GetValue.
- `gnx.go` holds gnx's value encodings, its Null sentinels and its TypeID.

Groonga is modelled as an abstract `Engine` value. It holds objects with a kind,
name, domain and range; the name registry; the columns of each table; each
table's key-to-row map; the cells of each data column; and the context's return
code. The C helpers are functions over that value. Where the C code fills
caller buffers, it becomes a method over a `Buffers.Buffer` class holding an
`array`. The Go handles are classes (`Handles.DB`, `Handles.Table`,
`Handles.Column`) whose lookups fill caches. Commands that go to Groonga are
built as strings: every command is proved to parse back to the name and
options it was built from. Groonga's reply is a parameter.

Modules: `Common`/`Ints` (Option, Result, integer ranges), `Strings` (the parts
of Go's strings and fmt that are used), `Engine`, `GrngoC` (grngo.c), `GrnCgo`
(grn_cgo.c), `Buffers` and `Scalars` (the value transfer functions of both C
files), `DataTypes` and `GnxValues` (the type enums of the Go APIs), `GoValues`
(Go dynamic values), `Lifecycle`, `Commands` (SendEx), `Handles`
(FindTable/FindColumn), `Schema` (CreateTable/CreateColumn), `Rows`
(InsertRow), `Cells` (grngo SetValue/GetValue) and `GnxCells` (gnx
SetValue/GetValue/GetValues).

Where the code and its comments disagree, the model follows the code:

- The CreateColumn comment (grngo.go:554-556) says the part after the first dot
  is the index source. The code (grngo.go:802-805) keeps the dot in the
  source. `Schema.IndexSourceKeepsDot` states what the code sends.
- grngo.go calls a C API that has no definition in grngo.c: insertion
  functions per integer type (`grngo_table_insert_int8` and the like) that
  return `grngo_row_info`, and `grngo_find_table` and the info functions with
  the `grn_cgo` signatures. The handle and row layers therefore use the
  semantics of grn_cgo.c, which has exactly those shapes. grngo.c is modelled
  on its own in `GrngoC`, and lemmas relate the two versions.

Where the code is evidently wrong (the rows under "## Findings"), the code as
written is stated by lemmas of its own, and the rest of the model uses the
corrected behaviour: `Commands.SendEx` uses the corrected name check, the
CreateColumn members build and send the corrected compression flags, and
`GnxCells.GetBools` answers an empty id list.

## Model

| member | source | states |
|---|---|---|
| Engine.CtxGet | grngo.c:13 | grn_ctx_get yields only objects that exist; with consistent names, the object found carries the name asked for |
| Engine.CtxAt | grngo.c:68 | grn_ctx_at finds an id exactly when an object has it, and returns that object |
| Engine.ObjColumn | grngo.go:858 | grn_obj_column succeeds exactly when the table has a live column of that name |
| Engine.TableAdd | grngo.c:161 | grn_table_add: a nil id changes nothing and inserts nothing; an insertion assigns the next row id; an existing key of a keyed table returns its row without inserting |
| Engine.TableAddTwice | grngo.c:154-173 | adding a key twice to a keyed table gives the same row, and the second add inserts nothing |
| Engine.ObjSetValue | grngo.c:272 | grn_obj_set_value succeeds exactly for a non-nil row of a data column; then that cell holds the value and every other cell is unchanged; a failure changes nothing |
| Engine.LittleEndianRoundTrip | grngo.c:185-244 | the n-byte little-endian image of a number below 256^n reads back as that number |
| Engine.EncodeInt | grngo.c:185-244 | the key bytes of a C integer of n bytes are n bytes long |
| Engine.EncodeIntSigned | grngo.c:185-244 | a key in the signed range of n bytes reads back as itself when decoded as signed |
| Engine.EncodeIntUnsigned | grngo.c:185-244 | a key in the unsigned range of n bytes reads back as itself when decoded as unsigned |
| Engine.EncodeIntRoundTrip | grngo.c:185-244 | either signedness: the signed or unsigned n-byte key decodes back to the integer |
| Engine.EncodeBool | grngo.c:180-183 | a grn_bool key is one byte, which is 1 exactly for true |
| Engine.EncodeFloat | grngo.c:246-252 | a double key is its eight bytes |
| Engine.EncodeGeoPoint | grngo.c:262-265 | a point key is eight bytes, latitude then longitude, each decoding back to its coordinate |
| GrngoC.FailureRc | grngo.c:14-19 | the code reported when the engine yields nothing is never SUCCESS: ctx->rc if set, else UNKNOWN_ERROR |
| GrngoC.FindTable | grngo.c:8-26 | NULL name gives INVALID_ARGUMENT; success exactly when the name resolves to a table, returning that object; missing name gives the failure rc, a non-table INVALID_FORMAT |
| GrngoC.ResolveType | grngo.c:55-99 | a builtin id is its own data type; a table id gives VOID with that reference; anything else fails with the failure rc — each case in both directions |
| GrngoC.TableGetKeyInfo | grngo.c:55-77 | a non-table is INVALID_ARGUMENT; errors are never SUCCESS; a reported reference is a table, the table's own domain, with type VOID |
| GrngoC.TableGetKeyInfoCases | grngo.c:55-77 | the no-key table reports VOID; a builtin domain is reported as the key type (iff); a table domain is a VOID reference exactly when it resolves |
| GrngoC.TableGetValueInfo | grngo.c:79-99 | a non-table is INVALID_ARGUMENT; otherwise the table's range is resolved as a type |
| GrngoC.ColumnGetValueInfo | grngo.c:107-142 | NULL or a non-data column is INVALID_ARGUMENT; success reports a vector exactly for a vector column, with the range resolved |
| GrngoC.InsertionError | grngo.c:145-151 | an error result carries its rc, inserted false and the nil id |
| GrngoC.InsertRow | grngo.c:154-173 | a non-table, or NULL key with non-zero size, is INVALID_ARGUMENT and changes nothing; otherwise the result is grn_table_add's with SUCCESS exactly when a row id comes back, and a failure leaves the engine unchanged |
| GrngoC.InsertVoid | grngo.c:175-178 | the void key is the empty key and yields a valid result |
| GrngoC.InsertBool | grngo.c:180-183 | inserts the one-byte grn_bool key |
| GrngoC.IntTypeSize | grngo.c:185-244 | sizeof of each C integer type is 1..8 and holds its whole range; unsigned types start at 0 |
| GrngoC.InsertInt | grngo.c:185-244 | a non-integer type is UNKNOWN_ERROR; a key outside the range of its type is INVALID_ARGUMENT without change; a key in range is inserted as the bytes of that C type |
| GrngoC.InsertIntAccepts | grngo.c:185-244 | the accepted ranges spelled out per type: the signed limits for Int8/16/32/64 and Time, 0..max for the unsigned types |
| GrngoC.InsertText | grngo.c:254-260 | a NULL struct, or NULL body with non-zero size, is INVALID_ARGUMENT; otherwise the body's first size bytes are the key |
| GrngoC.InsertGeoPoint | grngo.c:262-265 | a NULL point is INVALID_ARGUMENT; otherwise its eight bytes are the key |
| GrngoC.InsertRowIdempotent | grngo.c:154-173 | inserting the same key twice: the second call reports the same row, not inserted, and changes nothing |
| GrnCgo.FindTable | grn_cgo.c:7-24 | the named object exactly when it is a table |
| GrnCgo.TableGetName | grn_cgo.c:135-163 | a name comes back exactly for a named table; it is the table's name and resolves back to the table |
| GrnCgo.KeyInfoFrom | grn_cgo.c:34-66 | the walk along key references reports dimension 0, a builtin type on success, and as reference the first table it passed through |
| GrnCgo.TableGetKeyInfo | grn_cgo.c:34-66 | the imperative loop that reassigns table along the domain chain computes exactly the recursive walk KeyInfo |
| GrnCgo.KeyInfoFromRefIrrelevant | grn_cgo.c:34-66 | success and the data type of the walk do not depend on the reference already recorded |
| GrnCgo.KeyInfoFollowsReference | grn_cgo.c:44-47 | a table keyed by another table has that table's key type and success, and reports it as the reference |
| GrnCgo.KeyInfoEnds | grn_cgo.c:34-66 | the walk stops at once on NULL, a builtin key, a no-key table, a non-table or a dangling domain, with the stated results |
| GrnCgo.RangeInfo | grn_cgo.c:68-97 | a builtin range is its own type; a table range is reported as a reference with that table's key type |
| GrnCgo.TableGetValueInfo | grn_cgo.c:68-97 | a non-table fails with the initial info; a table reports its range, dimension 0 |
| GrnCgo.ColumnGetValueInfo | grn_cgo.c:99-133 | only a data column succeeds; a vector column counts one dimension; the range is resolved as for tables |
| GrnCgo.KeyInfoVersions | grngo.c:55-77 | where grngo.c stops at a builtin key both versions agree; at a reference grn_cgo.c reports the same reference table but follows it for the type |
| GrnCgo.TableInsertRow | grn_cgo.c:166-173 | exactly grn_table_add, its int flag read as a boolean; a nil id inserts nothing |
| GrnCgo.InsertRowVersions | grn_cgo.c:166-173 | on a table, grngo.c's checked insertion and grn_cgo.c's unchecked one give the same engine and the same row, SUCCESS exactly when an id comes back |
| GrnCgo.GrnId | grn.go:1177 | an int64 id narrowed to grn_id is below 2^32 and is unchanged when it fits |
| GrnCgo.GetBoolInto | grn_cgo.c:471-483 | grn_obj_get_value appends one bool exactly when the row holds a Bool |
| GrnCgo.BoolOf | grn_cgo.c:471-483 | the bulk value read for a row is true exactly when the row holds true |
| GrnCgo.ColumnGetBools | grn_cgo.c:471-483 | values[i] is the bool of row ids[i] for every i < n, true exactly when that row holds true; the rest of values is untouched |
| Buffers.Buffer.constructor | grngo.h:17-25 | a buffer pairs a pointer with the capacity given |
| Buffers.Fill | grngo.c:680-692 | a buffer offered a value: the value at the front when it fits, the rest untouched; an unfitting value leaves it as it was |
| Buffers.CopyInto | grngo.c:688 | memcpy: the array starts with the source and keeps the rest |
| Buffers.GetVector | grngo.c:704-717 | the getter reports the stored size and copies the stored elements only when they fit the capacity |
| Buffers.Widen | grngo.c:719-853 | a stored integer read into int64_t is unchanged, except that a UInt64 above INT64_MAX wraps by 2^64 |
| Buffers.Narrow | grngo.c:420-544 | an int64_t converted to the C type lies in its range and is unchanged when already there |
| Buffers.NarrowWiden | grngo.c:719-853 | narrowing undoes widening: a stored integer read and written back is itself |
| Buffers.WidenAll | grngo.c:719-853 | element by element widening |
| Buffers.NarrowAll | grngo.c:420-544 | element by element narrowing |
| Buffers.NarrowAllWidenAll | grngo.c:719-853 | narrowing a whole widened vector gives back the stored vector |
| Buffers.GetIntVector | grngo.c:719-853 | for an integer type the size is the stored count and the widened elements are written when they fit |
| Buffers.GetTextVector | grngo.c:870-894 | the count is reported; when it fits, every slot is sized to its text and gets the text only if its body holds it; other slots are untouched; nothing is written when it does not fit |
| Buffers.ReadBulk | grngo.c:406-418 | the elements a caller's vector holds are its first size elements |
| Buffers.Store | grngo.c:272-274 | a setter reports true exactly when the row is settable, then the cell holds the value and nothing else changes; false changes nothing |
| Buffers.SetBoolVector | grngo.c:406-418 | stores the Bool vector of the caller's first size elements |
| Buffers.SetIntVector | grngo.c:420-544 | stores the caller's elements narrowed to the column's integer type |
| Buffers.SetFloatVector | grngo.c:546-558 | stores the caller's doubles |
| Buffers.SetGeoPointVector | grngo.c:576-594 | stores a Tokyo vector for TOKYO_GEO_POINT and a WGS84 vector otherwise |
| Buffers.SlotTexts | grngo.c:560-574 | the texts of a text-vector buffer are each slot's first size bytes |
| Buffers.SetTextVector | grngo.c:560-574 | stores one text per slot |
| Scalars.StoredInt | grngo.c:606-668 | the integer a row holds as the type read, in range; 0 when the row holds none of that type |
| Scalars.StoredFloat | grngo.c:670-678 | the double a row holds, 0 when none |
| Scalars.StoredGeoPoint | grngo.c:694-702 | the point a row holds whatever its datum, (0,0) when none |
| Scalars.StoredText | grngo.c:680-692 | the text a row holds, empty when none |
| Scalars.StoredBools | grngo.c:704-717 | the Bool vector a row holds, empty when none |
| Scalars.StoredInts | grngo.c:719-853 | the integer vector a row holds, every element in range; empty when none |
| Scalars.StoredFloats | grngo.c:855-868 | the Float vector a row holds, empty when none |
| Scalars.StoredGeoPoints | grngo.c:896-909 | the point vector a row holds, empty when none |
| Scalars.StoredTexts | grngo.c:870-894 | the text vector a row holds, empty when none |
| Scalars.SetBool | grngo.c:267-275 | writes the Bool (success exactly on a settable row), and the row then reads back as that bool |
| Scalars.SetInt | grngo.c:277-365 | writes the integer of type t, and the row then reads back as it |
| Scalars.SetFloat | grngo.c:367-375 | writes the double, and the row reads back as it |
| Scalars.TextBytes | grngo.c:377-389 | a NULL struct or body is the empty text; otherwise the body's first size bytes |
| Scalars.SetText | grngo.c:377-389 | writes the text, and the row reads back as it |
| Scalars.GeoPointType | grngo.c:391-404 | the bulk is Tokyo exactly for a Tokyo column, WGS84 otherwise |
| Scalars.SetGeoPoint | grngo.c:391-404 | writes the point in the column's point type, and the row reads back as it |
| Scalars.GetInt | grngo.c:606-668 | for an integer type the value narrows back to what the row holds, and equals it except for UInt64 |
| Scalars.GetText | grngo.c:680-692 | the size becomes the stored size; the text is copied when it fits and the buffer left when not |
| Scalars.NarrowedRoundTrip | grngo.c:277-365 | an int64 written and read back is itself exactly when it is in the type's range or the type is UInt64 |
| Scalars.NarrowedAllRoundTrip | grngo.c:420-544 | an integer vector whose elements are in range, or of UInt64, reads back unchanged |
| DataTypes.DataTypeName | grngo.go:56-95 | exactly the seventeen builtin types other than DB and OBJECT have a name, non-empty and without '(' |
| DataTypes.ParseDataType | grngo.go:56-95 | a name denotes a builtin type other than DB and OBJECT |
| DataTypes.NameParses | grngo.go:56-95 | the name of every named type parses back to that type |
| DataTypes.ParsedNames | grngo.go:56-95 | every type name that parses is the name of the type it parses to |
| DataTypes.ParseDataTypeName | grngo.go:56-95 | names and types correspond one to one, both directions |
| DataTypes.DataTypeString | grngo.go:56-95 | a named type prints as a name that parses back to it; any other number prints as DataType(n) and parses to nothing |
| DataTypes.DataTypeStringInjective | grngo.go:56-95 | no two DataTypes print alike |
| GnxValues.NullBool | gnx.go:32 | the null Bool is neither True nor False |
| GnxValues.NullInt | gnx.go:33 | the null Int is the smallest int64 |
| GnxValues.NullGeoPoint | gnx.go:35 | the null point is below or equal to every point in both coordinates |
| GnxValues.NullText | gnx.go:36 | the nil Text has length 0 yet differs from every non-nil text |
| GnxValues.TypeIDString | gnx.go:60-87 | the six ids and only they have a name, which holds no '('; any other id prints as TypeID(n) |
| GnxValues.TypeIDStringInjective | gnx.go:60-87 | each TypeID prints differently, named or not |
| Lifecycle.GrngoCounter.constructor | grngo.go:162-166 | the counter starts enabled at 0 with Groonga not initialized |
| Lifecycle.GrngoCounter.Disable | grngo.go:172-174 | sets the disabled flag and nothing else |
| Lifecycle.GrngoCounter.Init | grngo.go:181-191 | grn_init is called exactly on the 0 to 1 step when not disabled; its failure leaves the count; otherwise the count increments; Groonga is initialized exactly while the count is positive |
| Lifecycle.GrngoCounter.Fin | grngo.go:198-211 | 0 is an error; grn_fin is called exactly on the 1 to 0 step when not disabled; its failure leaves the count; otherwise the count decrements |
| Lifecycle.GnxCounter.constructor | grn.go:20 | the counter starts at 0 with Groonga not initialized |
| Lifecycle.GnxCounter.Disable | grn.go:24-26 | the count becomes -1 |
| Lifecycle.GnxCounter.Init | grn.go:31-42 | disabled does nothing; grn_init on the 0 to 1 step, a failure keeping 0; otherwise the count increments |
| Lifecycle.GnxCounter.Fin | grn.go:47-60 | disabled does nothing; 0 is an error; grn_fin on the 1 to 0 step, a failure keeping 1; otherwise the count decrements |
| Commands.CheckName | grngo.go:331-338 | the intended check: accepts a name exactly when it is non-empty and made of '_' and lower-case letters |
| Commands.CheckNameAsWritten | grngo.go:331-338 | the check as written accepts exactly the non-empty names |
| Commands.AsWrittenAcceptsSpace | grngo.go:335 | as written, "a b" passes though it is not a valid name, and the command built from it does not read back |
| Commands.EscapeIsEscapeEach | grngo.go:349-350 | the two Replace passes escape each backslash and quote exactly once |
| Commands.ReadQuoted | grngo.go:351 | reading a quoted argument consumes at least the closing quote |
| Commands.ReadEscaped | grngo.go:349-351 | an escaped value followed by the closing quote reads back as the value |
| Commands.OptionParts | grngo.go:339-352 | one "--key 'value'" part per option |
| Commands.JoinOptions | grngo.go:353 | strings.Join of the name and the parts is the name followed by each part after a space |
| Commands.ReadWord | grngo.go:353 | a word is the text up to the first space; word and rest make up the text |
| Commands.ReadWordBefore | grngo.go:353 | a space-free word before a space or the end is read as exactly that word |
| Commands.IndexOfBefore | grngo.go:353 | the first space after a space-free word is at the word's end |
| Commands.ParseOptionsText | grngo.go:339-352 | the option text of space-free keys parses back to the same options in order |
| Commands.CommandRoundTrip | grngo.go:339-353 | a command whose name and keys hold no space reads back as that name and options |
| Commands.ValidNameHasNoSpace | grngo.go:331-348 | a valid name holds no space |
| Commands.SendEx | grngo.go:330-354 | with the corrected name check: the command is built exactly when the name and every key are valid; the bad name or a bad key is reported; the command lists every option once and reads back as the name and the options |
| Commands.OptionPartsAppend | grngo.go:351 | appending an option appends its part |
| Handles.TableType | grn.go:330-348 | grngo keeps every builtin type; gnx maps exactly Void, Bool, Int64, Float, WGS84GeoPoint and ShortText to named TypeIDs |
| Handles.ColumnType | grn.go:674-689 | gnx maps exactly Bool, Int64, Float, WGS84GeoPoint, ShortText and LongText, never to Void |
| Handles.TypeCheck | grngo.go:488-511 | success needs a successful info call; a reference is never to Void and names the referenced table; the type is the binding's mapping of the data type; errors are lookup errors |
| Handles.GnxColumnNeverVoid | grn.go:692-695 | gnx never reports a column as a reference to Void |
| Handles.ReferenceRank | grngo.go:497-510 | a table's referenced table was created before it, so the recursive FindTable terminates |
| Handles.Columns | grngo.go:914-935 | the columns of a dotted path, one per part walked |
| Handles.PathStateAccepts | grngo.go:921-935 | a path is accepted exactly when every column before the last refers to a table and at most one is a vector; it is a vector path exactly when one is |
| Handles.FollowsHopByHop | grngo.go:921-928 | a walk follows the parts exactly when each column is found on the previous column's table under its part |
| Handles.DB.constructor | grngo.go:246-248 | a new DB has empty caches |
| Handles.DB.FindTable | grngo.go:475-538 | a cached handle is returned unchanged; an unknown name is TableNotFound; otherwise the key and value info are checked, referenced tables found first, and the new handle cached under its name holding those types and tables; a resolvable table (its checks pass and the tables it refers to are resolvable) is always found; caches only grow |
| Handles.DB.Resolve | grngo.go:488-511 | one half of FindTable: the key (or value) check, then the referenced table's handle; it succeeds when the check passes and the referenced table is resolvable |
| Handles.DB.FindReferenced | grngo.go:497-510 | no reference gives null; a reference gives the handle cached under its name, and succeeds when the referenced table is resolvable |
| Handles.DB.Add | grngo.go:536 | db.tables[name] = table and nothing else |
| Handles.DB.AddColumn | grngo.go:901 | table.columns[name] = column and nothing else |
| Handles.Table.constructor | grngo.go:613-624 | a new table handle holds exactly the fields given |
| Handles.Table.FindSimpleColumn | grngo.go:849-903 | a cached column is returned; otherwise grn_obj_column, _id/_key/_value read from the table, other columns from their value info, the referenced table found, and the handle cached; a found column whose check passes and whose referenced table is resolvable is returned |
| Handles.Table.NextHop | grngo.go:922-934 | one step of the walk: the column found on the previous column's table extends the path and keeps its acceptance state |
| Handles.Table.WalkPath | grngo.go:914-935 | the loop over the parts follows them and ends as the path's acceptance says: the last column, the vector flag and the first column's table |
| Handles.Table.FindPathColumn | grngo.go:914-947 | a dotted name on a cache miss: the walk, then a column under the whole name cached with the last column's type and the first column's table |
| Handles.Table.FindColumn | grngo.go:906-948 | cached names return the cached handle; names without a dot resolve as findColumn; a dotted name on a cache miss walks its parts: success takes the last column's value type, the first column's value table and the path's vector flag, and failure is a column that refers to no table before the last part, a second vector, a failed lookup or no column of the whole name; a new handle is cached under the name |
| Rows.EnginePoint | grngo.go:714 | C.int of each int32 coordinate loses nothing |
| Rows.GrngoKeyBytes | grngo.go:627-737 | key bytes exist exactly when the Go key fits the table's key type |
| Rows.GrngoInsertRow | grngo.go:740-758 | unsupported Go types and key type conflicts (iff) are reported without change; a fitting key gets the row grn_table_add returns exactly when its id is not nil, and InsertFailed with no change otherwise |
| Rows.GrngoInsertRowTwice | grngo.go:740-758 | inserting a key twice into a keyed table gives the same row, inserted only the first time |
| Rows.GrngoInsertIntInRange | grngo.go:655-692 | a key that fits the key type: grngo's insert succeeds exactly when grngo.c's checked insert does, with the same engine and row |
| Rows.GrngoInsertIntOutOfRange | grngo.c:185-244 | a key outside the key type's range: grngo.c refuses it with an invalid-argument code and changes nothing, while the Go path inserts the truncated key |
| Rows.GrngoInsertIntVersions | grngo.go:655-692 | an int64 that fits the key type inserts the same row as grngo.c's checked grngo_table_insert_int |
| Rows.GnxKeyType | grn.go:469-553 | each Go key type goes to exactly one named TypeID |
| Rows.GnxInsertRow | grn.go:555-574 | unsupported types and TypeID conflicts (iff) are reported without change; a fitting key gets the row grn_table_add returns exactly when its id is not nil, and InsertFailed with no change otherwise |
| Rows.GnxBoolKeys | grn.go:481-495 | every Bool other than True, the null Bool among them, is inserted as the key False |
| Rows.GnxInsertRowTwice | grn.go:555-574 | inserting a key twice gives the same row, inserted only the first time |
| Rows.GrngoDBInsertRow | grngo.go:541-547 | a failed table lookup changes nothing; otherwise the table's InsertRow |
| Rows.GnxDBInsertRow | grn.go:413-419 | a failed table lookup changes nothing; otherwise the table's InsertRow |
| Cells.EnginePoints | grngo.go:1161-1173 | each Go point becomes the engine point of the same coordinates |
| Cells.Done | grngo.go:975-988 | a setter's true is success with the new engine; false is SetFailed with the engine unchanged |
| Cells.Assign | grngo.go:975-1222 | unsupported Go types and type conflicts are reported without change; an accepted value is written as the setter builds it, failure being SetFailed |
| Cells.VectorOf | grngo.go:1089-1106 | a fresh buffer holding the Go slice |
| Cells.TextSlotsOf | grngo.go:1176-1194 | a fresh slot array whose texts are the Go slices |
| Cells.SetValue | grngo.go:1197-1222 | the imperative setters through the caller buffers compute exactly Assign |
| Cells.GoPoint | grngo.go:1262 | int32 of each coordinate is that coordinate when it fits |
| Cells.GoPoints | grngo.go:1348-1364 | element by element GoPoint |
| Cells.Read | grngo.go:1397-1430 | undefined value types (iff) are an error naming the type; otherwise the Go type matches the column's type and vector flag in both directions |
| Cells.Fetch | grngo.go:1285-1305 | two calls of a vector getter, first with capacity 0, return the stored elements |
| Cells.FetchInts | grngo.go:1308-1326 | the two int-vector calls return the stored integers widened |
| Cells.FetchText | grngo.go:1266-1282 | the two text calls return the stored text |
| Cells.ProbeSizes | grngo.go:1368-1381 | the first text-vector call, with no slots, reports the number of stored texts; the second, into that many empty slots, reports the size of each text |
| Cells.AllocateBodies | grngo.go:1382-1388 | every slot gets a fresh body of its size; bodies are disjoint |
| Cells.FillBodies | grngo.go:1389-1392 | the last call gives every slot its text |
| Cells.FetchTexts | grngo.go:1367-1394 | the three text-vector calls return the stored texts |
| Cells.GetValue | grngo.go:1397-1430 | the imperative getters through caller buffers compute exactly Read |
| Cells.AssignThenRead | grngo.go:1197-1430 | a successful SetValue of a value of the column's own shape followed by GetValue returns that value |
| Cells.AssignIntThenRead | grngo.go:991-1032 | a successful int64 write hits a scalar integer column; it reads back as the value narrowed and widened, equal to it exactly when in range or UInt64 |
| Cells.TableSetValue | grngo.go:761-767 | a failed column lookup changes nothing; otherwise SetValue on the column found |
| Cells.TableGetValue | grngo.go:770-776 | a failed column lookup is reported; otherwise GetValue on the column found |
| Cells.DBSetValue | grngo.go:581-587 | table lookup, then Table.SetValue |
| Cells.DBGetValue | grngo.go:590-596 | table lookup, then Table.GetValue |
| Cells.DBFindColumn | grngo.go:572-578 | table lookup, then FindColumn: a cached column is returned, a found one cached under (table, column) with those names |
| GnxCells.Body | grn.go:838-853 | a nil Text hands no bytes; another its bytes |
| GnxCells.Bodies | grn.go:917-936 | element by element Body |
| GnxCells.Truths | grn.go:855-873 | the grn_bool of a Bool is true exactly for True |
| GnxCells.EnginePoints | grn.go:903-915 | each gnx point becomes the engine point of the same coordinates |
| GnxCells.Assign | grn.go:783-965 | unsupported types and TypeID conflicts are reported without change; an accepted value is written as grn_cgo.c builds it, failure being SetFailed |
| GnxCells.SetValue | grn.go:938-965 | the imperative setters compute exactly Assign |
| GnxCells.GnxPoint | grn.go:1001-1009 | each coordinate is preserved when it fits int32 |
| GnxCells.GnxPoints | grn.go:1093-1110 | element by element GnxPoint |
| GnxCells.ToBool | grn.go:967-979 | a C truth value becomes True or False, True exactly for true |
| GnxCells.ToBools | grn.go:1030-1053 | element by element ToBool |
| GnxCells.ToTexts | grn.go:1112-1141 | an empty text element reads as nil, a non-empty one as its bytes |
| GnxCells.Read | grn.go:1143-1172 | undefined TypeIDs (iff) are an error naming the type; vector results exactly for vector columns; Bools are canonical; a Text is never nil; no text element is a non-nil empty slice |
| GnxCells.GetValue | grn.go:1143-1172 | the imperative getters compute exactly Read |
| GnxCells.NormalIdempotent | grn.go:967-1141 | normalising what GetValue returns changes nothing more |
| GnxCells.AssignThenRead | grn.go:938-1172 | a successful SetValue then GetValue returns the value normalised: non-True Bools as False, nil and empty texts as gnx reads them |
| GnxCells.BoolReadsBack | grn.go:783-797 | a written Bool reads back unchanged exactly when it is True or False |
| GnxCells.BoolsOf | grn.go:1174-1188 | the value for each id is True exactly when that row holds true |
| GnxCells.BoolsAsWritten | grn.go:1174-1188 | as written, getBools panics exactly on an empty id list, and otherwise gives BoolsOf |
| GnxCells.BoolsOfNoIds | grn.go:1177 | the empty id list panics as written though the evident answer is the empty list |
| GnxCells.GetBools | grn.go:1174-1188 | corrected getBools through arrays and grn_cgo_column_get_bools gives BoolsOf, and agrees with the code as written on every non-empty list |
| GnxCells.GetValues | grn.go:1190-1219 | supported exactly for scalar Bool columns, else an error naming the type; each value is what GetValue reads for its id |
| Schema.SplitSuffixes | grngo.go:429-431 | a flags string splits back on '|' into its first word and the words appended |
| Schema.SuffixesOne | grngo.go:430 | appending one word adds "|" and the word |
| Schema.TableTypeWord | grngo.go:413-428 | a word exactly for no key type or one of the four table types; TABLE_NO_KEY exactly when there is no key type or the type is NO_KEY |
| Schema.TableFlagsWords | grngo.go:413-431 | the flags name the table type first, then KEY_WITH_SIS exactly when asked |
| Schema.GrngoTypeNames | grngo.go:432-454 | each listed key, value and column type name is the DataType name of a builtin of that kind |
| Schema.TableArgs | grngo.go:411-463 | name and flags always; key_type, value_type and token_filters exactly when set, with the values given |
| Schema.TableArgsSendable | grngo.go:464 | every table_create option name passes SendEx's check |
| Schema.CheckTypeName | grngo.go:438-443 | a listed builtin passes; a cached or resolvable table name passes; any other name passes only if FindTable finds it |
| Schema.AddTypeOption | grngo.go:432-454 | an unset type adds nothing; a passing type is added; a builtin, cached or resolvable type always passes; a failing one is neither builtin nor a table |
| Schema.TableNameAndFlags | grngo.go:411-431 | the name and flags options |
| Schema.GrngoTableTypes | grngo.go:432-454 | the key_type and value_type options; both types known (unset, builtin, cached or resolvable) gives Ok; an invalid key or value type is reported as such and was not known |
| Schema.GrngoTableArgs | grngo.go:407-463 | nil options are the defaults; UndefinedTableType exactly for an undefined table type; a defined table type with known key and value types gives the options map with every type checked; an invalid type was not known |
| Schema.ParseValueType | grngo.go:799-808 | "[]" makes a vector of the rest; otherwise a dot makes an index whose source keeps the dot; otherwise a scalar |
| Schema.UnparseParseValueType | grngo.go:799-808 | parsing a valueType loses nothing: it is rebuilt from its parts |
| Schema.ParseUnparseValueType | grngo.go:799-808 | every well-formed spec is read back from its valueType |
| Schema.IndexSourceKeepsDot | grngo.go:802-805 | "Docs.title" is an index on Docs with source ".title" |
| Schema.ColumnTypeWord | grngo.go:801-807 | each column kind is one of column_create's column-type words |
| Schema.KnownColumnWords | grngo.go:820-837 | the flag words are the type, compression and WITH_ words, disjoint |
| Schema.UnknownColumnWords | grngo.go:823-825 | "", COMRESS_LZ4 and COMRESS_LZO are not column_create words |
| Schema.WithWordsNamed | grngo.go:829-837 | the WITH_ words name exactly the flags asked for |
| Schema.ColumnFlagsWords | grngo.go:799-837 | the intended flags string splits into the type word, the compression word and the WITH_ words asked for |
| Schema.GrngoCompression | grngo.go:820-828 | a compression word set exactly for NONE, ZLIB and LZ4 |
| Schema.SplitLeadingBar | grngo.go:823 | a flags string starting with '|' has an empty first word |
| Schema.GrngoCompressedFlagsValue | grngo.go:820-828 | as written, ZLIB and LZ4 set the flags to a single word behind '|' |
| Schema.GrngoZlibFlagsAsWritten | grngo.go:822-823 | as written, a ZLIB-compressed vector column loses COLUMN_VECTOR |
| Schema.GrngoLz4FlagsAsWritten | grngo.go:824-825 | as written, LZ4 sends the unknown word COMRESS_LZ4 and no column type |
| Schema.GrngoColumnFlags | grngo.go:799-837 | the corrected flags exist exactly for a defined compression |
| Schema.GrngoColumnFlagsWords | grngo.go:799-837 | the corrected flags tell column_create the column type and every bit grngo's Flags set |
| Schema.ColumnFlagsNamed | grngo.go:799-837 | the corrected flags string splits into the column-type word first, only column_create words, the compression word exactly when one was given, and each WITH_ word exactly when asked |
| Schema.ColumnArgs | grngo.go:796-819 | table, name, flags and type always, source exactly for an index |
| Schema.ColumnArgsSendable | grngo.go:838 | every column_create option name passes SendEx's check |
| Schema.AppendColumnWords | grngo.go:829-837 | the flags string built by appending the type word, then each optional word behind '\|', is the corrected flags |
| Schema.BuildGrngoColumnFlags | grngo.go:799-837 | the flags built word by word are the corrected flags |
| Schema.GrngoColumnArgs | grngo.go:792-837 | nil options are the defaults; an unsupported type was not known (builtin, cached or resolvable); a known type gives UndefinedCompressionType exactly for an undefined compression and otherwise the options map, carrying the corrected compression flags |
| Schema.GnxTableTypeWord | grn.go:240-251 | a word exactly for the four table types, TABLE_NO_KEY exactly for ArrayTable |
| Schema.GnxTypeAlias | grn.go:255-291 | an alias exactly for Bool, Int, Float and GeoPoint, and Text where a text type is given |
| Schema.GnxTypeArg | grn.go:255-291 | a non-empty name never becomes empty |
| Schema.GnxTypeAliasRoundTrip | grn.go:255-291 | an alias names a builtin that the gnx handles read back as the aliased TypeID |
| Schema.GnxTypeOption | grn.go:255-273 | an unset type adds nothing; an alias or a table name is added, and an alias, cached or resolvable name always passes; any other name is refused |
| Schema.GnxTableTypes | grn.go:255-291 | the key_type and value_type options; both types known (unset, alias, cached or resolvable) gives Ok; invalid types reported as such and not known |
| Schema.GnxTableArgs | grn.go:234-300 | nil options are the defaults; UndefinedTableType exactly for a table type outside 0..3; a defined table type with known key and value types gives the options map; an invalid type was not known |
| Schema.GnxColumnKind | grn.go:601-610 | a column kind exactly for ScalarColumn, VectorColumn and IndexColumn |
| Schema.GnxCompression | grn.go:611-619 | a compression word exactly for the three types: none, ZLIB, LZO |
| Schema.GnxLzoFlagsAsWritten | grn.go:615-616 | as written, LzoCompression sends COMRESS_LZO and no column type |
| Schema.GnxColumnFlags | grn.go:601-628 | the corrected flags exist exactly for a defined compression |
| Schema.GnxColumnFlagsWords | grn.go:601-628 | the corrected flags tell column_create every option gnx was given |
| Schema.BuildGnxColumnFlags | grn.go:601-628 | the flags built word by word are the corrected flags |
| Schema.GnxColumnTypeFound | grn.go:584-600 | an alias, cached or resolvable table name passes; any other name is refused |
| Schema.GnxColumnArgs | grn.go:576-631 | nil options are the defaults; an unsupported type was not known (alias, cached or resolvable); a known type is then checked for kind and compression, in that order, and otherwise gives the options map, carrying the corrected compression flags |
| Schema.QueryCreate | grngo.go:464-470 | success exactly when the command passes SendEx and the reply is "true"; the command sent reads back as the name and options |
| Schema.GrngoCreateTable | grngo.go:407-472 | UndefinedTableType exactly for an undefined table type; success means the reply was "true", the command sent lists the options, and the new table is found and cached; valid options and a "true" reply fail only in the lookup, and succeed when the new table is resolvable |
| Schema.GrngoCreateColumn | grngo.go:792-846 | success means the reply was "true", the type was found, the corrected flags were sent and the column is found and cached; a known type, a defined compression and a "true" reply fail only in the lookup |
| Schema.GnxCreateTable | grn.go:234-309 | the same for gnx's table_create, with the key and value types found on success |
| Schema.GnxCreateColumn | grn.go:576-640 | the same for gnx's column_create, sending the corrected compression flags; a known type, defined kind and compression and a "true" reply fail only in the lookup |
| Schema.GrngoDBCreateColumn | grngo.go:563-569 | an unknown table is a lookup error; success caches the column under (table, column) after a "true" reply to the command with the corrected compression flags |
| Schema.GnxDBCreateColumn | grn.go:422-430 | an unknown table is a lookup error; success caches the column under (table, column) after a "true" reply to the command with the corrected compression flags |

## Left out

- Send, Recv, Query and QueryEx perform I/O with Groonga's context. The model builds the command string and takes the reply of `table_create` and `column_create` as a parameter. The engine state after a create is also a parameter.
- CreateDB, OpenDB, Close, openGrnCtx and closeGrnCtx open files and contexts. Only the init/fin counter they rely on is modelled, in `Lifecycle`.
- Floating point is kept as an opaque 64-bit pattern. grngo.c's NaN check in `grngo_table_insert_float` (grngo.c:246-252) and gnx's `NullFloat` (a NaN) are not modelled.
- The Groonga library calls (`grn_ctx_get`, `grn_table_add`, `grn_obj_set_value`, `grn_obj_get_value` and the rest) are abstract functions of `Engine`. They are not Groonga's own implementation.
- Groonga's flag constants (`GRN_OBJ_TABLE_TYPE_MASK` and the others) take the values groonga.h gives them; groonga.h is not among the modelled files.
- grngo.go calls `grngo_table_insert_int8` and the rest, and reads `grngo_row_info`. None of these are defined in grngo.c. Their behaviour is taken from grn_cgo.c, as the module docs explain.
- Go maps are modelled as Dafny maps. The column cache of each table lives in `Handles.DB.columns`, keyed by (table name, column name), and not in the table handle. The caches themselves behave the same.
- Go's nil and empty slices are not distinguished in grngo's values. gnx's Text does distinguish them.
- Cells.Assign: Go's reflect panics on a nil interface value (`reflect.TypeOf(nil).Name()`). Here that case is the error UnsupportedValueType(""). The same holds for Rows.GrngoInsertRow and Rows.GnxInsertRow with the types InsertRow does not list.
- Cells and Scalars: a row that was never written reads as the zero value of the getter's bulk. Groonga's real defaults for unwritten cells are not modelled.
- Scalars.StoredInt: a row holding an integer of another type, or one out of the read type's range, reads as 0 in the model. What Groonga's grn_obj_get_value gives there is not modelled.
- Scalars.GetInt and Buffers.GetIntVector: for a type that is not an integer type, the C switch (grngo.c:606-666, 719-853) has no default and finalises an uninitialised bulk, which is undefined behaviour. The model leaves the output as it was there. grngo.go never reaches that case, because it dispatches on the type first.
- Commands.SendEx: follows the corrected name check. As written (grngo.go:335), SendEx accepts every non-empty name and key, including ones with spaces or capitals. That half is stated by Commands.CheckNameAsWritten and Commands.AsWrittenAcceptsSpace, not by SendEx.
- The cgo pointer plumbing is not modelled: `unsafe.Pointer`, `C.CString`, `C.free` and the nil pointer for an empty name.
- Scalar setters and getters in Cells.SetValue and Cells.GetValue take values, not caller buffers. In the C code those calls pass the value by value too. Only the vector and text getters use the buffer protocol.
- Float getters and setters are modelled only as storage of the opaque 64-bit pattern.
- The writable `grngo_column` handle and the multi-hop reader declared in grngo.h:29-98 have no implementation in grngo.c, so they are not modelled.
- Error messages are not modelled as text; each is an error constructor that carries the names (table, column, type) the message shows.

## Findings

| source | as written | input that shows it | evidently intended | confidence | as-written member | corrected member |
|---|---|---|---|---|---|---|
| grngo.go:335 | the test that a character is not '_', below 'a' and above 'z' can never hold, so SendEx accepts every non-empty name and option key (grn.go has the same check) | `SendEx("a b", {})` builds a command whose name does not read back | refuse a character that is not '_' and lies below 'a' or above 'z' | not executed | Commands.CheckNameAsWritten, Commands.AsWrittenAcceptsSpace | Commands.CheckName |
| grngo.go:820-828 | a compression flag replaces the whole flags string by one bar-prefixed word, dropping the column type, and LZ4 is misspelt COMRESS_LZ4 (gnx does the same for LZO at grn.go:611-619) | a vector column with CompressZlib sends the flags string made of a leading bar and COMPRESS_ZLIB, with no COLUMN_VECTOR | append the correctly spelt compression word after the column-type word | not executed | Schema.GrngoZlibFlagsAsWritten, Schema.GrngoLz4FlagsAsWritten, Schema.GnxLzoFlagsAsWritten | Schema.GrngoColumnFlags, Schema.GnxColumnFlags |
| grn.go:1174-1188 | getBools takes the address of ids[0], which panics for an empty slice | `GetValues([]Int{})` on a Bool column | an empty list of ids gives an empty list of values | not executed | GnxCells.BoolsAsWritten, GnxCells.BoolsOfNoIds | GnxCells.GetBools |
