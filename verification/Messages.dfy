/** The MUSCLE message as a value: a what code and an ordered list of named, typed fields. */
module Messages {
  import opened Bytes

  const B_ANY_TYPE: U32 := 1095653716
  const B_BOOL_TYPE: U32 := 1112493900
  const B_DOUBLE_TYPE: U32 := 1145195589
  const B_FLOAT_TYPE: U32 := 1179406164
  const B_INT64_TYPE: U32 := 1280069191
  const B_INT32_TYPE: U32 := 1280265799
  const B_INT16_TYPE: U32 := 1397248596
  const B_INT8_TYPE: U32 := 1113150533
  const B_MESSAGE_TYPE: U32 := 1297303367
  const B_POINTER_TYPE: U32 := 1347310674
  const B_POINT_TYPE: U32 := 1112559188
  const B_RECT_TYPE: U32 := 1380270932

  /** Fixed holds the items as they lie in host memory; a pointer-array field holds one slot per
      item, None where the C array holds NULL. */
  datatype FieldData =
    | Fixed(bytes: seq<Byte>)
    | Buffers(bufs: seq<Option<seq<Byte>>>)
    | Submessages(msgs: seq<Option<Message>>)

  /** name includes its terminating NUL, as nameBytes counts it. */
  datatype Field = Field(name: seq<Byte>, typeCode: U32, data: FieldData)

  datatype Message = Message(what: U32, fields: seq<Field>)

  predicate IsVariableSize(tc: U32) {
    tc !in {B_BOOL_TYPE, B_DOUBLE_TYPE, B_FLOAT_TYPE, B_INT64_TYPE, B_INT32_TYPE, B_INT16_TYPE,
            B_INT8_TYPE, B_POINTER_TYPE, B_POINT_TYPE, B_RECT_TYPE}
  }

  /** Bytes of one scalar inside an item: the stretch SwapCopy reverses. */
  function UnitSize(tc: U32): (n: nat)
    ensures n in {1, 2, 4, 8}
  {
    if tc == B_DOUBLE_TYPE || tc == B_INT64_TYPE then 8
    else if tc == B_FLOAT_TYPE || tc == B_INT32_TYPE || tc == B_POINT_TYPE || tc == B_RECT_TYPE then 4
    else if tc == B_INT16_TYPE then 2
    else 1
  }

  /** Bytes of one item of a fixed-size type. Pointers never reach the wire; their width is
      immaterial and taken as one byte. */
  function ItemSize(tc: U32): (n: nat)
    ensures n > 0 && n % UnitSize(tc) == 0
  {
    if tc == B_POINT_TYPE then 8 else if tc == B_RECT_TYPE then 16 else UnitSize(tc)
  }

  predicate Flattenable(f: Field) {
    f.typeCode != B_POINTER_TYPE
  }

  /** The text of a C string held in these bytes: everything before the first NUL. */
  function CStr(s: seq<Byte>): (t: seq<Byte>)
    ensures 0 !in t && t <= s
  {
    if s == [] || s[0] == 0 then [] else [s[0]] + CStr(s[1..])
  }

  predicate ValidName(name: seq<Byte>) {
    |name| > 0 && name[|name| - 1] == 0 && 0 !in name[..|name| - 1]
  }

  lemma {:induction false} CStrOfPrefix(t: seq<Byte>, rest: seq<Byte>)
    requires 0 !in t
    ensures CStr(t + [0] + rest) == t
  {
    var s := t + [0] + rest;
    if t == [] {
    } else {
      assert s[1..] == t[1..] + [0] + rest;
      CStrOfPrefix(t[1..], rest);
    }
  }

  lemma CStrOfName(name: seq<Byte>)
    requires ValidName(name)
    ensures CStr(name) == name[..|name| - 1]
  {
    assert name == name[..|name| - 1] + [0] + [];
    CStrOfPrefix(name[..|name| - 1], []);
  }

  predicate UniqueNames(fs: seq<Field>) {
    forall i, j :: 0 <= i < j < |fs| ==> fs[i].name != fs[j].name
  }

  /** What the Put functions and Unflatten build: at least one item per field, the representation
      the type code calls for, C-string names, no two alike. */
  predicate WellFormed(m: Message)
    decreases m, 1
  {
    UniqueNames(m.fields) && forall i :: 0 <= i < |m.fields| ==> WellFormedField(m.fields[i])
  }

  predicate WellFormedField(f: Field)
    decreases f, 0
  {
    && ValidName(f.name)
    && (if f.typeCode == B_MESSAGE_TYPE then
          && f.data.Submessages? && |f.data.msgs| > 0
          && forall i :: 0 <= i < |f.data.msgs| && f.data.msgs[i].Some? ==> WellFormed(f.data.msgs[i].value)
        else if IsVariableSize(f.typeCode) then
          f.data.Buffers? && |f.data.bufs| > 0
        else
          f.data.Fixed? && |f.data.bytes| > 0 && |f.data.bytes| % ItemSize(f.typeCode) == 0)
  }

  /** numItems of the field. */
  function NumItems(f: Field): nat {
    match f.data
    case Fixed(b) => |b| / ItemSize(f.typeCode)
    case Buffers(b) => |b|
    case Submessages(ms) => |ms|
  }

  const EMPTY_MESSAGE := Message(0, [])
}
