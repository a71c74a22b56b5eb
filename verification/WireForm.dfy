/** What lies on the wire, in numbers: the bytes of messages and frames are little-endian, whatever the
    host that wrote them. */
module WireForm {
  import opened Bytes
  import opened Messages
  import opened Codec
  import opened Framing

  /** The bytes of the scalars of each type, as MiniMessage lays them out. */
  lemma Widths()
    ensures UnitSize(B_INT8_TYPE) == 1 && UnitSize(B_INT16_TYPE) == 2 && UnitSize(B_INT32_TYPE) == 4 && UnitSize(B_INT64_TYPE) == 8
    ensures UnitSize(B_FLOAT_TYPE) == 4 && UnitSize(B_DOUBLE_TYPE) == 8 && UnitSize(B_BOOL_TYPE) == 1
    ensures UnitSize(B_POINT_TYPE) == 4 && ItemSize(B_POINT_TYPE) == 2 * 4 && UnitSize(B_RECT_TYPE) == 4 && ItemSize(B_RECT_TYPE) == 4 * 4
    ensures forall tc: U32 :: tc !in {B_POINT_TYPE, B_RECT_TYPE} ==> ItemSize(tc) == UnitSize(tc)
  {
  }

  /** Type codes are four characters, the first one the most significant. */
  function Code(s: string): U32
    requires |s| == 4 && forall i :: 0 <= i < 4 ==> s[i] as int < 256
  {
    s[0] as int * 0x100_0000 + s[1] as int * 0x1_0000 + s[2] as int * 0x100 + s[3] as int
  }

  lemma Codes()
    ensures B_ANY_TYPE == Code("ANYT") && B_BOOL_TYPE == Code("BOOL") && B_DOUBLE_TYPE == Code("DBLE") && B_FLOAT_TYPE == Code("FLOT")
    ensures B_INT64_TYPE == Code("LLNG") && B_INT32_TYPE == Code("LONG") && B_INT16_TYPE == Code("SHRT") && B_INT8_TYPE == Code("BYTE")
    ensures B_MESSAGE_TYPE == Code("MSGG") && B_POINTER_TYPE == Code("PNTR") && B_POINT_TYPE == Code("BPNT") && B_RECT_TYPE == Code("RECT")
    ensures PROTOCOL_VERSION == Code("PM00") && ENCODING_DEFAULT == Code("Enc0")
  {
  }

  /** The number four bytes hold, the least significant first. */
  lemma NumberOfFour(s: seq<Byte>)
    requires |s| == 4
    ensures var a: int, b: int, c: int, d: int := s[0], s[1], s[2], s[3];
      Number(s) == a + 0x100 * b + 0x1_0000 * c + 0x100_0000 * d
  {
    assert s[1..][1..] == s[2..] && s[2..][1..] == s[3..] && s[3..][1..] == [];
    var c: int, d: int := s[2], s[3];
    assert Number(s[3..]) == d && Number(s[2..]) == c + 256 * d;
  }

  lemma NumberOfWord(x: nat)
    requires x < WORD
    ensures Number(Le32(x)) == x
  {
    NumberOfFour(Le32(x));
    assert x / 256 / 256 == x / 65536;
    assert x / 65536 / 256 == x / 16777216;
  }

  /** And read as one. */
  lemma NumberRead(s: seq<Byte>)
    requires |s| == 4
    ensures FromLe32(s) == Number(s)
  {
    NumberOfFour(s);
  }

  /** A frame is refused for an empty body or a foreign encoding, and only then. */
  lemma HeaderSays(s: seq<Byte>)
    requires |s| >= 8
    ensures HeaderOk(s) <==> Number(s[..4]) != 0 && Number(s[4..8]) == Code("Enc0")
    ensures BodySize(s) == Number(s[..4])
  {
    NumberRead(s[..4]);
    NumberRead(s[4..8]);
  }

  /** The types whose items have a fixed size; buffers hold those of any other. */
  lemma FixedTypes(tc: U32)
    ensures !IsVariableSize(tc) <==>
      || tc == Code("BOOL") || tc == Code("DBLE") || tc == Code("FLOT") || tc == Code("LLNG") || tc == Code("LONG")
      || tc == Code("SHRT") || tc == Code("BYTE") || tc == Code("PNTR") || tc == Code("BPNT") || tc == Code("RECT")
  {
  }

  /** Pointers are not sent, and nothing else is left out. */
  lemma FieldsInTurn(big: bool, fs: seq<Field>)
    requires fs != []
    ensures fs[0].typeCode == Code("PNTR") ==>
      FlatFields(big, fs) == FlatFields(big, fs[1..]) && CountFlattenable(fs) == CountFlattenable(fs[1..])
    ensures fs[0].typeCode != Code("PNTR") ==>
      && FlatFields(big, fs) == FlatField(big, fs[0]) + FlatFields(big, fs[1..])
      && CountFlattenable(fs) == 1 + CountFlattenable(fs[1..])
  {
    hide FlatField;
  }

  /** The items of a field go out as the numbers its host holds, in little-endian order. */
  lemma ItemsOnWire(big: bool, f: Field)
    requires f.data.Fixed?
    ensures Numbers(false, FlatData(big, f), UnitSize(f.typeCode)) == Numbers(big, f.data.bytes, UnitSize(f.typeCode))
  {
    RehostKeepsNumbers(big, false, f.typeCode, f.data.bytes);
  }

  /** And come in as the numbers that were on the wire. */
  lemma ItemsFromWire(big: bool, tc: U32, b: seq<Byte>)
    ensures Numbers(big, WireOrder(big, tc, b), UnitSize(tc)) == Numbers(false, b, UnitSize(tc))
  {
    RehostKeepsNumbers(false, big, tc, b);
  }

  /** The first three words of an image: the version, the what code, how many fields follow. */
  lemma MessageHead(big: bool, m: Message)
    requires CountFlattenable(m.fields) < WORD
    ensures var s := FlatMessage(big, m);
      && |s| >= 12 && Number(s[..4]) == PROTOCOL_VERSION && Number(s[4..8]) == m.what
      && Number(s[8..12]) == CountFlattenable(m.fields) && s[12..] == FlatFields(big, m.fields)
  {
    hide Le32;
    var s := FlatMessage(big, m);
    assert s[..4] == Le32(PROTOCOL_VERSION) && s[4..8] == Le32(m.what) && s[8..12] == Le32(CountFlattenable(m.fields));
    NumberOfWord(PROTOCOL_VERSION);
    NumberOfWord(m.what);
    NumberOfWord(CountFlattenable(m.fields));
  }

  /** A field: how long its name is, the name, its type, how long its data are, the data. */
  lemma FieldHead(big: bool, f: Field)
    requires |f.name| < WORD && DataSize(f) < WORD
    ensures var s, n := FlatField(big, f), |f.name|;
      && |s| == 12 + n + DataSize(f) && Number(s[..4]) == n && s[4..4 + n] == f.name && Number(s[4 + n..8 + n]) == f.typeCode
      && Number(s[8 + n..12 + n]) == DataSize(f) && s[12 + n..] == FlatData(big, f)
  {
    hide Le32, FlatData, DataSize;
    var s, n := FlatField(big, f), |f.name|;
    FlatDataSize(big, f);
    assert s[..4] == Le32(n) && s[4..4 + n] == f.name && s[4 + n..8 + n] == Le32(f.typeCode) && s[8 + n..12 + n] == Le32(DataSize(f));
    NumberOfWord(n);
    NumberOfWord(f.typeCode);
    NumberOfWord(DataSize(f));
  }

  lemma FlatDataSize(big: bool, f: Field)
    ensures |FlatData(big, f)| == DataSize(f)
  {
    FlatFieldSize(big, f);
  }

  /** Buffers: how many there are, then of each how long it is and its bytes. */
  lemma BuffersHead(big: bool, f: Field)
    requires f.data.Buffers? && |f.data.bufs| < WORD
    ensures var s := FlatData(big, f); |s| >= 4 && Number(s[..4]) == |f.data.bufs| && s[4..] == FlatBuffers(f.data.bufs)
  {
    hide Le32;
    assert FlatData(big, f)[..4] == Le32(|f.data.bufs|);
    NumberOfWord(|f.data.bufs|);
  }

  lemma BufferHead(bufs: seq<Option<seq<Byte>>>)
    requires bufs != [] && (bufs[0].Some? ==> |bufs[0].value| < WORD)
    ensures var b := if bufs[0].Some? then bufs[0].value else [];
      var s, n := FlatBuffers(bufs), |b|;
      |s| >= 4 + n && Number(s[..4]) == n && s[4..4 + n] == b && s[4 + n..] == FlatBuffers(bufs[1..])
  {
    hide Le32;
    var s, n := FlatBuffers(bufs), |BufferBytes(bufs[0])|;
    assert s == Le32(n) + BufferBytes(bufs[0]) + FlatBuffers(bufs[1..]);
    assert s[..4] == Le32(n);
    NumberOfWord(n);
  }

  /** Sub-messages: of each how many bytes its image has, and the image. */
  lemma SubmessageHead(big: bool, ms: seq<Option<Message>>)
    requires ms != [] && SlotSize(ms[0]) < WORD
    ensures var s, n := FlatSubmessages(big, ms), SlotSize(ms[0]);
      var m := if ms[0].Some? then ms[0].value else EMPTY_MESSAGE;
      && |s| >= 4 + n && Number(s[..4]) == n && s[4..4 + n] == FlatMessage(big, m) && s[4 + n..] == FlatSubmessages(big, ms[1..])
  {
    hide Le32, MessageSize;
    var m := if ms[0].Some? then ms[0].value else EMPTY_MESSAGE;
    var s, n := FlatSubmessages(big, ms), SlotSize(ms[0]);
    EmptyImage(big);
    FlatMessageSize(big, m);
    hide Header, FlatMessage;
    SlotIs(big, ms[0]);
    assert s == Le32(n) + FlatMessage(big, m) + FlatSubmessages(big, ms[1..]);
    assert s[..4] == Le32(n);
    NumberOfWord(n);
  }

  lemma SlotIs(big: bool, slot: Option<Message>)
    ensures FlatSlot(big, slot) == Le32(SlotSize(slot)) + FlatMessage(big, if slot.Some? then slot.value else EMPTY_MESSAGE)
  {
    hide FlatMessage, Le32;
    EmptyImage(big);
  }

  lemma EmptyImage(big: bool)
    ensures MessageSize(EMPTY_MESSAGE) == 12 && FlatMessage(big, EMPTY_MESSAGE) == Header(0, 0)
  {
    assert FlatMessage(big, EMPTY_MESSAGE) == Header(0, CountFlattenable([])) + FlatFields(big, []);
  }

  /** A frame: how long the image is, the encoding, the image. */
  lemma FrameHead(big: bool, m: Message)
    requires MessageSize(m) < WORD
    ensures var s := Frame(big, m);
      && |s| == 8 + MessageSize(m) && Number(s[..4]) == MessageSize(m) && Number(s[4..8]) == ENCODING_DEFAULT && s[8..] == FlatMessage(big, m)
  {
    hide Le32, MessageSize, FlatMessage;
    var s := Frame(big, m);
    FlatMessageSize(big, m);
    assert s[..4] == Le32(MessageSize(m)) && s[4..8] == Le32(ENCODING_DEFAULT);
    NumberOfWord(MessageSize(m));
    NumberOfWord(ENCODING_DEFAULT);
  }

  /** A message with one 32-bit integer, byte for byte, from either host. */
  lemma OneInteger(big: bool)
    ensures var item: seq<Byte> := if big then [0, 0, 1, 2] else [2, 1, 0, 0];
      FlatMessage(big, Message(7, [Field([110, 0], B_INT32_TYPE, Fixed(item))]))
      == [48, 48, 77, 80] + [7, 0, 0, 0] + [1, 0, 0, 0] + ([2, 0, 0, 0] + [110, 0] + [71, 78, 79, 76] + [4, 0, 0, 0] + [2, 1, 0, 0])
  {
    var item: seq<Byte> := if big then [0, 0, 1, 2] else [2, 1, 0, 0];
    var f := Field([110, 0], B_INT32_TYPE, Fixed(item));
    assert [f][1..] == [];
    assert FlatFields(big, [f]) == FlatField(big, f) + [];
    assert item[..4] == item && item[4..] == [];
    assert SwapUnits([], 4) == [];
    assert Reversed([0, 0, 1, 2]) == [2, 1, 0, 0];
    assert FlatData(big, f) == [2, 1, 0, 0];
    assert Le32(PROTOCOL_VERSION) == [48, 48, 77, 80] && Le32(B_INT32_TYPE) == [71, 78, 79, 76];
    assert Le32(7) == [7, 0, 0, 0] && Le32(1) == [1, 0, 0, 0] && Le32(2) == [2, 0, 0, 0] && Le32(4) == [4, 0, 0, 0];
    assert FlatField(big, f) == [2, 0, 0, 0] + [110, 0] + [71, 78, 79, 76] + [4, 0, 0, 0] + [2, 1, 0, 0];
    assert CountFlattenable([f]) == 1;
  }

  // ---------------------------------------------------------------- fields read again

  /** A field of a name that is there already takes the place of the last one so named, and stands at the
      end. */
  lemma PutFieldIs(fs: seq<Field>, f: Field)
    ensures var r := PutField(fs, f);
      && r != [] && r[|r| - 1] == f
      && (if exists i :: 0 <= i < |fs| && CStr(fs[i].name) == CStr(f.name) then
            exists k: nat :: LastOf(fs, f, k) && r == fs[..k] + fs[k + 1..] + [f]
          else r == fs + [f])
  {
    hide CStr;
    LastIs(fs, CStr(f.name));
    var same := LastNamed(fs, CStr(f.name));
    if same.Some? {
      assert LastOf(fs, f, same.value);
    }
  }

  predicate LastOf(fs: seq<Field>, f: Field, k: nat) {
    k < |fs| && CStr(fs[k].name) == CStr(f.name) && forall i :: k < i < |fs| ==> CStr(fs[i].name) != CStr(f.name)
  }

  lemma {:induction false} LastIs(fs: seq<Field>, text: seq<Byte>)
    ensures var same := LastNamed(fs, text); same.Some? ==> forall i :: same.value < i < |fs| ==> CStr(fs[i].name) != text
    decreases |fs|
  {
    hide CStr;
    if fs != [] && CStr(fs[|fs| - 1].name) != text {
      LastIs(fs[..|fs| - 1], text);
      assert forall i :: 0 <= i < |fs| - 1 ==> fs[..|fs| - 1][i] == fs[i];
    }
  }
}
