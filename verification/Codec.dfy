/** MMFlattenMessage and MMUnflattenMessage as functions on byte sequences, and their round trip. */
module Codec {
  import opened Bytes
  import opened Messages

  const PROTOCOL_VERSION: U32 := 1347235888

  // ---------------------------------------------------------------- byte order of the items

  function Reversed(s: seq<Byte>): (r: seq<Byte>)
    ensures |r| == |s|
  {
    seq(|s|, i requires 0 <= i < |s| => s[|s| - 1 - i])
  }

  /** Every k-byte unit reversed in place; what SwapCopy produces. */
  function SwapUnits(s: seq<Byte>, k: nat): (r: seq<Byte>)
    requires k > 0
    ensures |r| == |s|
  {
    if |s| < k then s else Reversed(s[..k]) + SwapUnits(s[k..], k)
  }

  lemma {:induction false} SwapUnitsTwice(s: seq<Byte>, k: nat)
    requires k > 0
    ensures SwapUnits(SwapUnits(s, k), k) == s
  {
    if |s| >= k {
      var t := SwapUnits(s, k);
      assert t[..k] == Reversed(s[..k]) && t[k..] == SwapUnits(s[k..], k);
      assert Reversed(t[..k]) == s[..k];
      SwapUnitsTwice(s[k..], k);
      assert s == s[..k] + s[k..];
    }
  }

  lemma {:induction false} SwapUnitsOfOne(s: seq<Byte>)
    ensures SwapUnits(s, 1) == s
  {
    if |s| >= 1 {
      SwapUnitsOfOne(s[1..]);
      assert Reversed(s[..1]) == s[..1];
      assert s == s[..1] + s[1..];
    }
  }

  /** Little-endian wire bytes of items that lie in the memory of a host. */
  function WireOrder(big: bool, tc: U32, b: seq<Byte>): (r: seq<Byte>)
    ensures |r| == |b|
  {
    if big then SwapUnits(b, UnitSize(tc)) else b
  }

  /** Items as the host `to` holds them after the host `from` held them. */
  function Rehost(from: bool, to: bool, tc: U32, b: seq<Byte>): (r: seq<Byte>)
    ensures |r| == |b|
  {
    if from == to then b else SwapUnits(b, UnitSize(tc))
  }

  lemma WireOrderThere(from: bool, to: bool, tc: U32, b: seq<Byte>)
    ensures WireOrder(to, tc, WireOrder(from, tc, b)) == Rehost(from, to, tc, b)
  {
    SwapUnitsTwice(b, UnitSize(tc));
  }

  /** The unsigned number a little-endian host reads in these bytes. */
  function Number(s: seq<Byte>): nat {
    if s == [] then 0 else s[0] + 256 * Number(s[1..])
  }

  /** The numbers a host reads in its memory, one per k-byte unit. */
  function Numbers(big: bool, s: seq<Byte>, k: nat): seq<nat>
    requires k > 0
  {
    if |s| < k then []
    else [Number(if big then Reversed(s[..k]) else s[..k])] + Numbers(big, s[k..], k)
  }

  /** Changing host changes the bytes but no number. */
  lemma {:induction false} RehostKeepsNumbers(from: bool, to: bool, tc: U32, b: seq<Byte>)
    ensures Numbers(to, Rehost(from, to, tc, b), UnitSize(tc)) == Numbers(from, b, UnitSize(tc))
    decreases |b|
  {
    var k := UnitSize(tc);
    if from != to && |b| >= k {
      var r := SwapUnits(b, k);
      RehostKeepsNumbers(from, to, tc, b[k..]);
      assert r[..k] == Reversed(b[..k]) && r[k..] == SwapUnits(b[k..], k);
      assert Reversed(Reversed(b[..k])) == b[..k];
    }
  }

  // ---------------------------------------------------------------- sizes

  /** MMGetFlattenedSize. */
  function MessageSize(m: Message): nat
    decreases m, 2
  {
    12 + FieldsSize(m.fields)
  }

  function FieldsSize(fs: seq<Field>): nat
    decreases fs, 1
  {
    if fs == [] then 0
    else (if Flattenable(fs[0]) then FieldSize(fs[0]) else 0) + FieldsSize(fs[1..])
  }

  /** GetMMessageFieldFlattenedSize with its headers. */
  function FieldSize(f: Field): nat
    decreases f, 1
  {
    12 + |f.name| + DataSize(f)
  }

  function DataSize(f: Field): nat
    decreases f, 0
  {
    match f.data
    case Fixed(b) => |b|
    case Buffers(bufs) => 4 + BuffersSize(bufs)
    case Submessages(ms) => SubmessagesSize(ms)
  }

  function BuffersSize(bufs: seq<Option<seq<Byte>>>): nat {
    if bufs == [] then 0
    else 4 + |BufferBytes(bufs[0])| + BuffersSize(bufs[1..])
  }

  function SubmessagesSize(ms: seq<Option<Message>>): nat
    decreases ms, 0
  {
    if ms == [] then 0
    else 4 + SlotSize(ms[0]) + SubmessagesSize(ms[1..])
  }

  function SlotSize(slot: Option<Message>): nat
    decreases slot, 0
  {
    if slot.Some? then MessageSize(slot.value) else 12
  }

  /** A NULL buffer is written as an empty one. */
  function BufferBytes(b: Option<seq<Byte>>): seq<Byte> {
    if b.Some? then b.value else []
  }

  // ---------------------------------------------------------------- flattening

  function CountFlattenable(fs: seq<Field>): nat {
    if fs == [] then 0 else (if Flattenable(fs[0]) then 1 else 0) + CountFlattenable(fs[1..])
  }

  function Header(what: nat, n: nat): (s: seq<Byte>)
    ensures |s| == 12
  {
    Le32(PROTOCOL_VERSION) + Le32(what) + Le32(n)
  }

  function FlatMessage(big: bool, m: Message): seq<Byte>
    decreases m, 2
  {
    Header(m.what, CountFlattenable(m.fields)) + FlatFields(big, m.fields)
  }

  function FlatFields(big: bool, fs: seq<Field>): seq<Byte>
    decreases fs, 1
  {
    if fs == [] then []
    else (if Flattenable(fs[0]) then FlatField(big, fs[0]) else []) + FlatFields(big, fs[1..])
  }

  /** The entry header: name length, name, type code, data length. */
  function EntryHeader(name: seq<Byte>, tc: U32, size: nat): seq<Byte> {
    Le32(|name|) + name + Le32(tc) + Le32(size)
  }

  function FlatField(big: bool, f: Field): seq<Byte>
    decreases f, 1
  {
    EntryHeader(f.name, f.typeCode, DataSize(f)) + FlatData(big, f)
  }

  function FlatData(big: bool, f: Field): seq<Byte>
    decreases f, 0
  {
    match f.data
    case Fixed(b) => WireOrder(big, f.typeCode, b)
    case Buffers(bufs) => Le32(|bufs|) + FlatBuffers(bufs)
    case Submessages(ms) => FlatSubmessages(big, ms)
  }

  function FlatBuffers(bufs: seq<Option<seq<Byte>>>): seq<Byte> {
    if bufs == [] then []
    else Le32(|BufferBytes(bufs[0])|) + BufferBytes(bufs[0]) + FlatBuffers(bufs[1..])
  }

  function FlatSubmessages(big: bool, ms: seq<Option<Message>>): seq<Byte>
    decreases ms, 0
  {
    if ms == [] then []
    else FlatSlot(big, ms[0]) + FlatSubmessages(big, ms[1..])
  }

  /** One sub-message behind its byte count; NULL is written as an empty message. */
  function FlatSlot(big: bool, slot: Option<Message>): seq<Byte>
    decreases slot, 0
  {
    Le32(SlotSize(slot)) + (if slot.Some? then FlatMessage(big, slot.value) else Header(0, 0))
  }

  // ---------------------------------------------------------------- flattening fills the size

  lemma {:induction false} FlatMessageSize(big: bool, m: Message)
    ensures |FlatMessage(big, m)| == MessageSize(m)
    decreases m, 2
  {
    FlatFieldsSize(big, m.fields);
  }

  lemma {:induction false} FlatFieldsSize(big: bool, fs: seq<Field>)
    ensures |FlatFields(big, fs)| == FieldsSize(fs)
    decreases fs, 1
  {
    if fs != [] {
      FlatFieldSize(big, fs[0]);
      FlatFieldsSize(big, fs[1..]);
    }
  }

  lemma {:induction false} FlatFieldSize(big: bool, f: Field)
    ensures |FlatData(big, f)| == DataSize(f)
    ensures |FlatField(big, f)| == FieldSize(f)
    decreases f, 1
  {
    match f.data
    case Fixed(b) =>
    case Buffers(bufs) => FlatBuffersSize(bufs);
    case Submessages(ms) => FlatSubmessagesSize(big, ms);
  }

  lemma {:induction false} FlatBuffersSize(bufs: seq<Option<seq<Byte>>>)
    ensures |FlatBuffers(bufs)| == BuffersSize(bufs)
  {
    if bufs != [] {
      FlatBuffersSize(bufs[1..]);
    }
  }

  lemma {:induction false} FlatSubmessagesSize(big: bool, ms: seq<Option<Message>>)
    ensures |FlatSubmessages(big, ms)| == SubmessagesSize(ms)
    decreases ms, 0
  {
    if ms != [] {
      FlatSlotSize(big, ms[0]);
      FlatSubmessagesSize(big, ms[1..]);
    }
  }

  lemma {:induction false} FlatSlotSize(big: bool, slot: Option<Message>)
    ensures |FlatSlot(big, slot)| == 4 + SlotSize(slot)
    decreases slot, 0
  {
    if slot.Some? {
      FlatMessageSize(big, slot.value);
    }
  }

  // ---------------------------------------------------------------- unflattening

  /** Bad is B_ERROR. Stray stands for input on which the code reads outside its buffer; no image
      of a message leads there. */
  datatype Parsed<+T> = Parsed(value: T) | Bad | Stray {
    predicate IsFailure() { !Parsed? }
    function PropagateFailure<U>(): Parsed<U>
      requires IsFailure()
    {
      if Bad? then Bad else Stray
    }
    function Extract(): T
      requires !IsFailure()
    {
      value
    }
  }

  function Expect<T>(o: Option<T>): Parsed<T> {
    if o.Some? then Parsed(o.value) else Bad
  }

  /** LookupMMessageField by name alone: from the tail, comparing as C strings. */
  function LastNamed(fs: seq<Field>, text: seq<Byte>): (r: Option<nat>)
    ensures r.Some? ==> r.value < |fs| && CStr(fs[r.value].name) == text
    ensures r.None? ==> forall i :: 0 <= i < |fs| ==> CStr(fs[i].name) != text
  {
    if fs == [] then None
    else if CStr(fs[|fs| - 1].name) == text then Some(|fs| - 1)
    else LastNamed(fs[..|fs| - 1], text)
  }

  /** Append a field after dropping the one that bears its name, as the Put functions do. */
  function PutField(fs: seq<Field>, f: Field): seq<Field> {
    var same := LastNamed(fs, CStr(f.name));
    (if same.Some? then fs[..same.value] + fs[same.value + 1..] else fs) + [f]
  }

  function Unflatten(big: bool, buf: seq<Byte>): Parsed<Message>
    decreases |buf|, 3, 0
  {
    var version :- Expect(ReadWord(buf, 0));
    if version != PROTOCOL_VERSION then Bad
    else
      var what :- Expect(ReadWord(buf, 4));
      var n :- Expect(ReadWord(buf, 8));
      var fs :- ReadEntries(big, buf, 12, n, []);
      Parsed(Message(what, fs))
  }

  /** The entry loop with n entries to go and fs already in the message. */
  function ReadEntries(big: bool, buf: seq<Byte>, off: nat, n: nat, fs: seq<Field>): Parsed<seq<Field>>
    decreases |buf|, 2, n
  {
    if n == 0 then Parsed(fs)
    else
      var nameLength :- Expect(ReadWord(buf, off));
      if off + 4 + nameLength > |buf| then Bad
      else
        var tcOff := off + 4 + nameLength;
        var tc :- Expect(ReadWord(buf, tcOff));
        var size :- Expect(ReadWord(buf, tcOff + 4));
        if tcOff + 8 + size > |buf| then Bad
        else
          var fs' :- ReadEntry(big, buf, off + 4, nameLength, tc, tcOff + 8, size, fs);
          ReadEntries(big, buf, tcOff + 8 + size, n - 1, fs')
  }

  /** The switch on the type code, with the field name at nameOff and its data at off. */
  function ReadEntry(big: bool, buf: seq<Byte>, nameOff: nat, nameLength: nat, tc: U32, off: nat, size: nat,
                     fs: seq<Field>): Parsed<seq<Field>>
    requires nameOff + nameLength <= off && off + size <= |buf| && off >= 12
    decreases |buf|, 1, 0
  {
    var text := CStr(buf[nameOff..]);
    var terminated := nameOff + |text| < |buf|;
    if tc == B_MESSAGE_TYPE then
      var ms :- ReadSubmessages(big, buf, off, 0, size, []);
      if !terminated then Stray
      else if ms == [] then Bad
      else Parsed(PutField(fs, Field(text + [0], tc, Submessages(ms))))
    else if IsVariableSize(tc) then
      var n :- Expect(ReadWord(buf, off));
      if !terminated then Stray
      else if n == 0 then Bad
      else
        var bufs :- ReadBuffers(buf, off + 4, n, size, []);
        Parsed(PutField(fs, Field(text + [0], tc, Buffers(bufs))))
    else if nameLength == 0 then Stray
    else
      var wireType := if tc == B_POINTER_TYPE then B_INT32_TYPE else tc;
      var used := size / ItemSize(wireType) * ItemSize(wireType);
      if used == 0 then Bad
      else
        var name := buf[nameOff..nameOff + nameLength - 1] + [0];
        Parsed(fs + [Field(name, wireType, Fixed(WireOrder(big, wireType, buf[off..off + used])))])
  }

  /** Sub-messages until `used` bytes reach `size`; each recursion works on a strictly shorter buffer. */
  function ReadSubmessages(big: bool, buf: seq<Byte>, off: nat, used: nat, size: nat,
                           ms: seq<Option<Message>>): Parsed<seq<Option<Message>>>
    requires off >= 12
    decreases |buf|, 0, size - used
  {
    if used >= size then Parsed(ms)
    else
      var len :- Expect(ReadWord(buf, off));
      if off + 4 + len > |buf| then Bad
      else
        var m :- Unflatten(big, buf[off + 4..off + 4 + len]);
        ReadSubmessages(big, buf, off + 4 + len, used + 4 + len, size, ms + [Some(m)])
  }

  function ReadBuffers(buf: seq<Byte>, off: nat, n: nat, left: nat,
                       bufs: seq<Option<seq<Byte>>>): Parsed<seq<Option<seq<Byte>>>>
    decreases n
  {
    if n == 0 then Parsed(bufs)
    else
      var len :- Expect(ReadWord(buf, off));
      if len + 4 > left then Bad
      else if off + 4 + len > |buf| then Stray
      else ReadBuffers(buf, off + 4 + len, n - 1, left - 4 - len, bufs + [Some(buf[off + 4..off + 4 + len])])
  }

  // ---------------------------------------------------------------- normal form

  /** What survives the wire from one host to another: pointer fields dropped, NULL slots made
      empty, at every depth; order kept. */
  function Normal(from: bool, to: bool, m: Message): Message
    decreases m, 2
  {
    Message(m.what, NormalFields(from, to, m.fields))
  }

  function NormalFields(from: bool, to: bool, fs: seq<Field>): seq<Field>
    decreases fs, 1
  {
    if fs == [] then []
    else (if Flattenable(fs[0]) then [NormalField(from, to, fs[0])] else []) + NormalFields(from, to, fs[1..])
  }

  function NormalField(from: bool, to: bool, f: Field): Field
    decreases f, 1
  {
    Field(f.name, f.typeCode,
          match f.data
          case Fixed(b) => Fixed(Rehost(from, to, f.typeCode, b))
          case Buffers(bufs) => Buffers(NormalBuffers(bufs))
          case Submessages(ms) => Submessages(NormalSubmessages(from, to, ms)))
  }

  function NormalBuffers(bufs: seq<Option<seq<Byte>>>): seq<Option<seq<Byte>>> {
    if bufs == [] then [] else [Some(BufferBytes(bufs[0]))] + NormalBuffers(bufs[1..])
  }

  function NormalSubmessages(from: bool, to: bool, ms: seq<Option<Message>>): seq<Option<Message>>
    decreases ms, 0
  {
    if ms == [] then []
    else [Some(NormalSlot(from, to, ms[0]))] + NormalSubmessages(from, to, ms[1..])
  }

  function NormalSlot(from: bool, to: bool, slot: Option<Message>): Message
    decreases slot, 0
  {
    if slot.Some? then Normal(from, to, slot.value) else EMPTY_MESSAGE
  }
}
