/** Unflattening a flattened message gives its normal form, on any pair of hosts and whatever
    bytes follow the image. */
module RoundTrip {
  import opened Bytes
  import opened Messages
  import opened Codec

  /** acc's names are C strings, and name is none of them. */
  ghost predicate NewName(acc: seq<Field>, name: seq<Byte>) {
    forall i :: 0 <= i < |acc| ==> ValidName(acc[i].name) && acc[i].name != name
  }

  ghost predicate Apart(acc: seq<Field>, fs: seq<Field>) {
    forall j :: 0 <= j < |fs| ==> NewName(acc, fs[j].name)
  }

  lemma HeaderAt(s: seq<Byte>, what: U32, n: nat)
    requires At(s, 0, Header(what, n)) && n < WORD
    ensures ReadWord(s, 0) == Some(PROTOCOL_VERSION) && ReadWord(s, 4) == Some(what) && ReadWord(s, 8) == Some(n)
  {
    hide Le32, FromLe32;
    AtSplit(s, 0, Le32(PROTOCOL_VERSION) + Le32(what), Le32(n));
    AtSplit(s, 0, Le32(PROTOCOL_VERSION), Le32(what));
    ReadWordAt(s, 0, PROTOCOL_VERSION);
    ReadWordAt(s, 4, what);
    ReadWordAt(s, 8, n);
  }

  lemma {:induction false} CountBelowSize(fs: seq<Field>)
    ensures CountFlattenable(fs) <= FieldsSize(fs)
  {
    hide Le32, FromLe32;
    if fs != [] {
      CountBelowSize(fs[1..]);
    }
  }

  lemma {:induction false} UnflattenInverts(a: bool, b: bool, m: Message, s: seq<Byte>)
    requires WellFormed(m) && MessageSize(m) < WORD
    requires At(s, 0, FlatMessage(a, m))
    ensures Unflatten(b, s) == Parsed(Normal(a, b, m))
    decreases m, 2
  {
    hide Le32, FromLe32;
    CountBelowSize(m.fields);
    AtSplit(s, 0, Header(m.what, CountFlattenable(m.fields)), FlatFields(a, m.fields));
    HeaderAt(s, m.what, CountFlattenable(m.fields));
    EntriesInvert(a, b, s, 12, m.fields, []);
    assert [] + NormalFields(a, b, m.fields) == NormalFields(a, b, m.fields);
  }

  lemma ReadEntriesStep(b: bool, s: seq<Byte>, off: nat, n: nat, fs: seq<Field>, name: nat, tc: U32, size: nat,
                        fs': seq<Field>)
    requires n > 0 && ReadWord(s, off) == Some(name) && ReadWord(s, off + 4 + name) == Some(tc)
    requires ReadWord(s, off + 8 + name) == Some(size) && off + 12 + name + size <= |s|
    requires ReadEntry(b, s, off + 4, name, tc, off + 12 + name, size, fs) == Parsed(fs')
    ensures ReadEntries(b, s, off, n, fs) == ReadEntries(b, s, off + 12 + name + size, n - 1, fs')
  {
    hide Le32, FromLe32, ReadEntry;
  }

  lemma {:induction false} EntriesInvert(a: bool, b: bool, s: seq<Byte>, off: nat, fs: seq<Field>, acc: seq<Field>)
    requires At(s, off, FlatFields(a, fs)) && FieldsSize(fs) < WORD && off >= 12
    requires UniqueNames(fs) && Apart(acc, fs)
    requires forall i :: 0 <= i < |fs| ==> WellFormedField(fs[i])
    ensures ReadEntries(b, s, off, CountFlattenable(fs), acc) == Parsed(acc + NormalFields(a, b, fs))
    decreases fs, 1
  {
    hide Le32, FromLe32, FlatFields, NormalFields, FieldsSize, CountFlattenable, ReadEntries, ReadEntry, FlatField,
      NormalField, ReadWord, At, DataSize, WellFormedField, NewName, Apart;
    if fs == [] {
      NoEntries(a, b, s, off, acc);
    } else {
      FieldsUnfold(a, b, fs);
      var f := fs[0];
      assert forall i :: 0 <= i < |fs[1..]| ==> fs[1..][i] == fs[i + 1];
      if !Flattenable(f) {
        ApartTail(acc, fs);
        EntriesInvert(a, b, s, off, fs[1..], acc);
      } else {
        AtSplit(s, off, FlatField(a, f), FlatFields(a, fs[1..]));
        ApartHead(acc, fs);
        EntryInverts(a, b, s, off, f, acc);
        FlatFieldSize(a, f);
        var acc' := acc + [NormalField(a, b, f)];
        ApartStep(a, b, acc, fs);
        ReadEntriesStep(b, s, off, CountFlattenable(fs), acc, |f.name|, f.typeCode, DataSize(f), acc');
        EntriesInvert(a, b, s, off + FieldSize(f), fs[1..], acc');
        assert acc + NormalFields(a, b, fs) == acc' + NormalFields(a, b, fs[1..]);
      }
    }
  }

  lemma NoEntries(a: bool, b: bool, s: seq<Byte>, off: nat, acc: seq<Field>)
    ensures ReadEntries(b, s, off, CountFlattenable([]), acc) == Parsed(acc + NormalFields(a, b, []))
  {
    assert acc + NormalFields(a, b, []) == acc;
  }

  lemma FieldsUnfold(a: bool, b: bool, fs: seq<Field>)
    requires fs != []
    ensures Flattenable(fs[0]) ==>
      && FlatFields(a, fs) == FlatField(a, fs[0]) + FlatFields(a, fs[1..])
      && NormalFields(a, b, fs) == [NormalField(a, b, fs[0])] + NormalFields(a, b, fs[1..])
      && CountFlattenable(fs) == 1 + CountFlattenable(fs[1..])
      && FieldsSize(fs) == FieldSize(fs[0]) + FieldsSize(fs[1..])
    ensures !Flattenable(fs[0]) ==>
      && FlatFields(a, fs) == FlatFields(a, fs[1..])
      && NormalFields(a, b, fs) == NormalFields(a, b, fs[1..])
      && CountFlattenable(fs) == CountFlattenable(fs[1..])
      && FieldsSize(fs) == FieldsSize(fs[1..])
  {
    hide FlatField, NormalField, FieldSize;
    assert [] + FlatFields(a, fs[1..]) == FlatFields(a, fs[1..]);
    assert [] + NormalFields(a, b, fs[1..]) == NormalFields(a, b, fs[1..]);
  }

  lemma ApartHead(acc: seq<Field>, fs: seq<Field>)
    requires fs != [] && Apart(acc, fs)
    ensures NewName(acc, fs[0].name)
  {
  }

  lemma ApartTail(acc: seq<Field>, fs: seq<Field>)
    requires fs != [] && Apart(acc, fs)
    ensures Apart(acc, fs[1..])
  {
  }

  lemma ApartStep(a: bool, b: bool, acc: seq<Field>, fs: seq<Field>)
    requires fs != [] && UniqueNames(fs) && Apart(acc, fs) && WellFormedField(fs[0])
    ensures Apart(acc + [NormalField(a, b, fs[0])], fs[1..])
  {
    forall j | 0 <= j < |fs[1..]|
      ensures NewName(acc + [NormalField(a, b, fs[0])], fs[1..][j].name)
    {
      assert fs[1..][j] == fs[j + 1] && NewName(acc, fs[j + 1].name);
    }
  }

  lemma EntryHeaderAt(s: seq<Byte>, off: nat, name: seq<Byte>, tc: U32, size: nat)
    requires At(s, off, EntryHeader(name, tc, size)) && |name| < WORD && size < WORD
    ensures ReadWord(s, off) == Some(|name|) && At(s, off + 4, name)
    ensures ReadWord(s, off + 4 + |name|) == Some(tc) && ReadWord(s, off + 8 + |name|) == Some(size)
  {
    hide Le32, FromLe32;
    AtSplit(s, off, Le32(|name|) + name + Le32(tc), Le32(size));
    AtSplit(s, off, Le32(|name|) + name, Le32(tc));
    AtSplit(s, off, Le32(|name|), name);
    ReadWordAt(s, off, |name|);
    ReadWordAt(s, off + 4 + |name|, tc);
    ReadWordAt(s, off + 8 + |name|, size);
  }

  /** The name read as a C string out of the image is the field's own name. */
  lemma NameAt(s: seq<Byte>, off: nat, name: seq<Byte>)
    requires At(s, off, name) && ValidName(name)
    ensures CStr(s[off..]) == name[..|name| - 1] && off + |name| <= |s|
    ensures name[..|name| - 1] + [0] == name
  {
    hide Le32, FromLe32;
    assert s[off..] == name[..|name| - 1] + [0] + s[off + |name|..];
    CStrOfPrefix(name[..|name| - 1], s[off + |name|..]);
  }

  lemma NamesFromText(m: seq<Byte>, n: seq<Byte>)
    requires ValidName(m) && ValidName(n) && CStr(m) == CStr(n)
    ensures m == n
  {
    hide Le32, FromLe32;
    CStrOfName(m);
    CStrOfName(n);
    assert m == CStr(m) + [0] && n == CStr(n) + [0];
  }

  lemma PutFieldAppends(fs: seq<Field>, f: Field)
    requires ValidName(f.name) && NewName(fs, f.name)
    ensures PutField(fs, f) == fs + [f]
  {
    hide Le32, FromLe32;
    forall i | 0 <= i < |fs|
      ensures CStr(fs[i].name) != CStr(f.name)
    {
      if CStr(fs[i].name) == CStr(f.name) {
        NamesFromText(fs[i].name, f.name);
      }
    }
  }

  lemma {:induction false} EntryInverts(a: bool, b: bool, s: seq<Byte>, off: nat, f: Field, acc: seq<Field>)
    requires At(s, off, FlatField(a, f)) && FieldSize(f) < WORD && off >= 12
    requires WellFormedField(f) && Flattenable(f) && NewName(acc, f.name)
    ensures ReadWord(s, off) == Some(|f.name|)
    ensures ReadWord(s, off + 4 + |f.name|) == Some(f.typeCode)
    ensures ReadWord(s, off + 8 + |f.name|) == Some(DataSize(f))
    ensures off + FieldSize(f) <= |s|
    ensures ReadEntry(b, s, off + 4, |f.name|, f.typeCode, off + 12 + |f.name|, DataSize(f), acc)
         == Parsed(acc + [NormalField(a, b, f)])
    decreases f, 2
  {
    hide Le32, FromLe32, ReadEntry, FlatData, NormalField;
    AtSplit(s, off, EntryHeader(f.name, f.typeCode, DataSize(f)), FlatData(a, f));
    EntryHeaderAt(s, off, f.name, f.typeCode, DataSize(f));
    FlatFieldSize(a, f);
    if f.data.Fixed? {
      FixedInverts(a, b, s, off + 4, f, acc);
    } else if f.data.Buffers? {
      BufferFieldInverts(a, b, s, off + 4, f, acc);
    } else {
      SubmessageFieldInverts(a, b, s, off + 4, f, acc);
    }
  }

  lemma WholeItems(n: nat, k: nat)
    requires k > 0 && n % k == 0
    ensures n / k * k == n
  {
  }

  lemma FixedInverts(a: bool, b: bool, s: seq<Byte>, off: nat, f: Field, acc: seq<Field>)
    requires At(s, off, f.name) && At(s, off + |f.name| + 8, FlatData(a, f)) && off >= 12
    requires WellFormedField(f) && Flattenable(f) && f.data.Fixed?
    ensures ReadEntry(b, s, off, |f.name|, f.typeCode, off + |f.name| + 8, DataSize(f), acc)
         == Parsed(acc + [NormalField(a, b, f)])
  {
    hide Le32, FromLe32, CStr, ValidName, ItemSize, UnitSize, Unflatten, SwapUnits, NewName;
    var bytes := f.data.bytes;
    NameAt(s, off, f.name);
    WireOrderThere(a, b, f.typeCode, bytes);
    assert s[off..off + |f.name| - 1] == f.name[..|f.name| - 1];
    WholeItems(|bytes|, ItemSize(f.typeCode));
  }

  lemma BufferFieldInverts(a: bool, b: bool, s: seq<Byte>, off: nat, f: Field, acc: seq<Field>)
    requires At(s, off, f.name) && At(s, off + |f.name| + 8, FlatData(a, f)) && off >= 12
    requires WellFormedField(f) && f.data.Buffers? && NewName(acc, f.name) && DataSize(f) < WORD
    ensures off + |f.name| + 8 + DataSize(f) <= |s|
    ensures ReadEntry(b, s, off, |f.name|, f.typeCode, off + |f.name| + 8, DataSize(f), acc)
         == Parsed(acc + [NormalField(a, b, f)])
  {
    hide Le32, FromLe32, ReadBuffers, FlatBuffers, PutField, NewName, CStr, ValidName;
    var bufs := f.data.bufs;
    var d := off + |f.name| + 8;
    FlatFieldSize(a, f);
    NameAt(s, off, f.name);
    AtSplit(s, d, Le32(|bufs|), FlatBuffers(bufs));
    BuffersCount(bufs);
    ReadWordAt(s, d, |bufs|);
    BuffersInvert(s, d + 4, bufs, DataSize(f), []);
    assert [] + NormalBuffers(bufs) == NormalBuffers(bufs);
    PutFieldAppends(acc, NormalField(a, b, f));
  }

  lemma {:induction false} SubmessageFieldInverts(a: bool, b: bool, s: seq<Byte>, off: nat, f: Field, acc: seq<Field>)
    requires At(s, off, f.name) && At(s, off + |f.name| + 8, FlatData(a, f)) && off >= 12
    requires WellFormedField(f) && f.data.Submessages? && NewName(acc, f.name) && DataSize(f) < WORD
    ensures off + |f.name| + 8 + DataSize(f) <= |s|
    ensures ReadEntry(b, s, off, |f.name|, f.typeCode, off + |f.name| + 8, DataSize(f), acc)
         == Parsed(acc + [NormalField(a, b, f)])
    decreases f, 1
  {
    hide Le32, FromLe32, ReadSubmessages, FlatSubmessages, PutField, NewName, CStr, ValidName;
    var ms := f.data.msgs;
    FlatFieldSize(a, f);
    NameAt(s, off, f.name);
    SubmessagesInvert(a, b, s, off + |f.name| + 8, 0, DataSize(f), ms, []);
    assert [] + NormalSubmessages(a, b, ms) == NormalSubmessages(a, b, ms);
    PutFieldAppends(acc, NormalField(a, b, f));
  }

  lemma {:induction false} BuffersCount(bufs: seq<Option<seq<Byte>>>)
    ensures |bufs| <= BuffersSize(bufs)
  {
    hide Le32, FromLe32;
    if bufs != [] {
      BuffersCount(bufs[1..]);
    }
  }

  lemma ReadBuffersStep(s: seq<Byte>, off: nat, n: nat, left: nat, acc: seq<Option<seq<Byte>>>, len: nat)
    requires n > 0 && ReadWord(s, off) == Some(len) && len + 4 <= left && off + 4 + len <= |s|
    ensures ReadBuffers(s, off, n, left, acc)
         == ReadBuffers(s, off + 4 + len, n - 1, left - 4 - len, acc + [Some(s[off + 4..off + 4 + len])])
  {
  }

  lemma NoBuffers(s: seq<Byte>, off: nat, left: nat, acc: seq<Option<seq<Byte>>>)
    ensures ReadBuffers(s, off, 0, left, acc) == Parsed(acc + NormalBuffers([]))
  {
    assert acc + NormalBuffers([]) == acc;
  }

  lemma {:induction false} BuffersInvert(s: seq<Byte>, off: nat, bufs: seq<Option<seq<Byte>>>, left: nat,
                                         acc: seq<Option<seq<Byte>>>)
    requires At(s, off, FlatBuffers(bufs)) && BuffersSize(bufs) <= left < WORD
    ensures ReadBuffers(s, off, |bufs|, left, acc) == Parsed(acc + NormalBuffers(bufs))
    decreases |bufs|
  {
    hide *;
    if bufs == [] {
      NoBuffers(s, off, left, acc);
    } else {
      var bytes := BufferBytes(bufs[0]);
      BuffersUnfold(bufs);
      BufferAt(s, off, bytes, FlatBuffers(bufs[1..]));
      ReadBuffersStep(s, off, |bufs|, left, acc, |bytes|);
      BuffersInvert(s, off + 4 + |bytes|, bufs[1..], left - 4 - |bytes|, acc + [Some(bytes)]);
      assert acc + NormalBuffers(bufs) == acc + [Some(bytes)] + NormalBuffers(bufs[1..]);
    }
  }

  lemma BuffersUnfold(bufs: seq<Option<seq<Byte>>>)
    requires bufs != []
    ensures var bytes := BufferBytes(bufs[0]);
      && FlatBuffers(bufs) == Le32(|bytes|) + bytes + FlatBuffers(bufs[1..])
      && NormalBuffers(bufs) == [Some(bytes)] + NormalBuffers(bufs[1..])
      && BuffersSize(bufs) == 4 + |bytes| + BuffersSize(bufs[1..])
  {
  }

  lemma BufferAt(s: seq<Byte>, off: nat, bytes: seq<Byte>, rest: seq<Byte>)
    requires At(s, off, Le32(|bytes|) + bytes + rest) && |bytes| < WORD
    ensures ReadWord(s, off) == Some(|bytes|) && off + 4 + |bytes| <= |s|
    ensures s[off + 4..off + 4 + |bytes|] == bytes && At(s, off + 4 + |bytes|, rest)
  {
    hide Le32, FromLe32, ReadWord;
    AtSplit(s, off, Le32(|bytes|) + bytes, rest);
    AtSplit(s, off, Le32(|bytes|), bytes);
    ReadWordAt(s, off, |bytes|);
  }

  lemma ReadSubmessagesStep(b: bool, s: seq<Byte>, off: nat, used: nat, size: nat, acc: seq<Option<Message>>,
                            len: nat, m: Message)
    requires off >= 12 && used < size && ReadWord(s, off) == Some(len) && off + 4 + len <= |s|
    requires Unflatten(b, s[off + 4..off + 4 + len]) == Parsed(m)
    ensures ReadSubmessages(b, s, off, used, size, acc)
         == ReadSubmessages(b, s, off + 4 + len, used + 4 + len, size, acc + [Some(m)])
  {
    hide Le32, FromLe32;
  }

  lemma NoSubmessages(a: bool, b: bool, s: seq<Byte>, off: nat, size: nat, acc: seq<Option<Message>>)
    requires off >= 12
    ensures ReadSubmessages(b, s, off, size, size, acc) == Parsed(acc + NormalSubmessages(a, b, []))
  {
    assert acc + NormalSubmessages(a, b, []) == acc;
  }

  lemma {:induction false} SubmessagesInvert(a: bool, b: bool, s: seq<Byte>, off: nat, used: nat, size: nat,
                                             ms: seq<Option<Message>>, acc: seq<Option<Message>>)
    requires At(s, off, FlatSubmessages(a, ms)) && off >= 12
    requires used + SubmessagesSize(ms) == size < WORD
    requires forall i :: 0 <= i < |ms| && ms[i].Some? ==> WellFormed(ms[i].value)
    ensures ReadSubmessages(b, s, off, used, size, acc) == Parsed(acc + NormalSubmessages(a, b, ms))
    decreases ms, 0
  {
    hide Le32, FromLe32, ReadSubmessages, Unflatten, FlatSlot, WellFormed, At;
    if ms == [] {
      NoSubmessages(a, b, s, off, size, acc);
    } else {
      var len := SlotSize(ms[0]);
      FlatSlotSize(a, ms[0]);
      AtSplit(s, off, FlatSlot(a, ms[0]), FlatSubmessages(a, ms[1..]));
      SlotInverts(a, b, s, off, ms[0]);
      var acc' := acc + [Some(NormalSlot(a, b, ms[0]))];
      ReadSubmessagesStep(b, s, off, used, size, acc, len, NormalSlot(a, b, ms[0]));
      SubmessagesInvert(a, b, s, off + 4 + len, used + 4 + len, size, ms[1..], acc');
      assert acc + NormalSubmessages(a, b, ms) == acc' + NormalSubmessages(a, b, ms[1..]);
    }
  }

  lemma {:induction false} SlotInverts(a: bool, b: bool, s: seq<Byte>, off: nat, slot: Option<Message>)
    requires At(s, off, FlatSlot(a, slot)) && SlotSize(slot) < WORD
    requires slot.Some? ==> WellFormed(slot.value)
    ensures ReadWord(s, off) == Some(SlotSize(slot)) && off + 4 + SlotSize(slot) <= |s|
    ensures Unflatten(b, s[off + 4..off + 4 + SlotSize(slot)]) == Parsed(NormalSlot(a, b, slot))
    decreases slot, 0
  {
    hide Le32, FromLe32, Unflatten, FlatMessage, WellFormed;
    var len := SlotSize(slot);
    var image := if slot.Some? then FlatMessage(a, slot.value) else Header(0, 0);
    FlatSlotSize(a, slot);
    AtSplit(s, off, Le32(len), image);
    ReadWordAt(s, off, len);
    if slot.Some? {
      UnflattenInverts(a, b, slot.value, image);
    } else {
      UnflattenEmpty(b);
    }
  }

  lemma UnflattenEmpty(b: bool)
    ensures Unflatten(b, Header(0, 0)) == Parsed(EMPTY_MESSAGE)
  {
    HeaderAt(Header(0, 0), 0, 0);
  }

  /** The form callers use: the image may be followed by anything. */
  lemma UnflattenOfFlatten(a: bool, b: bool, m: Message, rest: seq<Byte>)
    requires WellFormed(m) && MessageSize(m) < WORD
    ensures |FlatMessage(a, m)| == MessageSize(m)
    ensures Unflatten(b, FlatMessage(a, m) + rest) == Parsed(Normal(a, b, m))
  {
    hide Le32, FromLe32;
    FlatMessageSize(a, m);
    UnflattenInverts(a, b, m, FlatMessage(a, m) + rest);
  }
}
