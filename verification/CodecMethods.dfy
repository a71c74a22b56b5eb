/** The codec as the C code runs it: bytes written at a moving offset of a buffer, and read at one. */
module CodecMethods {
  import opened Bytes
  import opened Messages
  import opened Codec

  // ---------------------------------------------------------------- SwapCopy

  /** Where the byte at x comes from when each k-byte unit is reversed. */
  function Mirror(x: nat, k: nat): int
    requires k > 0
  {
    x - x % k + (k - 1 - x % k)
  }

  lemma ModInUnit(i: nat, k: nat, x: nat)
    requires k > 0 && i % k == 0 && i <= x < i + k
    ensures x % k == x - i
  {
    assert x == k * (i / k) + (x - i);
    ModOfSum(i / k, k, x - i);
  }

  lemma ModOfSum(q: nat, k: nat, r: nat)
    requires r < k
    ensures (k * q + r) % k == r && (k * q + r) / k == q
  {
    var n := k * q + r;
    if n / k < q {
      MulStep(n / k, q, k);
    } else if n / k > q {
      MulStep(q, n / k, k);
    }
  }

  lemma {:induction false} MulStep(a: nat, b: nat, k: nat)
    requires a < b
    ensures k * a + k <= k * b
  {
    if b == a + 1 {
      assert k * b == k * a + k;
    } else {
      MulStep(a, b - 1, k);
      assert k * b == k * (b - 1) + k;
    }
  }

  lemma {:induction false} SwapUnitsAt(s: seq<Byte>, k: nat, x: nat)
    requires k > 0 && |s| % k == 0 && x < |s|
    ensures 0 <= Mirror(x, k) < |s| && SwapUnits(s, k)[x] == s[Mirror(x, k)]
    decreases |s|
  {
    UnitFits(|s|, k);
    if x < k {
      ModInUnit(0, k, x);
    } else {
      UnitBelow(x, k);
      SwapUnitsAt(s[k..], k, x - k);
    }
  }

  lemma UnitFits(n: nat, k: nat)
    requires k > 0 && n % k == 0 && n > 0
    ensures n >= k && (n - k) % k == 0
  {
    if n < k {
      ModInUnit(0, k, n);
    }
    UnitBelow(n, k);
  }

  lemma UnitBelow(x: nat, k: nat)
    requires k > 0 && x >= k
    ensures (x - k) % k == x % k
  {
    assert x - k == k * (x / k - 1) + x % k;
    ModOfSum(x / k - 1, k, x % k);
  }

  /** SwapCopy: byte position by byte position, stepping through the items. */
  method SwapCopy(out: array<Byte>, at: nat, src: seq<Byte>, k: nat)
    requires k > 0 && |src| % k == 0 && at + |src| <= out.Length
    modifies out
    ensures out[..at + |src|] == old(out[..at]) + SwapUnits(src, k)
    ensures forall k :: at + |src| <= k < out.Length ==> out[k] == old(out[k])
  {
    if k > 1 {
      var which := k;
      while which > 0
        invariant 0 <= which <= k
        invariant forall j :: 0 <= j < out.Length && !(at <= j < at + |src|) ==> out[j] == old(out[j])
        invariant forall x :: 0 <= x < |src| && x % k >= which ==>
          0 <= Mirror(x, k) < |src| && out[at + x] == src[Mirror(x, k)]
      {
        which := which - 1;
        var i := 0;
        while i < |src|
          invariant i <= |src| && i % k == 0
          invariant forall j :: 0 <= j < out.Length && !(at <= j < at + |src|) ==> out[j] == old(out[j])
          invariant forall x :: 0 <= x < |src| && (x % k > which || (x % k == which && x < i)) ==>
            0 <= Mirror(x, k) < |src| && out[at + x] == src[Mirror(x, k)]
        {
          UnitInside(|src|, k, i);
          ModInUnit(i, k, i + which);
          assert Mirror(i + which, k) == i + k - 1 - which;
          out[at + i + which] := src[i + k - 1 - which];
          forall x | i <= x < i + k
            ensures x % k == x - i
          {
            ModInUnit(i, k, x);
          }
          i := i + k;
        }
      }
    } else {
      forall i | 0 <= i < |src| {
        out[at + i] := src[i];
      }
      SwapUnitsOfOne(src);
    }
    forall x | 0 <= x < |src|
      ensures out[at + x] == SwapUnits(src, k)[x]
    {
      if k > 1 {
        SwapUnitsAt(src, k, x);
      }
    }
    assert out[at..at + |src|] == SwapUnits(src, k);
    assert out[..at + |src|] == out[..at] + out[at..at + |src|];
  }

  lemma UnitInside(n: nat, k: nat, i: nat)
    requires k > 0 && n % k == 0 && i % k == 0 && i < n
    ensures i + k <= n && (i + k) % k == 0
  {
    assert n == k * (n / k) && i == k * (i / k);
    if i / k < n / k {
      MulStep(i / k, n / k, k);
    } else if n / k < i / k {
      MulStep(n / k, i / k, k);
    }
    assert i + k == k * (i / k + 1) + 0;
    ModOfSum(i / k + 1, k, 0);
  }

  // ---------------------------------------------------------------- writing

  method WriteData(out: array<Byte>, off: nat, s: seq<Byte>) returns (end: nat)
    requires off + |s| <= out.Length
    modifies out
    ensures end == off + |s|
    ensures out[..end] == old(out[..off]) + s
    ensures forall k :: end <= k < out.Length ==> out[k] == old(out[k])
  {
    forall i | 0 <= i < |s| {
      out[off + i] := s[i];
    }
    end := off + |s|;
  }

  method WriteHeader(out: array<Byte>, off: nat, what: U32, n: nat) returns (end: nat)
    requires off + 12 <= out.Length
    modifies out
    ensures end == off + 12
    ensures out[..end] == old(out[..off]) + Header(what, n)
    ensures forall k :: end <= k < out.Length ==> out[k] == old(out[k])
  {
    hide Le32;
    end := WriteData(out, off, Le32(PROTOCOL_VERSION));
    end := WriteData(out, end, Le32(what));
    end := WriteData(out, end, Le32(n));
  }

  /** MMFlattenMessage: fills the next MessageSize bytes of the buffer and touches no other. */
  method FlattenMessage(big: bool, msg: Message, out: array<Byte>, start: nat) returns (end: nat)
    requires WellFormed(msg) && start + MessageSize(msg) <= out.Length
    modifies out
    ensures end == start + MessageSize(msg)
    ensures out[..end] == old(out[..start]) + FlatMessage(big, msg)
    ensures forall k :: end <= k < out.Length ==> out[k] == old(out[k])
    decreases msg, 2
  {
    hide Le32, FlatFields, FieldsSize, CountFlattenable, FlatField, FieldSize;
    var n := CountEntries(msg.fields);
    end := WriteHeader(out, start, msg.what, n);
    ghost var pre := old(out[..start]);
    var i := 0;
    while i < |msg.fields|
      invariant i <= |msg.fields|
      invariant end + FieldsSize(msg.fields[i..]) == start + MessageSize(msg) && start <= end
      invariant out[..end] + FlatFields(big, msg.fields[i..]) == pre + FlatMessage(big, msg)
      invariant forall k :: start + MessageSize(msg) <= k < out.Length ==> out[k] == old(out[k])
    {
      FieldsFrom(big, msg.fields, i);
      if Flattenable(msg.fields[i]) {
        AppendAssoc(out[..end], FlatField(big, msg.fields[i]), FlatFields(big, msg.fields[i + 1..]));
        end := FlattenField(big, msg.fields[i], out, end);
      }
      i := i + 1;
    }
    FieldsFrom(big, msg.fields, |msg.fields|);
  }

  method CountEntries(fs: seq<Field>) returns (n: nat)
    ensures n == CountFlattenable(fs)
  {
    n := 0;
    var i := 0;
    while i < |fs|
      invariant i <= |fs|
      invariant n + CountFlattenable(fs[i..]) == CountFlattenable(fs)
    {
      if Flattenable(fs[i]) {
        n := n + 1;
      }
      assert fs[i..][1..] == fs[i + 1..];
      i := i + 1;
    }
  }

  lemma AppendAssoc(a: seq<Byte>, b: seq<Byte>, c: seq<Byte>)
    ensures a + (b + c) == a + b + c
  {
  }

  /** The encodings of the fields from i on, one field at a time. */
  lemma FieldsFrom(big: bool, fs: seq<Field>, i: nat)
    requires i <= |fs|
    ensures fs[0..] == fs
    ensures i == |fs| ==> FlatFields(big, fs[i..]) == [] && FieldsSize(fs[i..]) == 0
    ensures i < |fs| && Flattenable(fs[i]) ==>
      && FlatFields(big, fs[i..]) == FlatField(big, fs[i]) + FlatFields(big, fs[i + 1..])
      && FieldsSize(fs[i..]) == FieldSize(fs[i]) + FieldsSize(fs[i + 1..])
    ensures i < |fs| && !Flattenable(fs[i]) ==>
      && FlatFields(big, fs[i..]) == FlatFields(big, fs[i + 1..])
      && FieldsSize(fs[i..]) == FieldsSize(fs[i + 1..])
  {
    hide FlatField, FieldSize;
    if i < |fs| {
      assert fs[i..][1..] == fs[i + 1..];
      assert [] + FlatFields(big, fs[i + 1..]) == FlatFields(big, fs[i + 1..]);
    }
  }

  /** FlattenMMessageField. */
  method FlattenField(big: bool, f: Field, out: array<Byte>, start: nat) returns (end: nat)
    requires WellFormedField(f) && start + FieldSize(f) <= out.Length
    modifies out
    ensures end == start + FieldSize(f)
    ensures out[..end] == old(out[..start]) + FlatField(big, f)
    ensures forall k :: end <= k < out.Length ==> out[k] == old(out[k])
    decreases f, 1
  {
    hide *;
    FieldParts(big, f);
    end := WriteEntryHeader(out, start, f.name, f.typeCode, DataSize(f));
    end := FlattenData(big, f, out, end);
    AppendAssoc(old(out[..start]), EntryHeader(f.name, f.typeCode, DataSize(f)), FlatData(big, f));
  }

  lemma FieldParts(big: bool, f: Field)
    ensures FlatField(big, f) == EntryHeader(f.name, f.typeCode, DataSize(f)) + FlatData(big, f)
    ensures FieldSize(f) == 12 + |f.name| + DataSize(f)
  {
  }

  method WriteEntryHeader(out: array<Byte>, start: nat, name: seq<Byte>, tc: U32, size: nat) returns (end: nat)
    requires start + 12 + |name| <= out.Length
    modifies out
    ensures end == start + 12 + |name|
    ensures out[..end] == old(out[..start]) + EntryHeader(name, tc, size)
    ensures forall k :: end <= k < out.Length ==> out[k] == old(out[k])
  {
    hide Le32;
    end := WriteData(out, start, Le32(|name|));
    end := WriteData(out, end, name);
    end := WriteData(out, end, Le32(tc));
    end := WriteData(out, end, Le32(size));
  }

  method FlattenData(big: bool, f: Field, out: array<Byte>, start: nat) returns (end: nat)
    requires WellFormedField(f) && start + DataSize(f) <= out.Length
    modifies out
    ensures end == start + DataSize(f)
    ensures out[..end] == old(out[..start]) + FlatData(big, f)
    ensures forall k :: end <= k < out.Length ==> out[k] == old(out[k])
    decreases f, 0
  {
    hide Le32, WireOrder, FlatBuffers, FlatSubmessages, BuffersSize, SubmessagesSize;
    match f.data {
      case Fixed(b) =>
        end := FlattenFixed(big, f.typeCode, b, out, start);
      case Buffers(bufs) =>
        end := FlattenBuffers(bufs, out, start);
        AppendAssoc(old(out[..start]), Le32(|bufs|), FlatBuffers(bufs));
      case Submessages(ms) =>
        end := FlattenSubmessages(big, ms, out, start);
    }
  }

  lemma UnitsOfItems(n: nat, tc: U32)
    requires n % ItemSize(tc) == 0
    ensures n % UnitSize(tc) == 0
  {
  }

  method FlattenFixed(big: bool, tc: U32, b: seq<Byte>, out: array<Byte>, start: nat) returns (end: nat)
    requires start + |b| <= out.Length && |b| % ItemSize(tc) == 0
    modifies out
    ensures end == start + |b|
    ensures out[..end] == old(out[..start]) + WireOrder(big, tc, b)
    ensures forall k :: end <= k < out.Length ==> out[k] == old(out[k])
  {
    end := start + |b|;
    UnitsOfItems(|b|, tc);
    if big && tc != B_BOOL_TYPE && tc != B_INT8_TYPE {
      SwapCopy(out, start, b, UnitSize(tc));
    } else {
      SwapUnitsOfOne(b);
      end := WriteData(out, start, b);
    }
  }

  method FlattenBuffers(bufs: seq<Option<seq<Byte>>>, out: array<Byte>, start: nat) returns (end: nat)
    requires start + 4 + BuffersSize(bufs) <= out.Length
    modifies out
    ensures end == start + 4 + BuffersSize(bufs)
    ensures out[..end] == old(out[..start]) + Le32(|bufs|) + FlatBuffers(bufs)
    ensures forall k :: end <= k < out.Length ==> out[k] == old(out[k])
  {
    hide Le32;
    ghost var pre := out[..start];
    end := WriteData(out, start, Le32(|bufs|));
    var i := 0;
    while i < |bufs|
      invariant i <= |bufs|
      invariant end + BuffersSize(bufs[i..]) == start + 4 + BuffersSize(bufs) && start <= end
      invariant out[..end] + FlatBuffers(bufs[i..]) == pre + Le32(|bufs|) + FlatBuffers(bufs)
      invariant forall k :: start + 4 + BuffersSize(bufs) <= k < out.Length ==> out[k] == old(out[k])
    {
      assert bufs[i..][1..] == bufs[i + 1..];
      var bytes := BufferBytes(bufs[i]);
      end := WriteData(out, end, Le32(|bytes|));
      end := WriteData(out, end, bytes);
      i := i + 1;
    }
  }

  method FlattenSubmessages(big: bool, ms: seq<Option<Message>>, out: array<Byte>, start: nat) returns (end: nat)
    requires start + SubmessagesSize(ms) <= out.Length
    requires forall i :: 0 <= i < |ms| && ms[i].Some? ==> WellFormed(ms[i].value)
    modifies out
    ensures end == start + SubmessagesSize(ms)
    ensures out[..end] == old(out[..start]) + FlatSubmessages(big, ms)
    ensures forall k :: end <= k < out.Length ==> out[k] == old(out[k])
    decreases ms, 0
  {
    hide Le32;
    ghost var pre := out[..start];
    end := start;
    var i := 0;
    while i < |ms|
      invariant i <= |ms|
      invariant end + SubmessagesSize(ms[i..]) == start + SubmessagesSize(ms) && start <= end
      invariant out[..end] + FlatSubmessages(big, ms[i..]) == pre + FlatSubmessages(big, ms)
      invariant forall k :: start + SubmessagesSize(ms) <= k < out.Length ==> out[k] == old(out[k])
    {
      assert ms[i..][1..] == ms[i + 1..];
      end := FlattenSlot(big, ms[i], out, end);
      i := i + 1;
    }
  }

  method FlattenSlot(big: bool, slot: Option<Message>, out: array<Byte>, start: nat) returns (end: nat)
    requires start + 4 + SlotSize(slot) <= out.Length && (slot.Some? ==> WellFormed(slot.value))
    modifies out
    ensures end == start + 4 + SlotSize(slot)
    ensures out[..end] == old(out[..start]) + FlatSlot(big, slot)
    ensures forall k :: end <= k < out.Length ==> out[k] == old(out[k])
    decreases slot, 0
  {
    hide Le32;
    end := WriteData(out, start, Le32(SlotSize(slot)));
    if slot.Some? {
      end := FlattenMessage(big, slot.value, out, end);
    } else {
      end := WriteHeader(out, end, 0, 0);
    }
  }

  // ---------------------------------------------------------------- reading

  /** MMUnflattenMessage, with the loop over the entries and its moving read offset. */
  method UnflattenMessage(big: bool, buf: seq<Byte>) returns (r: Parsed<Message>)
    ensures r == Unflatten(big, buf)
    decreases |buf|, 2
  {
    hide FromLe32, ReadEntry;
    var version := ReadWord(buf, 0);
    if version.None? || version.value != PROTOCOL_VERSION {
      return Bad;
    }
    var what, n := ReadWord(buf, 4), ReadWord(buf, 8);
    if what.None? || n.None? {
      return Bad;
    }
    var fields: seq<Field> := [];
    var off, i := 12, 0;
    while i < n.value
      invariant i <= n.value && off >= 12
      invariant ReadEntries(big, buf, 12, n.value, []) == ReadEntries(big, buf, off, n.value - i, fields)
    {
      var nameLength := ReadWord(buf, off);
      if nameLength.None? || off + 4 + nameLength.value > |buf| {
        return Bad;
      }
      var nameOff := off + 4;
      off := nameOff + nameLength.value;
      var tc, size := ReadWord(buf, off), ReadWord(buf, off + 4);
      if tc.None? || size.None? || off + 8 + size.value > |buf| {
        return Bad;
      }
      off := off + 8;
      var added := UnflattenEntry(big, buf, nameOff, nameLength.value, tc.value, off, size.value, fields);
      if added.IsFailure() {
        return added.PropagateFailure();
      }
      fields := added.value;
      off := off + size.value;
      i := i + 1;
    }
    r := Parsed(Message(what.value, fields));
  }

  method UnflattenEntry(big: bool, buf: seq<Byte>, nameOff: nat, nameLength: nat, tc: U32, off: nat, size: nat,
                        fields: seq<Field>) returns (r: Parsed<seq<Field>>)
    requires nameOff + nameLength <= off && off + size <= |buf| && off >= 12
    ensures r == ReadEntry(big, buf, nameOff, nameLength, tc, off, size, fields)
    decreases |buf|, 1
  {
    hide FromLe32, PutField, ReadSubmessages, ReadBuffers, WireOrder, Unflatten;
    if tc == B_MESSAGE_TYPE {
      var ms := UnflattenSubmessages(big, buf, off, size);
      var text := CStr(buf[nameOff..]);
      if ms.IsFailure() {
        r := ms.PropagateFailure();
      } else if nameOff + |text| == |buf| {
        r := Stray;
      } else if ms.value == [] {
        r := Bad;
      } else {
        r := Parsed(PutField(fields, Field(text + [0], tc, Submessages(ms.value))));
      }
    } else if IsVariableSize(tc) {
      var n := ReadWord(buf, off);
      var text := CStr(buf[nameOff..]);
      if n.None? {
        r := Bad;
      } else if nameOff + |text| == |buf| {
        r := Stray;
      } else if n.value == 0 {
        r := Bad;
      } else {
        var bufs := UnflattenBuffers(buf, off + 4, n.value, size);
        if bufs.IsFailure() {
          r := bufs.PropagateFailure();
        } else {
          r := Parsed(PutField(fields, Field(text + [0], tc, Buffers(bufs.value))));
        }
      }
    } else if nameLength == 0 {
      r := Stray;
    } else {
      var wireType := if tc == B_POINTER_TYPE then B_INT32_TYPE else tc;
      var used := size / ItemSize(wireType) * ItemSize(wireType);
      if used == 0 {
        r := Bad;
      } else {
        var name := buf[nameOff..nameOff + nameLength - 1] + [0];
        r := Parsed(fields + [Field(name, wireType, Fixed(WireOrder(big, wireType, buf[off..off + used])))]);
      }
    }
  }

  /** The case of the switch that has to read sub-messages to learn how many there are. */
  method UnflattenSubmessages(big: bool, buf: seq<Byte>, start: nat, size: nat)
    returns (r: Parsed<seq<Option<Message>>>)
    requires start >= 12
    ensures r == ReadSubmessages(big, buf, start, 0, size, [])
    decreases |buf|, 0
  {
    hide FromLe32, Unflatten;
    var ms: seq<Option<Message>> := [];
    var used, off := 0, start;
    while used < size
      invariant off >= 12
      invariant ReadSubmessages(big, buf, start, 0, size, []) == ReadSubmessages(big, buf, off, used, size, ms)
      decreases size - used
    {
      var len := ReadWord(buf, off);
      if len.None? || off + 4 + len.value > |buf| {
        return Bad;
      }
      var m := UnflattenMessage(big, buf[off + 4..off + 4 + len.value]);
      if m.IsFailure() {
        return m.PropagateFailure();
      }
      ms := ms + [Some(m.value)];
      off := off + 4 + len.value;
      used := used + 4 + len.value;
    }
    r := Parsed(ms);
  }

  method UnflattenBuffers(buf: seq<Byte>, start: nat, n: nat, size: nat) returns (r: Parsed<seq<Option<seq<Byte>>>>)
    ensures r == ReadBuffers(buf, start, n, size, [])
  {
    hide FromLe32;
    var bufs: seq<Option<seq<Byte>>> := [];
    var left, off, i := size, start, 0;
    while i < n
      invariant i <= n && 0 <= off && 0 <= left
      invariant ReadBuffers(buf, start, n, size, []) == ReadBuffers(buf, off, n - i, left, bufs)
    {
      var len := ReadWord(buf, off);
      if len.None? || len.value + 4 > left {
        return Bad;
      }
      if off + 4 + len.value > |buf| {
        return Stray;
      }
      left := left - len.value - 4;
      bufs := bufs + [Some(buf[off + 4..off + 4 + len.value])];
      off := off + 4 + len.value;
      i := i + 1;
    }
    r := Parsed(bufs);
  }
}
