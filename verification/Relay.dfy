/** A message that was received can be sent on: its normal form is well formed and as long as the
    original, and further hosts on the way change nothing. */
module Relay {
  import opened Bytes
  import opened Messages
  import opened Codec
  import opened RoundTrip

  lemma {:induction false} NormalMessage(a: bool, b: bool, c: bool, m: Message)
    requires WellFormed(m)
    ensures var n := Normal(a, b, m);
      WellFormed(n) && MessageSize(n) == MessageSize(m) && Normal(b, c, n) == Normal(a, c, m)
    decreases m, 2
  {
    hide WellFormedField;
    NormalFieldList(a, b, c, m.fields);
  }

  function NamesOf(fs: seq<Field>): set<seq<Byte>> {
    set f | f in fs :: f.name
  }

  /** Fields with well-formed data and names of their own, as a message has them. */
  predicate Proper(fs: seq<Field>) {
    UniqueNames(fs) && forall i :: 0 <= i < |fs| ==> WellFormedField(fs[i])
  }

  lemma ProperTail(fs: seq<Field>)
    requires fs != [] && Proper(fs)
    ensures WellFormedField(fs[0]) && Proper(fs[1..]) && fs[0].name !in NamesOf(fs[1..])
    ensures NamesOf(fs) == {fs[0].name} + NamesOf(fs[1..])
  {
    hide WellFormedField;
    assert fs == [fs[0]] + fs[1..];
    assert forall f :: f in fs[1..] ==> f.name != fs[0].name;
  }

  lemma ProperCons(f: Field, fs: seq<Field>)
    requires WellFormedField(f) && Proper(fs) && f.name !in NamesOf(fs)
    ensures Proper([f] + fs) && NamesOf([f] + fs) == {f.name} + NamesOf(fs)
  {
    hide WellFormedField;
    forall i | 0 <= i < |fs|
      ensures fs[i].name != f.name
    {
      assert fs[i] in fs;
    }
  }

  lemma {:induction false} NormalFieldList(a: bool, b: bool, c: bool, fs: seq<Field>)
    requires Proper(fs)
    ensures var ns := NormalFields(a, b, fs);
      && Proper(ns) && NamesOf(ns) <= NamesOf(fs)
      && FieldsSize(ns) == FieldsSize(fs) && NormalFields(b, c, ns) == NormalFields(a, c, fs)
    decreases fs, 1
  {
    hide Proper, NamesOf, NormalField, FieldSize, WellFormedField;
    if fs == [] {
      NoFields();
    } else {
      var f, rest := fs[0], fs[1..];
      ProperTail(fs);
      NormalFieldList(a, b, c, rest);
      NormalOne(a, b, c, f);
      if Flattenable(f) {
        var n, ns := NormalField(a, b, f), NormalFields(a, b, rest);
        ProperCons(n, ns);
        assert ([n] + ns)[1..] == ns;
      } else {
        assert NormalFields(a, b, fs) == NormalFields(a, b, rest);
      }
    }
  }

  lemma NoFields()
    ensures Proper([]) && NamesOf([]) == {}
  {
  }

  lemma {:induction false} NormalOne(a: bool, b: bool, c: bool, f: Field)
    requires WellFormedField(f)
    ensures var n := NormalField(a, b, f);
      && n.name == f.name && n.typeCode == f.typeCode && WellFormedField(n)
      && FieldSize(n) == FieldSize(f) && NormalField(b, c, n) == NormalField(a, c, f)
    decreases f, 1
  {
    hide Normal, NormalFields;
    match f.data {
      case Fixed(bytes) => SwapUnitsTwice(bytes, UnitSize(f.typeCode));
      case Buffers(bufs) => NormalBufferList(bufs);
      case Submessages(ms) => NormalSlots(a, b, c, ms);
    }
  }

  lemma {:induction false} NormalBufferList(bufs: seq<Option<seq<Byte>>>)
    ensures var ns := NormalBuffers(bufs);
      |ns| == |bufs| && BuffersSize(ns) == BuffersSize(bufs) && NormalBuffers(ns) == ns
  {
    if bufs != [] {
      NormalBufferList(bufs[1..]);
    }
  }

  lemma {:induction false} NormalSlots(a: bool, b: bool, c: bool, ms: seq<Option<Message>>)
    requires forall i :: 0 <= i < |ms| && ms[i].Some? ==> WellFormed(ms[i].value)
    ensures var ns := NormalSubmessages(a, b, ms);
      && |ns| == |ms| && (forall i :: 0 <= i < |ns| ==> ns[i].Some? && WellFormed(ns[i].value))
      && SubmessagesSize(ns) == SubmessagesSize(ms) && NormalSubmessages(b, c, ns) == NormalSubmessages(a, c, ms)
    decreases ms, 0
  {
    hide Normal, WellFormed, MessageSize;
    if ms != [] {
      var rest := ms[1..];
      NormalSlots(a, b, c, rest);
      NormalOneSlot(a, b, c, ms[0]);
    }
  }

  lemma {:induction false} NormalOneSlot(a: bool, b: bool, c: bool, slot: Option<Message>)
    requires slot.Some? ==> WellFormed(slot.value)
    ensures var n := NormalSlot(a, b, slot);
      WellFormed(n) && MessageSize(n) == SlotSize(slot) && Normal(b, c, n) == NormalSlot(a, c, slot)
    decreases slot, 0
  {
    hide Normal, WellFormed, MessageSize;
    if slot.Some? {
      NormalMessage(a, b, c, slot.value);
    } else {
      NormalEmpty(b, c);
    }
  }

  lemma NormalEmpty(b: bool, c: bool)
    ensures WellFormed(EMPTY_MESSAGE) && MessageSize(EMPTY_MESSAGE) == 12 && Normal(b, c, EMPTY_MESSAGE) == EMPTY_MESSAGE
  {
  }

  /** A message sent from a to b and on to c arrives as if it had been sent from a to c. */
  lemma SentOn(a: bool, b: bool, c: bool, m: Message)
    requires WellFormed(m) && MessageSize(m) < WORD
    ensures var at := Unflatten(b, FlatMessage(a, m));
      at.Parsed? && WellFormed(at.value) && Unflatten(c, FlatMessage(b, at.value)) == Unflatten(c, FlatMessage(a, m))
  {
    hide WellFormed, MessageSize, FlatMessage, Unflatten, Normal;
    NormalMessage(a, b, c, m);
    Arrives(a, b, m);
    Arrives(a, c, m);
    Arrives(b, c, Normal(a, b, m));
  }

  lemma Arrives(a: bool, b: bool, m: Message)
    requires WellFormed(m) && MessageSize(m) < WORD
    ensures Unflatten(b, FlatMessage(a, m)) == Parsed(Normal(a, b, m))
  {
    hide WellFormed, MessageSize, FlatMessage, Unflatten, Normal;
    UnflattenOfFlatten(a, b, m, []);
    assert FlatMessage(a, m) + [] == FlatMessage(a, m);
  }
}
