/** MMAreMessagesEqual compares counts and looks names up in one direction only; on messages with
    unique names that decides equality of what the messages mean, whatever the order of fields. */
module MessageEquality {
  import opened Bytes
  import opened Messages

  // ---------------------------------------------------------------- the comparison

  /** LookupMMessageField: the last field of that name, if its type code is acceptable. */
  function Lookup(fs: seq<Field>, name: seq<Byte>, tc: U32): (r: Option<Field>)
    ensures r.Some? ==> r.value in fs && r.value.name == name
  {
    if fs == [] then None
    else
      var f := fs[|fs| - 1];
      if f.name == name then
        if tc == B_ANY_TYPE || tc == f.typeCode then Some(f) else None
      else Lookup(fs[..|fs| - 1], name, tc)
  }

  predicate MessagesEqual(m1: Message, m2: Message)
    decreases m1, 2
  {
    && m1.what == m2.what && |m1.fields| == |m2.fields|
    && forall i :: 0 <= i < |m1.fields| ==> FieldFound(m1.fields[i], m2.fields)
  }

  predicate FieldFound(f1: Field, fs2: seq<Field>)
    decreases f1, 1
  {
    var f2 := Lookup(fs2, f1.name, f1.typeCode);
    f2.Some? && NumItems(f2.value) == NumItems(f1) && f2.value.typeCode == f1.typeCode && DataEqual(f1, f2.value)
  }

  predicate DataEqual(f1: Field, f2: Field)
    decreases f1, 0
  {
    match f1.data
    case Fixed(b) => f2.data == Fixed(b)
    case Buffers(bufs) => f2.data == Buffers(bufs)
    case Submessages(ms) =>
      && f2.data.Submessages? && |ms| == |f2.data.msgs|
      && forall i :: 0 <= i < |ms| ==> SlotsEqual(ms[i], f2.data.msgs[i])
  }

  predicate SlotsEqual(s1: Option<Message>, s2: Option<Message>)
    decreases s1, 0
  {
    s1.Some? == s2.Some? && (s1.Some? ==> MessagesEqual(s1.value, s2.value))
  }

  // ---------------------------------------------------------------- the meaning

  /** A message without its field order: a finite map from names to typed contents. */
  datatype Meaning = Meaning(what: U32, fields: map<seq<Byte>, FieldMeaning>)
  datatype FieldMeaning =
    | Scalars(typeCode: U32, bytes: seq<Byte>)
    | Blobs(typeCode: U32, bufs: seq<Option<seq<Byte>>>)
    | Nested(typeCode: U32, msgs: seq<Option<Meaning>>)

  function MeaningOf(m: Message): Meaning
    decreases m, 2
  {
    Meaning(m.what, MapOf(m.fields))
  }

  function MapOf(fs: seq<Field>): map<seq<Byte>, FieldMeaning>
    decreases fs, 1
  {
    if fs == [] then map[] else MapOf(fs[1..])[fs[0].name := FieldMeaningOf(fs[0])]
  }

  function FieldMeaningOf(f: Field): FieldMeaning
    decreases f, 1
  {
    match f.data
    case Fixed(b) => Scalars(f.typeCode, b)
    case Buffers(bufs) => Blobs(f.typeCode, bufs)
    case Submessages(ms) => Nested(f.typeCode, SlotMeanings(ms))
  }

  function SlotMeanings(ms: seq<Option<Message>>): (r: seq<Option<Meaning>>)
    ensures |r| == |ms|
    decreases ms, 1
  {
    if ms == [] then [] else [SlotMeaning(ms[0])] + SlotMeanings(ms[1..])
  }

  function SlotMeaning(s: Option<Message>): Option<Meaning>
    decreases s, 0
  {
    if s.Some? then Some(MeaningOf(s.value)) else None
  }

  lemma {:induction false} SlotMeaningAt(ms: seq<Option<Message>>, i: nat)
    requires i < |ms|
    ensures SlotMeanings(ms)[i] == SlotMeaning(ms[i])
    decreases |ms|
  {
    if i > 0 {
      SlotMeaningAt(ms[1..], i - 1);
    }
  }

  lemma {:induction false} MapOfFields(fs: seq<Field>)
    requires UniqueNames(fs)
    ensures |MapOf(fs)| == |fs|
    ensures forall i :: 0 <= i < |fs| ==> fs[i].name in MapOf(fs) && MapOf(fs)[fs[i].name] == FieldMeaningOf(fs[i])
    ensures forall n :: n in MapOf(fs) ==> exists i :: 0 <= i < |fs| && fs[i].name == n
    decreases |fs|
  {
    hide FieldMeaningOf;
    if fs != [] {
      var tail := MapOf(fs[1..]);
      MapOfFields(fs[1..]);
      forall n | n in tail
        ensures exists i :: 0 <= i < |fs| && fs[i].name == n && n != fs[0].name
      {
        var j :| 0 <= j < |fs[1..]| && fs[1..][j].name == n;
        assert fs[j + 1].name == n;
      }
      forall i | 0 <= i < |fs|
        ensures fs[i].name in MapOf(fs) && MapOf(fs)[fs[i].name] == FieldMeaningOf(fs[i])
      {
        if i > 0 {
          assert fs[i] == fs[1..][i - 1];
        }
      }
      assert fs[0].name !in tail;
      assert MapOf(fs).Keys == tail.Keys + {fs[0].name};
    }
  }

  /** Under unique names the tail-first search finds the field of that name. */
  lemma {:induction false} LookupUnique(fs: seq<Field>, i: nat, tc: U32)
    requires UniqueNames(fs) && i < |fs|
    ensures Lookup(fs, fs[i].name, tc)
         == if tc == B_ANY_TYPE || tc == fs[i].typeCode then Some(fs[i]) else None
    decreases |fs|
  {
    if i < |fs| - 1 {
      LookupUnique(fs[..|fs| - 1], i, tc);
    }
  }

  // ---------------------------------------------------------------- equality is equality of meaning

  lemma {:induction false} EqualIffSameMeaning(m1: Message, m2: Message)
    requires WellFormed(m1) && WellFormed(m2)
    ensures MessagesEqual(m1, m2) <==> MeaningOf(m1) == MeaningOf(m2)
    decreases m1, 2
  {
    hide FieldFound, FieldMeaningOf, Lookup, WellFormedField, MapOf;
    var fs1, fs2 := m1.fields, m2.fields;
    MapOfFields(fs1);
    MapOfFields(fs2);
    forall i | 0 <= i < |fs1|
      ensures FieldFound(fs1[i], fs2) <==> Holds(MapOf(fs2), fs1[i].name, MapOf(fs1)[fs1[i].name])
    {
      FieldFoundIff(fs1[i], fs2);
    }
    if MessagesEqual(m1, m2) {
      SameSizeSubmap(MapOf(fs1), MapOf(fs2));
    }
  }

  ghost predicate Holds(m: map<seq<Byte>, FieldMeaning>, n: seq<Byte>, v: FieldMeaning) {
    n in m && m[n] == v
  }

  /** One direction and equal counts give both directions. */
  lemma SameSizeSubmap(a: map<seq<Byte>, FieldMeaning>, b: map<seq<Byte>, FieldMeaning>)
    requires |a| == |b| && forall n :: n in a ==> Holds(b, n, a[n])
    ensures a == b
  {
    SubsetSize(a.Keys, b.Keys);
  }

  lemma SubsetSize<T>(a: set<T>, b: set<T>)
    requires a <= b && |a| == |b|
    ensures a == b
  {
    assert |b - a| == |b| - |a|;
  }

  lemma {:induction false} FieldFoundIff(f1: Field, fs2: seq<Field>)
    requires WellFormedField(f1) && UniqueNames(fs2)
    requires forall i :: 0 <= i < |fs2| ==> WellFormedField(fs2[i])
    ensures FieldFound(f1, fs2) <==> Holds(MapOf(fs2), f1.name, FieldMeaningOf(f1))
    decreases f1, 1
  {
    hide FieldMeaningOf, DataEqual, WellFormedField, MapOf, Lookup;
    MapOfFields(fs2);
    if i :| 0 <= i < |fs2| && fs2[i].name == f1.name {
      LookupUnique(fs2, i, f1.typeCode);
      DataEqualIff(f1, fs2[i]);
    } else {
      assert Lookup(fs2, f1.name, f1.typeCode).None?;
    }
  }

  lemma {:induction false} DataEqualIff(f1: Field, f2: Field)
    requires WellFormedField(f1) && WellFormedField(f2)
    ensures f1.typeCode == f2.typeCode && NumItems(f1) == NumItems(f2) && DataEqual(f1, f2)
       <==> FieldMeaningOf(f1) == FieldMeaningOf(f2)
    decreases f1, 0
  {
    hide SlotsEqual, SlotMeaning, WellFormed;
    if f1.data.Submessages? && f2.data.Submessages? {
      var ms1, ms2 := f1.data.msgs, f2.data.msgs;
      if |ms1| == |ms2| {
        forall i | 0 <= i < |ms1|
          ensures SlotsEqual(ms1[i], ms2[i]) <==> SlotMeanings(ms1)[i] == SlotMeanings(ms2)[i]
        {
          SlotMeaningAt(ms1, i);
          SlotMeaningAt(ms2, i);
          SlotsEqualIff(ms1[i], ms2[i]);
        }
      }
    }
  }

  lemma {:induction false} SlotsEqualIff(s1: Option<Message>, s2: Option<Message>)
    requires (s1.Some? ==> WellFormed(s1.value)) && (s2.Some? ==> WellFormed(s2.value))
    ensures SlotsEqual(s1, s2) <==> SlotMeaning(s1) == SlotMeaning(s2)
    decreases s1, 0
  {
    if s1.Some? && s2.Some? {
      EqualIffSameMeaning(s1.value, s2.value);
    }
  }

  lemma EqualIsEquivalence(m1: Message, m2: Message, m3: Message)
    requires WellFormed(m1) && WellFormed(m2) && WellFormed(m3)
    ensures MessagesEqual(m1, m1)
    ensures MessagesEqual(m1, m2) ==> MessagesEqual(m2, m1)
    ensures MessagesEqual(m1, m2) && MessagesEqual(m2, m3) ==> MessagesEqual(m1, m3)
  {
    hide *;
    EqualIffSameMeaning(m1, m1);
    EqualIffSameMeaning(m1, m2);
    EqualIffSameMeaning(m2, m1);
    EqualIffSameMeaning(m2, m3);
    EqualIffSameMeaning(m1, m3);
  }

  /** Moving fields about leaves a message equal to itself. */
  lemma OrderIgnored(m1: Message, m2: Message)
    requires WellFormed(m1) && WellFormed(m2) && m1.what == m2.what
    requires multiset(m1.fields) == multiset(m2.fields)
    ensures MessagesEqual(m1, m2)
  {
    hide FieldMeaningOf, MapOf, WellFormedField;
    MapOfFields(m1.fields);
    MapOfFields(m2.fields);
    forall n | n in MapOf(m1.fields)
      ensures Holds(MapOf(m2.fields), n, MapOf(m1.fields)[n])
    {
      var i :| 0 <= i < |m1.fields| && m1.fields[i].name == n;
      assert m1.fields[i] in multiset(m2.fields);
      var j :| 0 <= j < |m2.fields| && m2.fields[j] == m1.fields[i];
    }
    assert |m1.fields| == |multiset(m1.fields)| == |m2.fields|;
    SameSizeSubmap(MapOf(m1.fields), MapOf(m2.fields));
    EqualIffSameMeaning(m1, m2);
  }

  // ---------------------------------------------------------------- the loops

  /** MMAreMessagesEqual. `same` tells whether both pointers are the same object. */
  method AreMessagesEqual(m1: Message, m2: Message, same: bool) returns (r: bool)
    requires WellFormed(m1) && WellFormed(m2) && (same ==> m1 == m2)
    ensures r <==> MessagesEqual(m1, m2)
    decreases m1, 1
  {
    hide FieldFound, WellFormedField;
    if same {
      EqualIsEquivalence(m1, m1, m1);
      return true;
    }
    if m1.what != m2.what || |m1.fields| != |m2.fields| {
      return false;
    }
    for i := 0 to |m1.fields|
      invariant forall k :: 0 <= k < i ==> FieldFound(m1.fields[k], m2.fields)
    {
      var found := IsFieldIn(m1.fields[i], m2.fields);
      if !found {
        return false;
      }
    }
    r := true;
  }

  method IsFieldIn(f1: Field, fs2: seq<Field>) returns (r: bool)
    requires WellFormedField(f1) && forall i :: 0 <= i < |fs2| ==> WellFormedField(fs2[i])
    ensures r <==> FieldFound(f1, fs2)
    decreases f1, 0
  {
    var f2 := Lookup(fs2, f1.name, f1.typeCode);
    if f2.None? || NumItems(f2.value) != NumItems(f1) || f2.value.typeCode != f1.typeCode {
      return false;
    }
    assert WellFormedField(f2.value);
    if f1.typeCode != B_MESSAGE_TYPE {
      return f1.data == f2.value.data;
    }
    var ms1, ms2 := f1.data.msgs, f2.value.data.msgs;
    for i := 0 to |ms1|
      invariant forall k :: 0 <= k < i ==> SlotsEqual(ms1[k], ms2[k])
    {
      if ms1[i].Some? != ms2[i].Some? {
        assert !SlotsEqual(ms1[i], ms2[i]);
        return false;
      }
      if ms1[i].Some? {
        var equal := AreMessagesEqual(ms1[i].value, ms2[i].value, false);
        if !equal {
          assert !SlotsEqual(ms1[i], ms2[i]);
          return false;
        }
      }
    }
    r := true;
  }
}
