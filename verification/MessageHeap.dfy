/** Messages on the heap: linked fields, buffers and sub-messages down to any depth, each with one
    owner. Cloning makes an equal tree of new blocks, freeing gives every block back once. */
module MessageHeap {
  import opened Bytes
  import opened Messages
  import opened MessageEquality

  /** The item array of a field: items in place, or pointers that may be NULL. */
  datatype Items =
    | InPlace(bytes: seq<Byte>)
    | ToBuffers(bufs: seq<array?<Byte>>)
    | ToMessages(msgs: seq<HeapMessage?>)

  class HeapField {
    var name: seq<Byte>
    var typeCode: U32
    var items: Items
    /** The blocks the items own, all the way down. */
    ghost var Below: set<object>

    ghost predicate Valid()
      reads `items, `Below, Below
      decreases Below, 2
    {
      this !in Below && ItemsOk(items, Below)
    }

    ghost function Value(): Field
      requires Valid()
      reads `name, `typeCode, `items, `Below, Below
      decreases Below, 2
    {
      Field(name, typeCode, ItemsValue(items, Below))
    }

    constructor (name: seq<Byte>, typeCode: U32, items: Items, ghost below: set<object>)
      ensures this.name == name && this.typeCode == typeCode && this.items == items && Below == below
    {
      this.name, this.typeCode, this.items, Below := name, typeCode, items, below;
    }
  }

  // ---------------------------------------------------------------- items

  ghost function BufferBlocks(b: array?<Byte>): set<object> {
    if b == null then {} else {b}
  }

  ghost function MessageBlocks(m: HeapMessage?): set<object>
    reads if m == null then {} else {m}
  {
    if m == null then {} else m.Repr
  }

  /** The buffers own the blocks, one each. */
  ghost predicate BuffersOk(bufs: seq<array?<Byte>>, below: set<object>) {
    if bufs == [] then below == {}
    else
      var b := bufs[|bufs| - 1];
      BufferBlocks(b) <= below && BuffersOk(bufs[..|bufs| - 1], below - BufferBlocks(b))
  }

  /** The messages own the blocks, no block twice. */
  ghost predicate MessagesOk(msgs: seq<HeapMessage?>, below: set<object>)
    reads below
    decreases below, 1, |msgs|
  {
    if msgs == [] then below == {}
    else
      var m := msgs[|msgs| - 1];
      && (m != null ==> m in below && m.Repr <= below && m.Valid())
      && MessagesOk(msgs[..|msgs| - 1], below - MessageBlocks(m))
  }

  ghost predicate ItemsOk(items: Items, below: set<object>)
    reads below
    decreases below, 1
  {
    match items
    case InPlace(_) => below == {}
    case ToBuffers(bufs) => BuffersOk(bufs, below)
    case ToMessages(msgs) => MessagesOk(msgs, below)
  }

  ghost function BuffersValue(bufs: seq<array?<Byte>>, below: set<object>): (r: seq<Option<seq<Byte>>>)
    requires BuffersOk(bufs, below)
    reads below
    decreases |bufs|
    ensures |r| == |bufs|
  {
    if bufs == [] then []
    else
      var b := bufs[|bufs| - 1];
      BuffersValue(bufs[..|bufs| - 1], below - BufferBlocks(b)) + [if b == null then None else Some(b[..])]
  }

  ghost function MessagesValue(msgs: seq<HeapMessage?>, below: set<object>): (r: seq<Option<Message>>)
    requires MessagesOk(msgs, below)
    reads below
    decreases below, 1, |msgs|
    ensures |r| == |msgs|
  {
    if msgs == [] then []
    else
      var m := msgs[|msgs| - 1];
      MessagesValue(msgs[..|msgs| - 1], below - MessageBlocks(m)) + [if m == null then None else Some(m.Value())]
  }

  ghost function ItemsValue(items: Items, below: set<object>): FieldData
    requires ItemsOk(items, below)
    reads below
    decreases below, 1
  {
    match items
    case InPlace(bytes) => Fixed(bytes)
    case ToBuffers(bufs) => Buffers(BuffersValue(bufs, below))
    case ToMessages(msgs) => Submessages(MessagesValue(msgs, below))
  }

  /** The fields of a message own the blocks: each itself and what is below it. */
  ghost predicate FieldsOk(fs: seq<HeapField>, blocks: set<object>)
    reads blocks
    decreases blocks, 0, |fs|
  {
    if fs == [] then blocks == {}
    else
      var f := fs[|fs| - 1];
      && f in blocks && f.Below < blocks && f.Valid()
      && FieldsOk(fs[..|fs| - 1], blocks - {f} - f.Below)
  }

  ghost function FieldsValue(fs: seq<HeapField>, blocks: set<object>): (r: seq<Field>)
    requires FieldsOk(fs, blocks)
    reads blocks
    decreases blocks, 0, |fs|
    ensures |r| == |fs|
  {
    if fs == [] then []
    else
      var f := fs[|fs| - 1];
      FieldsValue(fs[..|fs| - 1], blocks - {f} - f.Below) + [f.Value()]
  }

  /** One more field, of blocks of its own. */
  lemma FieldAppended(fs: seq<HeapField>, blocks: set<object>, f: HeapField)
    requires FieldsOk(fs, blocks) && f.Valid() && f !in blocks && f !in f.Below && f.Below !! blocks
    ensures FieldsOk(fs + [f], blocks + {f} + f.Below)
    ensures FieldsValue(fs + [f], blocks + {f} + f.Below) == FieldsValue(fs, blocks) + [f.Value()]
  {
    var more := blocks + {f} + f.Below;
    assert (fs + [f])[..|fs|] == fs && more - {f} - f.Below == blocks;
    assert f in more && f.Below < more;
  }

  class HeapMessage {
    var what: U32
    var fields: seq<HeapField>
    /** The message itself and the blocks its fields own. */
    ghost var Repr: set<object>

    ghost predicate Valid()
      reads this, Repr
      decreases Repr, 0
    {
      this in Repr && FieldsOk(fields, Repr - {this})
    }

    ghost function Value(): Message
      requires Valid()
      reads this, Repr
      decreases Repr, 0
    {
      Message(what, FieldsValue(fields, Repr - {this}))
    }

    /** MMAllocMessage. */
    constructor (what: U32)
      ensures Valid() && fresh(Repr) && Value() == Message(what, [])
    {
      this.what, fields, Repr := what, [], {this};
      new;
      assert Repr - {this} == {};
    }

    /** AddMMessageField. */
    method Append(f: HeapField)
      requires Valid() && f.Valid() && f !in Repr && f.Below !! Repr
      modifies this
      ensures Valid() && Repr == old(Repr) + {f} + f.Below
      ensures Value() == Message(old(what), old(Value()).fields + [f.Value()])
    {
      ghost var blocks := Repr - {this};
      FieldAppended(fields, blocks, f);
      fields, Repr := fields + [f], Repr + {f} + f.Below;
      assert Repr - {this} == blocks + {f} + f.Below;
    }
  }

  // ---------------------------------------------------------------- one item at a time

  lemma {:induction false} BufferAt(bufs: seq<array?<Byte>>, below: set<object>, i: nat)
    requires BuffersOk(bufs, below) && i < |bufs|
    ensures bufs[i] != null ==> bufs[i] in below
    ensures BuffersValue(bufs, below)[i] == if bufs[i] == null then None else Some(bufs[i][..])
    decreases |bufs|
  {
    if i < |bufs| - 1 {
      BufferAt(bufs[..|bufs| - 1], below - BufferBlocks(bufs[|bufs| - 1]), i);
    }
  }

  lemma {:induction false} BufferFirst(b: array?<Byte>, bufs: seq<array?<Byte>>, below: set<object>)
    requires BuffersOk(bufs, below) && BufferBlocks(b) !! below
    ensures BuffersOk([b] + bufs, below + BufferBlocks(b))
    ensures BuffersValue([b] + bufs, below + BufferBlocks(b)) == [if b == null then None else Some(b[..])] + BuffersValue(bufs, below)
    decreases |bufs|
  {
    var all := [b] + bufs;
    if bufs == [] {
      assert all[..0] == [];
      assert below + BufferBlocks(b) - BufferBlocks(b) == {};
    } else {
      var n := |bufs| - 1;
      assert all[..|all| - 1] == [b] + bufs[..n];
      var rest := below - BufferBlocks(bufs[n]);
      BufferFirst(b, bufs[..n], rest);
      assert below + BufferBlocks(b) - BufferBlocks(bufs[n]) == rest + BufferBlocks(b);
    }
  }

  lemma {:induction false} MessageAt(msgs: seq<HeapMessage?>, below: set<object>, i: nat)
    requires MessagesOk(msgs, below) && i < |msgs|
    ensures msgs[i] != null ==> msgs[i] in below && msgs[i].Repr <= below && msgs[i].Valid()
    ensures MessagesValue(msgs, below)[i] == if msgs[i] == null then None else Some(msgs[i].Value())
    decreases |msgs|
  {
    if i < |msgs| - 1 {
      MessageAt(msgs[..|msgs| - 1], below - MessageBlocks(msgs[|msgs| - 1]), i);
    }
  }

  lemma {:induction false} MessageFirst(m: HeapMessage?, msgs: seq<HeapMessage?>, below: set<object>)
    requires MessagesOk(msgs, below) && (m != null ==> m.Valid() && m.Repr !! below)
    ensures MessagesOk([m] + msgs, below + MessageBlocks(m))
    ensures MessagesValue([m] + msgs, below + MessageBlocks(m))
         == [if m == null then None else Some(m.Value())] + MessagesValue(msgs, below)
    decreases |msgs|
  {
    var all := [m] + msgs;
    if msgs == [] {
      assert all[..0] == [];
      assert below + MessageBlocks(m) - MessageBlocks(m) == {};
    } else {
      var n := |msgs| - 1;
      assert all[..|all| - 1] == [m] + msgs[..n];
      var rest := below - MessageBlocks(msgs[n]);
      MessageFirst(m, msgs[..n], rest);
      assert below + MessageBlocks(m) - MessageBlocks(msgs[n]) == rest + MessageBlocks(m);
    }
  }

  lemma {:induction false} FieldAt(fs: seq<HeapField>, blocks: set<object>, i: nat)
    requires FieldsOk(fs, blocks) && i < |fs|
    ensures fs[i] in blocks && fs[i].Below < blocks && fs[i].Valid() && FieldsValue(fs, blocks)[i] == fs[i].Value()
    decreases |fs|
  {
    if i < |fs| - 1 {
      var f := fs[|fs| - 1];
      FieldAt(fs[..|fs| - 1], blocks - {f} - f.Below, i);
    }
  }

  // ---------------------------------------------------------------- cloning

  /** MBCloneByteBuffer. */
  method CloneBuffer(b: array<Byte>) returns (c: array<Byte>)
    ensures fresh(c) && c[..] == b[..]
  {
    c := new Byte[b.Length];
    forall i | 0 <= i < b.Length {
      c[i] := b[i];
    }
  }

  /** CloneMMessageField, the array of buffers: from the last item to the first. */
  method CloneBuffers(bufs: seq<array?<Byte>>, ghost below: set<object>) returns (dst: seq<array?<Byte>>, ghost blocks: set<object>)
    requires BuffersOk(bufs, below)
    ensures fresh(blocks) && BuffersOk(dst, blocks) && BuffersValue(dst, blocks) == BuffersValue(bufs, below)
  {
    hide BuffersOk, BuffersValue;
    dst, blocks := [], {};
    NoBuffers();
    var i := |bufs|;
    while i > 0
      invariant 0 <= i <= |bufs| && fresh(blocks) && BuffersOk(dst, blocks)
      invariant BuffersValue(dst, blocks) == BuffersValue(bufs, below)[i..]
    {
      i := i - 1;
      BufferAt(bufs, below, i);
      var c: array?<Byte> := null;
      if bufs[i] != null {
        c := CloneBuffer(bufs[i]);
      }
      BufferFirst(c, dst, blocks);
      dst, blocks := [c] + dst, blocks + BufferBlocks(c);
    }
  }

  lemma NoBuffers()
    ensures BuffersOk([], {}) && BuffersValue([], {}) == []
  {
  }

  lemma NoMessages()
    ensures MessagesOk([], {}) && MessagesValue([], {}) == []
  {
  }

  /** CloneMMessageField, the array of sub-messages. */
  method CloneMessages(msgs: seq<HeapMessage?>, ghost below: set<object>) returns (dst: seq<HeapMessage?>, ghost blocks: set<object>)
    requires MessagesOk(msgs, below)
    ensures fresh(blocks) && MessagesOk(dst, blocks) && MessagesValue(dst, blocks) == MessagesValue(msgs, below)
    decreases below, 1
  {
    hide MessagesOk, MessagesValue;
    dst, blocks := [], {};
    NoMessages();
    var i := |msgs|;
    while i > 0
      invariant 0 <= i <= |msgs| && fresh(blocks) && MessagesOk(dst, blocks)
      invariant MessagesValue(dst, blocks) == MessagesValue(msgs, below)[i..]
    {
      i := i - 1;
      MessageAt(msgs, below, i);
      var c: HeapMessage? := null;
      if msgs[i] != null {
        c := CloneMessage(msgs[i]);
      }
      MessageFirst(c, dst, blocks);
      dst, blocks := [c] + dst, blocks + MessageBlocks(c);
    }
  }

  /** CloneMMessageField. */
  method CloneField(f: HeapField) returns (c: HeapField)
    requires f.Valid()
    ensures fresh(c) && fresh(c.Below) && c.Valid() && c.Value() == f.Value()
    decreases f.Below, 2
  {
    hide BuffersOk, BuffersValue, MessagesOk, MessagesValue;
    match f.items {
      case InPlace(bytes) =>
        c := new HeapField(f.name, f.typeCode, InPlace(bytes), {});
      case ToBuffers(bufs) =>
        var dst, blocks := CloneBuffers(bufs, f.Below);
        c := new HeapField(f.name, f.typeCode, ToBuffers(dst), blocks);
      case ToMessages(msgs) =>
        var dst, blocks := CloneMessages(msgs, f.Below);
        c := new HeapField(f.name, f.typeCode, ToMessages(dst), blocks);
    }
  }

  /** MMCloneMessage: the clone means the same and shares no block with the original. */
  method CloneMessage(m: HeapMessage) returns (c: HeapMessage)
    requires m.Valid()
    ensures c.Valid() && fresh(c.Repr) && c.Repr !! m.Repr && c.Value() == m.Value()
    decreases m.Repr, 0
  {
    hide FieldsOk, FieldsValue, HeapField.Valid, HeapField.Value;
    c := new HeapMessage(m.what);
    ghost var blocks := m.Repr - {m};
    for i := 0 to |m.fields|
      invariant c.Valid() && fresh(c.Repr) && c.what == m.what
      invariant c.Value().fields == m.Value().fields[..i]
    {
      FieldAt(m.fields, blocks, i);
      var f := CloneField(m.fields[i]);
      c.Append(f);
    }
    assert m.Value().fields[..|m.fields|] == m.Value().fields;
  }

  /** So the original and its clone compare equal, in either order. */
  lemma ClonesAreEqual(m: HeapMessage, c: HeapMessage)
    requires m.Valid() && c.Valid() && c.Value() == m.Value() && WellFormed(m.Value())
    ensures MessagesEqual(m.Value(), c.Value()) && MessagesEqual(c.Value(), m.Value())
  {
    EqualIsEquivalence(m.Value(), m.Value(), m.Value());
  }

  // ---------------------------------------------------------------- freeing

  /** The heap, as far as freeing goes: the blocks allocated and not yet freed. */
  class Allocator {
    ghost var live: set<object>

    /** MFree, of a live block only. */
    ghost method Free(o: object)
      requires o in live
      modifies this
      ensures live == old(live) - {o}
    {
      live := live - {o};
    }
  }

  method FreeBuffers(bufs: seq<array?<Byte>>, ghost below: set<object>, ghost a: Allocator)
    requires BuffersOk(bufs, below) && below <= a.live && a !in below
    modifies a
    ensures a.live == old(a.live) - below
  {
    ghost var left := below;
    assert bufs[..|bufs|] == bufs;
    var i := |bufs|;
    while i > 0
      invariant 0 <= i <= |bufs| && BuffersOk(bufs[..i], left) && left <= below && a.live == old(a.live) - (below - left)
    {
      i := i - 1;
      assert bufs[..i + 1][..i] == bufs[..i];
      if bufs[i] != null {
        a.Free(bufs[i]);
      }
      left := left - BufferBlocks(bufs[i]);
    }
  }

  method FreeMessages(msgs: seq<HeapMessage?>, ghost below: set<object>, ghost a: Allocator)
    requires MessagesOk(msgs, below) && below <= a.live && a !in below
    modifies a
    ensures a.live == old(a.live) - below
    decreases below, 1
  {
    ghost var left := below;
    assert msgs[..|msgs|] == msgs;
    var i := |msgs|;
    while i > 0
      invariant 0 <= i <= |msgs| && MessagesOk(msgs[..i], left) && left <= below && a.live == old(a.live) - (below - left)
    {
      i := i - 1;
      assert msgs[..i + 1][..i] == msgs[..i];
      if msgs[i] != null {
        FreeMessage(msgs[i], a);
      }
      left := left - MessageBlocks(msgs[i]);
    }
  }

  /** FreeMMessageField. */
  method FreeField(f: HeapField, ghost a: Allocator)
    requires f.Valid() && f in a.live && f.Below <= a.live && a !in f.Below
    modifies a
    ensures a.live == old(a.live) - f.Below - {f}
    decreases f.Below, 2
  {
    match f.items {
      case InPlace(_) =>
      case ToBuffers(bufs) => FreeBuffers(bufs, f.Below, a);
      case ToMessages(msgs) => FreeMessages(msgs, f.Below, a);
    }
    a.Free(f);
  }

  /** MMFreeMessage: every block the message owns is freed, none twice. */
  method FreeMessage(m: HeapMessage, ghost a: Allocator)
    requires m.Valid() && m.Repr <= a.live && a !in m.Repr
    modifies a
    ensures a.live == old(a.live) - m.Repr
    decreases m.Repr, 0
  {
    hide HeapField.Valid, HeapField.Value;
    ghost var left := m.Repr - {m};
    assert m.fields[0..] == m.fields;
    for i := 0 to |m.fields|
      invariant FieldsOk(m.fields[i..], left) && left <= m.Repr - {m} && a.live == old(a.live) - (m.Repr - {m} - left)
    {
      var f := m.fields[i];
      FieldAt(m.fields[i..], left, 0);
      FieldsRest(m.fields[i..], left);
      assert m.fields[i..][1..] == m.fields[i + 1..];
      FreeField(f, a);
      left := left - {f} - f.Below;
    }
    assert m.fields[|m.fields|..] == [];
    a.Free(m);
  }

  lemma {:induction false} FieldsRest(fs: seq<HeapField>, blocks: set<object>)
    requires FieldsOk(fs, blocks) && fs != []
    ensures fs[0] in blocks && fs[0].Below <= blocks && FieldsOk(fs[1..], blocks - {fs[0]} - fs[0].Below)
    decreases |fs|
  {
    hide ItemsOk;
    var n := |fs| - 1;
    var f := fs[n];
    if n == 0 {
      assert fs[..0] == [];
      assert fs[1..] == [];
    } else {
      var rest := blocks - {f} - f.Below;
      FieldsRest(fs[..n], rest);
      assert fs[..n][1..] == fs[1..][..n - 1];
      var g := fs[0];
      assert fs[..n][0] == g;
      assert rest - {g} - g.Below == blocks - {g} - g.Below - {f} - f.Below;
      assert f in blocks - {g} - g.Below && f !in f.Below;
    }
  }
}
