/** The doubly linked list of fields inside an MMessage, and who owns the buffers and sub-messages
    its pointer arrays hold. */
module FieldList {
  import opened Bytes
  import opened Messages
  import opened Sequences

  /** One item slot: raw bytes of a fixed-size type, or a pointer to a buffer or sub-message. */
  datatype Slot = Raw(bytes: seq<Byte>) | Ptr(item: object?)

  datatype Entry = Entry(name: seq<Byte>, typeCode: U32, slots: seq<Slot>)

  // ---------------------------------------------------------------- the abstract list

  ghost predicate Unique(es: seq<Entry>) {
    forall i, j :: 0 <= i < j < |es| ==> es[i].name != es[j].name
  }

  /** Where a name is, if anywhere. */
  ghost predicate IsIndex(es: seq<Entry>, name: seq<Byte>, k: int) {
    0 <= k < |es| && es[k].name == name
  }

  ghost predicate Has(es: seq<Entry>, name: seq<Byte>) {
    exists k :: IsIndex(es, name, k)
  }

  /** The objects a slot array points to. */
  ghost function Pointers(slots: seq<Slot>): multiset<object> {
    if slots == [] then multiset{}
    else Pointers(slots[..|slots| - 1])
         + (if slots[|slots| - 1].Ptr? && slots[|slots| - 1].item != null then multiset{slots[|slots| - 1].item}
            else multiset{})
  }

  /** The objects a whole list points to. */
  ghost function Owned(es: seq<Entry>): multiset<object> {
    if es == [] then multiset{} else Owned(es[..|es| - 1]) + Pointers(es[|es| - 1].slots)
  }

  lemma {:induction false} PointersConcat(a: seq<Slot>, b: seq<Slot>)
    ensures Pointers(a + b) == Pointers(a) + Pointers(b)
  {
    if b == [] {
      assert a + b == a;
    } else {
      assert (a + b)[..|a + b| - 1] == a + b[..|b| - 1];
      PointersConcat(a, b[..|b| - 1]);
    }
  }

  lemma {:induction false} OwnedConcat(a: seq<Entry>, b: seq<Entry>)
    ensures Owned(a + b) == Owned(a) + Owned(b)
  {
    hide Pointers;
    if b == [] {
      assert a + b == a;
    } else {
      assert (a + b)[..|a + b| - 1] == a + b[..|b| - 1];
      OwnedConcat(a, b[..|b| - 1]);
    }
  }

  lemma OwnedSteps(es: seq<Entry>, i: nat)
    requires i <= |es|
    ensures Owned(es[..0]) == multiset{} && es[..|es|] == es
    ensures i < |es| ==> Owned(es[..i + 1]) == Owned(es[..i]) + Pointers(es[i].slots)
  {
    if i < |es| {
      assert es[..i + 1][..i] == es[..i];
    }
  }

  lemma OwnedOne(e: Entry)
    ensures Owned([e]) == Pointers(e.slots)
  {
    assert [e][..0] == [];
  }

  lemma OwnedDrop(es: seq<Entry>, k: nat)
    requires k < |es|
    ensures Owned(es) == Owned(Drop(es, k)) + Pointers(es[k].slots)
  {
    hide *;
    var l, m, r := es[..k], [es[k]], es[k + 1..];
    assert es == l + (m + r);
    OwnedConcat(l, m + r);
    OwnedConcat(m, r);
    OwnedConcat(l, r);
    OwnedOne(es[k]);
    DropParts(es, k);
  }

  lemma DropParts<T>(s: seq<T>, k: nat)
    requires k < |s|
    ensures Drop(s, k) == s[..k] + s[k + 1..]
  {
  }

  ghost predicate Single(m: multiset<object>) {
    forall o :: o in m ==> m[o] == 1
  }

  /** The array as Put leaves it behind: moved pointers replaced by NULL. */
  function Emptied(slots: seq<Slot>): (r: seq<Slot>)
    ensures |r| == |slots|
  {
    seq(|slots|, i requires 0 <= i < |slots| => if slots[i].Ptr? then Ptr(null) else slots[i])
  }

  function Blanks(n: nat, blank: Slot): (r: seq<Slot>)
    ensures |r| == n
  {
    seq(n, _ => blank)
  }

  lemma {:induction false} NoPointers(slots: seq<Slot>)
    requires forall i :: 0 <= i < |slots| ==> slots[i].Ptr? ==> slots[i].item == null
    ensures Pointers(slots) == multiset{}
  {
    if slots != [] {
      NoPointers(slots[..|slots| - 1]);
    }
  }

  /** How many items Put carries over. */
  function Common(retain: bool, tc: U32, e: Entry, n: nat): (c: nat)
    ensures c <= n && c <= |e.slots|
  {
    if retain && e.typeCode == tc then (if n < |e.slots| then n else |e.slots|) else 0
  }

  /** The new array has n items: at the places both have, if they are to be kept, those of the old one, and
      blanks elsewhere. */
  predicate Keeps(now: seq<Slot>, was: seq<Slot>, keep: bool, n: nat, blank: Slot) {
    && |now| == n
    && forall i :: 0 <= i < n ==> now[i] == if keep && i < |was| then was[i] else blank
  }

  lemma KeepsCommon(retain: bool, tc: U32, e: Entry, n: nat, blank: Slot)
    ensures var c := Common(retain, tc, e, n); Keeps(e.slots[..c] + Blanks(n - c, blank), e.slots, retain && e.typeCode == tc, n, blank)
  {
  }

  /** Both arrays of a Put after i items went over. */
  ghost predicate Moved(s: seq<Slot>, i: nat, n: nat, blank: Slot, from: seq<Slot>, to: seq<Slot>) {
    && i <= |s| && i <= n && |from| == |s| && |to| == n
    && from == Emptied(s[..i]) + s[i..] && to == s[..i] + Blanks(n - i, blank)
  }

  lemma MovedNone(s: seq<Slot>, n: nat, blank: Slot)
    ensures Moved(s, 0, n, blank, s, Blanks(n, blank))
  {
  }

  lemma MovedMeans(s: seq<Slot>, i: nat, n: nat, blank: Slot, from: seq<Slot>, to: seq<Slot>)
    requires Moved(s, i, n, blank, from, to)
    ensures i <= |s| && i <= n && from == Emptied(s[..i]) + s[i..] && to == s[..i] + Blanks(n - i, blank)
  {
  }

  lemma MovedStep(s: seq<Slot>, i: nat, n: nat, blank: Slot, from: seq<Slot>, to: seq<Slot>)
    requires Moved(s, i, n, blank, from, to) && i < |s| && i < n
    ensures Moved(s, i + 1, n, blank, if from[i].Ptr? then from[i := Ptr(null)] else from, to[i := from[i]])
  {
    assert s[..i + 1][..i] == s[..i];
    var now := if from[i].Ptr? then from[i := Ptr(null)] else from;
    var emptied := Emptied(s[..i + 1]) + s[i + 1..];
    forall j | 0 <= j < |s|
      ensures now[j] == emptied[j]
    {
    }
  }

  /** Put moves pointers or frees them, and makes none up. */
  lemma PutAccounts(es: seq<Entry>, k: nat, c: nat, e: Entry, n: nat, blank: Slot)
    requires k < |es| && c <= |es[k].slots| && (blank.Ptr? ==> blank.item == null)
    requires e.slots == es[k].slots[..c] + Blanks(n, blank)
    ensures Pointers(Emptied(es[k].slots[..c]) + es[k].slots[c..]) == Pointers(es[k].slots[c..])
    ensures Owned(Drop(es, k) + [e]) + Pointers(es[k].slots[c..]) == Owned(es)
  {
    hide Pointers, Owned, Drop;
    var s := es[k].slots;
    assert s == s[..c] + s[c..];
    NoPointers(Blanks(n, blank));
    NoPointers(Emptied(s[..c]));
    PointersConcat(s[..c], s[c..]);
    PointersConcat(s[..c], Blanks(n, blank));
    PointersConcat(Emptied(s[..c]), s[c..]);
    OwnedDrop(es, k);
    OwnedConcat(Drop(es, k), [e]);
    OwnedOne(e);
  }

  lemma AppendBlank(es: seq<Entry>, e: Entry, n: nat, blank: Slot)
    requires e.slots == Blanks(n, blank) && (blank.Ptr? ==> blank.item == null)
    ensures Owned(es + [e]) == Owned(es)
  {
    hide Pointers, Owned;
    NoPointers(Blanks(n, blank));
    OwnedConcat(es, [e]);
    OwnedOne(e);
  }

  lemma SameDrop<T>(a: seq<T>, b: seq<T>, k: nat)
    requires k < |a| == |b| && forall i :: 0 <= i < |a| && i != k ==> a[i] == b[i]
    ensures Drop(a, k) == Drop(b, k)
  {
    hide Drop;
  }

  lemma AppendUnique(es: seq<Entry>, e: Entry)
    requires Unique(es) && !Has(es, e.name)
    ensures Unique(es + [e])
  {
    forall i | 0 <= i < |es|
      ensures es[i].name != e.name
    {
      assert IsIndex(es, es[i].name, i);
    }
  }

  lemma PutUnique(es: seq<Entry>, k: nat, e: Entry)
    requires Unique(es) && k < |es| && es[k].name == e.name
    ensures Unique(Drop(es, k) + [e])
  {
    hide Drop;
  }

  // ---------------------------------------------------------------- the linked list

  class FieldNode {
    var prevField: FieldNode?
    var nextField: FieldNode?
    var entry: Entry

    constructor (entry: Entry)
      ensures this.entry == entry && prevField == null && nextField == null
    {
      this.entry := entry;
      prevField, nextField := null, null;
    }
  }

  class FieldList {
    var firstField: FieldNode?
    var lastField: FieldNode?
    var numFields: nat
    ghost var nodes: seq<FieldNode>
    /** The objects handed to MMFreeMessage and MBFreeByteBuffer so far. */
    ghost var freed: multiset<object>

    ghost predicate Linked()
      reads `firstField, `lastField, `numFields, `nodes, nodes`prevField, nodes`nextField
    {
      && numFields == |nodes| && NoDup(nodes) && Chain(nodes)
      && (nodes == [] ==> firstField == null && lastField == null)
      && (nodes != [] ==>
        && firstField == nodes[0] && lastField == nodes[|nodes| - 1]
        && nodes[0].prevField == null && nodes[|nodes| - 1].nextField == null)
    }

    static ghost predicate Chain(q: seq<FieldNode>)
      reads q`prevField, q`nextField
    {
      forall i, j {:trigger q[i], q[j]} :: 0 <= i && j == i + 1 < |q| ==>
        q[i].nextField == q[j] && q[j].prevField == q[i]
    }

    ghost function Entries(): (es: seq<Entry>)
      reads `nodes, nodes`entry
      ensures |es| == |nodes| && forall i :: 0 <= i < |es| ==> es[i] == nodes[i].entry
    {
      EntriesOf(nodes)
    }

    static ghost function EntriesOf(q: seq<FieldNode>): (es: seq<Entry>)
      reads q`entry
      ensures |es| == |q| && forall i :: 0 <= i < |es| ==> es[i] == q[i].entry
    {
      if q == [] then [] else EntriesOf(q[..|q| - 1]) + [q[|q| - 1].entry]
    }

    /** Names are unique, and no object is owned twice, freed twice, or owned after it was freed. */
    ghost predicate Valid()
      reads this, nodes
    {
      Linked() && Unique(Entries()) && Single(Owned(Entries()) + freed)
    }

    constructor ()
      ensures Valid() && nodes == [] && freed == multiset{}
    {
      firstField, lastField, numFields, nodes := null, null, 0, [];
      freed := multiset{};
    }

    /** AddMMessageField. */
    method Add(f: FieldNode)
      requires Linked() && f !in nodes && f.nextField == null
      modifies `firstField, `lastField, `numFields, `nodes, nodes`nextField, f`prevField
      ensures Linked() && nodes == old(nodes) + [f] && Entries() == old(Entries()) + [f.entry]
    {
      hide EntriesOf;
      f.prevField := lastField;
      if lastField != null {
        lastField.nextField := f;
      } else {
        firstField := f;
      }
      lastField := f;
      numFields := numFields + 1;
      ghost var q := nodes;
      nodes := nodes + [f];
      EntriesAppend(q, f);
    }

    static lemma EntriesAppend(q: seq<FieldNode>, f: FieldNode)
      ensures EntriesOf(q + [f]) == EntriesOf(q) + [f.entry]
    {
      assert (q + [f])[..|q|] == q;
    }

    /** DetachMMessageField. */
    method Detach(f: FieldNode, ghost k: nat)
      requires Linked() && k < |nodes| && nodes[k] == f
      modifies `firstField, `lastField, `numFields, `nodes, nodes`prevField, nodes`nextField
      ensures Linked() && nodes == Drop(old(nodes), k)
      ensures f.prevField == null && f.nextField == null
    {
      hide Drop, EntriesOf, Chain, NoDup;
      Relink(f, k);
      if f == lastField {
        lastField := f.prevField;
      }
      if f == firstField {
        firstField := f.nextField;
      }
      numFields := numFields - 1;
      nodes := Drop(nodes, k);
      assert f !in nodes;
      f.prevField, f.nextField := null, null;
    }

    /** Its first half: the neighbours of f point past it. */
    method Relink(f: FieldNode, ghost k: nat)
      requires Linked() && k < |nodes| && nodes[k] == f
      modifies nodes`prevField, nodes`nextField
      ensures Chain(Drop(nodes, k)) && NoDup(Drop(nodes, k)) && f !in Drop(nodes, k)
      ensures (f == firstField <==> k == 0) && (f == lastField <==> k == |nodes| - 1)
      ensures |nodes| > 1 ==>
        var r := Drop(nodes, k);
        && r[0].prevField == null && r[|r| - 1].nextField == null
        && (k == 0 ==> f.nextField == r[0]) && (k == |r| ==> f.prevField == r[|r| - 1])
        && (k > 0 ==> firstField == r[0]) && (k < |r| ==> lastField == r[|r| - 1])
      ensures |nodes| == 1 ==> f.prevField == null && f.nextField == null
    {
      Neighbours(nodes, k);
      if f.prevField != null {
        f.prevField.nextField := f.nextField;
      }
      if f.nextField != null {
        f.nextField.prevField := f.prevField;
      }
      JoinedLinks(nodes, k);
      hide Drop;
    }

    static lemma Neighbours(q: seq<FieldNode>, k: nat)
      requires k < |q| && Chain(q)
      ensures k > 0 ==> q[k - 1].nextField == q[k] && q[k].prevField == q[k - 1]
      ensures k + 1 < |q| ==> q[k].nextField == q[k + 1] && q[k + 1].prevField == q[k]
    {
    }

    /** With the neighbours of q[k] joined, the other nodes form a chain. */
    static lemma JoinedLinks(q: seq<FieldNode>, k: nat)
      requires k < |q| && NoDup(q)
      requires forall i, j {:trigger q[i], q[j]} :: 0 <= i && j == i + 1 < |q| && i != k && j != k ==>
        q[i].nextField == q[j] && q[j].prevField == q[i]
      requires 0 < k < |q| - 1 ==> q[k - 1].nextField == q[k + 1] && q[k + 1].prevField == q[k - 1]
      ensures Chain(Drop(q, k)) && NoDup(Drop(q, k)) && q[k] !in Drop(q, k)
    {
      hide Drop;
      var r := Drop(q, k);
      forall i, j {:trigger r[i], r[j]} | 0 <= i && j == i + 1 < |r|
        ensures r[i].nextField == r[j] && r[j].prevField == r[i]
      {
        assert r[i] == q[if i < k then i else i + 1] && r[j] == q[if j < k then j else j + 1];
      }
    }

    static lemma EntriesDrop(q: seq<FieldNode>, k: nat)
      requires k < |q|
      ensures EntriesOf(Drop(q, k)) == Drop(EntriesOf(q), k)
    {
      hide EntriesOf, Drop;
      var es, r := Drop(EntriesOf(q), k), Drop(q, k);
      assert |EntriesOf(r)| == |es|;
    }

    /** LookupMMessageField: from the tail, by name; a field of another type counts as absent. */
    method Lookup(name: seq<Byte>, tc: U32) returns (f: FieldNode?, ghost k: int)
      requires Linked() && Unique(Entries())
      ensures f != null ==> IsIndex(Entries(), name, k) && f == nodes[k] && (tc == B_ANY_TYPE || tc == f.entry.typeCode)
      ensures f == null ==> forall i :: IsIndex(Entries(), name, i) ==> tc != B_ANY_TYPE && tc != Entries()[i].typeCode
      ensures f == null && tc == B_ANY_TYPE ==> !Has(Entries(), name)
    {
      f, k := lastField, numFields - 1;
      while f != null
        invariant -1 <= k < |nodes| && f == (if k < 0 then null else nodes[k])
        invariant forall i :: k < i < |nodes| ==> nodes[i].entry.name != name
        decreases k
      {
        if f.entry.name == name {
          if tc != B_ANY_TYPE && tc != f.entry.typeCode {
            f := null;
          }
          return;
        }
        assert k > 0 ==> nodes[k - 1].nextField == nodes[k];
        f, k := f.prevField, k - 1;
      }
    }

    /** FreeMMessageField: everything the field still points to is freed. */
    ghost method Free(f: FieldNode)
      modifies `freed
      ensures freed == old(freed) + Pointers(f.entry.slots)
    {
      freed := freed + Pointers(f.entry.slots);
    }

    /** MMRemoveField. */
    method Remove(name: seq<Byte>) returns (ok: bool, ghost k: int)
      requires Valid()
      modifies this, nodes`prevField, nodes`nextField
      ensures Valid()
      ensures !ok ==> !Has(old(Entries()), name) && Entries() == old(Entries()) && freed == old(freed)
      ensures ok ==> IsIndex(old(Entries()), name, k) && Entries() == Drop(old(Entries()), k)
      ensures ok ==> freed == old(freed) + Pointers(old(Entries())[k].slots)
      ensures Owned(Entries()) + freed == old(Owned(Entries()) + freed)
    {
      hide EntriesOf, Chain, NoDup, Pointers, Owned, Drop;
      var f;
      f, k := Lookup(name, B_ANY_TYPE);
      if f == null {
        return false, k;
      }
      RemoveNode(f, k);
      ok := true;
    }

    /** Detach and free a field. */
    method RemoveNode(f: FieldNode, ghost k: nat)
      requires Linked() && k < |nodes| && nodes[k] == f
      modifies this, nodes`prevField, nodes`nextField
      ensures Linked() && nodes == Drop(old(nodes), k) && Entries() == Drop(old(Entries()), k)
      ensures freed == old(freed) + Pointers(f.entry.slots)
      ensures Owned(Entries()) + freed == old(Owned(Entries()) + freed)
      ensures old(Unique(Entries())) ==> Unique(Entries())
    {
      hide EntriesOf, Chain, NoDup, Pointers, Owned, Drop;
      ghost var es := Entries();
      EntriesDrop(nodes, k);
      Detach(f, k);
      Free(f);
      OwnedDrop(es, k);
    }

    /** The Put functions. `blank` is the item a new array is filled with: zero bytes or NULL. */
    method Put(retain: bool, tc: U32, name: seq<Byte>, n: nat, blank: Slot) returns (f: FieldNode?, ghost k: int)
      requires Valid() && (blank.Ptr? ==> blank.item == null)
      modifies this, nodes
      ensures Valid() && (f == null <==> n == 0)
      ensures n == 0 ==> Entries() == old(Entries()) && freed == old(freed)
      ensures n > 0 ==> nodes != [] && f == nodes[|nodes| - 1] && fresh(f)
      ensures n > 0 && !Has(old(Entries()), name) ==>
        Entries() == old(Entries()) + [Entry(name, tc, Blanks(n, blank))] && freed == old(freed)
      ensures n > 0 && Has(old(Entries()), name) ==>
        && IsIndex(old(Entries()), name, k)
        && var was := old(Entries())[k];
           var c := Common(retain, tc, was, n);
        && Entries() == Drop(old(Entries()), k) + [Entry(name, tc, was.slots[..c] + Blanks(n - c, blank))]
        && freed == old(freed) + Pointers(was.slots[c..])
      ensures n > 0 && Has(old(Entries()), name) && k >= 0 && k < |old(Entries())| ==>
        var was := old(Entries())[k];
        Entries() != [] && Keeps(Entries()[|Entries()| - 1].slots, was.slots, retain && was.typeCode == tc, n, blank)
      ensures Owned(Entries()) + freed == old(Owned(Entries()) + freed)
    {
      hide EntriesOf, Chain, NoDup, Pointers, Owned, Drop, Blanks, Emptied, Unique, Common, Linked, Single;
      if n == 0 {
        return null, -1;
      }
      f := new FieldNode(Entry(name, tc, Blanks(n, blank)));
      var oldField;
      oldField, k := Lookup(name, B_ANY_TYPE);
      if oldField != null {
        var c := Common(retain, tc, oldField.entry, n);
        ghost var was := oldField.entry;
        TakeOver(f, oldField, k, c, blank);
        KeepsCommon(retain, tc, was, n, blank);
      } else {
        AddNew(f, blank);
      }
    }

    method AddNew(f: FieldNode, blank: Slot)
      requires Valid() && f !in nodes && f.nextField == null && !Has(Entries(), f.entry.name)
      requires f.entry.slots == Blanks(|f.entry.slots|, blank) && (blank.Ptr? ==> blank.item == null)
      modifies `firstField, `lastField, `numFields, `nodes, nodes`nextField, f`prevField
      ensures Valid() && nodes == old(nodes) + [f] && Entries() == old(Entries()) + [f.entry]
      ensures Owned(Entries()) + freed == old(Owned(Entries()) + freed)
    {
      hide EntriesOf, Chain, NoDup, Pointers, Owned, Drop, Blanks, Emptied, Unique, Has;
      AppendBlank(Entries(), f.entry, |f.entry.slots|, blank);
      AppendUnique(Entries(), f.entry);
      Add(f);
    }

    /** Put's work on a field that is already there. */
    method TakeOver(f: FieldNode, oldField: FieldNode, ghost k: nat, c: nat, blank: Slot)
      requires Valid() && (blank.Ptr? ==> blank.item == null)
      requires k < |nodes| && nodes[k] == oldField && f !in nodes && f.nextField == null && f.entry.name == oldField.entry.name
      requires c <= |oldField.entry.slots| && c <= |f.entry.slots| && f.entry.slots == Blanks(|f.entry.slots|, blank)
      modifies this, nodes, f`entry, f`prevField
      ensures Valid() && nodes == Drop(old(nodes), k) + [f]
      ensures var es := old(Entries());
        && Entries() == Drop(es, k) + [f.entry]
        && f.entry == old(f.entry).(slots := es[k].slots[..c] + Blanks(|old(f.entry.slots)| - c, blank))
        && freed == old(freed) + Pointers(es[k].slots[c..])
        && Owned(Entries()) + freed == Owned(es) + old(freed)
    {
      hide EntriesOf, Chain, NoDup, Pointers, Owned, Drop, Blanks, Emptied, Unique, Linked;
      Replace(f, oldField, k, c, blank);
      Add(f);
    }

    method Replace(f: FieldNode, oldField: FieldNode, ghost k: nat, c: nat, blank: Slot)
      requires Valid() && (blank.Ptr? ==> blank.item == null)
      requires k < |nodes| && nodes[k] == oldField && f !in nodes && f.entry.name == oldField.entry.name
      requires c <= |oldField.entry.slots| && c <= |f.entry.slots| && f.entry.slots == Blanks(|f.entry.slots|, blank)
      modifies this, nodes, f`entry
      ensures Linked() && nodes == Drop(old(nodes), k) && f !in nodes
      ensures var es := old(Entries());
        && Entries() == Drop(es, k)
        && f.entry == old(f.entry).(slots := es[k].slots[..c] + Blanks(|old(f.entry.slots)| - c, blank))
        && freed == old(freed) + Pointers(es[k].slots[c..])
        && Owned(Entries() + [f.entry]) + freed == Owned(es) + old(freed)
      ensures Unique(Entries() + [f.entry])
    {
      hide EntriesOf, Chain, Pointers, Owned, Drop, Blanks, Emptied, Unique;
      ghost var es, n := Entries(), |f.entry.slots|;
      MoveItems(oldField, f, k, c, blank);
      ghost var moved := Entries();
      SameDrop(es, moved, k);
      PutAccounts(es, k, c, f.entry, n - c, blank);
      PutUnique(es, k, f.entry);
      RemoveNode(oldField, k);
    }

    /** The loop of Put that carries the first c items over, leaving NULL behind. */
    method MoveItems(from: FieldNode, to: FieldNode, ghost k: nat, c: nat, blank: Slot)
      requires k < |nodes| && nodes[k] == from && to !in nodes
      requires c <= |from.entry.slots| && c <= |to.entry.slots| && to.entry.slots == Blanks(|to.entry.slots|, blank)
      modifies from`entry, to`entry
      ensures from.entry == old(from.entry).(slots := Emptied(old(from.entry.slots)[..c]) + old(from.entry.slots)[c..])
      ensures to.entry == old(to.entry).(slots := old(from.entry.slots)[..c] + Blanks(|old(to.entry.slots)| - c, blank))
    {
      var i := 0;
      ghost var s, n := from.entry.slots, |to.entry.slots|;
      MovedNone(s, n, blank);
      hide Moved, Emptied, Blanks;
      while i < c
        invariant i <= c && |from.entry.slots| == |s| && |to.entry.slots| == n
        invariant Moved(s, i, n, blank, from.entry.slots, to.entry.slots)
        invariant from.entry == old(from.entry).(slots := from.entry.slots)
        invariant to.entry == old(to.entry).(slots := to.entry.slots)
      {
        MovedStep(s, i, n, blank, from.entry.slots, to.entry.slots);
        MoveItem(from, to, i);
        i := i + 1;
      }
      MovedMeans(s, c, n, blank, from.entry.slots, to.entry.slots);
    }

    method MoveItem(from: FieldNode, to: FieldNode, i: nat)
      requires from != to && i < |from.entry.slots| && i < |to.entry.slots|
      modifies from`entry, to`entry
      ensures to.entry == old(to.entry).(slots := old(to.entry.slots)[i := old(from.entry.slots)[i]])
      ensures var s := old(from.entry.slots);
        from.entry == old(from.entry).(slots := if s[i].Ptr? then s[i := Ptr(null)] else s)
    {
      var item := from.entry.slots[i];
      to.entry := to.entry.(slots := to.entry.slots[i := item]);
      if item.Ptr? {
        from.entry := from.entry.(slots := from.entry.slots[i := Ptr(null)]);
      }
    }

    /** The node a reallocation returned takes the place of the old one. */
    method MoveNode(f: FieldNode, ghost k: nat) returns (g: FieldNode)
      requires Linked() && k < |nodes| && nodes[k] == f
      modifies `firstField, `lastField, `nodes, nodes`prevField, nodes`nextField
      ensures fresh(g) && Linked() && nodes == old(nodes)[k := g] && Entries() == old(Entries())
    {
      hide EntriesOf, Chain, NoDup;
      g := new FieldNode(f.entry);
      g.prevField, g.nextField := f.prevField, f.nextField;
      TakePlace(f, g, k);
    }

    method TakePlace(f: FieldNode, g: FieldNode, ghost k: nat)
      requires Linked() && k < |nodes| && nodes[k] == f && g !in nodes
      requires g.prevField == f.prevField && g.nextField == f.nextField
      modifies `firstField, `lastField, `nodes, nodes`prevField, nodes`nextField
      ensures Linked() && nodes == old(nodes)[k := g]
    {
      hide Chain, NoDup;
      RelinkTo(f, g, k);
      if firstField == f {
        firstField := g;
      }
      if lastField == f {
        lastField := g;
      }
      nodes := nodes[k := g];
    }

    method RelinkTo(f: FieldNode, g: FieldNode, ghost k: nat)
      requires Linked() && k < |nodes| && nodes[k] == f && g !in nodes
      requires g.prevField == f.prevField && g.nextField == f.nextField
      modifies nodes`prevField, nodes`nextField
      ensures Chain(nodes[k := g]) && NoDup(nodes[k := g])
      ensures (f == firstField <==> k == 0) && (f == lastField <==> k == |nodes| - 1)
      ensures nodes[k := g][0].prevField == null && nodes[k := g][|nodes| - 1].nextField == null
    {
      Neighbours(nodes, k);
      if g.prevField != null {
        g.prevField.nextField := g;
      }
      if g.nextField != null {
        g.nextField.prevField := g;
      }
      MovedChain(nodes, k, g);
      hide Chain;
    }

    static lemma MovedChain(q: seq<FieldNode>, k: nat, g: FieldNode)
      requires k < |q| && g !in q && NoDup(q)
      requires forall i, j {:trigger q[i], q[j]} :: 0 <= i && j == i + 1 < |q| && i != k && j != k ==>
        q[i].nextField == q[j] && q[j].prevField == q[i]
      requires k > 0 ==> q[k - 1].nextField == g && g.prevField == q[k - 1]
      requires k + 1 < |q| ==> g.nextField == q[k + 1] && q[k + 1].prevField == g
      ensures Chain(q[k := g]) && NoDup(q[k := g])
    {
    }

    method SetName(g: FieldNode, ghost k: nat, name: seq<Byte>)
      requires Linked() && k < |nodes| && nodes[k] == g
      modifies g`entry
      ensures Entries() == old(Entries())[k := old(Entries())[k].(name := name)]
    {
      hide EntriesOf;
      g.entry := g.entry.(name := name);
    }

    /** MMRenameField. Growing or shrinking the node may move it. */
    method Rename(oldName: seq<Byte>, newName: seq<Byte>) returns (ok: bool, ghost k: int)
      requires Valid()
      modifies this, nodes
      ensures Valid()
      ensures ok <==> oldName == newName || Has(old(Entries()), oldName)
      ensures !ok || oldName == newName ==> Entries() == old(Entries()) && freed == old(freed)
      ensures ok && oldName != newName ==>
        IsIndex(old(Entries()), oldName, k) && Renamed(old(Entries()), Entries(), k, newName)
      ensures Owned(Entries()) + freed == old(Owned(Entries()) + freed)
    {
      hide EntriesOf, Chain, NoDup, Pointers, Owned, Drop, Unique, Linked, Single;
      if oldName == newName {
        return true, -1;
      }
      ghost var es := Entries();
      var f;
      f, k := Lookup(oldName, B_ANY_TYPE);
      if f == null {
        return false, k;
      }
      var overwrite, j := Lookup(newName, B_ANY_TYPE);
      SetNameMoving(f, k, newName);
      assert forall n :: n in nodes ==> n in old(nodes) || fresh(n);
      if overwrite != null {
        RemoveNode(overwrite, j);
        OverwriteUnique(es, k, j, newName);
        OnlyIndex(es, newName, j);
      } else {
        FreshNameUnique(es, k, newName);
      }
      ok := true;
    }

    method SetNameMoving(f: FieldNode, ghost k: nat, name: seq<Byte>)
      requires Linked() && k < |nodes| && nodes[k] == f
      modifies `firstField, `lastField, `nodes, nodes
      ensures Linked() && |nodes| == |old(nodes)| && forall i :: 0 <= i < |nodes| && i != k ==> nodes[i] == old(nodes)[i]
      ensures nodes[k] == f || fresh(nodes[k])
      ensures Entries() == old(Entries())[k := old(Entries())[k].(name := name)]
      ensures Owned(Entries()) == old(Owned(Entries()))
    {
      hide EntriesOf, Chain, NoDup, Owned, Linked;
      RenameAccounts(Entries(), k, name);
      var g := f;
      if * {
        g := MoveNode(f, k);
      }
      SetName(g, k, name);
    }

    /** MMClearMessage. */
    method Clear()
      requires Valid()
      modifies `firstField, `lastField, `numFields, `nodes, `freed
      ensures Valid() && Entries() == [] && freed == old(freed) + old(Owned(Entries()))
    {
      hide EntriesOf, Pointers, Owned, Chain, NoDup, Unique;
      FreeAll();
      firstField, lastField, numFields, nodes := null, null, 0, [];
      NothingLeft();
      hide EntriesOf;
      assert Owned(Entries()) + freed == old(Owned(Entries()) + freed);
    }

    method FreeAll()
      requires Linked()
      modifies `freed
      ensures freed == old(freed) + Owned(Entries())
    {
      hide EntriesOf, Pointers, Owned, Chain, NoDup;
      ghost var es, i := Entries(), 0;
      OwnedSteps(es, 0);
      var field := firstField;
      while field != null
        invariant 0 <= i <= |nodes| && field == (if i == |nodes| then null else nodes[i])
        invariant freed == old(freed) + Owned(es[..i])
        decreases |nodes| - i
      {
        Neighbours(nodes, i);
        OwnedSteps(es, i);
        var next := field.nextField;
        Free(field);
        field, i := next, i + 1;
      }
      OwnedSteps(es, i);
    }

    lemma NothingLeft()
      requires nodes == []
      ensures Entries() == [] && Unique(Entries()) && Chain(nodes) && NoDup(nodes) && Owned(Entries()) == multiset{}
    {
    }

    /** A caller fills a slot of the array a Put function returned with an object no one owns. */
    method Store(f: FieldNode, ghost k: nat, i: nat, o: object)
      requires Valid() && k < |nodes| && nodes[k] == f && i < |f.entry.slots| && f.entry.slots[i] == Ptr(null)
      requires o !in Owned(Entries()) + freed
      modifies f`entry
      ensures Valid()
      ensures Entries() == old(Entries())[k := f.entry] && f.entry == old(f.entry).(slots := old(f.entry.slots)[i := Ptr(o)])
      ensures Owned(Entries()) == old(Owned(Entries())) + multiset{o}
    {
      hide EntriesOf, Pointers, Owned, Chain;
      ghost var es := Entries();
      f.entry := f.entry.(slots := f.entry.slots[i := Ptr(o)]);
      OwnedStored(es, k, i, o);
      assert Entries() == es[k := es[k].(slots := es[k].slots[i := Ptr(o)])];
      assert Unique(Entries());
      assert Owned(Entries()) + freed == Owned(es) + freed + multiset{o};
    }
  }

  lemma RenameAccounts(es: seq<Entry>, k: nat, name: seq<Byte>)
    requires k < |es|
    ensures Owned(es[k := es[k].(name := name)]) == Owned(es)
  {
    hide Owned, Pointers, Drop;
    var now := es[k := es[k].(name := name)];
    SameDrop(es, now, k);
    OwnedDrop(es, k);
    OwnedDrop(now, k);
  }

  lemma OverwriteUnique(es: seq<Entry>, k: nat, j: nat, name: seq<Byte>)
    requires Unique(es) && k < |es| && j < |es| && k != j && es[j].name == name
    ensures Unique(Drop(es[k := es[k].(name := name)], j))
  {
    hide Drop;
  }

  lemma OnlyIndex(es: seq<Entry>, name: seq<Byte>, j: nat)
    requires Unique(es) && IsIndex(es, name, j)
    ensures forall i :: IsIndex(es, name, i) ==> i == j
  {
  }

  lemma FreshNameUnique(es: seq<Entry>, k: nat, name: seq<Byte>)
    requires Unique(es) && k < |es| && !Has(es, name)
    ensures Unique(es[k := es[k].(name := name)])
  {
    forall i | 0 <= i < |es|
      ensures es[i].name != name
    {
      assert IsIndex(es, es[i].name, i);
    }
  }

  lemma {:induction false} PointerStored(slots: seq<Slot>, i: nat, o: object)
    requires i < |slots| && slots[i] == Ptr(null)
    ensures Pointers(slots[i := Ptr(o)]) == Pointers(slots) + multiset{o}
  {
    var l, r := slots[..i], slots[i + 1..];
    assert slots == l + ([Ptr(null)] + r) && slots[i := Ptr(o)] == l + ([Ptr(o)] + r);
    PointersConcat(l, [Ptr(null)] + r);
    PointersConcat(l, [Ptr(o)] + r);
    PointersConcat([Ptr(null)], r);
    PointersConcat([Ptr(o)], r);
  }

  lemma OwnedStored(es: seq<Entry>, k: nat, i: nat, o: object)
    requires k < |es| && i < |es[k].slots| && es[k].slots[i] == Ptr(null)
    ensures Owned(es[k := es[k].(slots := es[k].slots[i := Ptr(o)])]) == Owned(es) + multiset{o}
  {
    hide Owned, Pointers, Drop;
    var now := es[k := es[k].(slots := es[k].slots[i := Ptr(o)])];
    SameDrop(es, now, k);
    OwnedDrop(es, k);
    OwnedDrop(now, k);
    PointerStored(es[k].slots, i, o);
  }

  /** The renamed list: the field takes the new name, and another that bore it goes. */
  ghost predicate Renamed(was: seq<Entry>, now: seq<Entry>, k: nat, name: seq<Byte>) {
    && k < |was|
    && var es := was[k := was[k].(name := name)];
    && (!Has(was, name) ==> now == es)
    && (forall j: nat :: IsIndex(was, name, j) ==> now == Drop(es, j))
  }
}
