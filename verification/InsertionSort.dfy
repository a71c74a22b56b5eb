/** adns__isort and the orders the resolver sorts answers by. */
module InsertionSort {

  /** An order in which any two elements can be compared; ties are allowed. */
  ghost predicate TotalPreorder<T(!new)>(le: (T, T) -> bool) {
    (forall a, b :: le(a, b) || le(b, a)) && (forall a, b, c :: le(a, b) && le(b, c) ==> le(a, c))
  }

  /** needswap never keeps a wrong order and never breaks a strict one; on ties it may say anything. */
  ghost predicate Respects<T(!new)>(needswap: (T, T) -> bool, le: (T, T) -> bool) {
    forall a, b :: (!le(a, b) ==> needswap(a, b)) && (!le(b, a) ==> !needswap(a, b))
  }

  /** needswap tells exactly the wrong orders. */
  ghost predicate Decides<T(!new)>(needswap: (T, T) -> bool, le: (T, T) -> bool) {
    forall a, b :: needswap(a, b) <==> !le(a, b)
  }

  ghost predicate SortedBy<T>(s: seq<T>, le: (T, T) -> bool) {
    forall i, j :: 0 <= i < j < |s| ==> le(s[i], s[j])
  }

  // ---------------------------------------------------------------- what the loops compute

  /** x put behind the last element of s that need not come after it. */
  function Insert<T>(s: seq<T>, x: T, needswap: (T, T) -> bool): (r: seq<T>)
    ensures |r| == |s| + 1
  {
    if s != [] && needswap(s[|s| - 1], x) then Insert(s[..|s| - 1], x, needswap) + [s[|s| - 1]]
    else s + [x]
  }

  function Sorted<T>(s: seq<T>, needswap: (T, T) -> bool): (r: seq<T>)
    ensures |r| == |s|
  {
    if s == [] then [] else Insert(Sorted(s[..|s| - 1], needswap), s[|s| - 1], needswap)
  }

  // ---------------------------------------------------------------- permutation, order, stability

  lemma {:induction false} InsertKeeps<T>(s: seq<T>, x: T, needswap: (T, T) -> bool)
    ensures multiset(Insert(s, x, needswap)) == multiset(s) + multiset{x}
  {
    if s != [] && needswap(s[|s| - 1], x) {
      InsertKeeps(s[..|s| - 1], x, needswap);
      assert s == s[..|s| - 1] + [s[|s| - 1]];
    }
  }

  lemma {:induction false} SortedIsPermutation<T>(s: seq<T>, needswap: (T, T) -> bool)
    ensures multiset(Sorted(s, needswap)) == multiset(s)
  {
    hide *;
    if s == [] {
      SortedUnfold(s, needswap);
    } else {
      var init, last := s[..|s| - 1], s[|s| - 1];
      SortedUnfold(s, needswap);
      SortedIsPermutation(init, needswap);
      InsertKeeps(Sorted(init, needswap), last, needswap);
      assert s == init + [last];
    }
  }

  lemma SortedUnfold<T>(s: seq<T>, needswap: (T, T) -> bool)
    ensures Sorted(s, needswap) == if s == [] then [] else Insert(Sorted(s[..|s| - 1], needswap), s[|s| - 1], needswap)
  {
  }

  lemma {:induction false} InsertSorts<T(!new)>(s: seq<T>, x: T, needswap: (T, T) -> bool, le: (T, T) -> bool)
    requires TotalPreorder(le) && Respects(needswap, le) && SortedBy(s, le)
    ensures SortedBy(Insert(s, x, needswap), le)
    ensures forall y :: y in Insert(s, x, needswap) ==> y == x || y in s
  {
    if s != [] && needswap(s[|s| - 1], x) {
      InsertSorts(s[..|s| - 1], x, needswap, le);
      var r := Insert(s[..|s| - 1], x, needswap);
      forall i | 0 <= i < |r|
        ensures le(r[i], s[|s| - 1])
      {
        assert r[i] in r;
      }
    } else if s != [] {
      forall i | 0 <= i < |s|
        ensures le(s[i], x)
      {
        assert le(s[i], s[|s| - 1]);
      }
    }
  }

  lemma {:induction false} SortedIsSorted<T(!new)>(s: seq<T>, needswap: (T, T) -> bool, le: (T, T) -> bool)
    requires TotalPreorder(le) && Respects(needswap, le)
    ensures SortedBy(Sorted(s, needswap), le)
  {
    if s != [] {
      SortedIsSorted(s[..|s| - 1], needswap, le);
      InsertSorts(Sorted(s[..|s| - 1], needswap), s[|s| - 1], needswap, le);
    }
  }

  /** The elements of s that tie with z, in the order they have in s. */
  function Ties<T>(s: seq<T>, z: T, le: (T, T) -> bool): seq<T> {
    if s == [] then []
    else
      var x := s[|s| - 1];
      Ties(s[..|s| - 1], z, le) + (if le(x, z) && le(z, x) then [x] else [])
  }

  lemma TiesSnoc<T>(s: seq<T>, x: T, z: T, le: (T, T) -> bool)
    ensures Ties(s + [x], z, le) == Ties(s, z, le) + (if le(x, z) && le(z, x) then [x] else [])
  {
    assert (s + [x])[..|s|] == s;
  }

  lemma {:induction false} InsertIsStable<T(!new)>(s: seq<T>, x: T, z: T, needswap: (T, T) -> bool, le: (T, T) -> bool)
    requires TotalPreorder(le) && Decides(needswap, le)
    ensures Ties(Insert(s, x, needswap), z, le) == Ties(s + [x], z, le)
  {
    if s != [] && needswap(s[|s| - 1], x) {
      var init, last := s[..|s| - 1], s[|s| - 1];
      InsertIsStable(init, x, z, needswap, le);
      assert s == init + [last];
      TiesSnoc(Insert(init, x, needswap), last, z, le);
      TiesSnoc(init, x, z, le);
      TiesSnoc(init, last, z, le);
      TiesSnoc(s, x, z, le);
    }
  }

  /** Elements that tie keep their order. */
  lemma {:induction false} SortedIsStable<T(!new)>(s: seq<T>, z: T, needswap: (T, T) -> bool, le: (T, T) -> bool)
    requires TotalPreorder(le) && Decides(needswap, le)
    ensures Ties(Sorted(s, needswap), z, le) == Ties(s, z, le)
  {
    if s != [] {
      var init, last := s[..|s| - 1], s[|s| - 1];
      SortedIsStable(init, z, needswap, le);
      InsertIsStable(Sorted(init, needswap), last, z, needswap, le);
      TiesSnoc(Sorted(init, needswap), last, z, le);
      TiesSnoc(init, last, z, le);
      assert s == init + [last];
    }
  }

  // ---------------------------------------------------------------- adns__isort

  method Isort<T>(a: array<T>, needswap: (T, T) -> bool)
    modifies a
    ensures a[..] == Sorted(old(a[..]), needswap)
  {
    hide Insert, Sorted;
    ghost var was := a[..];
    var i := 0;
    SortedUnfold(was[..0], needswap);
    while i < a.Length
      invariant i <= a.Length
      invariant a[..i] == Sorted(was[..i], needswap) && a[i..] == was[i..]
    {
      ghost var done := a[..i];
      var x := a[i];
      var place := i;
      InsertWhole(done, x, needswap, i);
      while place > 0 && needswap(a[place - 1], x)
        invariant place <= i
        invariant Insert(done, x, needswap) == Insert(done[..place], x, needswap) + done[place..]
        modifies {}
      {
        assert a[place - 1] == done[place - 1];
        InsertPass(done, x, needswap, place);
        place := place - 1;
      }
      assert place > 0 ==> a[place - 1] == done[place - 1];
      InsertStop(done, x, needswap, place);
      assert a[..place] == done[..place] && a[place..i] == done[place..];
      assert a[i + 1..] == a[i..][1..];
      Place(a, place, i);
      assert a[..i + 1] == done[..place] + [x] + done[place..];
      SortedUnfold(was[..i + 1], needswap);
      assert was[..i + 1][..i] == was[..i];
      assert a[i + 1..] == was[i..][1..] == was[i + 1..];
      i := i + 1;
    }
    assert was[..i] == was;
  }

  lemma InsertWhole<T>(s: seq<T>, x: T, needswap: (T, T) -> bool, k: nat)
    requires k == |s|
    ensures Insert(s, x, needswap) == Insert(s[..k], x, needswap) + s[k..]
  {
    hide Insert;
    assert s[..k] == s && s[k..] == [];
  }

  lemma InsertPass<T>(s: seq<T>, x: T, needswap: (T, T) -> bool, k: nat)
    requires 0 < k <= |s| && needswap(s[k - 1], x)
    ensures Insert(s[..k], x, needswap) + s[k..] == Insert(s[..k - 1], x, needswap) + s[k - 1..]
  {
    hide Insert;
    InsertUnfold(s[..k], x, needswap);
    assert s[..k][..k - 1] == s[..k - 1];
    var front, e, back := Insert(s[..k - 1], x, needswap), s[k - 1], s[k..];
    assert s[k - 1..] == [e] + back;
    assert front + [e] + back == front + ([e] + back);
  }

  lemma InsertStop<T>(s: seq<T>, x: T, needswap: (T, T) -> bool, k: nat)
    requires k <= |s| && (k == 0 || !needswap(s[k - 1], x))
    ensures Insert(s[..k], x, needswap) == s[..k] + [x]
  {
    hide Insert;
    InsertUnfold(s[..k], x, needswap);
  }

  lemma InsertUnfold<T>(s: seq<T>, x: T, needswap: (T, T) -> bool)
    ensures Insert(s, x, needswap) ==
      if s != [] && needswap(s[|s| - 1], x) then Insert(s[..|s| - 1], x, needswap) + [s[|s| - 1]] else s + [x]
  {
  }

  /** The copy out, memmove and copy in. */
  method Place<T>(a: array<T>, place: nat, i: nat)
    requires place <= i < a.Length
    modifies a
    ensures a[..i + 1] == old(a[..place] + [a[i]] + a[place..i]) && a[i + 1..] == old(a[i + 1..])
  {
    if place != i {
      var temp := a[i];
      MoveUp(a, place, i);
      a[place] := temp;
    }
  }

  /** The memmove: elements place .. i - 1 move one up. */
  method MoveUp<T>(a: array<T>, place: nat, i: nat)
    requires place < i < a.Length
    modifies a
    ensures a[..place] == old(a[..place]) && a[place + 1..i + 1] == old(a[place..i]) && a[i + 1..] == old(a[i + 1..])
  {
    var k := i;
    while k > place
      invariant place <= k <= i
      invariant forall j :: 0 <= j < k ==> a[j] == old(a[j])
      invariant forall j :: k < j <= i ==> a[j] == old(a[j - 1])
      invariant forall j :: i < j < a.Length ==> a[j] == old(a[j])
    {
      a[k] := a[k - 1];
      k := k - 1;
    }
  }

  // ---------------------------------------------------------------- the comparers

  datatype SortEntry = SortEntry(base: bv32, mask: bv32)

  predicate Covers(e: SortEntry, ad: bv32) {
    ad & e.mask == e.base
  }

  /** An entry whose base lies within its mask covers the addresses that agree with the base in the
      mask's bits; 192.0.2.0/24 covers 192.0.2.7 and not 192.0.3.7. */
  lemma CoversNetwork(base: bv32, mask: bv32, ad: bv32)
    ensures base & mask == base ==> (Covers(SortEntry(base, mask), ad) <==> ad & mask == base & mask)
    ensures Covers(SortEntry(0xC000_0200, 0xFFFF_FF00), 0xC000_0207)
    ensures !Covers(SortEntry(0xC000_0200, 0xFFFF_FF00), 0xC000_0307)
  {
  }

  /** search_sortlist: the index of the first entry that covers the address. */
  function Rank(sortlist: seq<SortEntry>, ad: bv32): (i: nat)
    ensures i <= |sortlist|
    ensures forall j :: 0 <= j < i ==> !Covers(sortlist[j], ad)
    ensures i < |sortlist| ==> Covers(sortlist[i], ad)
  {
    if sortlist == [] || Covers(sortlist[0], ad) then 0
    else 1 + Rank(sortlist[1..], ad)
  }

  /** dip_inaddr. */
  predicate AddressAfter(sortlist: seq<SortEntry>, a: bv32, b: bv32) {
    |sortlist| > 0 && Rank(sortlist, b) < Rank(sortlist, a)
  }

  /** An NS or MX record with its host's addresses: status 0 is success, and then there is a first
      address. NS records have no preference of their own. */
  datatype HostRecord = HostRecord(preference: nat, status: nat, address: bv32)

  /** dip_hostaddr. */
  predicate HostAfter(sortlist: seq<SortEntry>, a: HostRecord, b: HostRecord) {
    if a.status != b.status then a.status != 0
    else a.status == 0 && AddressAfter(sortlist, a.address, b.address)
  }

  /** di_mx; with equal preferences it is di_hostaddr. */
  predicate MxAfter(sortlist: seq<SortEntry>, a: HostRecord, b: HostRecord) {
    if a.preference != b.preference then a.preference > b.preference
    else HostAfter(sortlist, a, b)
  }

  /** By preference, then successes before failures, then successes by sortlist. */
  predicate MxLe(sortlist: seq<SortEntry>, a: HostRecord, b: HostRecord) {
    if a.preference != b.preference then a.preference < b.preference
    else if (a.status == 0) != (b.status == 0) then a.status == 0
    else a.status == 0 ==> Rank(sortlist, a.address) <= Rank(sortlist, b.address)
  }

  /** Two different failures each claim to come after the other. */
  lemma HostAfterNotAntisymmetric(sortlist: seq<SortEntry>, a: HostRecord, b: HostRecord)
    ensures HostAfter(sortlist, a, b) && HostAfter(sortlist, b, a)
       <==> a.status != 0 && b.status != 0 && a.status != b.status
  {
  }

  /** All the same, sorted records have all failures behind all successes of their preference, and
      the successes in sortlist order. */
  lemma HostRecordsSorted(s: seq<HostRecord>, sortlist: seq<SortEntry>)
    ensures var after := (a, b) => MxAfter(sortlist, a, b);
      var r := Sorted(s, after);
      && multiset(r) == multiset(s)
      && forall i, j :: 0 <= i < j < |r| ==> MxLe(sortlist, r[i], r[j])
  {
    var after := (a, b) => MxAfter(sortlist, a, b);
    var le := (a, b) => MxLe(sortlist, a, b);
    forall a, b
      ensures (!le(a, b) ==> after(a, b)) && (!le(b, a) ==> !after(a, b))
    {
      EmptySortlist(sortlist, a.address, b.address);
    }
    SortedIsSorted(s, after, le);
    SortedIsPermutation(s, after);
    assert SortedBy(Sorted(s, after), le);
  }

  lemma EmptySortlist(sortlist: seq<SortEntry>, a: bv32, b: bv32)
    ensures AddressAfter(sortlist, a, b) <==> Rank(sortlist, b) < Rank(sortlist, a)
  {
  }

  /** Addresses come out stably sorted by rank. */
  lemma AddressesSorted(s: seq<bv32>, sortlist: seq<SortEntry>, z: bv32)
    ensures var after := (a, b) => AddressAfter(sortlist, a, b);
      var r := Sorted(s, after);
      && multiset(r) == multiset(s)
      && (forall i, j :: 0 <= i < j < |r| ==> Rank(sortlist, r[i]) <= Rank(sortlist, r[j]))
      && var le := (a, b) => Rank(sortlist, a) <= Rank(sortlist, b);
         Ties(r, z, le) == Ties(s, z, le)
  {
    var after := (a, b) => AddressAfter(sortlist, a, b);
    var le := (a, b) => Rank(sortlist, a) <= Rank(sortlist, b);
    forall a, b
      ensures after(a, b) <==> !le(a, b)
    {
      EmptySortlist(sortlist, a, b);
    }
    SortedIsSorted(s, after, le);
    SortedIsPermutation(s, after);
    SortedIsStable(s, z, after, le);
    assert SortedBy(Sorted(s, after), le);
  }
}
