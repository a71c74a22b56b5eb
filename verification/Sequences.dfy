/** Lists as sequences: no repetition, dropping a position, removing an element. */
module Sequences {

  ghost predicate NoDup<T>(s: seq<T>) {
    forall i, j :: 0 <= i < j < |s| ==> s[i] != s[j]
  }

  function Drop<T>(s: seq<T>, k: nat): (r: seq<T>)
    requires k < |s|
    ensures |r| == |s| - 1
    ensures forall i :: 0 <= i < k ==> r[i] == s[i]
    ensures forall i :: k <= i < |r| ==> r[i] == s[i + 1]
  {
    s[..k] + s[k + 1..]
  }

  /** The list without the first x: what unlinking the node that holds x leaves. */
  function Without<T(==)>(s: seq<T>, x: T): (r: seq<T>)
    ensures |r| <= |s|
  {
    if s == [] then []
    else if s[0] == x then s[1..]
    else [s[0]] + Without(s[1..], x)
  }

  lemma {:induction false} WithoutIs<T>(s: seq<T>, x: T)
    requires NoDup(s)
    ensures NoDup(Without(s, x)) && (forall y :: y in Without(s, x) <==> y in s && y != x)
    ensures |Without(s, x)| == if x in s then |s| - 1 else |s|
    ensures x !in s ==> Without(s, x) == s
  {
    if s != [] {
      var head, tail := s[0], s[1..];
      assert s == [head] + tail;
      assert forall i :: 0 <= i < |tail| ==> tail[i] == s[i + 1];
      assert head !in tail;
      if head != x {
        WithoutIs(tail, x);
      }
    }
  }

  /** Without repetition, dropping a position is removing the element there. */
  lemma {:induction false} DropWithout<T>(s: seq<T>, k: nat)
    requires k < |s| && NoDup(s)
    ensures Drop(s, k) == Without(s, s[k])
    decreases k
  {
    hide Drop;
    var head, tail := s[0], s[1..];
    assert forall i :: 0 <= i < |tail| ==> tail[i] == s[i + 1];
    if k == 0 {
      assert Drop(s, 0) == tail;
    } else {
      DropWithout(tail, k - 1);
      assert s[k] == tail[k - 1] != head;
      assert Drop(s, k) == [head] + Drop(tail, k - 1);
    }
  }

  ghost function Elements<T(!new)>(s: seq<T>): set<T> {
    set x | x in s
  }

  lemma {:induction false} ElementsSize<T(!new)>(s: seq<T>)
    requires NoDup(s)
    ensures |Elements(s)| == |s|
  {
    if s != [] {
      var n := |s| - 1;
      ElementsSize(s[..n]);
      assert Elements(s) == Elements(s[..n]) + {s[n]};
      assert s[n] !in s[..n];
    }
  }

  lemma {:induction false} SubsetSize<T>(a: set<T>, b: set<T>)
    requires a <= b
    ensures |a| <= |b|
  {
    if x :| x in a {
      SubsetSize(a - {x}, b - {x});
    }
  }

  /** More small numbers than there are: one comes twice. */
  lemma Pigeonhole(s: seq<nat>, n: nat)
    requires |s| > n && forall i :: 0 <= i < |s| ==> s[i] < n
    ensures exists i, j :: 0 <= i < j < |s| && s[i] == s[j]
  {
    if NoDup(s) {
      BelowSize(n);
      ElementsSize(s);
      SubsetSize(Elements(s), Below(n));
      assert false;
    }
  }

  function Below(n: nat): set<nat> {
    if n == 0 then {} else Below(n - 1) + {n - 1}
  }

  lemma {:induction false} BelowSize(n: nat)
    ensures |Below(n)| == n && forall k: nat :: k in Below(n) <==> k < n
  {
    if n > 0 {
      BelowSize(n - 1);
    }
  }
}
