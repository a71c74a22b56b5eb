/** What cancelling and finishing a query leave of the table. */
module QueryEndings {
  import opened Bytes
  import opened Sequences
  import opened QueryTable

  // ---------------------------------------------------------------- cancelling

  function Kids(t: Table, x: QId): set<QId> {
    if x in t then set c | c in t[x].children else {}
  }

  /** The children of x are gone, the rest is as it was. */
  ghost predicate Childless(was: Table, now: Table, x: QId) {
    && x in was && now.Keys == was.Keys - Kids(was, x)
    && x in now && now[x] == was[x].(children := [])
    && (forall y :: y in now && y != x ==> now[y] == was[y])
  }

  /** x and its children are gone, and its parent lost a child. */
  ghost predicate Gone(was: Table, now: Table, x: QId) {
    && x in was && now.Keys == was.Keys - Kids(was, x) - {x}
    && (forall y :: y in now ==>
      now[y] == if was[x].parent == Some(y) then was[y].(children := Without(was[y].children, x)) else was[y])
  }

  /** Part way through the list of children. */
  ghost predicate Losing(was: Table, now: Table, x: QId) {
    && x in was && x in now && now[x] == was[x].(children := now[x].children)
    && Kids(now, x) <= Kids(was, x)
    && now.Keys == was.Keys - (Kids(was, x) - Kids(now, x))
    && (forall y :: y in now && y != x ==> now[y] == was[y])
  }

  lemma LosingBegins(t: Table, x: QId)
    requires x in t
    ensures Losing(t, t, x) && Kids(t, x) <= Kids(t, x)
  {
    assert t.Keys == t.Keys - (Kids(t, x) - Kids(t, x));
  }

  /** The child to be cancelled next. */
  lemma FirstKid(was: Table, t: Table, x: QId, busy: set<QId>)
    requires Kin(t) && Losing(was, t, x) && Kids(was, x) !! busy && t[x].children != []
    ensures var c := t[x].children[0];
      c in t && c != x && c !in busy && t[c].parent == Some(x) && t[c].children == [] && Kids(t, c) == {} && t[c].state != Done
  {
    var c := t[x].children[0];
    assert KinOk(t, x);
    ChildIsLeaf(t, c);
    assert c in Kids(t, x);
  }

  /** How deep cancellation can recurse. */
  ghost function Depth(t: Table, x: QId): nat {
    if x in t && t[x].children != [] then 1 else 0
  }

  lemma ShallowKid(was: Table, t: Table, x: QId, c: QId)
    requires Losing(was, t, x) && t[x].children != [] && c in t && t[c].children == []
    ensures Depth(t, c) < Depth(was, x)
  {
    assert t[x].children[0] in Kids(t, x);
  }

  lemma LosingOne(was: Table, mid: Table, now: Table, x: QId, c: QId)
    requires Kin(mid) && Losing(was, mid, x) && c in mid && c in mid[x].children && Gone(mid, now, c)
    ensures x in now && Losing(was, now, x) && Kids(mid, x) - Kids(now, x) == {c} && |now[x].children| < |mid[x].children|
    ensures Kids(now, x) <= Kids(mid, x)
  {
    hide Without, Kin;
    KidGone(mid, x, c);
    assert x in now && now[x] == mid[x].(children := Without(mid[x].children, c));
    assert forall y :: y in Kids(now, x) <==> y in Kids(mid, x) && y != c;
    assert now.Keys == mid.Keys - {c};
    assert Kids(was, x) - Kids(now, x) == Kids(was, x) - Kids(mid, x) + {c};
  }

  lemma KidGone(t: Table, x: QId, c: QId)
    requires Kin(t) && x in t && c in t[x].children
    ensures c in t && c != x && t[c].parent == Some(x) && Kids(t, c) == {} && c in Kids(t, x)
    ensures forall y :: y in Without(t[x].children, c) <==> y in t[x].children && y != c
    ensures |Without(t[x].children, c)| == |t[x].children| - 1
  {
    assert KinOk(t, x);
    ChildIsLeaf(t, c);
    WithoutIs(t[x].children, c);
  }

  lemma LosingEnds(was: Table, now: Table, x: QId)
    requires Losing(was, now, x) && now[x].children == []
    ensures Childless(was, now, x) && Kids(now, x) == {}
  {
    assert Kids(now, x) == {};
  }

  lemma ChildlessIs(was: Table, now: Table, x: QId)
    requires Childless(was, now, x)
    ensures x in was && x in now && now[x] == was[x].(children := [])
  {
  }

  /** x freed: off the table and off its parent's list. */
  function Released(t: Table, x: QId): Table {
    if x in t && t[x].parent.Some? && t[x].parent.value in t then
      var p := t[x].parent.value;
      (t - {x})[p := t[p].(children := Without(t[p].children, x))]
    else t - {x}
  }

  lemma ReleasedQueue(t: Table, queue: seq<QId>, st: QState, busy: set<QId>, x: QId)
    requires QueueIs(t, queue, st, busy) && x in busy && x in t
    requires t[x].parent.Some? && t[x].parent.value in t && t[x].parent.value != x
    ensures QueueIs(Released(t, x), queue, st, busy - {x})
  {
    hide Without;
    var p := t[x].parent.value;
    QueueRemove(t, queue, st, busy, x);
    QueueUpdate(t - {x}, queue, st, busy - {x}, p, t[p].(children := Without(t[p].children, x)));
  }

  lemma ReleasedQueues(t: Table, udpw: seq<QId>, tcpw: seq<QId>, childw: seq<QId>, output: seq<QId>, busy: set<QId>, x: QId)
    requires Queues(t, udpw, tcpw, childw, output, busy) && x in busy && x in t
    requires t[x].parent.Some? && t[x].parent.value in t && t[x].parent.value != x
    ensures Queues(Released(t, x), udpw, tcpw, childw, output, busy - {x})
  {
    hide QueueIs, Released;
    ReleasedQueue(t, udpw, ToSend, busy, x);
    ReleasedQueue(t, tcpw, TcpW, busy, x);
    ReleasedQueue(t, childw, ChildW, busy, x);
    ReleasedQueue(t, output, Done, busy, x);
  }

  lemma ReleasedRules(t: Table, busy: set<QId>, x: QId, nservers: nat, list: seq<seq<Byte>>, bound: nat)
    requires AllOk(t, nservers, list) && Resting(t, busy) && TcpRetries(t, busy, bound) && x in busy && x in t
    requires t[x].parent.Some? && t[x].parent.value in t && t[x].parent.value != x
    requires t[x].parent.value !in busy ==> t[t[x].parent.value].state == ChildW
    ensures var t' := Released(t, x); AllOk(t', nservers, list) && Resting(t', busy - {x}) && TcpRetries(t', busy - {x}, bound)
  {
    hide QueryOk, Without;
    var p := t[x].parent.value;
    OtherChildren(t[p], nservers, list, Without(t[p].children, x));
    assert p !in busy ==> RestingOk(t[p]);
  }

  lemma GoneReleased(was: Table, mid: Table, x: QId)
    requires Kin(was) && Childless(was, mid, x)
    ensures Gone(was, Released(mid, x), x) && Released(mid, x).Keys == mid.Keys - {x}
  {
    hide Without;
    assert KinOk(was, x);
    if was[x].parent.Some? {
      ChildIsLeaf(was, x);
      assert Kids(was, x) == {};
      assert was[x].parent.value != x;
    }
  }

  /** Cancelling keeps childw queries supplied, unless it takes the only child of one. */
  lemma GoneAwaited(was: Table, now: Table, x: QId, busy: set<QId>)
    requires Kin(was) && Resting(was, busy) && Awaited(was, busy) && Gone(was, now, x) && x !in busy
    ensures Awaited(now, busy) <==> !(was[x].parent.Some? && was[x].parent.value !in busy && was[was[x].parent.value].children == [x])
  {
  }

  lemma GoneOne(was: Table, now: Table, x: QId)
    requires Gone(was, now, x)
    ensures now.Keys <= was.Keys && x in was && x !in now
  {
  }

  lemma GoneDone(t: Table, x: QId)
    requires Awaited(t, {x})
    ensures Awaited(t - {x}, {})
  {
  }

  // ---------------------------------------------------------------- finishing

  /** What a child's answer does to its parent. */
  datatype Callback = Wait | Complete | Fail(status: Status)

  /** icb_hostaddr and icb_ptr. sameAddr: one of the child's addresses is the one being looked up
      backwards. */
  function CallbackOf(t: RRType, childStatus: Status, sameAddr: bool, more: bool): (r: Callback)
    ensures r == Wait ==> more
  {
    if t == Ptr && (childStatus == StNxDomain || childStatus == StNoData) then Fail(StInconsistent)
    else if t == Ptr && childStatus != StOk then Fail(childStatus)
    else if t == Ptr && !sameAddr then Fail(StInconsistent)
    else if more then Wait
    else Complete
  }

  /** x is done with status st; its children are gone. */
  ghost predicate Completed(was: Table, now: Table, x: QId, st: Status) {
    && x in was && now.Keys == was.Keys - Kids(was, x)
    && x in now && now[x] == was[x].(children := [], id := -1, state := Done, status := st)
    && (forall y :: y in now && y != x ==> now[y] == was[y])
  }

  /** The query whose answer is ready once x is done with status st: x, its parent or none. */
  function Outlet(t: Table, x: QId, st: Status, sameAddr: bool): Option<(QId, Status)> {
    if x !in t then None
    else if t[x].parent.None? then Some((x, st))
    else if t[x].parent.value !in t then None
    else
      var p := t[x].parent.value;
      match CallbackOf(t[p].rrtype, st, sameAddr, |t[p].children| > 1)
      case Wait => None
      case Complete => Some((p, t[p].status))
      case Fail(st') => Some((p, st'))
  }

  /** The whole effect of x being done with status st. */
  ghost predicate Finished(was: Table, now: Table, x: QId, st: Status, sameAddr: bool) {
    match Outlet(was, x, st, sameAddr)
    case None => Gone(was, now, x)
    case Some((y, st')) => Completed(was, now, y, st')
  }

  function Ready(o: Option<(QId, Status)>): seq<QId> {
    if o.Some? then [o.value.0] else []
  }

  /** Nothing new waits for the network, and x no longer does. */
  ghost predicate Settles(was: Table, now: Table, x: QId) {
    && now.Keys <= was.Keys
    && (forall y :: y in now && now[y].state in {ToSend, TcpW} ==> now[y] == was[y] && y != x)
  }

  lemma FinishedSettles(was: Table, now: Table, x: QId, st: Status, sameAddr: bool)
    requires Kin(was) && Resting(was, {x}) && x in was && Finished(was, now, x, st, sameAddr)
    ensures Settles(was, now, x) && SameElse(was, now, Family(was, x))
  {
    hide Finished, CallbackOf, Settles, SameElse;
    match Outlet(was, x, st, sameAddr) {
      case None =>
        FinishedWaits(was, now, x, st, sameAddr);
        GoneSettles(was, now, x);
      case Some((y, st')) =>
        FinishedCompletes(was, now, x, st, sameAddr);
        CompletedSettles(was, now, x, y, st');
    }
  }

  lemma FinishedWaits(was: Table, now: Table, x: QId, st: Status, sameAddr: bool)
    requires Kin(was) && x in was && Finished(was, now, x, st, sameAddr) && Outlet(was, x, st, sameAddr).None?
    ensures Gone(was, now, x) && was[x].parent.Some?
  {
    assert KinOk(was, x);
  }

  lemma FinishedCompletes(was: Table, now: Table, x: QId, st: Status, sameAddr: bool)
    requires Kin(was) && x in was && Finished(was, now, x, st, sameAddr) && Outlet(was, x, st, sameAddr).Some?
    ensures var (y, st') := Outlet(was, x, st, sameAddr).value;
      Completed(was, now, y, st') && y in was && (y == x || was[x].parent == Some(y))
  {
  }

  lemma GoneSettles(was: Table, now: Table, x: QId)
    requires Kin(was) && Resting(was, {x}) && x in was && Gone(was, now, x) && was[x].parent.Some?
    ensures Settles(was, now, x) && SameElse(was, now, Family(was, x))
  {
    ChildIsLeaf(was, x);
    ParentWaits(was, {x}, x);
  }

  lemma CompletedSettles(was: Table, now: Table, x: QId, y: QId, st: Status)
    requires Kin(was) && x in was && y in was && Completed(was, now, y, st) && (y == x || was[x].parent == Some(y))
    ensures Settles(was, now, x) && SameElse(was, now, Family(was, x))
  {
    assert KinOk(was, x);
    if y != x {
      ChildIsLeaf(was, x);
    }
  }

  lemma CompletedAwaited(was: Table, now: Table, x: QId, st: Status)
    requires Awaited(was, {x}) && Completed(was, now, x, st)
    ensures Awaited(now, {})
  {
  }

  lemma WaitAwaited(was: Table, now: Table, x: QId)
    requires Kin(was) && Awaited(was, {x}) && Gone(was, now, x) && was[x].parent.Some?
    requires was[x].parent.value in was && |was[was[x].parent.value].children| > 1
    ensures Awaited(now, {})
  {
    ChildIsLeaf(was, x);
    KidGone(was, was[x].parent.value, x);
  }

  lemma HeldAwaited(was: Table, now: Table, x: QId, p: QId)
    requires Awaited(was, {x}) && Gone(was, now, x) && was[x].parent == Some(p)
    ensures Awaited(now, {p})
  {
  }

  /** x itself apart from its children. */
  lemma KidsApart(t: Table, x: QId, busy: set<QId>)
    requires Kin(t) && x in t
    ensures x !in Kids(t, x)
  {
    assert KinOk(t, x);
    if x in t[x].children {
      ChildIsLeaf(t, x);
    }
  }

  /** The answer to x being ready, x has no children left and is done. */
  lemma DoneCompletes(was: Table, mid: Table, x: QId, st: Status)
    requires Childless(was, mid, x)
    ensures Completed(was, mid[x := mid[x].(id := -1, state := Done, status := st)], x, st)
  {
  }

  lemma DoneRests(qu: Query)
    requires qu.children == [] && qu.parent.None?
    ensures RestingOk(qu.(id := -1, state := Done)) && SameKin(qu, qu.(id := -1, state := Done))
  {
  }

  /** A child's end takes only the child, before its parent is looked at. */
  lemma ChildlessChild(was: Table, mid: Table, x: QId)
    requires Kin(was) && Childless(was, mid, x) && was[x].parent.Some?
    ensures mid == was && was[x].children == [] && Kids(was, x) == {}
  {
    ChildIsLeaf(was, x);
  }

  lemma ChildGone(was: Table, x: QId)
    requires Kin(was) && x in was && was[x].parent.Some? && was[x].children == []
    ensures var p := was[x].parent.value;
      && p in was && p != x && was[p].parent.None?
      && var now := (was - {x})[p := was[p].(children := Without(was[p].children, x))];
      Gone(was, now, x) && (now[p].children != [] <==> |was[p].children| > 1) && now.Keys == was.Keys - {x} && Kids(now, p) == Kids(was, p) - {x}
  {
    ChildIsLeaf(was, x);
    KidGone(was, was[x].parent.value, x);
  }

  lemma WaitingRests(was: Table, x: QId, busy: set<QId>, children: seq<QId>)
    requires Resting(was, busy) && x in was && x !in busy && was[x].state == ChildW
    ensures RestingOk(was[x].(children := children))
  {
    assert RestingOk(was[x]);
  }

  /** The parent completing after its child is one step seen from before. */
  lemma CompletedAfterGone(was: Table, mid: Table, now: Table, x: QId, p: QId, st: Status)
    requires Kin(was) && x in was && was[x].parent == Some(p) && Gone(was, mid, x) && Completed(mid, now, p, st)
    ensures Completed(was, now, p, st)
  {
    ChildIsLeaf(was, x);
    KidGone(was, p, x);
    assert Kids(was, p) == Kids(mid, p) + {x};
  }

  /** Failing is setting the status, with the children gone, and being done. */
  lemma FinishedAfterChildless(was: Table, mid: Table, now: Table, x: QId, st: Status)
    requires Kin(was) && Childless(was, mid, x)
    requires Finished(mid[x := mid[x].(status := st)], now, x, st, false)
    ensures Outlet(mid[x := mid[x].(status := st)], x, st, false) == Outlet(was, x, st, false)
    ensures Finished(was, now, x, st, false)
  {
    var mid' := mid[x := mid[x].(status := st)];
    if was[x].parent.Some? {
      ChildlessChild(was, mid, x);
      ChildIsLeaf(was, x);
    } else {
      assert Kids(mid', x) == {};
    }
  }

  lemma ChildlessAwaited(was: Table, mid: Table, x: QId, qu: Query)
    requires Awaited(was, {x}) && Childless(was, mid, x)
    ensures Awaited(mid, {x}) && Awaited(mid[x := qu], {x})
  {
  }

  lemma OutletTop(t: Table, x: QId, st: Status, sameAddr: bool)
    requires x in t && t[x].parent.None?
    ensures Outlet(t, x, st, sameAddr) == Some((x, st))
    ensures forall now :: Finished(t, now, x, st, sameAddr) <==> Completed(t, now, x, st)
  {
  }

  lemma OutletChild(t: Table, x: QId, st: Status, sameAddr: bool, p: QId)
    requires x in t && t[x].parent == Some(p) && p in t
    ensures Outlet(t, x, st, sameAddr) == match CallbackOf(t[p].rrtype, st, sameAddr, |t[p].children| > 1)
      case Wait => None
      case Complete => Some((p, t[p].status))
      case Fail(st') => Some((p, st'))
    ensures forall now :: Finished(t, now, x, st, sameAddr) <==>
      match Outlet(t, x, st, sameAddr)
      case None => Gone(t, now, x)
      case Some((y, st')) => Completed(t, now, y, st')
  {
  }

  // ---------------------------------------------------------------- what a parent is told

  /** The parent's answer is ready. */
  ghost predicate Answered(was: Table, now: Table, p: QId, st: Status) {
    && p in was && p in now && now[p].state == Done && now[p].status == st && now[p].children == [] && now[p].id == -1
    && forall c :: c in was[p].children ==> c !in now
  }

  /** The parent still waits, for its other children. */
  ghost predicate WaitsOn(was: Table, now: Table, p: QId, q: QId) {
    && p in was && p in now && now[p] == was[p].(children := now[p].children) && now[p].state == ChildW
    && now[p].children == Without(was[p].children, q) && now[p].children != []
    && forall c :: c in was[p].children && c != q ==> c in was && c in now && now[c] == was[c]
  }

  /** What becomes of p once its child q ended with a status: a reverse look-up fails unless one of the
      child's addresses is the one looked up, and a query for hosts goes on whatever became of one. */
  ghost predicate ParentTold(was: Table, now: Table, q: QId, p: QId, st: Status, sameAddr: bool)
    requires q in was && p in was
  {
    var last := was[p].children == [q];
    && q !in now
    && (was[p].rrtype == Ptr ==>
      if st == StOk && sameAddr then (if last then Answered(was, now, p, was[p].status) else WaitsOn(was, now, p, q))
      else Answered(was, now, p, if st in {StOk, StNxDomain, StNoData} then StInconsistent else st))
    && (was[p].rrtype == HostAddr ==>
      if last then Answered(was, now, p, was[p].status) else WaitsOn(was, now, p, q))
  }

  /** What x being done with a status comes to, for it or its parent. */
  ghost predicate Told(was: Table, now: Table, x: QId, st: Status, sameAddr: bool)
    requires x in was
  {
    if was[x].parent.None? then Answered(was, now, x, st)
    else was[x].parent.value in was && ParentTold(was, now, x, was[x].parent.value, st, sameAddr)
  }

  lemma EndsTold(was: Table, now: Table, x: QId, st: Status, sameAddr: bool)
    requires Kin(was) && Resting(was, {x}) && x in was && Finished(was, now, x, st, sameAddr)
    ensures Told(was, now, x, st, sameAddr)
  {
    hide Finished, Answered, ParentTold, Resting;
    if was[x].parent.Some? {
      ChildEnds(was, now, x, was[x].parent.value, st, sameAddr);
    } else {
      TopAnswered(was, now, x, st, sameAddr);
    }
  }

  lemma TopAnswered(was: Table, now: Table, x: QId, st: Status, sameAddr: bool)
    requires Kin(was) && x in was && was[x].parent.None? && Finished(was, now, x, st, sameAddr)
    ensures Answered(was, now, x, st)
  {
    KidsApart(was, x, {});
  }

  lemma ChildEnds(was: Table, now: Table, q: QId, p: QId, st: Status, sameAddr: bool)
    requires Kin(was) && Resting(was, {q}) && q in was && was[q].parent == Some(p) && Finished(was, now, q, st, sameAddr)
    ensures p in was && ParentTold(was, now, q, p, st, sameAddr)
  {
    hide Finished, Gone, Completed, Answered, WaitsOn, Without, Resting, Kids;
    FamilyOf(was, q, p);
    OutletChild(was, q, st, sameAddr, p);
    var o := Outlet(was, q, st, sameAddr);
    if o.None? {
      ChildWaits(was, now, q, p);
    } else {
      ParentAnswered(was, now, q, p, o.value.1);
    }
  }

  /** A child, its siblings and its parent. */
  lemma FamilyOf(t: Table, q: QId, p: QId)
    requires Kin(t) && Resting(t, {q}) && q in t && t[q].parent == Some(p)
    ensures p in t && p != q && t[p].state == ChildW && t[p].parent.None? && t[q].children == []
    ensures q in t[p].children && p !in t[p].children && (forall c :: c in t[p].children ==> c in t && t[c].parent == Some(p))
    ensures |t[p].children| > 1 <==> t[p].children != [q]
    ensures |Without(t[p].children, q)| == |t[p].children| - 1
  {
    ParentWaits(t, {q}, q);
    ChildIsLeaf(t, q);
    assert KinOk(t, p);
    OnlyChild(t[p].children, q);
    WithoutIs(t[p].children, q);
  }

  lemma OnlyChild(children: seq<QId>, q: QId)
    requires q in children
    ensures |children| > 1 <==> children != [q]
  {
  }

  lemma ChildWaits(was: Table, now: Table, q: QId, p: QId)
    requires q in was && Gone(was, now, q) && was[q].children == [] && was[q].parent == Some(p) && p in was && p != q
    requires was[p].state == ChildW && was[p].parent.None? && |was[p].children| > 1
    requires |Without(was[p].children, q)| == |was[p].children| - 1
    requires forall c :: c in was[p].children ==> c in was && was[c].parent == Some(p)
    ensures q !in now && WaitsOn(was, now, p, q)
  {
    hide Without;
    assert Kids(was, q) == {};
  }

  lemma ParentAnswered(was: Table, now: Table, q: QId, p: QId, st: Status)
    requires p in was && Completed(was, now, p, st) && p !in was[p].children && q in was[p].children
    ensures q !in now && Answered(was, now, p, st)
  {
  }

  // ---------------------------------------------------------------- failing

  lemma NotFamily(was: Table, q: QId, x: QId)
    requires q in was && Kin(was) && Resting(was, {}) && OnNetwork(was[q])
    requires x in was && x != q && was[x].parent.None? && was[x].state != ChildW
    ensures x !in Family(was, q)
  {
    assert KinOk(was, q);
    assert RestingOk(was[q]);
    if was[q].parent.Some? {
      ParentWaits(was, {}, q);
      ChildIsLeaf(was, q);
      assert KinOk(was, was[q].parent.value);
    }
  }

  lemma FailsElse(was: Table, now: Table, q: QId, st: Status)
    requires q in was && Kin(was) && Resting(was, {}) && OnNetwork(was[q]) && Finished(was, now, q, st, false)
    ensures Settles(was, now, q)
    ensures forall x: QId :: x in was && x != q && was[x].parent.None? && was[x].state != ChildW ==> x in now && now[x] == was[x]
  {
    hide Finished;
    FinishedSettles(was, now, q, st, false);
    forall x: QId | x in was && x != q && was[x].parent.None? && was[x].state != ChildW
      ensures x !in Family(was, q)
    {
      NotFamily(was, q, x);
    }
  }

  lemma FailsTop(was: Table, now: Table, q: QId, st: Status)
    requires q in was && RestingOk(was[q]) && OnNetwork(was[q]) && was[q].parent.None? && Finished(was, now, q, st, false)
    ensures q in now && now[q] == was[q].(id := -1, state := Done, status := st)
  {
  }

  /** A walk that saved the next query before it fails one may find it freed: exactly when both are
      children of one reverse look-up, which fails with the first of them and cancels the rest. */
  lemma SavedNextGone(was: Table, now: Table, q: QId, n: QId, st: Status)
    requires q in was && n in was && q != n && Kin(was) && Resting(was, {}) && OnNetwork(was[q]) && OnNetwork(was[n])
    requires st != StOk && Finished(was, now, q, st, false)
    ensures n !in now <==> was[q].parent.Some? && was[n].parent == was[q].parent && was[was[q].parent.value].rrtype == Ptr
  {
    assert RestingOk(was[q]) && RestingOk(was[n]) && KinOk(was, q) && KinOk(was, n);
    if was[q].parent.Some? {
      SavedSibling(was, now, q, n, st);
    }
  }

  lemma SavedSibling(was: Table, now: Table, q: QId, n: QId, st: Status)
    requires q in was && n in was && q != n && Kin(was) && was[q].children == [] && was[q].parent.Some?
    requires OnNetwork(was[n]) && was[n].children == [] && st != StOk && Finished(was, now, q, st, false)
    requires was[q].parent != Some(n)
    ensures n !in now <==> was[n].parent == was[q].parent && was[was[q].parent.value].rrtype == Ptr
  {
    hide Finished, Gone, Completed, Kids;
    var p := was[q].parent.value;
    ChildIsLeaf(was, q);
    OutletChild(was, q, st, false, p);
    assert KinOk(was, p) && KinOk(was, n);
    NotAlone(was[p].children, q, n);
    if Outlet(was, q, st, false).None? {
      GoneKeys(was, now, q);
    } else {
      CompletedKeys(was, now, p, Outlet(was, q, st, false).value.1);
    }
  }

  lemma NotAlone(children: seq<QId>, q: QId, n: QId)
    ensures q != n && q in children && n in children ==> |children| > 1
  {
  }

  lemma GoneKeys(was: Table, now: Table, x: QId)
    requires Gone(was, now, x) && was[x].children == []
    ensures forall y :: y in now <==> y in was && y != x
  {
    assert Kids(was, x) == {};
  }

  lemma CompletedKeys(was: Table, now: Table, x: QId, st: Status)
    requires Completed(was, now, x, st)
    ensures forall y :: y in now <==> y in was && y !in was[x].children
  {
  }

  /** Answers ready for the user stay as they are. */
  ghost predicate DoneStay(was: Table, now: Table) {
    forall x: QId :: x in was && was[x].state == Done ==> x in now && now[x] == was[x]
  }

  lemma FailsDone(was: Table, now: Table, q: QId, st: Status)
    requires q in was && Kin(was) && Resting(was, {}) && OnNetwork(was[q]) && Finished(was, now, q, st, false)
    ensures DoneStay(was, now)
  {
    hide Finished;
    FailsElse(was, now, q, st);
    forall x: QId | x in was && was[x].state == Done
      ensures x in now && now[x] == was[x]
    {
      assert RestingOk(was[x]);
    }
  }

  lemma DoneStays(t: Table)
    ensures DoneStay(t, t)
  {
  }

  lemma DoneStayed(was: Table, mid: Table, now: Table)
    requires DoneStay(was, mid) && DoneStay(mid, now)
    ensures DoneStay(was, now)
  {
  }
}
