/** What the passing of time does to the queries waiting for the network. */
module QueryTimeouts {
  import opened Bytes
  import opened QueryTable
  import opened QueryEndings
  import opened QuerySending

  // ---------------------------------------------------------------- timeouts

  /** The queries waiting for the network past their time. */
  function Overdue(t: Table, when: int): set<QId> {
    set x: QId | x in t && OnNetwork(t[x]) && when > t[x].timeout
  }

  /** What one pass makes of a top-level query past its time: another datagram, or TCP if it is
      too big for one, or the end. */
  predicate Woken(was: Query, now: Query, when: int, nservers: nat, tooBig: TooBig)
    requires nservers > 0
  {
    if was.state == TcpW || was.retries >= UDPMAXRETRIES then
      now == was.(id := -1, state := Done, status := StTimeout)
    else if tooBig(was.question, was.udpNextServer, when) then
      now == was.(state := TcpW, timeout := when + TCPWAIT, retries := now.retries) && now.retries <= 1
    else now == UdpSent(was, when, nservers)
  }

  /** A top-level query waiting for the network is as it was, or was past its time and was woken. */
  ghost predicate WokenAt(was: Table, now: Table, x: QId, when: int, nservers: nat, tooBig: TooBig)
    requires nservers > 0 && x in was
  {
    x in now && (now[x] == was[x] || (when > was[x].timeout && Woken(was[x], now[x], when, nservers, tooBig)))
  }

  /** Queries past their time are so from before, and as they were. */
  ghost predicate Fewer(was: Table, now: Table, when: int) {
    forall x: QId :: x in Overdue(now, when) ==> x in Overdue(was, when) && now[x] == was[x]
  }

  /** Some time later: no query is new, none changes its type or its parent, and top-level ones stay. */
  ghost predicate Later(was: Table, now: Table) {
    && (forall x: QId :: x in now ==> x in was && now[x].rrtype == was[x].rrtype && now[x].parent == was[x].parent)
    && (forall x: QId :: x in was && was[x].parent.None? ==> x in now)
  }

  /** A query waiting for its children is as it was, or one of them is among those that may have
      failed. */
  ghost predicate ParentAt(was: Table, now: Table, x: QId, failing: set<QId>)
    requires x in was
  {
    x in now && (now[x] == was[x] || exists c :: c in failing && c in was && was[c].parent == Some(x))
  }

  ghost predicate Parents(was: Table, now: Table, failing: set<QId>) {
    forall x: QId :: x in was && was[x].parent.None? && was[x].state == ChildW ==> ParentAt(was, now, x, failing)
  }

  /** Two queries were asked for one reverse look-up. */
  ghost predicate Siblings(t: Table) {
    exists c, n: QId ::
      && c in t && n in t && c != n && t[c].parent.Some? && t[n].parent == t[c].parent
      && t[c].parent.value in t && t[t[c].parent.value].rrtype == Ptr
  }

  lemma SiblingsBefore(was: Table, now: Table)
    requires Later(was, now) && Siblings(now)
    ensures Siblings(was)
  {
  }

  /** A walk that saved the next query comes to one that is gone only between siblings. */
  lemma SavedSiblings(was: Table, now: Table, q: QId, n: QId, st: Status)
    requires q in was && n in was && q != n && Kin(was) && Resting(was, {}) && OnNetwork(was[q]) && OnNetwork(was[n])
    requires st != StOk && Finished(was, now, q, st, false) && n !in now
    ensures Siblings(was)
  {
    hide Finished;
    SavedNextGone(was, now, q, n, st);
    assert KinOk(was, q);
  }

  lemma LaterOn(was: Table, mid: Table, now: Table)
    requires Later(was, mid) && Later(mid, now)
    ensures Later(was, now)
  {
  }

  lemma LaterSelf(t: Table)
    ensures Later(t, t)
  {
  }

  /** What a failing query does to the others. */
  lemma FailsLater(was: Table, now: Table, q: QId, st: Status)
    requires q in was && Kin(was) && Resting(was, {}) && OnNetwork(was[q]) && Finished(was, now, q, st, false)
    ensures Later(was, now) && Parents(was, now, {q})
  {
    FailsFamily(was, now, q, st);
    hide Finished, Family;
    forall x: QId | x in was && was[x].parent.None? && was[x].state == ChildW
      ensures ParentAt(was, now, x, {q})
    {
      if was[q].parent != Some(x) {
        NotMine(was, q, x);
      }
    }
  }

  lemma FailsFamily(was: Table, now: Table, q: QId, st: Status)
    requires q in was && Kin(was) && Resting(was, {}) && OnNetwork(was[q]) && Finished(was, now, q, st, false)
    ensures Later(was, now)
    ensures forall x: QId :: x in was && x !in Family(was, q) ==> x in now && now[x] == was[x]
  {
    assert RestingOk(was[q]) && KinOk(was, q);
    RestingBusy(was, q);
    FinishedSettles(was, now, q, st, false);
    if was[q].parent.Some? {
      ChildIsLeaf(was, q);
      assert KinOk(was, was[q].parent.value);
    }
  }

  lemma RestingBusy(t: Table, q: QId)
    requires Resting(t, {})
    ensures Resting(t, {q})
  {
  }

  lemma NotMine(was: Table, q: QId, x: QId)
    requires q in was && Kin(was) && Resting(was, {}) && OnNetwork(was[q])
    requires x in was && was[x].parent.None? && was[x].state == ChildW && was[q].parent != Some(x)
    ensures x !in Family(was, q)
  {
    assert RestingOk(was[q]) && KinOk(was, q);
    if was[q].parent.Some? {
      assert KinOk(was, was[q].parent.value);
    }
  }

  lemma ParentsNone(t: Table, failing: set<QId>)
    ensures Parents(t, t, failing)
  {
  }

  /** One more that fails, or nothing that touches parents. */
  lemma ParentsMore(was: Table, mid: Table, now: Table, one: set<QId>, failing: set<QId>)
    requires Later(was, mid) && Parents(was, mid, failing) && Later(mid, now) && Parents(mid, now, one)
    requires one <= mid.Keys && one <= failing
    ensures Parents(was, now, failing)
  {
    forall x: QId | x in was && was[x].parent.None? && was[x].state == ChildW
      ensures ParentAt(was, now, x, failing)
    {
      assert ParentAt(was, mid, x, failing);
      if mid[x] == was[x] {
        assert ParentAt(mid, now, x, one);
      }
    }
  }

  lemma ParentsWiden(was: Table, now: Table, few: set<QId>, many: set<QId>)
    requires Parents(was, now, few) && few <= many
    ensures Parents(was, now, many)
  {
    forall x: QId | x in was && was[x].parent.None? && was[x].state == ChildW
      ensures ParentAt(was, now, x, many)
    {
      assert ParentAt(was, now, x, few);
    }
  }

  ghost predicate Passed(was: Table, now: Table, when: int, nservers: nat, tooBig: TooBig)
    requires nservers > 0
  {
    && Fewer(was, now, when) && DoneStay(was, now) && Later(was, now) && Parents(was, now, Overdue(was, when))
    && (forall x: QId :: x in now && OnNetwork(now[x]) ==> x in was && (now[x] == was[x] || x in Overdue(was, when)))
    && (forall x: QId :: x in was && was[x].parent.None? && OnNetwork(was[x]) ==> WokenAt(was, now, x, when, nservers, tooBig))
  }

  lemma PassedNone(t: Table, when: int, nservers: nat, tooBig: TooBig)
    requires nservers > 0
    ensures Passed(t, t, when, nservers, tooBig)
  {
    LaterSelf(t);
    ParentsNone(t, Overdue(t, when));
  }

  /** The effect of handling one overdue query. */
  ghost predicate Handled(was: Table, now: Table, q: QId, when: int, nservers: nat, tooBig: TooBig, connected: bool)
    requires q in was && nservers > 0
  {
    if was[q].state == ToSend then Sends(was, now, q, when, nservers, tooBig, connected)
    else Finished(was, now, q, StTimeout, false)
  }

  lemma HandledElse(was: Table, now: Table, q: QId, when: int, nservers: nat, tooBig: TooBig, connected: bool)
    requires q in was && nservers > 0 && Kin(was) && Resting(was, {}) && OnNetwork(was[q])
    requires Handled(was, now, q, when, nservers, tooBig, connected)
    ensures Fewer(was, now, when) && q !in Overdue(now, when) && Later(was, now) && Parents(was, now, {q})
    ensures forall x: QId :: x in now && OnNetwork(now[x]) && x != q ==> x in was && now[x] == was[x]
    ensures forall x: QId :: x in was && x != q && was[x].parent.None? && was[x].state != ChildW ==> x in now && now[x] == was[x]
  {
    assert RestingOk(was[q]);
    hide Finished, Sends, Settles;
    if was[q].state == ToSend && was[q].retries < UDPMAXRETRIES {
      SendsWaits(was, now, q, when, nservers, tooBig, connected);
      SentLater(was, now, q);
    } else {
      HandledEnd(was, now, q, when, nservers, tooBig, connected);
      FailsElse(was, now, q, StTimeout);
      FailsLater(was, now, q, StTimeout);
      SettlesOverdue(was, now, q, when);
      SettlesNetwork(was, now, q);
    }
  }

  lemma SentLater(was: Table, now: Table, q: QId)
    requires q in was && OnNetwork(was[q]) && now.Keys == was.Keys && SameElse(was, now, {q}) && SameKin(now[q], was[q])
    ensures Later(was, now) && Parents(was, now, {q})
  {
  }

  lemma HandledEnd(was: Table, now: Table, q: QId, when: int, nservers: nat, tooBig: TooBig, connected: bool)
    requires q in was && nservers > 0 && RestingOk(was[q]) && OnNetwork(was[q])
    requires Handled(was, now, q, when, nservers, tooBig, connected) && (was[q].state == TcpW || was[q].retries >= UDPMAXRETRIES)
    ensures Finished(was, now, q, StTimeout, false)
  {
  }

  lemma SettlesOverdue(was: Table, now: Table, q: QId, when: int)
    requires Settles(was, now, q)
    ensures Fewer(was, now, when) && q !in Overdue(now, when)
  {
  }

  lemma HandledTop(was: Table, now: Table, q: QId, when: int, nservers: nat, tooBig: TooBig, connected: bool)
    requires q in was && nservers > 0 && Resting(was, {}) && OnNetwork(was[q]) && was[q].parent.None?
    requires Handled(was, now, q, when, nservers, tooBig, connected)
    ensures q in now && Woken(was[q], now[q], when, nservers, tooBig)
  {
    assert RestingOk(was[q]);
    if was[q].state == ToSend && was[q].retries < UDPMAXRETRIES {
      SendsWaits(was, now, q, when, nservers, tooBig, connected);
    } else {
      assert now[q] == was[q].(children := [], id := -1, state := Done, status := StTimeout);
    }
  }

  lemma PassedMore(was: Table, mid: Table, now: Table, q: QId, when: int, nservers: nat, tooBig: TooBig, connected: bool)
    requires q in mid && nservers > 0 && Kin(mid) && Resting(mid, {}) && OnNetwork(mid[q]) && when > mid[q].timeout
    requires Passed(was, mid, when, nservers, tooBig) && Handled(mid, now, q, when, nservers, tooBig, connected)
    ensures Passed(was, now, when, nservers, tooBig) && Overdue(now, when) < Overdue(mid, when)
  {
    hide Handled, Woken, Overdue, RestingOk, Kin, Later, Parents;
    HandledElse(mid, now, q, when, nservers, tooBig, connected);
    IsOverdue(mid, q, when);
    ParentsMore(was, mid, now, {q}, Overdue(was, when));
    LaterOn(was, mid, now);
    DoneTop(mid);
    forall x: QId | x in was && was[x].parent.None? && OnNetwork(was[x])
      ensures WokenAt(was, now, x, when, nservers, tooBig)
    {
      assert WokenAt(was, mid, x, when, nservers, tooBig);
      if x == q {
        WokenLater(was[x], mid[x], when, nservers, tooBig);
        HandledTop(mid, now, q, when, nservers, tooBig, connected);
      } else {
        WokenState(was[x], mid[x], when, nservers, tooBig);
      }
    }
  }

  lemma DoneTop(t: Table)
    requires Resting(t, {})
    ensures forall x: QId :: x in t && t[x].state == Done ==> t[x].parent.None?
  {
    forall x: QId | x in t && t[x].state == Done
      ensures t[x].parent.None?
    {
      assert RestingOk(t[x]);
    }
  }

  lemma IsOverdue(t: Table, q: QId, when: int)
    requires q in t && OnNetwork(t[q]) && when > t[q].timeout
    ensures q in Overdue(t, when)
  {
  }

  lemma WokenState(was: Query, now: Query, when: int, nservers: nat, tooBig: TooBig)
    requires nservers > 0 && OnNetwork(was) && (now == was || Woken(was, now, when, nservers, tooBig))
    ensures now.state != ChildW && now.parent == was.parent
  {
  }

  lemma WokenLater(was: Query, now: Query, when: int, nservers: nat, tooBig: TooBig)
    requires nservers > 0 && (now == was || Woken(was, now, when, nservers, tooBig)) && OnNetwork(now) && when > now.timeout
    ensures now == was
  {
  }

  lemma RetriedOverdue(was: Table, now: Table, s: set<QId>, when: int)
    requires Retried(was, now, s)
    ensures Overdue(now, when) == Overdue(was, when)
  {
  }

  // ---------------------------------------------------------------- a broken connection

  /** The queries that were tried on every server over TCP. */
  function Exhausted(t: Table, nservers: nat): set<QId> {
    set x: QId | x in t && t[x].state == TcpW && t[x].retries > nservers
  }

  /** The queries that will have been, with so many more tries. */
  function Exhaustible(t: Table, nservers: nat, tries: nat): set<QId> {
    set x: QId | x in t && t[x].state == TcpW && t[x].retries + tries > nservers
  }

  /** A top-level query waiting for the network is as it was, or was tried on every server and
      failed. */
  ghost predicate PurgedAt(was: Table, now: Table, x: QId, nservers: nat)
    requires x in was
  {
    && x in now
    && (now[x] == was[x]
        || (was[x].state == TcpW && was[x].retries > nservers && now[x] == was[x].(id := -1, state := Done, status := StAllServFail)))
  }

  ghost predicate Purging(was: Table, now: Table, when: int, nservers: nat) {
    && Fewer(was, now, when) && Later(was, now) && Parents(was, now, Exhausted(was, nservers))
    && (forall x: QId :: x in now && OnNetwork(now[x]) ==> x in was && now[x] == was[x])
    && (forall x: QId :: x in was && was[x].parent.None? && OnNetwork(was[x]) ==> PurgedAt(was, now, x, nservers))
  }

  lemma PurgingNone(t: Table, when: int, nservers: nat)
    ensures Purging(t, t, when, nservers)
  {
    LaterSelf(t);
    ParentsNone(t, Exhausted(t, nservers));
  }

  lemma SettlesNetwork(was: Table, now: Table, q: QId)
    requires Settles(was, now, q)
    ensures forall x: QId :: x in now && OnNetwork(now[x]) ==> x in was && now[x] == was[x]
  {
  }

  lemma SettlesExhausted(was: Table, now: Table, q: QId, nservers: nat)
    requires Settles(was, now, q)
    ensures Exhausted(now, nservers) <= Exhausted(was, nservers) - {q}
  {
  }

  lemma PurgingMore(was: Table, mid: Table, now: Table, q: QId, when: int, nservers: nat)
    requires q in mid && Kin(mid) && Resting(mid, {}) && mid[q].state == TcpW && mid[q].retries > nservers
    requires Purging(was, mid, when, nservers) && Finished(mid, now, q, StAllServFail, false)
    ensures Purging(was, now, when, nservers) && Exhausted(now, nservers) < Exhausted(mid, nservers)
  {
    hide Finished, Settles, Overdue, Kin, RestingOk, Later, Parents;
    assert RestingOk(mid[q]);
    FailsElse(mid, now, q, StAllServFail);
    FailsLater(mid, now, q, StAllServFail);
    assert q in Exhausted(was, nservers);
    ParentsMore(was, mid, now, {q}, Exhausted(was, nservers));
    LaterOn(was, mid, now);
    SettlesNetwork(mid, now, q);
    SettlesOverdue(mid, now, q, when);
    SettlesExhausted(mid, now, q, nservers);
    if mid[q].parent.None? {
      FailsTop(mid, now, q, StAllServFail);
    }
    forall x: QId | x in was && was[x].parent.None? && OnNetwork(was[x])
      ensures PurgedAt(was, now, x, nservers)
    {
      assert PurgedAt(was, mid, x, nservers);
    }
  }

  /** After a pass over udpw and one over tcpw, nothing is past its time. */
  lemma BothQueues(mid: Table, now: Table, when: int)
    requires Fewer(mid, now, when)
    requires forall x: QId :: x in Overdue(mid, when) ==> mid[x].state == TcpW
    requires forall x: QId :: x in Overdue(now, when) ==> now[x].state == ToSend
    ensures Overdue(now, when) == {}
  {
    hide Overdue;
  }

  /** What reconnecting makes of a top-level query waiting for the network: at most one more try is
      counted, and it fails only over TCP, tried on every server. */
  ghost predicate ReconnectedAt(was: Table, now: Table, x: QId, tries: nat, nservers: nat)
    requires x in was
  {
    && x in now
    && (now[x] == was[x]
        || (was[x].state == TcpW && now[x] == was[x].(retries := now[x].retries) && was[x].retries <= now[x].retries <= was[x].retries + tries)
        || (was[x].state == TcpW && was[x].retries + tries > nservers
            && now[x] == was[x].(id := -1, state := Done, status := StAllServFail, retries := now[x].retries)))
  }

  /** Queries over TCP were there, and had almost as many tries. */
  ghost predicate TriesFrom(was: Table, now: Table, tries: nat) {
    forall x: QId :: x in now && now[x].state == TcpW ==> x in was && was[x].state == TcpW && now[x].retries <= was[x].retries + tries
  }

  ghost predicate Reconnected(was: Table, now: Table, tries: nat, nservers: nat) {
    && Later(was, now) && Parents(was, now, Exhaustible(was, nservers, tries)) && TriesFrom(was, now, tries)
    && forall x: QId :: x in was && was[x].parent.None? && OnNetwork(was[x]) ==> ReconnectedAt(was, now, x, tries, nservers)
  }

  lemma ReconnectedPurged(was: Table, mid: Table, now: Table, tries: nat, when: int, nservers: nat)
    requires Reconnected(was, mid, tries, nservers) && Purging(mid, now, when, nservers) && DoneStay(mid, now)
    ensures Reconnected(was, now, tries, nservers)
  {
    hide Later, Parents;
    LaterOn(was, mid, now);
    ParentsMore(was, mid, now, Exhausted(mid, nservers), Exhaustible(was, nservers, tries));
    forall x: QId | x in was && was[x].parent.None? && OnNetwork(was[x])
      ensures ReconnectedAt(was, now, x, tries, nservers)
    {
      assert ReconnectedAt(was, mid, x, tries, nservers);
      if OnNetwork(mid[x]) {
        assert PurgedAt(mid, now, x, nservers);
      }
    }
  }

  lemma ReconnectedRetried(was: Table, mid: Table, now: Table, s: set<QId>, nservers: nat)
    requires Reconnected(was, mid, 0, nservers) && Retried(mid, now, s) && OnTcp(mid, {}, s)
    ensures Reconnected(was, now, 1, nservers) && DoneStay(mid, now)
  {
    hide Later, Parents;
    RetriedLater(mid, now, s);
    LaterOn(was, mid, now);
    ParentsWiden(was, mid, Exhaustible(was, nservers, 0), Exhaustible(was, nservers, 1));
    ParentsMore(was, mid, now, {}, Exhaustible(was, nservers, 1));
    forall x: QId | x in was && was[x].parent.None? && OnNetwork(was[x])
      ensures ReconnectedAt(was, now, x, 1, nservers)
    {
      assert ReconnectedAt(was, mid, x, 0, nservers);
    }
  }

  lemma RetriedLater(was: Table, now: Table, s: set<QId>)
    requires Retried(was, now, s) && OnTcp(was, {}, s)
    ensures Later(was, now) && Parents(was, now, {})
  {
  }

  lemma ReconnectedNone(t: Table, nservers: nat)
    ensures Reconnected(t, t, 0, nservers)
  {
    LaterSelf(t);
    ParentsNone(t, Exhaustible(t, nservers, 0));
  }

  lemma ReconnectedMost(was: Table, now: Table, tries: nat, nservers: nat)
    requires Reconnected(was, now, tries, nservers) && tries <= 1
    ensures Reconnected(was, now, 1, nservers)
  {
    hide Later, Parents;
    ParentsWiden(was, now, Exhaustible(was, nservers, tries), Exhaustible(was, nservers, 1));
    forall x: QId | x in was && was[x].parent.None? && OnNetwork(was[x])
      ensures ReconnectedAt(was, now, x, 1, nservers)
    {
      assert ReconnectedAt(was, now, x, tries, nservers);
    }
  }

  lemma PurgingFewer(was: Table, now: Table, when: int, nservers: nat)
    requires Purging(was, now, when, nservers)
    ensures Overdue(now, when) <= Overdue(was, when)
  {
    hide Overdue;
  }

  // ---------------------------------------------------------------- a whole acting pass

  /** What adns_processtimeouts makes of a top-level query waiting for an answer over TCP: past its time
      it fails with a timeout; before, it may be tried once more, and fails if that is one try too many
      for all servers. */
  predicate TcpTicked(was: Query, now: Query, when: int, nservers: nat) {
    if when > was.timeout then now == was.(id := -1, state := Done, status := StTimeout)
    else
      || (now == was.(retries := now.retries) && was.retries <= now.retries <= was.retries + 1)
      || (was.retries + 1 > nservers && now == was.(id := -1, state := Done, status := StAllServFail, retries := now.retries))
  }

  /** A query that went over to TCP at this time, with so many tries. */
  function WentToTcp(qu: Query, when: int, retries: nat): Query {
    qu.(state := TcpW, timeout := when + TCPWAIT, retries := retries)
  }

  /** What adns_processtimeouts makes of a top-level query waiting for an answer over UDP. A datagram too
      big for UDP takes it to TCP; what happens there may fail it at once. */
  predicate Ticked(was: Query, now: Query, when: int, nservers: nat, tooBig: TooBig)
    requires nservers > 0
  {
    if when <= was.timeout then now == was
    else if was.retries >= UDPMAXRETRIES then now == was.(id := -1, state := Done, status := StTimeout)
    else if tooBig(was.question, was.udpNextServer, when) then
      TcpTicked(WentToTcp(was, when, 0), now, when, nservers) || TcpTicked(WentToTcp(was, when, 1), now, when, nservers)
    else now == UdpSent(was, when, nservers)
  }

  lemma Reconnects(was: Query, now: Query, when: int, nservers: nat)
    requires when <= was.timeout
    requires
      || now == was
      || (now == was.(retries := now.retries) && was.retries <= now.retries <= was.retries + 1)
      || (was.retries + 1 > nservers && now == was.(id := -1, state := Done, status := StAllServFail, retries := now.retries))
    ensures TcpTicked(was, now, when, nservers)
  {
    assert was == was.(retries := was.retries);
  }

  lemma PassTicks(was: Table, udp: Table, tcp: Table, now: Table, x: QId, when: int, nservers: nat, tooBig: TooBig)
    requires nservers > 0 && x in was && was[x].parent.None? && was[x].state == ToSend
    requires Passed(was, udp, when, nservers, tooBig) && forall y: QId :: y in Overdue(udp, when) ==> udp[y].state == TcpW
    requires Passed(udp, tcp, when, nservers, tooBig) && Reconnected(tcp, now, 1, nservers) && DoneStay(tcp, now)
    ensures x in now && Ticked(was[x], now[x], when, nservers, tooBig)
  {
    hide Later, Parents, Fewer, TriesFrom, TcpTicked, Exhaustible;
    assert WokenAt(was, udp, x, when, nservers, tooBig);
    assert udp[x].state == ToSend ==> x !in Overdue(udp, when);
    if OnNetwork(udp[x]) {
      assert WokenAt(udp, tcp, x, when, nservers, tooBig);
      if OnNetwork(tcp[x]) {
        assert ReconnectedAt(tcp, now, x, 1, nservers);
      }
      if udp[x].state == TcpW {
        assert tcp[x] == udp[x] == WentToTcp(was[x], when, udp[x].retries);
        Reconnects(tcp[x], now[x], when, nservers);
      }
    }
  }

  lemma PassTcpTicks(was: Table, udp: Table, tcp: Table, now: Table, x: QId, when: int, nservers: nat, tooBig: TooBig)
    requires nservers > 0 && x in was && was[x].parent.None? && was[x].state == TcpW
    requires Passed(was, udp, when, nservers, tooBig) && Passed(udp, tcp, when, nservers, tooBig) && Overdue(tcp, when) == {}
    requires Reconnected(tcp, now, 1, nservers) && DoneStay(tcp, now)
    ensures x in now && TcpTicked(was[x], now[x], when, nservers)
  {
    hide Later, Parents, Fewer, TriesFrom;
    assert WokenAt(was, udp, x, when, nservers, tooBig);
    assert x in Overdue(tcp, when) <==> x in tcp && OnNetwork(tcp[x]) && when > tcp[x].timeout;
    if OnNetwork(udp[x]) {
      assert WokenAt(udp, tcp, x, when, nservers, tooBig);
      if OnNetwork(tcp[x]) {
        assert ReconnectedAt(tcp, now, x, 1, nservers);
      }
    }
  }

  /** The queries that can fail in a pass: those past their time, and those over TCP one more try is too
      many for. */
  function Failing(t: Table, when: int, nservers: nat): set<QId> {
    Overdue(t, when) + Exhaustible(t, nservers, 1)
  }

  lemma PassParents(was: Table, udp: Table, tcp: Table, now: Table, when: int, nservers: nat, tooBig: TooBig)
    requires nservers > 0 && Passed(was, udp, when, nservers, tooBig) && Passed(udp, tcp, when, nservers, tooBig)
    requires Reconnected(tcp, now, 1, nservers)
    ensures Later(was, now) && Parents(was, now, Failing(was, when, nservers))
  {
    hide Later, Parents, WokenAt, ReconnectedAt, DoneStay, TriesFrom;
    var failing := Failing(was, when, nservers);
    LaterOn(was, udp, tcp);
    LaterOn(was, tcp, now);
    FewerOverdue(was, udp, when);
    ParentsWiden(was, udp, Overdue(was, when), failing);
    ParentsMore(was, udp, tcp, Overdue(udp, when), failing);
    ParentsMore(was, tcp, now, Exhaustible(tcp, nservers, 1), failing);
  }

  lemma PassedFewer(was: Table, now: Table, when: int, nservers: nat, tooBig: TooBig)
    requires nservers > 0 && Passed(was, now, when, nservers, tooBig)
    ensures Fewer(was, now, when) && DoneStay(was, now) && Later(was, now)
  {
  }

  lemma PurgingLater(was: Table, now: Table, when: int, nservers: nat)
    requires Purging(was, now, when, nservers)
    ensures Later(was, now)
  {
  }

  lemma ReconnectedLater(was: Table, now: Table, tries: nat, nservers: nat)
    requires Reconnected(was, now, tries, nservers)
    ensures Later(was, now)
  {
  }

  lemma FewerOverdue(was: Table, now: Table, when: int)
    requires Fewer(was, now, when)
    ensures Overdue(now, when) <= Overdue(was, when)
  {
    hide Overdue;
  }

  // ---------------------------------------------------------------- how long to sleep

  /** How long until a deadline. */
  function Due(when: int, deadline: int): (d: int)
    ensures d >= 0
  {
    if deadline > when then deadline - when else 0
  }

  /** r is the least of r0 and the times the queue's queries are due. */
  ghost predicate LeastDue(t: Table, queue: seq<QId>, when: int, r0: Option<int>, r: Option<int>) {
    && (r.None? ==> r0.None? && queue == [])
    && (r.Some? && r0.Some? ==> r.value <= r0.value)
    && (r.Some? ==> forall x :: x in queue && x in t ==> r.value <= Due(when, t[x].timeout))
    && (r.Some? && r != r0 ==> exists x :: x in queue && x in t && r.value == Due(when, t[x].timeout))
  }
}
