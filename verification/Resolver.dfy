/** The query life cycle of the resolver: submission, sending, replies, timeouts, cancellation and
    completion over the four queues and the TCP connection. */
module Resolver {
  import opened Bytes
  import opened Sequences
  import opened WireNames
  import opened TextNames
  import opened NameMethods
  import opened QueryTable
  import opened QueryEndings
  import opened QuerySending
  import opened QueryReplies
  import opened QueryTimeouts
  import RR = ResourceRecords
  import AS = AnswerSections

  datatype TcpState = Disconnected | Connecting | Connected | Broken

  /** What adns__internal_check answers: EAGAIN, ESRCH, or the query with its answer. */
  datatype CheckResult = Again | NoSuch | Answer(q: QId, answer: Query)

  class Resolver {
    const nservers: nat
    const searchlist: seq<seq<Byte>>
    const searchndots: nat
    /** Which datagrams the system refuses as too big. */
    const tooBig: TooBig
    const tcpWrite: TcpWrite

    /** The query records on the heap, and the queues. */
    var queries: Table
    var udpw: seq<QId>
    var tcpw: seq<QId>
    var childw: seq<QId>
    var output: seq<QId>
    var nextid: nat

    var tcpstate: TcpState
    var tcpserver: nat
    var tcpsocketOpen: bool
    /** None is the timeval whose tv_sec is zero. */
    var tcptimeout: Option<int>
    /** The bytes that wait to be sent, and those sent since the connection was made. */
    var tcpsend: seq<Byte>
    ghost var wire: seq<Byte>
    var tcprecvUsed: nat
    var tcprecvSkip: nat

    /** The next query record: every one ever allocated has a number below it. */
    var next: QId
    ghost var freed: set<QId>
    /** The top-level ones, and those given back to the user or cancelled. */
    ghost var tops: set<QId>
    ghost var returned: set<QId>
    ghost var cancelled: set<QId>

    // -------------------------------------------------------------- consistency

    /** checkc_global. */
    ghost predicate TcpOk()
      reads `tcpstate, `tcpserver, `tcpsocketOpen, `tcptimeout, `tcpsend, `wire, `tcprecvUsed, `tcprecvSkip
    {
      && tcpserver < nservers
      && (tcpsocketOpen <==> tcpstate == Connecting || tcpstate == Connected)
      && (tcpstate != Connected ==> tcpsend == [] && tcprecvUsed == tcprecvSkip == 0)
      && tcprecvSkip <= tcprecvUsed
      && (tcpstate == Connecting ==> tcptimeout.Some?)
    }

    /** How often a query waiting for TCP can have been sent or failed to connect. */
    ghost function Bound(): nat
      reads `tcpstate
    {
      if tcpstate == Connected || tcpstate == Broken then nservers + 1 else nservers
    }

    /** Everything adns__consistency asserts, for the queries that are not being processed. */
    ghost predicate Valid(busy: set<QId>)
      reads `queries, `udpw, `tcpw, `childw, `output, `next, `freed, `tops, `returned, `cancelled
      reads `tcpstate, `tcpserver, `tcpsocketOpen, `tcptimeout, `tcpsend, `wire, `tcprecvUsed, `tcprecvSkip
    {
      && nservers > 0 && TcpOk()
      && busy <= queries.Keys
      && Queues(queries, udpw, tcpw, childw, output, busy)
      && Kin(queries)
      && AllOk(queries, nservers, searchlist)
      && Resting(queries, busy)
      && TcpRetries(queries, busy, Bound())
      && Accounts(queries, next, freed, tops, returned, cancelled)
    }

    /** Between calls. */
    ghost predicate Consistent()
      reads `queries, `udpw, `tcpw, `childw, `output, `next, `freed, `tops, `returned, `cancelled
      reads `tcpstate, `tcpserver, `tcpsocketOpen, `tcptimeout, `tcpsend, `wire, `tcprecvUsed, `tcprecvSkip
    {
      Valid({}) && Awaited(queries, {})
    }

    constructor (nservers: nat, searchlist: seq<seq<Byte>>, searchndots: nat, tooBig: TooBig, tcpWrite: TcpWrite)
      requires nservers > 0
      ensures Consistent() && queries == map[] && udpw == tcpw == childw == output == [] && nextid == 12345
      ensures tcpstate == Disconnected && tcpserver == 0 && !tcpsocketOpen && tcptimeout == None
      ensures tcpsend == [] && tcprecvUsed == tcprecvSkip == 0 && wire == []
      ensures next == 0 && freed == tops == returned == cancelled == {}
      ensures this.nservers == nservers && this.searchlist == searchlist && this.searchndots == searchndots
      ensures this.tooBig == tooBig && this.tcpWrite == tcpWrite
    {
      this.nservers, this.searchlist, this.searchndots := nservers, searchlist, searchndots;
      this.tooBig, this.tcpWrite := tooBig, tcpWrite;
      queries, udpw, tcpw, childw, output, nextid := map[], [], [], [], [], 12345;
      tcpstate, tcpserver, tcpsocketOpen, tcptimeout := Disconnected, 0, false, None;
      tcpsend, tcprecvUsed, tcprecvSkip, wire := [], 0, 0, [];
      next, freed, tops, returned, cancelled := 0, {}, {}, {}, {};
    }

    // -------------------------------------------------------------- queue moves

    /** ALIST_UNLINK from the queue the state names. */
    method TakeOff(q: QId, ghost busy: set<QId>)
      requires Valid(busy) && q in queries && q !in busy
      modifies `udpw, `tcpw, `childw, `output
      ensures Valid(busy + {q})
      ensures udpw == (if queries[q].state == ToSend then Without(old(udpw), q) else old(udpw))
      ensures tcpw == (if queries[q].state == TcpW then Without(old(tcpw), q) else old(tcpw))
      ensures childw == (if queries[q].state == ChildW then Without(old(childw), q) else old(childw))
      ensures output == (if queries[q].state == Done then Without(old(output), q) else old(output))
    {
      hide Without, QueueIs, Kin, QueryOk, RestingOk, Accounts;
      QueueTakeOff(queries, udpw, ToSend, busy, q);
      QueueTakeOff(queries, tcpw, TcpW, busy, q);
      QueueTakeOff(queries, childw, ChildW, busy, q);
      QueueTakeOff(queries, output, Done, busy, q);
      match queries[q].state {
        case ToSend => udpw := Without(udpw, q);
        case TcpW => tcpw := Without(tcpw, q);
        case ChildW => childw := Without(childw, q);
        case Done => output := Without(output, q);
      }
    }

    /** ALIST_LINK_TAIL to the queue the state names. */
    method PutOn(q: QId, ghost busy: set<QId>)
      requires Valid(busy) && q in busy && RestingOk(queries[q])
      requires queries[q].state == TcpW ==> queries[q].retries <= Bound()
      modifies `udpw, `tcpw, `childw, `output
      ensures Valid(busy - {q})
      ensures udpw == (if queries[q].state == ToSend then old(udpw) + [q] else old(udpw))
      ensures tcpw == (if queries[q].state == TcpW then old(tcpw) + [q] else old(tcpw))
      ensures childw == (if queries[q].state == ChildW then old(childw) + [q] else old(childw))
      ensures output == (if queries[q].state == Done then old(output) + [q] else old(output))
    {
      hide QueueIs, Kin, QueryOk, RestingOk, Accounts;
      QueuePutOn(queries, udpw, ToSend, busy, q);
      QueuePutOn(queries, tcpw, TcpW, busy, q);
      QueuePutOn(queries, childw, ChildW, busy, q);
      QueuePutOn(queries, output, Done, busy, q);
      match queries[q].state {
        case ToSend => udpw := udpw + [q];
        case TcpW => tcpw := tcpw + [q];
        case ChildW => childw := childw + [q];
        case Done => output := output + [q];
      }
    }

    /** Fields of a query being processed change; its family does not. */
    method Set(q: QId, qu: Query, ghost busy: set<QId>)
      requires Valid(busy) && q in busy && SameKin(queries[q], qu) && QueryOk(qu, nservers, searchlist)
      requires qu.parent.Some? ==> qu.state != Done
      modifies `queries
      ensures Valid(busy) && queries == old(queries)[q := qu]
    {
      hide QueueIs, Kin, QueryOk, RestingOk, Accounts;
      AccountsUpdate(queries, next, freed, tops, returned, cancelled, q, qu);
      QueueUpdate(queries, udpw, ToSend, busy, q, qu);
      QueueUpdate(queries, tcpw, TcpW, busy, q, qu);
      QueueUpdate(queries, childw, ChildW, busy, q, qu);
      QueueUpdate(queries, output, Done, busy, q, qu);
      KinUpdate(queries, q, qu);
      queries := queries[q := qu];
    }

    // -------------------------------------------------------------- freeing

    /** A child, off its queue, leaves its parent's list and is freed. */
    method FreeChild(c: QId, ghost busy: set<QId>)
      requires Valid(busy) && c in busy && queries[c].parent.Some? && queries[c].children == []
      modifies `queries, `freed
      ensures Valid(busy - {c}) && freed == old(freed) + {c}
      ensures var p := old(queries)[c].parent.value;
        && p in old(queries) && p != c
        && queries == (old(queries) - {c})[p := old(queries)[p].(children := Without(old(queries)[p].children, c))]
    {
      hide Queues, Kin, Without, Accounts, AllOk, Resting, TcpRetries;
      ParentWaits(queries, busy, c);
      ChildIsLeaf(queries, c);
      KinChildGone(queries, c);
      ReleasedQueues(queries, udpw, tcpw, childw, output, busy, c);
      ReleasedRules(queries, busy, c, nservers, searchlist, Bound());
      AccountsChildGone(queries, Released(queries, c), next, freed, tops, returned, cancelled, c);
      var p := queries[c].parent.value;
      queries, freed := (queries - {c})[p := queries[p].(children := Without(queries[p].children, c))], freed + {c};
    }

    /** A top-level query, off its queue, is freed: handed back to the user, or cancelled. */
    method FreeTop(q: QId, handedBack: bool, ghost busy: set<QId>)
      requires Valid(busy) && q in busy && queries[q].parent.None? && queries[q].children == []
      modifies `queries, `freed, `returned, `cancelled
      ensures Valid(busy - {q}) && freed == old(freed) + {q} && queries == old(queries) - {q}
      ensures returned == (if handedBack then old(returned) + {q} else old(returned))
      ensures cancelled == (if handedBack then old(cancelled) else old(cancelled) + {q})
    {
      hide QueueIs, Kin, Accounts, QueryOk;
      KinTopGone(queries, q);
      AccountsTopGone(queries, next, freed, tops, returned, cancelled, q);
      QueueRemove(queries, udpw, ToSend, busy, q);
      QueueRemove(queries, tcpw, TcpW, busy, q);
      QueueRemove(queries, childw, ChildW, busy, q);
      QueueRemove(queries, output, Done, busy, q);
      queries, freed := queries - {q}, freed + {q};
      if handedBack {
        returned := returned + {q};
      } else {
        cancelled := cancelled + {q};
      }
    }

    /** What validity says, without how. */
    lemma Parts(busy: set<QId>)
      requires Valid(busy)
      ensures nservers > 0 && TcpOk() && busy <= queries.Keys
      ensures Queues(queries, udpw, tcpw, childw, output, busy) && Kin(queries) && AllOk(queries, nservers, searchlist)
      ensures Resting(queries, busy) && TcpRetries(queries, busy, Bound())
      ensures Accounts(queries, next, freed, tops, returned, cancelled)
    {
    }

    // -------------------------------------------------------------- cancellation

    /** Freeing a query that is off its queue. */
    method Release(q: QId, ghost busy: set<QId>)
      requires Valid(busy) && q in busy && q in queries && queries[q].children == []
      modifies `queries, `freed, `returned, `cancelled
      ensures Valid(busy - {q}) && queries == Released(old(queries), q) && freed == old(freed) + {q}
      ensures returned == old(returned)
      ensures cancelled == if old(queries)[q].parent.None? then old(cancelled) + {q} else old(cancelled)
    {
      hide Valid, Without;
      if queries[q].parent.Some? {
        FreeChild(q, busy);
      } else {
        FreeTop(q, false, busy);
      }
    }

    /** adns_cancel: the query and its children leave their queues and are freed. */
    method Cancel(q: QId, ghost busy: set<QId>)
      requires Valid(busy) && q in queries && q !in busy && Kids(queries, q) !! busy + {q}
      modifies `queries, `udpw, `tcpw, `childw, `output, `freed, `returned, `cancelled
      ensures Valid(busy) && Gone(old(queries), queries, q)
      ensures freed == old(freed) + (old(queries).Keys - queries.Keys) && queries.Keys <= old(queries).Keys
      ensures returned == old(returned)
      ensures cancelled == if old(queries)[q].parent.None? then old(cancelled) + {q} else old(cancelled)
      ensures output == if old(queries)[q].state == Done then Without(old(output), q) else old(output)
      decreases Depth(queries, q), 1
    {
      hide *;
      ghost var was := queries;
      Parts(busy);
      TakeOff(q, busy);
      CancelChildren(q, busy + {q});
      Parts(busy + {q});
      ChildlessIs(was, queries, q);
      GoneReleased(was, queries, q);
      Release(q, busy + {q});
      assert busy + {q} - {q} == busy;
    }

    /** cancel_children. */
    method CancelChildren(q: QId, ghost busy: set<QId>)
      requires Valid(busy) && q in busy && q in queries && Kids(queries, q) !! busy
      modifies `queries, `udpw, `tcpw, `childw, `output, `freed, `returned, `cancelled
      ensures Valid(busy) && Childless(old(queries), queries, q)
      ensures freed == old(freed) + (old(queries).Keys - queries.Keys) && queries.Keys <= old(queries).Keys
      ensures returned == old(returned) && cancelled == old(cancelled) && output == old(output)
      decreases Depth(queries, q), 0
    {
      hide *;
      ghost var was := queries;
      LosingBegins(was, q);
      while queries[q].children != []
        invariant Valid(busy) && q in queries && Losing(was, queries, q) && Kids(queries, q) <= Kids(was, q)
        invariant freed == old(freed) + (was.Keys - queries.Keys) && queries.Keys <= was.Keys
        invariant returned == old(returned) && cancelled == old(cancelled) && output == old(output)
        decreases |queries[q].children|
      {
        var c := queries[q].children[0];
        ghost var mid := queries;
        Parts(busy);
        FirstKid(was, queries, q, busy);
        ShallowKid(was, queries, q, c);
        Cancel(c, busy);
        LosingOne(was, mid, queries, q, c);
      }
      LosingEnds(was, queries, q);
    }

    // -------------------------------------------------------------- completion

    /** How many queries up the answer can travel. */
    ghost function Height(q: QId): nat
      reads `queries
    {
      if q in queries && queries[q].parent.Some? then 1 else 0
    }

    /** A top-level query without children goes to the output queue. */
    method FinishTop(q: QId)
      requires Valid({q}) && queries[q].parent.None? && queries[q].children == []
      modifies `queries, `udpw, `tcpw, `childw, `output
      ensures Valid({}) && queries == old(queries)[q := old(queries)[q].(id := -1, state := Done)]
      ensures output == old(output) + [q]
    {
      hide *;
      Parts({q});
      var qu := queries[q].(id := -1, state := Done);
      DoneRests(queries[q]);
      SameSendingOk(queries[q], qu, nservers, searchlist);
      Set(q, qu, {q});
      PutOn(q, {q});
      assert {q} - {q} == {};
    }

    /** A child's answer is ready: it leaves its parent, the parent leaves childw, and the child is
        freed. The code frees the child after the callback, which only reads its answer. */
    method Unhook(q: QId)
      requires Valid({q}) && q in queries && queries[q].parent.Some? && queries[q].children == []
      requires Awaited(queries, {q})
      modifies `queries, `udpw, `tcpw, `childw, `output, `freed
      ensures var p := old(queries)[q].parent.value;
        && p in old(queries) && p != q && p in queries && old(queries)[p].state == ChildW && queries[p].parent.None?
        && Valid({p}) && Awaited(queries, {p}) && Gone(old(queries), queries, q)
        && queries[p] == old(queries)[p].(children := Without(old(queries)[p].children, q)) && RestingOk(queries[p])
        && (queries[p].children != [] <==> |old(queries)[p].children| > 1)
      ensures output == old(output) && freed == old(freed) + {q} && queries.Keys == old(queries).Keys - {q}
    {
      hide *;
      ghost var was := queries;
      Parts({q});
      ChildGone(was, q);
      ParentWaits(was, {q}, q);
      var p := queries[q].parent.value;
      WaitingRests(was, p, {q}, Without(was[p].children, q));
      TakeOff(p, {q});
      assert {q} + {p} == {q, p} && {q, p} - {q} == {p};
      FreeChild(q, {q, p});
      HeldAwaited(was, queries, q, p);
    }

    /** The callback a child's answer goes to, and its effect on the parent. */
    method AnswerParent(q: QId, sameAddr: bool)
      requires Valid({q}) && q in queries && Awaited(queries, {q}) && queries[q].parent.Some? && queries[q].children == []
      modifies `queries, `udpw, `tcpw, `childw, `output, `freed, `returned, `cancelled
      ensures Consistent() && Finished(old(queries), queries, q, old(queries)[q].status, sameAddr)
      ensures Told(old(queries), queries, q, old(queries)[q].status, sameAddr)
      ensures output == old(output) + Ready(Outlet(old(queries), q, old(queries)[q].status, sameAddr))
      ensures freed == old(freed) + (old(queries).Keys - queries.Keys) && queries.Keys <= old(queries).Keys
      ensures returned == old(returned) && cancelled == old(cancelled)
      decreases Height(q), 0
    {
      hide Valid, Queues, Kin, QueryOk, AllOk, RestingOk, Resting, TcpRetries, Awaited, Accounts, Gone, Childless, Completed, Finished, Without, Kids, Outlet, CallbackOf, Told;
      ghost var was := queries;
      Parts({q});
      var p, status := queries[q].parent.value, queries[q].status;
      Unhook(q);
      OutletChild(was, q, status, sameAddr, p);
      ghost var mid := queries;
      match CallbackOf(queries[p].rrtype, status, sameAddr, queries[p].children != []) {
        case Wait =>
          PutOn(p, {p});
          assert {p} - {p} == {};
          WaitAwaited(was, queries, q);
        case Complete =>
          OutletTop(mid, p, mid[p].status, sameAddr);
          QueryDone(p, sameAddr);
          CompletedAfterGone(was, mid, queries, q, p, mid[p].status);
        case Fail(st) =>
          OutletTop(mid, p, st, false);
          QueryFail(p, st);
          CompletedAfterGone(was, mid, queries, q, p, st);
      }
      EndsTold(was, queries, q, status, sameAddr);
    }

    /** adns__query_done, for the status the answer has. */
    method QueryDone(q: QId, sameAddr: bool)
      requires Valid({q}) && q in queries && Awaited(queries, {q})
      modifies `queries, `udpw, `tcpw, `childw, `output, `freed, `returned, `cancelled
      ensures Consistent() && Finished(old(queries), queries, q, old(queries)[q].status, sameAddr)
      ensures Told(old(queries), queries, q, old(queries)[q].status, sameAddr)
      ensures output == old(output) + Ready(Outlet(old(queries), q, old(queries)[q].status, sameAddr))
      ensures freed == old(freed) + (old(queries).Keys - queries.Keys) && queries.Keys <= old(queries).Keys
      ensures returned == old(returned) && cancelled == old(cancelled)
      decreases Height(q), 1
    {
      hide Valid, Queues, Kin, QueryOk, AllOk, RestingOk, Resting, TcpRetries, Awaited, Accounts, Gone, Childless, Completed, Finished, Without, Kids, Outlet, CallbackOf, Told;
      ghost var was := queries;
      Parts({q});
      KidsApart(queries, q, {q});
      CancelChildren(q, {q});
      Parts({q});
      ChildlessIs(was, queries, q);
      if queries[q].parent.None? {
        OutletTop(was, q, was[q].status, sameAddr);
        DoneCompletes(was, queries, q, was[q].status);
        FinishTop(q);
        CompletedAwaited(was, queries, q, was[q].status);
      } else {
        ChildlessChild(was, queries, q);
        AnswerParent(q, sameAddr);
      }
      EndsTold(was, queries, q, was[q].status, sameAddr);
    }

    /** adns__query_fail. */
    method QueryFail(q: QId, st: Status)
      requires Valid({q}) && q in queries && Awaited(queries, {q})
      modifies `queries, `udpw, `tcpw, `childw, `output, `freed, `returned, `cancelled
      ensures Consistent() && Finished(old(queries), queries, q, st, false)
      ensures Told(old(queries), queries, q, st, false)
      ensures output == old(output) + Ready(Outlet(old(queries), q, st, false))
      ensures freed == old(freed) + (old(queries).Keys - queries.Keys) && queries.Keys <= old(queries).Keys
      ensures returned == old(returned) && cancelled == old(cancelled)
      decreases Height(q), 2
    {
      hide Valid, Queues, Kin, QueryOk, AllOk, RestingOk, Resting, TcpRetries, Awaited, Accounts, Gone, Childless, Completed, Finished, Without, Kids, Told;
      ghost var was := queries;
      Parts({q});
      KidsApart(queries, q, {q});
      CancelChildren(q, {q});
      Parts({q});
      ghost var mid := queries;
      var qu := queries[q].(status := st);
      SameSendingOk(queries[q], qu, nservers, searchlist);
      ChildlessAwaited(was, mid, q, qu);
      if qu.parent.Some? {
        ChildIsLeaf(mid, q);
      }
      Set(q, qu, {q});
      QueryDone(q, false);
      FinishedAfterChildless(was, mid, queries, q, st);
      EndsTold(was, queries, q, st, false);
    }

    // -------------------------------------------------------------- the TCP connection

    /** Validity after queries on tcpw have been tried again. */
    lemma RetriedValid(was: Table, s: set<QId>, busy: set<QId>)
      requires nservers > 0 && TcpOk() && busy <= was.Keys
      requires Queues(was, udpw, tcpw, childw, output, busy) && Kin(was) && AllOk(was, nservers, searchlist)
      requires Resting(was, busy) && Accounts(was, next, freed, tops, returned, cancelled)
      requires Retried(was, queries, s) && OnTcp(was, busy, s) && TcpRetries(queries, busy, Bound())
      ensures Valid(busy) && (Awaited(was, busy) ==> Awaited(queries, busy))
    {
      hide Queues, Kin, AllOk, Resting, Accounts, TcpRetries, OnTcp, Awaited;
      RetriedKin(was, queries, s);
      RetriedTable(was, queries, s, busy, nservers, searchlist);
      RetriedQueues(was, queries, s, udpw, tcpw, childw, output, busy);
      RetriedAccounts(was, queries, s, next, freed, tops, returned, cancelled);
    }

    /** tcp_close. */
    method TcpClose()
      modifies `tcpsocketOpen, `tcpsend, `wire, `tcprecvUsed, `tcprecvSkip
      ensures !tcpsocketOpen && tcpsend == [] && tcprecvUsed == tcprecvSkip == 0
    {
      tcpsocketOpen, tcpsend, tcprecvUsed, tcprecvSkip := false, [], 0, 0;
    }

    /** Every query waiting for TCP counts one more try. */
    method RetryAll()
      requires NoDup(tcpw) && forall x :: x in tcpw ==> x in queries
      modifies `queries
      ensures Retried(old(queries), queries, Elements(tcpw))
    {
      hide Retried;
      ghost var was := queries;
      RetriedNone(queries);
      assert Elements(tcpw[..0]) == {};
      for i := 0 to |tcpw|
        invariant Retried(was, queries, Elements(tcpw[..i])) && queries.Keys == was.Keys
      {
        var x := tcpw[i];
        RetriedMore(was, queries, Elements(tcpw[..i]), x);
        queries := queries[x := queries[x].(retries := queries[x].retries + 1)];
        assert Elements(tcpw[..i + 1]) == Elements(tcpw[..i]) + {x};
      }
      assert tcpw[..|tcpw|] == tcpw;
    }

    /** adns__tcp_broken: a failed connection attempt counts as a try of every query on tcpw. */
    method TcpBroken(ghost busy: set<QId>)
      requires Valid(busy) && tcpstate in {Connecting, Connected}
      modifies `queries, `tcpstate, `tcpserver, `tcpsocketOpen, `tcpsend, `wire, `tcprecvUsed, `tcprecvSkip
      ensures Valid(busy) && tcpstate == Broken && tcpserver == (old(tcpserver) + 1) % nservers
      ensures Awaited(old(queries), busy) ==> Awaited(queries, busy)
      ensures Retried(old(queries), queries, if old(tcpstate) == Connecting then Elements(tcpw) else {})
    {
      hide Valid, Queues, Kin, AllOk, Resting, TcpRetries, OnTcp, Accounts, Awaited, Retried, Elements;
      ghost var was, retried: set<QId> := queries, {};
      ghost var bound := Bound();
      Parts(busy);
      OnTcpw(busy);
      RetriedNone(queries);
      if tcpstate == Connecting {
        RetryAll();
        retried := Elements(tcpw);
      }
      TcpClose();
      tcpstate, tcpserver := Broken, (tcpserver + 1) % nservers;
      RetriedBound(was, queries, retried, busy, nservers, bound);
      RetriedValid(was, retried, busy);
    }

    lemma OnTcpw(busy: set<QId>)
      requires Valid(busy)
      ensures NoDup(tcpw) && OnTcp(queries, busy, Elements(tcpw)) && OnTcp(queries, busy, {})
      ensures forall x :: x in tcpw ==> x in queries && queries[x].state == TcpW && x !in busy
    {
    }

    /** adns__querysend_tcp: one more try, on a connection that may break under it. */
    method QuerySendTcp(q: QId, ghost busy: set<QId>)
      requires Valid(busy) && q in queries && q !in busy && queries[q].state == TcpW
      requires tcpstate == Connected ==> queries[q].retries <= nservers
      modifies `queries, `tcpstate, `tcpserver, `tcpsocketOpen, `tcptimeout, `tcpsend, `wire, `tcprecvUsed, `tcprecvSkip
      ensures Valid(busy) && (Awaited(old(queries), busy) ==> Awaited(queries, busy))
      ensures Retried(old(queries), queries, if old(tcpstate) == Connected then {q} else {})
      ensures tcptimeout == if old(tcpstate) == Connected then None else old(tcptimeout)
      ensures var qu := old(queries)[q];
        var taken := if old(tcpsend) == [] then tcpWrite(old(tcpserver), qu.question, qu.retries) else Some(0);
        if old(tcpstate) != Connected then tcpstate == old(tcpstate) && tcpserver == old(tcpserver)
        else if taken.None? then tcpstate == Broken && nservers > 0 && tcpserver == (old(tcpserver) + 1) % nservers
        else tcpstate == Connected && tcpserver == old(tcpserver)
             && wire + tcpsend == old(wire + tcpsend) + GoesOut(qu.question, taken.value)
    {
      hide Valid, Queues, Kin, AllOk, Resting, TcpRetries, OnTcp, Accounts, Awaited, Retried, Elements, GoesOut, Message;
      ghost var was := queries;
      RetriedNone(queries);
      if tcpstate != Connected {
        return;
      }
      Parts(busy);
      var question := queries[q].question;
      var written: Option<nat> := Some(0);
      if tcpsend == [] {
        written := tcpWrite(tcpserver, question, queries[q].retries);
      }
      CountTry(q, busy);
      if written.None? {
        ghost var mid := queries;
        TcpBroken(busy);
        RetriedNothing(mid, queries);
        return;
      }
      PutOut(question, written.value, busy);
    }

    /** retries++, and the idle timer is reset. */
    method CountTry(q: QId, ghost busy: set<QId>)
      requires Valid(busy) && q in queries && q !in busy && queries[q].state == TcpW
      requires tcpstate == Connected && queries[q].retries <= nservers
      modifies `queries, `tcptimeout
      ensures Valid(busy) && (Awaited(old(queries), busy) ==> Awaited(queries, busy))
      ensures Retried(old(queries), queries, {q}) && tcptimeout == None
    {
      hide Valid, Queues, Kin, AllOk, Resting, TcpRetries, OnTcp, Accounts, Awaited, Retried;
      ghost var was := queries;
      Parts(busy);
      RetriedNone(queries);
      RetriedMore(was, queries, {}, q);
      OneOnTcp(was, busy, q);
      queries := queries[q := queries[q].(retries := queries[q].retries + 1)];
      assert {} + {q} == {q};
      RetriedOneBound(was, queries, q, busy, nservers);
      tcptimeout := None;
      RetriedValid(was, {q}, busy);
    }

    /** The bytes of a message that were taken at once, and what is kept for later. */
    method PutOut(question: seq<Byte>, taken: nat, ghost busy: set<QId>)
      requires Valid(busy) && tcpstate == Connected && (tcpsend != [] ==> taken == 0)
      modifies `tcpsend, `wire
      ensures Valid(busy) && wire + tcpsend == old(wire + tcpsend) + GoesOut(question, taken)
    {
      hide *;
      var length := Be16(|question|);
      var wr := if taken <= 2 + |question| then taken else 2 + |question|;
      var kept: seq<Byte> := [];
      if wr < 2 {
        kept := length[..2 - wr] + question;
      } else if wr - 2 < |question| {
        kept := question[wr - 2..];
      } else {
        assert question[wr - 2..] == [];
      }
      WholeMessage(question, taken, Message(question)[..wr], kept);
      ghost var before := wire + tcpsend;
      Pass(Message(question)[..wr], kept, busy);
      assert wire + tcpsend == before + (Message(question)[..wr] + kept);
    }

    /** Some bytes leave at once, and some are kept. */
    method Pass(ghost out: seq<Byte>, kept: seq<Byte>, ghost busy: set<QId>)
      requires Valid(busy) && tcpstate == Connected && (tcpsend != [] ==> out == [])
      modifies `tcpsend, `wire
      ensures Valid(busy) && wire + tcpsend == old(wire + tcpsend) + (out + kept)
    {
      hide Queues, Kin, AllOk, Resting, TcpRetries, Accounts;
      assert wire + tcpsend + (out + kept) == (wire + out) + (tcpsend + kept);
      wire, tcpsend := wire + out, tcpsend + kept;
    }

    static lemma WholeMessage(question: seq<Byte>, taken: nat, out: seq<Byte>, kept: seq<Byte>)
      requires var wr := if taken <= 2 + |question| then taken else 2 + |question|;
        && out == Message(question)[..wr]
        && kept == if wr < 2 then Be16(|question|)[..2 - wr] + question else question[wr - 2..]
      ensures out + kept == GoesOut(question, taken)
    {
      var m := Message(question);
      assert m[..2] == Be16(|question|) && m[2..] == question;
      if taken == 1 {
        assert Be16(|question|)[..1] == m[..1] && [Be16(|question|)[0]] == m[..1];
      } else if taken == 0 {
        assert Be16(|question|)[..2] == Be16(|question|);
      } else {
        var wr := if taken <= 2 + |question| then taken else 2 + |question|;
        assert m[wr..] == question[wr - 2..] && m == m[..wr] + m[wr..];
      }
    }

    /** Bytes move over the connection: some of what is to be sent leaves, some arrive, and frames
        that were handed on are skipped. Which ones is TcpStream's concern. */
    method MoveBytes(sent: nat, received: nat, skip: nat)
      requires Consistent() && tcpstate == Connected && sent <= |tcpsend| && skip <= received
      modifies `tcpsend, `wire, `tcprecvUsed, `tcprecvSkip
      ensures Consistent() && wire + tcpsend == old(wire + tcpsend) && tcpsend == old(tcpsend)[sent..]
      ensures tcprecvUsed == received && tcprecvSkip == skip
    {
      hide Queues, Kin, AllOk, Resting, TcpRetries, Accounts, Awaited;
      assert wire + tcpsend == wire + tcpsend[..sent] + tcpsend[sent..];
      wire := wire + tcpsend[..sent];
      tcpsend, tcprecvUsed, tcprecvSkip := tcpsend[sent..], received, skip;
    }

    /** adns__tcp_tryconnect: the answer to connect comes later. */
    method TryConnect(now: int, ghost busy: set<QId>)
      requires Valid(busy)
      modifies `tcpstate, `tcpsocketOpen, `tcptimeout
      ensures Valid(busy)
      ensures old(tcpstate) == Disconnected ==> tcpstate == Connecting && tcptimeout == Some(now + 14 * 1_000_000)
      ensures old(tcpstate) != Disconnected ==> tcpstate == old(tcpstate) && tcptimeout == old(tcptimeout)
    {
      hide Queues, Kin, AllOk, Resting, TcpRetries, Accounts;
      if tcpstate == Disconnected {
        tcpstate, tcpsocketOpen, tcptimeout := Connecting, true, Some(now + TCPCONN);
      }
    }

    /** tcp_connected: every query waiting for TCP is sent, until one breaks the connection. */
    method TcpConnected()
      requires Valid({}) && Awaited(queries, {}) && tcpstate == Connecting
      modifies `queries, `tcpstate, `tcpserver, `tcpsocketOpen, `tcptimeout, `tcpsend, `wire, `tcprecvUsed, `tcprecvSkip
      ensures Consistent() && tcpstate in {Connected, Broken}
      ensures exists i ::
        && 0 <= i <= |tcpw| && Retried(old(queries), queries, Elements(tcpw[..i]))
        && (if tcpstate == Connected then i == |tcpw| && tcpserver == old(tcpserver)
            else i > 0 && tcpserver == (old(tcpserver) + 1) % nservers
                 && tcpw[i - 1] in old(queries)
                 && var qu := old(queries)[tcpw[i - 1]]; tcpWrite(old(tcpserver), qu.question, qu.retries).None?)
    {
      hide Valid, Queues, Kin, AllOk, Resting, TcpRetries, OnTcp, Accounts, Awaited, Retried, Elements;
      ghost var was := queries;
      Parts({});
      OnTcpw({});
      RetriedNone(queries);
      RetriedBound(was, queries, {}, {}, nservers, nservers);
      tcpstate, wire := Connected, [];
      RetriedValid(was, {}, {});
      ElementsNone(tcpw);
      var i := 0;
      while i < |tcpw| && tcpstate == Connected
        invariant 0 <= i <= |tcpw| && Valid({}) && Awaited(queries, {}) && tcpstate in {Connected, Broken}
        invariant Retried(was, queries, Elements(tcpw[..i])) && queries.Keys == was.Keys
        invariant if tcpstate == Connected then tcpserver == old(tcpserver)
                  else i > 0 && tcpserver == (old(tcpserver) + 1) % nservers
                       && tcpw[i - 1] in was && tcpWrite(old(tcpserver), was[tcpw[i - 1]].question, was[tcpw[i - 1]].retries).None?
      {
        OnTcpw({});
        ghost var mid := queries;
        var x := tcpw[i];
        ElementsFirst(tcpw, i);
        BoundOf(was, {}, nservers, x);
        RetriedAt(was, queries, Elements(tcpw[..i]), x);
        QuerySendTcp(x, {});
        RetriedAlso(was, mid, queries, Elements(tcpw[..i]), x);
        i := i + 1;
      }
      assert tcpw[..|tcpw|] == tcpw;
    }

    // -------------------------------------------------------------- sending

    /** query_usetcp. */
    method UseTcp(q: QId, now: int, ghost busy: set<QId>)
      requires Valid(busy) && Awaited(queries, busy) && q in busy && q in queries && Sendable(queries[q]) && queries[q].retries == 0
      modifies `queries, `udpw, `tcpw, `childw, `output
      modifies `tcpstate, `tcpserver, `tcpsocketOpen, `tcptimeout, `tcpsend, `wire, `tcprecvUsed, `tcprecvSkip
      ensures Valid(busy - {q}) && Awaited(queries, busy - {q}) && output == old(output)
      ensures ToTcp(old(queries), queries, q, now, old(tcpstate) == Connected)
      ensures q in queries && queries[q].timeout == now + 30 * 1_000_000
      ensures tcpstate != Disconnected && (old(tcpstate) == Disconnected ==> tcpstate == Connecting && tcptimeout == Some(now + TCPCONN))
    {
      hide Valid, Queues, Kin, QueryOk, AllOk, RestingOk, Resting, TcpRetries, OnTcp, Accounts, Awaited, Retried, ToTcp;
      ghost var was := queries;
      Parts(busy);
      var qu := queries[q].(state := TcpW, timeout := now + TCPWAIT);
      QueryIsOk(q, busy);
      SameSendingOk(queries[q], qu, nservers, searchlist);
      QueuedRests(queries[q], now);
      QueuedAwaited(queries, q, qu, busy);
      Set(q, qu, busy);
      PutOn(q, busy);
      ghost var mid := queries;
      QuerySendTcp(q, busy - {q});
      QueuedToTcp(was, mid, queries, q, now, old(tcpstate) == Connected);
      TryConnect(now, busy - {q});
    }

    lemma QueryIsOk(q: QId, busy: set<QId>)
      requires Valid(busy) && q in queries
      ensures QueryOk(queries[q], nservers, searchlist) && (q !in busy ==> RestingOk(queries[q])) && queries[q].udpNextServer < nservers
      ensures |queries[q].question| <= MAXQUERY
    {
    }

    /** adns__query_send: over TCP if asked to, otherwise a datagram to the next server, until
        UDPMAXRETRIES of them were sent. */
    method QuerySend(q: QId, now: int, ghost busy: set<QId>)
      requires Valid(busy) && Awaited(queries, busy) && q in busy && q in queries && Sendable(queries[q])
      requires queries[q].retries >= UDPMAXRETRIES ==> busy == {q}
      modifies `queries, `udpw, `tcpw, `childw, `output, `freed, `returned, `cancelled
      modifies `tcpstate, `tcpserver, `tcpsocketOpen, `tcptimeout, `tcpsend, `wire, `tcprecvUsed, `tcprecvSkip
      ensures Valid(busy - {q}) && Awaited(queries, busy - {q})
      ensures Sends(old(queries), queries, q, now, nservers, tooBig, old(tcpstate) == Connected)
      ensures freed == old(freed) + (old(queries).Keys - queries.Keys)
      ensures returned == old(returned) && cancelled == old(cancelled)
    {
      hide Valid, Queues, Kin, QueryOk, AllOk, RestingOk, Resting, TcpRetries, OnTcp, Accounts, Awaited, Retried, ToTcp, Finished;
      hide Sends, Outlet;
      ghost var was, connected := queries, tcpstate == Connected;
      Parts(busy);
      QueryIsOk(q, busy);
      if queries[q].usevc || |queries[q].question| > DNS_MAXUDP {
        UseTcp(q, now, busy);
        ToTcpKeys(was, queries, q, now, connected);
        SendsAre(was, queries, q, now, nservers, tooBig, connected);
        return;
      }
      if queries[q].retries >= UDPMAXRETRIES {
        QueryFail(q, StTimeout);
        assert {q} - {q} == {};
        SendsAre(was, queries, q, now, nservers, tooBig, connected);
        return;
      }
      if tooBig(queries[q].question, queries[q].udpNextServer, now) {
        ClearRetries(q, busy);
        UseTcp(q, now, busy);
        ToTcpKeys(was[q := was[q].(retries := 0)], queries, q, now, connected);
      } else {
        SendDatagram(q, now, busy);
      }
      SendsAre(was, queries, q, now, nservers, tooBig, connected);
    }

    method ClearRetries(q: QId, ghost busy: set<QId>)
      requires Valid(busy) && Awaited(queries, busy) && q in busy && q in queries && Sendable(queries[q])
      modifies `queries
      ensures Valid(busy) && Awaited(queries, busy) && queries == old(queries)[q := old(queries)[q].(retries := 0)]
    {
      hide Valid, Queues, Kin, QueryOk, AllOk, Resting, TcpRetries, Accounts, Awaited;
      var qu := queries[q].(retries := 0);
      QueryIsOk(q, busy);
      SameSendingOk(queries[q], qu, nservers, searchlist);
      QueuedAwaited(queries, q, qu, busy);
      Set(q, qu, busy);
    }

    /** The datagram went to the next server, or is lost on the way. */
    method SendDatagram(q: QId, now: int, ghost busy: set<QId>)
      requires nservers > 0 && Valid(busy) && Awaited(queries, busy) && q in busy && q in queries && Sendable(queries[q])
      requires !queries[q].usevc && queries[q].retries < UDPMAXRETRIES
      modifies `queries, `udpw, `tcpw, `childw, `output
      ensures Valid(busy - {q}) && Awaited(queries, busy - {q})
      ensures queries == old(queries)[q := UdpSent(old(queries)[q], now, nservers)]
      ensures udpw == old(udpw) + [q] && output == old(output)
    {
      hide Valid, Queues, Kin, QueryOk, AllOk, RestingOk, Resting, TcpRetries, Accounts, Awaited;
      Parts(busy);
      QueryIsOk(q, busy);
      var qu := UdpSent(queries[q], now, nservers);
      UdpSentOk(queries[q], now, nservers, searchlist);
      UdpSentRests(queries[q], now, nservers);
      QueuedAwaited(queries, q, qu, busy);
      Set(q, qu, busy);
      PutOn(q, busy);
    }

    // -------------------------------------------------------------- names to ask for

    /** query_simple: make the query for the text, the first n bytes of m, and send it; a name too
        long moves the search on. `at` is the record the query had when its name was settled. */
    method QuerySimple(q: QId, m: seq<Byte>, n: nat, now: int) returns (aborted: bool, ghost at: Query)
      requires n <= |m| && Valid({q}) && Awaited(queries, {q}) && q in queries && Askable(queries[q], searchlist)
      modifies `queries, `udpw, `tcpw, `childw, `output, `freed, `returned, `cancelled, `nextid
      modifies `tcpstate, `tcpserver, `tcpsocketOpen, `tcptimeout, `tcpsend, `wire, `tcprecvUsed, `tcprecvSkip
      ensures Valid(if aborted then {q} else {}) && Awaited(queries, if aborted then {q} else {})
      ensures var was := old(queries)[q];
        var rest := if was.search then Remaining(was, searchlist) else [];
        var long := was.search && ParseBuffer(m, n, was.quoteok) == Refused(QueryDomainTooLong);
        var o := if long then Found(rest, was.searchVb, was.quoteok) else Some(ParseBuffer(m, n, was.quoteok));
        && SameButSearch(was, at) && at.tried == was.tried + (if long then rest[..Taken(rest, was.searchVb, was.quoteok)] else [])
        && Asks(old(queries), queries, q, at, o, now, nservers, tooBig, old(tcpstate) == Connected, aborted)
        && nextid == old(nextid) + 1 + (if long then Taken(rest, was.searchVb, was.quoteok) else 0)
        && (o.Some? && o.value.Good? ==> at.id == (nextid - 1) % 65536)
      ensures freed == old(freed) + (old(queries).Keys - queries.Keys)
      ensures returned == old(returned) && cancelled == old(cancelled)
      decreases if queries[q].search then |Remaining(queries[q], searchlist)| else 0, 1
    {
      hide Valid, Queues, Kin, QueryOk, AllOk, RestingOk, Resting, TcpRetries, OnTcp, Accounts, Awaited;
      hide ToTcp, Finished, Sends, ParseBuffer, QueryPacket, Remaining, Taken, Found, LabelSizes, Asks, Outlet, Asking, Askable;
      ghost var was, connected := queries, tcpstate == Connected;
      Parts({q});
      QueryIsOk(q, {q});
      SetSame(q);
      at := queries[q];
      var id := nextid % 65536;
      nextid := nextid + 1;
      var packet := MkQuery(id, m, n, queries[q].quoteok, queries[q].qtype);
      if packet.Astray? {
        aborted := true;
        AsksStray(was, q, at, now, nservers, tooBig, connected);
        return;
      }
      if packet.Refused? {
        if packet.status == QueryDomainTooLong && queries[q].search {
          aborted, at := SearchNext(q, now);
        } else {
          QueryFail(q, StName(packet.status));
          AsksRefused(was, queries, q, at, packet.status, now, nservers, tooBig, connected);
          aborted := false;
        }
        return;
      }
      PacketFits(id, m, n, at.quoteok, at.qtype);
      at := at.(id := id, question := packet.value);
      aborted := QuerySubmit(q, id, packet.value, now);
      AsksGood(was, queries, q, at, ParseBuffer(m, n, at.quoteok).value, now, nservers, tooBig, connected, aborted);
    }

    /** query_submit. */
    method QuerySubmit(q: QId, id: nat, packet: seq<Byte>, now: int) returns (aborted: bool)
      requires Valid({q}) && Awaited(queries, {q}) && q in queries && Askable(queries[q], searchlist)
      requires id < 65536 && |packet| <= MAXQUERY && Asking(packet, queries[q].qtype)
      modifies `queries, `udpw, `tcpw, `childw, `output, `freed, `returned, `cancelled
      modifies `tcpstate, `tcpserver, `tcpsocketOpen, `tcptimeout, `tcpsend, `wire, `tcprecvUsed, `tcprecvSkip
      ensures Valid(if aborted then {q} else {}) && Awaited(queries, if aborted then {q} else {})
      ensures aborted <==> old(queries)[q].state != ToSend
      ensures aborted ==> queries == old(queries)[q := old(queries)[q].(id := id, question := packet)]
      ensures !aborted ==> Sends(old(queries)[q := old(queries)[q].(id := id, question := packet)], queries, q, now, nservers, tooBig,
                                 old(tcpstate) == Connected)
      ensures freed == old(freed) + (old(queries).Keys - queries.Keys)
      ensures returned == old(returned) && cancelled == old(cancelled)
    {
      hide Valid, Queues, Kin, QueryOk, AllOk, RestingOk, Resting, TcpRetries, OnTcp, Accounts, Awaited;
      hide ToTcp, Finished, Sends;
      Parts({q});
      QueryIsOk(q, {q});
      var qu := queries[q].(id := id, question := packet);
      NewQuestionOk(queries[q], id, packet, nservers, searchlist);
      QueuedAwaited(queries, q, qu, {q});
      Set(q, qu, {q});
      aborted := qu.state != ToSend;
      if !aborted {
        assert {q} - {q} == {};
        QuerySend(q, now, {q});
      }
    }

    /** adns__search_next: the next name of the search, or failure when none is left. */
    method SearchNext(q: QId, now: int) returns (aborted: bool, ghost at: Query)
      requires Valid({q}) && Awaited(queries, {q}) && q in queries && Askable(queries[q], searchlist) && queries[q].search
      modifies `queries, `udpw, `tcpw, `childw, `output, `freed, `returned, `cancelled, `nextid
      modifies `tcpstate, `tcpserver, `tcpsocketOpen, `tcptimeout, `tcpsend, `wire, `tcprecvUsed, `tcprecvSkip
      ensures Valid(if aborted then {q} else {}) && Awaited(queries, if aborted then {q} else {})
      ensures var was := old(queries)[q];
        var names := Remaining(was, searchlist);
        var o := Found(names, was.searchVb, was.quoteok);
        && SameButSearch(was, at) && at.tried == was.tried + names[..Taken(names, was.searchVb, was.quoteok)]
        && Asks(old(queries), queries, q, at, o, now, nservers, tooBig, old(tcpstate) == Connected, aborted)
        && nextid == old(nextid) + Taken(names, was.searchVb, was.quoteok) && (o.Some? && o.value.Good? ==> at.id == (nextid - 1) % 65536)
      ensures freed == old(freed) + (old(queries).Keys - queries.Keys)
      ensures returned == old(returned) && cancelled == old(cancelled)
      decreases |Remaining(queries[q], searchlist)|, 0
    {
      hide Valid, Queues, Kin, QueryOk, AllOk, RestingOk, Resting, TcpRetries, OnTcp, Accounts, Awaited;
      hide ToTcp, Finished, Sends, ParseBuffer, Written, Remaining, Taken, Found, LabelSizes, Asks, Popped, Outlet, SameButSearch;
      Parts({q});
      QueryIsOk(q, {q});
      PoppedRemaining(queries[q], searchlist);
      var next := Popped(queries[q], searchlist);
      if next.None? {
        SetSame(q);
        TakenNone(queries[q].searchVb, queries[q].quoteok);
        at := queries[q];
        SameButSelf(at);
        QueryFail(q, StNxDomain);
        AsksNone(old(queries), queries, q, at, now, nservers, tooBig, old(tcpstate) == Connected);
        aborted := false;
        return;
      }
      var (text, qu) := next.value;
      PoppedOk(queries[q], nservers, searchlist);
      QueuedAwaited(queries, q, qu, {q});
      TakenFirst(text, Remaining(qu, searchlist), queries[q].searchVb, qu.quoteok);
      Set(q, qu, {q});
      aborted, at := QuerySimple(q, qu.searchVb, |text|, now);
      SameButSearchOn(old(queries)[q], qu, at);
      AsksFrom(old(queries), qu, queries, q, at, Found(Remaining(old(queries)[q], searchlist), old(queries)[q].searchVb, qu.quoteok), now, nservers, tooBig,
               old(tcpstate) == Connected, aborted);
    }

    lemma SetSame(q: QId)
      requires q in queries
      ensures queries[q := queries[q]] == queries
    {
    }

    // -------------------------------------------------------------- new queries

    /** query_alloc for the user. */
    method AllocTop(qu: Query) returns (q: QId)
      requires Valid({}) && Awaited(queries, {}) && qu.parent.None? && qu.children == [] && QueryOk(qu, nservers, searchlist)
      modifies `queries, `next, `tops
      ensures q == old(next) && next == q + 1 && q !in old(queries) && queries == old(queries)[q := qu] && tops == old(tops) + {q}
      ensures Valid({q}) && Awaited(queries, {q})
    {
      hide Queues, Kin, QueryOk, AllOk, Resting, TcpRetries, Accounts, Awaited;
      q := next;
      AccountsNext(queries, next, freed, tops, returned, cancelled);
      AccountsNew(queries, queries[q := qu], next, freed, tops, returned, cancelled);
      QueuesNew(queries, udpw, tcpw, childw, output, {}, q, qu);
      KinTopNew(queries, q, qu);
      RulesNew(queries, q, qu, {}, nservers, searchlist, Bound());
      assert {} + {q} == {q};
      queries, next, tops := queries[q := qu], next + 1, tops + {q};
    }

    /** query_alloc for a parent being processed, and its place among the parent's children. */
    method AllocChild(p: QId, qu: Query) returns (c: QId)
      requires Valid({p}) && p in queries && Spawns(queries[p].rrtype) && Awaited(queries, {p})
      requires qu.parent == Some(p) && qu.children == [] && qu.rrtype == Addr && qu.state != Done && QueryOk(qu, nservers, searchlist)
      modifies `queries, `next
      ensures c == old(next) && next == c + 1 && c !in old(queries) && c != p
      ensures queries == old(queries)[c := qu][p := old(queries)[p].(children := old(queries)[p].children + [c])]
      ensures Valid({p, c}) && Awaited(queries, {p, c})
    {
      hide Queues, Kin, QueryOk, AllOk, Resting, TcpRetries, Accounts, Awaited, Fresh;
      c := next;
      QueryIsOk(p, {p});
      ChildAccounts(queries, p, qu, next, freed, tops, returned, cancelled);
      ChildQueues(queries, udpw, tcpw, childw, output, p, c, qu);
      KinChildNew(queries, p, c, qu);
      ChildRules(queries, p, c, qu, nservers, searchlist, Bound());
      queries, next := WithChild(queries, p, c, qu), next + 1;
    }

    /** The loop over strchr that counts dots. */
    static method CountDots(owner: seq<Byte>) returns (n: nat)
      ensures n == Dots(owner)
    {
      n := 0;
      for i := 0 to |owner|
        invariant n + Dots(owner[i..]) == Dots(owner)
      {
        assert owner[i..] == [owner[i]] + owner[i + 1..];
        if owner[i] == DOT {
          n := n + 1;
        }
      }
    }

    /** adns_submit: owner is a C string. `at` is the record the query had when its name was
        settled. */
    method Submit(owner: seq<Byte>, t: RRType, qtype: TypeCode, search: bool, usevc: bool, quoteok: bool, aliases: AliasFlags, now: int)
      returns (q: QId, aborted: bool, ghost at: Query)
      requires Consistent() && forall i :: 0 <= i < |owner| ==> owner[i] != 0
      modifies `queries, `udpw, `tcpw, `childw, `output, `freed, `returned, `cancelled, `nextid, `next, `tops
      modifies `tcpstate, `tcpserver, `tcpsocketOpen, `tcptimeout, `tcpsend, `wire, `tcprecvUsed, `tcprecvSkip
      ensures aborted <==> Settled(owner, search, quoteok, searchlist, searchndots) == Some(Astray)
      ensures aborted ==> search && quoteok && !IsComplete(owner)
      ensures if aborted then Valid({q}) else Consistent()
      ensures q == old(next) && q !in old(queries) && next == q + 1 && tops == old(tops) + {q}
      ensures at.rrtype == t && at.qtype == qtype && at.quoteok == quoteok && at.aliases == aliases && at.parent.None? && at.children == [] && at.state == ToSend && at.usevc == usevc
      ensures at.attempts == [] && at.retries == 0 && at.udpNextServer == 0 && at.udpSent == {} && at.cname.None?
      ensures var names := Names(owner, search, searchlist, searchndots);
        at.search ==> at.tried == names[..Taken(names, owner, quoteok)]
      ensures at.search <==> search && 0 < |owner| <= DNS_MAXDOMAIN + 1 && !IsComplete(owner)
      ensures at.search ==> at.owner == owner && at.bareFirst == (Dots(owner) >= searchndots)
      ensures Asks(old(queries)[q := at], queries, q, at, Settled(owner, search, quoteok, searchlist, searchndots),
                   now, nservers, tooBig, old(tcpstate) == Connected, aborted)
      ensures freed == old(freed) && returned == old(returned) && cancelled == old(cancelled)
    {
      hide Valid, Queues, Kin, QueryOk, AllOk, RestingOk, Resting, TcpRetries, OnTcp, Accounts, Awaited;
      hide ToTcp, Finished, Sends, ParseBuffer, SearchOrder, Taken, Found, LabelSizes, Asks, Outlet, Dots, IsComplete, Settled, Names;
      Parts({});
      FreshOk(None, t, qtype, usevc, quoteok, aliases, nservers, searchlist);
      q := AllocTop(Fresh(None, t, qtype, usevc, quoteok, aliases));
      ghost var born, connected := queries, tcpstate == Connected;
      aborted, at := Begin(q, owner, search, now);
      if aborted {
        OnlySearchStrays(owner, search, quoteok, searchlist, searchndots);
      }
      AsksKeys(born, queries, q, at, Settled(owner, search, quoteok, searchlist, searchndots), now, nservers, tooBig, connected, aborted);
      AsksBase(old(queries), born[q], queries, q, at, Settled(owner, search, quoteok, searchlist, searchndots), now, nservers, tooBig,
               connected, aborted);
    }

    /** The rest of adns_submit, once the query is allocated. */
    method Begin(q: QId, owner: seq<Byte>, search: bool, now: int) returns (aborted: bool, ghost at: Query)
      requires Valid({q}) && Awaited(queries, {q}) && q in queries
      requires queries[q] == Fresh(None, queries[q].rrtype, queries[q].qtype, queries[q].usevc, queries[q].quoteok, queries[q].aliases)
      modifies `queries, `udpw, `tcpw, `childw, `output, `freed, `returned, `cancelled, `nextid
      modifies `tcpstate, `tcpserver, `tcpsocketOpen, `tcptimeout, `tcpsend, `wire, `tcprecvUsed, `tcprecvSkip
      ensures aborted <==> Settled(owner, search, at.quoteok, searchlist, searchndots) == Some(Astray)
      ensures if aborted then Valid({q}) else Consistent()
      ensures at == old(queries)[q].(search := at.search, owner := at.owner, bareFirst := at.bareFirst, searchPos := at.searchPos,
                                     searchDoneAbs := at.searchDoneAbs, tried := at.tried, searchVb := at.searchVb, question := at.question, id := at.id)
      ensures at.search <==> search && 0 < |owner| <= DNS_MAXDOMAIN + 1 && !IsComplete(owner)
      ensures at.search ==> at.owner == owner && at.bareFirst == (Dots(owner) >= searchndots)
      ensures var names := Names(owner, search, searchlist, searchndots);
        at.search ==> at.tried == names[..Taken(names, owner, at.quoteok)]
      ensures Asks(old(queries), queries, q, at, Settled(owner, search, at.quoteok, searchlist, searchndots),
                   now, nservers, tooBig, old(tcpstate) == Connected, aborted)
      ensures freed == old(freed) + (old(queries).Keys - queries.Keys)
      ensures returned == old(returned) && cancelled == old(cancelled)
    {
      hide Valid, Queues, Kin, QueryOk, AllOk, RestingOk, Resting, TcpRetries, OnTcp, Accounts, Awaited;
      hide ToTcp, Finished, Sends, ParseBuffer, Remaining, SearchOrder, Taken, Found, LabelSizes, Asks, Popped, Outlet, Dots, IsComplete;
      Parts({q});
      aborted, at := false, queries[q];
      ghost var born, connected := queries, tcpstate == Connected;
      SetSame(q);
      if owner == [] || |owner| > DNS_MAXDOMAIN + 1 {
        var why := if owner == [] then QueryDomainInvalid else QueryDomainTooLong;
        QueryFail(q, StName(why));
        AsksRefused(born, queries, q, at, why, now, nservers, tooBig, connected);
        return;
      }
      if search && !IsComplete(owner) {
        aborted, at := BeginSearch(q, owner, now);
      } else {
        aborted, at := QuerySimple(q, owner + [0], |Trimmed(owner)|, now);
      }
      AsksProceeds(born, queries, q, at, Settled(owner, search, at.quoteok, searchlist, searchndots), now, nservers, tooBig,
                   connected, aborted);
    }

    /** The search fields of a new query, and its first name. */
    method BeginSearch(q: QId, owner: seq<Byte>, now: int) returns (aborted: bool, ghost at: Query)
      requires Valid({q}) && Awaited(queries, {q}) && q in queries
      requires queries[q] == Fresh(None, queries[q].rrtype, queries[q].qtype, queries[q].usevc, queries[q].quoteok, queries[q].aliases)
      modifies `queries, `udpw, `tcpw, `childw, `output, `freed, `returned, `cancelled, `nextid
      modifies `tcpstate, `tcpserver, `tcpsocketOpen, `tcptimeout, `tcpsend, `wire, `tcprecvUsed, `tcprecvSkip
      ensures Valid(if aborted then {q} else {}) && Awaited(queries, if aborted then {q} else {})
      ensures var names := SearchOrder(owner, searchlist, Dots(owner) >= searchndots);
        && at == old(queries)[q].(search := true, owner := owner, bareFirst := Dots(owner) >= searchndots,
                                  searchPos := at.searchPos, searchDoneAbs := at.searchDoneAbs, searchVb := at.searchVb,
                                  tried := names[..Taken(names, owner, at.quoteok)], question := at.question, id := at.id)
        && Asks(old(queries), queries, q, at, Found(names, owner, at.quoteok), now, nservers, tooBig, old(tcpstate) == Connected, aborted)
      ensures freed == old(freed) + (old(queries).Keys - queries.Keys)
      ensures returned == old(returned) && cancelled == old(cancelled)
    {
      hide Valid, Queues, Kin, QueryOk, AllOk, RestingOk, Resting, TcpRetries, OnTcp, Accounts, Awaited;
      hide ToTcp, Finished, Sends, ParseBuffer, Remaining, SearchOrder, Taken, Found, LabelSizes, Asks, Popped, Outlet, Dots;
      Parts({q});
      ghost var born := queries;
      var ndots := CountDots(owner);
      QueryIsOk(q, {q});
      FreshOk(None, queries[q].rrtype, queries[q].qtype, queries[q].usevc, queries[q].quoteok, queries[q].aliases, nservers, searchlist);
      SearchBegins(queries[q], owner, ndots >= searchndots, searchlist, nservers);
      var qu := queries[q].(search := true, owner := owner, bareFirst := ndots >= searchndots,
                            searchDoneAbs := if ndots >= searchndots then -1 else 0, searchVb := owner);
      QueuedAwaited(queries, q, qu, {q});
      Set(q, qu, {q});
      aborted, at := SearchNext(q, now);
      AsksFrom(born, qu, queries, q, at, Found(SearchOrder(owner, searchlist, ndots >= searchndots), owner, at.quoteok), now, nservers, tooBig,
               old(tcpstate) == Connected, aborted);
    }

    // -------------------------------------------------------------- replies

    /** adns__internal_submit, for a parent whose reply is being read. */
    method StartChild(p: QId, id: nat, packet: seq<Byte>, now: int) returns (c: QId)
      requires Valid({p}) && Awaited(queries, {p}) && p in queries && Spawns(queries[p].rrtype)
      requires id < 65536 && |packet| <= MAXQUERY && Asking(packet, DNS_TYPE_A)
      modifies `queries, `udpw, `tcpw, `childw, `output, `freed, `returned, `cancelled, `next
      modifies `tcpstate, `tcpserver, `tcpsocketOpen, `tcptimeout, `tcpsend, `wire, `tcprecvUsed, `tcprecvSkip
      ensures Valid({p}) && Awaited(queries, {p}) && c !in old(queries) && c != p
      ensures queries.Keys == old(queries).Keys + {c}
      ensures queries[p] == old(queries)[p].(children := old(queries)[p].children + [c])
      ensures forall x :: x in old(queries) && x != p ==> queries[x] == old(queries)[x]
      ensures Waits(queries[c], now) && queries[c].id == id && queries[c].question == packet
      ensures ForAddresses(queries[c], old(queries)[p].rrtype, old(queries)[p].aliases.loose) && queries[c].parent == Some(p)
      ensures returned == old(returned) && cancelled == old(cancelled)
    {
      hide Valid, Queues, Kin, QueryOk, AllOk, RestingOk, Resting, TcpRetries, OnTcp, Accounts, Awaited;
      hide ToTcp, Finished, Sends, Asking;
      Parts({p});
      var aliases := AliasFlags(queries[p].rrtype == HostAddr && !queries[p].aliases.loose, false, false);
      var qu := Fresh(Some(p), Addr, DNS_TYPE_A, false, true, aliases);
      FreshOk(Some(p), Addr, DNS_TYPE_A, false, true, aliases, nservers, searchlist);
      NewQuestionOk(qu, id, packet, nservers, searchlist);
      c := AllocChild(p, qu.(id := id, question := packet));
      assert {p, c} - {c} == {p};
      ghost var mid := queries;
      QuerySend(c, now, {p, c});
      SendsWaits(mid, queries, c, now, nservers, tooBig, old(tcpstate) == Connected);
    }

    /** The query for a name in the reply, made by adns__mkquery_frdgram. aborted: the name does not fit
        the bytes reserved for it. */
    method SubmitChild(p: QId, kid: Located, now: int) returns (c: QId, aborted: bool)
      requires Valid({p}) && Awaited(queries, {p}) && p in queries && Spawns(queries[p].rrtype)
      modifies `queries, `udpw, `tcpw, `childw, `output, `freed, `returned, `cancelled, `nextid, `next
      modifies `tcpstate, `tcpserver, `tcpsocketOpen, `tcptimeout, `tcpsend, `wire, `tcprecvUsed, `tcprecvSkip
      ensures Valid({p}) && Awaited(queries, {p}) && nextid == old(nextid) + 1
      ensures aborted <==> !RoomFor(kid)
      ensures aborted ==> queries == old(queries)
      ensures !aborted ==>
        && c !in old(queries) && c != p && queries.Keys == old(queries).Keys + {c}
        && queries[p] == old(queries)[p].(children := old(queries)[p].children + [c])
        && (forall x :: x in old(queries) && x != p ==> queries[x] == old(queries)[x])
        && Waits(queries[c], now) && queries[c].id == old(nextid) % 65536
        && ForAddresses(queries[c], old(queries)[p].rrtype, old(queries)[p].aliases.loose) && queries[c].parent == Some(p)
        && queries[c].question == QueryPacket(old(nextid) % 65536, NameOf(kid), DNS_TYPE_A)
      ensures returned == old(returned) && cancelled == old(cancelled)
    {
      hide *;
      var id := nextid % 65536;
      nextid := nextid + 1;
      c, aborted := next, false;
      var packet := MkQueryFrdgram(id, kid, DNS_TYPE_A);
      if packet.None? {
        aborted := true;
        return;
      }
      WalkedFits(id, NameOf(kid), DNS_TYPE_A);
      c := StartChild(p, id, packet.value, now);
    }

    /** The second pass over the answer: every record may ask for a further query. */
    method SubmitChildren(q: QId, kids: seq<Located>, now: int) returns (aborted: bool)
      requires Valid({q}) && Awaited(queries, {q}) && q in queries && queries[q].children == []
      requires kids != [] ==> Spawns(queries[q].rrtype)
      modifies `queries, `udpw, `tcpw, `childw, `output, `freed, `returned, `cancelled, `nextid, `next
      modifies `tcpstate, `tcpserver, `tcpsocketOpen, `tcptimeout, `tcpsend, `wire, `tcprecvUsed, `tcprecvSkip
      ensures Valid({q}) && Awaited(queries, {q}) && q in queries && |queries[q].children| <= |kids|
      ensures Brood(old(queries), queries, q, kids[..|queries[q].children|], now)
      ensures aborted <==> !AllRoom(kids)
      ensures !aborted ==> |queries[q].children| == |kids| && Brood(old(queries), queries, q, kids, now)
      ensures queries[q] == old(queries)[q].(children := queries[q].children)
      ensures returned == old(returned) && cancelled == old(cancelled)
    {
      hide Valid, Queues, Kin, QueryOk, AllOk, RestingOk, Resting, TcpRetries, OnTcp, Accounts, Awaited;
      hide ToTcp, Finished, Sends, Brood, Waits, RoomFor, QueryPacket, NameOf, ForAddresses;
      ghost var was := queries;
      BroodNone(queries, q, now);
      for i := 0 to |kids|
        invariant Valid({q}) && Awaited(queries, {q}) && q in queries && Brood(was, queries, q, kids[..i], now)
        invariant queries[q] == was[q].(children := queries[q].children) && |queries[q].children| == i
        invariant forall j :: 0 <= j < i ==> RoomFor(kids[j])
        invariant returned == old(returned) && cancelled == old(cancelled)
      {
        ghost var mid := queries;
        var c: QId;
        c, aborted := SubmitChild(q, kids[i], now);
        if aborted {
          return;
        }
        BroodMore(was, mid, queries, q, kids[..i], kids[i], now, c);
        assert kids[..i + 1] == kids[..i] + [kids[i]];
      }
      assert kids[..|kids|] == kids;
      aborted := false;
    }

    /** From x_restartquery on. aborted: the alias does not fit the bytes reserved for it. */
    method Resend(q: QId, usevc: bool, now: int) returns (aborted: bool)
      requires Valid({q}) && Awaited(queries, {q}) && q in queries && Askable(queries[q], searchlist) && queries[q].id >= 0
      modifies `queries, `udpw, `tcpw, `childw, `output, `freed, `returned, `cancelled, `nextid
      modifies `tcpstate, `tcpserver, `tcpsocketOpen, `tcptimeout, `tcpsend, `wire, `tcprecvUsed, `tcprecvSkip
      ensures aborted <==> old(queries)[q].cname.Some? && !RoomFor(old(queries)[q].cname.value)
      ensures aborted ==> Valid({q}) && Awaited(queries, {q}) && queries == old(queries)
      ensures !aborted ==> Consistent() && queries.Keys == old(queries).Keys && SameElse(old(queries), queries, {q})
      ensures !aborted ==> Sends(old(queries)[q := Resent(old(queries)[q], usevc, old(nextid) % 65536)], queries, q, now, nservers, tooBig,
                    old(tcpstate) == Connected)
      ensures nextid == old(nextid) + if old(queries)[q].cname.Some? then 1 else 0
      ensures returned == old(returned) && cancelled == old(cancelled)
    {
      hide Valid, Queues, Kin, QueryOk, AllOk, RestingOk, Resting, TcpRetries, OnTcp, Accounts, Awaited;
      hide ToTcp, Finished, Sends, QueryPacket, NameOf, RoomFor;
      Parts({q});
      QueryIsOk(q, {q});
      var id := nextid % 65536;
      aborted := false;
      if queries[q].cname.Some? {
        nextid := nextid + 1;
        var packet := MkQueryFrdgram(id, queries[q].cname.value, queries[q].qtype);
        if packet.None? {
          return true;
        }
      }
      var qu := Resent(queries[q], usevc, id);
      ResentOk(queries[q], usevc, id, nservers, searchlist);
      QueuedAwaited(queries, q, qu, {q});
      Set(q, qu, {q});
      ghost var mid := queries;
      assert {q} - {q} == {};
      QuerySend(q, now, {q});
      SendsWaits(mid, queries, q, now, nservers, tooBig, old(tcpstate) == Connected);
    }

    /** What becomes of a query once all records asked for were read. */
    static ghost predicate RecordsTaken(was: Table, now: Table, q: QId, kids: seq<Located>, end: RecordsEnd, when: int)
      requires q in was
    {
      match end
      case BadRecord(st) => Finished(was, now, q, st, false)
      case CutShort => Finished(was, now, q, StInvalidResponse, false)
      case AllRead(sameAddr) =>
        if kids == [] then Finished(was, now, q, StOk, sameAddr)
        else Brood(was[q := was[q].(state := ChildW)], now, q, kids, when)
      case Overrun => false
    }

    /** The second pass of adns__procdgram, and what follows it. */
    method TakeRecords(q: QId, kids: seq<Located>, end: RecordsEnd, now: int) returns (aborted: bool)
      requires Valid({q}) && Awaited(queries, {q}) && q in queries && Listening(queries[q])
      requires kids != [] ==> Spawns(queries[q].rrtype)
      modifies `queries, `udpw, `tcpw, `childw, `output, `freed, `returned, `cancelled, `nextid, `next
      modifies `tcpstate, `tcpserver, `tcpsocketOpen, `tcptimeout, `tcpsend, `wire, `tcprecvUsed, `tcprecvSkip
      ensures aborted <==> !AllRoom(kids) || end.Overrun?
      ensures if aborted then Valid({q}) && Awaited(queries, {q}) else Consistent()
      ensures aborted ==>
        q in queries && |queries[q].children| <= |kids| && Brood(old(queries), queries, q, kids[..|queries[q].children|], now)
      ensures !aborted ==> RecordsTaken(old(queries), queries, q, kids, end, now)
      ensures returned == old(returned) && cancelled == old(cancelled)
    {
      hide Valid, Queues, Kin, QueryOk, AllOk, RestingOk, Resting, TcpRetries, OnTcp, Accounts, Awaited;
      hide ToTcp, Finished, Sends, Outlet, Brood, Waits, AllRoom;
      ghost var was := queries;
      Parts({q});
      NoKidsOfKid(queries, q);
      aborted := SubmitChildren(q, kids, now);
      if aborted {
        return;
      }
      ghost var mid := queries;
      Parts({q});
      match end {
        case BadRecord(st) =>
          QueryFail(q, st);
          BroodFails(was, mid, queries, q, kids, now, st);
        case Overrun =>
          aborted := true;
          assert kids[..|kids|] == kids;
        case CutShort =>
          QueryFail(q, StInvalidResponse);
          BroodFails(was, mid, queries, q, kids, now, StInvalidResponse);
        case AllRead(sameAddr) =>
          if queries[q].children != [] {
            var qu := queries[q].(state := ChildW);
            QueryIsOk(q, {q});
            SameSendingOk(queries[q], qu, nservers, searchlist);
            SpawnedRests(queries[q]);
            WaitingAwaited(queries, q, qu);
            SpawningQueue(was, mid, q, kids, now);
            Set(q, qu, {q});
            PutOn(q, {q});
            assert {q} - {q} == {};
          } else {
            QueryDone(q, sameAddr);
            BroodEmpty(was, mid, q, now);
          }
      }
    }

    /** adns__procdgram when the reply has no record of the type asked for. */
    method NoRecords(q: QId, r: Reading, rcode: nat, ra: bool, now: int) returns (aborted: bool, ghost at: Query)
      requires Valid({q}) && Awaited(queries, {q}) && q in queries && Listening(queries[q]) && r.content.Nothing?
      requires Askable(queries[q], searchlist)
      modifies `queries, `udpw, `tcpw, `childw, `output, `freed, `returned, `cancelled, `nextid
      modifies `tcpstate, `tcpserver, `tcpsocketOpen, `tcptimeout, `tcpsend, `wire, `tcprecvUsed, `tcprecvSkip
      ensures Valid(if aborted then {q} else {}) && Awaited(queries, if aborted then {q} else {})
      ensures Stepped(old(queries), queries, q, NothingStep(old(queries)[q], r.content.nodata, r.cname.Some?, rcode, ra), [], at, old(nextid) % 65536, now,
                      nservers, searchlist, tooBig, old(tcpstate) == Connected, aborted)
      ensures returned == old(returned) && cancelled == old(cancelled)
    {
      hide Valid, Queues, Kin, QueryOk, AllOk, RestingOk, Resting, TcpRetries, OnTcp, Accounts, Awaited;
      hide ToTcp, Finished, Sends, Outlet, Brood, Found, Taken, Remaining, Resent, ParseBuffer, Asks;
      Parts({q});
      aborted, at := false, queries[q];
      if rcode == 3 {
        if queries[q].search {
          aborted, at := SearchNext(q, now);
        } else {
          QueryFail(q, StNxDomain);
        }
      } else if r.content.nodata {
        QueryFail(q, StNoData);
      } else if r.cname.Some? {
        BroodNone(queries, q, now);
        aborted := Resend(q, false, now);
      } else if !ra {
        QueryFail(q, StNoRecurse);
      } else {
        QueryFail(q, StInvalidResponse);
      }
    }

    /** adns__procdgram once the query is found, off its queue, and what the reply holds is known. */
    method Act(q: QId, r: Reading, rcode: nat, tc: bool, ra: bool, now: int) returns (aborted: bool, ghost at: Query)
      requires Valid({q}) && Awaited(queries, {q}) && q in queries && Listening(queries[q])
      requires Askable(queries[q], searchlist)
      modifies `queries, `udpw, `tcpw, `childw, `output, `freed, `returned, `cancelled, `nextid, `next
      modifies `tcpstate, `tcpserver, `tcpsocketOpen, `tcptimeout, `tcpsend, `wire, `tcprecvUsed, `tcprecvSkip
      ensures Valid(if aborted then {q} else {}) && Awaited(queries, if aborted then {q} else {})
      ensures Stepped(old(queries), queries, q, StepOf(old(queries)[q], r, rcode, tc, ra), KidsOf(old(queries)[q], r), at,
                      old(nextid) % 65536, now, nservers, searchlist, tooBig, old(tcpstate) == Connected, aborted)
      ensures returned == old(returned) && cancelled == old(cancelled)
    {
      hide Valid, Queues, Kin, QueryOk, AllOk, RestingOk, Resting, TcpRetries, OnTcp, Accounts, Awaited;
      hide ToTcp, Finished, Sends, Outlet, Brood, Found, Taken, Remaining, Resent, ParseBuffer, Asks, NothingStep;
      Parts({q});
      aborted, at := false, queries[q];
      if r.content.Unreadable? {
        QueryFail(q, r.content.status);
      } else if r.content.Unending? {
        BroodNone(queries, q, now);
        aborted := true;
      } else if tc {
        BroodNone(queries, q, now);
        aborted := Resend(q, true, now);
      } else if r.content.Cut? {
        QueryFail(q, StInvalidResponse);
      } else if r.content.Nothing? {
        aborted, at := NoRecords(q, r, rcode, ra, now);
        SteppedKids(old(queries), queries, q, NothingStep(old(queries)[q], r.content.nodata, r.cname.Some?, rcode, ra), KidsOf(old(queries)[q], r), at,
                    old(nextid) % 65536, now, nservers, searchlist, tooBig, old(tcpstate) == Connected, aborted);
      } else {
        aborted := TakeRecords(q, if Spawns(queries[q].rrtype) then r.content.kids else [], r.content.end, now);
      }
    }

    /** adns__procdgram from the query found, and off its queue, on. aborted: the code runs into an
        assertion, or reads past a text. */
    method Interpret(q: QId, r: Reading, rcode: nat, tc: bool, ra: bool, now: int) returns (aborted: bool, ghost at: Query)
      requires Valid({q}) && Awaited(queries, {q}) && q in queries && Listening(queries[q])
      requires queries[q].searchPos <= |searchlist|
      modifies `queries, `udpw, `tcpw, `childw, `output, `freed, `returned, `cancelled, `nextid, `next
      modifies `tcpstate, `tcpserver, `tcpsocketOpen, `tcptimeout, `tcpsend, `wire, `tcprecvUsed, `tcprecvSkip
      ensures Valid(if aborted then {q} else {}) && Awaited(queries, if aborted then {q} else {})
      ensures Replied(old(queries), queries, q, r, rcode, tc, ra, at, old(nextid) % 65536, now, nservers, searchlist, tooBig,
                      old(tcpstate) == Connected, aborted)
      ensures returned == old(returned) && cancelled == old(cancelled)
    {
      hide Valid, Queues, Kin, QueryOk, AllOk, RestingOk, Resting, TcpRetries, OnTcp, Accounts, Awaited;
      hide StepOf, Stepped, KidsOf, Read;
      Parts({q});
      QueryIsOk(q, {q});
      var qu := Read(queries[q], r);
      ReadOk(queries[q], r, nservers, searchlist);
      QueuedAwaited(queries, q, qu, {q});
      Set(q, qu, {q});
      aborted, at := Act(q, r, rcode, tc, ra, now);
    }

    /** The loop of adns__procdgram over a queue. */
    method FindQuery(dgram: seq<Byte>, serv: nat, viatcp: bool) returns (q: Option<QId>)
      requires IsReply(dgram) && Valid({})
      ensures q == FirstFor(queries, if viatcp then tcpw else udpw, dgram, serv, viatcp)
    {
      hide Kin, AllOk, Resting, TcpRetries, Accounts, Answers;
      var queue := if viatcp then tcpw else udpw;
      var i := 0;
      while i < |queue|
        invariant i <= |queue|
        invariant FirstFor(queries, queue[i..], dgram, serv, viatcp) == FirstFor(queries, queue, dgram, serv, viatcp)
      {
        assert queue[i..][1..] == queue[i + 1..];
        if Answers(queries[queue[i]], dgram, serv, viatcp) {
          return Some(queue[i]);
        }
        i := i + 1;
      }
      q := None;
    }

    /** A query on udpw or tcpw, taken off. */
    lemma ListeningTaken(q: QId)
      requires Valid({}) && q in queries && queries[q].state in {ToSend, TcpW}
      ensures Listening(queries[q]) && queries[q].searchPos <= |searchlist|
    {
      assert RestingOk(queries[q]);
    }

    lemma WaitingOn(q: QId)
      requires Valid({}) && (q in udpw || q in tcpw)
      ensures q in queries && queries[q].state in {ToSend, TcpW} && queries[q].state == (if q in udpw then ToSend else TcpW)
    {
    }

    lemma BusyAwaited(q: QId)
      requires Awaited(queries, {})
      ensures Awaited(queries, {q})
    {
    }

    /** adns__procdgram. parser is what the parser of the type makes of the records. aborted:
        the code goes wrong, see GoesWrong. */
    method Reply(dgram: seq<Byte>, serv: nat, viatcp: bool, parser: AS.RecordParser, sameAddr: bool, now: int)
      returns (q: Option<QId>, aborted: bool, ghost at: Option<Query>)
      requires Consistent()
      modifies `queries, `udpw, `tcpw, `childw, `output, `freed, `returned, `cancelled, `nextid, `next
      modifies `tcpstate, `tcpserver, `tcpsocketOpen, `tcptimeout, `tcpsend, `wire, `tcprecvUsed, `tcprecvSkip
      ensures !aborted ==> Consistent()
      ensures q == QueryFor(old(queries), old(udpw), old(tcpw), dgram, serv, viatcp)
      ensures q.None? ==> unchanged(this) && !aborted
      ensures var queue := if viatcp then old(tcpw) else old(udpw);
        if q.Some? then
          q.value in queue && q.value in old(queries) && IsFor(old(queries)[q.value], dgram, serv, viatcp) && 128 <= dgram[2] < 136
        else |dgram| >= 12 && 128 <= dgram[2] < 136 ==>
          forall x :: x in queue && x in old(queries) ==> !IsFor(old(queries)[x], dgram, serv, viatcp)
      ensures q.Some? ==> q.value in old(queries) && old(queries)[q.value].searchPos <= |searchlist| && IsReply(dgram)
      ensures aborted <==>
        q.Some? && Rcode(dgram) in {0, 3}
        && GoesWrong(old(queries)[q.value], AS.ReadingOf(old(queries)[q.value], dgram, parser, sameAddr), Rcode(dgram),
                     AS.Truncation(dgram), searchlist)
      ensures q.Some? && Rcode(dgram) !in {0, 3} ==>
        !aborted && Finished(old(queries), queries, q.value, StRcode(Rcode(dgram)), false)
      ensures q.Some? && Rcode(dgram) in {0, 3} ==>
        && at.Some?
        && Replied(old(queries), queries, q.value, AS.ReadingOf(old(queries)[q.value], dgram, parser, sameAddr),
                   Rcode(dgram), AS.Truncation(dgram), dgram[3] / 128 == 1, at.value,
                   old(nextid) % 65536, now, nservers, searchlist, tooBig, old(tcpstate) == Connected, aborted)
      ensures q.Some? && Rcode(dgram) in {0, 3} && !aborted && old(queries)[q.value].parent.None? ==>
        Becomes(old(queries), queries, q.value, AS.ReadingOf(old(queries)[q.value], dgram, parser, sameAddr), Rcode(dgram),
                AS.Truncation(dgram), dgram[3] / 128 == 1)
      ensures returned == old(returned) && cancelled == old(cancelled)
    {
      hide Valid, Queues, Kin, QueryOk, AllOk, RestingOk, Resting, TcpRetries, OnTcp, Accounts, Awaited, Becomes, IsFor;
      hide Replied, Finished, Answers, Listening, FirstFor, Found, Remaining, GoesWrong, AS.ReadingOf;
      q, aborted, at := None, false, None;
      ForWhom(queries, udpw, tcpw, dgram, serv, viatcp);
      if !IsReply(dgram) {
        return;
      }
      if RR.Get16(dgram, 4) == 1 {
        q := FindQuery(dgram, serv, viatcp);
      }
      if q.None? {
        return;
      }
      WaitingOn(q.value);
      QueryIsOk(q.value, {});
      ListeningTaken(q.value);
      BusyAwaited(q.value);
      TakeOff(q.value, {});
      assert {} + {q.value} == {q.value};
      var rcode := Rcode(dgram);
      if rcode != 0 && rcode != 3 {
        QueryFail(q.value, StRcode(rcode));
        return;
      }
      var r := AS.ReadReply(queries[q.value], dgram, parser, sameAddr);
      ghost var where: Query;
      aborted, where := Interpret(q.value, r, rcode, AS.Truncation(dgram), dgram[3] / 128 == 1, now);
      at := Some(where);
      RepliedAborts(old(queries), queries, q.value, r, rcode, AS.Truncation(dgram), dgram[3] / 128 == 1, where,
                    old(nextid) % 65536, now, nservers, searchlist, tooBig, old(tcpstate) == Connected, aborted);
      if !aborted && old(queries)[q.value].parent.None? {
        ReplyMeans(old(queries), queries, q.value, r, rcode, AS.Truncation(dgram), dgram[3] / 128 == 1, where,
                   old(nextid) % 65536, now, nservers, searchlist, tooBig, old(tcpstate) == Connected);
      }
    }

    // -------------------------------------------------------------- timeouts

    /** The loop body of timeouts_queue for a query past its time. */
    method Wake(q: QId, now: int)
      requires Consistent() && q in queries && OnNetwork(queries[q])
      modifies `queries, `udpw, `tcpw, `childw, `output, `freed, `returned, `cancelled
      modifies `tcpstate, `tcpserver, `tcpsocketOpen, `tcptimeout, `tcpsend, `wire, `tcprecvUsed, `tcprecvSkip
      ensures Consistent() && Handled(old(queries), queries, q, now, nservers, tooBig, old(tcpstate) == Connected)
      ensures returned == old(returned) && cancelled == old(cancelled)
    {
      hide Valid, Queues, Kin, QueryOk, AllOk, Resting, TcpRetries, OnTcp, Accounts, Awaited, Finished, Sends;
      Parts({});
      ListeningTaken(q);
      BusyAwaited(q);
      QueryIsOk(q, {});
      TakeOff(q, {});
      assert {} + {q} == {q} && {q} - {q} == {};
      if queries[q].state != ToSend {
        QueryFail(q, StTimeout);
      } else {
        QuerySend(q, now, {q});
      }
    }

    /** timeouts_queue, acting, on udpw or tcpw: it goes back to the head after every query it acts
        on, and still ends, with nothing on the queue past its time. */
    method TimeoutsQueue(tcp: bool, now: int)
      requires Consistent()
      modifies `queries, `udpw, `tcpw, `childw, `output, `freed, `returned, `cancelled
      modifies `tcpstate, `tcpserver, `tcpsocketOpen, `tcptimeout, `tcpsend, `wire, `tcprecvUsed, `tcprecvSkip
      ensures Consistent() && Passed(old(queries), queries, now, nservers, tooBig)
      ensures forall x: QId :: x in Overdue(queries, now) ==> queries[x].state == if tcp then ToSend else TcpW
      ensures returned == old(returned) && cancelled == old(cancelled)
    {
      hide Valid, Queues, Kin, QueryOk, AllOk, Resting, TcpRetries, OnTcp, Accounts, Awaited, Passed, Handled, Overdue;
      Parts({});
      PassedNone(queries, now, nservers, tooBig);
      var i := 0;
      while i < if tcp then |tcpw| else |udpw|
        invariant Consistent() && Passed(old(queries), queries, now, nservers, tooBig) && returned == old(returned) && cancelled == old(cancelled)
        invariant i <= if tcp then |tcpw| else |udpw|
        invariant forall j :: 0 <= j < i ==>
          var x := if tcp then tcpw[j] else udpw[j]; x in queries && now <= queries[x].timeout
        decreases Overdue(queries, now), (if tcp then |tcpw| else |udpw|) - i
      {
        var q := if tcp then tcpw[i] else udpw[i];
        WaitingOn(q);
        if now <= queries[q].timeout {
          i := i + 1;
        } else {
          ghost var mid := queries;
          ghost var connected := tcpstate == Connected;
          Parts({});
          Wake(q, now);
          PassedMore(old(queries), mid, queries, q, now, nservers, tooBig, connected);
          i := 0;
        }
      }
      QueueDone(tcp, now);
    }

    lemma QueueDone(tcp: bool, now: int)
      requires Valid({})
      requires forall j :: 0 <= j < (if tcp then |tcpw| else |udpw|) ==>
        var x := if tcp then tcpw[j] else udpw[j]; x in queries && now <= queries[x].timeout
      ensures forall x: QId :: x in Overdue(queries, now) ==> queries[x].state == if tcp then ToSend else TcpW
    {
    }

    /** A query waiting for TCP is given up. */
    method Expel(q: QId)
      requires Consistent() && q in queries && OnNetwork(queries[q])
      modifies `queries, `udpw, `tcpw, `childw, `output, `freed, `returned, `cancelled
      ensures Consistent() && Finished(old(queries), queries, q, StAllServFail, false) && DoneStay(old(queries), queries)
      ensures returned == old(returned) && cancelled == old(cancelled)
    {
      hide Valid, Queues, Kin, QueryOk, AllOk, Resting, RestingOk, TcpRetries, OnTcp, Accounts, Awaited, Finished, DoneStay;
      ghost var was := queries;
      Parts({});
      BusyAwaited(q);
      QueryIsOk(q, {});
      TakeOff(q, {});
      assert {} + {q} == {q};
      QueryFail(q, StAllServFail);
      FailsDone(was, queries, q, StAllServFail);
    }

    /** The broken connection's part of tcp_events: queries tried on every server fail. strays: the query
        that was next when one failed is gone, and the code looks at it. */
    method PurgeTcp(ghost now: int) returns (strays: bool)
      requires Consistent() && tcpstate == Broken
      modifies `queries, `udpw, `tcpw, `childw, `output, `freed, `returned, `cancelled, `tcpstate
      ensures Consistent() && Purging(old(queries), queries, now, nservers) && DoneStay(old(queries), queries)
      ensures if strays then tcpstate == Broken else tcpstate == Disconnected && Exhausted(queries, nservers) == {}
      ensures strays ==> Siblings(old(queries))
      ensures returned == old(returned) && cancelled == old(cancelled)
    {
      hide Valid, Queues, Kin, QueryOk, AllOk, Resting, TcpRetries, OnTcp, Accounts, Awaited, Finished, Purging, DoneStay, Exhausted, RestingOk, Siblings, Later;
      strays := false;
      DoneStays(queries);
      PurgingNone(queries, now, nservers);
      var i := 0;
      while i < |tcpw|
        invariant Consistent() && tcpstate == Broken && Purging(old(queries), queries, now, nservers)
        invariant DoneStay(old(queries), queries)
        invariant returned == old(returned) && cancelled == old(cancelled)
        invariant i <= |tcpw| && forall j :: 0 <= j < i ==> tcpw[j] in queries && queries[tcpw[j]].retries <= nservers
        decreases Exhausted(queries, nservers), |tcpw| - i
      {
        var q := tcpw[i];
        TcpwIs(i);
        if queries[q].retries <= nservers {
          i := i + 1;
        } else {
          var next := if i + 1 < |tcpw| then Some(tcpw[i + 1]) else None;
          ghost var mid := queries;
          Parts({});
          if i + 1 < |tcpw| {
            NextIs(i);
          }
          Expel(q);
          DoneStayed(old(queries), mid, queries);
          PurgingMore(old(queries), mid, queries, q, now, nservers);
          if next.Some? && next.value !in queries {
            SavedSiblings(mid, queries, q, next.value, StAllServFail);
            PurgingLater(old(queries), mid, now, nservers);
            SiblingsBefore(old(queries), mid);
            return true;
          }
          i := 0;
        }
      }
      Parts({});
      NoneExhausted();
      RetriedNone(queries);
      ghost var was := queries;
      tcpstate := Disconnected;
      OnTcpNone(queries, {});
      RetriedValid(was, {}, {});
    }

    lemma NextIs(i: nat)
      requires Valid({}) && i + 1 < |tcpw|
      ensures tcpw[i + 1] in queries && tcpw[i + 1] != tcpw[i] && queries[tcpw[i + 1]].state == TcpW
    {
    }

    lemma TcpwIs(i: nat)
      requires Valid({}) && i < |tcpw|
      ensures tcpw[i] in queries && queries[tcpw[i]].state == TcpW
    {
    }

    lemma NoneExhausted()
      requires Valid({}) && forall j :: 0 <= j < |tcpw| ==> tcpw[j] in queries && queries[tcpw[j]].retries <= nservers
      ensures Exhausted(queries, nservers) == {} && TcpRetries(queries, {}, nservers)
    {
    }

    /** tcp_events has nothing to do. */
    predicate TcpQuiet(now: int)
      reads `tcpstate, `tcpw, `tcptimeout
    {
      match tcpstate
      case Broken => false
      case Disconnected => tcpw == []
      case Connected => tcpw != [] || (tcptimeout.Some? && now <= tcptimeout.value)
      case Connecting => tcptimeout.Some? && now <= tcptimeout.value
    }

    /** How many rounds of tcp_events are left. */
    function TcpRounds(now: int): nat
      reads `tcpstate, `tcptimeout
    {
      match tcpstate
      case Broken => 1
      case Disconnected => 1
      case Connected => 0
      case Connecting => if tcptimeout.Some? && now > tcptimeout.value then 2 else 0
    }

    /** What a call of tcp_events has made of the table so far, with so many failed connections. */
    ghost predicate EventsSo(was: Table, now: int, tries: nat)
      reads `queries
    {
      Reconnected(was, queries, tries, nservers) && DoneStay(was, queries) && Overdue(queries, now) <= Overdue(was, now)
    }

    /** The case of a broken connection. */
    method EventsBroken(now: int, ghost start: Table, ghost tries: nat) returns (strays: bool)
      requires Consistent() && tcpstate == Broken && EventsSo(start, now, tries)
      modifies `queries, `udpw, `tcpw, `childw, `output, `freed, `returned, `cancelled, `tcpstate
      ensures Consistent() && EventsSo(start, now, tries)
      ensures if strays then Siblings(start) else tcpstate == Disconnected
      ensures returned == old(returned) && cancelled == old(cancelled)
    {
      hide Valid, Awaited, Overdue, Exhausted, Reconnected, Purging, DoneStay, Siblings, Later;
      strays := PurgeTcp(now);
      PurgingFewer(old(queries), queries, now, nservers);
      ReconnectedPurged(start, old(queries), queries, tries, now, nservers);
      DoneStayed(start, old(queries), queries);
      if strays {
        ReconnectedLater(start, old(queries), tries, nservers);
        SiblingsBefore(start, old(queries));
      }
    }

    /** The case of a connection that was not made in time. */
    method EventsLate(now: int, ghost start: Table)
      requires Consistent() && tcpstate == Connecting && EventsSo(start, now, 0)
      modifies `queries, `tcpstate, `tcpserver, `tcpsocketOpen, `tcpsend, `wire, `tcprecvUsed, `tcprecvSkip
      ensures Consistent() && EventsSo(start, now, 1) && tcpstate == Broken
    {
      hide Valid, Awaited, Overdue, Reconnected, DoneStay, Elements, OnTcp, Retried;
      OnTcpw({});
      TcpBroken({});
      RetriedOverdue(old(queries), queries, Elements(tcpw), now);
      ReconnectedRetried(start, old(queries), queries, Elements(tcpw), nservers);
      DoneStayed(start, old(queries), queries);
    }

    /** tcp_events, acting. strays: see PurgeTcp. */
    method TcpEvents(now: int) returns (strays: bool)
      requires Consistent()
      modifies `queries, `udpw, `tcpw, `childw, `output, `freed, `returned, `cancelled
      modifies `tcpstate, `tcpserver, `tcpsocketOpen, `tcptimeout, `tcpsend, `wire, `tcprecvUsed, `tcprecvSkip
      ensures Consistent() && EventsSo(old(queries), now, 1)
      ensures if strays then Siblings(old(queries)) else TcpQuiet(now)
      ensures returned == old(returned) && cancelled == old(cancelled)
    {
      hide Valid, Awaited, Overdue, Reconnected, DoneStay, Siblings, Accounts, Queues, Kin, AllOk, Resting, TcpRetries;
      strays := false;
      ghost var start := queries;
      ghost var tries: nat := 0;
      ReconnectedNone(queries, nservers);
      DoneStays(queries);
      while true
        invariant Consistent() && tries <= 1 && EventsSo(start, now, tries)
        invariant tries == 1 ==> TcpRounds(now) <= 1
        invariant returned == old(returned) && cancelled == old(cancelled)
        decreases TcpRounds(now)
      {
        Parts({});
        ReconnectedMost(start, queries, tries, nservers);
        if tcpstate == Broken {
          strays := EventsBroken(now, start, tries);
          ReconnectedMost(start, queries, tries, nservers);
          if strays {
            return;
          }
        }
        if tcpstate == Disconnected {
          if tcpw == [] {
            return;
          }
          TryConnect(now, {});
        } else {
          if tcpstate == Connected {
            if tcpw != [] {
              return;
            }
            if tcptimeout.None? {
              SetIdleTimer(now);
            }
          }
          if now <= tcptimeout.value {
            return;
          }
          if tcpstate == Connecting {
            EventsLate(now, start);
            tries := 1;
          } else {
            CloseIdle();
            return;
          }
        }
      }
    }

    method SetIdleTimer(now: int)
      requires Consistent() && tcpstate == Connected
      modifies `tcptimeout
      ensures Consistent() && tcptimeout == Some(now + TCPIDLE)
    {
      hide Queues, Kin, AllOk, Resting, TcpRetries, Accounts, Awaited;
      tcptimeout := Some(now + TCPIDLE);
    }

    /** The idle timeout. */
    method CloseIdle()
      requires Consistent() && tcpstate == Connected && tcpw == []
      modifies `tcpstate, `tcpsocketOpen, `tcpsend, `wire, `tcprecvUsed, `tcprecvSkip
      ensures Consistent() && tcpstate == Disconnected
    {
      hide Kin, AllOk, Resting, Accounts, Awaited;
      TcpClose();
      tcpstate := Disconnected;
    }

    /** adns_processtimeouts: afterwards nothing is past its time. strays: see PurgeTcp. */
    method ProcessTimeouts(now: int) returns (strays: bool)
      requires Consistent()
      modifies `queries, `udpw, `tcpw, `childw, `output, `freed, `returned, `cancelled
      modifies `tcpstate, `tcpserver, `tcpsocketOpen, `tcptimeout, `tcpsend, `wire, `tcprecvUsed, `tcprecvSkip
      ensures Consistent() && (if strays then Siblings(old(queries)) else TcpQuiet(now))
      ensures Overdue(queries, now) == {} && DoneStay(old(queries), queries) && Later(old(queries), queries)
      ensures forall x: QId :: x in old(queries) && old(queries)[x].parent.None? && old(queries)[x].state == ToSend ==>
        x in queries && Ticked(old(queries)[x], queries[x], now, nservers, tooBig)
      ensures forall x: QId :: x in old(queries) && old(queries)[x].parent.None? && old(queries)[x].state == TcpW ==>
        x in queries && TcpTicked(old(queries)[x], queries[x], now, nservers)
      ensures Parents(old(queries), queries, Failing(old(queries), now, nservers))
      ensures returned == old(returned) && cancelled == old(cancelled)
    {
      hide Valid, Awaited, Overdue, WokenAt, Ticked, TcpTicked, Reconnected, DoneStay, Kin, AllOk, Resting, Queues, TcpRetries, Accounts, Later, Parents, Siblings, Failing, Passed;
      Parts({});
      ghost var was := queries;
      TimeoutsQueue(false, now);
      ghost var udp := queries;
      TimeoutsQueue(true, now);
      ghost var tcp := queries;
      PassedFewer(udp, tcp, now, nservers, tooBig);
      PassedFewer(was, udp, now, nservers, tooBig);
      BothQueues(udp, queries, now);
      assert Overdue(queries, now) == {};
      strays := TcpEvents(now);
      DoneStayed(was, udp, tcp);
      DoneStayed(was, tcp, queries);
      PassParents(was, udp, tcp, queries, now, nservers, tooBig);
      if strays {
        LaterOn(was, udp, tcp);
        SiblingsBefore(was, tcp);
      }
      forall x: QId | x in was && was[x].parent.None? && was[x].state == ToSend
        ensures x in queries && Ticked(was[x], queries[x], now, nservers, tooBig)
      {
        PassTicks(was, udp, tcp, queries, x, now, nservers, tooBig);
      }
      forall x: QId | x in was && was[x].parent.None? && was[x].state == TcpW
        ensures x in queries && TcpTicked(was[x], queries[x], now, nservers)
      {
        PassTcpTicks(was, udp, tcp, queries, x, now, nservers, tooBig);
      }
    }

    // -------------------------------------------------------------- how long to sleep

    /** What tcp_events wants: the time until it has something to do. */
    function TcpDue(now: int): Option<int>
      reads `tcpstate, `tcpw, `tcptimeout
    {
      match tcpstate
      case Broken => Some(0)
      case Disconnected => if tcpw == [] then None else Some(0)
      case Connected =>
        if tcpw != [] then None
        else if tcptimeout.None? then Some(TCPIDLE)
        else Some(Due(now, tcptimeout.value))
      case Connecting => if tcptimeout.None? then None else Some(Due(now, tcptimeout.value))
    }

    /** timeouts_queue, reporting. */
    method QueueDue(tcp: bool, now: int, r0: Option<int>) returns (r: Option<int>)
      requires Valid({}) && (r0.Some? ==> r0.value >= 0)
      ensures LeastDue(queries, if tcp then tcpw else udpw, now, r0, r) && (r.Some? ==> r.value >= 0)
    {
      hide Valid;
      r := r0;
      var queue := if tcp then tcpw else udpw;
      for i := 0 to |queue|
        invariant LeastDue(queries, queue[..i], now, r0, r) && (r.Some? ==> r.value >= 0)
      {
        var x := queue[i];
        WaitingOn(x);
        assert queue[..i + 1] == queue[..i] + [x];
        if now <= queries[x].timeout {
          var d := queries[x].timeout - now;
          if r.None? || r.value > d {
            r := Some(d);
            assert x in queue[..i + 1] && r.value == Due(now, queries[x].timeout);
          }
        } else {
          r := Some(0);
          assert x in queue && r.value == Due(now, queries[x].timeout);
          return;
        }
      }
      assert queue[..|queue|] == queue;
    }

    /** adns_processtimeouts would find nothing to do. */
    ghost predicate NothingDue(t: int)
      reads `queries, `tcpstate, `tcpw, `tcptimeout
    {
      TcpQuiet(t) && Overdue(queries, t) == {}
    }

    /** adns_firsttimeout: the least of the times until each query and the connection are due. It
        starts the idle timer of the connection. Until then an acting pass finds nothing to do, and a
        moment later it does. */
    method FirstTimeout(now: int) returns (r: Option<int>)
      requires Consistent()
      modifies `tcptimeout
      ensures Consistent()
      ensures r.None? <==> udpw == [] && tcpw == [] && old(TcpDue(now)).None?
      ensures r.Some? ==>
        && (forall x: QId :: x in queries && OnNetwork(queries[x]) ==> 0 <= r.value <= Due(now, queries[x].timeout))
        && (old(TcpDue(now)).Some? ==> r.value <= old(TcpDue(now)).value)
        && (r == old(TcpDue(now))
            || exists x: QId :: x in queries && OnNetwork(queries[x]) && r.value == Due(now, queries[x].timeout))
      ensures tcptimeout == if tcpstate == Connected && tcpw == [] && old(tcptimeout).None? then Some(now + TCPIDLE) else old(tcptimeout)
      ensures !NothingDue(now) ==> r == Some(0)
      ensures forall t: int :: now <= t && (r.None? || (r.value > 0 && t <= now + r.value)) ==> NothingDue(t)
      ensures r.Some? && r.value > 0 ==> !NothingDue(now + r.value + 1)
    {
      hide Valid, Awaited;
      r := QueueDue(false, now, None);
      r := QueueDue(true, now, r);
      OnQueues();
      var d := TcpDue(now);
      TimerSet();
      if tcpstate == Connected && tcpw == [] && tcptimeout.None? {
        SetIdleTimer(now);
      }
      if d.Some? && (r.None? || r.value > d.value) {
        r := d;
      }
      DueTells(now, r);
    }

    /** The least time due is when an acting pass has something to do. */
    lemma DueTells(now: int, r: Option<int>)
      requires Valid({}) && (tcpstate == Connected && tcpw == [] ==> tcptimeout.Some?)
      requires r.None? <==> udpw == [] && tcpw == [] && TcpDue(now).None?
      requires r.Some? ==>
        && (forall x: QId :: x in queries && OnNetwork(queries[x]) ==> 0 <= r.value <= Due(now, queries[x].timeout))
        && (TcpDue(now).Some? ==> r.value <= TcpDue(now).value)
        && (r == TcpDue(now)
            || exists x: QId :: x in queries && OnNetwork(queries[x]) && r.value == Due(now, queries[x].timeout))
      ensures !NothingDue(now) ==> r == Some(0)
      ensures forall t: int :: now <= t && (r.None? || (r.value > 0 && t <= now + r.value)) ==> NothingDue(t)
      ensures r.Some? && r.value > 0 ==> !NothingDue(now + r.value + 1)
    {
      hide Valid;
      TimerSet();
      OnQueues();
      forall t: int | now <= t && (r.None? || (r.value > 0 && t <= now + r.value))
        ensures NothingDue(t)
      {
        assert forall x: QId :: x in queries && OnNetwork(queries[x]) ==> t <= queries[x].timeout;
        assert Overdue(queries, t) == {};
      }
      if r.Some? && r.value > 0 {
        var t := now + r.value + 1;
        if r != TcpDue(now) {
          var x: QId :| x in queries && OnNetwork(queries[x]) && r.value == Due(now, queries[x].timeout);
          assert x in Overdue(queries, t);
        }
      }
    }

    lemma TimerSet()
      requires Valid({})
      ensures tcpstate == Connecting ==> tcptimeout.Some?
    {
    }

    lemma OnQueues()
      requires Valid({})
      ensures forall x: QId :: x in udpw || x in tcpw <==> x in queries && OnNetwork(queries[x])
    {
    }

    // -------------------------------------------------------------- the user's side

    /** adns__internal_check, for any query or one the user holds. */
    method Check(query: Option<QId>) returns (r: CheckResult)
      requires Consistent() && (query.Some? ==> query.value in queries && queries[query.value].parent.None?)
      modifies `queries, `udpw, `tcpw, `childw, `output, `freed, `returned, `cancelled
      ensures Consistent()
      ensures r.NoSuch? ==> query.None? && queries == old(queries) == map[] && old(output) == udpw == tcpw == []
      ensures r.Again? ==> queries == old(queries) && (udpw != [] || tcpw != [])
      ensures r.Again? ==> if query.Some? then queries[query.value].state != Done else output == []
      ensures udpw == old(udpw) && tcpw == old(tcpw) && childw == old(childw)
      ensures !r.Answer? ==> output == old(output)
      ensures r.Answer? ==>
        && r.q in old(queries) && r.answer == old(queries)[r.q] && r.answer.state == Done && r.answer.parent.None?
        && (if query.Some? then r.q == query.value else old(output) != [] && r.q == old(output)[0])
        && queries == old(queries) - {r.q} && output == Without(old(output), r.q)
      ensures returned == old(returned) + (if r.Answer? then {r.q} else {}) && cancelled == old(cancelled)
    {
      hide Valid, Queues, Kin, QueryOk, AllOk, Resting, RestingOk, TcpRetries, OnTcp, Accounts, Awaited, Without;
      var q: QId;
      Parts({});
      if query.None? {
        if output != [] {
          q := output[0];
        } else if udpw != [] || tcpw != [] {
          return Again;
        } else {
          NoneWaiting();
          return NoSuch;
        }
      } else {
        q := query.value;
        SomeWaiting(q);
        if queries[q].id >= 0 {
          return Again;
        }
      }
      ReadyToGo(q);
      BusyAwaited(q);
      TakeOff(q, {});
      assert {} + {q} == {q} && {q} - {q} == {};
      r := Answer(q, queries[q]);
      GoneDone(queries, q);
      FreeTop(q, true, {q});
    }

    lemma ReadyToGo(q: QId)
      requires Valid({}) && ((0 < |output| && q == output[0]) || (q in queries && queries[q].id < 0))
      ensures q in queries && queries[q].state == Done && queries[q].parent.None? && queries[q].children == []
    {
      assert RestingOk(queries[q]);
    }

    lemma SomeWaiting(q: QId)
      requires Consistent() && q in queries
      ensures queries[q].id >= 0 ==> queries[q].state != Done && (udpw != [] || tcpw != [])
    {
      assert RestingOk(queries[q]);
      if queries[q].state != Done {
        SomeoneWaits(queries, q);
        OnQueues();
      }
    }

    lemma NoneWaiting()
      requires Consistent() && output == udpw == tcpw == []
      ensures queries == map[]
    {
      OnQueues();
      if x: QId :| x in queries {
        if queries[x].state != Done {
          SomeoneWaits(queries, x);
        }
        Covered(queries, udpw, tcpw, childw, output);
      }
      assert queries.Keys == {};
    }

    /** adns_cancel by the user. */
    method CancelQuery(q: QId)
      requires Consistent() && q in queries && queries[q].parent.None?
      modifies `queries, `udpw, `tcpw, `childw, `output, `freed, `returned, `cancelled
      ensures Consistent() && Gone(old(queries), queries, q)
      ensures returned == old(returned) && cancelled == old(cancelled) + {q}
    {
      hide Valid, Queues, Kin, QueryOk, AllOk, Resting, RestingOk, TcpRetries, OnTcp, Accounts, Awaited, Gone;
      Parts({});
      KidsApart(queries, q, {});
      Cancel(q, {});
      GoneAwaited(old(queries), queries, q, {});
    }

    /** adns_finish: heads of queues are cancelled until no queue has one. Between two of its steps
        a parent may have lost its last child. */
    method Finish()
      requires Consistent()
      modifies `queries, `udpw, `tcpw, `childw, `output, `freed, `returned, `cancelled
      ensures udpw == tcpw == childw == output == [] && queries == map[]
      ensures forall x: QId :: x < next <==> x in freed
      ensures returned == old(returned) && tops == returned + cancelled && returned !! cancelled
    {
      hide Valid, Queues, Kin, QueryOk, AllOk, Resting, RestingOk, TcpRetries, OnTcp, Accounts, Awaited, Gone;
      while true
        invariant Valid({}) && returned == old(returned)
        decreases queries.Keys
      {
        var q: QId;
        if udpw != [] {
          q := udpw[0];
        } else if tcpw != [] {
          q := tcpw[0];
        } else if childw != [] {
          q := childw[0];
        } else if output != [] {
          q := output[0];
        } else {
          break;
        }
        Parts({});
        OnAQueue(q);
        KidsApart(queries, q, {});
        ghost var was := queries;
        Cancel(q, {});
        GoneOne(was, queries, q);
      }
      Parts({});
      NothingLeft(queries, next, freed, tops, returned, cancelled);
    }

    lemma OnAQueue(q: QId)
      requires Valid({}) && (q in udpw || q in tcpw || q in childw || q in output)
      ensures q in queries
    {
    }
  }
}
