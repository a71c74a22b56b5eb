/** The resolver's queries as records, the queues they are on, and the consistency the code asserts
    of them. */
module QueryTable {
  import opened Bytes
  import opened Sequences
  import opened WireNames
  import opened TextNames
  import opened NameMethods
  import RR = ResourceRecords

  type QId = nat

  const UDPMAXRETRIES: nat := 15
  const DNS_MAXUDP: nat := 512
  /** The longest query made: header, the longest name of a reply, type and class. */
  const MAXQUERY: nat := DNS_HDRSIZE + MAX_WIRE_NAME + 4

  datatype QState = ToSend | TcpW | ChildW | Done

  datatype Status =
    | StOk
    | StTimeout
    | StAllServFail
    | StNxDomain
    | StNoData
    | StInconsistent
    | StName(why: NameStatus)
    | StRcode(rcode: nat)
    | StNoRecurse
    | StInvalidResponse
    | StProhibitedCname
    | StUnknownFormat
    | StAnswerDomainInvalid
    | StAnswerDomainTooLong
    | StOther(code: nat)

  /** What the answer parser of a type does about other queries: address look-ups for the hosts it
      names (ns, mx), a check of the address (ptr), or nothing. */
  datatype RRType = Plain | Addr | HostAddr | Ptr

  predicate Spawns(t: RRType) {
    t == HostAddr || t == Ptr
  }

  /** A record type, 16 bits. */
  type TypeCode = x: nat | x < 0x1_0000

  /** adns_qf_cname_forbid, adns_qf_cname_loose and adns_qf_quotefail_cname. */
  datatype AliasFlags = AliasFlags(forbid: bool, loose: bool, quotefail: bool)

  /** A datagram sent: to which server, when. */
  datatype Attempt = Attempt(server: nat, at: int)

  /** searchVb: the bytes of search_vb that have been written. */
  datatype Query = Query(
    state: QState,
    parent: Option<QId>,
    children: seq<QId>,
    rrtype: RRType,
    qtype: TypeCode,
    id: int,
    search: bool,
    usevc: bool,
    quoteok: bool,
    aliases: AliasFlags,
    owner: seq<Byte>,
    question: seq<Byte>,
    cname: Option<Located>,
    retries: nat,
    udpNextServer: nat,
    udpSent: set<nat>,
    attempts: seq<Attempt>,
    timeout: int,
    bareFirst: bool,
    searchPos: nat,
    searchDoneAbs: int,
    searchVb: seq<Byte>,
    tried: seq<seq<Byte>>,
    status: Status)

  type Table = map<QId, Query>

  // ---------------------------------------------------------------- the search list

  /** The text of one search candidate: the owner, a dot, a search-list entry. */
  function Candidate(owner: seq<Byte>, entry: seq<Byte>): seq<Byte> {
    owner + [DOT] + entry
  }

  function Candidates(owner: seq<Byte>, list: seq<seq<Byte>>): (r: seq<seq<Byte>>)
    ensures |r| == |list|
  {
    seq(|list|, i requires 0 <= i < |list| => Candidate(owner, list[i]))
  }

  /** The documented order: the bare name first if it has enough dots, last otherwise. */
  function SearchOrder(owner: seq<Byte>, list: seq<seq<Byte>>, bareFirst: bool): seq<seq<Byte>> {
    if bareFirst then [owner] + Candidates(owner, list) else Candidates(owner, list) + [owner]
  }

  /** The search buffer once the text is in it: what was behind stays. */
  function Written(vb: seq<Byte>, text: seq<Byte>): (r: seq<Byte>)
    ensures |text| <= |r| && r[..|text|] == text
  {
    if |text| < |vb| then text + vb[|text|..] else text
  }

  /** What the search fields of a query leave to try. */
  function Remaining(qu: Query, list: seq<seq<Byte>>): seq<seq<Byte>>
    requires qu.searchPos <= |list|
  {
    var entries := Candidates(qu.owner, list[qu.searchPos..]);
    if qu.searchDoneAbs < 0 then [qu.owner] + entries
    else if qu.searchDoneAbs == 0 then entries + [qu.owner]
    else entries
  }

  /** What the names tried have left in the search buffer, which began as the owner. */
  function Layered(owner: seq<Byte>, tried: seq<seq<Byte>>): seq<Byte> {
    if tried == [] then owner
    else Written(Layered(owner, tried[..|tried| - 1]), tried[|tried| - 1])
  }

  ghost predicate SearchOk(qu: Query, list: seq<seq<Byte>>) {
    && qu.searchPos <= |list| && -1 <= qu.searchDoneAbs <= 1
    && (qu.search ==>
      && qu.tried + Remaining(qu, list) == SearchOrder(qu.owner, list, qu.bareFirst)
      && qu.searchVb == Layered(qu.owner, qu.tried))
  }

  // ---------------------------------------------------------------- consistency

  /** A message that asks for records of the type: a name that can be read, and the type behind it. */
  predicate Asking(question: seq<Byte>, qtype: TypeCode) {
    && Readable(Place(question, DNS_HDRSIZE)) && |question| >= 4
    && LinearEnd(question, DNS_HDRSIZE) == Some(|question| - 4) && RR.Get16(question, |question| - 4) == qtype
  }

  /** The queue holds exactly the queries in state st that are not being processed. */
  ghost predicate QueueIs(t: Table, queue: seq<QId>, st: QState, busy: set<QId>) {
    NoDup(queue) && forall x :: x in queue <==> x in t && t[x].state == st && x !in busy
  }

  /** Parents and children point at each other; only types that spawn have children, and children
      are address queries. */
  ghost predicate KinOk(t: Table, x: QId)
    requires x in t
  {
    && NoDup(t[x].children)
    && (forall c :: c in t[x].children ==> c in t && t[c].parent == Some(x))
    && (t[x].children != [] ==> Spawns(t[x].rrtype))
    && (t[x].parent.Some? ==>
      && t[x].parent.value in t && x in t[t[x].parent.value].children
      && t[x].rrtype == Addr && t[x].state != Done)
  }

  ghost predicate Kin(t: Table) {
    forall x :: x in t ==> KinOk(t, x)
  }

  /** The servers a list of attempts went to. */
  function Asked(attempts: seq<Attempt>): set<nat> {
    set a | a in attempts :: a.server
  }

  /** Servers are asked in turn, beginning with the first. */
  ghost predicate Rotates(qu: Query, nservers: nat)
    requires nservers > 0
  {
    && (forall i :: 0 <= i < |qu.attempts| ==> qu.attempts[i].server == i % nservers)
    && qu.udpNextServer == |qu.attempts| % nservers
    && qu.udpSent == Asked(qu.attempts)
  }

  /** What holds of every query, processed or not. */
  ghost predicate QueryOk(qu: Query, nservers: nat, list: seq<seq<Byte>>) {
    && nservers > 0 && qu.udpNextServer < nservers && (forall s :: s in qu.udpSent ==> s < nservers)
    && Rotates(qu, nservers)
    && SearchOk(qu, list)
    && qu.id < 0x1_0000 && |qu.question| <= MAXQUERY
    && (qu.id >= 0 ==> Asking(qu.question, qu.qtype))
  }

  ghost predicate AllOk(t: Table, nservers: nat, list: seq<seq<Byte>>) {
    forall x :: x in t ==> QueryOk(t[x], nservers, list)
  }

  /** What a queue asks of the queries on it, apart from TCP retries. */
  ghost predicate RestingOk(qu: Query) {
    && (qu.state == Done <==> qu.id < 0)
    && (qu.state != Done ==> qu.status == StOk)
    && match qu.state
    case ToSend => qu.children == [] && qu.retries <= UDPMAXRETRIES && qu.udpSent != {} && !qu.usevc
    case TcpW => qu.children == []
    case ChildW => true
    case Done => qu.children == [] && qu.parent.None?
  }

  ghost predicate Resting(t: Table, busy: set<QId>) {
    forall x :: x in t && x !in busy ==> RestingOk(t[x])
  }

  /** checkc_queue_childw: a query waiting for children has some. */
  ghost predicate Awaited(t: Table, busy: set<QId>) {
    forall x :: x in t && x !in busy && t[x].state == ChildW ==> t[x].children != []
  }

  /** checkc_queue_tcpw, in the exact form the connection state gives. */
  ghost predicate TcpRetries(t: Table, busy: set<QId>, bound: nat) {
    forall x :: x in t && x !in busy && t[x].state == TcpW ==> t[x].retries <= bound
  }

  /** Nothing outside `touched` came, went or changed. */
  ghost predicate SameElse(was: Table, now: Table, touched: set<QId>) {
    forall x :: x !in touched ==> (x in was <==> x in now) && (x in was ==> now[x] == was[x])
  }

  /** Everything processing x can reach: itself, its children, its parent and siblings. */
  ghost function Family(t: Table, x: QId): set<QId>
    requires x in t
  {
    {x} + (set c | c in t[x].children)
    + (if t[x].parent.Some? then {t[x].parent.value} else {})
    + (if t[x].parent.Some? && t[x].parent.value in t then set c | c in t[t[x].parent.value].children else {})
  }

  /** Every id ever issued is a live query or was freed, and a top-level query that was freed was
      either returned or cancelled, not both. */
  ghost predicate Accounts(t: Table, next: QId, freed: set<QId>, tops: set<QId>, returned: set<QId>, cancelled: set<QId>) {
    && (forall x: QId :: x < next <==> x in t || x in freed)
    && (forall x: QId :: x in t ==> x !in freed)
    && (forall x: QId :: x in t ==> (t[x].parent.None? <==> x in tops))
    && (forall x: QId :: x in tops ==> x in t || x in freed)
    && (forall x: QId :: x in tops && x in freed ==> x in returned || x in cancelled)
    && (forall x: QId :: x in returned || x in cancelled ==> x in tops && x in freed)
    && returned !! cancelled
  }

  lemma AccountsChildGone(t: Table, t': Table, next: QId, freed: set<QId>, tops: set<QId>, returned: set<QId>,
                          cancelled: set<QId>, c: QId)
    requires Accounts(t, next, freed, tops, returned, cancelled) && c in t && t[c].parent.Some?
    requires t'.Keys == t.Keys - {c} && forall x: QId :: x in t' ==> t'[x].parent == t[x].parent
    ensures Accounts(t', next, freed + {c}, tops, returned, cancelled)
  {
  }

  lemma AccountsTopGone(t: Table, next: QId, freed: set<QId>, tops: set<QId>, returned: set<QId>,
                        cancelled: set<QId>, q: QId)
    requires Accounts(t, next, freed, tops, returned, cancelled) && q in t && t[q].parent.None?
    ensures Accounts(t - {q}, next, freed + {q}, tops, returned + {q}, cancelled)
    ensures Accounts(t - {q}, next, freed + {q}, tops, returned, cancelled + {q})
  {
  }

  lemma AccountsUpdate(t: Table, next: QId, freed: set<QId>, tops: set<QId>, returned: set<QId>,
                       cancelled: set<QId>, q: QId, qu: Query)
    requires Accounts(t, next, freed, tops, returned, cancelled) && q in t && t[q].parent == qu.parent
    ensures Accounts(t[q := qu], next, freed, tops, returned, cancelled)
  {
  }

  lemma AccountsNext(t: Table, next: QId, freed: set<QId>, tops: set<QId>, returned: set<QId>, cancelled: set<QId>)
    requires Accounts(t, next, freed, tops, returned, cancelled)
    ensures next !in t && next !in freed
  {
    var n: QId := next;
    assert n < next <==> n in t || n in freed;
  }

  lemma AccountsNew(t: Table, t': Table, next: QId, freed: set<QId>, tops: set<QId>, returned: set<QId>,
                    cancelled: set<QId>)
    requires Accounts(t, next, freed, tops, returned, cancelled)
    requires t'.Keys == t.Keys + {next} && forall x: QId :: x in t ==> t'[x].parent == t[x].parent
    ensures next !in t && next !in freed
    ensures Accounts(t', next + 1, freed, if t'[next].parent.None? then tops + {next} else tops, returned, cancelled)
  {
  }

  lemma OtherChildren(qu: Query, nservers: nat, list: seq<seq<Byte>>, children: seq<QId>)
    requires QueryOk(qu, nservers, list)
    ensures QueryOk(qu.(children := children), nservers, list)
  {
  }

  /** A resting query with a child is waiting for it. */
  lemma ParentWaits(t: Table, busy: set<QId>, c: QId)
    requires Kin(t) && Resting(t, busy) && c in t && t[c].parent.Some?
    ensures var p := t[c].parent.value; p in t && c in t[p].children && (p !in busy ==> t[p].state == ChildW)
  {
    assert KinOk(t, c);
    var p := t[c].parent.value;
    assert p !in busy ==> RestingOk(t[p]);
  }

  // ---------------------------------------------------------------- the four queues together

  ghost predicate Queues(t: Table, udpw: seq<QId>, tcpw: seq<QId>, childw: seq<QId>, output: seq<QId>, busy: set<QId>) {
    && QueueIs(t, udpw, ToSend, busy) && QueueIs(t, tcpw, TcpW, busy)
    && QueueIs(t, childw, ChildW, busy) && QueueIs(t, output, Done, busy)
  }

  /** Taking x off the queue of its state. */
  lemma QueueTakeOff(t: Table, queue: seq<QId>, st: QState, busy: set<QId>, x: QId)
    requires QueueIs(t, queue, st, busy) && x in t && x !in busy
    ensures QueueIs(t, if t[x].state == st then Without(queue, x) else queue, st, busy + {x})
  {
    WithoutIs(queue, x);
  }

  lemma QueuePutOn(t: Table, queue: seq<QId>, st: QState, busy: set<QId>, x: QId)
    requires QueueIs(t, queue, st, busy) && x in t && x in busy
    ensures QueueIs(t, if t[x].state == st then queue + [x] else queue, st, busy - {x})
  {
  }

  /** A query being processed may change as it likes, or go. */
  lemma QueueUpdate(t: Table, queue: seq<QId>, st: QState, busy: set<QId>, x: QId, qu: Query)
    requires QueueIs(t, queue, st, busy) && (x in busy || (x in t && t[x].state == qu.state))
    ensures QueueIs(t[x := qu], queue, st, busy)
  {
  }

  lemma QueueRemove(t: Table, queue: seq<QId>, st: QState, busy: set<QId>, x: QId)
    requires QueueIs(t, queue, st, busy) && x in busy
    ensures QueueIs(t - {x}, queue, st, busy - {x})
  {
  }

  lemma ElementsFirst(queue: seq<QId>, i: nat)
    requires NoDup(queue) && i < |queue|
    ensures queue[i] !in Elements(queue[..i]) && Elements(queue[..i + 1]) == Elements(queue[..i]) + {queue[i]}
  {
  }

  lemma ElementsNone(queue: seq<QId>)
    ensures Elements(queue[..0]) == {} && Elements<QId>([]) == {}
  {
  }

  /** Every query is on a queue. */
  lemma Covered(t: Table, udpw: seq<QId>, tcpw: seq<QId>, childw: seq<QId>, output: seq<QId>)
    requires Queues(t, udpw, tcpw, childw, output, {})
    ensures t.Keys == Elements(udpw) + Elements(tcpw) + Elements(childw) + Elements(output)
  {
    forall x | x in t
      ensures x in Elements(udpw) + Elements(tcpw) + Elements(childw) + Elements(output)
    {
      match t[x].state
      case ToSend => assert x in udpw;
      case TcpW => assert x in tcpw;
      case ChildW => assert x in childw;
      case Done => assert x in output;
    }
  }

  // ---------------------------------------------------------------- kinship under change

  /** The fields kinship rests on. */
  predicate SameKin(a: Query, b: Query) {
    a.parent == b.parent && a.children == b.children && a.rrtype == b.rrtype
  }

  lemma KinUpdate(t: Table, x: QId, qu: Query)
    requires Kin(t) && x in t && SameKin(t[x], qu) && (qu.parent.Some? ==> qu.state != Done)
    ensures Kin(t[x := qu])
  {
    forall y | y in t
      ensures KinOk(t[x := qu], y)
    {
      assert KinOk(t, y);
    }
  }

  lemma KinChildGone(t: Table, c: QId)
    requires Kin(t) && c in t && t[c].parent.Some? && t[c].children == []
    ensures var p := t[c].parent.value;
      && p in t && p != c
      && Kin((t - {c})[p := t[p].(children := Without(t[p].children, c))])
  {
    assert KinOk(t, c);
    var p := t[c].parent.value;
    assert KinOk(t, p);
    WithoutIs(t[p].children, c);
    var t' := (t - {c})[p := t[p].(children := Without(t[p].children, c))];
    forall y | y in t'
      ensures KinOk(t', y)
    {
      assert KinOk(t, y);
    }
  }

  lemma KinTopGone(t: Table, x: QId)
    requires Kin(t) && x in t && t[x].parent.None? && t[x].children == []
    ensures Kin(t - {x})
  {
    forall y | y in t - {x}
      ensures KinOk(t - {x}, y)
    {
      assert KinOk(t, y);
    }
  }

  lemma KinTopNew(t: Table, x: QId, qu: Query)
    requires Kin(t) && x !in t && qu.parent.None? && qu.children == []
    ensures Kin(t[x := qu])
  {
    var t' := t[x := qu];
    forall y | y in t'
      ensures KinOk(t', y)
    {
      assert y != x ==> KinOk(t, y);
    }
  }

  lemma KinChildNew(t: Table, p: QId, c: QId, qu: Query)
    requires Kin(t) && p in t && c !in t && Spawns(t[p].rrtype)
    requires qu.parent == Some(p) && qu.children == [] && qu.rrtype == Addr && qu.state != Done
    ensures Kin(t[c := qu][p := t[p].(children := t[p].children + [c])])
  {
    assert KinOk(t, p);
    var t' := t[c := qu][p := t[p].(children := t[p].children + [c])];
    forall y | y in t'
      ensures KinOk(t', y)
    {
      assert y != c ==> KinOk(t, y);
    }
  }

  /** Children have no children of their own. */
  lemma ChildIsLeaf(t: Table, c: QId)
    requires Kin(t) && c in t && t[c].parent.Some?
    ensures t[c].children == [] && !Spawns(t[c].rrtype) && t[c].state != Done
    ensures t[c].parent.value in t && c in t[t[c].parent.value].children && t[t[c].parent.value].parent.None?
  {
    assert KinOk(t, c);
    assert KinOk(t, t[c].parent.value);
  }

  // ---------------------------------------------------------------- the rules of single queries

  /** The fields the rules for a query being processed read. */
  predicate SameSending(a: Query, b: Query) {
    && a.udpNextServer == b.udpNextServer && a.udpSent == b.udpSent && a.attempts == b.attempts
    && a.searchPos == b.searchPos && a.searchDoneAbs == b.searchDoneAbs && a.search == b.search
    && a.tried == b.tried && a.searchVb == b.searchVb && a.owner == b.owner && a.bareFirst == b.bareFirst && a.question == b.question && a.qtype == b.qtype
    && a.cname == b.cname && (b.id == a.id || b.id == -1)
  }

  lemma SameSendingOk(a: Query, b: Query, nservers: nat, list: seq<seq<Byte>>)
    requires QueryOk(a, nservers, list) && SameSending(a, b)
    ensures QueryOk(b, nservers, list)
  {
  }

  lemma QueueNew(t: Table, queue: seq<QId>, st: QState, busy: set<QId>, x: QId, qu: Query)
    requires QueueIs(t, queue, st, busy) && x !in t
    ensures QueueIs(t[x := qu], queue, st, busy + {x})
  {
  }

  lemma QueuesNew(t: Table, udpw: seq<QId>, tcpw: seq<QId>, childw: seq<QId>, output: seq<QId>, busy: set<QId>, x: QId,
                  qu: Query)
    requires Queues(t, udpw, tcpw, childw, output, busy) && x !in t
    ensures Queues(t[x := qu], udpw, tcpw, childw, output, busy + {x})
  {
    hide QueueIs;
    QueueNew(t, udpw, ToSend, busy, x, qu);
    QueueNew(t, tcpw, TcpW, busy, x, qu);
    QueueNew(t, childw, ChildW, busy, x, qu);
    QueueNew(t, output, Done, busy, x, qu);
  }

  lemma QueuesUpdate(t: Table, udpw: seq<QId>, tcpw: seq<QId>, childw: seq<QId>, output: seq<QId>, busy: set<QId>, x: QId,
                     qu: Query)
    requires Queues(t, udpw, tcpw, childw, output, busy) && x in busy
    ensures Queues(t[x := qu], udpw, tcpw, childw, output, busy)
  {
    hide QueueIs;
    QueueUpdate(t, udpw, ToSend, busy, x, qu);
    QueueUpdate(t, tcpw, TcpW, busy, x, qu);
    QueueUpdate(t, childw, ChildW, busy, x, qu);
    QueueUpdate(t, output, Done, busy, x, qu);
  }

  /** The other rules, for a table that grew by a query being processed. */
  lemma RulesNew(t: Table, x: QId, qu: Query, busy: set<QId>, nservers: nat, list: seq<seq<Byte>>, bound: nat)
    requires x !in t && QueryOk(qu, nservers, list)
    requires AllOk(t, nservers, list) && Resting(t, busy) && TcpRetries(t, busy, bound)
    ensures AllOk(t[x := qu], nservers, list) && Resting(t[x := qu], busy + {x}) && TcpRetries(t[x := qu], busy + {x}, bound)
    ensures Awaited(t, busy) ==> Awaited(t[x := qu], busy + {x})
  {
    hide QueryOk, RestingOk;
  }

  lemma RulesUpdate(t: Table, x: QId, qu: Query, busy: set<QId>, nservers: nat, list: seq<seq<Byte>>, bound: nat)
    requires x in busy && QueryOk(qu, nservers, list)
    requires AllOk(t, nservers, list) && Resting(t, busy) && TcpRetries(t, busy, bound)
    ensures AllOk(t[x := qu], nservers, list) && Resting(t[x := qu], busy) && TcpRetries(t[x := qu], busy, bound)
    ensures Awaited(t, busy) ==> Awaited(t[x := qu], busy)
  {
    hide QueryOk, RestingOk;
  }

  /** The table with a new child of p, both being processed. */
  function WithChild(t: Table, p: QId, c: QId, qu: Query): Table
    requires p in t
  {
    t[c := qu][p := t[p].(children := t[p].children + [c])]
  }

  lemma ChildQueues(t: Table, udpw: seq<QId>, tcpw: seq<QId>, childw: seq<QId>, output: seq<QId>, p: QId, c: QId, qu: Query)
    requires Queues(t, udpw, tcpw, childw, output, {p}) && p in t && c !in t
    ensures Queues(WithChild(t, p, c, qu), udpw, tcpw, childw, output, {p, c})
  {
    hide Queues;
    QueuesNew(t, udpw, tcpw, childw, output, {p}, c, qu);
    assert {p} + {c} == {p, c};
    QueuesUpdate(t[c := qu], udpw, tcpw, childw, output, {p, c}, p, t[p].(children := t[p].children + [c]));
  }

  lemma ChildRules(t: Table, p: QId, c: QId, qu: Query, nservers: nat, list: seq<seq<Byte>>, bound: nat)
    requires p in t && c !in t && QueryOk(t[p], nservers, list) && QueryOk(qu, nservers, list)
    requires AllOk(t, nservers, list) && Resting(t, {p}) && TcpRetries(t, {p}, bound) && Awaited(t, {p})
    ensures var t' := WithChild(t, p, c, qu);
      AllOk(t', nservers, list) && Resting(t', {p, c}) && TcpRetries(t', {p, c}, bound) && Awaited(t', {p, c})
  {
    hide QueryOk, AllOk, Resting, TcpRetries, Awaited;
    var parent := t[p].(children := t[p].children + [c]);
    RulesNew(t, c, qu, {p}, nservers, list, bound);
    assert {p} + {c} == {p, c};
    SameSendingOk(t[p], parent, nservers, list);
    RulesUpdate(t[c := qu], p, parent, {p, c}, nservers, list, bound);
  }

  lemma ChildAccounts(t: Table, p: QId, qu: Query, next: QId, freed: set<QId>, tops: set<QId>, returned: set<QId>,
                      cancelled: set<QId>)
    requires Accounts(t, next, freed, tops, returned, cancelled) && p in t && qu.parent.Some?
    ensures next !in t && next != p && Accounts(WithChild(t, p, next, qu), next + 1, freed, tops, returned, cancelled)
  {
    hide Accounts;
    AccountsNext(t, next, freed, tops, returned, cancelled);
    AccountsNew(t, WithChild(t, p, next, qu), next, freed, tops, returned, cancelled);
  }

  // ---------------------------------------------------------------- what is outstanding

  predicate OnNetwork(qu: Query) {
    qu.state == ToSend || qu.state == TcpW
  }

  /** A parent waiting for children has one waiting for the network. */
  lemma SomeoneWaits(t: Table, x: QId)
    requires Kin(t) && Resting(t, {}) && Awaited(t, {}) && x in t && t[x].state != Done
    ensures exists y: QId :: y in t && OnNetwork(t[y]) && (y == x || y in t[x].children)
  {
    if t[x].state == ChildW {
      assert KinOk(t, x);
      var c := t[x].children[0];
      ChildIsLeaf(t, c);
      assert t[c].state != ChildW;
      assert OnNetwork(t[c]);
    } else {
      assert OnNetwork(t[x]);
    }
  }

  /** Every id was issued for a query that is live or freed; a top-level query is exactly one of
      waiting, ready on the output queue, returned to the user, and cancelled. */
  lemma ExactlyOnce(t: Table, next: QId, freed: set<QId>, tops: set<QId>, returned: set<QId>, cancelled: set<QId>, output: seq<QId>)
    requires Accounts(t, next, freed, tops, returned, cancelled) && Kin(t) && QueueIs(t, output, Done, {})
    ensures var waiting := set x: QId | x in tops && x in t && t[x].state != Done;
      && tops == waiting + Elements(output) + returned + cancelled
      && waiting !! Elements(output) !! returned !! cancelled
      && |tops| == |waiting| + |output| + |returned| + |cancelled|
  {
    var waiting := set x: QId | x in tops && x in t && t[x].state != Done;
    forall x | x in output
      ensures x in tops
    {
      assert KinOk(t, x);
    }
    assert tops == waiting + Elements(output) + returned + cancelled;
    ElementsSize(output);
  }

  /** With no query on any queue there is no query, and every one ever allocated was freed. */
  lemma NothingLeft(t: Table, next: QId, freed: set<QId>, tops: set<QId>, returned: set<QId>, cancelled: set<QId>)
    requires Accounts(t, next, freed, tops, returned, cancelled) && Queues(t, [], [], [], [], {})
    ensures t == map[] && (forall x: QId :: x < next <==> x in freed) && tops == returned + cancelled && returned !! cancelled
  {
    Covered(t, [], [], [], []);
    assert t.Keys == {};
    assert forall x: QId :: x < next <==> x in t || x in freed;
  }
}
