/** What sending, searching and submitting do to a query. */
module QuerySending {
  import opened Bytes
  import opened WireNames
  import opened TextNames
  import opened NameMethods
  import opened QueryTable
  import opened QueryEndings
  import RR = ResourceRecords
  import TcpStream

  // ---------------------------------------------------------------- retries over TCP

  /** Exactly the queries in s have been tried once more. */
  ghost predicate Retried(was: Table, now: Table, s: set<QId>) {
    && now.Keys == was.Keys
    && (forall x :: x in was ==> now[x] == if x in s then was[x].(retries := was[x].retries + 1) else was[x])
  }

  ghost predicate OnTcp(t: Table, busy: set<QId>, s: set<QId>) {
    forall x :: x in s ==> x in t && t[x].state == TcpW && x !in busy
  }

  lemma RetriedKin(was: Table, now: Table, s: set<QId>)
    requires Retried(was, now, s) && Kin(was)
    ensures Kin(now)
  {
    forall y | y in now
      ensures KinOk(now, y)
    {
      assert KinOk(was, y);
    }
  }

  lemma RetriedTable(was: Table, now: Table, s: set<QId>, busy: set<QId>, nservers: nat, list: seq<seq<Byte>>)
    requires Retried(was, now, s) && OnTcp(was, busy, s) && AllOk(was, nservers, list) && Resting(was, busy)
    ensures AllOk(now, nservers, list) && Resting(now, busy) && (Awaited(was, busy) ==> Awaited(now, busy))
  {
    hide QueryOk;
    forall y | y in now
      ensures QueryOk(now[y], nservers, list)
    {
      SameSendingOk(was[y], now[y], nservers, list);
    }
    forall y | y in now && y !in busy
      ensures RestingOk(now[y])
    {
      assert RestingOk(was[y]);
    }
  }

  lemma RetriedQueue(was: Table, now: Table, s: set<QId>, queue: seq<QId>, st: QState, busy: set<QId>)
    requires Retried(was, now, s) && QueueIs(was, queue, st, busy)
    ensures QueueIs(now, queue, st, busy)
  {
  }

  lemma RetriedQueues(was: Table, now: Table, s: set<QId>, udpw: seq<QId>, tcpw: seq<QId>, childw: seq<QId>,
                      output: seq<QId>, busy: set<QId>)
    requires Retried(was, now, s) && Queues(was, udpw, tcpw, childw, output, busy)
    ensures Queues(now, udpw, tcpw, childw, output, busy)
  {
    hide QueueIs, Retried;
    RetriedQueue(was, now, s, udpw, ToSend, busy);
    RetriedQueue(was, now, s, tcpw, TcpW, busy);
    RetriedQueue(was, now, s, childw, ChildW, busy);
    RetriedQueue(was, now, s, output, Done, busy);
  }

  lemma RetriedAccounts(was: Table, now: Table, s: set<QId>, next: QId, freed: set<QId>, tops: set<QId>,
                        returned: set<QId>, cancelled: set<QId>)
    requires Retried(was, now, s) && Accounts(was, next, freed, tops, returned, cancelled)
    ensures Accounts(now, next, freed, tops, returned, cancelled)
  {
    assert forall x: QId :: x in now <==> x in was;
    assert forall x: QId :: x in now ==> now[x].parent == was[x].parent;
  }

  lemma RetriedMore(was: Table, mid: Table, s: set<QId>, x: QId)
    requires Retried(was, mid, s) && x in was && x !in s
    ensures Retried(was, mid[x := mid[x].(retries := mid[x].retries + 1)], s + {x})
  {
  }

  lemma RetriedNone(t: Table)
    ensures Retried(t, t, {})
  {
  }

  lemma RetriedBound(was: Table, now: Table, s: set<QId>, busy: set<QId>, nservers: nat, bound: nat)
    requires Retried(was, now, s) && TcpRetries(was, busy, bound) && (s == {} || bound == nservers) && bound <= nservers + 1
    ensures TcpRetries(now, busy, nservers + 1)
  {
  }

  lemma RetriedOneBound(was: Table, now: Table, q: QId, busy: set<QId>, nservers: nat)
    requires Retried(was, now, {q}) && TcpRetries(was, busy, nservers + 1) && q in was && was[q].retries <= nservers
    ensures TcpRetries(now, busy, nservers + 1)
  {
  }

  lemma RetriedNothing(was: Table, now: Table)
    requires Retried(was, now, {})
    ensures now == was
  {
  }

  lemma RetriedAlso(was: Table, mid: Table, now: Table, s: set<QId>, x: QId)
    requires Retried(was, mid, s) && Retried(mid, now, {x}) && x !in s
    ensures Retried(was, now, s + {x})
  {
  }

  lemma RetriedAt(was: Table, now: Table, s: set<QId>, x: QId)
    requires Retried(was, now, s) && x in was
    ensures x in now && now[x] == if x in s then was[x].(retries := was[x].retries + 1) else was[x]
  {
  }

  lemma OneOnTcp(t: Table, busy: set<QId>, x: QId)
    requires x in t && t[x].state == TcpW && x !in busy
    ensures OnTcp(t, busy, {x}) && OnTcp(t, busy, {})
  {
  }

  lemma BoundOf(t: Table, busy: set<QId>, bound: nat, x: QId)
    requires TcpRetries(t, busy, bound) && x in t && t[x].state == TcpW && x !in busy
    ensures t[x].retries <= bound
  {
  }

  lemma OnTcpNone(t: Table, busy: set<QId>)
    ensures OnTcp(t, busy, {})
  {
  }

  // ---------------------------------------------------------------- sending

  /** Times are in microseconds. */
  const UDPRETRY: int := 2000 * 1000
  const TCPWAIT: int := 30000 * 1000
  const TCPCONN: int := 14000 * 1000
  const TCPIDLE: int := 30000 * 1000

  /** A query after a datagram went to its next server. */
  function UdpSent(qu: Query, when: int, nservers: nat): Query
    requires nservers > 0
  {
    qu.(timeout := when + UDPRETRY,
        udpSent := qu.udpSent + {qu.udpNextServer},
        udpNextServer := (qu.udpNextServer + 1) % nservers,
        retries := qu.retries + 1,
        attempts := qu.attempts + [Attempt(qu.udpNextServer, when)])
  }

  lemma NextServer(k: nat, n: nat)
    requires n > 0
    ensures (k % n + 1) % n == (k + 1) % n
  {
    if k % n + 1 < n {
      assert k + 1 == n * (k / n) + (k % n + 1);
      Remainder(k + 1, n, k / n, k % n + 1);
    } else {
      assert k + 1 == n * (k / n) + n;
      assert n * (k / n) + n == n * (k / n + 1);
      Remainder(k + 1, n, k / n + 1, 0);
    }
  }

  lemma Remainder(x: nat, n: nat, q: nat, r: nat)
    requires r < n && x == n * q + r
    ensures x % n == r
  {
    Divided(x, n);
    assert q * n <= x < (q + 1) * n;
    SmallerFactor(q, x / n + 1, n);
    SmallerFactor(x / n, q + 1, n);
    assert x == n * (x / n) + x % n;
  }

  lemma UdpSentOk(qu: Query, when: int, nservers: nat, list: seq<seq<Byte>>)
    requires QueryOk(qu, nservers, list)
    ensures QueryOk(UdpSent(qu, when, nservers), nservers, list)
    ensures SameKin(qu, UdpSent(qu, when, nservers))
  {
    NextServer(|qu.attempts|, nservers);
    var qu' := UdpSent(qu, when, nservers);
    assert SearchOk(qu', list);
    assert forall a :: a in qu'.attempts <==> a in qu.attempts || a == Attempt(qu.udpNextServer, when);
    assert Asked(qu'.attempts) == Asked(qu.attempts) + {qu.udpNextServer};
  }

  lemma UdpSentRests(qu: Query, when: int, nservers: nat)
    requires nservers > 0 && Sendable(qu) && !qu.usevc && qu.retries < UDPMAXRETRIES
    ensures RestingOk(UdpSent(qu, when, nservers))
  {
    assert qu.udpNextServer in UdpSent(qu, when, nservers).udpSent;
  }

  /** What adns__query_send is handed. */
  predicate Sendable(qu: Query) {
    qu.state == ToSend && qu.children == [] && qu.id >= 0 && qu.status == StOk && (qu.usevc ==> qu.retries == 0)
  }

  /** q waits for its answer over TCP. */
  ghost predicate ToTcp(was: Table, now: Table, q: QId, when: int, connected: bool) {
    && q in was && SameElse(was, now, {q}) && q in now
    && now[q] == was[q].(state := TcpW, timeout := when + TCPWAIT, retries := if connected then was[q].retries + 1 else was[q].retries)
  }

  /** Whether the system refuses a datagram with EMSGSIZE, for the server and time it is sent at. */
  type TooBig = (seq<Byte>, nat, int) -> bool

  /** What writing a message on the TCP connection to a server comes to, at a try: how many bytes are
      taken, or None for an error that breaks the connection. */
  type TcpWrite = (nat, seq<Byte>, nat) -> Option<nat>

  /** A message behind its length. */
  function Message(question: seq<Byte>): (s: seq<Byte>)
    ensures |s| == 2 + |question|
  {
    Be16(|question|) + question
  }

  /** What goes out for a message of which so many bytes were taken at once. Of the length, the code
      keeps the first bytes instead of the last. */
  function GoesOut(question: seq<Byte>, written: nat): seq<Byte> {
    if written == 1 then [Be16(|question|)[0]] + Message(question)[..1] + question else Message(question)
  }

  /** The message goes out as it should unless exactly one byte was taken, and the two of its length
      differ. */
  lemma OneByteSpoils(question: seq<Byte>, written: nat)
    ensures GoesOut(question, written) == Message(question) <==> !(written == 1 && |question| / 256 % 256 != |question| % 256)
  {
    var m := Message(question);
    assert m[0] == |question| / 256 % 256 && m[1] == |question| % 256;
    if written == 1 {
      assert GoesOut(question, 1)[1] == m[0];
      assert m == [m[0]] + [m[1]] + question;
    }
  }

  /** The effect of adns__query_send. */
  ghost predicate Sends(was: Table, now: Table, q: QId, when: int, nservers: nat, tooBig: TooBig, connected: bool)
    requires q in was && nservers > 0
  {
    if was[q].usevc then ToTcp(was, now, q, when, connected)
    else if was[q].retries >= UDPMAXRETRIES then Finished(was, now, q, StTimeout, false)
    else if tooBig(was[q].question, was[q].udpNextServer, when) then
      ToTcp(was[q := was[q].(retries := 0)], now, q, when, connected)
    else now == was[q := UdpSent(was[q], when, nservers)]
  }

  lemma SendsAre(was: Table, now: Table, q: QId, when: int, nservers: nat, tooBig: TooBig, connected: bool)
    requires q in was && nservers > 0
    requires
      if was[q].usevc then ToTcp(was, now, q, when, connected)
      else if was[q].retries >= UDPMAXRETRIES then Finished(was, now, q, StTimeout, false)
      else if tooBig(was[q].question, was[q].udpNextServer, when) then
        ToTcp(was[q := was[q].(retries := 0)], now, q, when, connected)
      else now == was[q := UdpSent(was[q], when, nservers)]
    ensures Sends(was, now, q, when, nservers, tooBig, connected)
  {
  }

  lemma QueuedAwaited(was: Table, x: QId, qu: Query, busy: set<QId>)
    requires Awaited(was, busy) && qu.state != ChildW
    ensures Awaited(was[x := qu], busy) && Awaited(was[x := qu], busy - {x})
  {
  }

  lemma QueuedToTcp(was: Table, mid: Table, now: Table, x: QId, when: int, connected: bool)
    requires x in was && mid == was[x := was[x].(state := TcpW, timeout := when + TCPWAIT)]
    requires Retried(mid, now, if connected then {x} else {})
    ensures ToTcp(was, now, x, when, connected)
  {
  }

  lemma QueuedRests(qu: Query, when: int)
    requires Sendable(qu)
    ensures RestingOk(qu.(state := TcpW, timeout := when + TCPWAIT))
  {
  }

  lemma ToTcpKeys(was: Table, now: Table, q: QId, when: int, connected: bool)
    requires ToTcp(was, now, q, when, connected)
    ensures now.Keys == was.Keys
  {
    assert forall x :: x in now <==> x in was;
  }

  predicate Waits(qu: Query, when: int) {
    (qu.state == ToSend || qu.state == TcpW) && qu.timeout > when
  }

  lemma SendsWaits(was: Table, now: Table, q: QId, when: int, nservers: nat, tooBig: TooBig, connected: bool)
    requires q in was && nservers > 0 && Sends(was, now, q, when, nservers, tooBig, connected)
    requires was[q].retries < UDPMAXRETRIES || was[q].usevc
    requires was[q].state == ToSend
    ensures now.Keys == was.Keys && SameElse(was, now, {q}) && Waits(now[q], when) && now[q].question == was[q].question && now[q].id == was[q].id
    ensures SameKin(now[q], was[q])
    ensures now[q] == was[q].(state := now[q].state, timeout := now[q].timeout, retries := now[q].retries,
                              udpNextServer := now[q].udpNextServer, udpSent := now[q].udpSent, attempts := now[q].attempts)
  {
    if was[q].usevc {
      ToTcpKeys(was, now, q, when, connected);
    } else if now != was[q := UdpSent(was[q], when, nservers)] {
      ToTcpKeys(was[q := was[q].(retries := 0)], now, q, when, connected);
    }
  }

  // ---------------------------------------------------------------- searching

  /** The next name adns__search_next tries, and the search fields after taking it. */
  function Popped(qu: Query, list: seq<seq<Byte>>): Option<(seq<Byte>, Query)>
    requires qu.searchPos <= |list|
  {
    if qu.searchDoneAbs < 0 then
      Some((qu.owner, qu.(searchDoneAbs := 1, tried := qu.tried + [qu.owner], searchVb := Written(qu.searchVb, qu.owner))))
    else if qu.searchPos >= |list| then
      if qu.searchDoneAbs != 0 then None
      else Some((qu.owner, qu.(searchDoneAbs := 1, tried := qu.tried + [qu.owner], searchVb := Written(qu.searchVb, qu.owner))))
    else
      var text := Candidate(qu.owner, list[qu.searchPos]);
      Some((text, qu.(searchPos := qu.searchPos + 1, tried := qu.tried + [text], searchVb := Written(qu.searchVb, text))))
  }

  lemma PoppedRemaining(qu: Query, list: seq<seq<Byte>>)
    requires qu.searchPos <= |list| && -1 <= qu.searchDoneAbs <= 1
    ensures Popped(qu, list).None? <==> Remaining(qu, list) == []
    ensures Popped(qu, list).Some? ==>
      var (text, qu') := Popped(qu, list).value;
      qu'.searchPos <= |list| && Remaining(qu, list) == [text] + Remaining(qu', list) && qu'.tried == qu.tried + [text]
      && qu'.searchVb == Written(qu.searchVb, text)
  {
    hide Candidate;
    var rest := list[qu.searchPos..];
    if qu.searchDoneAbs >= 0 && qu.searchPos < |list| {
      assert rest == [list[qu.searchPos]] + list[qu.searchPos + 1..];
      assert Candidates(qu.owner, rest)
          == [Candidate(qu.owner, list[qu.searchPos])] + Candidates(qu.owner, list[qu.searchPos + 1..]);
    } else if qu.searchDoneAbs >= 0 {
      assert rest == [];
    }
  }

  lemma PoppedIs(qu: Query, list: seq<seq<Byte>>)
    requires SearchOk(qu, list) && Popped(qu, list).Some?
    ensures var qu' := Popped(qu, list).value.1;
      SearchOk(qu', list) && SameButSearch(qu, qu') && qu'.question == qu.question && qu'.id == qu.id
  {
    hide Candidate, Remaining, SearchOrder;
    PoppedRemaining(qu, list);
    var (text, qu') := Popped(qu, list).value;
    assert qu.tried + ([text] + Remaining(qu', list)) == (qu.tried + [text]) + Remaining(qu', list);
    assert (qu.tried + [text])[..|qu.tried|] == qu.tried;
  }

  /** The names tried so far are the first of the search order, and all of it once none remains. */
  lemma TriedInOrder(qu: Query, list: seq<seq<Byte>>)
    requires SearchOk(qu, list) && qu.search
    ensures var order := SearchOrder(qu.owner, list, qu.bareFirst);
      qu.tried <= order && (Popped(qu, list).None? <==> qu.tried == order)
  {
    PoppedRemaining(qu, list);
  }

  /** What reading a name of a search comes to: the reader is handed the search buffer. */
  function ParseIn(vb: seq<Byte>, text: seq<Byte>, quoteok: bool): Outcome<seq<seq<Byte>>> {
    ParseBuffer(Written(vb, text), |text|, quoteok)
  }

  /** How many of the names are taken: names too long are passed over. */
  function Taken(names: seq<seq<Byte>>, vb: seq<Byte>, quoteok: bool): (k: nat)
    ensures k <= |names|
  {
    if names == [] then 0
    else if ParseIn(vb, names[0], quoteok) == Refused(QueryDomainTooLong) then
      1 + Taken(names[1..], Written(vb, names[0]), quoteok)
    else 1
  }

  /** What the last name taken parses to; None if every one was too long. */
  function Found(names: seq<seq<Byte>>, vb: seq<Byte>, quoteok: bool): Option<Outcome<seq<seq<Byte>>>> {
    if names == [] then None
    else if ParseIn(vb, names[0], quoteok) == Refused(QueryDomainTooLong) then
      Found(names[1..], Written(vb, names[0]), quoteok)
    else Some(ParseIn(vb, names[0], quoteok))
  }

  lemma TakenFirst(text: seq<Byte>, rest: seq<seq<Byte>>, vb: seq<Byte>, quoteok: bool)
    ensures var names := [text] + rest;
      var vb' := Written(vb, text);
      var long := ParseIn(vb, text, quoteok) == Refused(QueryDomainTooLong);
      && Taken(names, vb, quoteok) == (if long then 1 + Taken(rest, vb', quoteok) else 1)
      && Found(names, vb, quoteok) == (if long then Found(rest, vb', quoteok) else Some(ParseIn(vb, text, quoteok)))
      && names[..Taken(names, vb, quoteok)] == [text] + (if long then rest[..Taken(rest, vb', quoteok)] else [])
  {
    hide ParseBuffer, Written;
    assert ([text] + rest)[1..] == rest;
  }

  /** A search stays within its names if it does not quote or none of them ends inside an escape. */
  lemma {:induction false} WholeNames(names: seq<seq<Byte>>, vb: seq<Byte>, quoteok: bool)
    requires !quoteok || forall i :: 0 <= i < |names| ==> !CutsEscape(names[i], 0)
    ensures Found(names, vb, quoteok) != Some(Astray)
    decreases |names|
  {
    hide ParseBuffer, CutsEscape;
    if names != [] {
      var t, w := names[0], Written(vb, names[0]);
      assert w == t + w[|t|..];
      AstrayIff(t, quoteok);
      StaysWithin(t, quoteok);
      assert ParseBuffer(t + w[|t|..], |t|, quoteok) == ParseText(t, quoteok);
      WholeNames(names[1..], w, quoteok);
    }
  }

  /** The owner a\ with the search entry b, tried bare after a\.b was asked for: the reader leaves
      the text. */
  lemma SearchStrays()
    ensures var owner: seq<Byte>, vb: seq<Byte> := [97, BACKSLASH], [97, BACKSLASH, DOT, 98];
      && Written(owner, Candidate(owner, [98])) == vb
      && Found([owner], vb, true) == Some(Astray)
  {
    CutEscapeStrays();
    var owner: seq<Byte>, vb: seq<Byte> := [97, BACKSLASH], [97, BACKSLASH, DOT, 98];
    assert Written(owner, Candidate(owner, [98])) == vb;
    assert Written(vb, owner) == vb;
  }

  /** The fields a search step may change. */
  predicate SameButSearch(a: Query, b: Query) {
    b == a.(searchPos := b.searchPos, searchDoneAbs := b.searchDoneAbs, tried := b.tried, searchVb := b.searchVb, question := b.question, id := b.id)
  }

  lemma SameButSelf(a: Query)
    ensures SameButSearch(a, a)
  {
  }

  lemma SameButSearchOn(a: Query, b: Query, c: Query)
    requires SameButSearch(a, b) && SameButSearch(b, c)
    ensures SameButSearch(a, c)
  {
  }

  /** What becomes of q, whose record is `at`, once the name was settled. aborted: the code runs
      into the assertion at the head of adns__query_send, or reads past the text. */
  ghost predicate Asks(was: Table, now: Table, q: QId, at: Query, o: Option<Outcome<seq<seq<Byte>>>>, when: int,
                       nservers: nat, tooBig: TooBig, connected: bool, aborted: bool)
    requires q in was && nservers > 0
  {
    match o
    case None => !aborted && Finished(was[q := at], now, q, StNxDomain, false)
    case Some(Refused(st)) => !aborted && Finished(was[q := at], now, q, StName(st), false)
    case Some(Astray) => aborted && now == was[q := at]
    case Some(Good(labels)) =>
      && LabelSizes(labels) && 0 <= at.id < 0x1_0000 && at.question == QueryPacket(at.id, labels, at.qtype)
      && (aborted <==> at.state != ToSend)
      && (if aborted then now == was[q := at] else Sends(was[q := at], now, q, when, nservers, tooBig, connected))
  }

  /** What the search and mkquery steps are handed: a new query, or one whose reply is looked at. */
  predicate Askable(qu: Query, list: seq<seq<Byte>>) {
    && qu.children == [] && qu.status == StOk && qu.state in {ToSend, TcpW}
    && qu.searchPos <= |list| && -1 <= qu.searchDoneAbs <= 1
    && (qu.state == ToSend && qu.usevc ==> qu.retries == 0)
  }

  lemma TakenNone(vb: seq<Byte>, quoteok: bool)
    ensures Taken([], vb, quoteok) == 0 && Found([], vb, quoteok) == None
  {
  }

  lemma PoppedOk(qu: Query, nservers: nat, list: seq<seq<Byte>>)
    requires QueryOk(qu, nservers, list) && Popped(qu, list).Some?
    ensures var qu' := Popped(qu, list).value.1;
      QueryOk(qu', nservers, list) && SameKin(qu, qu') && SameButSearch(qu, qu') && (Askable(qu, list) ==> Askable(qu', list))
      && qu'.state == qu.state && qu'.search == qu.search && qu'.quoteok == qu.quoteok && qu'.parent == qu.parent
  {
    PoppedIs(qu, list);
  }

  lemma NewQuestionOk(qu: Query, id: int, question: seq<Byte>, nservers: nat, list: seq<seq<Byte>>)
    requires QueryOk(qu, nservers, list) && |question| <= MAXQUERY && id < 0x1_0000 && Asking(question, qu.qtype)
    ensures QueryOk(qu.(id := id, question := question), nservers, list)
  {
  }

  lemma PacketFits(id: nat, m: seq<Byte>, n: nat, quoteok: bool, rrtype: TypeCode)
    requires n <= |m| && ParseBuffer(m, n, quoteok).Good?
    ensures var labels := ParseBuffer(m, n, quoteok).value;
      && LabelSizes(labels) && |QueryPacket(id, labels, rrtype)| <= MAXQUERY
      && Asking(QueryPacket(id, labels, rrtype), rrtype)
  {
    hide QueryPacket, ParseBuffer, Asking;
    PacketCarriesName(id, m, n, quoteok, rrtype);
    var labels := ParseBuffer(m, n, quoteok).value;
    WalkableFits(labels);
    if labels != [] {
      WalkedFits(id, labels, rrtype);
    } else {
      WalkedFits(id, [], rrtype);
    }
  }

  /** The packet is no longer than any query, and the name in it can be read. */
  lemma WalkedFits(id: nat, labels: WalkedName, rrtype: TypeCode)
    ensures var packet := QueryPacket(id, labels, rrtype);
      |packet| <= MAXQUERY && Asking(packet, rrtype) && Readable(Place(packet, DNS_HDRSIZE)) && LabelsAt(Place(packet, DNS_HDRSIZE)) == labels
  {
    hide QueryPacket, NameAt, Walk, LinearEnd;
    var packet := QueryPacket(id, labels, rrtype);
    PacketHolds(id, labels, rrtype);
    WalkableFits(labels);
    WalkIsName(packet, Cursor(DNS_HDRSIZE, 0, |packet|, None, false), labels);
    TypeBehind(id, labels, rrtype);
  }

  /** What a query's message says: its id, an ordinary query that desires recursion, one question, no
      records, class IN. */
  lemma HeaderSays(id: nat, labels: seq<seq<Byte>>, rrtype: TypeCode)
    requires LabelSizes(labels) && id < 0x1_0000
    ensures var p := QueryPacket(id, labels, rrtype);
      && |p| >= 16 && RR.Get16(p, 0) == id && p[2] == 1 && p[3] == 0
      && RR.Get16(p, 4) == 1 && RR.Get16(p, 6) == RR.Get16(p, 8) == RR.Get16(p, 10) == 0
      && RR.Get16(p, |p| - 2) == 1
  {
    hide WireLabels, QueryHeader;
    var p, n := QueryPacket(id, labels, rrtype), |QueryPacket(id, labels, rrtype)| - 2;
    HeaderBytes(id);
    assert p[..12] == QueryHeader(id);
    assert forall i :: 0 <= i < 12 ==> p[i] == p[..12][i];
    assert p[n..n + 2] == Be16(DNS_CLASS_IN);
    RR.Get16Is(p, n, 1);
    assert p[0..2] == Be16(id);
    RR.Get16Is(p, 0, id);
  }

  lemma HeaderBytes(id: nat)
    ensures var h := QueryHeader(id);
      h[0..2] == Be16(id) && h[2] == 1 && h[3] == 0 && h[4] == 0 && h[5] == 1 && forall i :: 6 <= i < 12 ==> h[i] == 0
  {
  }

  /** The question for the mail exchangers of "ab", byte for byte. */
  lemma OneQuestion()
    ensures QueryPacket(0x0102, [[97, 98]], 15)
         == [1, 2] + [1, 0] + [0, 1] + [0, 0] + [0, 0] + [0, 0] + [2, 97, 98, 0] + [0, 15] + [0, 1]
  {
    var l: seq<seq<Byte>> := [[97, 98]];
    assert l[1..] == [] && WireLabels(l) == [2] + [97, 98] + [];
  }

  /** The receiver of a message sent over TCP finds it as one payload. */
  lemma MessageIsFrame(q: seq<Byte>)
    requires |q| < 65536
    ensures TcpStream.Split(Message(q)) == TcpStream.Frames([q], [])
  {
    var m := Message(q);
    var hi: int, lo: int := m[0], m[1];
    assert hi == |q| / 256 && lo == |q| % 256;
    assert TcpStream.Length(m) == |q|;
    assert m[2..] == q && m[2..2 + |q|] == q && m[2 + |q|..] == [];
    TcpStream.SplitStep(m);
    assert [q] + [] == [q];
  }

  lemma TypeBehind(id: nat, labels: seq<seq<Byte>>, rrtype: TypeCode)
    requires LabelSizes(labels)
    ensures var packet := QueryPacket(id, labels, rrtype); |packet| >= 4 && RR.Get16(packet, |packet| - 4) == rrtype
  {
    hide WireLabels, QueryHeader;
    var packet := QueryPacket(id, labels, rrtype);
    var n := |packet| - 4;
    assert packet[n..n + 2] == Be16(rrtype);
    RR.Get16Is(packet, n, rrtype);
  }

  lemma AsksNone(was: Table, now: Table, q: QId, at: Query, when: int, nservers: nat, tooBig: TooBig, connected: bool)
    requires q in was && nservers > 0 && Finished(was[q := at], now, q, StNxDomain, false)
    ensures Asks(was, now, q, at, None, when, nservers, tooBig, connected, false)
  {
  }

  lemma AsksGood(was: Table, now: Table, q: QId, at: Query, labels: seq<seq<Byte>>, when: int, nservers: nat, tooBig: TooBig, connected: bool,
                 aborted: bool)
    requires q in was && nservers > 0 && LabelSizes(labels) && 0 <= at.id < 0x1_0000 && at.question == QueryPacket(at.id, labels, at.qtype)
    requires aborted <==> at.state != ToSend
    requires if aborted then now == was[q := at] else Sends(was[q := at], now, q, when, nservers, tooBig, connected)
    ensures Asks(was, now, q, at, Some(Good(labels)), when, nservers, tooBig, connected, aborted)
  {
  }

  lemma AsksFrom(was: Table, qu: Query, now: Table, q: QId, at: Query, o: Option<Outcome<seq<seq<Byte>>>>, when: int,
                 nservers: nat, tooBig: TooBig, connected: bool, aborted: bool)
    requires q in was && nservers > 0 && Asks(was[q := qu], now, q, at, o, when, nservers, tooBig, connected, aborted)
    ensures Asks(was, now, q, at, o, when, nservers, tooBig, connected, aborted)
  {
    assert was[q := qu][q := at] == was[q := at];
  }

  // ---------------------------------------------------------------- submission

  /** query_alloc. */
  function Fresh(parent: Option<QId>, t: RRType, qtype: TypeCode, usevc: bool, quoteok: bool, aliases: AliasFlags): Query {
    Query(ToSend, parent, [], t, qtype, -2, false, usevc, quoteok, aliases, [], [], None, 0, 0, {}, [], 0, false, 0, 0, [], [], StOk)
  }

  lemma FreshOk(parent: Option<QId>, t: RRType, qtype: TypeCode, usevc: bool, quoteok: bool, aliases: AliasFlags, nservers: nat, list: seq<seq<Byte>>)
    requires nservers > 0
    ensures QueryOk(Fresh(parent, t, qtype, usevc, quoteok, aliases), nservers, list)
    ensures Askable(Fresh(parent, t, qtype, usevc, quoteok, aliases), list)
  {
  }

  lemma SearchBegins(qu: Query, owner: seq<Byte>, bareFirst: bool, list: seq<seq<Byte>>, nservers: nat)
    requires QueryOk(qu, nservers, list) && qu.tried == [] && qu.searchPos == 0 && Askable(qu, list)
    ensures var qu' := qu.(search := true, owner := owner, bareFirst := bareFirst, searchDoneAbs := if bareFirst then -1 else 0,
                       searchVb := owner);
      && QueryOk(qu', nservers, list) && Askable(qu', list) && SameKin(qu, qu')
      && Remaining(qu', list) == SearchOrder(owner, list, bareFirst)
  {
    assert list[0..] == list;
    var qu' := qu.(search := true, owner := owner, bareFirst := bareFirst, searchDoneAbs := if bareFirst then -1 else 0,
                     searchVb := owner);
    assert [] + Remaining(qu', list) == SearchOrder(owner, list, bareFirst);
  }

  /** A trailing dot, unless quoted, says the name is complete. */
  predicate IsComplete(owner: seq<Byte>) {
    owner != [] && owner[|owner| - 1] == DOT && (|owner| < 2 || owner[|owner| - 2] != BACKSLASH)
  }

  function Trimmed(owner: seq<Byte>): seq<Byte> {
    if IsComplete(owner) then owner[..|owner| - 1] else owner
  }

  function Dots(owner: seq<Byte>): nat {
    if owner == [] then 0 else (if owner[0] == DOT then 1 else 0) + Dots(owner[1..])
  }

  /** Dots are counted wherever they are. */
  lemma {:induction false} DotsCount(owner: seq<Byte>)
    ensures Dots(owner) == multiset(owner)[46]
  {
    if owner != [] {
      DotsCount(owner[1..]);
      assert owner == [owner[0]] + owner[1..];
    }
  }

  /** The names a submission can ask for, in order. */
  function Names(owner: seq<Byte>, search: bool, list: seq<seq<Byte>>, searchndots: nat): seq<seq<Byte>> {
    if search && !IsComplete(owner) then SearchOrder(owner, list, Dots(owner) >= searchndots) else [Trimmed(owner)]
  }

  /** What a submission's names come to: without a search the name is read where the caller has it,
      a C string, and a name too long is an error. */
  function Settled(owner: seq<Byte>, search: bool, quoteok: bool, list: seq<seq<Byte>>, searchndots: nat):
    Option<Outcome<seq<seq<Byte>>>>
  {
    if owner == [] then Some(Refused(QueryDomainInvalid))
    else if |owner| > DNS_MAXDOMAIN + 1 then Some(Refused(QueryDomainTooLong))
    else if search && !IsComplete(owner) then Found(SearchOrder(owner, list, Dots(owner) >= searchndots), owner, quoteok)
    else Some(ParseBuffer(owner + [0], |Trimmed(owner)|, quoteok))
  }

  /** A submission without a search stays within its text, and refuses a cut escape. */
  lemma PlainSettles(owner: seq<Byte>, quoteok: bool)
    requires 0 < |owner|
    ensures var o := ParseText(Trimmed(owner), quoteok);
      ParseBuffer(owner + [0], |Trimmed(owner)|, quoteok) == if o.Astray? then Refused(QueryDomainInvalid) else o
  {
    hide ParseBuffer;
    var t, end: seq<Byte> := Trimmed(owner), if IsComplete(owner) then [DOT, 0] else [0];
    assert owner + [0] == t + end;
    StoppedRefused(t, end, quoteok);
  }

  /** Only a search that quotes can leave its text, and only where one of its names ends inside an
      escape. */
  lemma OnlySearchStrays(owner: seq<Byte>, search: bool, quoteok: bool, list: seq<seq<Byte>>, searchndots: nat)
    requires Settled(owner, search, quoteok, list, searchndots) == Some(Astray)
    ensures search && quoteok && !IsComplete(owner)
    ensures var names := Names(owner, search, list, searchndots); exists i :: 0 <= i < |names| && CutsEscape(names[i], 0)
  {
    hide ParseBuffer, Trimmed, IsComplete, SearchOrder, CutsEscape, Dots, Found;
    if search && !IsComplete(owner) {
      var names := SearchOrder(owner, list, Dots(owner) >= searchndots);
      assert names == Names(owner, search, list, searchndots);
      if !quoteok || forall i :: 0 <= i < |names| ==> !CutsEscape(names[i], 0) {
        WholeNames(names, owner, quoteok);
      }
    } else {
      PlainSettles(owner, quoteok);
    }
  }

  lemma AsksRefused(was: Table, now: Table, q: QId, at: Query, st: NameStatus, when: int, nservers: nat, tooBig: TooBig, connected: bool)
    requires q in was && nservers > 0 && Finished(was[q := at], now, q, StName(st), false)
    ensures Asks(was, now, q, at, Some(Refused(st)), when, nservers, tooBig, connected, false)
  {
  }

  /** Asking for a childless top-level query frees nothing. */
  lemma AsksKeys(was: Table, now: Table, q: QId, at: Query, o: Option<Outcome<seq<seq<Byte>>>>, when: int, nservers: nat,
                 tooBig: TooBig, connected: bool, aborted: bool)
    requires q in was && nservers > 0 && Asks(was, now, q, at, o, when, nservers, tooBig, connected, aborted)
    requires at.parent.None? && at.children == []
    ensures now.Keys == was.Keys
  {
    hide ToTcp, ParseBuffer, QueryPacket, LabelSizes;
    var t := was[q := at];
    assert Kids(t, q) == {} && t.Keys == was.Keys;
    if aborted {
      return;
    }
    if o.Some? && o.value.Good? && !at.usevc && at.retries < UDPMAXRETRIES && now != t[q := UdpSent(at, when, nservers)] {
      ToTcpKeys(t[q := at.(retries := 0)], now, q, when, connected);
    } else if o.Some? && o.value.Good? && at.usevc {
      ToTcpKeys(t, now, q, when, connected);
    }
  }

  lemma AsksStray(was: Table, q: QId, at: Query, when: int, nservers: nat, tooBig: TooBig, connected: bool)
    requires q in was && nservers > 0
    ensures Asks(was, was[q := at], q, at, Some(Astray), when, nservers, tooBig, connected, true)
  {
  }

  /** For a new query, only the text can go wrong. */
  lemma AsksProceeds(was: Table, now: Table, q: QId, at: Query, o: Option<Outcome<seq<seq<Byte>>>>, when: int, nservers: nat,
                     tooBig: TooBig, connected: bool, aborted: bool)
    requires q in was && nservers > 0 && Asks(was, now, q, at, o, when, nservers, tooBig, connected, aborted) && at.state == ToSend
    ensures aborted <==> o == Some(Astray)
  {
  }

  /** The record q had before `at` does not matter. */
  lemma AsksBase(was: Table, qu: Query, now: Table, q: QId, at: Query, o: Option<Outcome<seq<seq<Byte>>>>, when: int,
                 nservers: nat, tooBig: TooBig, connected: bool, aborted: bool)
    requires nservers > 0 && Asks(was[q := qu], now, q, at, o, when, nservers, tooBig, connected, aborted)
    ensures Asks(was[q := at], now, q, at, o, when, nservers, tooBig, connected, aborted)
  {
    assert was[q := qu][q := at] == was[q := at][q := at];
  }
}
