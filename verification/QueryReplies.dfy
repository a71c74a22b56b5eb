/** What a reply does to the query it is for. */
module QueryReplies {
  import opened Bytes
  import opened WireNames
  import opened TextNames
  import opened NameMethods
  import opened QueryTable
  import opened QueryEndings
  import opened QuerySending
  import RR = ResourceRecords

  /** What reading the records asked for came to. sameAddr: see CallbackOf. Overrun: there are more
      of them the second time than room was made for. */
  datatype RecordsEnd = AllRead(sameAddr: bool) | BadRecord(status: Status) | CutShort | Overrun

  /** What the answer and authority sections of a reply hold for a query. kids: the names further
      queries are asked for. Unending: a circle of pointers. */
  datatype Content =
    | Unreadable(status: Status)
    | Unending
    | Cut
    | Nothing(nodata: bool)
    | Records(kids: seq<Located>, end: RecordsEnd)

  /** cname: the name the owner is an alias for, if the reply says so and none was known before. */
  datatype Reading = Reading(cname: Option<Located>, content: Content)

  const DNS_TYPE_A: TypeCode := 1

  /** Wrong: the code runs round in a circle, or writes past what it reserved. */
  datatype Step =
    | Fails(status: Status)
    | Searches
    | Resends(usevc: bool)
    | Finishes(sameAddr: bool)
    | Spawning
    | Wrong

  /** Asking again, at the alias if one is known. */
  function ResendStep(qu: Query, usevc: bool): (s: Step)
    ensures s.Wrong? <==> qu.cname.Some? && !RoomFor(qu.cname.value)
    ensures !s.Wrong? ==> s == Resends(usevc)
  {
    if qu.cname.Some? && !RoomFor(qu.cname.value) then Wrong else Resends(usevc)
  }

  /** The branches of adns__procdgram when no record is of the type asked for. */
  function NothingStep(qu: Query, nodata: bool, alias: bool, rcode: nat, ra: bool): (s: Step)
    ensures !s.Finishes? && !s.Spawning?
  {
    if rcode == 3 then (if qu.search then Searches else Fails(StNxDomain))
    else if nodata then Fails(StNoData)
    else if alias then ResendStep(qu, false)
    else if !ra then Fails(StNoRecurse)
    else Fails(StInvalidResponse)
  }

  predicate AllRoom(kids: seq<Located>) {
    forall i :: 0 <= i < |kids| ==> RoomFor(kids[i])
  }

  /** The branches of adns__procdgram once the query is known and what the reply holds for it. */
  function StepOf(qu: Query, r: Reading, rcode: nat, tc: bool, ra: bool): Step {
    var c := r.content;
    if c.Unreadable? then Fails(c.status)
    else if c.Unending? then Wrong
    else if tc then ResendStep(qu, true)
    else if c.Cut? then Fails(StInvalidResponse)
    else if c.Nothing? then NothingStep(qu, c.nodata, r.cname.Some?, rcode, ra)
    else if !AllRoom(KidsOf(qu, r)) || c.end.Overrun? then Wrong
    else if c.end.BadRecord? then Fails(c.end.status)
    else if c.end.CutShort? then Fails(StInvalidResponse)
    else if KidsOf(qu, r) == [] then Finishes(c.end.sameAddr)
    else Spawning
  }

  /** Only the types that name hosts ask further questions. */
  function KidsOf(qu: Query, r: Reading): seq<Located> {
    if r.content.Records? && Spawns(qu.rrtype) then r.content.kids else []
  }

  /** The record after the reply was read. */
  function Read(qu: Query, r: Reading): Query {
    if qu.cname.None? then qu.(cname := r.cname) else qu
  }

  /** The record sent again, over TCP from now on if usevc. */
  function Resent(qu: Query, usevc: bool, id: nat): Query {
    var qu' := qu.(state := ToSend, retries := 0, usevc := qu.usevc || usevc);
    if qu.cname.Some? then qu'.(id := id, question := QueryPacket(id, NameOf(qu.cname.value), qu.qtype)) else qu'
  }

  /** A further query, for the addresses of a host. Of a reverse look-up it follows an alias; of others
      only where they may be loose. */
  ghost predicate ForAddresses(c: Query, t: RRType, loose: bool) {
    && c.rrtype == Addr && c.qtype == 1 && c.quoteok && !c.search && !c.usevc && c.cname.None? && c.children == []
    && (c.aliases.forbid <==> t == HostAddr && !loose) && !c.aliases.loose && !c.aliases.quotefail
  }

  /** q has children asking the questions kids, all of them waiting; nothing else changed. */
  ghost predicate Brood(was: Table, now: Table, q: QId, kids: seq<Located>, when: int) {
    && q in was && q in now && now[q] == was[q].(children := now[q].children)
    && was.Keys <= now.Keys && (forall x :: x in was && x != q ==> now[x] == was[x])
    && |now[q].children| == |kids|
    && (forall i :: 0 <= i < |kids| ==>
      var c := now[q].children[i];
      c in now && c !in was && Waits(now[c], when) && ForAddresses(now[c], was[q].rrtype, was[q].aliases.loose) && now[c].parent == Some(q) && now[c].id >= 0
      && now[c].question == QueryPacket(now[c].id, NameOf(kids[i]), DNS_TYPE_A))
    && (forall x :: x in now && x !in was ==> x in now[q].children)
  }

  lemma BroodNone(t: Table, q: QId, when: int)
    requires q in t && t[q].children == []
    ensures Brood(t, t, q, [], when)
  {
  }

  /** One more child, sent. */
  lemma BroodMore(was: Table, mid: Table, now: Table, q: QId, kids: seq<Located>, kid: Located, when: int, c: QId)
    requires Brood(was, mid, q, kids, when) && c !in mid && c != q
    requires now.Keys == mid.Keys + {c} && now[q] == mid[q].(children := mid[q].children + [c])
    requires forall x :: x in mid && x != q ==> now[x] == mid[x]
    requires Waits(now[c], when) && ForAddresses(now[c], was[q].rrtype, was[q].aliases.loose) && now[c].parent == Some(q)
    requires now[c].id >= 0 && now[c].question == QueryPacket(now[c].id, NameOf(kid), DNS_TYPE_A)
    ensures Brood(was, now, q, kids + [kid], when)
  {
    hide Waits, QueryPacket, NameOf, ForAddresses;
  }

  /** What the children would have asked does not matter when the parent fails. */
  lemma BroodFails(was: Table, mid: Table, now: Table, q: QId, kids: seq<Located>, when: int, st: Status)
    requires Kin(mid) && Brood(was, mid, q, kids, when) && was[q].children == [] && Finished(mid, now, q, st, false)
    requires was[q].parent.Some? ==> kids == []
    ensures Finished(was, now, q, st, false)
  {
    hide Waits, QueryPacket, NameOf, ForAddresses;
    if kids == [] {
      assert mid == was;
    } else {
      assert Kids(was, q) == {};
      assert Kids(mid, q) == mid.Keys - was.Keys;
    }
  }

  lemma ResentOk(qu: Query, usevc: bool, id: nat, nservers: nat, list: seq<seq<Byte>>)
    requires QueryOk(qu, nservers, list) && Askable(qu, list) && qu.id >= 0 && id < 0x1_0000
    ensures var qu' := Resent(qu, usevc, id); QueryOk(qu', nservers, list) && Sendable(qu') && SameKin(qu, qu')
  {
    hide QueryPacket, NameOf, Asking;
    if qu.cname.Some? {
      WalkedFits(id, NameOf(qu.cname.value), qu.qtype);
    }
  }

  /** A query a reply can be for, off its queue. */
  predicate Listening(qu: Query) {
    && qu.children == [] && qu.status == StOk && qu.state in {ToSend, TcpW} && qu.id >= 0
    && (qu.state == ToSend ==> !qu.usevc)
  }

  /** What became of q by the step its reply called for. `at` is the record a search settled on. */
  ghost predicate Stepped(was: Table, now: Table, q: QId, step: Step, kids: seq<Located>, at: Query, id: nat, when: int,
                          nservers: nat, list: seq<seq<Byte>>, tooBig: TooBig, connected: bool, aborted: bool)
    requires q in was && nservers > 0 && was[q].searchPos <= |list|
  {
    var names := Remaining(was[q], list);
    match step
    case Fails(st) => !aborted && Finished(was, now, q, st, false)
    case Searches =>
      && SameButSearch(was[q], at) && at.tried == was[q].tried + names[..Taken(names, was[q].searchVb, was[q].quoteok)]
      && Asks(was, now, q, at, Found(names, was[q].searchVb, was[q].quoteok), when, nservers, tooBig, connected, aborted)
    case Resends(usevc) => !aborted && Sends(was[q := Resent(was[q], usevc, id)], now, q, when, nservers, tooBig, connected)
    case Finishes(sameAddr) => !aborted && Finished(was, now, q, StOk, sameAddr)
    case Spawning => !aborted && Brood(was[q := was[q].(state := ChildW)], now, q, kids, when)
    case Wrong =>
      && aborted && q in now && |now[q].children| <= |kids|
      && Brood(was, now, q, kids[..|now[q].children|], when)
  }

  /** Apart from the steps that go wrong in themselves, a search can: over TCP with a name left to ask
      for, which the code asserts not to happen, or with a name that ends inside an escape. */
  lemma SteppedAborts(was: Table, now: Table, q: QId, step: Step, kids: seq<Located>, at: Query, id: nat, when: int,
                      nservers: nat, list: seq<seq<Byte>>, tooBig: TooBig, connected: bool, aborted: bool)
    requires q in was && nservers > 0 && was[q].searchPos <= |list| && was[q].state in {ToSend, TcpW}
    requires Stepped(was, now, q, step, kids, at, id, when, nservers, list, tooBig, connected, aborted)
    ensures var o := Found(Remaining(was[q], list), was[q].searchVb, was[q].quoteok);
      aborted <==> step == Wrong || (step == Searches && o.Some? && (o.value.Astray? || (was[q].state == TcpW && o.value.Good?)))
  {
    hide Finished, Sends, Brood, Remaining, Found, Taken;
  }

  lemma ReadOk(qu: Query, r: Reading, nservers: nat, list: seq<seq<Byte>>)
    requires QueryOk(qu, nservers, list) && Listening(qu)
    ensures var qu' := Read(qu, r);
      && QueryOk(qu', nservers, list) && SameKin(qu, qu') && Listening(qu') && Askable(qu', list)
      && qu'.searchVb == qu.searchVb && qu'.quoteok == qu.quoteok
      && Remaining(qu', list) == Remaining(qu, list) && KidsOf(qu', r) == KidsOf(qu, r)
  {
  }

  lemma SpawningQueue(was: Table, mid: Table, q: QId, kids: seq<Located>, when: int)
    requires Brood(was, mid, q, kids, when)
    ensures Brood(was[q := was[q].(state := ChildW)], mid[q := mid[q].(state := ChildW)], q, kids, when)
  {
    hide Waits, QueryPacket, NameOf, ForAddresses;
  }

  lemma SpawnedRests(qu: Query)
    requires qu.id >= 0 && qu.status == StOk
    ensures RestingOk(qu.(state := ChildW))
  {
  }

  lemma WaitingAwaited(was: Table, q: QId, qu: Query)
    requires Awaited(was, {q}) && qu.children != []
    ensures Awaited(was[q := qu], {})
    ensures Awaited(was[q := qu], {q})
  {
  }

  lemma NoKidsOfKid(t: Table, q: QId)
    requires Kin(t) && q in t
    ensures t[q].parent.Some? ==> !Spawns(t[q].rrtype)
  {
    assert KinOk(t, q);
  }

  lemma BroodEmpty(was: Table, mid: Table, q: QId, when: int)
    requires Brood(was, mid, q, [], when) && was[q].children == []
    ensures mid == was
  {
  }

  lemma SteppedKids(was: Table, now: Table, q: QId, step: Step, kids: seq<Located>, at: Query, id: nat, when: int,
                    nservers: nat, list: seq<seq<Byte>>, tooBig: TooBig, connected: bool, aborted: bool)
    requires q in was && nservers > 0 && was[q].searchPos <= |list| && !step.Spawning?
    requires Stepped(was, now, q, step, [], at, id, when, nservers, list, tooBig, connected, aborted)
    ensures Stepped(was, now, q, step, kids, at, id, when, nservers, list, tooBig, connected, aborted)
  {
  }

  /** The effect of reading a reply to q. */
  ghost predicate Replied(was: Table, now: Table, q: QId, r: Reading, rcode: nat, tc: bool, ra: bool, at: Query, id: nat,
                          when: int, nservers: nat, list: seq<seq<Byte>>, tooBig: TooBig, connected: bool, aborted: bool)
    requires q in was && nservers > 0 && was[q].searchPos <= |list|
  {
    var qu := Read(was[q], r);
    Stepped(was[q := qu], now, q, StepOf(qu, r, rcode, tc, ra), KidsOf(qu, r), at, id, when,
            nservers, list, tooBig, connected, aborted)
  }

  /** A datagram that is no reply is dropped: too short, a question, or not an ordinary query. */
  predicate IsReply(dgram: seq<Byte>) {
    |dgram| >= DNS_HDRSIZE && dgram[2] / 128 == 1 && dgram[2] / 8 % 16 == 0
  }

  function Rcode(dgram: seq<Byte>): nat
    requires IsReply(dgram)
  {
    dgram[3] % 16
  }

  /** The reply quotes the query's id and question, and comes from a server that was asked. */
  predicate Answers(qu: Query, dgram: seq<Byte>, serv: nat, viatcp: bool)
    requires IsReply(dgram)
  {
    && qu.id == RR.Get16(dgram, 0) && |dgram| >= |qu.question|
    && (|qu.question| >= DNS_HDRSIZE ==> qu.question[DNS_HDRSIZE..] == dgram[DNS_HDRSIZE..|qu.question|])
    && (viatcp || serv in qu.udpSent)
  }

  /** The first query on the queue the reply is for. */
  function FirstFor(t: Table, queue: seq<QId>, dgram: seq<Byte>, serv: nat, viatcp: bool): (q: Option<QId>)
    requires IsReply(dgram)
    ensures q.Some? ==> q.value in queue && q.value in t && Answers(t[q.value], dgram, serv, viatcp)
    ensures q.None? ==> forall x :: x in queue && x in t ==> !Answers(t[x], dgram, serv, viatcp)
  {
    if queue == [] then None
    else if queue[0] in t && Answers(t[queue[0]], dgram, serv, viatcp) then Some(queue[0])
    else FirstFor(t, queue[1..], dgram, serv, viatcp)
  }

  /** The query a datagram is for; only one question may be quoted. */
  function QueryFor(t: Table, udpw: seq<QId>, tcpw: seq<QId>, dgram: seq<Byte>, serv: nat, viatcp: bool): Option<QId> {
    if !IsReply(dgram) || RR.Get16(dgram, 4) != 1 then None
    else FirstFor(t, if viatcp then tcpw else udpw, dgram, serv, viatcp)
  }

  lemma QueryOkPos(qu: Query, nservers: nat, list: seq<seq<Byte>>)
    requires QueryOk(qu, nservers, list)
    ensures qu.searchPos <= |list|
  {
  }

  /** When a reply makes the search move on to a name while the query still waits over TCP, or to one
      that ends inside an escape. */
  predicate SearchBreaks(qu: Query, r: Reading, rcode: nat, tc: bool, list: seq<seq<Byte>>)
    requires qu.searchPos <= |list|
  {
    var o := Found(Remaining(qu, list), qu.searchVb, qu.quoteok);
    && qu.search && rcode == 3 && !tc && r.content.Nothing?
    && o.Some? && (o.value.Astray? || (qu.state == TcpW && o.value.Good?))
  }

  /** When a query is to be asked for again at an alias whose datagram is shorter than the alias is on
      the wire. */
  predicate AliasBreaks(qu: Query, r: Reading, rcode: nat, tc: bool) {
    var alias := if qu.cname.Some? then qu.cname else r.cname;
    && alias.Some? && !RoomFor(alias.value)
    && (if tc then !r.content.Unreadable? && !r.content.Unending?
        else r.content.Nothing? && rcode != 3 && !r.content.nodata && r.cname.Some?)
  }

  /** When one of the further queries asks for a name the reply is shorter than, or there are more
      records than room was made for. */
  predicate RecordsBreak(qu: Query, r: Reading, tc: bool) {
    r.content.Records? && !tc && (!AllRoom(KidsOf(qu, r)) || r.content.end.Overrun?)
  }

  predicate GoesWrong(qu: Query, r: Reading, rcode: nat, tc: bool, list: seq<seq<Byte>>)
    requires qu.searchPos <= |list|
  {
    r.content.Unending? || SearchBreaks(qu, r, rcode, tc, list) || AliasBreaks(qu, r, rcode, tc) || RecordsBreak(qu, r, tc)
  }

  lemma RepliedAborts(was: Table, now: Table, q: QId, r: Reading, rcode: nat, tc: bool, ra: bool, at: Query, id: nat,
                      when: int, nservers: nat, list: seq<seq<Byte>>, tooBig: TooBig, connected: bool, aborted: bool)
    requires q in was && nservers > 0 && QueryOk(was[q], nservers, list) && Listening(was[q])
    requires Replied(was, now, q, r, rcode, tc, ra, at, id, when, nservers, list, tooBig, connected, aborted)
    ensures aborted <==> GoesWrong(was[q], r, rcode, tc, list)
  {
    hide Stepped, Remaining, Found, QueryOk, KidsOf, RoomFor, AllRoom;
    QueryOkPos(was[q], nservers, list);
    ReadOk(was[q], r, nservers, list);
    var qu := Read(was[q], r);
    SteppedAborts(was[q := qu], now, q, StepOf(qu, r, rcode, tc, ra), KidsOf(qu, r), at, id,
                  when, nservers, list, tooBig, connected, aborted);
  }

  // ---------------------------------------------------------------- which query a datagram is for

  /** The datagram repeats the query's id and its one question, and comes from a server that was asked. */
  predicate IsFor(qu: Query, dgram: seq<Byte>, serv: nat, viatcp: bool) {
    && |dgram| >= 12 && RR.Get16(dgram, 0) == qu.id && dgram[4] == 0 && dgram[5] == 1
    && |dgram| >= |qu.question| && (forall i :: 12 <= i < |qu.question| ==> dgram[i] == qu.question[i])
    && (viatcp || serv in qu.udpSent)
  }

  /** QR is set, and the opcode is that of a standard query (section 4.1.1 of RFC 1035). */
  lemma ForWhom(t: Table, udpw: seq<QId>, tcpw: seq<QId>, dgram: seq<Byte>, serv: nat, viatcp: bool)
    ensures var queue := if viatcp then tcpw else udpw;
      match QueryFor(t, udpw, tcpw, dgram, serv, viatcp)
      case Some(q) => q in queue && q in t && IsFor(t[q], dgram, serv, viatcp) && 128 <= dgram[2] < 136
      case None => |dgram| >= 12 && 128 <= dgram[2] < 136 ==> forall x :: x in queue && x in t ==> !IsFor(t[x], dgram, serv, viatcp)
  {
    var queue := if viatcp then tcpw else udpw;
    if IsReply(dgram) {
      forall x | x in queue && x in t
        ensures Answers(t[x], dgram, serv, viatcp) && RR.Get16(dgram, 4) == 1 <==> IsFor(t[x], dgram, serv, viatcp)
      {
        var question := t[x].question;
        if DNS_HDRSIZE <= |question| <= |dgram| {
          var a, b := question[DNS_HDRSIZE..], dgram[DNS_HDRSIZE..|question|];
          assert forall i :: 0 <= i < |a| ==> a[i] == question[i + 12] && b[i] == dgram[i + 12];
          if IsFor(t[x], dgram, serv, viatcp) {
            assert a == b;
          } else if a == b {
            assert forall i :: 12 <= i < |question| ==> question[i] == a[i - 12] && dgram[i] == b[i - 12];
          }
        }
      }
    }
  }

  /** The fields of the flags of a message, by their weights. */
  lemma Flags(dgram: seq<Byte>, qr: nat, opcode: nat, aa: nat, tc: nat, rd: nat, ra: nat, z: nat, rcode: nat)
    requires |dgram| >= 12 && qr < 2 && opcode < 16 && aa < 2 && tc < 2 && rd < 2 && ra < 2 && z < 8 && rcode < 16
    requires dgram[2] == 128 * qr + 8 * opcode + 4 * aa + 2 * tc + rd && dgram[3] == 128 * ra + 16 * z + rcode
    ensures IsReply(dgram) <==> qr == 1 && opcode == 0
    ensures dgram[2] / 2 % 2 == tc && dgram[3] / 128 == ra
    ensures IsReply(dgram) ==> Rcode(dgram) == rcode
  {
    var b: int := dgram[2];
    assert b / 8 == 16 * qr + opcode;
    assert b / 2 == 64 * qr + 4 * opcode + 2 * aa + tc;
  }

  // ---------------------------------------------------------------- what a reply makes of a query

  /** The query goes out again: for the same question, or for the alias if there is one, over TCP from now
      on if usevc, with its tries counted afresh. */
  ghost predicate AskedAgain(was: Query, now: Query, alias: Option<Located>, usevc: bool) {
    && now.usevc == (was.usevc || usevc) && now.retries <= 1 && now.parent == was.parent && now.children == [] && now.status == was.status
    && now.state in {ToSend, TcpW} && (now.usevc ==> now.state == TcpW) && now.qtype == was.qtype && now.cname == alias
    && (if alias.Some? then
          0 <= now.id && now.question == QueryPacket(now.id, NameOf(alias.value), was.qtype)
        else now.question == was.question && now.id == was.id)
  }

  /** What becomes of a top-level query when a reply to it was read and nothing went wrong, but for a
      search that goes on. */
  ghost predicate Becomes(was: Table, now: Table, q: QId, r: Reading, rcode: nat, tc: bool, ra: bool)
    requires q in was
  {
    var qu, c := was[q], r.content;
    var alias := if qu.cname.Some? then qu.cname else r.cname;
    var kids := if qu.rrtype == HostAddr || qu.rrtype == Ptr then (if c.Records? then c.kids else []) else [];
    && (c.Unreadable? ==> Answered(was, now, q, c.status))
    && (tc && !c.Unreadable? ==> q in now && AskedAgain(qu, now[q], alias, true))
    && (!tc && c.Cut? ==> Answered(was, now, q, StInvalidResponse))
    && (!tc && c.Nothing? && rcode == 3 && !qu.search ==> Answered(was, now, q, StNxDomain))
    && (!tc && c.Nothing? && rcode == 0 ==>
      if c.nodata then Answered(was, now, q, StNoData)
      else if r.cname.Some? then q in now && AskedAgain(qu, now[q], alias, false)
      else Answered(was, now, q, if ra then StInvalidResponse else StNoRecurse))
    && (!tc && c.Records? ==>
      match c.end
      case BadRecord(st) => Answered(was, now, q, st)
      case CutShort => Answered(was, now, q, StInvalidResponse)
      case AllRead(_) =>
        if kids == [] then Answered(was, now, q, StOk)
        else q in now && now[q].state == ChildW && |now[q].children| == |kids|
      case Overrun => false)
  }

  lemma ReplyMeans(was: Table, now: Table, q: QId, r: Reading, rcode: nat, tc: bool, ra: bool, at: Query, id: nat, when: int,
                   nservers: nat, list: seq<seq<Byte>>, tooBig: TooBig, connected: bool)
    requires q in was && nservers > 0 && was[q].searchPos <= |list| && Listening(was[q]) && was[q].parent.None? && id < 0x1_0000
    requires Replied(was, now, q, r, rcode, tc, ra, at, id, when, nservers, list, tooBig, connected, false)
    ensures Becomes(was, now, q, r, rcode, tc, ra)
  {
    hide Finished, Sends, Brood, Asks, Remaining, Found, Taken, RoomFor, AllRoom, Answered, AskedAgain, Resent;
    var qu := Read(was[q], r);
    var mid := was[q := qu];
    var step := StepOf(qu, r, rcode, tc, ra);
    match step
    case Fails(st) => EndsHere(was, mid, now, q, qu, st, false);
    case Finishes(sameAddr) => EndsHere(was, mid, now, q, qu, StOk, sameAddr);
    case Resends(usevc) => GoesOutAgain(was, mid, now, q, qu, usevc, id, when, nservers, tooBig, connected);
    case Spawning => BroodCounts(mid[q := mid[q].(state := ChildW)], now, q, KidsOf(qu, r), when);
    case Searches =>
    case Wrong =>
  }

  lemma EndsHere(was: Table, mid: Table, now: Table, q: QId, qu: Query, st: Status, sameAddr: bool)
    requires q in was && mid == was[q := qu] && qu == was[q].(cname := qu.cname) && qu.parent.None? && qu.children == []
    requires Finished(mid, now, q, st, sameAddr)
    ensures Answered(was, now, q, st)
  {
    OutletTop(mid, q, st, sameAddr);
    assert Kids(mid, q) == {};
  }

  lemma GoesOutAgain(was: Table, mid: Table, now: Table, q: QId, qu: Query, usevc: bool, id: nat, when: int, nservers: nat,
                     tooBig: TooBig, connected: bool)
    requires q in was && nservers > 0 && mid == was[q := qu] && qu == was[q].(cname := qu.cname) && Listening(qu) && id < 0x1_0000
    requires Sends(mid[q := Resent(qu, usevc, id)], now, q, when, nservers, tooBig, connected)
    ensures q in now && AskedAgain(was[q], now[q], qu.cname, usevc)
  {
    hide QueryPacket, NameOf;
    var t := mid[q := Resent(qu, usevc, id)];
    SendsWaits(t, now, q, when, nservers, tooBig, connected);
  }

  lemma BroodCounts(was: Table, now: Table, q: QId, kids: seq<Located>, when: int)
    requires Brood(was, now, q, kids, when)
    ensures q in now && now[q].state == was[q].state && |now[q].children| == |kids|
  {
  }
}
