/** Runs of the resolver that end where the code goes wrong. */
module Shortfalls {
  import opened Bytes
  import opened Sequences
  import opened QueryTable
  import opened QueryEndings
  import opened QuerySending
  import opened QueryReplies
  import opened QueryTimeouts
  import opened WireNames
  import opened TextNames
  import opened NameMethods
  import opened ResolverRuns
  import R = Resolver
  import RR = ResourceRecords
  import AS = AnswerSections

  const A: Byte := 97
  const B: Byte := 98

  /** The system refuses no datagram, and takes no byte at once. */
  const AnySize: TooBig := (question, server, at) => false
  const NothingAtOnce: TcpWrite := (server, message, tries) => Some(0)
  const NoFlags: AliasFlags := AliasFlags(false, false, false)

  // ---------------------------------------------------------------- replies

  /** The message of a query marked as a reply, with a code, and records behind it. */
  function ReplyTo(question: seq<Byte>, rcode: nat, ancount: Byte, records: seq<Byte>): seq<Byte>
    requires |question| >= DNS_HDRSIZE && rcode < 16
  {
    question[..2] + [129, 128 + rcode] + [0, 1, 0, ancount, 0, 0, 0, 0] + question[DNS_HDRSIZE..] + records
  }

  lemma ReplyAnswers(qu: Query, labels: seq<seq<Byte>>, rcode: nat, ancount: Byte, records: seq<Byte>, serv: nat, viaTcp: bool)
    requires 0 <= qu.id < 0x1_0000 && LabelSizes(labels) && qu.question == QueryPacket(qu.id, labels, qu.qtype) && rcode < 16
    requires viaTcp || serv in qu.udpSent
    ensures |qu.question| >= DNS_HDRSIZE
    ensures var dgram := ReplyTo(qu.question, rcode, ancount, records);
      && IsReply(dgram) && Rcode(dgram) == rcode && !AS.Truncation(dgram) && RR.Get16(dgram, 4) == 1
      && RR.Get16(dgram, 6) == ancount && RR.Get16(dgram, 8) == 0 && Answers(qu, dgram, serv, viaTcp)
      && |dgram| == |qu.question| + |records|
  {
    hide WireLabels, LabelSizes;
    var p := qu.question;
    assert p[..DNS_HDRSIZE] == QueryHeader(qu.id);
    assert p[0] == qu.id / 256 % 256 && p[1] == qu.id % 256;
    var dgram := ReplyTo(p, rcode, ancount, records);
    assert dgram[0] == p[0] && dgram[1] == p[1] && dgram[2] == 129 && dgram[3] == 128 + rcode && dgram[4] == 0 && dgram[5] == 1;
    assert dgram[6] == 0 && dgram[7] == ancount && dgram[8] == 0 && dgram[9] == 0;
    assert dgram[DNS_HDRSIZE..|p|] == p[DNS_HDRSIZE..];
  }

  /** The only query a resolver has, waiting for an answer about the labels. */
  ghost predicate Alone(s: State, q: QId, labels: seq<seq<Byte>>, st: QState) {
    && s.queries.Keys == {q} && s.queries[q].state == st && (st == ToSend ==> 0 in s.queries[q].udpSent)
    && 0 <= s.queries[q].id < 0x1_0000 && LabelSizes(labels)
    && s.queries[q].question == QueryPacket(s.queries[q].id, labels, s.queries[q].qtype)
  }

  /** The reply finds it. */
  lemma AloneFound(cfg: Config, s: State, q: QId, labels: seq<seq<Byte>>, st: QState, rcode: nat, ancount: Byte, records: seq<Byte>)
    requires Sound(cfg, s) && Alone(s, q, labels, st) && st in {ToSend, TcpW} && rcode < 16
    ensures |s.queries[q].question| >= DNS_HDRSIZE && s.queries[q].searchPos <= |cfg.searchlist|
    ensures var dgram := ReplyTo(s.queries[q].question, rcode, ancount, records);
      && |dgram| >= DNS_HDRSIZE && IsReply(dgram) && Rcode(dgram) == rcode && !AS.Truncation(dgram)
      && RR.Get16(dgram, 6) == ancount && RR.Get16(dgram, 8) == 0
      && QueryFor(s.queries, s.udpw, s.tcpw, dgram, 0, st == TcpW) == Some(q)
  {
    hide Answers, IsReply, Rcode, QueryPacket, RR.Get16, ReplyTo;
    ReplyAnswers(s.queries[q], labels, rcode, ancount, records, 0, st == TcpW);
    assert QueryOk(s.queries[q], cfg.nservers, cfg.searchlist);
    var queue := if st == TcpW then s.tcpw else s.udpw;
    assert q in queue && forall x :: x in queue ==> x == q;
    assert queue[0] in queue;
  }

  /** A reply without records. */
  lemma EmptyReading(qu: Query, dgram: seq<Byte>, parser: AS.RecordParser)
    requires |dgram| >= DNS_HDRSIZE && !AS.Truncation(dgram) && RR.Get16(dgram, 6) == 0 && RR.Get16(dgram, 8) == 0
    ensures AS.ReadingOf(qu, dgram, parser, false) == Reading(None, Nothing(true))
  {
    hide RR.Get16;
  }

  const NoParser: AS.RecordParser := place => AS.Stored

  // ---------------------------------------------------------------- a search over TCP

  lemma NamesParse()
    ensures ParseText([A, DOT, B], false) == Good([[A], [B]]) && ParseText([A], false) == Good([[A]])
  {
    hide ReadName;
    assert HostLabel([A]) && HostLabel([B]);
    ShortName(A);
    ShortName(B);
    assert [[A], [B]][1..] == [[B]];
    assert PrintPlain([[A], [B]]) == [A, DOT, B];
    assert LabelBytes([[A], [B]]) == 4;
    PlainRoundTrip([[A], [B]]);
    PlainRoundTrip([[A]]);
  }

  lemma ShortName(ch: Byte)
    ensures PrintPlain([[ch]]) == [ch] && LabelBytes([[ch]]) == 2
  {
    assert [[ch]][1..] == [];
  }

  lemma NamesTried()
    ensures var names := Names([A], true, [[B]], 1);
      && names == SearchOrder([A], [[B]], false) == [[A, DOT, B], [A]]
      && Taken(names, [A], false) == 1 && Found(names, [A], false) == Some(Good([[A], [B]]))
    ensures Settled([A], true, false, [[B]], 1) == Some(Good([[A], [B]])) && Dots([A]) == 0 && !IsComplete([A])
    ensures Found([[A]], [A, DOT, B], false) == Some(Good([[A]]))
  {
    NamesParse();
    assert Written([A], [A, DOT, B]) == [A, DOT, B] && Written([A, DOT, B], [A]) == [A] + [DOT, B];
    StaysWithin([A], false);
    assert ParseBuffer([A] + [DOT, B], 1, false) == ParseText([A], false);
    assert [A][1..] == [];
    assert Dots([A]) == 0;
    assert Candidate([A], [B]) == [A, DOT, B];
    assert Candidates([A], [[B]]) == [[A, DOT, B]];
    assert SearchOrder([A], [[B]], false) == [[A, DOT, B], [A]];
  }

  /** The query waits over TCP for "a.b", and its search has "a" left. */
  ghost predicate MeansToGoOn(s: State, q: QId) {
    && Alone(s, q, [[A], [B]], TcpW) && s.queries[q].qtype == 1 && s.queries[q].parent.None? && s.queries[q].timeout == TCPWAIT
    && s.queries[q].search && s.queries[q].cname.None? && s.queries[q].owner == [A] && !s.queries[q].bareFirst
    && !s.queries[q].quoteok && s.queries[q].tried == [[A, DOT, B]]
  }

  /** A query for "a" over TCP with the search list ["b"] asks for "a.b" once the connection is made;
      told that there is no such name, the code means to go on with "a", from a state its own assertion
      excludes. */
  method AssertionFails() returns (r: R.Resolver, q: QId, e: Event, ghost before: State, aborted: bool)
    ensures fresh(r) && Sound(Settings(r), before) && before.tcpstate == R.Connected
    ensures e.Receives? && Allowed(e, before.queries, before.tcpstate, before.tcpsend)
    ensures q in before.queries && before.queries[q].state == TcpW && before.queries[q].searchPos <= |r.searchlist| && IsReply(e.dgram)
    ensures SearchBreaks(before.queries[q], AS.ReadingOf(before.queries[q], e.dgram, e.parser, e.sameAddr), Rcode(e.dgram), false,
                         r.searchlist)
    ensures Received(Settings(r), before, e, 1, Now(r), aborted) && aborted
  {
    hide R.Resolver.Valid, Awaited, MeansToGoOn, Sound, ReplyTo, IsReply, Rcode, AS.ReadingOf, SearchBreaks, Received, AS.Truncation, RR.Get16, QueryFor;
    r, q := OverTcp();
    before := Now(r);
    ConsistentIsSound(r);
    FoundOverTcp(Settings(r), before, q);
    e := Receives(ReplyTo(r.queries[q].question, 3, 0, []), 0, true, NoParser, false);
    aborted := Receive(r, e, 1);
    AbortsThen(Settings(r), before, q, e, Now(r), aborted);
  }

  lemma FoundOverTcp(cfg: Config, s: State, q: QId)
    requires Sound(cfg, s) && MeansToGoOn(s, q) && cfg.searchlist == [[B]]
    ensures q in s.queries && s.queries[q].state == TcpW && |s.queries[q].question| >= DNS_HDRSIZE && s.queries[q].searchPos <= |[[B]]|
    ensures var dgram := ReplyTo(s.queries[q].question, 3, 0, []);
      && IsReply(dgram) && Rcode(dgram) == 3 && !AS.Truncation(dgram)
      && QueryFor(s.queries, s.udpw, s.tcpw, dgram, 0, true) == Some(q)
      && SearchBreaks(s.queries[q], AS.ReadingOf(s.queries[q], dgram, NoParser, false), 3, false, [[B]])
  {
    hide QueryPacket, Found, Remaining, AS.ReadingOf, ReplyTo, IsReply, Rcode, AS.Truncation, RR.Get16, QueryFor;
    var qu := s.queries[q];
    AloneFound(cfg, s, q, [[A], [B]], TcpW, 3, 0, []);
    EmptyReading(qu, ReplyTo(qu.question, 3, 0, []), NoParser);
    NamesTried();
    assert QueryOk(qu, cfg.nservers, [[B]]);
    RestIs(qu);
  }

  lemma AbortsThen(cfg: Config, was: State, q: QId, e: Event, now: State, aborted: bool)
    requires cfg.nservers > 0 && e.Receives? && Received(cfg, was, e, 1, now, aborted) && q in was.queries
    requires QueryFor(was.queries, was.udpw, was.tcpw, e.dgram, e.serv, e.viaTcp) == Some(q)
    requires was.queries[q].searchPos <= |cfg.searchlist| && IsReply(e.dgram) && Rcode(e.dgram) in {0, 3}
    requires GoesWrong(was.queries[q], AS.ReadingOf(was.queries[q], e.dgram, e.parser, e.sameAddr), Rcode(e.dgram),
                       AS.Truncation(e.dgram), cfg.searchlist)
    ensures aborted
  {
    hide AS.ReadingOf, GoesWrong, QueryFor, AS.Truncation, Rcode, IsReply, Interpreted, Finished;
  }

  /** Submitted over TCP, and connected. */
  method OverTcp() returns (r: R.Resolver, q: QId)
    ensures fresh(r) && r.Consistent() && Settings(r) == Config(1, [[B]], 1, AnySize, NothingAtOnce)
    ensures r.tcpstate == R.Connected && MeansToGoOn(Now(r), q)
  {
    hide R.Resolver.Valid, Awaited, Found, Taken, ParseBuffer, Sound, Alone, MeansToGoOn, TimePassed, Connecting;
    r := new R.Resolver(1, [[B]], 1, AnySize, NothingAtOnce);
    ghost var at;
    ghost var born := r.queries;
    var aborted: bool;
    q, aborted, at := r.Submit([A], Plain, 1, true, true, false, NoFlags, 0);
    NamesTried();
    assert born[q := at] == map[q := at];
    ghost var asked := Now(r);
    SubmittedOverTcp(asked, q, at);
    ConsistentIsSound(r);
    aborted := Elapse(r, 0);
    StillOverTcp(Settings(r), asked, q, Now(r), aborted);
    ghost var elapsed := Now(r);
    ConsistentIsSound(r);
    NotDisconnected(Settings(r), elapsed, q);
    if r.tcpstate == R.Connecting {
      Connect(r);
      ConnectedThen(Settings(r), elapsed, q, Now(r));
    }
  }

  lemma SubmittedOverTcp(s: State, q: QId, at: Query)
    requires at.search && at.usevc && at.parent.None? && at.state == ToSend && at.qtype == 1 && !at.quoteok && at.owner == [A] && !at.bareFirst
    requires at.tried == [[A, DOT, B]] && at.children == [] && at.retries == 0 && at.cname.None?
    requires Asks(map[q := at], s.queries, q, at, Some(Good([[A], [B]])), 0, 1, AnySize, false, false)
    ensures MeansToGoOn(s, q) && s.queries[q].retries == 0
  {
    hide QueryPacket;
    ToTcpKeys(map[q := at], s.queries, q, 0, false);
  }

  lemma StillOverTcp(cfg: Config, was: State, q: QId, now: State, aborted: bool)
    requires cfg == Config(1, [[B]], 1, AnySize, NothingAtOnce) && MeansToGoOn(was, q) && was.queries[q].retries == 0
    requires TimePassed(cfg, was, 0, now, aborted)
    ensures MeansToGoOn(now, q) && !aborted && now.tcpstate != R.Broken && (now.tcpstate == R.Disconnected ==> now.tcpw == [])
  {
    hide QueryPacket, Parents;
    assert TcpTicked(was.queries[q], now.queries[q], 0, 1);
    assert forall x: QId :: x in now.queries ==> x in was.queries;
  }

  lemma NotDisconnected(cfg: Config, s: State, q: QId)
    requires Sound(cfg, s) && MeansToGoOn(s, q) && s.tcpstate != R.Broken && (s.tcpstate == R.Disconnected ==> s.tcpw == [])
    ensures s.tcpstate in {R.Connecting, R.Connected} && q in s.queries && s.queries[q].state == TcpW && s.tcpw == [q]
  {
    hide Kin, AllOk, Resting, Awaited, TcpRetries, Accounts, QueryPacket;
    Single(s.queries, s.tcpw, TcpW, q, {});
  }

  lemma ConnectedThen(cfg: Config, was: State, q: QId, now: State)
    requires cfg.nservers > 0 && cfg.tcpWrite == NothingAtOnce && MeansToGoOn(was, q) && Connecting(cfg, was, now)
    ensures MeansToGoOn(now, q) && now.tcpstate == R.Connected
  {
    hide QueryPacket;
  }

  lemma RestIs(qu: Query)
    requires SearchOk(qu, [[B]]) && qu.search && qu.owner == [A] && !qu.bareFirst && qu.tried == [[A, DOT, B]]
    ensures Remaining(qu, [[B]]) == [[A]] && qu.searchVb == [A, DOT, B]
  {
    assert Layered([A], [[A, DOT, B]][..0]) == [A];
    NamesTried();
    var rem := Remaining(qu, [[B]]);
    assert qu.tried + rem == [[A, DOT, B], [A]];
    assert rem == (qu.tried + rem)[1..];
  }

  // ---------------------------------------------------------------- a name that ends inside an escape

  lemma EscapesTried()
    ensures var owner: seq<Byte> := [A, BACKSLASH];
      var names := Names(owner, true, [[B]], 1);
      && names == SearchOrder(owner, [[B]], false) == [owner + [DOT, B], owner]
      && Taken(names, owner, true) == 1 && Found(names, owner, true) == Some(Good([[A, DOT, B]]))
      && Settled(owner, true, true, [[B]], 1) == Found(names, owner, true) && Dots(owner) == 0 && !IsComplete(owner)
      && Found([owner], owner + [DOT, B], true) == Some(Astray)
  {
    hide ReadName;
    var owner: seq<Byte> := [A, BACKSLASH];
    var text := owner + [DOT, B];
    assert owner[1..] == [BACKSLASH] && [BACKSLASH][1..] == [] && Dots([BACKSLASH]) == 0;
    assert Dots(owner) == 0;
    assert Candidate(owner, [B]) == text;
    assert Candidates(owner, [[B]]) == [text];
    assert SearchOrder(owner, [[B]], false) == [text, owner];
    assert Written(owner, text) == text && Written(text, owner) == text;
    EscapedDot();
    CutEscapeStrays();
    assert text == [97, BACKSLASH, DOT, 98];
  }

  lemma EscapedDot()
    ensures ParseText([A, BACKSLASH, DOT, B], true) == Good([[A, DOT, B]])
  {
    hide ReadName;
    var l: seq<Byte> := [A, DOT, B];
    assert l[1..] == [DOT, B] && l[1..][1..] == [B] && [B][1..] == [];
    assert Quote([B]) == [B] && Quote([DOT, B]) == [BACKSLASH, DOT] + [B] && Quote(l) == [A] + ([BACKSLASH, DOT] + [B]);
    assert PrintQuoted([l]) == [A, BACKSLASH, DOT, B];
    assert [l][1..] == [];
    assert LabelBytes([l]) == 4;
    QuotedRoundTrip([l]);
  }

  /** A quoted query for a\ with the search list ["b"] asks for the one label "a.b"; told that there
      is no such name, the code goes on with a\ in the same buffer, and reads on behind it. */
  method NameStrays() returns (r: R.Resolver, q: QId, e: Event, ghost before: State, aborted: bool)
    ensures fresh(r) && Sound(Settings(r), before) && e.Receives? && Allowed(e, before.queries, before.tcpstate, before.tcpsend)
    ensures q in before.queries && before.queries[q].state == ToSend && before.queries[q].searchPos <= |r.searchlist| && IsReply(e.dgram)
    ensures SearchBreaks(before.queries[q], AS.ReadingOf(before.queries[q], e.dgram, e.parser, e.sameAddr), Rcode(e.dgram), false,
                         r.searchlist)
    ensures Received(Settings(r), before, e, 1, Now(r), aborted) && aborted
  {
    hide R.Resolver.Valid, Awaited, Found, Taken, Remaining, ParseBuffer, Sound, Alone, ReplyTo, IsReply, Rcode, QueryPacket, SearchBreaks;
    hide AS.ReadingOf, AS.Truncation, RR.Get16, QueryFor, Received;
    r := new R.Resolver(1, [[B]], 1, AnySize, NothingAtOnce);
    ghost var at;
    ghost var born := r.queries;
    q, aborted, at := r.Submit([A, BACKSLASH], Plain, 1, true, false, true, NoFlags, 0);
    EscapesTried();
    assert [A, BACKSLASH] + [DOT, B] == [A, BACKSLASH, DOT, B];
    assert born[q := at] == map[q := at];
    before := Now(r);
    ConsistentIsSound(r);
    OverUdp(before, q, at);
    AloneFound(Settings(r), before, q, [[A, DOT, B]], ToSend, 3, 0, []);
    e := Receives(ReplyTo(r.queries[q].question, 3, 0, []), 0, false, NoParser, false);
    EmptyReading(r.queries[q], e.dgram, NoParser);
    aborted := Receive(r, e, 1);
    AbortsThen(Settings(r), before, q, e, Now(r), aborted);
  }

  lemma OverUdp(s: State, q: QId, at: Query)
    requires Sound(Config(1, [[B]], 1, AnySize, NothingAtOnce), s)
    requires at.search && !at.usevc && at.parent.None? && at.state == ToSend && at.qtype == 1 && at.quoteok && !at.bareFirst
    requires at.owner == [A, BACKSLASH] && at.tried == [[A, BACKSLASH, DOT, B]] && at.children == [] && at.retries == 0 && at.udpNextServer == 0
    requires Asks(map[q := at], s.queries, q, at, Some(Good([[A, DOT, B]])), 0, 1, AnySize, false, false)
    ensures Alone(s, q, [[A, DOT, B]], ToSend) && s.queries[q].searchPos <= |[[B]]|
    ensures SearchBreaks(s.queries[q], Reading(None, Nothing(true)), 3, false, [[B]])
  {
    hide QueryPacket, Found, Remaining, Written, SearchOrder;
    EscapesTried();
    var qu, owner: seq<Byte> := s.queries[q], [A, BACKSLASH];
    assert QueryOk(qu, 1, [[B]]);
    assert owner + [DOT, B] == [A, BACKSLASH, DOT, B];
    OneLayer(owner, owner + [DOT, B]);
    var rem := Remaining(qu, [[B]]);
    assert [owner + [DOT, B]] + rem == [owner + [DOT, B], owner];
    assert rem == ([owner + [DOT, B]] + rem)[1..];
  }

  lemma OneLayer(owner: seq<Byte>, text: seq<Byte>)
    requires |owner| <= |text|
    ensures Layered(owner, [text]) == text
  {
    assert [text][..0] == [];
    assert Layered(owner, []) == owner;
  }

  // ---------------------------------------------------------------- records in a reply

  /** A record behind a name that ends at e. */
  lemma RecordThere(dgram: seq<Byte>, pos: nat, labels: seq<seq<Byte>>, e: nat, rrtype: nat, rrclass: nat, rdata: seq<Byte>,
                    eo: Option<Located>)
    requires NameAt(dgram, pos, labels) && TextLength(0, labels) <= DNS_MAXDOMAIN && LinearEnd(dgram, pos) == Some(e)
    requires RR.Holds(dgram, e, rrtype, rrclass, 0, rdata)
    ensures Readable(Place(dgram, pos)) && LabelsAt(Place(dgram, pos)) == labels
    ensures RR.RecordAt(dgram, pos, eo)
         == RR.Record(rrtype, rrclass, 0, e + 10, |rdata|, e + 10 + |rdata|,
                      eo.Some? && FoldName(labels) == FoldName(LabelsAt(eo.value)))
  {
    hide NameAt, Walk, RR.Get16, RR.Get32, FoldName, LinearEnd, TextLength, RR.Body;
    NameFits(dgram, pos, labels);
    WalkIsName(dgram, Cursor(pos, 0, |dgram|, None, false), labels);
    RR.FieldsAre(dgram, e, rrtype, rrclass, 0, rdata);
  }

  /** A pointer to the name asked for. */
  lemma PointerThere(dgram: seq<Byte>, pos: nat, target: Byte, labels: seq<seq<Byte>>)
    requires pos + 2 <= |dgram| && dgram[pos] == 192 && dgram[pos + 1] == target
    requires target < |dgram| && dgram[target] < 192 && NameAt(dgram, target, labels)
    ensures NameAt(dgram, pos, labels) && LinearEnd(dgram, pos) == Some(pos + 2)
  {
    assert ResolveIn(dgram, target, |dgram| - 1) == Some(target) == Resolve(dgram, target);
    assert Resolve(dgram, pos) == Some(target);
  }

  // ---------------------------------------------------------------- a parent without children

  /** One answer: the host the name asked for has is the root. */
  function HostRecord(): seq<Byte> {
    [192, 12] + RR.Body(AS.DNS_TYPE_NS, DNS_CLASS_IN, 0, [0])
  }

  /** Every record needs the addresses of the host it names. */
  const AsksAll: AS.RecordParser := (place: nat) => AS.Asks(place)

  /** The record is there, and what the code makes of it. */
  lemma HostReply(qu: Query)
    requires 0 <= qu.id < 0x1_0000 && qu.question == QueryPacket(qu.id, [[A]], AS.DNS_TYPE_NS) && qu.qtype == AS.DNS_TYPE_NS
    requires qu.rrtype == HostAddr && qu.cname.None?
    ensures |qu.question| >= DNS_HDRSIZE
    ensures var dgram := ReplyTo(qu.question, 0, 1, HostRecord());
      var host := Place(dgram, |qu.question| + 12);
      && |dgram| == |qu.question| + 13 && RR.Get16(dgram, 6) == 1 && !AS.Truncation(dgram)
      && Readable(Place(qu.question, DNS_HDRSIZE))
      && RR.Reads(dgram, |qu.question|, Some(Place(qu.question, DNS_HDRSIZE)),
                  RR.Record(AS.DNS_TYPE_NS, DNS_CLASS_IN, 0, |qu.question| + 12, 1, |dgram|, true))
      && RR.Holds(dgram, |qu.question| + 2, AS.DNS_TYPE_NS, DNS_CLASS_IN, 0, [0])
      && Readable(host) && NameOf(host) == [] && RoomFor(host)
      && AS.ReadingOf(qu, dgram, AsksAll, false) == Reading(None, Records([host], AllRead(false)))
  {
    hide NameAt, Walk, RR.Get16, RR.Get32, FoldName, LinearEnd, TextLength, RR.RecordAt, RR.Reads, RR.Holds, Readable, ReplyTo, AS.Truncation;
    HostRecordThere(qu);
    var dgram, pos := ReplyTo(qu.question, 0, 1, HostRecord()), |qu.question|;
    var host := Place(dgram, pos + 12);
    RR.RecordReads(dgram, pos, AS.Expected(qu));
    var r := RR.RecordAt(dgram, pos, AS.Expected(qu));
    assert AS.LookAt(dgram, r, qu, [], None) == AS.Wanted;
    assert [] + [pos + 12] == [pos + 12];
    assert AS.ScanAnswers(dgram, pos + 13, 0, qu, [pos + 12], None) == AS.Complete(pos + 13, [pos + 12], None);
    assert AS.ScanAnswers(dgram, pos, 1, qu, [], None) == AS.Complete(pos + 13, [pos + 12], None);
    AS.MatchesNext(dgram, pos, 1, AS.Expected(qu), qu.qtype);
    assert AS.Matches(dgram, pos + 13, 0, AS.Expected(qu), qu.qtype) == [];
    assert AS.Matches(dgram, pos, 1, AS.Expected(qu), qu.qtype) == [pos + 12];
    AS.StoreFirst(dgram, pos + 12, [], 1, HostAddr, AsksAll, false, []);
    AS.StoreNone(dgram, 0, HostAddr, AsksAll, false, [] + [host]);
    AS.AfterNothing(AS.Store(dgram, [pos + 12], 1, HostAddr, AsksAll, false));
    assert [pos + 12] + [] == [pos + 12] && [] + [host] == [host];
  }

  lemma HostRecordThere(qu: Query)
    requires 0 <= qu.id < 0x1_0000 && qu.question == QueryPacket(qu.id, [[A]], AS.DNS_TYPE_NS)
    requires qu.cname.None?
    ensures |qu.question| >= DNS_HDRSIZE
    ensures var dgram, pos := ReplyTo(qu.question, 0, 1, HostRecord()), |qu.question|;
      var host := Place(dgram, pos + 12);
      && |dgram| == pos + 13 && RR.Get16(dgram, 6) == 1 && !AS.Truncation(dgram)
      && Readable(Place(qu.question, DNS_HDRSIZE)) && AS.Expected(qu) == Some(Place(qu.question, DNS_HDRSIZE))
      && RR.RecordAt(dgram, pos, AS.Expected(qu)) == RR.Record(AS.DNS_TYPE_NS, DNS_CLASS_IN, 0, pos + 12, 1, pos + 13, true)
      && RR.Holds(dgram, pos + 2, AS.DNS_TYPE_NS, DNS_CLASS_IN, 0, [0])
      && Readable(host) && NameOf(host) == [] && RoomFor(host)
  {
    hide NameAt, Walk, RR.Get16, RR.Get32, FoldName, LinearEnd, TextLength, RR.RecordAt;
    var question, pos := qu.question, |qu.question|;
    var labels: seq<seq<Byte>> := [[A]];
    ShortName(A);
    WalkableFits(labels);
    WalkedFits(qu.id, labels, AS.DNS_TYPE_NS);
    ReplyAnswers(qu.(udpSent := {0}, qtype := AS.DNS_TYPE_NS), labels, 0, 1, HostRecord(), 0, true);
    var dgram := ReplyTo(question, 0, 1, HostRecord());
    assert dgram[pos..] == HostRecord();
    assert dgram[pos] == HostRecord()[0] && dgram[pos + 1] == HostRecord()[1];
    assert dgram[pos + 2..pos + 2 + 11] == RR.Body(AS.DNS_TYPE_NS, DNS_CLASS_IN, 0, [0]);
    assert dgram[pos + 12] == RR.Body(AS.DNS_TYPE_NS, DNS_CLASS_IN, 0, [0])[10];
    QuestionThere(question, qu.id, AS.DNS_TYPE_NS, dgram);
    PointerThere(dgram, pos, 12, labels);
    assert TextLength(0, labels) <= DNS_MAXDOMAIN;
    RecordThere(dgram, pos, labels, pos + 2, AS.DNS_TYPE_NS, DNS_CLASS_IN, [0], AS.Expected(qu));
    RootThere(dgram, pos + 12);
  }

  /** The question in a reply names what was asked for. */
  lemma QuestionThere(question: seq<Byte>, id: nat, qtype: nat, dgram: seq<Byte>)
    requires question == QueryPacket(id, [[A]], qtype)
    requires |dgram| >= |question| && dgram[DNS_HDRSIZE..|question|] == question[DNS_HDRSIZE..]
    ensures NameAt(dgram, DNS_HDRSIZE, [[A]]) && dgram[DNS_HDRSIZE] < 192
  {
    hide NameAt;
    var labels: seq<seq<Byte>> := [[A]];
    assert labels[1..] == [] && WireLabels(labels) == [1] + [A] + [];
    var w := WireLabels(labels) + [0];
    assert w == [1, A, 0];
    assert question[DNS_HDRSIZE..DNS_HDRSIZE + 3] == w;
    assert dgram[DNS_HDRSIZE..DNS_HDRSIZE + 3] == dgram[DNS_HDRSIZE..|question|][..3];
    WireReadable(dgram, DNS_HDRSIZE, labels);
    assert dgram[DNS_HDRSIZE] == w[0];
  }

  lemma RootThere(dgram: seq<Byte>, pos: nat)
    requires pos < |dgram| && dgram[pos] == 0
    ensures Readable(Place(dgram, pos)) && NameOf(Place(dgram, pos)) == [] && RoomFor(Place(dgram, pos))
  {
    hide NameAt, Walk, LinearEnd;
    NameAtRoot(dgram, pos);
    WalkIsName(dgram, Cursor(pos, 0, |dgram|, None, false), []);
  }

  /** A parent waiting for its one child, and nothing else. */
  ghost predicate OneChild(s: State, p: QId, c: QId) {
    && p != c && s.queries.Keys == {p, c} && s.queries[p].children == [c] && s.queries[p].parent.None?
    && s.queries[p].state == ChildW && s.queries[c].state in {ToSend, TcpW}
  }

  /** A query of a type that names hosts, told of one host. */
  method OneHost() returns (r: R.Resolver, p: QId, c: QId)
    ensures fresh(r) && r.Consistent() && OneChild(Now(r), p, c)
  {
    hide R.Resolver.Valid, Awaited, Found, Taken, Remaining, ParseBuffer, Sound, Alone, ReplyTo, IsReply, Rcode, QueryPacket, Received;
    hide AS.ReadingOf, AS.Truncation, RR.Get16, QueryFor;
    r := new R.Resolver(1, [], 1, AnySize, NothingAtOnce);
    ghost var at;
    ghost var born := r.queries;
    var aborted: bool;
    p, aborted, at := r.Submit([A], HostAddr, AS.DNS_TYPE_NS, false, false, false, NoFlags, 0);
    PlainA();
    assert born[p := at] == map[p := at];
    ghost var asked := Now(r);
    ConsistentIsSound(r);
    AskedByUdp(asked, p, at);
    AloneFound(Settings(r), asked, p, [[A]], ToSend, 0, 1, HostRecord());
    HostReply(r.queries[p]);
    var e := Receives(ReplyTo(r.queries[p].question, 0, 1, HostRecord()), 0, false, AsksAll, false);
    aborted := Receive(r, e, 1);
    ChildAsked(Settings(r), asked, p, e, Now(r), aborted);
    c := r.queries[p].children[0];
  }

  /** adns_finish cancels heads of queues, and the head is the child: the parent is left waiting for
      nothing. */
  method ParentLeftWaiting() returns (r: R.Resolver, p: QId, c: QId, ghost before: State)
    ensures fresh(r) && Sound(Settings(r), before)
    ensures before.udpw + before.tcpw == [c] && before.childw == [p] && before.output == []
    ensures Gone(before.queries, r.queries, c) && r.Valid({})
    ensures p in r.queries && r.queries[p].state == ChildW && r.queries[p].children == [] && !Awaited(r.queries, {})
  {
    hide R.Resolver.Valid, Awaited, Sound, Queues, Kin, AllOk, Resting, TcpRetries, Accounts, Gone;
    r, p, c := OneHost();
    before := Now(r);
    ConsistentIsSound(r);
    OneChildWaits(Settings(r), before, p, c);
    r.Parts({});
    KidsApart(r.queries, c, {});
    r.Cancel(c, {});
    LeftAlone(before.queries, r.queries, p, c);
  }

  lemma PlainA()
    ensures Settled([A], false, false, [], 1) == Some(Good([[A]]))
  {
    hide ParseBuffer;
    NamesParse();
    PlainSettles([A], false);
  }

  lemma AskedByUdp(s: State, q: QId, at: Query)
    requires !at.search && !at.usevc && at.parent.None? && at.state == ToSend && at.retries == 0 && at.udpNextServer == 0
    requires at.children == []
    requires Asks(map[q := at], s.queries, q, at, Some(Good([[A]])), 0, 1, AnySize, false, false)
    ensures Alone(s, q, [[A]], ToSend) && s.queries[q] == UdpSent(at, 0, 1)
  {
    hide QueryPacket;
  }

  lemma ChildAsked(cfg: Config, was: State, p: QId, e: Event, now: State, aborted: bool)
    requires cfg.nservers > 0 && e.Receives? && Received(cfg, was, e, 1, now, aborted)
    requires QueryFor(was.queries, was.udpw, was.tcpw, e.dgram, e.serv, e.viaTcp) == Some(p)
    requires IsReply(e.dgram) && Rcode(e.dgram) == 0 && !AS.Truncation(e.dgram)
    requires p in was.queries
    requires var reading := AS.ReadingOf(was.queries[p], e.dgram, e.parser, e.sameAddr);
      && reading.cname.None? && reading.content.Records? && |reading.content.kids| == 1 && RoomFor(reading.content.kids[0])
      && reading.content.end == AllRead(false)
    requires was.queries.Keys == {p} && was.queries[p].rrtype == HostAddr && was.queries[p].parent.None? && was.queries[p].children == [] && was.queries[p].cname.None?
    ensures !aborted && p in now.queries && |now.queries[p].children| == 1 && OneChild(now, p, now.queries[p].children[0])
  {
    var reading := AS.ReadingOf(was.queries[p], e.dgram, e.parser, e.sameAddr);
    hide QueryPacket, IsReply, Rcode, QueryFor, Replied, Finished, AS.ReadingOf, AS.Truncation, RoomFor, OneChild, GoesWrong;
    var ra := e.dgram[3] / 128 == 1;
    assert Interpreted(cfg, was, p, reading, 0, false, ra, was.nextid % 65536, 1, was.tcpstate == R.Connected, now, aborted);
    var at :| Replied(was.queries, now.queries, p, reading, 0, false, ra, at, was.nextid % 65536, 1, cfg.nservers,
                      cfg.searchlist, cfg.tooBig, was.tcpstate == R.Connected, aborted);
    ChildReplied(cfg, was, p, reading, ra, at, now, aborted);
  }

  lemma ChildReplied(cfg: Config, was: State, p: QId, reading: Reading, ra: bool, at: Query, now: State, aborted: bool)
    requires cfg.nservers > 0 && was.queries.Keys == {p} && was.queries[p].searchPos <= |cfg.searchlist|
    requires reading.cname.None? && reading.content.Records? && |reading.content.kids| == 1 && RoomFor(reading.content.kids[0])
    requires reading.content.end == AllRead(false)
    requires was.queries[p].rrtype == HostAddr && was.queries[p].parent.None? && was.queries[p].children == []
    requires was.queries[p].cname.None?
    requires Replied(was.queries, now.queries, p, reading, 0, false, ra, at, was.nextid % 65536, 1, cfg.nservers, cfg.searchlist,
                     cfg.tooBig, was.tcpstate == R.Connected, aborted)
    ensures !aborted && p in now.queries && |now.queries[p].children| == 1 && OneChild(now, p, now.queries[p].children[0])
  {
    hide QueryPacket, RoomFor, Found, Taken, Remaining, Finished, Asks, Sends, Resent;
    var qu := Read(was.queries[p], reading);
    assert qu == was.queries[p];
    assert was.queries[p := qu] == was.queries;
    assert StepOf(qu, reading, 0, false, ra) == Spawning && KidsOf(qu, reading) == reading.content.kids;
  }

  lemma OneChildWaits(cfg: Config, s: State, p: QId, c: QId)
    requires Sound(cfg, s) && OneChild(s, p, c)
    ensures s.udpw + s.tcpw == [c] && s.childw == [p] && s.output == []
    ensures c in s.queries && Kids(s.queries, c) == {} && s.queries[c].parent == Some(p)
  {
    hide QueueIs, AllOk, Resting, Awaited, TcpRetries, Accounts, KinOk;
    Single(s.queries, s.childw, ChildW, p, {});
    Single(s.queries, s.udpw, ToSend, c, {});
    Single(s.queries, s.tcpw, TcpW, c, {});
    Single(s.queries, s.output, Done, c, {});
    KidGone(s.queries, p, c);
  }

  lemma Single(t: Table, queue: seq<QId>, st: QState, x: QId, busy: set<QId>)
    requires QueueIs(t, queue, st, busy) && forall y :: y in t && t[y].state == st && y !in busy ==> y == x
    ensures queue == if x in t && t[x].state == st && x !in busy then [x] else []
  {
    assert x in queue <==> x in t && t[x].state == st && x !in busy;
    assert |queue| > 1 ==> queue[0] != queue[1];
    assert queue != [] ==> queue[0] in queue;
    forall i | 0 <= i < |queue|
      ensures queue[i] == x
    {
      assert queue[i] in queue;
    }
  }

  lemma LeftAlone(was: Table, now: Table, p: QId, c: QId)
    requires Gone(was, now, c) && was.Keys == {p, c} && was[c].parent == Some(p) && p != c && was[p].children == [c]
    requires was[p].state == ChildW && Kids(was, c) == {}
    ensures p in now && now[p].state == ChildW && now[p].children == [] && !Awaited(now, {})
  {
  }

  // ---------------------------------------------------------------- records ahead of the alias

  const Address: seq<Byte> := [10, 0, 0, 1]

  /** Three answers to a question of 19 bytes: an address of "b", that the name asked for is an alias of
      "b", and an address of "b" again. */
  function Doubled(): (s: seq<Byte>)
    ensures |s| == 47
  {
    [1, B, 0] + RR.Body(DNS_TYPE_A, DNS_CLASS_IN, 0, Address)
    + ([192, 12] + RR.Body(AS.DNS_TYPE_CNAME, DNS_CLASS_IN, 0, [192, 19]))
    + ([192, 19] + RR.Body(DNS_TYPE_A, DNS_CLASS_IN, 0, Address))
  }

  /** Where they lie in the reply. */
  lemma DoubledThere(dgram: seq<Byte>)
    requires |dgram| == 66 && dgram[19..] == Doubled()
    ensures dgram[19..22] == [1, B, 0] && dgram[36..38] == [192, 12] && dgram[48..50] == [192, 19] && dgram[50..52] == [192, 19]
    ensures RR.Holds(dgram, 22, DNS_TYPE_A, DNS_CLASS_IN, 0, Address)
    ensures RR.Holds(dgram, 38, AS.DNS_TYPE_CNAME, DNS_CLASS_IN, 0, [192, 19])
    ensures RR.Holds(dgram, 52, DNS_TYPE_A, DNS_CLASS_IN, 0, Address)
  {
    var one := [1, B, 0] + RR.Body(DNS_TYPE_A, DNS_CLASS_IN, 0, Address);
    var two := [192, 12] + RR.Body(AS.DNS_TYPE_CNAME, DNS_CLASS_IN, 0, [192, 19]);
    var three := [192, 19] + RR.Body(DNS_TYPE_A, DNS_CLASS_IN, 0, Address);
    hide RR.Body, Be16;
    assert At(dgram, 19, one + two + three) by {
      assert dgram[19..19 + 47] == dgram[19..];
    }
    AtSplit(dgram, 19, one + two, three);
    AtSplit(dgram, 19, one, two);
    AtSplit(dgram, 19, [1, B, 0], RR.Body(DNS_TYPE_A, DNS_CLASS_IN, 0, Address));
    AtSplit(dgram, 36, [192, 12], RR.Body(AS.DNS_TYPE_CNAME, DNS_CLASS_IN, 0, [192, 19]));
    AtSplit(dgram, 50, [192, 19], RR.Body(DNS_TYPE_A, DNS_CLASS_IN, 0, Address));
    RR.FieldsAre(dgram, 38, AS.DNS_TYPE_CNAME, DNS_CLASS_IN, 0, [192, 19]);
  }

  /** The names in the reply. */
  lemma DoubledNames(dgram: seq<Byte>)
    requires |dgram| == 66 && dgram[19..] == Doubled() && NameAt(dgram, 12, [[A]]) && dgram[12] < 192
    ensures NameAt(dgram, 19, [[B]]) && LinearEnd(dgram, 19) == Some(22)
    ensures NameAt(dgram, 36, [[A]]) && LinearEnd(dgram, 36) == Some(38)
    ensures NameAt(dgram, 48, [[B]]) && LinearEnd(dgram, 48) == Some(50)
    ensures NameAt(dgram, 50, [[B]]) && LinearEnd(dgram, 50) == Some(52)
  {
    DoubledThere(dgram);
    hide NameAt, Doubled, LinearEnd;
    assert dgram[36] == dgram[36..38][0] && dgram[37] == dgram[36..38][1];
    assert dgram[48] == dgram[48..50][0] && dgram[49] == dgram[48..50][1];
    assert dgram[50] == dgram[50..52][0] && dgram[51] == dgram[50..52][1];
    var w: seq<seq<Byte>> := [[B]];
    assert w[1..] == [] && WireLabels(w) + [0] == [1, B, 0];
    ShortName(B);
    WireReadable(dgram, 19, w);
    assert dgram[19] == dgram[19..22][0];
    PointerThere(dgram, 36, 12, [[A]]);
    PointerThere(dgram, 48, 19, w);
    PointerThere(dgram, 50, 19, w);
  }

  /** The three records, for whoever is expected. */
  lemma DoubledRecords(dgram: seq<Byte>, eo: Option<Located>)
    requires |dgram| == 66 && dgram[19..] == Doubled() && NameAt(dgram, 12, [[A]]) && dgram[12] < 192
    ensures var b := eo.Some? && FoldName([[B]]) == FoldName(LabelsAt(eo.value));
      var a := eo.Some? && FoldName([[A]]) == FoldName(LabelsAt(eo.value));
      && RR.RecordAt(dgram, 19, eo) == RR.Record(DNS_TYPE_A, DNS_CLASS_IN, 0, 32, 4, 36, b)
      && RR.RecordAt(dgram, 36, eo) == RR.Record(AS.DNS_TYPE_CNAME, DNS_CLASS_IN, 0, 48, 2, 50, a)
      && RR.RecordAt(dgram, 50, eo) == RR.Record(DNS_TYPE_A, DNS_CLASS_IN, 0, 62, 4, 66, b)
  {
    hide NameAt, Doubled, LinearEnd, RR.RecordAt, RR.Holds, FoldName;
    DoubledThere(dgram);
    DoubledNames(dgram);
    assert TextLength(0, [[A]]) == 1 && TextLength(0, [[B]]) == 1;
    RecordThere(dgram, 19, [[B]], 22, DNS_TYPE_A, DNS_CLASS_IN, Address, eo);
    RecordThere(dgram, 36, [[A]], 38, AS.DNS_TYPE_CNAME, DNS_CLASS_IN, [192, 19], eo);
    RecordThere(dgram, 50, [[B]], 52, DNS_TYPE_A, DNS_CLASS_IN, Address, eo);
  }

  lemma DifferentNames()
    ensures FoldName([[A]]) != FoldName([[B]])
  {
    assert FoldName([[A]])[0][0] == 65 && FoldName([[B]])[0][0] == 66;
  }

  /** The alias is read. */
  lemma DoubledAlias(dgram: seq<Byte>)
    requires |dgram| == 66 && dgram[19..] == Doubled() && NameAt(dgram, 12, [[A]]) && dgram[12] < 192
    ensures Readable(Place(dgram, 48)) && LabelsAt(Place(dgram, 48)) == [[B]]
    ensures ReadDomain(dgram, Cursor(48, 0, 50, None, false), true, true) == Name([[B]])
  {
    hide NameAt, Doubled, LinearEnd, Walk, ReadDomain;
    DoubledNames(dgram);
    assert TextLength(0, [[B]]) == 1;
    var c := Cursor(48, 0, 50, None, false);
    WalkIsName(dgram, c, [[B]]);
    ReadIsWalk(dgram, c, true, true);
    ReadIsReadable(dgram, 48, 50, true);
  }

  /** The first pass wants one record, the second comes to two. */
  lemma DoubledReading(qu: Query, dgram: seq<Byte>)
    requires |dgram| == 66 && dgram[19..] == Doubled() && NameAt(dgram, 12, [[A]]) && dgram[12] < 192
    requires RR.Get16(dgram, 6) == 3 && !AS.Truncation(dgram)
    requires |qu.question| == 19 && qu.qtype == DNS_TYPE_A && qu.cname.None? && qu.aliases == NoFlags && qu.rrtype == Plain
    requires AS.Expected(qu).Some? && LabelsAt(AS.Expected(qu).value) == [[A]]
    ensures Readable(Place(dgram, 48))
    ensures AS.ReadingOf(qu, dgram, NoParser, false) == Reading(Some(Place(dgram, 48)), Records([], Overrun))
  {
    hide NameAt, Doubled, RR.Get16, AS.Truncation, Readable, AS.ScanAnswers, AS.Matches, AS.Store, AS.Expected;
    DoubledScan(qu, dgram);
    DoubledMatches(dgram);
    StoreTwo(dgram);
  }

  lemma StoreTwo(dgram: seq<Byte>)
    ensures AS.Store(dgram, [32, 62], 1, Plain, NoParser, false) == ([], Overrun)
  {
    assert [32, 62][1..] == [62];
    assert AS.Store(dgram, [62], 0, Plain, NoParser, false) == ([], Overrun);
  }

  lemma DoubledMatches(dgram: seq<Byte>)
    requires |dgram| == 66 && dgram[19..] == Doubled() && NameAt(dgram, 12, [[A]]) && dgram[12] < 192
    ensures Readable(Place(dgram, 48)) && AS.Matches(dgram, 19, 3, Some(Place(dgram, 48)), DNS_TYPE_A) == [32, 62]
  {
    hide NameAt, Doubled, RR.RecordAt, FoldName, AS.Matches, Readable, ReadDomain;
    DifferentNames();
    DoubledAlias(dgram);
    var alias: Option<Located> := Some(Place(dgram, 48));
    DoubledRecords(dgram, alias);
    AS.MatchesNext(dgram, 19, 3, alias, DNS_TYPE_A);
    AS.MatchesNext(dgram, 36, 2, alias, DNS_TYPE_A);
    AS.MatchesNext(dgram, 50, 1, alias, DNS_TYPE_A);
    AS.NoMatches(dgram, 66, alias, DNS_TYPE_A);
    assert [62] + [] == [62] && [32] + [62] == [32, 62];
  }

  lemma DoubledScan(qu: Query, dgram: seq<Byte>)
    requires |dgram| == 66 && dgram[19..] == Doubled() && NameAt(dgram, 12, [[A]]) && dgram[12] < 192
    requires qu.qtype == DNS_TYPE_A && qu.cname.None? && qu.aliases == NoFlags
    requires AS.Expected(qu).Some? && LabelsAt(AS.Expected(qu).value) == [[A]]
    ensures Readable(Place(dgram, 48))
    ensures AS.ScanAnswers(dgram, 19, 3, qu, [], None) == AS.Complete(66, [62], Some(Place(dgram, 48)))
  {
    hide NameAt, Doubled, RR.RecordAt, FoldName, ReadDomain, Readable;
    DifferentNames();
    DoubledAlias(dgram);
    var alias: Option<Located> := Some(Place(dgram, 48));
    var known := qu.(cname := alias);
    DoubledRecords(dgram, AS.Expected(qu));
    DoubledRecords(dgram, alias);
    assert AS.Expected(known) == alias;
    assert [] + [62] == [62];
    assert AS.ScanAnswers(dgram, 66, 0, known, [62], alias) == AS.Complete(66, [62], alias);
    assert AS.ScanAnswers(dgram, 50, 1, known, [], alias) == AS.Complete(66, [62], alias);
    assert AS.ScanAnswers(dgram, 36, 2, qu, [], None) == AS.ScanAnswers(dgram, 50, 1, known, [], alias);
    assert AS.ScanAnswers(dgram, 19, 3, qu, [], None) == AS.ScanAnswers(dgram, 36, 2, qu, [], None);
  }

  /** Asked for the addresses of "a" and told the three records, the code makes room for one entry and
      comes to store two. */
  method RecordsOverrun() returns (r: R.Resolver, q: QId, e: Event, ghost before: State, aborted: bool)
    ensures fresh(r) && Sound(Settings(r), before) && e.Receives? && Allowed(e, before.queries, before.tcpstate, before.tcpsend)
    ensures q in before.queries && |e.dgram| >= DNS_HDRSIZE
    ensures RecordsBreak(before.queries[q], AS.ReadingOf(before.queries[q], e.dgram, e.parser, e.sameAddr), false)
    ensures Received(Settings(r), before, e, 1, Now(r), aborted) && aborted
  {
    hide R.Resolver.Valid, Awaited, Found, Taken, Remaining, ParseBuffer, Sound, Alone, ReplyTo, IsReply, Rcode, QueryPacket, Received;
    hide AS.ReadingOf, AS.Truncation, RR.Get16, QueryFor, RecordsBreak;
    r := new R.Resolver(1, [], 1, AnySize, NothingAtOnce);
    ghost var at;
    ghost var born := r.queries;
    q, aborted, at := r.Submit([A], Plain, DNS_TYPE_A, false, false, false, NoFlags, 0);
    PlainA();
    assert born[q := at] == map[q := at];
    before := Now(r);
    ConsistentIsSound(r);
    AskedByUdp(before, q, at);
    AloneFound(Settings(r), before, q, [[A]], ToSend, 0, 3, Doubled());
    OverrunReply(r.queries[q]);
    e := Receives(ReplyTo(r.queries[q].question, 0, 3, Doubled()), 0, false, NoParser, false);
    aborted := Receive(r, e, 1);
    AbortsThen(Settings(r), before, q, e, Now(r), aborted);
  }

  lemma OverrunReply(qu: Query)
    requires 0 <= qu.id < 0x1_0000 && qu.question == QueryPacket(qu.id, [[A]], DNS_TYPE_A) && qu.qtype == DNS_TYPE_A
    requires qu.rrtype == Plain && qu.cname.None? && qu.aliases == NoFlags
    ensures |qu.question| >= DNS_HDRSIZE
    ensures var dgram := ReplyTo(qu.question, 0, 3, Doubled());
      |dgram| >= DNS_HDRSIZE && RecordsBreak(qu, AS.ReadingOf(qu, dgram, NoParser, false), false)
  {
    hide NameAt, Walk, RR.Get16, FoldName, LinearEnd, TextLength, Doubled, AS.Truncation, AS.ReadingOf;
    var labels: seq<seq<Byte>> := [[A]];
    ShortName(A);
    WalkableFits(labels);
    PacketHolds(qu.id, labels, DNS_TYPE_A);
    WalkedFits(qu.id, labels, DNS_TYPE_A);
    ReplyAnswers(qu, labels, 0, 3, Doubled(), 0, true);
    var dgram := ReplyTo(qu.question, 0, 3, Doubled());
    assert dgram[19..] == Doubled();
    assert dgram[DNS_HDRSIZE..|qu.question|] == qu.question[DNS_HDRSIZE..];
    QuestionThere(qu.question, qu.id, DNS_TYPE_A, dgram);
    DoubledReading(qu, dgram);
  }

  // ---------------------------------------------------------------- a saved query that is gone

  /** A reverse look-up whose two children were tried on every server, on a broken connection. */
  function Reverse(): Table {
    var packet := QueryPacket(1, [], DNS_TYPE_A);
    var child := Fresh(Some(0), Addr, DNS_TYPE_A, true, true, NoFlags).(state := TcpW, id := 1, question := packet, retries := 2);
    map[0 := Fresh(None, Ptr, 12, true, false, NoFlags).(state := ChildW, id := 1, question := QueryPacket(1, [], 12),
                                                         children := [1, 2]),
        1 := child, 2 := child]
  }

  const Walking: State := Begun.(queries := Reverse(), tcpw := [1, 2], childw := [0], tcpstate := R.Broken, next := 3, tops := {0})

  /** The state is sound; the walk fails the first child and has saved the second, which is freed. */
  lemma SavedNextFreed(cfg: Config)
    requires cfg.nservers == 1
    ensures Sound(cfg, Walking) && Walking.tcpstate == R.Broken && Walking.tcpw == [1, 2]
    ensures 1 in Exhausted(Walking.queries, 1)
    ensures forall now :: Finished(Walking.queries, now, 1, StAllServFail, false) ==> 2 !in now
  {
    var t := Reverse();
    ReverseOk(cfg);
    ReverseKin();
    ReverseQueues();
    hide Reverse, AllOk, Kin, Queues, Resting, Accounts, Finished;
    assert t == Walking.queries;
    forall now | Finished(t, now, 1, StAllServFail, false)
      ensures 2 !in now
    {
      SavedNextGone(t, now, 1, 2, StAllServFail);
    }
  }

  lemma ReverseOk(cfg: Config)
    requires cfg.nservers == 1
    ensures AllOk(Reverse(), 1, cfg.searchlist)
  {
    hide QueryPacket, Asking;
    WalkedFits(1, [], DNS_TYPE_A);
    WalkedFits(1, [], 12);
  }

  lemma ReverseIs()
    ensures var t := Reverse();
      && t.Keys == {0, 1, 2} && t[0].state == ChildW && t[0].id == 1 && t[0].status == StOk && t[0].parent.None?
      && t[0].children == [1, 2] && t[0].rrtype == Ptr && t[1] == t[2] && t[1].state == TcpW && t[1].id == 1
      && t[1].status == StOk && t[1].parent == Some(0) && t[1].children == [] && t[1].retries == 2 && t[1].rrtype == Addr
  {
    hide QueryPacket;
  }

  lemma ReverseKin()
    ensures var t := Reverse();
      && Kin(t) && Resting(t, {}) && Awaited(t, {}) && TcpRetries(t, {}, 2) && 0 in t && 1 in t && 2 in t
      && OnNetwork(t[1]) && OnNetwork(t[2]) && t[1].parent == t[2].parent == Some(0) && t[0].rrtype == Ptr
      && 1 in Exhausted(t, 1)
  {
    ReverseIs();
    hide Reverse;
    var t := Reverse();
    assert [1, 2][0] == 1 && [1, 2][1] == 2;
    forall x | x in t
      ensures KinOk(t, x)
    {
      assert x == 0 || x == 1 || x == 2;
    }
  }

  lemma ReverseQueues()
    ensures Queues(Reverse(), [], [1, 2], [0], [], {}) && Accounts(Reverse(), 3, {}, {0}, {}, {})
  {
    ReverseIs();
    hide Reverse;
    var t := Reverse();
    assert forall x: QId :: x < 3 <==> x in t;
  }
}
