/** A query no server answers. */
module SilentNetwork {
  import opened Bytes
  import opened QueryTable
  import opened QuerySending
  import opened QueryTimeouts
  import R = Resolver
  import opened WireNames
  import opened TextNames
  import opened NameMethods

  /** Streamed: a datagram was too big, and what follows happens over TCP. */
  datatype Fate = Waiting(qu: Query) | TimedOut(qu: Query) | Streamed(qu: Query)

  /** One acting pass, for a query waiting over UDP that no reply reaches. */
  function Pass(qu: Query, when: int, nservers: nat, tooBig: TooBig): Fate
    requires nservers > 0
  {
    if when <= qu.timeout then Waiting(qu)
    else if qu.retries >= UDPMAXRETRIES then TimedOut(qu.(id := -1, state := Done, status := StTimeout))
    else if tooBig(qu.question, qu.udpNextServer, when) then Streamed(qu)
    else Waiting(UdpSent(qu, when, nservers))
  }

  /** A pass at each reading of the clock. */
  function Passes(qu: Query, times: seq<int>, nservers: nat, tooBig: TooBig): Fate
    requires nservers > 0
    decreases |times|
  {
    if times == [] then Waiting(qu)
    else match Pass(qu, times[0], nservers, tooBig)
      case Waiting(qu') => Passes(qu', times[1..], nservers, tooBig)
      case fate => fate
  }

  /** No datagram of this question is too big. */
  ghost predicate AlwaysFits(question: seq<Byte>, tooBig: TooBig) {
    forall server, at :: !tooBig(question, server, at)
  }

  /** Every attempt after the first waited for the one before to time out, which takes two seconds. */
  ghost predicate Spaced(attempts: seq<Attempt>) {
    forall i, j {:trigger attempts[i], attempts[j]} :: 0 <= i && j == i + 1 < |attempts| ==>
      attempts[j].at > attempts[i].at + 2_000_000
  }

  /** A query some datagrams were sent for, all unanswered. */
  ghost predicate Unanswered(qu: Query, nservers: nat)
    requires nservers > 0
  {
    && qu.attempts != [] && |qu.attempts| == qu.retries <= UDPMAXRETRIES && Rotates(qu, nservers) && Spaced(qu.attempts)
    && qu.timeout == qu.attempts[|qu.attempts| - 1].at + UDPRETRY
  }

  lemma PassUnanswered(qu: Query, when: int, nservers: nat, tooBig: TooBig)
    requires nservers > 0 && Unanswered(qu, nservers)
    ensures match Pass(qu, when, nservers, tooBig)
      case Waiting(qu') => Unanswered(qu', nservers) && qu.attempts <= qu'.attempts && qu'.question == qu.question
      case TimedOut(qu') => |qu'.attempts| == UDPMAXRETRIES && qu' == qu.(id := -1, state := Done, status := StTimeout)
      case Streamed(qu') => qu' == qu && !AlwaysFits(qu.question, tooBig)
  {
    if when > qu.timeout && qu.retries < UDPMAXRETRIES {
      NextServer(|qu.attempts|, nservers);
      var qu' := UdpSent(qu, when, nservers);
      assert forall a :: a in qu'.attempts <==> a in qu.attempts || a == Attempt(qu.udpNextServer, when);
      assert Asked(qu'.attempts) == Asked(qu.attempts) + {qu.udpNextServer};
    }
  }

  /** A query whose first datagram was sent and that no server answers asks the servers in turn, one
      attempt each time the one before timed out, and fails with a timeout after exactly
      UDPMAXRETRIES of them; only a datagram that is too big takes it elsewhere. */
  lemma {:induction false} AsksInTurn(qu: Query, times: seq<int>, nservers: nat, tooBig: TooBig)
    requires nservers > 0 && Unanswered(qu, nservers)
    ensures var fate := Passes(qu, times, nservers, tooBig);
      && qu.attempts <= fate.qu.attempts && Rotates(fate.qu, nservers) && Spaced(fate.qu.attempts)
      && fate.qu.question == qu.question
      && match fate
        case Waiting(qu') => Unanswered(qu', nservers)
        case TimedOut(qu') => qu'.state == Done && qu'.status == StTimeout && |qu'.attempts| == UDPMAXRETRIES
        case Streamed(_) => !AlwaysFits(qu.question, tooBig)
    decreases |times|
  {
    hide Rotates, Spaced, AlwaysFits;
    KeepsRecord(qu, nservers);
    if times != [] {
      PassUnanswered(qu, times[0], nservers, tooBig);
      match Pass(qu, times[0], nservers, tooBig)
      case Waiting(qu') => AsksInTurn(qu', times[1..], nservers, tooBig);
      case _ =>
    }
  }

  lemma KeepsRecord(qu: Query, nservers: nat)
    requires nservers > 0 && Unanswered(qu, nservers)
    ensures Rotates(qu, nservers) && Spaced(qu.attempts)
    ensures Rotates(qu.(id := -1, state := Done, status := StTimeout), nservers)
  {
  }

  /** The servers asked: all of them, if there are no more than attempts. */
  lemma ServersAsked(qu: Query, nservers: nat, s: nat)
    requires nservers > 0 && Rotates(qu, nservers)
    ensures s in qu.udpSent <==> s < nservers && s < |qu.attempts|
  {
    if s in qu.udpSent {
      var a :| a in qu.attempts && a.server == s;
      var k :| 0 <= k < |qu.attempts| && qu.attempts[k] == a;
      Modulo(k, nservers);
    }
    if s < nservers && s < |qu.attempts| {
      Modulo(s, nservers);
      assert qu.attempts[s].server == s;
      assert qu.attempts[s] in qu.attempts;
    }
  }

  lemma Modulo(k: nat, n: nat)
    requires n > 0
    ensures k % n <= k && k % n < n && (k < n ==> k % n == k)
  {
  }

  /** Enough readings of the clock, each late enough, end it. */
  lemma {:induction false} TimesOut(qu: Query, times: seq<int>, nservers: nat, tooBig: TooBig)
    requires nservers > 0 && Unanswered(qu, nservers)
    requires |times| + qu.retries > UDPMAXRETRIES
    requires times[0] > qu.timeout
    requires forall i, j {:trigger times[i], times[j]} :: 0 <= i && j == i + 1 < |times| ==> times[j] > times[i] + UDPRETRY
    ensures !Passes(qu, times, nservers, tooBig).Waiting?
    decreases |times|
  {
    PassUnanswered(qu, times[0], nservers, tooBig);
    if qu.retries < UDPMAXRETRIES && !tooBig(qu.question, qu.udpNextServer, times[0]) {
      var rest := times[1..];
      assert rest[0] == times[1];
      assert forall i :: 0 <= i < |rest| ==> rest[i] == times[i + 1];
      TimesOut(UdpSent(qu, times[0], nservers), rest, nservers, tooBig);
    }
  }

  /** A query's record is what its fate says. */
  predicate Meets(qu: Query, fate: Fate) {
    match fate
    case Waiting(qu') => qu == qu'
    case TimedOut(qu') => qu == qu'
    case Streamed(qu') => OverTcp(qu', qu)
  }

  /** Over TCP a query waits or is done, and no datagram is sent for it. */
  predicate OverTcp(was: Query, now: Query) {
    now.state in {TcpW, Done} && now.attempts == was.attempts && now.question == was.question && now.parent == was.parent
  }

  /** The resolver itself, processing timeouts at each reading of the clock with no reply in
      between: the query's record is what the passes make of it. aborted: a pass went wrong, see
      Resolver.PurgeTcp, which takes two queries asked for one reverse look-up. */
  method Wait(r: R.Resolver, q: QId, times: seq<int>) returns (aborted: bool)
    requires r.Consistent() && q in r.queries && r.queries[q].parent.None? && r.queries[q].state == ToSend
    requires r.nservers > 0 && Unanswered(r.queries[q], r.nservers)
    modifies r
    ensures r.Consistent() && q in r.queries
    ensures if aborted then Siblings(old(r.queries))
            else Meets(r.queries[q], Passes(old(r.queries)[q], times, r.nservers, r.tooBig))
  {
    hide Unanswered, Ticked, TcpTicked, R.Resolver.Valid, Awaited, Meets, Siblings, Parents, Later;
    aborted := false;
    LaterSelf(r.queries);
    ghost var all := Passes(r.queries[q], times, r.nservers, r.tooBig);
    assert times[0..] == times;
    for i := 0 to |times|
      invariant r.Consistent() && q in r.queries && r.queries[q].parent.None? && Later(old(r.queries), r.queries)
      invariant r.queries[q].state in {ToSend, TcpW, Done}
      invariant if r.queries[q].state == ToSend
        then Unanswered(r.queries[q], r.nservers) && Passes(r.queries[q], times[i..], r.nservers, r.tooBig) == all
        else Meets(r.queries[q], all) && (r.queries[q].state == TcpW ==> all.Streamed?)
    {
      assert times[i..][1..] == times[i + 1..];
      ghost var before, was := r.queries, r.queries[q];
      var strays := r.ProcessTimeouts(times[i]);
      LaterOn(old(r.queries), before, r.queries);
      if strays {
        SiblingsBefore(old(r.queries), before);
        StillThere(before, r.queries, q);
        return true;
      }
      if was.state == ToSend {
        TickIsPass(was, r.queries[q], times[i], r.nservers, r.tooBig);
      } else if was.state == TcpW {
        TcpTickKeeps(was, r.queries[q], times[i], r.nservers, all);
      }
    }
    StillWaits(r.queries[q], all, r.nservers, r.tooBig);
  }

  lemma TickIsPass(was: Query, now: Query, when: int, nservers: nat, tooBig: TooBig)
    requires nservers > 0 && was.state == ToSend && Unanswered(was, nservers) && Ticked(was, now, when, nservers, tooBig)
    ensures now.parent == was.parent && now.state in {ToSend, TcpW, Done}
    ensures Meets(now, Pass(was, when, nservers, tooBig))
    ensures now.state == ToSend <==> Pass(was, when, nservers, tooBig).Waiting?
    ensures now.state == ToSend ==> Unanswered(now, nservers) && Pass(was, when, nservers, tooBig) == Waiting(now)
    ensures now.state == TcpW ==> Pass(was, when, nservers, tooBig).Streamed?
  {
    AskedBefore(was, nservers);
    hide Unanswered, AlwaysFits;
    PassUnanswered(was, when, nservers, tooBig);
  }

  lemma AskedBefore(qu: Query, nservers: nat)
    requires nservers > 0 && Unanswered(qu, nservers)
    ensures qu.retries <= UDPMAXRETRIES
  {
  }

  lemma StillThere(was: Table, now: Table, q: QId)
    requires Later(was, now) && q in was && was[q].parent.None?
    ensures q in now
  {
  }

  lemma TcpTickKeeps(was: Query, now: Query, when: int, nservers: nat, fate: Fate)
    requires TcpTicked(was, now, when, nservers) && was.state == TcpW && fate.Streamed? && Meets(was, fate)
    ensures Meets(now, fate) && now.state in {TcpW, Done} && now.parent == was.parent
  {
  }

  lemma StillWaits(qu: Query, fate: Fate, nservers: nat, tooBig: TooBig)
    requires nservers > 0 && (if qu.state == ToSend then Passes(qu, [], nservers, tooBig) == fate else Meets(qu, fate))
    ensures Meets(qu, fate)
  {
  }

  lemma FirstDatagram(at: Query, when: int, nservers: nat)
    requires nservers > 0 && at.attempts == [] && at.retries == 0 && at.udpNextServer == 0 && at.udpSent == {}
    ensures Unanswered(UdpSent(at, when, nservers), nservers)
  {
    NextServer(0, nservers);
    var qu := UdpSent(at, when, nservers);
    assert qu.attempts == [Attempt(0, when)];
    assert Asked(qu.attempts) == {0};
  }

  /** The query asked about these labels in vain: as many datagrams as are allowed went out, to the
      servers in turn from the first on, each but the first when the one before had timed out. */
  ghost predicate InVain(qu: Query, labels: seq<seq<Byte>>, qtype: TypeCode, when: int, nservers: nat)
    requires nservers > 0
  {
    && LabelSizes(labels) && (exists id: nat :: id < 65536 && qu.question == QueryPacket(id, labels, qtype))
    && qu.state == Done && qu.status == StTimeout
    && |qu.attempts| == 15 && qu.attempts[0] == Attempt(0, when)
    && Rotates(qu, nservers) && Spaced(qu.attempts)
  }

  /** From submission to the end, with no server answering and no datagram too big: if one of the
      names makes a query, its servers are asked UDPMAXRETRIES times and it times out; otherwise it
      is over at once and nothing is sent. The record in the end is what the passes at the given times
      make of `asked`, the record after the first datagram. */
  method AskInVain(r: R.Resolver, owner: seq<Byte>, t: RRType, qtype: TypeCode, search: bool, quoteok: bool, aliases: AliasFlags,
                   when: int, times: seq<int>)
    returns (q: QId, aborted: bool, ghost asked: Query)
    requires r.Consistent() && r.nservers > 0 && forall i :: 0 <= i < |owner| ==> owner[i] != 0
    requires forall question, server, at :: !r.tooBig(question, server, at)
    requires |times| >= UDPMAXRETRIES && times[0] > when + UDPRETRY
    requires forall i, j {:trigger times[i], times[j]} :: 0 <= i && j == i + 1 < |times| ==> times[j] > times[i] + UDPRETRY
    modifies r
    ensures var o := Settled(owner, search, quoteok, r.searchlist, r.searchndots);
      && (o == Some(Astray) ==> aborted) && (aborted ==> o == Some(Astray) || Siblings(old(r.queries)))
      && (!aborted ==>
        && r.Consistent() && q in r.queries
        && (o.Some? && o.value.Good? ==>
          && InVain(r.queries[q], o.value.value, qtype, when, r.nservers)
          && asked.attempts == [Attempt(0, when)] && asked.timeout == when + UDPRETRY
          && r.queries[q] == Passes(asked, times, r.nservers, r.tooBig).qu)
        && (o.Some? && o.value.Refused? ==> FailedAtOnce(r.queries[q], StName(o.value.status)))
        && (o.None? ==> FailedAtOnce(r.queries[q], StNxDomain)))
  {
    hide Settled, Unanswered, QueryPacket, InVain, R.Resolver.Valid, Awaited, TcpTicked, Siblings, Kin, Queues, AllOk, Resting, TcpRetries, Accounts;
    ghost var at;
    r.Parts({});
    ghost var was, connected := r.queries, r.tcpstate == R.Connected;
    q, aborted, at := r.Submit(owner, t, qtype, search, false, quoteok, aliases, when);
    asked := at;
    if aborted {
      return;
    }
    ghost var o := Settled(owner, search, quoteok, r.searchlist, r.searchndots);
    AskedOnce(was[q := at], r.queries, q, at, o, when, r.nservers, r.tooBig, connected);
    if r.queries[q].state == ToSend {
      FirstDatagram(at, when, r.nservers);
      ghost var qu := r.queries[q];
      asked := qu;
      OneMoreTop(was, r.queries, q);
      TimesOut(qu, times, r.nservers, r.tooBig);
      AsksInTurn(qu, times, r.nservers, r.tooBig);
      aborted := Wait(r, q, times);
      if aborted {
        return;
      }
      VainlyAsked(at, qu, r.queries[q], o.value.value, qtype, when, times, r.nservers, r.tooBig);
    }
  }

  /** A new top-level query is nobody's sibling. */
  lemma OneMoreTop(was: Table, now: Table, q: QId)
    requires Kin(was) && q !in was && q in now && now[q].parent.None? && now == was[q := now[q]]
    ensures Siblings(now) ==> Siblings(was)
  {
    if Siblings(now) {
      var c, n: QId :|
        && c in now && n in now && c != n && now[c].parent.Some? && now[n].parent == now[c].parent
        && now[c].parent.value in now && now[now[c].parent.value].rrtype == Ptr;
      assert KinOk(was, c);
    }
  }

  /** The query is done, and no datagram was sent for it. */
  predicate FailedAtOnce(qu: Query, st: Status) {
    qu.state == Done && qu.status == st && qu.attempts == []
  }

  /** A new query was sent once, or is done without a datagram. */
  lemma AskedOnce(was: Table, now: Table, q: QId, at: Query, o: Option<Outcome<seq<seq<Byte>>>>, when: int,
                  nservers: nat, tooBig: TooBig, connected: bool)
    requires q in was && nservers > 0 && Asks(was, now, q, at, o, when, nservers, tooBig, connected, false)
    requires at.attempts == [] && at.retries == 0 && at.parent.None? && !at.usevc && at.state == ToSend
    requires forall question, server, time :: !tooBig(question, server, time)
    ensures q in now && now[q].parent.None?
    ensures if o.None? then FailedAtOnce(now[q], StNxDomain)
            else if o.value.Refused? then FailedAtOnce(now[q], StName(o.value.status))
            else o.value.Good? && LabelSizes(o.value.value) && 0 <= at.id && at.question == QueryPacket(at.id, o.value.value, at.qtype)
                 && now[q] == UdpSent(at, when, nservers)
  {
    hide QueryPacket;
  }

  lemma VainlyAsked(at: Query, qu: Query, now: Query, labels: seq<seq<Byte>>, qtype: TypeCode, when: int, times: seq<int>, nservers: nat,
                    tooBig: TooBig)
    requires nservers > 0 && qu == UdpSent(at, when, nservers) && at.attempts == [] && at.udpNextServer == 0
    requires 0 <= at.id < 65536 && LabelSizes(labels) && at.question == QueryPacket(at.id, labels, qtype)
    requires Unanswered(qu, nservers) && Meets(now, Passes(qu, times, nservers, tooBig))
    requires !Passes(qu, times, nservers, tooBig).Waiting? && AlwaysFits(qu.question, tooBig)
    ensures InVain(now, labels, qtype, when, nservers) && now == Passes(qu, times, nservers, tooBig).qu
  {
    hide QueryPacket, Rotates, Spaced, Unanswered;
    AsksInTurn(qu, times, nservers, tooBig);
    assert qu.attempts[0] == now.attempts[0];
  }
}
