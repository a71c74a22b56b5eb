/** Every run of the resolver. */
module ResolverRuns {
  import opened Bytes
  import opened Sequences
  import opened QueryTable
  import opened QueryEndings
  import opened QuerySending
  import opened QueryReplies
  import opened QueryTimeouts
  import opened WireNames
  import opened TextNames
  import opened NameMethods
  import R = Resolver
  import AS = AnswerSections

  /** What can happen to a resolver: calls of the user, the network and the clock. */
  datatype Event =
    | Submits(owner: seq<Byte>, t: RRType, qtype: TypeCode, search: bool, usevc: bool, quoteok: bool, aliases: AliasFlags)
    | Receives(dgram: seq<Byte>, serv: nat, viaTcp: bool, parser: AS.RecordParser, sameAddr: bool)
    | Connects
    | Moves(sent: nat, received: nat, skip: nat)
    | Breaks
    | Timer
    | Reports
    | Checks(query: Option<QId>)
    | Cancels(q: QId)

  datatype Config = Config(nservers: nat, searchlist: seq<seq<Byte>>, searchndots: nat, tooBig: TooBig, tcpWrite: TcpWrite)

  /** All a resolver keeps, at one moment. */
  datatype State = State(
    queries: Table,
    udpw: seq<QId>,
    tcpw: seq<QId>,
    childw: seq<QId>,
    output: seq<QId>,
    nextid: nat,
    tcpstate: R.TcpState,
    tcpserver: nat,
    tcpsocketOpen: bool,
    tcptimeout: Option<int>,
    tcpsend: seq<Byte>,
    wire: seq<Byte>,
    tcprecvUsed: nat,
    tcprecvSkip: nat,
    next: QId,
    freed: set<QId>,
    tops: set<QId>,
    returned: set<QId>,
    cancelled: set<QId>)

  ghost function Now(r: R.Resolver): State
    reads r
  {
    State(r.queries, r.udpw, r.tcpw, r.childw, r.output, r.nextid, r.tcpstate, r.tcpserver, r.tcpsocketOpen, r.tcptimeout,
          r.tcpsend, r.wire, r.tcprecvUsed, r.tcprecvSkip, r.next, r.freed, r.tops, r.returned, r.cancelled)
  }

  function Settings(r: R.Resolver): Config {
    Config(r.nservers, r.searchlist, r.searchndots, r.tooBig, r.tcpWrite)
  }

  const Begun: State :=
    State(map[], [], [], [], [], 12345, R.Disconnected, 0, false, None, [], [], 0, 0, 0, {}, {}, {}, {})

  // ---------------------------------------------------------------- what an event does

  /** The calls the code allows: a C string, handles the user holds, and what comes over the connection
      only while there is one. */
  predicate Allowed(e: Event, queries: Table, tcpstate: R.TcpState, tcpsend: seq<Byte>) {
    match e
    case Submits(owner, _, _, _, _, _, _) => forall i :: 0 <= i < |owner| ==> owner[i] != 0
    case Receives(_, _, viaTcp, _, _) => viaTcp ==> tcpstate == R.Connected
    case Connects => tcpstate == R.Connecting
    case Moves(sent, received, skip) => tcpstate == R.Connected && sent <= |tcpsend| && skip <= received
    case Breaks => tcpstate == R.Connecting || tcpstate == R.Connected
    case Checks(query) => query.Some? ==> query.value in queries && queries[query.value].parent.None?
    case Cancels(q) => q in queries && queries[q].parent.None?
    case _ => true
  }

  /** The record of a new query when its name was settled. */
  ghost predicate AsSubmitted(at: Query, e: Event, cfg: Config)
    requires e.Submits?
  {
    && at.rrtype == e.t && at.qtype == e.qtype && at.quoteok == e.quoteok && at.aliases == e.aliases && at.usevc == e.usevc
    && at.parent.None? && at.children == [] && at.state == ToSend && at.attempts == [] && at.retries == 0
    && (at.search <==> e.search && 0 < |e.owner| <= DNS_MAXDOMAIN + 1 && !IsComplete(e.owner))
    && (at.search ==>
      && at.owner == e.owner && at.bareFirst == (Dots(e.owner) >= cfg.searchndots)
      && var names := Names(e.owner, e.search, cfg.searchlist, cfg.searchndots);
      at.tried == names[..Taken(names, e.owner, e.quoteok)])
  }

  ghost predicate Submitted(cfg: Config, was: State, e: Event, when: int, now: State, aborted: bool)
    requires e.Submits? && cfg.nservers > 0
  {
    var o := Settled(e.owner, e.search, e.quoteok, cfg.searchlist, cfg.searchndots);
    && now.next == was.next + 1 && now.tops == was.tops + {was.next} && was.next !in was.queries && now.freed == was.freed
    && (aborted <==> o == Some(Astray))
    && (exists at ::
      && AsSubmitted(at, e, cfg)
      && Asks(was.queries[was.next := at], now.queries, was.next, at, o, when, cfg.nservers, cfg.tooBig,
              was.tcpstate == R.Connected, aborted))
  }

  ghost predicate Received(cfg: Config, was: State, e: Event, when: int, now: State, aborted: bool)
    requires e.Receives? && cfg.nservers > 0
  {
    var q := QueryFor(was.queries, was.udpw, was.tcpw, e.dgram, e.serv, e.viaTcp);
    && now.tops == was.tops
    && if q.None? then now == was && !aborted
       else
         && q.value in was.queries && was.queries[q.value].searchPos <= |cfg.searchlist| && IsReply(e.dgram)
         && var rcode, tc, ra := Rcode(e.dgram), AS.Truncation(e.dgram), e.dgram[3] / 128 == 1;
         var reading := AS.ReadingOf(was.queries[q.value], e.dgram, e.parser, e.sameAddr);
         (aborted <==> rcode in {0, 3} && GoesWrong(was.queries[q.value], reading, rcode, tc, cfg.searchlist))
         && if rcode !in {0, 3} then Finished(was.queries, now.queries, q.value, StRcode(rcode), false)
            else Interpreted(cfg, was, q.value, reading, rcode, tc, ra, was.nextid % 65536, when,
                             was.tcpstate == R.Connected, now, aborted)
  }

  ghost predicate Interpreted(cfg: Config, was: State, q: QId, reading: Reading, rcode: nat, tc: bool, ra: bool, id: nat,
                              when: int, connected: bool, now: State, aborted: bool)
    requires cfg.nservers > 0 && q in was.queries && was.queries[q].searchPos <= |cfg.searchlist|
  {
    exists at ::
      Replied(was.queries, now.queries, q, reading, rcode, tc, ra, at, id, when, cfg.nservers, cfg.searchlist, cfg.tooBig,
              connected, aborted)
  }

  /** The queues and the accounts are as they were. */
  ghost predicate SameQueues(was: State, now: State) {
    && now.udpw == was.udpw && now.tcpw == was.tcpw && now.childw == was.childw && now.output == was.output
    && now.next == was.next && now.freed == was.freed && now.tops == was.tops
  }

  ghost predicate Connecting(cfg: Config, was: State, now: State)
    requires cfg.nservers > 0
  {
    && SameQueues(was, now) && now.tcpstate in {R.Connected, R.Broken}
    && (exists i ::
      && 0 <= i <= |was.tcpw| && Retried(was.queries, now.queries, Elements(was.tcpw[..i]))
      && (if now.tcpstate == R.Connected then i == |was.tcpw| && now.tcpserver == was.tcpserver
          else i > 0 && now.tcpserver == (was.tcpserver + 1) % cfg.nservers && was.tcpw[i - 1] in was.queries
               && var qu := was.queries[was.tcpw[i - 1]]; cfg.tcpWrite(was.tcpserver, qu.question, qu.retries).None?))
  }

  ghost predicate Breaking(cfg: Config, was: State, now: State)
    requires cfg.nservers > 0
  {
    && SameQueues(was, now) && now.tcpstate == R.Broken && now.tcpserver == (was.tcpserver + 1) % cfg.nservers
    && Retried(was.queries, now.queries, if was.tcpstate == R.Connecting then Elements(was.tcpw) else {})
  }

  /** aborted: the walk over the queries of a broken connection comes to one that is gone. */
  ghost predicate TimePassed(cfg: Config, was: State, when: int, now: State, aborted: bool)
    requires cfg.nservers > 0
  {
    && (if aborted then Siblings(was.queries)
        else now.tcpstate != R.Broken && (now.tcpstate == R.Disconnected ==> now.tcpw == []))
    && Later(was.queries, now.queries) && Parents(was.queries, now.queries, Failing(was.queries, when, cfg.nservers))
    && now.tops == was.tops && Overdue(now.queries, when) == {} && DoneStay(was.queries, now.queries)
    && (forall x: QId :: x in was.queries && was.queries[x].parent.None? && was.queries[x].state == ToSend ==>
      x in now.queries && Ticked(was.queries[x], now.queries[x], when, cfg.nservers, cfg.tooBig))
    && (forall x: QId :: x in was.queries && was.queries[x].parent.None? && was.queries[x].state == TcpW ==>
      x in now.queries && TcpTicked(was.queries[x], now.queries[x], when, cfg.nservers))
  }

  /** The query adns_check hands back. */
  function Ready(was: State, query: Option<QId>): Option<QId> {
    if query.Some? then
      if query.value in was.queries && was.queries[query.value].state == Done then query else None
    else if was.output != [] then Some(was.output[0])
    else None
  }

  ghost predicate Checked(was: State, query: Option<QId>, now: State) {
    var q := Ready(was, query);
    && now.udpw == was.udpw && now.tcpw == was.tcpw && now.childw == was.childw && now.tops == was.tops
    && if q.None? then now.queries == was.queries && now.output == was.output
       else q.value in was.queries && was.queries[q.value].state == Done
            && now.queries == was.queries - {q.value} && now.output == Without(was.output, q.value)
  }

  /** Which answers leave the resolver for the user. */
  function Handed(was: State, e: Event): set<QId> {
    if e.Checks? && Ready(was, e.query).Some? then {Ready(was, e.query).value} else {}
  }

  ghost predicate Moving(was: State, sent: nat, received: nat, skip: nat, now: State) {
    && sent <= |was.tcpsend| && now.wire + now.tcpsend == was.wire + was.tcpsend
    && now == was.(tcpsend := was.tcpsend[sent..], wire := now.wire, tcprecvUsed := received, tcprecvSkip := skip)
  }

  ghost predicate Cancelled(was: State, q: QId, now: State) {
    Gone(was.queries, now.queries, q) && now.tops == was.tops
  }

  /** One event. aborted: the code goes wrong. */
  ghost predicate Step(cfg: Config, was: State, e: Event, when: int, now: State, aborted: bool)
    requires cfg.nservers > 0
  {
    && now.returned == was.returned + Handed(was, e)
    && now.cancelled == was.cancelled + (if e.Cancels? then {e.q} else {})
    && (aborted ==> e.Submits? || e.Receives? || e.Timer?)
    && match e
      case Submits(_, _, _, _, _, _, _) => Submitted(cfg, was, e, when, now, aborted)
      case Receives(_, _, _, _, _) => Received(cfg, was, e, when, now, aborted)
      case Connects => Connecting(cfg, was, now)
      case Moves(sent, received, skip) => Moving(was, sent, received, skip, now)
      case Breaks => Breaking(cfg, was, now)
      case Timer => TimePassed(cfg, was, when, now, aborted)
      case Reports => now == was.(tcptimeout := now.tcptimeout)
      case Checks(query) => Checked(was, query, now)
      case Cancels(q) => Cancelled(was, q, now)
  }

  // ---------------------------------------------------------------- the events

  method Submit(r: R.Resolver, e: Event, when: int) returns (aborted: bool)
    requires r.Consistent() && r.nservers > 0 && e.Submits? && forall i :: 0 <= i < |e.owner| ==> e.owner[i] != 0
    modifies r
    ensures !aborted ==> r.Consistent()
    ensures Submitted(Settings(r), old(Now(r)), e, when, Now(r), aborted)
    ensures r.returned == old(r.returned) && r.cancelled == old(r.cancelled)
  {
    hide R.Resolver.Valid, Awaited, Asks, Settled, Names, Taken, IsComplete;
    ghost var at;
    var q: QId;
    q, aborted, at := r.Submit(e.owner, e.t, e.qtype, e.search, e.usevc, e.quoteok, e.aliases, when);
    assert AsSubmitted(at, e, Settings(r));
  }

  method Receive(r: R.Resolver, e: Event, when: int) returns (aborted: bool)
    requires r.Consistent() && r.nservers > 0 && e.Receives?
    modifies r
    ensures !aborted ==> r.Consistent()
    ensures Received(Settings(r), old(Now(r)), e, when, Now(r), aborted)
    ensures r.returned == old(r.returned) && r.cancelled == old(r.cancelled)
  {
    hide R.Resolver.Valid, Awaited, Replied, Finished, GoesWrong, QueryFor, AS.ReadingOf;
    ghost var at;
    var q: Option<QId>;
    q, aborted, at := r.Reply(e.dgram, e.serv, e.viaTcp, e.parser, e.sameAddr, when);
  }

  method Check(r: R.Resolver, query: Option<QId>)
    requires r.Consistent() && (query.Some? ==> query.value in r.queries && r.queries[query.value].parent.None?)
    modifies r
    ensures r.Consistent() && Checked(old(Now(r)), query, Now(r))
    ensures r.returned == old(r.returned) + Handed(old(Now(r)), Checks(query)) && r.cancelled == old(r.cancelled)
  {
    hide R.Resolver.Valid, Awaited;
    var _ := r.Check(query);
  }

  method Connect(r: R.Resolver)
    requires r.Consistent() && r.nservers > 0 && r.tcpstate == R.Connecting
    modifies r
    ensures r.Consistent() && Connecting(Settings(r), old(Now(r)), Now(r))
    ensures r.returned == old(r.returned) && r.cancelled == old(r.cancelled)
  {
    hide R.Resolver.Valid, Awaited, Retried, Elements;
    r.TcpConnected();
  }

  method Break(r: R.Resolver)
    requires r.Consistent() && r.nservers > 0 && r.tcpstate in {R.Connecting, R.Connected}
    modifies r
    ensures r.Consistent() && Breaking(Settings(r), old(Now(r)), Now(r))
    ensures r.returned == old(r.returned) && r.cancelled == old(r.cancelled)
  {
    hide R.Resolver.Valid, Awaited, Retried, Elements;
    r.TcpBroken({});
  }

  method Elapse(r: R.Resolver, when: int) returns (aborted: bool)
    requires r.Consistent() && r.nservers > 0
    modifies r
    ensures r.Consistent() && TimePassed(Settings(r), old(Now(r)), when, Now(r), aborted)
    ensures r.returned == old(r.returned) && r.cancelled == old(r.cancelled)
  {
    hide R.Resolver.Valid, Awaited, Overdue, DoneStay, Ticked, TcpTicked, Later, Parents, Failing, Siblings;
    aborted := r.ProcessTimeouts(when);
  }

  method Move(r: R.Resolver, sent: nat, received: nat, skip: nat)
    requires r.Consistent() && r.tcpstate == R.Connected && sent <= |r.tcpsend| && skip <= received
    modifies r
    ensures r.Consistent() && Moving(old(Now(r)), sent, received, skip, Now(r))
    ensures r.returned == old(r.returned) && r.cancelled == old(r.cancelled)
  {
    hide R.Resolver.Valid, Awaited;
    r.MoveBytes(sent, received, skip);
  }

  method Cancel(r: R.Resolver, q: QId)
    requires r.Consistent() && q in r.queries && r.queries[q].parent.None?
    modifies r
    ensures r.Consistent() && Cancelled(old(Now(r)), q, Now(r))
    ensures r.returned == old(r.returned) && r.cancelled == old(r.cancelled) + {q}
  {
    hide R.Resolver.Valid, Awaited, Gone;
    r.CancelQuery(q);
  }

  method Happen(r: R.Resolver, e: Event, when: int) returns (aborted: bool)
    requires r.Consistent() && r.nservers > 0 && Allowed(e, r.queries, r.tcpstate, r.tcpsend)
    modifies r
    ensures !aborted ==> r.Consistent()
    ensures Step(Settings(r), old(Now(r)), e, when, Now(r), aborted)
  {
    hide R.Resolver.Valid, Awaited, Submitted, Received, Checked, Connecting, Breaking, TimePassed, Moving, Cancelled;
    aborted := false;
    match e {
      case Submits(_, _, _, _, _, _, _) =>
        aborted := Submit(r, e, when);
      case Receives(_, _, _, _, _) =>
        aborted := Receive(r, e, when);
      case Connects =>
        Connect(r);
      case Moves(sent, received, skip) =>
        Move(r, sent, received, skip);
      case Breaks =>
        Break(r);
      case Timer =>
        aborted := Elapse(r, when);
      case Reports =>
        var _ := r.FirstTimeout(when);
      case Checks(query) =>
        Check(r, query);
      case Cancels(q) =>
        Cancel(r, q);
    }
  }

  // ---------------------------------------------------------------- what holds at every moment

  ghost predicate Sound(cfg: Config, s: State) {
    && cfg.nservers > 0 && s.tcpserver < cfg.nservers && s.tcprecvSkip <= s.tcprecvUsed
    && (s.tcpsocketOpen <==> s.tcpstate in {R.Connecting, R.Connected})
    && (s.tcpstate == R.Connecting ==> s.tcptimeout.Some?)
    && Queues(s.queries, s.udpw, s.tcpw, s.childw, s.output, {}) && Kin(s.queries)
    && AllOk(s.queries, cfg.nservers, cfg.searchlist) && Resting(s.queries, {}) && Awaited(s.queries, {})
    && TcpRetries(s.queries, {}, cfg.nservers + 1)
    && Accounts(s.queries, s.next, s.freed, s.tops, s.returned, s.cancelled)
  }

  /** A top-level query is exactly one of waiting, ready for the user, returned and cancelled. */
  ghost predicate AccountedFor(s: State) {
    var waiting := set x: QId | x in s.tops && x in s.queries && s.queries[x].state != Done;
    && s.tops == waiting + Elements(s.output) + s.returned + s.cancelled
    && waiting !! Elements(s.output) !! s.returned !! s.cancelled
    && |s.tops| == |waiting| + |s.output| + |s.returned| + |s.cancelled|
  }

  lemma ConsistentIsSound(r: R.Resolver)
    requires r.Consistent()
    ensures Sound(Settings(r), Now(r)) && AccountedFor(Now(r))
  {
    hide R.Resolver.Valid, Queues, Kin, AllOk, Resting, Awaited, TcpRetries, Accounts;
    r.Parts({});
    TriesBounded(r.queries, r.Bound(), r.nservers + 1);
    ExactlyOnce(r.queries, r.next, r.freed, r.tops, r.returned, r.cancelled, r.output);
  }

  lemma TriesBounded(t: Table, a: nat, b: nat)
    requires TcpRetries(t, {}, a) && a <= b
    ensures TcpRetries(t, {}, b)
  {
  }

  /** The moments of a run, one after each event; events that are not allowed when they come are
      passed over. It ends early only where the code goes wrong, in the event before the last
      moment. */
  ghost predicate Follows(cfg: Config, states: seq<State>, events: seq<Event>, times: seq<int>, aborted: bool)
    requires cfg.nservers > 0 && |times| == |events|
  {
    && 0 < |states| <= |events| + 1 && states[0] == Begun
    && (if aborted then 1 < |states| else |states| == |events| + 1)
    && forall i :: 0 <= i < |states| - 1 ==>
      if Allowed(events[i], states[i].queries, states[i].tcpstate, states[i].tcpsend)
      then Step(cfg, states[i], events[i], times[i], states[i + 1], aborted && i == |states| - 2)
      else states[i + 1] == states[i]
  }

  /** Every run: each event does what it should to the state before it, and at every moment the
      resolver is consistent and every query accounted for. */
  method Run(nservers: nat, searchlist: seq<seq<Byte>>, searchndots: nat, tooBig: TooBig, tcpWrite: TcpWrite,
             events: seq<Event>, times: seq<int>)
    returns (r: R.Resolver, aborted: bool, ghost states: seq<State>)
    requires nservers > 0 && |times| == |events|
    ensures fresh(r) && (!aborted ==> r.Consistent())
    ensures var cfg := Config(nservers, searchlist, searchndots, tooBig, tcpWrite);
      && Follows(cfg, states, events, times, aborted) && states[|states| - 1] == Now(r)
      && forall i :: 0 <= i < |states| && !(aborted && i == |states| - 1) ==> Sound(cfg, states[i]) && AccountedFor(states[i])
  {
    hide R.Resolver.Valid, Awaited, Step, Sound, AccountedFor;
    r := new R.Resolver(nservers, searchlist, searchndots, tooBig, tcpWrite);
    aborted, states := false, [Now(r)];
    ghost var cfg := Settings(r);
    ConsistentIsSound(r);
    for k := 0 to |events|
      invariant fresh(r) && r.Consistent() && Settings(r) == cfg && |states| == k + 1
      invariant states[0] == Begun && states[k] == Now(r)
      invariant forall i :: 0 <= i < k ==>
        if Allowed(events[i], states[i].queries, states[i].tcpstate, states[i].tcpsend)
        then Step(cfg, states[i], events[i], times[i], states[i + 1], false)
        else states[i + 1] == states[i]
      invariant forall i :: 0 <= i <= k ==> Sound(cfg, states[i]) && AccountedFor(states[i])
    {
      ghost var before := states;
      if Allowed(events[k], r.queries, r.tcpstate, r.tcpsend) {
        aborted := Happen(r, events[k], times[k]);
        states := states + [Now(r)];
        if aborted {
          return;
        }
        ConsistentIsSound(r);
      } else {
        states := states + [states[k]];
      }
    }
  }

  /** A run that ends with adns_finish leaves no query: every one that was ever allocated was freed,
      and of those submitted, the ones that had not been returned were cancelled. */
  method RunAndFinish(nservers: nat, searchlist: seq<seq<Byte>>, searchndots: nat, tooBig: TooBig, tcpWrite: TcpWrite,
             events: seq<Event>,
                      times: seq<int>)
    returns (r: R.Resolver, aborted: bool, ghost states: seq<State>)
    requires nservers > 0 && |times| == |events|
    ensures Follows(Config(nservers, searchlist, searchndots, tooBig, tcpWrite), states, events, times, aborted)
    ensures !aborted ==>
      var s := states[|events|];
      && r.queries == map[] && r.udpw == r.tcpw == r.childw == r.output == []
      && (forall x: QId :: x < s.next <==> x in r.freed)
      && r.returned == s.returned && r.cancelled == s.tops - s.returned
  {
    hide R.Resolver.Valid, Awaited, Step, Follows, Sound;
    r, aborted, states := Run(nservers, searchlist, searchndots, tooBig, tcpWrite, events, times);
    FollowsTo(Config(nservers, searchlist, searchndots, tooBig, tcpWrite), states, events, times, aborted);
    if !aborted {
      r.Finish();
    }
  }

  lemma FollowsTo(cfg: Config, states: seq<State>, events: seq<Event>, times: seq<int>, aborted: bool)
    requires cfg.nservers > 0 && |times| == |events| && Follows(cfg, states, events, times, aborted)
    ensures !aborted ==> |states| == |events| + 1
  {
  }
}
