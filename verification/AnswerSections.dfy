/** The two passes of adns__procdgram over the answer section, and the look at the authority section
    between them. */
module AnswerSections {
  import opened Bytes
  import opened Sequences
  import opened WireNames
  import opened NameMethods
  import opened ResourceRecords
  import opened QueryTable
  import opened QueryReplies

  const DNS_TYPE_NS: nat := 2
  const DNS_TYPE_CNAME: nat := 5
  const DNS_TYPE_SOA: nat := 6

  /** What the parser of the query's type makes of the data of a record, by where they lie: an entry
      of the answer, one that needs the addresses of the host named at `begin`, or no good. */
  datatype Parsed = Stored | Asks(begin: nat) | Bad(status: Status) | Short

  type RecordParser = nat -> Parsed

  /** A name that cannot be walked or printed. */
  function StatusOf(why: WireNames.Step): Status {
    if why == UnknownFormat then StUnknownFormat
    else if why == DomainTooLong then StAnswerDomainTooLong
    else StInvalidResponse
  }

  /** The owner adns__findrr expects: the alias if one is known, or the name asked for. */
  function Expected(qu: Query): Option<Located> {
    if qu.cname.Some? then qu.cname
    else if Readable(Place(qu.question, DNS_HDRSIZE)) then Some(Place(qu.question, DNS_HDRSIZE))
    else None
  }

  /** A query that waits for an answer has a name to expect, as adns__findrr_anychk asserts of it. */
  lemma SomethingExpected(qu: Query, nservers: nat, list: seq<seq<Byte>>)
    requires QueryOk(qu, nservers, list) && qu.id >= 0
    ensures Expected(qu).Some?
  {
  }

  // ---------------------------------------------------------------- the first pass

  /** The first pass. here: the alias the reply gave, wanted: where the data of the records of the type
      asked for lie. */
  datatype Scan =
    | Ends(st: Status, here: Option<Located>)
    | Runs(here: Option<Located>)
    | Broken(here: Option<Located>)
    | Complete(end: nat, wanted: seq<nat>, here: Option<Located>)

  /** What a matching record does to the first pass. */
  datatype Look = Passed | Wanted | Decides(scan: Scan) | Alias(p: Located)

  function LookAt(dgram: seq<Byte>, r: Finding, qu: Query, wanted: seq<nat>, here: Option<Located>): Look
    requires r.Record? && r.end <= |dgram| && r.end == r.rdstart + r.rdlen
  {
    if r.rrclass != DNS_CLASS_IN || !r.matched then Passed
    else if r.rrtype == DNS_TYPE_CNAME && qu.qtype != DNS_TYPE_CNAME then
      if qu.aliases.forbid || qu.cname.Some? then Decides(Ends(StProhibitedCname, here))
      else if wanted != [] then Passed
      else
        ReadIsReadable(dgram, r.rdstart, r.end, !qu.aliases.quotefail);
        match ReadDomain(dgram, Cursor(r.rdstart, 0, r.end, None, false), !qu.aliases.quotefail, true)
        case Name(_) => Alias(Place(dgram, r.rdstart))
        case NoText => Decides(Broken(here))
        case Unfit => Decides(Ends(StAnswerDomainInvalid, here))
        case Spoiled(why) => Decides(Ends(StatusOf(why), here))
        case Circle => Decides(Runs(here))
    else if r.rrtype == qu.qtype then Wanted
    else Passed
  }

  lemma FindingEnds(dgram: seq<Byte>, start: nat, eo: Option<Located>)
    ensures var r := RecordAt(dgram, start, eo); r.Record? ==> r.rdstart <= r.end <= |dgram| && r.end == r.rdstart + r.rdlen
  {
    hide Walk, Get16, Get32, FoldName;
  }

  /** The first loop, from a position with `left` records to come. */
  function ScanAnswers(dgram: seq<Byte>, pos: nat, left: nat, qu: Query, wanted: seq<nat>, here: Option<Located>): Scan
    decreases left
  {
    if left == 0 then Complete(pos, wanted, here)
    else
      FindingEnds(dgram, pos, Expected(qu));
      var r := RecordAt(dgram, pos, Expected(qu));
      match r
      case CutOff => Broken(here)
      case NoName(why) => if why == Endless then Runs(here) else Ends(StatusOf(why), here)
      case Record(_, _, _, _, _, _, _) =>
        match LookAt(dgram, r, qu, wanted, here)
        case Passed => ScanAnswers(dgram, r.end, left - 1, qu, wanted, here)
        case Wanted => ScanAnswers(dgram, r.end, left - 1, qu, wanted + [r.rdstart], here)
        case Alias(p) => ScanAnswers(dgram, r.end, left - 1, qu.(cname := Some(p)), wanted, Some(p))
        case Decides(scan) => scan
  }

  method FirstPass(dgram: seq<Byte>, anstart: nat, ancount: nat, qu: Query) returns (scan: Scan)
    ensures scan == ScanAnswers(dgram, anstart, ancount, qu, [], None)
  {
    hide RecordAt, LookAt, Expected;
    var cbyte, now, wanted, here := anstart, qu, [], None;
    for rri := 0 to ancount
      invariant ScanAnswers(dgram, anstart, ancount, qu, [], None) == ScanAnswers(dgram, cbyte, ancount - rri, now, wanted, here)
    {
      FindingEnds(dgram, cbyte, Expected(now));
      var r := FindRr(dgram, cbyte, Expected(now));
      if r.NoName? {
        return if r.why == Endless then Runs(here) else Ends(StatusOf(r.why), here);
      }
      if r.CutOff? {
        return Broken(here);
      }
      var look := Examine(dgram, r, now, wanted, here);
      match look {
        case Passed =>
        case Wanted =>
          wanted := wanted + [r.rdstart];
        case Alias(p) =>
          now, here := now.(cname := Some(p)), Some(p);
        case Decides(s) =>
          return s;
      }
      cbyte := r.end;
    }
    scan := Complete(cbyte, wanted, here);
  }

  /** The body of the first loop, once the record is found. */
  method Examine(dgram: seq<Byte>, r: Finding, qu: Query, wanted: seq<nat>, here: Option<Located>) returns (look: Look)
    requires r.Record? && r.end <= |dgram| && r.end == r.rdstart + r.rdlen
    ensures look == LookAt(dgram, r, qu, wanted, here)
  {
    hide ReadDomain, Readable;
    if r.rrclass != DNS_CLASS_IN {
      return Passed;
    }
    if !r.matched {
      return Passed;
    }
    if r.rrtype == DNS_TYPE_CNAME && qu.qtype != DNS_TYPE_CNAME {
      if qu.aliases.forbid {
        return Decides(Ends(StProhibitedCname, here));
      } else if qu.cname.Some? {
        return Decides(Ends(StProhibitedCname, here));
      } else if wanted != [] {
        return Passed;
      }
      ReadIsReadable(dgram, r.rdstart, r.end, !qu.aliases.quotefail);
      var text, _, used := ParseDomain(dgram, r.rdstart, r.rdstart + r.rdlen, !qu.aliases.quotefail);
      if text == NotPrinted(Endless) {
        return Decides(Runs(here));
      }
      if !used {
        return Decides(Broken(here));
      }
      if text.HostInvalid? {
        return Decides(Ends(StAnswerDomainInvalid, here));
      }
      if text.NotPrinted? {
        return Decides(Ends(StatusOf(text.why), here));
      }
      look := Alias(Place(dgram, r.rdstart));
    } else if r.rrtype == qu.qtype {
      look := Wanted;
    } else {
      look := Passed;
    }
  }

  // ---------------------------------------------------------------- the authority section

  datatype Authority = AuthorityEnds(st: Status) | AuthorityRuns | AuthorityBroken | Seen(soa: bool, ns: bool)

  function ScanAuthority(dgram: seq<Byte>, pos: nat, left: nat, ns: bool): Authority
    decreases left
  {
    if left == 0 then Seen(false, ns)
    else
      match RecordAt(dgram, pos, None)
      case CutOff => AuthorityBroken
      case NoName(why) => if why == Endless then AuthorityRuns else AuthorityEnds(StatusOf(why))
      case Record(rrtype, rrclass, _, _, _, end, _) =>
        if rrclass != DNS_CLASS_IN then ScanAuthority(dgram, end, left - 1, ns)
        else if rrtype == DNS_TYPE_SOA then Seen(true, ns)
        else ScanAuthority(dgram, end, left - 1, ns || rrtype == DNS_TYPE_NS)
  }

  method LookAtAuthority(dgram: seq<Byte>, nsstart: nat, nscount: nat) returns (a: Authority)
    ensures a == ScanAuthority(dgram, nsstart, nscount, false)
  {
    hide RecordAt;
    var cbyte, foundns := nsstart, false;
    for rri := 0 to nscount
      invariant ScanAuthority(dgram, nsstart, nscount, false) == ScanAuthority(dgram, cbyte, nscount - rri, foundns)
    {
      var r := FindRr(dgram, cbyte, None);
      if r.NoName? {
        return if r.why == Endless then AuthorityRuns else AuthorityEnds(StatusOf(r.why));
      }
      if r.CutOff? {
        return AuthorityBroken;
      }
      cbyte := r.end;
      if r.rrclass == DNS_CLASS_IN {
        if r.rrtype == DNS_TYPE_SOA {
          return Seen(true, foundns);
        } else if r.rrtype == DNS_TYPE_NS {
          foundns := true;
        }
      }
    }
    a := Seen(false, foundns);
  }

  // ---------------------------------------------------------------- the second pass

  /** A record the second pass takes: of the type asked for, owned by the name now expected. */
  predicate Takes(r: Finding, qtype: nat) {
    r.Record? && r.rrclass == DNS_CLASS_IN && r.rrtype == qtype && r.matched
  }

  /** Where the data of the records the second pass takes lie. */
  function Matches(dgram: seq<Byte>, pos: nat, left: nat, eo: Option<Located>, qtype: nat): seq<nat>
    decreases left
  {
    if left == 0 then []
    else
      var r := RecordAt(dgram, pos, eo);
      if !r.Record? then []
      else (if Takes(r, qtype) then [r.rdstart] else []) + Matches(dgram, r.end, left - 1, eo, qtype)
  }

  /** Storing the records of these places, where `room` entries were made for them: the names further
      queries ask for, and the end of it. */
  function Store(dgram: seq<Byte>, places: seq<nat>, room: nat, t: RRType, parser: RecordParser, sameAddr: bool):
    (seq<Located>, RecordsEnd)
  {
    if places == [] then ([], AllRead(sameAddr))
    else if room == 0 then ([], Overrun)
    else
      match parser(places[0])
      case Bad(st) => ([], BadRecord(st))
      case Short => ([], CutShort)
      case Stored => Store(dgram, places[1..], room - 1, t, parser, sameAddr)
      case Asks(begin) =>
        var (kids, end) := Store(dgram, places[1..], room - 1, t, parser, sameAddr);
        (KidOf(dgram, begin, t) + kids, end)
  }

  /** The query an entry asks, if its type does and there is a name. */
  function KidOf(dgram: seq<Byte>, begin: nat, t: RRType): (kids: seq<Located>)
    ensures |kids| <= 1
  {
    if Spawns(t) && Readable(Place(dgram, begin)) then [Place(dgram, begin)] else []
  }

  function After(kids: seq<Located>, rest: (seq<Located>, RecordsEnd)): (seq<Located>, RecordsEnd) {
    (kids + rest.0, rest.1)
  }

  lemma StoreNone(dgram: seq<Byte>, room: nat, t: RRType, parser: RecordParser, sameAddr: bool, kids: seq<Located>)
    ensures After(kids, Store(dgram, [], room, t, parser, sameAddr)) == (kids, AllRead(sameAddr))
  {
    assert kids + [] == kids;
  }

  lemma StoreFirst(dgram: seq<Byte>, place: nat, tail: seq<nat>, room: nat, t: RRType, parser: RecordParser, sameAddr: bool,
                   kids: seq<Located>)
    ensures var all := After(kids, Store(dgram, [place] + tail, room, t, parser, sameAddr));
      if room == 0 then all == (kids, Overrun)
      else match parser(place)
        case Bad(st) => all == (kids, BadRecord(st))
        case Short => all == (kids, CutShort)
        case Stored => all == After(kids, Store(dgram, tail, room - 1, t, parser, sameAddr))
        case Asks(begin) => all == After(kids + KidOf(dgram, begin, t), Store(dgram, tail, room - 1, t, parser, sameAddr))
  {
    hide KidOf;
    assert ([place] + tail)[1..] == tail && kids + [] == kids;
    if room > 0 && parser(place).Asks? {
      var kid, rest := KidOf(dgram, parser(place).begin, t), Store(dgram, tail, room - 1, t, parser, sameAddr).0;
      assert kids + (kid + rest) == (kids + kid) + rest;
    }
  }

  lemma MatchesNext(dgram: seq<Byte>, pos: nat, left: nat, eo: Option<Located>, qtype: nat)
    requires left > 0
    ensures var r := RecordAt(dgram, pos, eo);
      Matches(dgram, pos, left, eo, qtype)
      == if !r.Record? then []
         else if Takes(r, qtype) then [r.rdstart] + Matches(dgram, r.end, left - 1, eo, qtype)
         else Matches(dgram, r.end, left - 1, eo, qtype)
  {
    hide RecordAt, Takes;
  }

  method SecondPass(dgram: seq<Byte>, anstart: nat, ancount: nat, qu: Query, room: nat, parser: RecordParser, sameAddr: bool)
    returns (kids: seq<Located>, end: RecordsEnd)
    ensures (kids, end) == Store(dgram, Matches(dgram, anstart, ancount, Expected(qu), qu.qtype), room, qu.rrtype, parser, sameAddr)
  {
    hide RecordAt, Readable, Expected, Store, Matches, After, KidOf;
    var cbyte, nrrs := anstart, 0;
    kids := [];
    ghost var eo, t := Expected(qu), qu.rrtype;
    ghost var all := Store(dgram, Matches(dgram, anstart, ancount, eo, qu.qtype), room, t, parser, sameAddr);
    AfterNothing(all);
    for rri := 0 to ancount
      invariant nrrs <= room
      invariant all == After(kids, Store(dgram, Matches(dgram, cbyte, ancount - rri, eo, qu.qtype), room - nrrs, t, parser, sameAddr))
    {
      MatchesNext(dgram, cbyte, ancount - rri, eo, qu.qtype);
      StoreNone(dgram, room - nrrs, t, parser, sameAddr, kids);
      var r := FindRr(dgram, cbyte, Expected(qu));
      if !r.Record? {
        return kids, AllRead(sameAddr);
      }
      if Takes(r, qu.qtype) {
        StoreFirst(dgram, r.rdstart, Matches(dgram, r.end, ancount - rri - 1, eo, qu.qtype), room - nrrs, t, parser, sameAddr, kids);
        if nrrs == room {
          return kids, Overrun;
        }
        match parser(r.rdstart) {
          case Bad(st) =>
            return kids, BadRecord(st);
          case Short =>
            return kids, CutShort;
          case Stored =>
          case Asks(begin) =>
            kids := kids + KidOf(dgram, begin, qu.rrtype);
        }
        nrrs := nrrs + 1;
      }
      cbyte := r.end;
    }
    NoMatches(dgram, cbyte, eo, qu.qtype);
    StoreNone(dgram, room - nrrs, t, parser, sameAddr, kids);
    end := AllRead(sameAddr);
  }

  lemma AfterNothing(all: (seq<Located>, RecordsEnd))
    ensures After([], all) == all
  {
    assert [] + all.0 == all.0;
  }

  lemma NoMatches(dgram: seq<Byte>, pos: nat, eo: Option<Located>, qtype: nat)
    ensures Matches(dgram, pos, 0, eo, qtype) == []
  {
  }

  // ---------------------------------------------------------------- the whole reply

  /** TC. */
  predicate Truncation(dgram: seq<Byte>)
    requires |dgram| >= DNS_HDRSIZE
  {
    dgram[2] / 2 % 2 == 1
  }

  function RereadAnswers(qu: Query, dgram: seq<Byte>, wanted: seq<nat>, here: Option<Located>, parser: RecordParser, sameAddr: bool):
    Content
    requires |dgram| >= DNS_HDRSIZE
  {
    var eo := if here.Some? then here else Expected(qu);
    var (kids, end) :=
      Store(dgram, Matches(dgram, |qu.question|, Get16(dgram, 6), eo, qu.qtype), |wanted|, qu.rrtype, parser, sameAddr);
    Records(kids, end)
  }

  /** What a reply holds for a query. */
  function ReadingOf(qu: Query, dgram: seq<Byte>, parser: RecordParser, sameAddr: bool): Reading
    requires |dgram| >= DNS_HDRSIZE
  {
    match ScanAnswers(dgram, |qu.question|, Get16(dgram, 6), qu, [], None)
    case Ends(st, here) => Reading(here, Unreadable(st))
    case Runs(here) => Reading(here, Unending)
    case Broken(here) => Reading(here, Cut)
    case Complete(end, wanted, here) =>
      if Truncation(dgram) then Reading(here, Cut)
      else if wanted != [] then Reading(here, RereadAnswers(qu, dgram, wanted, here, parser, sameAddr))
      else
        match ScanAuthority(dgram, end, Get16(dgram, 8), false)
        case AuthorityEnds(st) => Reading(here, Unreadable(st))
        case AuthorityRuns => Reading(here, Unending)
        case AuthorityBroken => Reading(here, Cut)
        case Seen(soa, ns) => Reading(here, Nothing(soa || !ns))
  }

  /** adns__procdgram's reading of the sections. The queries it asks for the hosts it comes across on
      the second pass do not change what it reads. */
  method ReadReply(qu: Query, dgram: seq<Byte>, parser: RecordParser, sameAddr: bool) returns (r: Reading)
    requires |dgram| >= DNS_HDRSIZE
    ensures r == ReadingOf(qu, dgram, parser, sameAddr)
  {
    hide ScanAnswers, ScanAuthority, Store, Matches, Get16, Expected;
    var anstart, ancount, nscount := |qu.question|, Get16(dgram, 6), Get16(dgram, 8);
    var scan := FirstPass(dgram, anstart, ancount, qu);
    match scan {
      case Ends(st, here) =>
        return Reading(here, Unreadable(st));
      case Runs(here) =>
        return Reading(here, Unending);
      case Broken(here) =>
        return Reading(here, Cut);
      case Complete(nsstart, wanted, here) =>
        if Truncation(dgram) {
          return Reading(here, Cut);
        }
        if wanted == [] {
          var a := LookAtAuthority(dgram, nsstart, nscount);
          match a {
            case AuthorityEnds(st) =>
              return Reading(here, Unreadable(st));
            case AuthorityRuns =>
              return Reading(here, Unending);
            case AuthorityBroken =>
              return Reading(here, Cut);
            case Seen(soa, ns) =>
              return Reading(here, Nothing(soa || !ns));
          }
        }
        var now := if here.Some? then qu.(cname := here) else qu;
        ExpectedAlias(qu, here);
        var kids, end := SecondPass(dgram, anstart, ancount, now, |wanted|, parser, sameAddr);
        return Reading(here, Records(kids, end));
    }
  }

  lemma ExpectedAlias(qu: Query, here: Option<Located>)
    ensures here.Some? ==> Expected(qu.(cname := here)) == here
  {
  }

  // ---------------------------------------------------------------- whether the passes agree

  /** What is expected of an owner does not change where a record lies. */
  lemma SameRecord(dgram: seq<Byte>, pos: nat, a: Option<Located>, b: Option<Located>)
    ensures var r, r' := RecordAt(dgram, pos, a), RecordAt(dgram, pos, b);
      && (r.Record? <==> r'.Record?) && (r.Record? ==> r' == r.(matched := r'.matched))
  {
    hide Walk, FoldName, Get16, Get32;
  }

  /** With an alias known, the first pass wants what the second takes. */
  lemma {:induction false} ScanWithAlias(dgram: seq<Byte>, pos: nat, left: nat, qu: Query, wanted: seq<nat>, here: Option<Located>)
    requires qu.cname.Some? && ScanAnswers(dgram, pos, left, qu, wanted, here).Complete?
    ensures var scan := ScanAnswers(dgram, pos, left, qu, wanted, here);
      scan.here == here && scan.wanted == wanted + Matches(dgram, pos, left, qu.cname, qu.qtype)
    decreases left
  {
    hide RecordAt, ReadDomain, Readable;
    if left > 0 {
      FindingEnds(dgram, pos, Expected(qu));
      var r := RecordAt(dgram, pos, Expected(qu));
      var tail := Matches(dgram, r.end, left - 1, qu.cname, qu.qtype);
      if Takes(r, qu.qtype) {
        ScanWithAlias(dgram, r.end, left - 1, qu, wanted + [r.rdstart], here);
        assert wanted + ([r.rdstart] + tail) == wanted + [r.rdstart] + tail;
      } else {
        ScanWithAlias(dgram, r.end, left - 1, qu, wanted, here);
        assert [] + tail == tail;
      }
    } else {
      assert wanted + [] == wanted;
    }
  }

  /** The records before the one that gives the alias which the second pass takes all the same, their
      owner being the alias. */
  function Early(dgram: seq<Byte>, pos: nat, left: nat, qu: Query, eo: Option<Located>): seq<nat>
    decreases left
  {
    if left == 0 then []
    else
      FindingEnds(dgram, pos, Expected(qu));
      SameRecord(dgram, pos, Expected(qu), eo);
      var r, again := RecordAt(dgram, pos, Expected(qu)), RecordAt(dgram, pos, eo);
      if !r.Record? || LookAt(dgram, r, qu, [], None) != Passed then []
      else (if Takes(again, qu.qtype) then [r.rdstart] else []) + Early(dgram, r.end, left - 1, qu, eo)
  }

  /** Once a record is wanted, no alias is taken. */
  lemma {:induction false} ScanOnceWanted(dgram: seq<Byte>, pos: nat, left: nat, qu: Query, wanted: seq<nat>)
    requires wanted != [] && qu.cname.None? && ScanAnswers(dgram, pos, left, qu, wanted, None).Complete?
    ensures var scan := ScanAnswers(dgram, pos, left, qu, wanted, None);
      scan.here.None? && scan.wanted == wanted + Matches(dgram, pos, left, Expected(qu), qu.qtype)
    decreases left
  {
    hide RecordAt, ReadDomain, Readable, Expected;
    if left > 0 {
      FindingEnds(dgram, pos, Expected(qu));
      var r := RecordAt(dgram, pos, Expected(qu));
      var tail := Matches(dgram, r.end, left - 1, Expected(qu), qu.qtype);
      if Takes(r, qu.qtype) {
        ScanOnceWanted(dgram, r.end, left - 1, qu, wanted + [r.rdstart]);
        assert wanted + ([r.rdstart] + tail) == wanted + [r.rdstart] + tail;
      } else {
        ScanOnceWanted(dgram, r.end, left - 1, qu, wanted);
        assert [] + tail == tail;
      }
    } else {
      assert wanted + [] == wanted;
    }
  }

  /** The second pass takes what the first wanted, and before that, if the reply gave an alias, the
      records ahead of it that the alias owns. */
  lemma {:induction false} SecondTakes(dgram: seq<Byte>, pos: nat, left: nat, qu: Query)
    requires qu.cname.None? && ScanAnswers(dgram, pos, left, qu, [], None).Complete?
    ensures var scan := ScanAnswers(dgram, pos, left, qu, [], None);
      if scan.here.None? then Matches(dgram, pos, left, Expected(qu), qu.qtype) == scan.wanted
      else Matches(dgram, pos, left, scan.here, qu.qtype) == Early(dgram, pos, left, qu, scan.here) + scan.wanted
    decreases left
  {
    hide RecordAt, ReadDomain, Readable, Expected;
    if left > 0 {
      FindingEnds(dgram, pos, Expected(qu));
      var r := RecordAt(dgram, pos, Expected(qu));
      var scan := ScanAnswers(dgram, pos, left, qu, [], None);
      SameRecord(dgram, pos, Expected(qu), scan.here);
      match LookAt(dgram, r, qu, [], None)
      case Passed =>
        SecondTakes(dgram, r.end, left - 1, qu);
        var again := RecordAt(dgram, pos, scan.here);
        if scan.here.Some? && Takes(again, qu.qtype) {
          var early := Early(dgram, r.end, left - 1, qu, scan.here);
          assert [r.rdstart] + (early + scan.wanted) == [r.rdstart] + early + scan.wanted;
        }
      case Wanted =>
        assert [] + [r.rdstart] == [r.rdstart];
        ScanOnceWanted(dgram, r.end, left - 1, qu, [r.rdstart]);
      case Alias(p) =>
        ScanWithAlias(dgram, r.end, left - 1, qu.(cname := Some(p)), [], Some(p));
        assert [] + scan.wanted == scan.wanted;
      case Decides(_) =>
    }
  }

  predicate Good(p: Parsed) {
    p.Stored? || p.Asks?
  }

  /** Storing runs over exactly when there are more records than room and the first of them are good. */
  lemma {:induction false} StoreOverruns(dgram: seq<Byte>, places: seq<nat>, room: nat, t: RRType, parser: RecordParser, sameAddr: bool)
    ensures Store(dgram, places, room, t, parser, sameAddr).1.Overrun?
       <==> |places| > room && forall i :: 0 <= i < room ==> Good(parser(places[i]))
    decreases |places|
  {
    hide KidOf;
    if places != [] && room > 0 {
      StoreOverruns(dgram, places[1..], room - 1, t, parser, sameAddr);
      assert forall i :: 0 < i < |places| ==> places[i] == places[1..][i - 1];
      if |places| > room && forall i :: 0 <= i < room - 1 ==> Good(parser(places[1..][i])) {
        assert forall i :: 0 < i < room ==> Good(parser(places[i]));
      }
    }
  }

  /** The second pass comes across more records than the first made room for exactly when the reply
      gives an alias, records of the type asked for that the alias owns stand before it, and none of
      those taken first is bad. */
  lemma PassesDisagree(qu: Query, dgram: seq<Byte>, parser: RecordParser, sameAddr: bool)
    requires |dgram| >= DNS_HDRSIZE
    ensures var scan := ScanAnswers(dgram, |qu.question|, Get16(dgram, 6), qu, [], None);
      var content := ReadingOf(qu, dgram, parser, sameAddr).content;
      content.Records? && content.end.Overrun?
      <==>
        && scan.Complete? && scan.wanted != [] && !Truncation(dgram) && scan.here.Some?
        && var early := Early(dgram, |qu.question|, Get16(dgram, 6), qu, scan.here);
        early != [] && forall i :: 0 <= i < |scan.wanted| ==> Good(parser((early + scan.wanted)[i]))
  {
    hide ScanAnswers, ScanAuthority, Store, Matches, Early, Expected, Get16;
    var pos, n := |qu.question|, Get16(dgram, 6);
    var scan := ScanAnswers(dgram, pos, n, qu, [], None);
    if scan.Complete? {
      if qu.cname.Some? {
        KnownAlias(dgram, pos, n, qu);
      } else {
        SecondTakes(dgram, pos, n, qu);
      }
      var eo := if scan.here.Some? then scan.here else Expected(qu);
      StoreOverruns(dgram, Matches(dgram, pos, n, eo, qu.qtype), |scan.wanted|, qu.rrtype, parser, sameAddr);
    }
  }

  lemma KnownAlias(dgram: seq<Byte>, pos: nat, left: nat, qu: Query)
    requires qu.cname.Some? && ScanAnswers(dgram, pos, left, qu, [], None).Complete?
    ensures var scan := ScanAnswers(dgram, pos, left, qu, [], None);
      scan.here.None? && scan.wanted == Matches(dgram, pos, left, Expected(qu), qu.qtype)
  {
    ScanWithAlias(dgram, pos, left, qu, [], None);
    assert [] + Matches(dgram, pos, left, qu.cname, qu.qtype) == Matches(dgram, pos, left, qu.cname, qu.qtype);
  }
}
