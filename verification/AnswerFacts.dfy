/** What the records of a reply mean for the query, told by the records as they lie. Numbers are those of
    sections 3.2.2 and 3.2.4 of RFC 1035: type 2 is NS, 5 CNAME, 6 SOA, class 1 is IN. */
module AnswerFacts {
  import opened Bytes
  import opened Sequences
  import opened WireNames
  import opened NameMethods
  import opened ResourceRecords
  import opened QueryTable
  import opened QueryReplies
  import opened AnswerSections

  /** Where the k-th record from a position on begins. */
  function Begins(dgram: seq<Byte>, pos: nat, k: nat): Option<nat>
    decreases k
  {
    if k == 0 then Some(pos)
    else
      var r := RecordAt(dgram, pos, None);
      if r.Record? then Begins(dgram, r.end, k - 1) else None
  }

  /** The k-th record from a position on. */
  function RecordNo(dgram: seq<Byte>, pos: nat, k: nat, eo: Option<Located>): Finding {
    var p := Begins(dgram, pos, k);
    if p.Some? then RecordAt(dgram, p.value, eo) else CutOff
  }

  predicate IsIn(r: Finding, rrtype: nat) {
    r.Record? && r.rrclass == 1 && r.rrtype == rrtype
  }

  lemma RecordNext(dgram: seq<Byte>, pos: nat, k: nat, eo: Option<Located>)
    ensures RecordNo(dgram, pos, 0, eo) == RecordAt(dgram, pos, eo)
    ensures RecordAt(dgram, pos, None).Record? <==> RecordAt(dgram, pos, eo).Record?
    ensures RecordAt(dgram, pos, eo).Record? ==> RecordNo(dgram, pos, k + 1, eo) == RecordNo(dgram, RecordAt(dgram, pos, eo).end, k, eo)
  {
    SameRecord(dgram, pos, None, eo);
    hide RecordAt;
  }

  // ---------------------------------------------------------------- no data

  lemma {:induction false} AuthorityIs(dgram: seq<Byte>, pos: nat, left: nat, ns: bool, m: nat)
    requires m <= left
    requires forall i :: 0 <= i < m ==> RecordNo(dgram, pos, i, None).Record? && !IsIn(RecordNo(dgram, pos, i, None), 6)
    requires m == left || IsIn(RecordNo(dgram, pos, m, None), 6)
    ensures ScanAuthority(dgram, pos, left, ns)
         == Seen(m < left, ns || exists i :: 0 <= i < m && IsIn(RecordNo(dgram, pos, i, None), 2))
    decreases left
  {
    hide RecordAt, RecordNo;
    if left > 0 {
      RecordNext(dgram, pos, 0, None);
      var r := RecordAt(dgram, pos, None);
      if m > 0 {
        assert RecordNo(dgram, pos, 0, None) == r;
        forall i: nat
          ensures RecordNo(dgram, pos, i + 1, None) == RecordNo(dgram, r.end, i, None)
        {
          RecordNext(dgram, pos, i, None);
        }
        var now := ns || IsIn(r, 2);
        AuthorityIs(dgram, r.end, left - 1, now, m - 1);
        if i :| 0 <= i < m && IsIn(RecordNo(dgram, pos, i, None), 2) {
          assert i == 0 || RecordNo(dgram, pos, i - 1 + 1, None) == RecordNo(dgram, r.end, i - 1, None);
        }
        if i :| 0 <= i < m - 1 && IsIn(RecordNo(dgram, r.end, i, None), 2) {
          assert RecordNo(dgram, pos, i + 1, None) == RecordNo(dgram, r.end, i, None);
        }
      }
    }
  }

  /** A reply without records of the type asked for says that there are none if the authority section has
      a SOA or no NS, as RFC 2308 has it. m counts the authority records before the first SOA. */
  lemma NoDataIff(qu: Query, dgram: seq<Byte>, parser: RecordParser, sameAddr: bool, m: nat)
    requires |dgram| >= DNS_HDRSIZE && !Truncation(dgram)
    requires var scan := ScanAnswers(dgram, |qu.question|, Get16(dgram, 6), qu, [], None);
      && scan.Complete? && scan.wanted == [] && m <= Get16(dgram, 8)
      && (forall i :: 0 <= i < m ==> RecordNo(dgram, scan.end, i, None).Record? && !IsIn(RecordNo(dgram, scan.end, i, None), 6))
      && (m == Get16(dgram, 8) || IsIn(RecordNo(dgram, scan.end, m, None), 6))
    ensures var scan := ScanAnswers(dgram, |qu.question|, Get16(dgram, 6), qu, [], None);
      var content := ReadingOf(qu, dgram, parser, sameAddr).content;
      && content.Nothing?
      && (content.nodata <==>
        || m < Get16(dgram, 8)
        || forall i :: 0 <= i < m ==> !IsIn(RecordNo(dgram, scan.end, i, None), 2))
  {
    hide ScanAnswers, ScanAuthority, RecordNo, Truncation, Get16;
    var scan := ScanAnswers(dgram, |qu.question|, Get16(dgram, 6), qu, [], None);
    AuthorityIs(dgram, scan.end, Get16(dgram, 8), false, m);
  }

  /** TC is the second bit of the flags. */
  lemma TruncationFlag(dgram: seq<Byte>, high: nat, tc: nat, rd: nat)
    requires |dgram| >= 12 && high < 64 && tc < 2 && rd < 2 && dgram[2] == 4 * high + 2 * tc + rd
    ensures Truncation(dgram) <==> tc == 1
  {
    var b: int := dgram[2];
    assert b / 2 == 2 * high + tc;
  }

  // ---------------------------------------------------------------- aliases

  /** The alias a scan gives, whatever it comes to. */
  predicate Owned(r: Finding, rrtype: nat) {
    IsIn(r, rrtype) && r.matched
  }

  /** An alias is taken from a CNAME record of the name asked for, ahead of which no record of the type
      asked for is that name's; and only where aliases are allowed, CNAMEs are not what was asked for, and
      none was known. */
  lemma {:induction false} AliasIsThere(dgram: seq<Byte>, pos: nat, left: nat, qu: Query, here: Option<Located>)
    requires here.None?
    ensures var scan := ScanAnswers(dgram, pos, left, qu, [], here);
      scan.here.Some? ==>
        && qu.cname.None? && !qu.aliases.forbid && qu.qtype != 5
        && exists k :: 0 <= k < left && AliasAt(dgram, pos, k, qu, scan.here.value)
    decreases left
  {
    hide RecordAt, ReadDomain, Readable, Expected, RecordNo;
    if left > 0 {
      FindingEnds(dgram, pos, Expected(qu));
      RecordNext(dgram, pos, 0, Expected(qu));
      var r := RecordAt(dgram, pos, Expected(qu));
      if r.Record? {
        match LookAt(dgram, r, qu, [], None)
        case Passed =>
          AliasIsThere(dgram, r.end, left - 1, qu, None);
          var scan := ScanAnswers(dgram, r.end, left - 1, qu, [], None);
          if scan.here.Some? {
            var k :| 0 <= k < left - 1 && AliasAt(dgram, r.end, k, qu, scan.here.value);
            AliasLater(dgram, pos, k, qu, scan.here.value);
          }
        case Wanted =>
          if qu.cname.None? {
            NoAliasOnceWanted(dgram, r.end, left - 1, qu, [] + [r.rdstart]);
          } else {
            NoAliasOnceKnown(dgram, r.end, left - 1, qu, [] + [r.rdstart], None);
          }
        case Alias(p) =>
          NoAliasOnceKnown(dgram, r.end, left - 1, qu.(cname := Some(p)), [], Some(p));
          assert AliasAt(dgram, pos, 0, qu, p);
        case Decides(scan) =>
      }
    }
  }

  /** The k-th record gives the alias. */
  ghost predicate AliasAt(dgram: seq<Byte>, pos: nat, k: nat, qu: Query, p: Located) {
    var r := RecordNo(dgram, pos, k, Expected(qu));
    && Owned(r, 5) && p.dgram == dgram && p.begin == r.rdstart
    && forall i :: 0 <= i < k ==>
      RecordNo(dgram, pos, i, Expected(qu)).Record? && !Owned(RecordNo(dgram, pos, i, Expected(qu)), qu.qtype)
  }

  lemma AliasLater(dgram: seq<Byte>, pos: nat, k: nat, qu: Query, p: Located)
    requires RecordAt(dgram, pos, Expected(qu)).Record? && !Owned(RecordAt(dgram, pos, Expected(qu)), qu.qtype)
    requires AliasAt(dgram, RecordAt(dgram, pos, Expected(qu)).end, k, qu, p)
    ensures AliasAt(dgram, pos, k + 1, qu, p)
  {
    hide RecordAt, RecordNo, Expected;
    var eo := Expected(qu);
    RecordNext(dgram, pos, k, eo);
    forall i | 0 <= i < k + 1
      ensures RecordNo(dgram, pos, i, eo).Record? && !Owned(RecordNo(dgram, pos, i, eo), qu.qtype)
    {
      if i > 0 {
        RecordNext(dgram, pos, i - 1, eo);
      }
    }
  }

  lemma {:induction false} NoAliasOnceWanted(dgram: seq<Byte>, pos: nat, left: nat, qu: Query, wanted: seq<nat>)
    requires wanted != [] && qu.cname.None?
    ensures ScanAnswers(dgram, pos, left, qu, wanted, None).here.None?
    decreases left
  {
    hide RecordAt, ReadDomain, Readable, Expected;
    if left > 0 {
      FindingEnds(dgram, pos, Expected(qu));
      var r := RecordAt(dgram, pos, Expected(qu));
      if r.Record? {
        match LookAt(dgram, r, qu, wanted, None)
        case Passed => NoAliasOnceWanted(dgram, r.end, left - 1, qu, wanted);
        case Wanted => NoAliasOnceWanted(dgram, r.end, left - 1, qu, wanted + [r.rdstart]);
        case _ =>
      }
    }
  }

  lemma {:induction false} NoAliasOnceKnown(dgram: seq<Byte>, pos: nat, left: nat, qu: Query, wanted: seq<nat>, here: Option<Located>)
    requires qu.cname.Some?
    ensures ScanAnswers(dgram, pos, left, qu, wanted, here).here == here
    decreases left
  {
    hide RecordAt, ReadDomain, Readable, Expected;
    if left > 0 {
      FindingEnds(dgram, pos, Expected(qu));
      var r := RecordAt(dgram, pos, Expected(qu));
      if r.Record? {
        match LookAt(dgram, r, qu, wanted, here)
        case Passed => NoAliasOnceKnown(dgram, r.end, left - 1, qu, wanted, here);
        case Wanted => NoAliasOnceKnown(dgram, r.end, left - 1, qu, wanted + [r.rdstart], here);
        case _ =>
      }
    }
  }

  /** Where aliases are forbidden, or one is known, a CNAME record of the name ends the query, unless the
      reply is unreadable ahead of it. */
  lemma {:induction false} AliasRefused(dgram: seq<Byte>, pos: nat, left: nat, qu: Query, wanted: seq<nat>, here: Option<Located>, k: nat)
    requires (qu.aliases.forbid || qu.cname.Some?) && qu.qtype != 5 && k < left
    requires forall i :: 0 <= i < k ==> RecordNo(dgram, pos, i, Expected(qu)).Record?
    requires Owned(RecordNo(dgram, pos, k, Expected(qu)), 5)
    ensures ScanAnswers(dgram, pos, left, qu, wanted, here) == Ends(StProhibitedCname, here)
    decreases left
  {
    hide RecordAt, ReadDomain, Readable, Expected, RecordNo;
    FindingEnds(dgram, pos, Expected(qu));
    RecordNext(dgram, pos, 0, Expected(qu));
    var r := RecordAt(dgram, pos, Expected(qu));
    if k > 0 {
      assert RecordNo(dgram, pos, 0, Expected(qu)) == r;
      forall i: nat | i < k
        ensures RecordNo(dgram, pos, i + 1, Expected(qu)) == RecordNo(dgram, r.end, i, Expected(qu))
      {
        RecordNext(dgram, pos, i, Expected(qu));
      }
      forall i: nat | i < k - 1
        ensures RecordNo(dgram, r.end, i, Expected(qu)).Record?
      {
        assert RecordNo(dgram, pos, i + 1, Expected(qu)).Record?;
      }
      assert RecordNo(dgram, pos, k - 1 + 1, Expected(qu)) == RecordNo(dgram, r.end, k - 1, Expected(qu));
      match LookAt(dgram, r, qu, wanted, here)
      case Passed => AliasRefused(dgram, r.end, left - 1, qu, wanted, here, k - 1);
      case Wanted => AliasRefused(dgram, r.end, left - 1, qu, wanted + [r.rdstart], here, k - 1);
      case _ =>
    }
  }

  // ---------------------------------------------------------------- names that cannot be read

  /** What an owner name that cannot be walked means for the query. */
  lemma OwnerUnreadable(qu: Query, dgram: seq<Byte>, parser: RecordParser, sameAddr: bool)
    requires |dgram| >= DNS_HDRSIZE && Get16(dgram, 6) > 0 && WalkAt(dgram, |qu.question|).Stopped?
    ensures ReadingOf(qu, dgram, parser, sameAddr).content ==
      match WalkAt(dgram, |qu.question|).why
      case UnknownFormat => Unreadable(StUnknownFormat)
      case DomainTooLong => Unreadable(StAnswerDomainTooLong)
      case Endless => Unending
      case Truncated => Cut
      case _ => Unreadable(StInvalidResponse)
  {
    hide Walk, Get16;
  }

  // ---------------------------------------------------------------- storing

  /** The names the records of these places ask for, in order. */
  function Asked(dgram: seq<Byte>, places: seq<nat>, t: RRType, parser: RecordParser): seq<Located> {
    if places == [] then []
    else
      var p := parser(places[|places| - 1]);
      Asked(dgram, places[..|places| - 1], t, parser) + (if p.Asks? then KidOf(dgram, p.begin, t) else [])
  }

  function AskedOne(dgram: seq<Byte>, place: nat, t: RRType, parser: RecordParser): seq<Located> {
    if parser(place).Asks? then KidOf(dgram, parser(place).begin, t) else []
  }

  lemma AskedLast(dgram: seq<Byte>, places: seq<nat>, place: nat, t: RRType, parser: RecordParser)
    ensures Asked(dgram, places + [place], t, parser) == Asked(dgram, places, t, parser) + AskedOne(dgram, place, t, parser)
  {
    assert (places + [place])[..|places|] == places;
  }

  lemma {:induction false} AskedFirst(dgram: seq<Byte>, place: nat, places: seq<nat>, t: RRType, parser: RecordParser)
    ensures Asked(dgram, [place] + places, t, parser) == AskedOne(dgram, place, t, parser) + Asked(dgram, places, t, parser)
    decreases |places|
  {
    hide AskedOne, Asked;
    if places == [] {
      assert [place] + places == [] + [place];
      AskedLast(dgram, [], place, t, parser);
      AskedNone(dgram, t, parser);
    } else {
      var n := |places| - 1;
      var head, last := places[..n], places[n];
      assert places == head + [last] && [place] + places == ([place] + head) + [last];
      AskedFirst(dgram, place, head, t, parser);
      AskedLast(dgram, head, last, t, parser);
      AskedLast(dgram, [place] + head, last, t, parser);
    }
  }

  lemma AskedNone(dgram: seq<Byte>, t: RRType, parser: RecordParser)
    ensures Asked(dgram, [], t, parser) == []
  {
  }

  /** Of the records that come, the first k are good; k is as many as there are, or as there is room for,
      or the next is not good. */
  lemma {:induction false} StoreIs(dgram: seq<Byte>, places: seq<nat>, room: nat, t: RRType, parser: RecordParser, sameAddr: bool, k: nat)
    requires k <= |places| && k <= room && forall i :: 0 <= i < k ==> Good(parser(places[i]))
    requires k == |places| || k == room || !Good(parser(places[k]))
    ensures Store(dgram, places, room, t, parser, sameAddr).0 == Asked(dgram, places[..k], t, parser)
    ensures Store(dgram, places, room, t, parser, sameAddr).1
         == if k == |places| then AllRead(sameAddr)
            else if k == room then Overrun
            else if parser(places[k]).Bad? then BadRecord(parser(places[k]).status)
            else CutShort
    decreases |places|
  {
    hide KidOf;
    if k > 0 {
      var rest := places[1..];
      assert forall i :: 0 <= i < |rest| ==> rest[i] == places[i + 1];
      StoreIs(dgram, rest, room - 1, t, parser, sameAddr, k - 1);
      assert places[..k] == [places[0]] + rest[..k - 1];
      AskedFirst(dgram, places[0], rest[..k - 1], t, parser);
      assert [] + Asked(dgram, rest[..k - 1], t, parser) == Asked(dgram, rest[..k - 1], t, parser);
    } else {
      assert places[..0] == [];
    }
  }

  /** Which names are asked for: those of hosts, by types that name hosts. */
  lemma WhoAsks(dgram: seq<Byte>, begin: nat, t: RRType)
    ensures KidOf(dgram, begin, t) == if Readable(Place(dgram, begin)) && t != Plain && t != Addr then [Place(dgram, begin)] else []
  {
  }
}
