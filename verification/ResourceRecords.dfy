/** Resource records as they lie in a datagram, and adns__findrr_anychk, which reads one. */
module ResourceRecords {
  import opened Bytes
  import opened WireNames
  import opened NameMethods

  const MAXTTLBELIEVE: nat := 7 * 86400
  const WORD16: nat := 0x1_0000

  datatype Finding =
    | Record(rrtype: nat, rrclass: nat, ttl: nat, rdstart: nat, rdlen: nat, end: nat, matched: bool)
    | CutOff
    | NoName(why: Step)

  function Be32(x: nat): (s: seq<Byte>)
    ensures |s| == 4
  {
    Be16(x / WORD16) + Be16(x % WORD16)
  }

  /** The record behind its owner name: type, class, time to live, length, data. */
  function Body(rrtype: nat, rrclass: nat, ttl: nat, rdata: seq<Byte>): (s: seq<Byte>)
    ensures |s| == 10 + |rdata|
  {
    Be16(rrtype) + Be16(rrclass) + Be32(ttl) + Be16(|rdata|) + rdata
  }

  /** These values, and no others, can be read at the position. */
  ghost predicate Holds(dgram: seq<Byte>, pos: nat, rrtype: nat, rrclass: nat, ttl: nat, rdata: seq<Byte>) {
    && rrtype < WORD16 && rrclass < WORD16 && ttl < WORD16 * WORD16 && |rdata| < WORD16
    && At(dgram, pos, Body(rrtype, rrclass, ttl, rdata))
  }

  /** GET_W. */
  function Get16(dgram: seq<Byte>, pos: nat): (x: nat)
    requires pos + 2 <= |dgram|
    ensures x < WORD16
  {
    var hi: nat := dgram[pos];
    hi * 256 + dgram[pos + 1]
  }

  /** GET_L. */
  function Get32(dgram: seq<Byte>, pos: nat): (x: nat)
    requires pos + 4 <= |dgram|
    ensures x < WORD16 * WORD16
  {
    Get16(dgram, pos) * WORD16 + Get16(dgram, pos + 2)
  }

  lemma Get16Is(dgram: seq<Byte>, pos: nat, x: nat)
    requires pos + 2 <= |dgram| && x < WORD16
    ensures Get16(dgram, pos) == x <==> dgram[pos..pos + 2] == Be16(x)
  {
    var hi: nat, lo: nat := dgram[pos], dgram[pos + 1];
    var s := dgram[pos..pos + 2];
    assert s == [dgram[pos], dgram[pos + 1]];
    assert x == x / 256 * 256 + x % 256 && x / 256 < 256;
    if Get16(dgram, pos) == x {
      assert (hi * 256 + lo) / 256 == hi && (hi * 256 + lo) % 256 == lo;
    }
  }

  lemma Get32Is(dgram: seq<Byte>, pos: nat, x: nat)
    requires pos + 4 <= |dgram| && x < WORD16 * WORD16
    ensures Get32(dgram, pos) == x <==> dgram[pos..pos + 4] == Be32(x)
  {
    hide Get16, Be16;
    var hi, lo := Get16(dgram, pos), Get16(dgram, pos + 2);
    var s := dgram[pos..pos + 4];
    assert s == dgram[pos..pos + 2] + dgram[pos + 2..pos + 4];
    assert Be32(x)[..2] == Be16(x / WORD16) && Be32(x)[2..] == Be16(x % WORD16);
    assert x == x / WORD16 * WORD16 + x % WORD16 && x / WORD16 < WORD16;
    Get16Is(dgram, pos, x / WORD16);
    Get16Is(dgram, pos + 2, x % WORD16);
    if Get32(dgram, pos) == x {
      assert (hi * WORD16 + lo) / WORD16 == hi && (hi * WORD16 + lo) % WORD16 == lo;
    }
  }

  /** Reading the fields one by one is recognising the record as a whole. */
  lemma FieldsAre(dgram: seq<Byte>, pos: nat, rrtype: nat, rrclass: nat, ttl: nat, rdata: seq<Byte>)
    requires rrtype < WORD16 && rrclass < WORD16 && ttl < WORD16 * WORD16 && |rdata| < WORD16
    requires pos + 10 + |rdata| <= |dgram|
    ensures Holds(dgram, pos, rrtype, rrclass, ttl, rdata) <==>
      && Get16(dgram, pos) == rrtype && Get16(dgram, pos + 2) == rrclass && Get32(dgram, pos + 4) == ttl
      && Get16(dgram, pos + 8) == |rdata| && dgram[pos + 10..pos + 10 + |rdata|] == rdata
  {
    hide Get16, Get32, Be16, Be32;
    Get16Is(dgram, pos, rrtype);
    Get16Is(dgram, pos + 2, rrclass);
    Get32Is(dgram, pos + 4, ttl);
    Get16Is(dgram, pos + 8, |rdata|);
    Pieces(dgram, pos, Be16(rrtype), Be16(rrclass), Be32(ttl), Be16(|rdata|), rdata);
  }

  lemma Pieces(dgram: seq<Byte>, pos: nat, a: seq<Byte>, b: seq<Byte>, c: seq<Byte>, d: seq<Byte>, e: seq<Byte>)
    requires |a| == |b| == |d| == 2 && |c| == 4 && pos + 10 + |e| <= |dgram|
    ensures dgram[pos..pos + 10 + |e|] == a + b + c + d + e <==>
      && dgram[pos..pos + 2] == a && dgram[pos + 2..pos + 4] == b && dgram[pos + 4..pos + 8] == c
      && dgram[pos + 8..pos + 10] == d && dgram[pos + 10..pos + 10 + |e|] == e
  {
    hide At;
    AtSplit(dgram, pos, a + b + c + d, e);
    AtSplit(dgram, pos, a + b + c, d);
    AtSplit(dgram, pos, a + b, c);
    AtSplit(dgram, pos, a, b);
    AtIs(dgram, pos, a + b + c + d + e);
    AtIs(dgram, pos, a);
    AtIs(dgram, pos + 2, b);
    AtIs(dgram, pos + 4, c);
    AtIs(dgram, pos + 8, d);
    AtIs(dgram, pos + 10, e);
  }

  lemma AtIs(dgram: seq<Byte>, pos: nat, s: seq<Byte>)
    requires pos + |s| <= |dgram|
    ensures At(dgram, pos, s) <==> dgram[pos..pos + |s|] == s
  {
  }

  /** What a position holds is determined. */
  lemma HoldsUnique(dgram: seq<Byte>, pos: nat, t1: nat, c1: nat, l1: nat, d1: seq<Byte>, t2: nat, c2: nat, l2: nat, d2: seq<Byte>)
    requires Holds(dgram, pos, t1, c1, l1, d1) && Holds(dgram, pos, t2, c2, l2, d2)
    ensures t1 == t2 && c1 == c2 && l1 == l2 && d1 == d2
  {
    hide Get16, Get32;
    FieldsAre(dgram, pos, t1, c1, l1, d1);
    FieldsAre(dgram, pos, t2, c2, l2, d2);
  }

  /** The time to live the reader believes. */
  function Believed(ttl: nat): (b: nat)
    ensures b <= ttl && b <= 7 * 24 * 60 * 60 && (b == ttl || b == 7 * 24 * 60 * 60)
  {
    if ttl > MAXTTLBELIEVE then MAXTTLBELIEVE else ttl
  }

  /** What a finding says of the record at start, and of the name expected as its owner, if any. */
  ghost predicate Reads(dgram: seq<Byte>, start: nat, eo: Option<Located>, r: Finding) {
    match WalkAt(dgram, start)
    case Stopped(why) => r == if why == Truncated then CutOff else NoName(why)
    case Walked(labels, _) =>
      && LinearEnd(dgram, start).Some?
      && var pos := LinearEnd(dgram, start).value;
      match r
      case Record(rrtype, rrclass, ttl, rdstart, rdlen, end, matched) =>
        && rdstart == pos + 10 && end == rdstart + rdlen <= |dgram|
        && (exists sent :: Holds(dgram, pos, rrtype, rrclass, sent, dgram[rdstart..end]) && ttl == Believed(sent))
        && (matched <==> eo.Some? && FoldName(labels) == FoldName(LabelsAt(eo.value)))
      case CutOff => forall rrtype, rrclass, l, rdata :: !Holds(dgram, pos, rrtype, rrclass, l, rdata)
      case NoName(_) => false
  }

  /** The fields that follow the owner name. */
  function FieldsAt(dgram: seq<Byte>, pos: nat, matched: bool): Finding {
    if pos + 10 > |dgram| || pos + 10 + Get16(dgram, pos + 8) > |dgram| then CutOff
    else
      var rdlen := Get16(dgram, pos + 8);
      Record(Get16(dgram, pos), Get16(dgram, pos + 2), Believed(Get32(dgram, pos + 4)), pos + 10, rdlen, pos + 10 + rdlen, matched)
  }

  /** The record at start. */
  function RecordAt(dgram: seq<Byte>, start: nat, eo: Option<Located>): Finding {
    match WalkAt(dgram, start)
    case Stopped(why) => if why == Truncated then CutOff else NoName(why)
    case Walked(labels, end) =>
      if end.dmend.None? then CutOff
      else FieldsAt(dgram, end.dmend.value, eo.Some? && FoldName(labels) == FoldName(LabelsAt(eo.value)))
  }

  lemma RecordReads(dgram: seq<Byte>, start: nat, eo: Option<Located>)
    ensures Reads(dgram, start, eo, RecordAt(dgram, start, eo))
  {
    hide Walk, Holds, Get16, Get32, FoldName, LinearEnd, NameAt;
    var w := WalkAt(dgram, start);
    if w.Walked? {
      WalkIsName(dgram, Cursor(start, 0, |dgram|, None, false), w.labels);
      var pos := w.end.dmend.value;
      TooShort(dgram, pos);
      var r := RecordAt(dgram, start, eo);
      if r.Record? {
        FieldsAre(dgram, pos, r.rrtype, r.rrclass, Get32(dgram, pos + 4), dgram[r.rdstart..r.end]);
      }
    }
  }

  /** Nothing else can be said of it. */
  lemma ReadsOnly(dgram: seq<Byte>, start: nat, eo: Option<Located>, r: Finding)
    requires Reads(dgram, start, eo, r)
    ensures r == RecordAt(dgram, start, eo)
  {
    hide Walk, Holds, FoldName, LinearEnd;
    var r' := RecordAt(dgram, start, eo);
    RecordReads(dgram, start, eo);
    if r.Record? && r'.Record? {
      var pos := LinearEnd(dgram, start).value;
      var s :| Holds(dgram, pos, r.rrtype, r.rrclass, s, dgram[r.rdstart..r.end]) && r.ttl == Believed(s);
      var s' :| Holds(dgram, pos, r'.rrtype, r'.rrclass, s', dgram[r'.rdstart..r'.end]) && r'.ttl == Believed(s');
      HoldsUnique(dgram, pos, r.rrtype, r.rrclass, s, dgram[r.rdstart..r.end], r'.rrtype, r'.rrclass, s', dgram[r'.rdstart..r'.end]);
    }
  }

  /** adns__findrr_anychk: the record at start, and whether its owner is the expected name. */
  method FindRr(dgram: seq<Byte>, start: nat, eo: Option<Located>) returns (r: Finding)
    ensures Reads(dgram, start, eo, r) && r == RecordAt(dgram, start, eo)
  {
    hide Walk, NameAt, Holds, Get16, Get32, TextLength, LinearEnd, FoldName;
    RecordReads(dgram, start, eo);
    var owner := CompareOwner(dgram, start, eo);
    OwnerEnds(dgram, start, eo, owner);
    if owner.NoOwner? {
      return if owner.why == Truncated then CutOff else NoName(owner.why);
    }
    var cbyte := owner.end;
    if cbyte + 10 > |dgram| {
      return CutOff;
    }
    var rrtype, rrclass := Get16(dgram, cbyte), Get16(dgram, cbyte + 2);
    var ttl := Get32(dgram, cbyte + 4);
    if ttl > MAXTTLBELIEVE {
      ttl := MAXTTLBELIEVE;
    }
    var rdlen := Get16(dgram, cbyte + 8);
    var rdstart := cbyte + 10;
    if rdstart + rdlen > |dgram| {
      return CutOff;
    }
    r := Record(rrtype, rrclass, ttl, rdstart, rdlen, rdstart + rdlen, owner.matched);
  }

  lemma OwnerEnds(dgram: seq<Byte>, start: nat, eo: Option<Located>, owner: Owner)
    requires Compared(dgram, start, eo, owner)
    ensures owner.Owner? ==> WalkAt(dgram, start).Walked? && WalkAt(dgram, start).end.dmend == Some(owner.end)
  {
    hide Walk, NameAt, LinearEnd;
    var w := WalkAt(dgram, start);
    if w.Walked? {
      WalkIsName(dgram, Cursor(start, 0, |dgram|, None, false), w.labels);
    }
  }

  /** No record fits in where its header, or its data, does not. */
  lemma TooShort(dgram: seq<Byte>, pos: nat)
    ensures pos + 10 > |dgram| || pos + 10 + Get16(dgram, pos + 8) > |dgram| ==>
      forall rrtype, rrclass, ttl, rdata :: !Holds(dgram, pos, rrtype, rrclass, ttl, rdata)
  {
    hide Get16, Get32;
    forall rrtype, rrclass, ttl, rdata | Holds(dgram, pos, rrtype, rrclass, ttl, rdata)
      ensures pos + 10 <= |dgram| && pos + 10 + Get16(dgram, pos + 8) <= |dgram|
    {
      FieldsAre(dgram, pos, rrtype, rrclass, ttl, rdata);
    }
  }
}
